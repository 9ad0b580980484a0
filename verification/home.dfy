/** The home page: the university list with its name search and the
    public/private label on each card. */
module Home {
  import opened Seqs
  import opened Strings
  import Search

  /** A university row as the home page lists it, newest first. */
  datatype University = University(id: string, name: string, kind: string)

  predicate NameMatches(u: University, search: string) {
    Contains(Lower(u.name), Lower(search))
  }

  /** `filteredUnis`: case-insensitive substring search on the Thai name. */
  function FilterUnis(unis: seq<University>, search: string): (shown: seq<University>)
    ensures forall i :: 0 <= i < |shown| ==> shown[i] in unis && NameMatches(shown[i], search)
    ensures forall i :: 0 <= i < |unis| && NameMatches(unis[i], search) ==> unis[i] in shown
  {
    var matches := (u: University) => NameMatches(u, search);
    FilterMembers(unis, matches);
    Filter(unis, matches)
  }

  /** The list keeps the backend's newest-first order, and an empty search
      lists every university. */
  lemma FilterUnisFacts(unis: seq<University>, search: string)
    ensures IsSubsequence(FilterUnis(unis, search), unis)
    ensures search == "" ==> FilterUnis(unis, search) == unis
  {
    FilterIsSubsequence(unis, u => NameMatches(u, search));
    if search == "" {
      assert Lower("") == "";
      forall i | 0 <= i < |unis|
        ensures NameMatches(unis[i], search)
      {
        assert "" <= Lower(unis[i].name);
      }
      FilterKeepsAll(unis, u => NameMatches(u, search));
    }
  }

  /** Typing more narrows the list. */
  lemma LongerSearchNarrows(u: University, search: string, more: string)
    requires NameMatches(u, search + more)
    ensures NameMatches(u, search)
  {
    LowerConcat(search, more);
    ContainsPrefix(Lower(u.name), Lower(search), Lower(more));
  }

  /** A university name the home page's substring search finds also
      fuzzy-matches the same text in the header's search. */
  lemma HomeMatchIsFuzzyMatch(u: University, search: string)
    requires NameMatches(u, search)
    ensures Search.Matches(u.name, search)
  {
    ContainsIsSubsequence(Lower(u.name), Lower(search));
  }

  /** The header's search, run over the fetched rows with the same text,
      makes a university the home page finds one of its candidates: a row
      with that Thai name becomes a university hit. */
  lemma HomeMatchIsCandidate(u: University, row: Search.Row, unis: seq<Search.Row>, facs: seq<Search.Row>, progs: seq<Search.Row>, search: string)
    requires NameMatches(u, search) && row in unis && row.nameTh == u.name
    ensures Search.Hit(Search.UniversityKind, row) in Search.Candidates(unis, facs, progs, search)
  {
    HomeMatchIsFuzzyMatch(u, search);
    var i :| 0 <= i < |unis| && unis[i] == row;
    assert Search.IsCandidate(unis[i], search);
  }

  const PublicLabel := "รัฐบาล"
  const PrivateLabel := "เอกชน"

  /** Only the exact type "Public" is labelled public; anything else,
      including a differently cased type, reads as private. */
  function TypeLabel(kind: string): (text: string)
    ensures text == PublicLabel <==> kind == "Public"
    ensures text == PrivateLabel <==> kind != "Public"
  {
    if kind == "Public" then PublicLabel else PrivateLabel
  }
}
