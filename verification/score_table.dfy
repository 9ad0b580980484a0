/** The TCAS exam-score table: the fixed score catalogue, key-to-label
    lookup, grouping of a review's scores by key prefix, the colour bands
    and the progress-bar width. */
module ScoreTable {
  import opened Options
  import opened Seqs
  import opened Strings
  import opened Reviews

  datatype ScoreType = ScoreType(key: string, caption: string)

  const TgatScores: seq<ScoreType> := [
    ScoreType("TGAT1", "TGAT1 การสื่อสารภาษาอังกฤษ"),
    ScoreType("TGAT2", "TGAT2 การคิดวิเคราะห์"),
    ScoreType("TGAT3", "TGAT3 สมรรถนะการทำงาน")
  ]

  const TpatScores: seq<ScoreType> := [
    ScoreType("TPAT1", "TPAT1 ความถนัดแพทย์ (กสพท.)"),
    ScoreType("TPAT2", "TPAT2 ความถนัดศิลปกรรมศาสตร์"),
    ScoreType("TPAT3", "TPAT3 วิทย์-เทคโนโลยี-วิศวะ"),
    ScoreType("TPAT4", "TPAT4 ความถนัดสถาปัตยกรรม"),
    ScoreType("TPAT5", "TPAT5 ครุศาสตร์-ศึกษาศาสตร์")
  ]

  const ALevelScores: seq<ScoreType> := [
    ScoreType("A_Math1", "คณิตศาสตร์ประยุกต์ 1"),
    ScoreType("A_Math2", "คณิตศาสตร์ประยุกต์ 2"),
    ScoreType("A_Sci", "วิทยาศาสตร์ประยุกต์"),
    ScoreType("A_Phy", "ฟิสิกส์"),
    ScoreType("A_Chem", "เคมี"),
    ScoreType("A_Bio", "ชีววิทยา"),
    ScoreType("A_Thai", "ภาษาไทย"),
    ScoreType("A_Eng", "ภาษาอังกฤษ"),
    ScoreType("A_Soc", "สังคมศึกษา"),
    ScoreType("A_FR", "ภาษาฝรั่งเศส"),
    ScoreType("A_DE", "ภาษาเยอรมัน"),
    ScoreType("A_ZH", "ภาษาจีน"),
    ScoreType("A_JA", "ภาษาญี่ปุ่น"),
    ScoreType("A_KO", "ภาษาเกาหลี"),
    ScoreType("A_PA", "ภาษาบาลี")
  ]

  /** `ALL_SCORE_TYPES`: the three categories flattened in order. */
  const AllScoreTypes: seq<ScoreType> := TgatScores + TpatScores + ALevelScores

  datatype Category = Tgat | Tpat | ALevel | Other

  /** The group a key lands in: the first matching prefix among "TGAT",
      "TPAT" and "A_", else the other group. */
  function CategoryOf(key: string): Category {
    if "TGAT" <= key then Tgat
    else if "TPAT" <= key then Tpat
    else if "A_" <= key then ALevel
    else Other
  }

  /** A key is routed by the first of its prefixes to match, and a key with
      none of them goes to the other group. */
  lemma CategoryOfPrefixes(key: string)
    ensures CategoryOf(key) == Tgat <==> "TGAT" <= key
    ensures CategoryOf(key) == Tpat <==> "TPAT" <= key && !("TGAT" <= key)
    ensures CategoryOf(key) == ALevel <==> "A_" <= key && !("TGAT" <= key) && !("TPAT" <= key)
    ensures CategoryOf(key) == Other <==> !("TGAT" <= key) && !("TPAT" <= key) && !("A_" <= key)
  {
  }

  /** `scoreNameMap`: each catalogue entry assigned in turn, so a later
      entry with the same key would win. */
  function NameMap(items: seq<ScoreType>): (m: map<string, string>)
    ensures |items| > 0 ==> items[|items| - 1].key in m
  {
    if |items| == 0 then map[]
    else NameMap(items[..|items| - 1])[items[|items| - 1].key := items[|items| - 1].caption]
  }

  /** The map's keys are exactly the catalogue's keys. */
  lemma {:induction false} NameMapKeys(items: seq<ScoreType>)
    ensures forall i :: 0 <= i < |items| ==> items[i].key in NameMap(items)
    ensures forall k :: k in NameMap(items) ==> exists i :: 0 <= i < |items| && items[i].key == k
  {
    if |items| > 0 {
      var init := items[..|items| - 1];
      NameMapKeys(init);
      forall k | k in NameMap(items)
        ensures exists i :: 0 <= i < |items| && items[i].key == k
      {
        if k != items[|items| - 1].key {
          assert k in NameMap(init);
          var i :| 0 <= i < |init| && init[i].key == k;
          assert items[i] == init[i];
        }
      }
    }
  }

  predicate DistinctKeys(items: seq<ScoreType>) {
    forall i, j :: 0 <= i < j < |items| ==> items[i].key != items[j].key
  }

  /** With distinct keys, every catalogue key maps to its own label. */
  lemma {:induction false} NameMapLookup(items: seq<ScoreType>, i: int)
    requires DistinctKeys(items)
    requires 0 <= i < |items|
    ensures items[i].key in NameMap(items)
    ensures NameMap(items)[items[i].key] == items[i].caption
    decreases |items|
  {
    NameMapKeys(items);
    if i < |items| - 1 {
      NameMapLookup(items[..|items| - 1], i);
    }
  }

  lemma TgatRouting()
    ensures forall i :: 0 <= i < |TgatScores| ==> CategoryOf(TgatScores[i].key) == Tgat && TgatScores[i].caption != ""
  {
    forall i | 0 <= i < |TgatScores|
      ensures CategoryOf(TgatScores[i].key) == Tgat && TgatScores[i].caption != ""
    {
      if i == 0 {
      } else if i == 1 {
      } else if i == 2 {
      }
    }
  }

  lemma TpatRouting()
    ensures forall i :: 0 <= i < |TpatScores| ==> CategoryOf(TpatScores[i].key) == Tpat && TpatScores[i].caption != ""
  {
    forall i | 0 <= i < |TpatScores|
      ensures CategoryOf(TpatScores[i].key) == Tpat && TpatScores[i].caption != ""
    {
      if i == 0 {
        assert TpatScores[0].key[1] == 'P' && "TGAT"[1] == 'G';
      } else if i == 1 {
        assert TpatScores[1].key[1] == 'P' && "TGAT"[1] == 'G';
      } else if i == 2 {
        assert TpatScores[2].key[1] == 'P' && "TGAT"[1] == 'G';
      } else if i == 3 {
        assert TpatScores[3].key[1] == 'P' && "TGAT"[1] == 'G';
      } else if i == 4 {
        assert TpatScores[4].key[1] == 'P' && "TGAT"[1] == 'G';
      }
    }
  }

  lemma ALevelRouting()
    ensures forall i :: 0 <= i < |ALevelScores| ==> CategoryOf(ALevelScores[i].key) == ALevel && ALevelScores[i].caption != ""
  {
    forall i | 0 <= i < |ALevelScores|
      ensures CategoryOf(ALevelScores[i].key) == ALevel && ALevelScores[i].caption != ""
    {
      if i == 0 {
        assert ALevelScores[0].key[0] == 'A' && "TGAT"[0] == 'T' && "TPAT"[0] == 'T';
      } else if i == 1 {
        assert ALevelScores[1].key[0] == 'A' && "TGAT"[0] == 'T' && "TPAT"[0] == 'T';
      } else if i == 2 {
        assert ALevelScores[2].key[0] == 'A' && "TGAT"[0] == 'T' && "TPAT"[0] == 'T';
      } else if i == 3 {
        assert ALevelScores[3].key[0] == 'A' && "TGAT"[0] == 'T' && "TPAT"[0] == 'T';
      } else if i == 4 {
        assert ALevelScores[4].key[0] == 'A' && "TGAT"[0] == 'T' && "TPAT"[0] == 'T';
      } else if i == 5 {
        assert ALevelScores[5].key[0] == 'A' && "TGAT"[0] == 'T' && "TPAT"[0] == 'T';
      } else if i == 6 {
        assert ALevelScores[6].key[0] == 'A' && "TGAT"[0] == 'T' && "TPAT"[0] == 'T';
      } else if i == 7 {
        assert ALevelScores[7].key[0] == 'A' && "TGAT"[0] == 'T' && "TPAT"[0] == 'T';
      } else if i == 8 {
        assert ALevelScores[8].key[0] == 'A' && "TGAT"[0] == 'T' && "TPAT"[0] == 'T';
      } else if i == 9 {
        assert ALevelScores[9].key[0] == 'A' && "TGAT"[0] == 'T' && "TPAT"[0] == 'T';
      } else if i == 10 {
        assert ALevelScores[10].key[0] == 'A' && "TGAT"[0] == 'T' && "TPAT"[0] == 'T';
      } else if i == 11 {
        assert ALevelScores[11].key[0] == 'A' && "TGAT"[0] == 'T' && "TPAT"[0] == 'T';
      } else if i == 12 {
        assert ALevelScores[12].key[0] == 'A' && "TGAT"[0] == 'T' && "TPAT"[0] == 'T';
      } else if i == 13 {
        assert ALevelScores[13].key[0] == 'A' && "TGAT"[0] == 'T' && "TPAT"[0] == 'T';
      } else if i == 14 {
        assert ALevelScores[14].key[0] == 'A' && "TGAT"[0] == 'T' && "TPAT"[0] == 'T';
      }
    }
  }

  /** The catalogue holds 3 TGAT, 5 TPAT and 15 A-Level keys, each with a
      non-empty label, and each key's prefix routes it to its own group. */
  lemma CatalogueRouting()
    ensures |TgatScores| == 3 && |TpatScores| == 5 && |ALevelScores| == 15 && |AllScoreTypes| == 23
    ensures forall i :: 0 <= i < |AllScoreTypes| ==>
      CategoryOf(AllScoreTypes[i].key) == (if i < 3 then Tgat else if i < 8 then Tpat else ALevel)
    ensures forall i :: 0 <= i < |AllScoreTypes| ==> AllScoreTypes[i].caption != ""
  {
    TgatRouting();
    TpatRouting();
    ALevelRouting();
    forall i | 0 <= i < |AllScoreTypes|
      ensures CategoryOf(AllScoreTypes[i].key) == (if i < 3 then Tgat else if i < 8 then Tpat else ALevel)
      ensures AllScoreTypes[i].caption != ""
    {
      if i < 3 {
        assert AllScoreTypes[i] == TgatScores[i];
      } else if i < 8 {
        assert AllScoreTypes[i] == TpatScores[i - 3];
      } else {
        assert AllScoreTypes[i] == ALevelScores[i - 8];
      }
    }
  }

  /** The 23 catalogue keys are distinct. */
  lemma CatalogueDistinct()
    ensures DistinctKeys(AllScoreTypes)
  {
    CatalogueRouting();
    TgatDistinct();
    TpatDistinct();
    ALevelDistinct();
    forall i, j | 0 <= i < j < |AllScoreTypes|
      ensures AllScoreTypes[i].key != AllScoreTypes[j].key
    {
      if i < 3 && j < 3 {
        assert AllScoreTypes[i] == TgatScores[i] && AllScoreTypes[j] == TgatScores[j];
      } else if 3 <= i && j < 8 {
        assert AllScoreTypes[i] == TpatScores[i - 3] && AllScoreTypes[j] == TpatScores[j - 3];
      } else if 8 <= i {
        assert AllScoreTypes[i] == ALevelScores[i - 8] && AllScoreTypes[j] == ALevelScores[j - 8];
      } else {
        assert CategoryOf(AllScoreTypes[i].key) != CategoryOf(AllScoreTypes[j].key);
      }
    }
  }

  lemma TgatDistinct()
    ensures DistinctKeys(TgatScores)
  {
  }

  lemma TpatDistinct()
    ensures DistinctKeys(TpatScores)
  {
  }

  lemma ALevelDistinct()
    ensures DistinctKeys(ALevelScores)
  {
  }

  /** A key that no catalogue entry has is not in the map. */
  lemma {:induction false} NameMapDomain(items: seq<ScoreType>, key: string)
    requires forall i :: 0 <= i < |items| ==> items[i].key != key
    ensures key !in NameMap(items)
    decreases |items|
  {
    if |items| > 0 {
      NameMapDomain(items[..|items| - 1], key);
    }
  }

  /** `names[key] || key.replace(/_/g, ' ')`: the label a key shows under
      the label map `names`. */
  function LabelIn(names: map<string, string>, key: string): string {
    if key in names && names[key] != "" then names[key] else ReplaceAll(key, '_', ' ')
  }

  /** The label under `scoreNameMap`, the map built from the catalogue. */
  function LabelFor(key: string): (shown: string)
  {
    LabelIn(NameMap(AllScoreTypes), key)
  }

  /** A catalogue key shows its catalogue label; any other key shows itself
      with every underscore turned into a space. */
  lemma LabelLookup(key: string)
    ensures forall i :: 0 <= i < |AllScoreTypes| && AllScoreTypes[i].key == key ==>
      LabelFor(key) == AllScoreTypes[i].caption
    ensures (forall i :: 0 <= i < |AllScoreTypes| ==> AllScoreTypes[i].key != key) ==>
      LabelFor(key) == ReplaceAll(key, '_', ' ')
  {
    CatalogueDistinct();
    CatalogueRouting();
    forall i | 0 <= i < |AllScoreTypes| && AllScoreTypes[i].key == key
      ensures LabelFor(key) == AllScoreTypes[i].caption
    {
      NameMapLookup(AllScoreTypes, i);
    }
    if forall i :: 0 <= i < |AllScoreTypes| ==> AllScoreTypes[i].key != key {
      NameMapDomain(AllScoreTypes, key);
    }
  }

  datatype LabelledScore = LabelledScore(key: string, value: real, caption: string)

  /** The object pushed onto a group: the entry with its display label
      under the label map `names`. */
  function Labelled(names: map<string, string>, e: ScoreEntry): (s: LabelledScore)
    ensures s.key == e.key && s.value == e.value
  {
    LabelledScore(e.key, e.value, LabelIn(names, e.key))
  }

  /** The caption of a pushed object is the label map's name for the key
      when it has a non-empty one, otherwise the key with every underscore
      turned into a space. */
  lemma LabelledCaption(names: map<string, string>, e: ScoreEntry)
    ensures e.key in names && names[e.key] != "" ==> Labelled(names, e).caption == names[e.key]
    ensures !(e.key in names && names[e.key] != "") ==> Labelled(names, e).caption == ReplaceAll(e.key, '_', ' ')
  {
  }

  /** The entries whose key selects group `c`, in entry order: the
      reference definition the grouping loop is measured against. */
  function InCategory(entries: seq<ScoreEntry>, c: Category): seq<ScoreEntry> {
    if |entries| == 0 then []
    else
      var last := entries[|entries| - 1];
      InCategory(entries[..|entries| - 1], c) + (if CategoryOf(last.key) == c then [last] else [])
  }

  /** Each entry in turn, labelled. */
  function LabelAll(names: map<string, string>, entries: seq<ScoreEntry>): (r: seq<LabelledScore>)
    ensures |r| == |entries|
  {
    if |entries| == 0 then [] else LabelAll(names, entries[..|entries| - 1]) + [Labelled(names, entries[|entries| - 1])]
  }

  /** `groupedScores`: the four arrays, TGAT, TPAT, A-Level and other. */
  datatype Groups = Groups(tgat: seq<LabelledScore>, tpat: seq<LabelledScore>, alevel: seq<LabelledScore>, other: seq<LabelledScore>)

  const NoGroups := Groups([], [], [], [])

  function Group(g: Groups, c: Category): seq<LabelledScore> {
    match c
    case Tgat => g.tgat
    case Tpat => g.tpat
    case ALevel => g.alevel
    case Other => g.other
  }

  function Size(g: Groups): nat {
    |g.tgat| + |g.tpat| + |g.alevel| + |g.other|
  }

  /** One `push`: `s` is appended to group `c` and the other groups are
      left alone. */
  function Push(g: Groups, c: Category, s: LabelledScore): (h: Groups)
    ensures forall d :: Group(h, d) == Group(g, d) + (if d == c then [s] else [])
    ensures Size(h) == Size(g) + 1
  {
    match c
    case Tgat => g.(tgat := g.tgat + [s])
    case Tpat => g.(tpat := g.tpat + [s])
    case ALevel => g.(alevel := g.alevel + [s])
    case Other => g.(other := g.other + [s])
  }

  /** The groups after the `forEach` has visited `entries`. */
  function GroupsOf(names: map<string, string>, entries: seq<ScoreEntry>): Groups {
    if |entries| == 0 then NoGroups
    else
      var last := entries[|entries| - 1];
      Push(GroupsOf(names, entries[..|entries| - 1]), CategoryOf(last.key), Labelled(names, last))
  }

  /** Each group of the `forEach` is the labelled reference group of its
      category. */
  lemma {:induction false} GroupsOfCategory(names: map<string, string>, entries: seq<ScoreEntry>, c: Category)
    ensures Group(GroupsOf(names, entries), c) == LabelAll(names, InCategory(entries, c))
    decreases |entries|
  {
    if |entries| > 0 {
      var init := entries[..|entries| - 1];
      var last := entries[|entries| - 1];
      GroupsOfCategory(names, init, c);
      if CategoryOf(last.key) == c {
        assert LabelAll(names, InCategory(init, c) + [last]) == LabelAll(names, InCategory(init, c)) + [Labelled(names, last)] by {
          assert (InCategory(init, c) + [last])[..|InCategory(init, c)|] == InCategory(init, c);
        }
      } else {
        assert InCategory(entries, c) == InCategory(init, c);
      }
    }
  }

  /** The `forEach` places every entry in exactly one group. */
  lemma {:induction false} GroupsOfSize(names: map<string, string>, entries: seq<ScoreEntry>)
    ensures Size(GroupsOf(names, entries)) == |entries|
    decreases |entries|
  {
    if |entries| > 0 {
      GroupsOfSize(names, entries[..|entries| - 1]);
    }
  }

  /** The `forEach` over `Object.entries(scores)` that pushes each entry,
      labelled under `names`, onto the group its key selects. */
  method GroupScores(names: map<string, string>, entries: seq<ScoreEntry>) returns (groups: Groups)
    ensures groups.tgat == LabelAll(names, InCategory(entries, Tgat)) && groups.tpat == LabelAll(names, InCategory(entries, Tpat))
    ensures groups.alevel == LabelAll(names, InCategory(entries, ALevel)) && groups.other == LabelAll(names, InCategory(entries, Other))
    ensures Size(groups) == |entries|
  {
    groups := NoGroups;
    var i := 0;
    while i < |entries|
      invariant 0 <= i <= |entries|
      invariant groups == GroupsOf(names, entries[..i])
    {
      var e := entries[i];
      assert entries[..i + 1][..i] == entries[..i];
      groups := Push(groups, CategoryOf(e.key), Labelled(names, e));
      i := i + 1;
    }
    assert entries[..i] == entries;
    GroupsOfCategory(names, entries, Tgat);
    GroupsOfCategory(names, entries, Tpat);
    GroupsOfCategory(names, entries, ALevel);
    GroupsOfCategory(names, entries, Other);
    GroupsOfSize(names, entries);
  }

  /** An entry is in a group exactly when it is one of the entries and its
      key selects that group: every key lands in exactly one group. */
  lemma {:induction false} GroupMembership(entries: seq<ScoreEntry>, c: Category, e: ScoreEntry)
    ensures e in InCategory(entries, c) <==> e in entries && CategoryOf(e.key) == c
    decreases |entries|
  {
    if |entries| > 0 {
      var init := entries[..|entries| - 1];
      GroupMembership(init, c, e);
      assert entries == init + [entries[|entries| - 1]];
    }
  }

  /** Within a group, entries keep their input order. */
  lemma {:induction false} GroupOrder(entries: seq<ScoreEntry>, c: Category)
    ensures IsSubsequence(InCategory(entries, c), entries)
    decreases |entries|
  {
    if |entries| > 0 {
      var init := entries[..|entries| - 1];
      var last := entries[|entries| - 1];
      GroupOrder(init, c);
      assert entries == init + [last];
      SubsequenceAppend(InCategory(init, c), init, last, CategoryOf(last.key) == c);
    }
  }

  lemma {:induction false} SubsequenceAppend<T>(a: seq<T>, b: seq<T>, x: T, keep: bool)
    requires IsSubsequence(a, b)
    ensures IsSubsequence(a + (if keep then [x] else []), b + [x])
    decreases |b|
  {
    var a' := a + (if keep then [x] else []);
    if |a| == 0 {
      if keep {
        assert a' == [x];
        if |b| > 0 {
          SubsequenceAppend(a, b[1..], x, keep);
          assert (b + [x])[1..] == b[1..] + [x];
        }
      }
    } else if a[0] == b[0] && IsSubsequence(a[1..], b[1..]) {
      SubsequenceAppend(a[1..], b[1..], x, keep);
      assert a'[1..] == a[1..] + (if keep then [x] else []);
      assert (b + [x])[1..] == b[1..] + [x];
    } else {
      SubsequenceAppend(a, b[1..], x, keep);
      assert (b + [x])[1..] == b[1..] + [x];
    }
  }

  datatype Section = Section(category: Category, scores: seq<LabelledScore>)
  datatype TableView = NoData | Sections(sections: seq<Section>)

  function NonEmpty(c: Category, scores: seq<LabelledScore>): (r: seq<Section>)
    ensures |r| <= 1 && SectionSizes(r) == |scores|
    ensures forall i :: 0 <= i < |r| ==> |r[i].scores| > 0
  {
    if |scores| == 0 then [] else [Section(c, scores)]
  }

  function SectionSizes(sections: seq<Section>): nat {
    if |sections| == 0 then 0 else |sections[0].scores| + SectionSizes(sections[1..])
  }

  /** The sections in display order, empty groups left out. */
  function SectionsOf(g: Groups): seq<Section> {
    NonEmpty(Tgat, g.tgat) + NonEmpty(Tpat, g.tpat) + NonEmpty(ALevel, g.alevel) + NonEmpty(Other, g.other)
  }

  /** The display position of a category: TGAT, TPAT, A-Level, then other. */
  function CategoryRank(c: Category): int {
    match c
    case Tgat => 0
    case Tpat => 1
    case ALevel => 2
    case Other => 3
  }

  /** The display position the section at index `i` must have: the
      sections of TGAT, TPAT and A-Level come first, each taking one index
      when its group is non-empty. */
  function Slot(g: Groups, i: int): int {
    var a, b, c := |NonEmpty(Tgat, g.tgat)|, |NonEmpty(Tpat, g.tpat)|, |NonEmpty(ALevel, g.alevel)|;
    if i < a then 0 else if i < a + b then 1 else if i < a + b + c then 2 else 3
  }

  /** The section at index `i` shows its category's whole, non-empty group
      and sits at the display position of its category. */
  lemma SectionAt(g: Groups, i: int)
    requires 0 <= i < |SectionsOf(g)|
    ensures SectionsOf(g)[i].scores == Group(g, SectionsOf(g)[i].category) && |SectionsOf(g)[i].scores| > 0
    ensures CategoryRank(SectionsOf(g)[i].category) == Slot(g, i)
  {
    var a, b, c, d := NonEmpty(Tgat, g.tgat), NonEmpty(Tpat, g.tpat), NonEmpty(ALevel, g.alevel), NonEmpty(Other, g.other);
    var s := a + b + c + d;
    assert SectionsOf(g) == s;
    if i < |a| {
      assert s[i] == a[i];
    } else if i < |a| + |b| {
      assert s[i] == b[i - |a|];
    } else if i < |a| + |b| + |c| {
      assert s[i] == c[i - |a| - |b|];
    } else {
      assert s[i] == d[i - |a| - |b| - |c|];
    }
  }

  /** The sections together hold every grouped score. */
  lemma SectionsCover(g: Groups)
    ensures SectionSizes(SectionsOf(g)) == Size(g)
  {
    var a, b, c, d := NonEmpty(Tgat, g.tgat), NonEmpty(Tpat, g.tpat), NonEmpty(ALevel, g.alevel), NonEmpty(Other, g.other);
    SectionSizesAppend(a, b);
    SectionSizesAppend(a + b, c);
    SectionSizesAppend(a + b + c, d);
  }

  /** Each section shows its category's whole group and is non-empty, the
      sections come in strictly increasing display position, and together
      they show every grouped score. */
  lemma SectionsOfFacts(g: Groups)
    ensures forall i :: 0 <= i < |SectionsOf(g)| ==>
      SectionsOf(g)[i].scores == Group(g, SectionsOf(g)[i].category) && |SectionsOf(g)[i].scores| > 0
    ensures forall i, j :: 0 <= i < j < |SectionsOf(g)| ==>
      CategoryRank(SectionsOf(g)[i].category) < CategoryRank(SectionsOf(g)[j].category)
    ensures SectionSizes(SectionsOf(g)) == Size(g)
  {
    SectionsCover(g);
    forall i | 0 <= i < |SectionsOf(g)|
      ensures SectionsOf(g)[i].scores == Group(g, SectionsOf(g)[i].category) && |SectionsOf(g)[i].scores| > 0
    {
      SectionAt(g, i);
    }
    forall i, j | 0 <= i < j < |SectionsOf(g)|
      ensures CategoryRank(SectionsOf(g)[i].category) < CategoryRank(SectionsOf(g)[j].category)
    {
      SectionAt(g, i);
      SectionAt(g, j);
    }
  }

  /** A category has a section exactly when its group is non-empty. */
  lemma SectionShown(g: Groups, cat: Category)
    ensures (exists i :: 0 <= i < |SectionsOf(g)| && SectionsOf(g)[i].category == cat) <==> |Group(g, cat)| > 0
  {
    SectionsOfFacts(g);
    if |Group(g, cat)| > 0 {
      var i := SectionIndex(g, cat);
      assert SectionsOf(g)[i].category == cat;
    }
  }

  /** Where a non-empty group's section sits: after the sections of the
      non-empty groups before it. */
  lemma SectionIndex(g: Groups, cat: Category) returns (i: int)
    requires |Group(g, cat)| > 0
    ensures 0 <= i < |SectionsOf(g)| && SectionsOf(g)[i].category == cat
  {
    var a, b, c, d := NonEmpty(Tgat, g.tgat), NonEmpty(Tpat, g.tpat), NonEmpty(ALevel, g.alevel), NonEmpty(Other, g.other);
    assert SectionsOf(g) == a + b + c + d;
    match cat
    case Tgat =>
      i := 0;
      assert (a + b + c + d)[i] == a[0];
    case Tpat =>
      i := |a|;
      assert (a + b + c + d)[i] == b[0];
    case ALevel =>
      i := |a| + |b|;
      assert (a + b + c + d)[i] == c[0];
    case Other =>
      i := |a| + |b| + |c|;
      assert (a + b + c + d)[i] == d[0];
  }

  /** The rendered table: the no-data message for a missing or empty score
      object, otherwise the TGAT, TPAT, A-Level and other sections in that
      order, each holding every score of its category, labelled, in entry
      order, and each shown only when it has at least one score. */
  function Render(scores: Option<seq<ScoreEntry>>): (view: TableView)
    ensures view.NoData? <==> scores.None? || |scores.value| == 0
    ensures view.Sections? ==> forall i :: 0 <= i < |view.sections| ==>
      |view.sections[i].scores| > 0 &&
      view.sections[i].scores == LabelAll(NameMap(AllScoreTypes), InCategory(scores.value, view.sections[i].category))
    ensures view.Sections? ==> forall i, j :: 0 <= i < j < |view.sections| ==>
      CategoryRank(view.sections[i].category) < CategoryRank(view.sections[j].category)
    ensures view.Sections? ==> SectionSizes(view.sections) == |scores.value|
  {
    if scores.None? || |scores.value| == 0 then NoData
    else
      var names := NameMap(AllScoreTypes);
      var g := GroupsOf(names, scores.value);
      GroupsOfSize(names, scores.value);
      GroupsOfCategory(names, scores.value, Tgat);
      GroupsOfCategory(names, scores.value, Tpat);
      GroupsOfCategory(names, scores.value, ALevel);
      GroupsOfCategory(names, scores.value, Other);
      SectionsOfFacts(g);
      Sections(SectionsOf(g))
  }

  /** A category has a section in a rendered table exactly when one of the
      entries' keys selects it. */
  lemma RenderShowsCategory(entries: seq<ScoreEntry>, cat: Category)
    requires |entries| > 0
    ensures (exists i :: 0 <= i < |Render(Some(entries)).sections| && Render(Some(entries)).sections[i].category == cat) <==>
      |InCategory(entries, cat)| > 0
  {
    var names := NameMap(AllScoreTypes);
    var g := GroupsOf(names, entries);
    assert Render(Some(entries)).sections == SectionsOf(g);
    GroupsOfCategory(names, entries, cat);
    SectionShown(g, cat);
  }

  lemma {:induction false} SectionSizesAppend(a: seq<Section>, b: seq<Section>)
    ensures SectionSizes(a + b) == SectionSizes(a) + SectionSizes(b)
  {
    if |a| > 0 {
      assert (a + b)[1..] == a[1..] + b;
      SectionSizesAppend(a[1..], b);
    } else {
      assert a + b == b;
    }
  }

  datatype Band = High | Mid | Low

  /** The legend's three bands: at least 80, 60 to below 80, below 60. */
  function BandOf(v: real): (b: Band)
    ensures b == High <==> v >= 80.0
    ensures b == Mid <==> 60.0 <= v < 80.0
    ensures b == Low <==> v < 60.0
  {
    if v >= 80.0 then High else if v >= 60.0 then Mid else Low
  }

  function BandRank(b: Band): int {
    match b
    case Low => 0
    case Mid => 1
    case High => 2
  }

  /** A higher score never falls in a lower band. */
  lemma BandMonotone(v: real, w: real)
    requires v <= w
    ensures BandRank(BandOf(v)) <= BandRank(BandOf(w))
  {
  }

  function ColorClass(b: Band): string {
    match b
    case High => "bg-emerald-50 border-emerald-200 text-emerald-700"
    case Mid => "bg-amber-50 border-amber-200 text-amber-700"
    case Low => "bg-rose-50 border-rose-200 text-rose-700"
  }

  function GradientClass(b: Band): string {
    match b
    case High => "from-emerald-500 to-green-600"
    case Mid => "from-amber-500 to-orange-600"
    case Low => "from-rose-500 to-red-600"
  }

  /** `getScoreColor`: the card colour of the score's band. */
  function ScoreColor(v: real): (cls: string)
    ensures cls == ColorClass(BandOf(v))
  {
    if v >= 80.0 then "bg-emerald-50 border-emerald-200 text-emerald-700"
    else if v >= 60.0 then "bg-amber-50 border-amber-200 text-amber-700"
    else "bg-rose-50 border-rose-200 text-rose-700"
  }

  /** `getScoreBgGradient`: the progress-bar gradient of the score's band. */
  function ScoreGradient(v: real): (cls: string)
    ensures cls == GradientClass(BandOf(v))
  {
    if v >= 80.0 then "from-emerald-500 to-green-600"
    else if v >= 60.0 then "from-amber-500 to-orange-600"
    else "from-rose-500 to-red-600"
  }

  /** `Math.min(value, 100)` percent. */
  function ProgressWidth(v: real): (w: real)
    ensures w <= 100.0 && w <= v
    ensures w == v <==> v <= 100.0
    ensures v > 100.0 ==> w == 100.0
  {
    if v <= 100.0 then v else 100.0
  }
}
