/** The review filter bar: the admission-round and admission-year option
    lists, whether any filter is active, the results badge, the clear
    button and the active-filter chips. */
module ReviewFilter {
  import opened Options
  import opened Seqs
  import Reviews

  const AllValue := "all"
  const StartYear := 2553
  const BuddhistEraOffset := 543

  /** An admission-round option; only the "all" option has no full caption. */
  datatype RoundOption = RoundOption(value: string, caption: string, fullCaption: Option<string>)

  const AdmissionRounds: seq<RoundOption> := [
    RoundOption("all", "ทุกรอบ", None),
    RoundOption("1", "Portfolio", Some("รอบ 1 - Portfolio")),
    RoundOption("2", "Quota", Some("รอบ 2 - Quota")),
    RoundOption("3", "Admission", Some("รอบ 3 - Admission")),
    RoundOption("4", "Direct", Some("รอบ 4 - Direct"))
  ]

  /** `ADMISSION_ROUNDS.find(r => r.value === selected)`. */
  function FindRound(value: string): (found: Option<RoundOption>)
    ensures found.Some? <==> value in ["all", "1", "2", "3", "4"]
    ensures found.Some? ==> found.value in AdmissionRounds && found.value.value == value
  {
    FindIn(AdmissionRounds, value)
  }

  function FindIn(options: seq<RoundOption>, value: string): (found: Option<RoundOption>)
    ensures found.Some? <==> exists i :: 0 <= i < |options| && options[i].value == value
    ensures found.Some? ==> found.value in options && found.value.value == value
  {
    if |options| == 0 then None
    else if options[0].value == value then Some(options[0])
    else FindIn(options[1..], value)
  }

  /** The digit a round number is selected by. */
  function RoundValue(n: int): string {
    if n == 1 then "1" else if n == 2 then "2" else if n == 3 then "3" else if n == 4 then "4" else "?"
  }

  /** The filter's round captions agree with the round badge on review
      cards. */
  lemma RoundCaptionsMatchCards(n: int)
    requires 1 <= n <= 4
    ensures FindRound(RoundValue(n)).Some?
    ensures Reviews.RoundLabel(Some(n)) == Some(FindRound(RoundValue(n)).value.caption)
  {
  }

  /** `new Date().getFullYear() + 543`. */
  function BuddhistYear(gregorian: int): int
  {
    gregorian + BuddhistEraOffset
  }

  datatype YearOption = AllYears | Year(year: int)

  /** `Array.from({ length: count }, (_, i) => ({ year: top - i }))`. */
  function CountDown(top: int, count: nat): (years: seq<YearOption>)
    ensures |years| == count
    ensures forall i :: 0 <= i < count ==> years[i] == Year(top - i)
    decreases count
  {
    if count == 0 then [] else [Year(top)] + CountDown(top - 1, count - 1)
  }

  /** `ADMISSION_YEARS`: "all", then every Buddhist year from two years
      ahead down to 2553; an array length below zero gives no years. */
  function AdmissionYears(currentGregorian: int): (options: seq<YearOption>)
    ensures |options| == 1 + Max0(BuddhistYear(currentGregorian) + 2 - StartYear + 1)
    ensures options[0] == AllYears
    ensures forall i :: 1 <= i < |options| ==> options[i] == Year(BuddhistYear(currentGregorian) + 2 - (i - 1))
  {
    var top := BuddhistYear(currentGregorian) + 2;
    [AllYears] + CountDown(top, Max0(top - StartYear + 1))
  }

  /** The year list is strictly descending and holds exactly the years from
      2553 to two years after the current one. */
  lemma AdmissionYearsFacts(currentGregorian: int, y: int)
    ensures var options := AdmissionYears(currentGregorian);
      forall i, j :: 1 <= i < j < |options| ==> options[i].year > options[j].year
    ensures Year(y) in AdmissionYears(currentGregorian) <==>
      StartYear <= y <= BuddhistYear(currentGregorian) + 2
  {
    var options := AdmissionYears(currentGregorian);
    var top := BuddhistYear(currentGregorian) + 2;
    if StartYear <= y <= top {
      assert options[1 + (top - y)] == Year(y);
    }
  }

  function Max0(n: int): (m: nat)
    ensures m >= n
  {
    if n < 0 then 0 else n
  }

  /** The three selections; the type prop defaults to "all" when absent. */
  datatype Selection = Selection(round: string, year: string, reviewType: Option<string>)

  function SelectedType(s: Selection): string {
    s.reviewType.GetOr(AllValue)
  }

  predicate HasFilters(s: Selection) {
    s.round != AllValue || s.year != AllValue || SelectedType(s) != AllValue
  }

  /** The results badge: "shown of total" while filtering, else the total. */
  datatype ResultsBadge = Filtered(shown: int, total: int) | Total(total: int)

  function Badge(s: Selection, totalCount: int, filteredCount: int): (b: ResultsBadge)
    ensures b.Filtered? <==> HasFilters(s)
    ensures b.total == totalCount
    ensures b.Filtered? ==> b.shown == filteredCount
  {
    if HasFilters(s) then Filtered(filteredCount, totalCount) else Total(totalCount)
  }

  /** The clear button is offered exactly while a filter is active. */
  function ShowClear(s: Selection): bool
  {
    HasFilters(s)
  }

  /** The clear button, the "shown of total" badge and the chips agree:
      all three appear together, and without the button no chip shows. */
  lemma ClearAgreesWithBadge(s: Selection, totalCount: int, filteredCount: int)
    ensures ShowClear(s) <==> Badge(s, totalCount, filteredCount).Filtered?
    ensures !ShowClear(s) ==> ActiveChips(s) == Chips(None, None)
    ensures ShowClear(s) && s.year != AllValue ==> ActiveChips(s).year.Some?
  {
  }

  /** The active-filter chips: the selected round, when it is a known
      round, and the selected year; the review type has no chip. */
  datatype Chips = Chips(round: Option<string>, year: Option<string>)

  function ActiveChips(s: Selection): (chips: Chips)
    ensures !HasFilters(s) ==> chips == Chips(None, None)
    ensures chips.round.Some? <==> s.round != AllValue && FindRound(s.round).Some?
    ensures chips.year.Some? <==> s.year != AllValue
    ensures chips.year.Some? ==> chips.year.value == "พ.ศ. " + s.year
  {
    if !HasFilters(s) then Chips(None, None)
    else
      var found := FindRound(s.round);
      Chips(if s.round != AllValue && found.Some? then Some(found.value.fullCaption.GetOr(found.value.caption)) else None,
            if s.year != AllValue then Some("พ.ศ. " + s.year) else None)
  }

  lemma FindRoundDigit(n: int)
    requires 1 <= n <= 4
    ensures FindRound(RoundValue(n)) == Some(AdmissionRounds[n])
  {
    if n == 1 {
      assert FindRound("1") == Some(AdmissionRounds[1]);
    } else if n == 2 {
      assert FindRound("2") == Some(AdmissionRounds[2]);
    } else if n == 3 {
      assert FindRound("3") == Some(AdmissionRounds[3]);
    } else {
      assert FindRound("4") == Some(AdmissionRounds[4]);
    }
  }

  lemma FullCaptionShape(n: int)
    requires 1 <= n <= 4
    ensures AdmissionRounds[n].fullCaption == Some("รอบ " + RoundValue(n) + " - " + AdmissionRounds[n].caption)
  {
    if n == 1 {
      assert "รอบ " + "1" + " - " + "Portfolio" == "รอบ 1 - Portfolio";
    } else if n == 2 {
      assert "รอบ " + "2" + " - " + "Quota" == "รอบ 2 - Quota";
    } else if n == 3 {
      assert "รอบ " + "3" + " - " + "Admission" == "รอบ 3 - Admission";
    } else {
      assert "รอบ " + "4" + " - " + "Direct" == "รอบ 4 - Direct";
    }
  }

  /** A known round's chip shows "รอบ n - " and the round's card label. */
  lemma RoundChipText(s: Selection, n: int)
    requires 1 <= n <= 4 && s.round == RoundValue(n)
    ensures ActiveChips(s).round == Some("รอบ " + RoundValue(n) + " - " + Reviews.RoundLabel(Some(n)).value)
  {
    FindRoundDigit(n);
    FullCaptionShape(n);
    RoundCaptionsMatchCards(n);
  }

  /** Filtering by type alone counts as filtering, yet shows no chip. */
  lemma TypeOnlyFilter(t: string)
    requires t != AllValue
    ensures HasFilters(Selection(AllValue, AllValue, Some(t)))
    ensures ActiveChips(Selection(AllValue, AllValue, Some(t))) == Chips(None, None)
  {
  }
}
