/** The search page: the category chips, the query string it sends to
    `/api/laws`, and the page state that searching, selecting a row, closing
    the dialog and loading a law's revisions go through. Rendering is not
    modelled; each handler is a function from the state before to the state
    after, with the outcome of its request as a parameter. */
module SearchPage {
  import opened Results
  import opened Strings
  import opened LawTypes
  import opened EGovClient
  import opened LawsRoute

  // ------------------------------------------------------------------------
  // Category selection

  predicate Distinct(xs: seq<string>) {
    forall i, j :: 0 <= i < j < |xs| ==> xs[i] != xs[j]
  }

  /** `xs.filter(c => c !== x)`: every occurrence of `x` dropped, the other
      entries kept as often as they occur. */
  function Remove(xs: seq<string>, x: string): (r: seq<string>)
    ensures forall y :: y in r <==> y in xs && y != x
    ensures forall y :: y != x ==> multiset(r)[y] == multiset(xs)[y]
    ensures multiset(r)[x] == 0
  {
    if |xs| == 0 then []
    else
      var rest := Remove(xs[1..], x);
      assert xs == [xs[0]] + xs[1..];
      assert multiset(xs) == multiset{xs[0]} + multiset(xs[1..]);
      if xs[0] == x then rest else [xs[0]] + rest
  }

  /** Removal works piecewise, so the entries kept stay in their order. */
  lemma {:induction false} RemoveAppend(a: seq<string>, b: seq<string>, x: string)
    ensures Remove(a + b, x) == Remove(a, x) + Remove(b, x)
    decreases |a|
  {
    if |a| == 0 {
      assert a + b == b;
    } else {
      assert (a + b)[0] == a[0];
      assert (a + b)[1..] == a[1..] + b;
      RemoveAppend(a[1..], b, x);
    }
  }

  lemma {:induction false} RemoveAbsent(xs: seq<string>, x: string)
    requires x !in xs
    ensures Remove(xs, x) == xs
    decreases |xs|
  {
    if |xs| > 0 {
      assert xs[1..] == xs[1..] && x !in xs[1..];
      RemoveAbsent(xs[1..], x);
      assert xs == [xs[0]] + xs[1..];
    }
  }

  lemma {:induction false} RemoveKeepsDistinct(xs: seq<string>, x: string)
    requires Distinct(xs)
    ensures Distinct(Remove(xs, x))
    decreases |xs|
  {
    if |xs| > 0 {
      var tail := xs[1..];
      assert Distinct(tail);
      RemoveKeepsDistinct(tail, x);
      assert xs[0] !in tail by {
        forall k | 0 <= k < |tail| ensures tail[k] != xs[0] {
          assert tail[k] == xs[k + 1];
        }
      }
    }
  }

  /** `handleCategoryToggle`: a selected code is deselected (every
      occurrence), an unselected one is appended at the end. */
  function ToggleCategory(selected: seq<string>, code: string): (r: seq<string>)
    ensures code in r <==> code !in selected
    ensures forall c :: c != code ==> multiset(r)[c] == multiset(selected)[c]
    ensures code !in selected ==> r == selected + [code]
  {
    if code in selected then Remove(selected, code) else selected + [code]
  }

  /** Toggling an unselected code twice restores the selection. */
  lemma ToggleTwice(selected: seq<string>, code: string)
    requires code !in selected
    ensures ToggleCategory(ToggleCategory(selected, code), code) == selected
  {
    RemoveAppend(selected, [code], code);
    RemoveAbsent(selected, code);
    assert Remove([code], code) == [];
    assert selected + [] == selected;
  }

  /** A selection without repeats keeps none under toggling. */
  lemma ToggleKeepsDistinct(selected: seq<string>, code: string)
    requires Distinct(selected)
    ensures Distinct(ToggleCategory(selected, code))
  {
    if code in selected {
      RemoveKeepsDistinct(selected, code);
    }
  }

  // ------------------------------------------------------------------------
  // The query string of a search

  /** `encodeURIComponent` */
  type Encoder = string -> string

  /** The category part: empty when nothing is selected. */
  function CategoryFragment(selected: seq<string>): (r: string)
    ensures r == "" <==> selected == []
  {
    if |selected| > 0 then "&categories=" + Join(selected, ',') else ""
  }

  /** The title part: the encoded trimmed filter, empty when the filter is
      blank. */
  function LawTitleFragment(filter: string, encode: Encoder): (r: string)
    ensures r == "" <==> AllWhitespace(filter)
  {
    var t := Trim(filter);
    if t != "" then "&law_title=" + encode(t) else ""
  }

  function SearchQuery(dateFrom: string, dateTo: string, selected: seq<string>,
                       filter: string, encode: Encoder): string
  {
    "date_from=" + dateFrom + "&date_to=" + dateTo + CategoryFragment(selected) + LawTitleFragment(filter, encode)
  }

  /** The address `handleSearch` fetches. */
  function SearchUrl(dateFrom: string, dateTo: string, selected: seq<string>,
                     filter: string, encode: Encoder): string
  {
    "/api/laws?" + SearchQuery(dateFrom, dateTo, selected, filter, encode)
  }

  /** A category code the query string carries intact. */
  predicate WellFormedCode(code: string) {
    code != "" && '&' !in code && ',' !in code
  }

  /** The category codes as the query string carries them. */
  function CategoriesValue(selected: seq<string>): Option<string> {
    if |selected| > 0 then Some(Join(selected, ',')) else None
  }

  /** The title as the query string carries it. */
  function TitleValue(filter: string, encode: Encoder): Option<string> {
    if Trim(filter) != "" then Some(encode(Trim(filter))) else None
  }

  /** The pair `name=value` when the value is present. */
  function OptionalPair(name: string, value: Option<string>): seq<QueryParam> {
    if value.Some? then [QueryParam(name, value.value)] else []
  }

  /** `&name=value` when the value is present, nothing otherwise. */
  function OptionalText(name: string, value: Option<string>): string {
    if value.Some? then "&" + name + "=" + value.value else ""
  }

  /** The pairs of a search's query string, given the values it carries. */
  function QueryPairs(dateFrom: string, dateTo: string, categories: Option<string>, title: Option<string>): seq<QueryParam> {
    [QueryParam("date_from", dateFrom), QueryParam("date_to", dateTo)]
    + OptionalPair("categories", categories)
    + OptionalPair("law_title", title)
  }

  lemma {:induction false} JoinAvoids(parts: seq<string>, sep: char, c: char)
    requires c != sep
    requires forall k :: 0 <= k < |parts| ==> c !in parts[k]
    ensures c !in Join(parts, sep)
    decreases |parts|
  {
    if |parts| > 1 {
      JoinAvoids(parts[1..], sep, c);
    }
  }

  lemma JoinStartsWithFirst(parts: seq<string>, sep: char)
    requires |parts| >= 1
    ensures |Join(parts, sep)| >= |parts[0]|
  {
  }

  lemma OptionalPairText(name: string, value: Option<string>)
    ensures Ampersanded(OptionalPair(name, value)) == OptionalText(name, value)
  {
    if value.Some? {
      assert OptionalPair(name, value)[1..] == [];
      assert "&" + PairText(QueryParam(name, value.value)) + "" == "&" + name + "=" + value.value;
    }
  }

  /** The two optional parts of the page's query string. */
  lemma FragmentsAreOptionalText(selected: seq<string>, filter: string, encode: Encoder)
    ensures CategoryFragment(selected) == OptionalText("categories", CategoriesValue(selected))
    ensures LawTitleFragment(filter, encode) == OptionalText("law_title", TitleValue(filter, encode))
  {
    assert "&categories=" == "&" + "categories" + "=";
    assert "&law_title=" == "&" + "law_title" + "=";
  }

  /** The query string is the formatted list of its pairs. */
  lemma QueryPairsFormat(dateFrom: string, dateTo: string, categories: Option<string>, title: Option<string>)
    ensures "date_from=" + dateFrom + "&date_to=" + dateTo + OptionalText("categories", categories)
      + OptionalText("law_title", title) == FormatQuery(QueryPairs(dateFrom, dateTo, categories, title))
  {
    var first := QueryParam("date_from", dateFrom);
    var second := [QueryParam("date_to", dateTo)];
    var cats := OptionalPair("categories", categories);
    var titles := OptionalPair("law_title", title);
    var pairs := QueryPairs(dateFrom, dateTo, categories, title);
    var c := OptionalText("categories", categories);
    var t := OptionalText("law_title", title);
    calc {
      FormatQuery(pairs);
    ==  { assert pairs[0] == first; assert pairs[1..] == second + (cats + titles); }
      PairText(first) + Ampersanded(second + (cats + titles));
    ==  { AmpersandedAppend(second, cats + titles); }
      PairText(first) + (Ampersanded(second) + Ampersanded(cats + titles));
    ==  { AmpersandedAppend(cats, titles); OptionalPairText("categories", categories); OptionalPairText("law_title", title); }
      PairText(first) + (Ampersanded(second) + (c + t));
    ==  { assert second[1..] == []; }
      PairText(first) + ("&" + PairText(second[0]) + "" + (c + t));
    ==  { assert PairText(first) == "date_from=" + dateFrom; assert "&" + PairText(second[0]) + "" == "&date_to=" + dateTo; }
      ("date_from=" + dateFrom) + (("&date_to=" + dateTo) + (c + t));
    }
  }

  /** Reading a name the list leaves out finds nothing. */
  lemma LookupMissing(pairs: seq<QueryParam>, key: string)
    requires forall k :: 0 <= k < |pairs| ==> pairs[k].key != key
    ensures Lookup(pairs, key) == None
  {
    if |pairs| > 0 {
      LookupAppend([pairs[0]], pairs[1..], key);
      LookupMissing(pairs[1..], key);
      assert pairs == [pairs[0]] + pairs[1..];
    }
  }

  /** The names of a search's query string hold neither `=` nor `&`. */
  lemma QueryNamesPlain()
    ensures '=' !in "date_from" && '&' !in "date_from"
    ensures '=' !in "date_to" && '&' !in "date_to"
    ensures '=' !in "categories" && '&' !in "categories"
    ensures '=' !in "law_title" && '&' !in "law_title"
  {
  }

  lemma QueryPairsPlain(dateFrom: string, dateTo: string, categories: Option<string>, title: Option<string>)
    requires '&' !in dateFrom && '&' !in dateTo
    requires categories.Some? ==> '&' !in categories.value
    requires title.Some? ==> '&' !in title.value
    ensures var pairs := QueryPairs(dateFrom, dateTo, categories, title);
      forall k :: 0 <= k < |pairs| ==> PlainPair(pairs[k])
  {
    QueryNamesPlain();
    var head := [QueryParam("date_from", dateFrom), QueryParam("date_to", dateTo)];
    var cats := OptionalPair("categories", categories);
    var titles := OptionalPair("law_title", title);
    var pairs := head + cats + titles;
    assert forall k :: 0 <= k < |head| ==> PlainPair(head[k]);
    assert forall k :: 0 <= k < |cats| ==> PlainPair(cats[k]);
    assert forall k :: 0 <= k < |titles| ==> PlainPair(titles[k]);
    forall k | 0 <= k < |pairs|
      ensures PlainPair(pairs[k])
    {
      if k < |head| {
        assert pairs[k] == head[k];
      } else if k < |head| + |cats| {
        assert pairs[k] == cats[k - |head|];
      } else {
        assert pairs[k] == titles[k - |head| - |cats|];
      }
    }
  }

  /** The route reads back every value the query string carries, and no
      value it leaves out. */
  lemma QueryPairsParse(dateFrom: string, dateTo: string, categories: Option<string>, title: Option<string>)
    requires '&' !in dateFrom && '&' !in dateTo
    requires categories.Some? ==> '&' !in categories.value
    requires title.Some? ==> '&' !in title.value
    ensures var params := ParseQuery(FormatQuery(QueryPairs(dateFrom, dateTo, categories, title)));
      && Lookup(params, "date_from") == Some(dateFrom)
      && Lookup(params, "date_to") == Some(dateTo)
      && Lookup(params, "categories") == categories
      && Lookup(params, "law_title") == title
  {
    var pairs := QueryPairs(dateFrom, dateTo, categories, title);
    QueryPairsPlain(dateFrom, dateTo, categories, title);
    ParseFormatQuery(pairs);
    var head := [QueryParam("date_from", dateFrom), QueryParam("date_to", dateTo)];
    var cats := OptionalPair("categories", categories);
    var titles := OptionalPair("law_title", title);
    assert pairs == head + (cats + titles);
    assert Lookup(pairs, "categories") == categories by {
      LookupMissing(head, "categories");
      LookupAppend(head, cats + titles, "categories");
      LookupAppend(cats, titles, "categories");
    }
    assert Lookup(pairs, "law_title") == title by {
      LookupMissing(head, "law_title");
      LookupMissing(cats, "law_title");
      LookupAppend(head, cats + titles, "law_title");
      LookupAppend(cats, titles, "law_title");
    }
    assert Lookup(pairs, "date_to") == Some(dateTo) by {
      LookupAppend(head, cats + titles, "date_to");
    }
  }

  /** The joined codes split back into the selection. */
  lemma CategoriesRoundTrip(selected: seq<string>)
    requires forall k :: 0 <= k < |selected| ==> WellFormedCode(selected[k])
    ensures CategoriesValue(selected).Some? ==> '&' !in CategoriesValue(selected).value
    ensures CategoryCodes(CategoriesValue(selected)) == if selected == [] then None else Some(selected)
  {
    if |selected| > 0 {
      JoinAvoids(selected, ',', '&');
      JoinStartsWithFirst(selected, ',');
      SplitJoin(selected, ',');
    }
  }

  /** The query string `handleSearch` builds reaches the route intact: the
      route reads both dates as typed, splits the categories back into
      exactly the selected codes (none when nothing is selected), and sees
      the encoded trimmed title only when the filter is not blank. This
      needs the dates and the encoded title free of `&`, which
      `encodeURIComponent` guarantees for the title, and codes that are
      non-empty and free of `&` and `,`, as the three-digit category codes
      are. */
  lemma SearchQueryReachesRoute(dateFrom: string, dateTo: string, selected: seq<string>,
                                filter: string, encode: Encoder)
    requires '&' !in dateFrom && '&' !in dateTo
    requires forall k :: 0 <= k < |selected| ==> WellFormedCode(selected[k])
    requires '&' !in encode(Trim(filter))
    ensures var params := ParseQuery(SearchQuery(dateFrom, dateTo, selected, filter, encode));
      && Lookup(params, "date_from") == Some(dateFrom)
      && Lookup(params, "date_to") == Some(dateTo)
      && CategoryCodes(Lookup(params, "categories")) == (if selected == [] then None else Some(selected))
      && Lookup(params, "law_title") == (if AllWhitespace(filter) then None else Some(encode(Trim(filter))))
  {
    var categories := CategoriesValue(selected);
    var title := TitleValue(filter, encode);
    FragmentsAreOptionalText(selected, filter, encode);
    QueryPairsFormat(dateFrom, dateTo, categories, title);
    CategoriesRoundTrip(selected);
    QueryPairsParse(dateFrom, dateTo, categories, title);
  }

  // ------------------------------------------------------------------------
  // Page state

  datatype PageState = PageState(
    dateFrom: string,
    dateTo: string,
    lawNameFilter: string,
    selectedCategories: seq<string>,
    amendments: seq<AmendmentSummary>,
    selectedLaw: Option<AmendmentSummary>,
    revisions: seq<LawRevision>,
    loading: bool,
    loadingMessage: string,
    error: Option<string>,
    dialogOpen: bool)

  const InitialState := PageState("2025-04-01", "2025-09-30", "", [], [], None, [], false, "", None, false)

  /** How the fetch of the search address ended: a response of the route, or
      a thrown value (an `Error` with its message, or `None` for anything
      else). */
  datatype SearchOutcome = Answered(response: Response) | Threw(message: Option<string>)

  const FetchingMessage := "e-Gov APIから法令データを取得中..."
  const SearchNotOk := "法令データの取得に失敗しました"
  const UnknownError := "不明なエラーが発生しました"
  /** The `TypeError` of reading `data.amendments.length` when a successful
      response has no `amendments`. */
  const NoAmendments := "Cannot read properties of undefined (reading 'length')"

  /** `err instanceof Error ? err.message : '不明なエラーが発生しました'` */
  function ErrorText(message: Option<string>): string {
    if message.Some? then message.value else UnknownError
  }

  /** `response.ok` */
  predicate IsOk(status: int) {
    200 <= status <= 299
  }

  /** The records a search outcome delivers, if it delivers any. */
  function Delivered(outcome: SearchOutcome): Option<seq<AmendmentSummary>> {
    if outcome.Answered? && IsOk(outcome.response.status) && outcome.response.body.AmendmentsBody? then
      Some(outcome.response.body.amendments)
    else None
  }

  /** `handleSearch`, from the click to the end of its `finally`: a delivered
      list replaces the shown one and clears the selected law and its
      revisions; any failure sets the error and changes nothing else that is
      shown. Loading is off again either way. */
  function HandleSearch(s: PageState, outcome: SearchOutcome): (t: PageState)
    ensures !t.loading && t.loadingMessage == ""
    ensures t.selectedCategories == s.selectedCategories && t.dialogOpen == s.dialogOpen
    ensures t.dateFrom == s.dateFrom && t.dateTo == s.dateTo && t.lawNameFilter == s.lawNameFilter
    ensures Delivered(outcome).Some? ==>
      t.amendments == Delivered(outcome).value && t.selectedLaw.None? && t.revisions == [] && t.error.None?
    ensures Delivered(outcome).None? ==>
      t.amendments == s.amendments && t.selectedLaw == s.selectedLaw && t.revisions == s.revisions && t.error.Some?
  {
    var started := s.(loading := true, loadingMessage := FetchingMessage, error := None);
    var done := started.(loading := false, loadingMessage := "");
    match outcome
    case Threw(m) => done.(error := Some(ErrorText(m)))
    case Answered(r) =>
      if !IsOk(r.status) then done.(error := Some(SearchNotOk))
      else
        match r.body
        case AmendmentsBody(xs, _) => done.(amendments := xs, selectedLaw := None, revisions := [])
        case ErrorBody(_) => done.(error := Some(NoAmendments))
  }

  /** `handleSelectLaw` */
  function SelectLaw(s: PageState, law: Option<AmendmentSummary>): (t: PageState)
    ensures t.selectedLaw == law && t.revisions == [] && t.dialogOpen
    ensures t.amendments == s.amendments && t.error == s.error
    ensures t.dateFrom == s.dateFrom && t.dateTo == s.dateTo && t.lawNameFilter == s.lawNameFilter
    ensures t.selectedCategories == s.selectedCategories && t.loading == s.loading
  {
    s.(selectedLaw := law, revisions := [], dialogOpen := true)
  }

  /** The grid's rows: row i has id i and the fields of amendment i. */
  datatype Row = Row(id: int, amendment: AmendmentSummary)

  function Rows(xs: seq<AmendmentSummary>): (rows: seq<Row>)
    ensures |rows| == |xs|
    ensures forall i :: 0 <= i < |xs| ==> rows[i].id == i && rows[i].amendment == xs[i]
  {
    seq(|xs|, i requires 0 <= i < |xs| => Row(i, xs[i]))
  }

  /** `handleRowSelectionModelChange`: the first selected id indexes the
      shown list; an id outside it selects nothing (`undefined`). */
  function SelectRows(s: PageState, selection: seq<int>): (t: PageState)
    ensures selection == [] ==> t == s
    ensures selection != [] ==> t.dialogOpen && t.revisions == [] && t.amendments == s.amendments && t.error == s.error
    ensures selection != [] && 0 <= selection[0] < |s.amendments| ==> t.selectedLaw == Some(s.amendments[selection[0]])
    ensures selection != [] && !(0 <= selection[0] < |s.amendments|) ==> t.selectedLaw.None?
  {
    if |selection| == 0 then s
    else
      var i := selection[0];
      SelectLaw(s, if 0 <= i < |s.amendments| then Some(s.amendments[i]) else None)
  }

  /** Selecting a row of the grid selects the amendment that row shows. */
  lemma SelectRowShowsItsAmendment(s: PageState, i: int)
    requires 0 <= i < |s.amendments|
    ensures var row := Rows(s.amendments)[i];
      SelectRows(s, [row.id]).selectedLaw == Some(row.amendment)
  {
  }

  /** How the fetch of a law's revisions ended. */
  datatype RevisionsOutcome =
    | RevisionsAnswered(ok: bool, revisions: Option<seq<LawRevision>>)
    | RevisionsThrew(message: Option<string>)

  const RevisionsNotOk := "改正履歴の取得に失敗しました"

  /** `handleFetchRevisions`: nothing happens without a selected law;
      otherwise the revisions are the ones received (`|| []`), and any
      failure sets the error and empties them. */
  function FetchRevisions(s: PageState, outcome: RevisionsOutcome): (t: PageState)
    ensures s.selectedLaw.None? ==> t == s
    ensures t.selectedLaw == s.selectedLaw && t.amendments == s.amendments
    ensures s.selectedLaw.Some? ==> !t.loading
    ensures s.selectedLaw.Some? ==> (t.error.None? <==> outcome.RevisionsAnswered? && outcome.ok)
    ensures s.selectedLaw.Some? && outcome.RevisionsAnswered? && outcome.ok ==>
      t.revisions == (if outcome.revisions.Some? then outcome.revisions.value else [])
    ensures s.selectedLaw.Some? && !(outcome.RevisionsAnswered? && outcome.ok) ==> t.revisions == []
  {
    if s.selectedLaw.None? then s
    else
      var done := s.(loading := false, error := None);
      match outcome
      case RevisionsAnswered(ok, revs) =>
        if ok then done.(revisions := if revs.Some? then revs.value else [])
        else done.(error := Some(RevisionsNotOk), revisions := [])
      case RevisionsThrew(m) => done.(error := Some(ErrorText(m)), revisions := [])
  }

  /** What the user can do on the page. */
  datatype Event =
    | EditDateFrom(value: string)
    | EditDateTo(value: string)
    | EditLawName(value: string)
    | ToggleChip(code: string)
    | RunSearch(searchOutcome: SearchOutcome)
    | ChangeRowSelection(selection: seq<int>)
    | CloseDialog
    | LoadRevisions(revisionsOutcome: RevisionsOutcome)

  function Step(s: PageState, e: Event): PageState {
    match e
    case EditDateFrom(v) => s.(dateFrom := v)
    case EditDateTo(v) => s.(dateTo := v)
    case EditLawName(v) => s.(lawNameFilter := v)
    case ToggleChip(code) => s.(selectedCategories := ToggleCategory(s.selectedCategories, code))
    case RunSearch(outcome) => HandleSearch(s, outcome)
    case ChangeRowSelection(selection) => SelectRows(s, selection)
    case CloseDialog => s.(dialogOpen := false)
    case LoadRevisions(outcome) => FetchRevisions(s, outcome)
  }

  function Run(s: PageState, events: seq<Event>): PageState
    decreases |events|
  {
    if |events| == 0 then s else Run(Step(s, events[0]), events[1..])
  }

  /** Between handlers: nothing is loading, revisions are shown only for a
      selected law, and no category is selected twice. */
  predicate Consistent(s: PageState) {
    && !s.loading
    && (s.revisions != [] ==> s.selectedLaw.Some?)
    && Distinct(s.selectedCategories)
  }

  lemma InitialConsistent()
    ensures Consistent(InitialState)
  {
  }

  lemma StepKeepsConsistent(s: PageState, e: Event)
    requires Consistent(s)
    ensures Consistent(Step(s, e))
  {
    if e.ToggleChip? {
      ToggleKeepsDistinct(s.selectedCategories, e.code);
    }
  }

  /** Every sequence of handlers keeps the page consistent. */
  lemma {:induction false} RunKeepsConsistent(s: PageState, events: seq<Event>)
    requires Consistent(s)
    ensures Consistent(Run(s, events))
    decreases |events|
  {
    if |events| > 0 {
      StepKeepsConsistent(s, events[0]);
      RunKeepsConsistent(Step(s, events[0]), events[1..]);
    }
  }

  /** The page shows the route's answer: 400 and 500 leave the list as it
      was with the failed-fetch message, and 200 replaces it with the
      search's records. */
  lemma PageShowsRouteAnswer(s: PageState, params: seq<QueryParam>, search: Search,
                             codes: Option<seq<string>>, title: Option<string>)
    requires Lookup(params, "date_from") == Some(s.dateFrom) && Lookup(params, "date_to") == Some(s.dateTo)
    requires CategoryCodes(Lookup(params, "categories")) == codes
    requires NonEmptyOrNone(Lookup(params, "law_title")) == title
    ensures var after := HandleSearch(s, Answered(HandleLaws(params, search)));
      var answer := search(s.dateFrom, s.dateTo, codes, title);
      && (s.dateFrom == "" || s.dateTo == "" ==> after.amendments == s.amendments && after.error == Some(SearchNotOk))
      && (s.dateFrom != "" && s.dateTo != "" && answer.Success? ==> after.amendments == answer.value && after.error.None?)
      && (s.dateFrom != "" && s.dateTo != "" && answer.Failure? ==> after.amendments == s.amendments && after.error == Some(SearchNotOk))
  {
    if s.dateFrom != "" && s.dateTo != "" {
      SearchAnswered(params, search);
    }
  }

  /** A search end to end: the page's query string, read by the route, run
      through a search. Missing dates give the route's 400, which the page
      shows as a failed fetch; otherwise the page shows exactly what the
      search found for the typed period, the selected codes and the
      non-blank title, or the failed-fetch message with the old list. */
  lemma SearchEndToEnd(s: PageState, search: Search, encode: Encoder)
    requires '&' !in s.dateFrom && '&' !in s.dateTo
    requires forall k :: 0 <= k < |s.selectedCategories| ==> WellFormedCode(s.selectedCategories[k])
    requires '&' !in encode(Trim(s.lawNameFilter))
    ensures var query := SearchQuery(s.dateFrom, s.dateTo, s.selectedCategories, s.lawNameFilter, encode);
      var after := HandleSearch(s, Answered(HandleLaws(ParseQuery(query), search)));
      var codes := if s.selectedCategories == [] then None else Some(s.selectedCategories);
      var title := if AllWhitespace(s.lawNameFilter) then None else NonEmptyOrNone(Some(encode(Trim(s.lawNameFilter))));
      var answer := search(s.dateFrom, s.dateTo, codes, title);
      && (s.dateFrom == "" || s.dateTo == "" ==> after.amendments == s.amendments && after.error == Some(SearchNotOk))
      && (s.dateFrom != "" && s.dateTo != "" && answer.Success? ==> after.amendments == answer.value && after.error.None?)
      && (s.dateFrom != "" && s.dateTo != "" && answer.Failure? ==> after.amendments == s.amendments && after.error == Some(SearchNotOk))
  {
    var query := SearchQuery(s.dateFrom, s.dateTo, s.selectedCategories, s.lawNameFilter, encode);
    var params := ParseQuery(query);
    SearchQueryReachesRoute(s.dateFrom, s.dateTo, s.selectedCategories, s.lawNameFilter, encode);
    var codes := if s.selectedCategories == [] then None else Some(s.selectedCategories);
    var title := if AllWhitespace(s.lawNameFilter) then None else NonEmptyOrNone(Some(encode(Trim(s.lawNameFilter))));
    assert NonEmptyOrNone(Lookup(params, "law_title")) == title;
    PageShowsRouteAnswer(s, params, search, codes, title);
  }
}
