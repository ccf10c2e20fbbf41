/** The `GET /api/laws` handler: reads the period and the optional filters
    from the request's query string, rejects a request without both dates,
    runs the amendment-period search and answers with its records, or with
    a fixed message when the search fails. */
module LawsRoute {
  import opened Results
  import opened Strings
  import opened LawTypes
  import opened EGovClient

  /** The amendment-period search as the handler sees it: period, category
      codes and title in, the records in the period or an error out. */
  type Search = (string, string, Option<seq<string>>, Option<string>) -> Result<seq<AmendmentSummary>, string>

  /** The JSON body of a response. */
  datatype Body =
    | ErrorBody(error: string)
    | AmendmentsBody(amendments: seq<AmendmentSummary>, count: int)

  datatype Response = Response(status: int, body: Body)

  /** One `name=value` part of a query string: split at the first `=`; a
      part without `=` is a name with the empty value. */
  function ParsePair(part: string): (p: QueryParam)
    ensures '=' !in p.key
    ensures '=' in part ==> part == p.key + "=" + p.value
    ensures '=' !in part ==> p == QueryParam(part, "")
  {
    if '=' in part then
      var i := IndexOf(part, '=');
      assert part == part[..i] + "=" + part[i + 1..];
      QueryParam(part[..i], part[i + 1..])
    else QueryParam(part, "")
  }

  function ParsePairs(parts: seq<string>): (q: seq<QueryParam>)
    ensures |q| <= |parts|
  {
    if |parts| == 0 then []
    else if parts[0] == "" then ParsePairs(parts[1..])
    else [ParsePair(parts[0])] + ParsePairs(parts[1..])
  }

  /** The request's query string as name-value pairs in order: split at `&`,
      empty parts skipped, each part split at its first `=`. Percent-decoding
      is not modelled. */
  function ParseQuery(query: string): seq<QueryParam> {
    ParsePairs(Split(query, '&'))
  }

  /** `name=value` */
  function PairText(p: QueryParam): string {
    p.key + "=" + p.value
  }

  /** `&name=value` for each pair in turn. */
  function Ampersanded(pairs: seq<QueryParam>): string {
    if |pairs| == 0 then "" else "&" + PairText(pairs[0]) + Ampersanded(pairs[1..])
  }

  /** A query string listing the given pairs, in order. */
  function FormatQuery(pairs: seq<QueryParam>): string
    requires |pairs| >= 1
  {
    PairText(pairs[0]) + Ampersanded(pairs[1..])
  }

  /** A pair that survives formatting and reading back. */
  predicate PlainPair(p: QueryParam) {
    '=' !in p.key && '&' !in p.key && '&' !in p.value
  }

  lemma {:induction false} AmpersandedAppend(a: seq<QueryParam>, b: seq<QueryParam>)
    ensures Ampersanded(a + b) == Ampersanded(a) + Ampersanded(b)
    decreases |a|
  {
    if |a| == 0 {
      assert a + b == b;
    } else {
      assert (a + b)[0] == a[0];
      assert (a + b)[1..] == a[1..] + b;
      AmpersandedAppend(a[1..], b);
    }
  }

  lemma ParsePairText(p: QueryParam)
    requires '=' !in p.key
    ensures ParsePair(PairText(p)) == p
  {
    var part := PairText(p);
    var q := ParsePair(part);
    assert part[|p.key|] == '=';
    assert |q.key| == |p.key|;
    assert q.key == part[..|p.key|] == p.key;
    assert q.value == part[|p.key| + 1..] == p.value;
  }

  /** A query string of one pair reads back as that pair. */
  lemma ParseOnePair(p: QueryParam)
    requires PlainPair(p)
    ensures ParseQuery(PairText(p)) == [p]
  {
    var part := PairText(p);
    assert part[|p.key|] == '=';
    assert '&' !in part;
    assert Split(part, '&') == [part];
    ParsePairText(p);
    assert [part][1..] == [];
  }

  /** A pair in front of the rest of a query string reads back in front. */
  lemma ParseLeadingPair(p: QueryParam, tail: string)
    requires PlainPair(p)
    ensures ParseQuery(PairText(p) + "&" + tail) == [p] + ParseQuery(tail)
  {
    var part := PairText(p);
    assert part[|p.key|] == '=';
    assert '&' !in part;
    assert PairText(p) + "&" + tail == part + ['&'] + tail;
    SplitAtFirst(part, tail, '&');
    var parts := [part] + Split(tail, '&');
    assert parts[1..] == Split(tail, '&');
    ParsePairText(p);
  }

  /** Reading a formatted query string gives its pairs back. */
  lemma {:induction false} ParseFormatQuery(pairs: seq<QueryParam>)
    requires |pairs| >= 1
    requires forall k :: 0 <= k < |pairs| ==> PlainPair(pairs[k])
    ensures ParseQuery(FormatQuery(pairs)) == pairs
    decreases |pairs|
  {
    var rest := pairs[1..];
    if |rest| == 0 {
      assert FormatQuery(pairs) == PairText(pairs[0]);
      ParseOnePair(pairs[0]);
      assert pairs == [pairs[0]];
    } else {
      assert FormatQuery(pairs) == PairText(pairs[0]) + "&" + FormatQuery(rest);
      ParseLeadingPair(pairs[0], FormatQuery(rest));
      ParseFormatQuery(rest);
      assert pairs == [pairs[0]] + rest;
    }
  }

  const MissingDates := "date_from and date_to are required"
  const SearchFailed := "Failed to fetch laws from e-Gov API"

  /** `categories ? categories.split(',') : undefined` */
  function CategoryCodes(categories: Option<string>): (r: Option<seq<string>>)
    ensures r.Some? <==> IsNonEmpty(categories)
    ensures r.Some? ==> |r.value| >= 1 && Join(r.value, ',') == categories.value
    ensures r.Some? ==> forall k :: 0 <= k < |r.value| ==> ',' !in r.value[k]
  {
    if IsNonEmpty(categories) then
      JoinSplit(categories.value, ',');
      Some(Split(categories.value, ','))
    else None
  }

  /** The handler. `params` is the request's query string; the first value of
      each name is the one read. */
  function HandleLaws(params: seq<QueryParam>, search: Search): (r: Response)
    ensures r.status == 400 <==> !IsNonEmpty(Lookup(params, "date_from")) || !IsNonEmpty(Lookup(params, "date_to"))
    ensures r.status == 400 ==> r.body == ErrorBody(MissingDates)
    ensures r.status in {200, 400, 500}
    ensures r.status == 200 ==> r.body.AmendmentsBody? && r.body.count == |r.body.amendments|
    ensures r.status == 500 ==> r.body == ErrorBody(SearchFailed)
  {
    var dateFrom := Lookup(params, "date_from");
    var dateTo := Lookup(params, "date_to");
    if !IsNonEmpty(dateFrom) || !IsNonEmpty(dateTo) then
      Response(400, ErrorBody(MissingDates))
    else
      match search(dateFrom.value, dateTo.value, CategoryCodes(Lookup(params, "categories")),
                   NonEmptyOrNone(Lookup(params, "law_title")))
      case Success(amendments) => Response(200, AmendmentsBody(amendments, |amendments|))
      case Failure(_) => Response(500, ErrorBody(SearchFailed))
  }

  /** A request without both dates is answered without running the search:
      any two searches give the same response. */
  lemma ValidationPrecedesSearch(params: seq<QueryParam>, s1: Search, s2: Search)
    requires !IsNonEmpty(Lookup(params, "date_from")) || !IsNonEmpty(Lookup(params, "date_to"))
    ensures HandleLaws(params, s1) == HandleLaws(params, s2)
    ensures HandleLaws(params, s1).status == 400
  {
  }

  /** With both dates present, the search runs on exactly the request's
      period, its categories split at commas, and its title when non-empty;
      the response is 200 with the search's records unchanged when it
      succeeds and 500 when it fails, whatever the error. */
  lemma SearchAnswered(params: seq<QueryParam>, search: Search)
    requires IsNonEmpty(Lookup(params, "date_from")) && IsNonEmpty(Lookup(params, "date_to"))
    ensures var answer := search(Lookup(params, "date_from").value, Lookup(params, "date_to").value,
                                 CategoryCodes(Lookup(params, "categories")), NonEmptyOrNone(Lookup(params, "law_title")));
      && (answer.Success? ==> HandleLaws(params, search) == Response(200, AmendmentsBody(answer.value, |answer.value|)))
      && (answer.Failure? ==> HandleLaws(params, search) == Response(500, ErrorBody(SearchFailed)))
  {
  }

  /** The category codes the handler splits off are joined again by the
      listing query: the registry sees the request's `categories` value
      verbatim as `category_cd` when it is non-empty, and no `category_cd`
      otherwise. */
  lemma CategoriesForwardedVerbatim(categories: Option<string>, limit: Option<int>, offset: Option<int>, title: Option<string>)
    ensures Lookup(ListingQuery(limit, offset, CategoryCodes(categories), title), "category_cd")
      == NonEmptyOrNone(categories)
  {
    ListingQueryContents(limit, offset, CategoryCodes(categories), title);
  }

  /** The title reaches the registry exactly when it is non-empty. */
  lemma TitleForwarded(title: Option<string>, limit: Option<int>, offset: Option<int>, codes: Option<seq<string>>)
    ensures Lookup(ListingQuery(limit, offset, codes, NonEmptyOrNone(title)), "law_title") == NonEmptyOrNone(title)
  {
    ListingQueryContents(limit, offset, codes, NonEmptyOrNone(title));
  }
}
