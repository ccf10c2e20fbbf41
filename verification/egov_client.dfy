/** The client of the e-Gov law registry: the listing query, the
    amendment-period search that pages through the listing, flattens each
    entry and keeps the entries amended within a date range, and the two
    code-to-label formatters used for display. */
module EGovClient {
  import opened Results
  import opened Strings
  import opened Decimal
  import opened LexOrder
  import opened LawTypes

  // ------------------------------------------------------------------------
  // The listing query

  /** One `key=value` pair of a URL query; percent-encoding is left to the
      serialiser and not modelled. */
  datatype QueryParam = QueryParam(key: string, value: string)

  /** The value of the first pair with the given key. */
  function Lookup(q: seq<QueryParam>, key: string): Option<string> {
    if |q| == 0 then None
    else if q[0].key == key then Some(q[0].value)
    else Lookup(q[1..], key)
  }

  /** Where each listing parameter goes in the query. */
  function KeyRank(key: string): int {
    if key == "limit" then 0
    else if key == "offset" then 1
    else if key == "category_cd" then 2
    else if key == "law_title" then 3
    else if key == "repeal_status" then 4
    else -1
  }

  /** A part of the query present only when `present` holds. */
  function Optional(present: bool, key: string, value: string): seq<QueryParam> {
    if present then [QueryParam(key, value)] else []
  }

  /** The query of the law listing call, built in the order `limit`,
      `offset`, `category_cd`, `law_title`, `repeal_status`. */
  function ListingQuery(limit: Option<int>, offset: Option<int>,
                        categoryCodes: Option<seq<string>>, lawTitle: Option<string>): seq<QueryParam>
  {
    var hasLimit := limit.Some? && limit.value != 0;
    var hasCodes := categoryCodes.Some? && |categoryCodes.value| > 0;
    QueryOf(
      hasLimit, if hasLimit then IntToString(limit.value) else "",
      offset.Some?, if offset.Some? then IntToString(offset.value) else "",
      hasCodes, if hasCodes then Join(categoryCodes.value, ',') else "",
      IsNonEmpty(lawTitle), if lawTitle.Some? then lawTitle.value else "")
  }

  /** The listing query, given which optional parameters are sent and with
      what values. */
  function QueryOf(hasLimit: bool, limit: string, hasOffset: bool, offset: string,
                   hasCodes: bool, codes: string, hasTitle: bool, title: string): seq<QueryParam>
  {
    Optional(hasLimit, "limit", limit)
    + (Optional(hasOffset, "offset", offset)
    + (Optional(hasCodes, "category_cd", codes)
    + (Optional(hasTitle, "law_title", title)
    + [QueryParam("repeal_status", "None")])))
  }

  /** The listing query sends `limit` only when it is a non-zero number,
      `offset` whenever it is given (zero included), the category codes
      comma-joined only when the list is non-empty, the title only when
      non-empty, and always asks for laws that are not repealed. Each key
      occurs at most once, in a fixed order that puts `repeal_status` last. */
  lemma ListingQueryContents(limit: Option<int>, offset: Option<int>,
                             categoryCodes: Option<seq<string>>, lawTitle: Option<string>)
    ensures var q := ListingQuery(limit, offset, categoryCodes, lawTitle);
      && Lookup(q, "limit") == (if limit.Some? && limit.value != 0 then Some(IntToString(limit.value)) else None)
      && Lookup(q, "offset") == (if offset.Some? then Some(IntToString(offset.value)) else None)
      && (Lookup(q, "category_cd").Some? <==> categoryCodes.Some? && |categoryCodes.value| > 0)
      && (Lookup(q, "category_cd").Some? ==> Lookup(q, "category_cd").value == Join(categoryCodes.value, ','))
      && Lookup(q, "law_title") == NonEmptyOrNone(lawTitle)
      && Lookup(q, "repeal_status") == Some("None")
      && RanksIncrease(q)
  {
    ListingQueryPaging(limit, offset, categoryCodes, lawTitle);
    ListingQueryCodes(limit, offset, categoryCodes, lawTitle);
    ListingQueryTitle(limit, offset, categoryCodes, lawTitle);
    ListingQueryTail(limit, offset, categoryCodes, lawTitle);
    ListingQueryOrder(limit, offset, categoryCodes, lawTitle);
  }

  lemma ListingQueryPaging(limit: Option<int>, offset: Option<int>,
                          categoryCodes: Option<seq<string>>, lawTitle: Option<string>)
    ensures var q := ListingQuery(limit, offset, categoryCodes, lawTitle);
      && Lookup(q, "limit") == (if limit.Some? && limit.value != 0 then Some(IntToString(limit.value)) else None)
      && Lookup(q, "offset") == (if offset.Some? then Some(IntToString(offset.value)) else None)
  {
    var hasLimit := limit.Some? && limit.value != 0;
    var hasCodes := categoryCodes.Some? && |categoryCodes.value| > 0;
    var l := if hasLimit then IntToString(limit.value) else "";
    var o := if offset.Some? then IntToString(offset.value) else "";
    var c := if hasCodes then Join(categoryCodes.value, ',') else "";
    var t := if lawTitle.Some? then lawTitle.value else "";
    QueryOfLimit(hasLimit, l, offset.Some?, o, hasCodes, c, IsNonEmpty(lawTitle), t);
    QueryOfOffset(hasLimit, l, offset.Some?, o, hasCodes, c, IsNonEmpty(lawTitle), t);
  }

  lemma ListingQueryCodes(limit: Option<int>, offset: Option<int>,
                          categoryCodes: Option<seq<string>>, lawTitle: Option<string>)
    ensures var q := ListingQuery(limit, offset, categoryCodes, lawTitle);
      && (Lookup(q, "category_cd").Some? <==> categoryCodes.Some? && |categoryCodes.value| > 0)
      && (Lookup(q, "category_cd").Some? ==> Lookup(q, "category_cd").value == Join(categoryCodes.value, ','))
  {
    var hasLimit := limit.Some? && limit.value != 0;
    var hasCodes := categoryCodes.Some? && |categoryCodes.value| > 0;
    var l := if hasLimit then IntToString(limit.value) else "";
    var o := if offset.Some? then IntToString(offset.value) else "";
    var c := if hasCodes then Join(categoryCodes.value, ',') else "";
    var t := if lawTitle.Some? then lawTitle.value else "";
    QueryOfCodes(hasLimit, l, offset.Some?, o, hasCodes, c, IsNonEmpty(lawTitle), t);
  }

  lemma ListingQueryTitle(limit: Option<int>, offset: Option<int>,
                          categoryCodes: Option<seq<string>>, lawTitle: Option<string>)
    ensures Lookup(ListingQuery(limit, offset, categoryCodes, lawTitle), "law_title") == NonEmptyOrNone(lawTitle)
  {
    var hasLimit := limit.Some? && limit.value != 0;
    var hasCodes := categoryCodes.Some? && |categoryCodes.value| > 0;
    var l := if hasLimit then IntToString(limit.value) else "";
    var o := if offset.Some? then IntToString(offset.value) else "";
    var c := if hasCodes then Join(categoryCodes.value, ',') else "";
    var t := if lawTitle.Some? then lawTitle.value else "";
    QueryOfTitle(hasLimit, l, offset.Some?, o, hasCodes, c, IsNonEmpty(lawTitle), t);
  }

  lemma ListingQueryTail(limit: Option<int>, offset: Option<int>,
                          categoryCodes: Option<seq<string>>, lawTitle: Option<string>)
    ensures Lookup(ListingQuery(limit, offset, categoryCodes, lawTitle), "repeal_status") == Some("None")
  {
    var hasLimit := limit.Some? && limit.value != 0;
    var hasCodes := categoryCodes.Some? && |categoryCodes.value| > 0;
    var l := if hasLimit then IntToString(limit.value) else "";
    var o := if offset.Some? then IntToString(offset.value) else "";
    var c := if hasCodes then Join(categoryCodes.value, ',') else "";
    var t := if lawTitle.Some? then lawTitle.value else "";
    QueryOfTail(hasLimit, l, offset.Some?, o, hasCodes, c, IsNonEmpty(lawTitle), t);
  }

  lemma ListingQueryOrder(limit: Option<int>, offset: Option<int>,
                          categoryCodes: Option<seq<string>>, lawTitle: Option<string>)
    ensures RanksIncrease(ListingQuery(limit, offset, categoryCodes, lawTitle))
  {
    var hasLimit := limit.Some? && limit.value != 0;
    var hasCodes := categoryCodes.Some? && |categoryCodes.value| > 0;
    var l := if hasLimit then IntToString(limit.value) else "";
    var o := if offset.Some? then IntToString(offset.value) else "";
    var c := if hasCodes then Join(categoryCodes.value, ',') else "";
    var t := if lawTitle.Some? then lawTitle.value else "";
    QueryOfOrder(hasLimit, l, offset.Some?, o, hasCodes, c, IsNonEmpty(lawTitle), t);
  }

  lemma QueryOfLimit(hasLimit: bool, limit: string, hasOffset: bool, offset: string,
                     hasCodes: bool, codes: string, hasTitle: bool, title: string)
    ensures Lookup(QueryOf(hasLimit, limit, hasOffset, offset, hasCodes, codes, hasTitle, title), "limit") == (if hasLimit then Some(limit) else None)
  {
    var p1, p2, p3, p4 := Optional(hasLimit, "limit", limit), Optional(hasOffset, "offset", offset),
      Optional(hasCodes, "category_cd", codes), Optional(hasTitle, "law_title", title);
    var p5 := [QueryParam("repeal_status", "None")];
    LookupChain(p1, p2, p3, p4, p5, "limit");
  }

  lemma QueryOfOffset(hasLimit: bool, limit: string, hasOffset: bool, offset: string,
                     hasCodes: bool, codes: string, hasTitle: bool, title: string)
    ensures Lookup(QueryOf(hasLimit, limit, hasOffset, offset, hasCodes, codes, hasTitle, title), "offset") == (if hasOffset then Some(offset) else None)
  {
    var p1, p2, p3, p4 := Optional(hasLimit, "limit", limit), Optional(hasOffset, "offset", offset),
      Optional(hasCodes, "category_cd", codes), Optional(hasTitle, "law_title", title);
    var p5 := [QueryParam("repeal_status", "None")];
    LookupChain(p1, p2, p3, p4, p5, "offset");
  }

  lemma QueryOfCodes(hasLimit: bool, limit: string, hasOffset: bool, offset: string,
                     hasCodes: bool, codes: string, hasTitle: bool, title: string)
    ensures Lookup(QueryOf(hasLimit, limit, hasOffset, offset, hasCodes, codes, hasTitle, title), "category_cd") == (if hasCodes then Some(codes) else None)
  {
    var p1, p2, p3, p4 := Optional(hasLimit, "limit", limit), Optional(hasOffset, "offset", offset),
      Optional(hasCodes, "category_cd", codes), Optional(hasTitle, "law_title", title);
    var p5 := [QueryParam("repeal_status", "None")];
    LookupChain(p1, p2, p3, p4, p5, "category_cd");
  }

  lemma QueryOfTitle(hasLimit: bool, limit: string, hasOffset: bool, offset: string,
                     hasCodes: bool, codes: string, hasTitle: bool, title: string)
    ensures Lookup(QueryOf(hasLimit, limit, hasOffset, offset, hasCodes, codes, hasTitle, title), "law_title") == (if hasTitle then Some(title) else None)
  {
    var p1, p2, p3, p4 := Optional(hasLimit, "limit", limit), Optional(hasOffset, "offset", offset),
      Optional(hasCodes, "category_cd", codes), Optional(hasTitle, "law_title", title);
    var p5 := [QueryParam("repeal_status", "None")];
    LookupChain(p1, p2, p3, p4, p5, "law_title");
  }

  lemma QueryOfTail(hasLimit: bool, limit: string, hasOffset: bool, offset: string,
                     hasCodes: bool, codes: string, hasTitle: bool, title: string)
    ensures Lookup(QueryOf(hasLimit, limit, hasOffset, offset, hasCodes, codes, hasTitle, title), "repeal_status") == Some("None")
  {
    var p1, p2, p3, p4 := Optional(hasLimit, "limit", limit), Optional(hasOffset, "offset", offset),
      Optional(hasCodes, "category_cd", codes), Optional(hasTitle, "law_title", title);
    var p5 := [QueryParam("repeal_status", "None")];
    LookupChain(p1, p2, p3, p4, p5, "repeal_status");
  }

  /** `a ?? b` on lookups: the first value found. */
  function FirstFound(a: Option<string>, b: Option<string>): Option<string> {
    if a.Some? then a else b
  }

  /** A lookup in five consecutive parts finds the first part's value. */
  lemma LookupChain(p1: seq<QueryParam>, p2: seq<QueryParam>, p3: seq<QueryParam>,
                    p4: seq<QueryParam>, p5: seq<QueryParam>, key: string)
    ensures Lookup(p1 + (p2 + (p3 + (p4 + p5))), key)
      == FirstFound(Lookup(p1, key), FirstFound(Lookup(p2, key), FirstFound(Lookup(p3, key),
           FirstFound(Lookup(p4, key), Lookup(p5, key)))))
  {
    LookupAppend(p1, p2 + (p3 + (p4 + p5)), key);
    LookupAppend(p2, p3 + (p4 + p5), key);
    LookupAppend(p3, p4 + p5, key);
    LookupAppend(p4, p5, key);
  }

  lemma QueryOfOrder(hasLimit: bool, limit: string, hasOffset: bool, offset: string,
                     hasCodes: bool, codes: string, hasTitle: bool, title: string)
    ensures RanksIncrease(QueryOf(hasLimit, limit, hasOffset, offset, hasCodes, codes, hasTitle, title))
  {
    var p5 := [QueryParam("repeal_status", "None")];
    var q4 := Optional(hasTitle, "law_title", title) + p5;
    var q3 := Optional(hasCodes, "category_cd", codes) + q4;
    var q2 := Optional(hasOffset, "offset", offset) + q3;
    assert KeyRank("limit") == 0 && KeyRank("offset") == 1 && KeyRank("category_cd") == 2;
    assert KeyRank("law_title") == 3 && KeyRank("repeal_status") == 4;
    assert RanksIncrease(p5) && RanksAbove(p5, 3);
    PrependRank(Optional(hasTitle, "law_title", title), p5, 3);
    PrependRank(Optional(hasCodes, "category_cd", codes), q4, 2);
    PrependRank(Optional(hasOffset, "offset", offset), q3, 1);
    PrependRank(Optional(hasLimit, "limit", limit), q2, 0);
  }

  /** Looking a key up in a concatenation looks in the first part first. */
  lemma {:induction false} LookupAppend(a: seq<QueryParam>, b: seq<QueryParam>, key: string)
    ensures Lookup(a + b, key) == if Lookup(a, key).Some? then Lookup(a, key) else Lookup(b, key)
    decreases |a|
  {
    if |a| > 0 {
      assert (a + b)[0] == a[0];
      assert (a + b)[1..] == a[1..] + b;
      LookupAppend(a[1..], b, key);
    } else {
      assert a + b == b;
    }
  }

  predicate RanksIncrease(q: seq<QueryParam>) {
    forall i, j :: 0 <= i < j < |q| ==> 0 <= KeyRank(q[i].key) < KeyRank(q[j].key)
  }

  predicate RanksAbove(q: seq<QueryParam>, r: int) {
    forall i :: 0 <= i < |q| ==> KeyRank(q[i].key) > r
  }

  lemma PrependRank(p: seq<QueryParam>, rest: seq<QueryParam>, r: int)
    requires |p| <= 1 && (p != [] ==> KeyRank(p[0].key) == r) && r >= 0
    requires RanksIncrease(rest) && RanksAbove(rest, r)
    ensures RanksIncrease(p + rest) && RanksAbove(p + rest, r - 1)
  {
  }

  // ------------------------------------------------------------------------
  // The listing call

  /** How a listing request can fail: the registry answers with a non-success
      status, or the request throws before a response is read. */
  datatype UpstreamFailure = HttpError(statusText: string) | Thrown(message: string)

  /** The registry's listing endpoint, as a function of the query. */
  type Upstream = seq<QueryParam> -> Result<LawsResponse, UpstreamFailure>

  function FailureMessage(f: UpstreamFailure): string {
    match f
    case HttpError(text) => "API request failed: " + text
    case Thrown(message) => message
  }

  /** `getLaws`: one listing request. A non-success status becomes an error
      naming the status text; any other failure propagates unchanged. */
  function GetLaws(limit: Option<int>, offset: Option<int>, categoryCodes: Option<seq<string>>,
                   lawTitle: Option<string>, upstream: Upstream): (r: Result<LawsResponse, string>)
    ensures var answer := upstream(ListingQuery(limit, offset, categoryCodes, lawTitle));
      && (r.Success? <==> answer.Success?)
      && (r.Success? ==> r.value == answer.value)
      && (r.Failure? ==> r.error == FailureMessage(answer.error))
  {
    match upstream(ListingQuery(limit, offset, categoryCodes, lawTitle))
    case Success(page) => Success(page)
    case Failure(f) => Failure(FailureMessage(f))
  }

  // ------------------------------------------------------------------------
  // Flattening

  /** One flat record per listing entry: identity from `law_info`, every
      other field from `revision_info`. */
  function Project(law: Law): AmendmentSummary {
    var li, ri := law.law_info, law.revision_info;
    AmendmentSummary(
      li.law_id, li.law_num, ri.law_title, ri.law_type, ri.category,
      ri.amendment_promulgate_date, ri.amendment_enforcement_date,
      ri.amendment_law_id, ri.amendment_law_title, ri.amendment_law_num,
      ri.amendment_type, ri.mission, ri.updated, ri.law_revision_id)
  }

  function ProjectAll(laws: seq<Law>): (r: seq<AmendmentSummary>)
    ensures |r| == |laws|
  {
    if |laws| == 0 then [] else [Project(laws[0])] + ProjectAll(laws[1..])
  }

  /** The k-th record is the flattening of the k-th entry. */
  lemma {:induction false} ProjectAllAt(laws: seq<Law>, k: nat)
    requires k < |laws|
    ensures ProjectAll(laws)[k] == Project(laws[k])
    decreases k
  {
    if k > 0 {
      ProjectAllAt(laws[1..], k - 1);
    }
  }

  /** Flattening keeps every entry, in order. */
  lemma ProjectAllElements(laws: seq<Law>)
    ensures forall k :: 0 <= k < |laws| ==> ProjectAll(laws)[k] == Project(laws[k])
  {
    forall k | 0 <= k < |laws| {
      ProjectAllAt(laws, k);
    }
  }

  lemma ProjectAllAppend(a: seq<Law>, b: seq<Law>)
    ensures ProjectAll(a + b) == ProjectAll(a) + ProjectAll(b)
  {
    var left, right := ProjectAll(a + b), ProjectAll(a) + ProjectAll(b);
    forall k | 0 <= k < |a| + |b|
      ensures left[k] == right[k]
    {
      ProjectAllAt(a + b, k);
      if k < |a| {
        assert (a + b)[k] == a[k];
        ProjectAllAt(a, k);
      } else {
        assert (a + b)[k] == b[k - |a|];
        ProjectAllAt(b, k - |a|);
      }
    }
  }

  /** A listing entry carrying exactly the fields of a record. */
  function Embed(a: AmendmentSummary): Law {
    Law(
      LawInfo(a.law_id, a.law_num, None, None, None, None, None),
      RevisionInfo(
        a.law_revision_id, a.law_type, a.law_title, None, None, a.category, a.updated,
        a.amendment_promulgate_date, a.amendment_enforcement_date, None, None,
        a.amendment_law_id, a.amendment_law_title, None, a.amendment_law_num,
        a.amendment_type, None, None, None, a.mission, None),
      None)
  }

  /** Flattening loses no field of the record: every record is the
      flattening of some entry. */
  lemma ProjectEmbed(a: AmendmentSummary)
    ensures Project(Embed(a)) == a
  {
  }

  /** Flattening ignores the optional current revision and every identity
      field other than the id and the number. */
  lemma ProjectIgnores(x: Law, y: Law)
    requires x.revision_info == y.revision_info
    requires x.law_info.law_id == y.law_info.law_id && x.law_info.law_num == y.law_info.law_num
    ensures Project(x) == Project(y)
  {
  }

  // ------------------------------------------------------------------------
  // Paging

  /** The page size of the amendment-period search. */
  const PageLimit: nat := 10000

  /** The offset of page k. */
  function PageOffset(k: nat): nat {
    k * PageLimit
  }

  /** The answer to a page request, as a function of its offset. */
  type PageSource = nat -> Result<LawsResponse, string>

  /** The page requests of the amendment-period search: the listing call with
      limit 10000 at the given offset, with the search's filters. */
  function Pages(upstream: Upstream, codes: Option<seq<string>>, title: Option<string>): (src: PageSource)
    ensures forall offset: nat :: src(offset) == GetLaws(Some(PageLimit), Some(offset), codes, title, upstream)
  {
    offset => GetLaws(Some(PageLimit), Some(offset), codes, title, upstream)
  }

  /** `response.laws || []` */
  function LawsOf(p: LawsResponse): seq<Law> {
    if p.laws.Some? then p.laws.value else []
  }

  /** `response.total_count || 0` */
  function TotalOf(p: LawsResponse): int {
    if p.total_count.Some? then p.total_count.value else 0
  }

  /** The answer to the i-th page request. */
  function PageAt(src: PageSource, i: nat): Result<LawsResponse, string> {
    src(PageOffset(i))
  }

  /** The search asks for page i + 1 after page i: page i arrived, was not
      empty, and did not reach the reported total. */
  predicate Continues(src: PageSource, i: nat) {
    var p := PageAt(src, i);
    p.Success? && |LawsOf(p.value)| > 0 && PageOffset(i) + PageLimit < TotalOf(p.value)
  }

  /** The search issues exactly `pages` requests: every request before the
      last continues, the last does not. */
  predicate StopsAfter(src: PageSource, pages: nat) {
    && pages >= 1
    && (forall i :: 0 <= i < pages - 1 ==> Continues(src, i))
    && !Continues(src, pages - 1)
  }

  /** Every page before page k continues the search. */
  predicate ContinuesUpTo(src: PageSource, k: nat) {
    k == 0 || (ContinuesUpTo(src, k - 1) && Continues(src, k - 1))
  }

  lemma {:induction false} ContinuesBefore(src: PageSource, k: nat)
    requires ContinuesUpTo(src, k)
    ensures forall i :: 0 <= i < k ==> Continues(src, i)
  {
    if k > 0 {
      ContinuesBefore(src, k - 1);
    }
  }

  /** The records of page i, empty when the page failed. */
  function PageRecords(src: PageSource, i: nat): seq<AmendmentSummary> {
    var p := PageAt(src, i);
    if p.Success? then ProjectAll(LawsOf(p.value)) else []
  }

  /** The records of the first k pages, in page order. */
  function Collected(src: PageSource, k: nat): seq<AmendmentSummary> {
    if k == 0 then [] else Collected(src, k - 1) + PageRecords(src, k - 1)
  }

  /** The number of entries on the first k pages. */
  function EntryCount(src: PageSource, k: nat): nat {
    if k == 0 then 0
    else
      var p := PageAt(src, k - 1);
      EntryCount(src, k - 1) + (if p.Success? then |LawsOf(p.value)| else 0)
  }

  /** The records collected are as many as the entries listed. */
  lemma {:induction false} CollectedLength(src: PageSource, k: nat)
    ensures |Collected(src, k)| == EntryCount(src, k)
  {
    if k > 0 {
      CollectedLength(src, k - 1);
    }
  }

  /** Every successful page reports a total of at most `bound`. */
  ghost predicate TotalsBoundedBy(src: PageSource, bound: int) {
    forall i: nat :: PageAt(src, i).Success? ==> TotalOf(PageAt(src, i).value) <= bound
  }

  /** max(1, ceil(bound / 10000)) */
  function MaxPages(bound: int): nat {
    if bound <= PageLimit then 1 else (bound + PageLimit - 1) / PageLimit
  }

  lemma PagesWithinBound(pages: nat, bound: int)
    requires pages == 0 || PageOffset(pages) < bound
    ensures pages + 1 <= MaxPages(bound)
  {
    if pages > 0 {
      assert (pages + 1) * PageLimit <= bound + PageLimit - 1;
    }
  }

  /** The paging loop of the amendment-period search: requests pages at
      offsets 0, 10000, 20000, ... and flattens each entry into the
      accumulator, stopping after an empty or missing page or once
      `offset + 10000` reaches the reported total. A failed request ends the
      search with that request's error and no records. The source loop has
      no bound of its own; `bound`, a bound on every reported total, is what
      makes it terminate. */
  method FetchAllPages(src: PageSource, ghost bound: int)
    returns (res: Result<seq<AmendmentSummary>, string>, pages: nat)
    requires TotalsBoundedBy(src, bound)
    ensures StopsAfter(src, pages)
    ensures pages <= MaxPages(bound)
    ensures res.Failure? <==> PageAt(src, pages - 1).Failure?
    ensures res.Failure? ==> res.error == PageAt(src, pages - 1).error
    ensures res.Success? ==> res.value == Collected(src, pages)
  {
    var acc: seq<AmendmentSummary> := [];
    var offset: nat := 0;
    var k: nat := 0;
    res := Success([]);
    while true
      invariant offset == PageOffset(k)
      invariant acc == Collected(src, k)
      invariant ContinuesUpTo(src, k)
      invariant k == 0 || offset < bound
      decreases bound - offset
    {
      var stop;
      stop, res, acc := FetchPage(src, k, offset, acc);
      if stop {
        break;
      }
      Advance(src, k, bound);
      offset := offset + PageLimit;
      k := k + 1;
    }
    Finish(src, bound, k, res);
    pages := k + 1;
  }

  /** One turn of the paging loop: request the page at `offset`, flatten
      its entries onto `acc`, and say whether the search stops here and
      with what. */
  method FetchPage(src: PageSource, k: nat, offset: nat, acc: seq<AmendmentSummary>)
    returns (stop: bool, res: Result<seq<AmendmentSummary>, string>, next: seq<AmendmentSummary>)
    requires offset == PageOffset(k)
    requires acc == Collected(src, k)
    ensures stop <==> !Continues(src, k)
    ensures stop ==> res == if PageAt(src, k).Failure? then Failure(PageAt(src, k).error) else Success(Collected(src, k + 1))
    ensures !stop ==> next == Collected(src, k + 1)
  {
    next := acc;
    var response := src(offset);
    if response.Failure? {
      return true, Failure(response.error), next;
    }
    var laws := LawsOf(response.value);
    var page := ProjectEach(laws);
    CollectStep(src, k, acc, page);
    next := acc + page;
    if |laws| == 0 {
      return true, Success(acc), next;
    }
    if offset + PageLimit >= TotalOf(response.value) {
      return true, Success(next), next;
    }
    return false, Success(next), next;
  }

  /** The inner loop: one flat record per entry, in order. */
  method ProjectEach(laws: seq<Law>) returns (page: seq<AmendmentSummary>)
    ensures page == ProjectAll(laws)
  {
    page := [];
    var j := 0;
    while j < |laws|
      invariant 0 <= j <= |laws|
      invariant page == ProjectAll(laws[..j])
    {
      ProjectAllSnoc(laws, j);
      page := page + [Project(laws[j])];
      j := j + 1;
    }
    assert laws[..j] == laws;
  }

  lemma ProjectAllSnoc(laws: seq<Law>, j: nat)
    requires j < |laws|
    ensures ProjectAll(laws[..j + 1]) == ProjectAll(laws[..j]) + [Project(laws[j])]
  {
    ProjectAllAppend(laws[..j], [laws[j]]);
    assert laws[..j + 1] == laws[..j] + [laws[j]];
  }

  /** Appending the records of a successful page `k` to those of the pages
      before it. */
  lemma CollectStep(src: PageSource, k: nat, acc: seq<AmendmentSummary>, page: seq<AmendmentSummary>)
    requires acc == Collected(src, k)
    requires PageAt(src, k).Success? && page == ProjectAll(LawsOf(PageAt(src, k).value))
    ensures Collected(src, k + 1) == acc + page
    ensures page == [] ==> Collected(src, k + 1) == acc
  {
    assert acc + [] == acc;
  }

  /** What the search returns after its request for page `k` ends it. */
  lemma Finish(src: PageSource, bound: int, k: nat, res: Result<seq<AmendmentSummary>, string>)
    requires ContinuesUpTo(src, k)
    requires !Continues(src, k)
    requires k == 0 || PageOffset(k) < bound
    requires var p := PageAt(src, k);
      res == if p.Failure? then Failure(p.error) else Success(Collected(src, k + 1))
    ensures StopsAfter(src, k + 1)
    ensures k + 1 <= MaxPages(bound)
    ensures res.Failure? <==> PageAt(src, k + 1 - 1).Failure?
    ensures res.Failure? ==> res.error == PageAt(src, k + 1 - 1).error
    ensures res.Success? ==> res.value == Collected(src, k + 1)
  {
    ContinuesBefore(src, k);
    PagesWithinBound(k, bound);
  }

  /** Going on to page `k + 1` keeps the offset below the bound. */
  lemma Advance(src: PageSource, k: nat, bound: int)
    requires TotalsBoundedBy(src, bound)
    requires Continues(src, k)
    ensures PageOffset(k + 1) == PageOffset(k) + PageLimit < bound
  {
    var p := PageAt(src, k);
    assert TotalOf(p.value) <= bound;
  }

  /** At most one number of requests fits the stopping rule. */
  lemma StopsAfterUnique(src: PageSource, m: nat, n: nat)
    requires StopsAfter(src, m) && StopsAfter(src, n)
    ensures m == n
  {
  }

  // ------------------------------------------------------------------------
  // The date filter

  /** A date counts when it is present, not empty, and within
      `[dateFrom, dateTo]` under plain string comparison. */
  predicate DateInRange(date: Option<string>, dateFrom: string, dateTo: string) {
    IsNonEmpty(date) && LexLe(dateFrom, date.value) && LexLe(date.value, dateTo)
  }

  predicate InPeriod(a: AmendmentSummary, dateFrom: string, dateTo: string) {
    || DateInRange(a.amendment_promulgate_date, dateFrom, dateTo)
    || DateInRange(a.amendment_enforcement_date, dateFrom, dateTo)
  }

  /** The records promulgated or enforced within the period, in their
      original order. */
  function FilterInPeriod(xs: seq<AmendmentSummary>, dateFrom: string, dateTo: string): (r: seq<AmendmentSummary>)
    ensures |r| <= |xs|
    ensures forall k :: 0 <= k < |r| ==> InPeriod(r[k], dateFrom, dateTo)
    ensures forall x :: x in r <==> x in xs && InPeriod(x, dateFrom, dateTo)
  {
    if |xs| == 0 then []
    else
      var rest := FilterInPeriod(xs[1..], dateFrom, dateTo);
      assert forall x :: x in xs <==> x == xs[0] || x in xs[1..];
      if InPeriod(xs[0], dateFrom, dateTo) then [xs[0]] + rest else rest
  }

  /** Filtering works piecewise: nothing is moved across a boundary, so the
      kept records stay in their original order. */
  lemma {:induction false} FilterAppend(a: seq<AmendmentSummary>, b: seq<AmendmentSummary>, dateFrom: string, dateTo: string)
    ensures FilterInPeriod(a + b, dateFrom, dateTo) == FilterInPeriod(a, dateFrom, dateTo) + FilterInPeriod(b, dateFrom, dateTo)
    decreases |a|
  {
    if |a| == 0 {
      assert a + b == b;
    } else {
      assert (a + b)[0] == a[0];
      assert (a + b)[1..] == a[1..] + b;
      FilterAppend(a[1..], b, dateFrom, dateTo);
    }
  }

  /** Each record in the period is kept exactly as often as it occurs; every
      other record is dropped: nothing is duplicated or lost. */
  lemma {:induction false} FilterCounts(xs: seq<AmendmentSummary>, dateFrom: string, dateTo: string)
    ensures forall x ::
      multiset(FilterInPeriod(xs, dateFrom, dateTo))[x] == (if InPeriod(x, dateFrom, dateTo) then multiset(xs)[x] else 0)
    decreases |xs|
  {
    if |xs| > 0 {
      FilterCounts(xs[1..], dateFrom, dateTo);
      assert xs == [xs[0]] + xs[1..];
      assert multiset(xs) == multiset{xs[0]} + multiset(xs[1..]);
    }
  }

  /** A reversed period admits nothing. */
  lemma ReversedPeriodIsEmpty(xs: seq<AmendmentSummary>, dateFrom: string, dateTo: string)
    requires LexLt(dateTo, dateFrom)
    ensures FilterInPeriod(xs, dateFrom, dateTo) == []
  {
    forall x | x in xs ensures !InPeriod(x, dateFrom, dateTo) {
      forall d: Option<string> | DateInRange(d, dateFrom, dateTo) ensures false {
        LexLeTransitive(dateFrom, d.value, dateTo);
        LexLeAntisymmetric(dateFrom, dateTo);
      }
    }
  }

  /** When the bounds and the record's dates are all calendar dates
      `YYYY-MM-DD`, the string comparison is the chronological one. */
  lemma DateInRangeIsChronological(date: Option<string>, dateFrom: string, dateTo: string)
    requires IsIsoDate(dateFrom) && IsIsoDate(dateTo)
    requires date.Some? ==> IsIsoDate(date.value)
    ensures DateInRange(date, dateFrom, dateTo) <==>
      date.Some? && NotLater(dateFrom, date.value) && NotLater(date.value, dateTo)
  {
    if date.Some? {
      IsoDateOrder(dateFrom, date.value);
      IsoDateOrder(date.value, dateTo);
    }
  }

  // ------------------------------------------------------------------------
  // The amendment-period search

  /** `getAmendmentsInPeriod`: all pages, then the date filter. On success
      the result is exactly the collected records in the period, in
      collection order; a failed page yields its error and no records. */
  method GetAmendmentsInPeriod(dateFrom: string, dateTo: string, codes: Option<seq<string>>, title: Option<string>,
                               upstream: Upstream, ghost bound: int)
    returns (res: Result<seq<AmendmentSummary>, string>, pages: nat)
    requires TotalsBoundedBy(Pages(upstream, codes, title), bound)
    ensures var src := Pages(upstream, codes, title);
      && StopsAfter(src, pages) && pages <= MaxPages(bound)
      && (res.Failure? <==> PageAt(src, pages - 1).Failure?)
      && (res.Failure? ==> res.error == PageAt(src, pages - 1).error)
      && (res.Success? ==> res.value == FilterInPeriod(Collected(src, pages), dateFrom, dateTo))
    ensures res.Success? ==> forall k :: 0 <= k < |res.value| ==> InPeriod(res.value[k], dateFrom, dateTo)
  {
    var all;
    all, pages := FetchAllPages(Pages(upstream, codes, title), bound);
    if all.Failure? {
      return Failure(all.error), pages;
    }
    res := Success(FilterInPeriod(all.value, dateFrom, dateTo));
  }

  // ------------------------------------------------------------------------
  // Display labels

  const NotAvailable := "N/A"

  const AmendmentTypeLabels: map<string, string> :=
    map["1" := "新規制定", "2" := "全部改正", "3" := "被改正法", "4" := "一部改正附則", "8" := "廃止"]

  const OtherPrefix := "その他("

  /** `formatAmendmentType`: absent or empty is "N/A", the five known codes
      have fixed labels, any other code c becomes "その他(c)". */
  function FormatAmendmentType(amendmentType: Option<string>): (r: string)
    ensures r == NotAvailable <==> !IsNonEmpty(amendmentType)
    ensures IsNonEmpty(amendmentType) ==> r in AmendmentTypeLabels.Values || OtherPrefix <= r
    ensures IsNonEmpty(amendmentType) && amendmentType.value in AmendmentTypeLabels ==>
      r == AmendmentTypeLabels[amendmentType.value]
    ensures IsNonEmpty(amendmentType) && amendmentType.value !in AmendmentTypeLabels ==>
      r == OtherPrefix + amendmentType.value + ")"
  {
    if !IsNonEmpty(amendmentType) then NotAvailable
    else if amendmentType.value in AmendmentTypeLabels then AmendmentTypeLabels[amendmentType.value]
    else
      var r := OtherPrefix + amendmentType.value + ")";
      assert r[0] == 'そ';
      r
  }

  const MissionLabels: map<string, string> :=
    map["New" := "新規制定・被改正法", "Partial" := "一部改正法"]

  /** `formatMission`: absent or empty is "N/A", the two known codes have
      fixed labels, anything else is shown as it is. */
  function FormatMission(mission: Option<string>): (r: string)
    ensures !IsNonEmpty(mission) ==> r == NotAvailable
    ensures IsNonEmpty(mission) && mission.value in MissionLabels ==> r == MissionLabels[mission.value]
    ensures IsNonEmpty(mission) && mission.value !in MissionLabels ==> r == mission.value
    ensures r != ""
  {
    if !IsNonEmpty(mission) then NotAvailable
    else if mission.value in MissionLabels then MissionLabels[mission.value]
    else mission.value
  }

  /** Reads the code back from a label of `FormatAmendmentType`. */
  function AmendmentTypeCode(text: string): Option<string> {
    if |text| > |OtherPrefix| && OtherPrefix <= text && text[|text| - 1] == ')' then
      Some(text[|OtherPrefix|..|text| - 1])
    else if text == "新規制定" then Some("1")
    else if text == "全部改正" then Some("2")
    else if text == "被改正法" then Some("3")
    else if text == "一部改正附則" then Some("4")
    else if text == "廃止" then Some("8")
    else None
  }

  /** Every non-empty code can be read back from its label, so no two codes
      share a label. */
  lemma AmendmentTypeRoundTrip(code: string)
    requires code != ""
    ensures AmendmentTypeCode(FormatAmendmentType(Some(code))) == Some(code)
  {
    if code in AmendmentTypeLabels {
      KnownLabelRead(code);
    } else {
      OtherLabelRead(code);
    }
  }

  lemma KnownLabelRead(code: string)
    requires code in AmendmentTypeLabels
    ensures AmendmentTypeCode(AmendmentTypeLabels[code]) == Some(code)
  {
    var text := AmendmentTypeLabels[code];
    assert text[0] != OtherPrefix[0];
  }

  lemma OtherLabelRead(code: string)
    requires code != ""
    ensures AmendmentTypeCode(OtherPrefix + code + ")") == Some(code)
  {
    var r := OtherPrefix + code + ")";
    assert r[..|OtherPrefix|] == OtherPrefix;
    assert r[|r| - 1] == ')';
    assert r[|OtherPrefix|..|r| - 1] == code;
  }

  lemma AmendmentTypeLabelsDistinct(a: string, b: string)
    requires a != "" && b != ""
    requires FormatAmendmentType(Some(a)) == FormatAmendmentType(Some(b))
    ensures a == b
  {
    AmendmentTypeRoundTrip(a);
    AmendmentTypeRoundTrip(b);
  }

  /** Formatting a mission label again leaves it as it is. */
  lemma FormatMissionIdempotent(mission: Option<string>)
    ensures FormatMission(Some(FormatMission(mission))) == FormatMission(mission)
  {
    var r := FormatMission(mission);
    assert r !in MissionLabels by {
      assert r == NotAvailable || r in MissionLabels.Values || r == mission.value;
    }
  }
}
