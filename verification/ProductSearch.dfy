/**
 The search compiler: optional filters become SQL conditions with positional `$k` placeholders and a
 parameter array.  A condition is kept as (column, operator, k) instead of text; `Eval` gives it the
 meaning PostgreSQL gives it, with `None` for a placeholder that is out of range or of the wrong type.
 */
module ProductSearch {
  import opened Common
  import Like
  import Taxonomy

  datatype Param = Text(s: string) | Number(x: real) | Integer(n: int) | NullParam

  datatype Column =
    | Category | Subcategory | Price | CreatedAt | City | AddressText | SellerRate | Status | NameAndDescription

  datatype Operator = Equal | AtLeast | AtMost | ILike | TextSearch

  datatype Clause = Clause(column: Column, operator: Operator, k: nat)

  datatype Row = Row(
    id: int, ownerId: int, category: string, subcategory: Option<string>, name: string, description: string,
    price: real, createdAt: int, city: string, addressText: string, sellerRate: real, status: string)

  /** Absent fields are None; the code also skips text filters that are the empty string. */
  datatype Filters = Filters(
    category: Option<string>, subcategory: Option<string>, minPrice: Option<real>, maxPrice: Option<real>,
    fromDate: Option<string>, toDate: Option<string>, city: Option<string>, addressText: Option<string>,
    q: Option<string>, minRate: Option<real>, status: Option<string>, limit: Option<nat>, offset: Option<nat>)

  /** What the database contributes: case folding, reading a timestamp, and full-text search. */
  datatype Env = Env(fold: char -> char, timestamp: string -> int, textMatch: (string, string) -> bool)

  const DEFAULT_PAGE_SIZE: nat := 20

  predicate Given(s: Option<string>) {
    s.Some? && s.value != ""
  }

  // ----- Meaning of conditions -----

  function Compare(env: Env, column: Column, operator: Operator, p: Param, row: Row): Option<bool> {
    match column
    case Category => if operator.Equal? && p.Text? then Some(row.category == p.s) else None
    case Subcategory => if operator.Equal? && p.Text? then Some(row.subcategory == Some(p.s)) else None
    case Status => if operator.Equal? && p.Text? then Some(row.status == p.s) else None
    case Price =>
      if operator.AtLeast? && p.Number? then Some(row.price >= p.x)
      else if operator.AtMost? && p.Number? then Some(row.price <= p.x)
      else None
    case SellerRate => if operator.AtLeast? && p.Number? then Some(row.sellerRate >= p.x) else None
    case CreatedAt =>
      if operator.AtLeast? && p.Text? then Some(row.createdAt >= env.timestamp(p.s))
      else if operator.AtMost? && p.Text? then Some(row.createdAt <= env.timestamp(p.s))
      else None
    case City => if operator.ILike? && p.Text? then Some(Like.MatchesFolded(env.fold, p.s, row.city)) else None
    case AddressText =>
      if operator.ILike? && p.Text? then Some(Like.MatchesFolded(env.fold, p.s, row.addressText)) else None
    case NameAndDescription =>
      if operator.TextSearch? && p.Text? then Some(env.textMatch(row.name + " " + row.description, p.s)) else None
  }

  function Bound(params: seq<Param>, k: nat): Option<Param> {
    if 1 <= k <= |params| then Some(params[k - 1]) else None
  }

  function Eval(env: Env, c: Clause, params: seq<Param>, row: Row): Option<bool> {
    match Bound(params, c.k)
    case Some(p) => Compare(env, c.column, c.operator, p, row)
    case None => None
  }

  function And(a: Option<bool>, b: Option<bool>): Option<bool> {
    if a.Some? && b.Some? then Some(a.value && b.value) else None
  }

  function EvalAll(env: Env, clauses: seq<Clause>, params: seq<Param>, row: Row): Option<bool> {
    if clauses == [] then Some(true)
    else
      var last := |clauses| - 1;
      And(EvalAll(env, clauses[..last], params, row), Eval(env, clauses[last], params, row))
  }

  // ----- Meaning of the filters -----

  ghost predicate ContainsFolded(env: Env, text: string, s: string) {
    Like.Contains(Like.MapChars(env.fold, text), Like.MapChars(env.fold, s))
  }

  /** What a caller means by the filters.  Only the owner's own listing can filter on status. */
  ghost predicate Meant(env: Env, dto: Filters, prefix: string, row: Row) {
    MeantRanges(env, dto, row) && MeantTexts(env, dto, prefix, row)
  }

  ghost predicate MeantRanges(env: Env, dto: Filters, row: Row) {
    && (Given(dto.category) ==> row.category == dto.category.value)
    && (Given(dto.subcategory) && dto.subcategory.value != "all" ==> row.subcategory == dto.subcategory)
    && (dto.minPrice.Some? ==> row.price >= dto.minPrice.value)
    && (dto.maxPrice.Some? ==> row.price <= dto.maxPrice.value)
    && (Given(dto.fromDate) ==> row.createdAt >= env.timestamp(dto.fromDate.value))
    && (Given(dto.toDate) ==> row.createdAt <= env.timestamp(dto.toDate.value))
  }

  ghost predicate MeantTexts(env: Env, dto: Filters, prefix: string, row: Row) {
    && (Given(dto.city) ==> ContainsFolded(env, row.city, dto.city.value))
    && (Given(dto.addressText) ==> ContainsFolded(env, row.addressText, dto.addressText.value))
    && (Given(dto.q) ==> env.textMatch(row.name + " " + row.description, dto.q.value))
    && (dto.minRate.Some? ==> row.sellerRate >= dto.minRate.value)
    && (prefix != "" && Given(dto.status) ==> row.status == dto.status.value)
  }

  // ----- The compiler -----

  /** A filter and whether the caller gave it. */
  datatype Filter = Filter(given: bool, column: Column, operator: Operator, p: Param)

  function Pattern(s: Option<string>): Param {
    Text(Like.ContainsPattern(s.GetOr("")))
  }

  const FILTER_COUNT: nat := 11

  /** The i-th filter the compiler visits. */
  function FilterAt(dto: Filters, prefix: string, i: nat): Filter
    requires i < FILTER_COUNT
  {
    if i == 0 then Filter(Given(dto.category), Category, Equal, Text(dto.category.GetOr("")))
    else if i == 1
    then Filter(Given(dto.subcategory) && dto.subcategory != Some("all"), Subcategory, Equal,
                Text(dto.subcategory.GetOr("")))
    else if i == 2 then Filter(dto.minPrice.Some?, Price, AtLeast, Number(dto.minPrice.GetOr(0.0)))
    else if i == 3 then Filter(dto.maxPrice.Some?, Price, AtMost, Number(dto.maxPrice.GetOr(0.0)))
    else if i == 4 then Filter(Given(dto.fromDate), CreatedAt, AtLeast, Text(dto.fromDate.GetOr("")))
    else if i == 5 then Filter(Given(dto.toDate), CreatedAt, AtMost, Text(dto.toDate.GetOr("")))
    else if i == 6 then Filter(Given(dto.city), City, ILike, Pattern(dto.city))
    else if i == 7 then Filter(Given(dto.addressText), AddressText, ILike, Pattern(dto.addressText))
    else if i == 8 then Filter(Given(dto.q), NameAndDescription, TextSearch, Text(dto.q.GetOr("")))
    else if i == 9 then Filter(dto.minRate.Some?, SellerRate, AtLeast, Number(dto.minRate.GetOr(0.0)))
    else Filter(prefix != "" && Given(dto.status), Status, Equal, Text(dto.status.GetOr("")))
  }

  function FiltersOf(dto: Filters, prefix: string): (filters: seq<Filter>)
    ensures |filters| == FILTER_COUNT && forall i :: 0 <= i < FILTER_COUNT ==> filters[i] == FilterAt(dto, prefix, i)
  {
    seq(FILTER_COUNT, i requires 0 <= i < FILTER_COUNT => FilterAt(dto, prefix, i))
  }

  function Present(filters: seq<Filter>): seq<Filter> {
    if filters == [] then []
    else
      var last := filters[|filters| - 1];
      Present(filters[..|filters| - 1]) + (if last.given then [last] else [])
  }

  function Conditions(present: seq<Filter>, base: nat): seq<Clause> {
    seq(|present|, i requires 0 <= i < |present| => Clause(present[i].column, present[i].operator, base + i + 1))
  }

  function Operands(present: seq<Filter>): seq<Param> {
    seq(|present|, i requires 0 <= i < |present| => present[i].p)
  }

  /** Of the first n filters exactly the given ones are there: the i-th of them has its operand at
      parameter i and its condition refers to placeholder base + i + 1. */
  ghost predicate Compiled(filters: seq<Filter>, n: nat, base: nat, clauses: seq<Clause>, params: seq<Param>)
    requires n <= |filters|
  {
    clauses == Conditions(Present(filters[..n]), base) && params == Operands(Present(filters[..n]))
  }

  /** One guarded `params.push(...); clauses.push(...)` of the compiler. */
  method PushIf(given: bool, clauses: seq<Clause>, params: seq<Param>, base: nat, column: Column, operator: Operator,
                p: Param, ghost filters: seq<Filter>, ghost n: nat)
    returns (clauses': seq<Clause>, params': seq<Param>)
    requires n < |filters| && filters[n] == Filter(given, column, operator, p)
    requires Compiled(filters, n, base, clauses, params)
    ensures Compiled(filters, n + 1, base, clauses', params')
  {
    assert filters[..n + 1][..n] == filters[..n];
    clauses', params' := clauses, params;
    if given {
      params' := params' + [p];
      clauses' := clauses' + [Clause(column, operator, base + |params'|)];
    }
  }

  /** Compiles the filters; the leading parameters of the query come before the ones pushed here. */
  method BuildSearchFilters(dto: Filters, leadingParams: seq<Param>, prefix: string)
    returns (clauses: seq<Clause>, params: seq<Param>)
    ensures Compiled(FiltersOf(dto, prefix), FILTER_COUNT, |leadingParams|, clauses, params)
  {
    clauses, params := [], [];
    var base := |leadingParams|;
    ghost var filters := FiltersOf(dto, prefix);
    clauses, params := PushIf(Given(dto.category), clauses, params, base, Category, Equal, Text(dto.category.GetOr("")),
                              filters, 0);
    clauses, params := PushIf(Given(dto.subcategory) && dto.subcategory != Some("all"), clauses, params, base,
                              Subcategory, Equal, Text(dto.subcategory.GetOr("")), filters, 1);
    clauses, params := PushIf(dto.minPrice.Some?, clauses, params, base, Price, AtLeast,
                              Number(dto.minPrice.GetOr(0.0)), filters, 2);
    clauses, params := PushIf(dto.maxPrice.Some?, clauses, params, base, Price, AtMost, Number(dto.maxPrice.GetOr(0.0)),
                              filters, 3);
    clauses, params := PushIf(Given(dto.fromDate), clauses, params, base, CreatedAt, AtLeast,
                              Text(dto.fromDate.GetOr("")), filters, 4);
    clauses, params := PushIf(Given(dto.toDate), clauses, params, base, CreatedAt, AtMost, Text(dto.toDate.GetOr("")),
                              filters, 5);
    clauses, params := PushIf(Given(dto.city), clauses, params, base, City, ILike, Pattern(dto.city), filters, 6);
    clauses, params := PushIf(Given(dto.addressText), clauses, params, base, AddressText, ILike,
                              Pattern(dto.addressText), filters, 7);
    clauses, params := PushIf(Given(dto.q), clauses, params, base, NameAndDescription, TextSearch,
                              Text(dto.q.GetOr("")), filters, 8);
    clauses, params := PushIf(dto.minRate.Some?, clauses, params, base, SellerRate, AtLeast,
                              Number(dto.minRate.GetOr(0.0)), filters, 9);
    clauses, params := PushIf(prefix != "" && Given(dto.status), clauses, params, base, Status, Equal,
                              Text(dto.status.GetOr("")), filters, 10);
  }

  // ----- Meaning is preserved -----

  ghost predicate Holds(env: Env, f: Filter, row: Row) {
    f.given ==> Compare(env, f.column, f.operator, f.p, row) == Some(true)
  }

  ghost predicate Typed(env: Env, f: Filter, row: Row) {
    f.given ==> Compare(env, f.column, f.operator, f.p, row).Some?
  }

  lemma CompiledLast(filters: seq<Filter>, n: nat, base: nat, clauses: seq<Clause>, params: seq<Param>)
    requires 0 < n <= |filters| && Compiled(filters, n, base, clauses, params)
    ensures |clauses| == |params|
    ensures filters[n - 1].given ==>
      && |params| > 0
      && clauses[|params| - 1] == Clause(filters[n - 1].column, filters[n - 1].operator, base + |params|)
      && params[|params| - 1] == filters[n - 1].p
      && Compiled(filters, n - 1, base, clauses[..|params| - 1], params[..|params| - 1])
    ensures !filters[n - 1].given ==> Compiled(filters, n - 1, base, clauses, params)
  {
    assert filters[..n][..n - 1] == filters[..n - 1];
    if !filters[n - 1].given {
      assert Present(filters[..n]) == Present(filters[..n - 1]);
    }
  }

  lemma CompiledNone(filters: seq<Filter>, base: nat, clauses: seq<Clause>, params: seq<Param>)
    requires Compiled(filters, 0, base, clauses, params)
    ensures clauses == []
  {
  }

  ghost predicate AllHold(env: Env, filters: seq<Filter>, n: nat, row: Row)
    requires n <= |filters|
  {
    forall i :: 0 <= i < n ==> Holds(env, filters[i], row)
  }

  lemma AllHoldNext(env: Env, filters: seq<Filter>, n: nat, row: Row)
    requires n < |filters|
    ensures AllHold(env, filters, n + 1, row) <==> AllHold(env, filters, n, row) && Holds(env, filters[n], row)
  {
  }

  /** Compiled conditions evaluate, inside any larger parameter array, to "every given filter holds". */
  lemma {:induction false} CompiledEval(env: Env, filters: seq<Filter>, n: nat, clauses: seq<Clause>,
                                        params: seq<Param>, leading: seq<Param>, trailing: seq<Param>, row: Row)
    requires n <= |filters| && Compiled(filters, n, |leading|, clauses, params)
    requires forall i :: 0 <= i < n ==> Typed(env, filters[i], row)
    ensures EvalAll(env, clauses, leading + params + trailing, row) == Some(AllHold(env, filters, n, row))
  {
    if n == 0 {
      CompiledNone(filters, |leading|, clauses, params);
    } else {
      CompiledLast(filters, n, |leading|, clauses, params);
      AllHoldNext(env, filters, n - 1, row);
      if filters[n - 1].given {
        var last := |params| - 1;
        CompiledEval(env, filters, n - 1, clauses[..last], params[..last], leading, [params[last]] + trailing, row);
        EvalLast(env, clauses, params, leading, trailing, row);
      } else {
        CompiledEval(env, filters, n - 1, clauses, params, leading, trailing, row);
      }
    }
  }

  lemma EvalLast(env: Env, clauses: seq<Clause>, params: seq<Param>, leading: seq<Param>, trailing: seq<Param>,
                 row: Row)
    requires |clauses| == |params| > 0 && clauses[|clauses| - 1].k == |leading| + |params|
    ensures var last := |clauses| - 1;
            EvalAll(env, clauses, leading + params + trailing, row)
            == And(EvalAll(env, clauses[..last], leading + params[..last] + ([params[last]] + trailing), row),
                   Compare(env, clauses[last].column, clauses[last].operator, params[last], row))
  {
    var last := |clauses| - 1;
    assert leading + params + trailing == leading + params[..last] + ([params[last]] + trailing);
    assert Bound(leading + params + trailing, clauses[last].k) == Some(params[last]);
  }

  lemma RangesMean(env: Env, dto: Filters, prefix: string, row: Row)
    ensures forall i :: 0 <= i < 6 ==> Typed(env, FilterAt(dto, prefix, i), row)
    ensures MeantRanges(env, dto, row) <==> forall i :: 0 <= i < 6 ==> Holds(env, FilterAt(dto, prefix, i), row)
  {
    assert MeantRanges(env, dto, row) ==
      (&& Holds(env, FilterAt(dto, prefix, 0), row) && Holds(env, FilterAt(dto, prefix, 1), row)
       && Holds(env, FilterAt(dto, prefix, 2), row) && Holds(env, FilterAt(dto, prefix, 3), row)
       && Holds(env, FilterAt(dto, prefix, 4), row) && Holds(env, FilterAt(dto, prefix, 5), row));
  }

  lemma ContainsMeans(env: Env, column: Column, s: Option<string>, row: Row)
    requires Like.LawfulFold(env.fold) && (column == City || column == AddressText)
    ensures Compare(env, column, ILike, Pattern(s), row)
         == Some(ContainsFolded(env, if column == City then row.city else row.addressText, s.GetOr("")))
  {
    Like.ContainsPatternFolded(env.fold, s.GetOr(""), if column == City then row.city else row.addressText);
  }

  lemma PlacesMean(env: Env, dto: Filters, prefix: string, row: Row)
    requires Like.LawfulFold(env.fold)
    ensures Typed(env, FilterAt(dto, prefix, 6), row) && Typed(env, FilterAt(dto, prefix, 7), row)
    ensures Holds(env, FilterAt(dto, prefix, 6), row) <==>
            (Given(dto.city) ==> ContainsFolded(env, row.city, dto.city.value))
    ensures Holds(env, FilterAt(dto, prefix, 7), row) <==>
            (Given(dto.addressText) ==> ContainsFolded(env, row.addressText, dto.addressText.value))
  {
    ContainsMeans(env, City, dto.city, row);
    ContainsMeans(env, AddressText, dto.addressText, row);
  }

  lemma RestMeans(env: Env, dto: Filters, prefix: string, row: Row)
    ensures forall i :: 8 <= i < FILTER_COUNT ==> Typed(env, FilterAt(dto, prefix, i), row)
    ensures Holds(env, FilterAt(dto, prefix, 8), row) <==>
            (Given(dto.q) ==> env.textMatch(row.name + " " + row.description, dto.q.value))
    ensures Holds(env, FilterAt(dto, prefix, 9), row) <==> (dto.minRate.Some? ==> row.sellerRate >= dto.minRate.value)
    ensures Holds(env, FilterAt(dto, prefix, 10), row) <==>
            (prefix != "" && Given(dto.status) ==> row.status == dto.status.value)
  {
  }

  lemma TextsMean(env: Env, dto: Filters, prefix: string, row: Row)
    requires Like.LawfulFold(env.fold)
    ensures forall i :: 6 <= i < FILTER_COUNT ==> Typed(env, FilterAt(dto, prefix, i), row)
    ensures MeantTexts(env, dto, prefix, row) <==>
            forall i :: 6 <= i < FILTER_COUNT ==> Holds(env, FilterAt(dto, prefix, i), row)
  {
    PlacesMean(env, dto, prefix, row);
    RestMeans(env, dto, prefix, row);
  }

  /** The filters, each read on its own, say what the caller meant. */
  lemma FiltersMean(env: Env, dto: Filters, prefix: string, row: Row)
    requires Like.LawfulFold(env.fold)
    ensures forall i :: 0 <= i < FILTER_COUNT ==> Typed(env, FilterAt(dto, prefix, i), row)
    ensures Meant(env, dto, prefix, row) <==>
            forall i :: 0 <= i < FILTER_COUNT ==> Holds(env, FilterAt(dto, prefix, i), row)
  {
    RangesMean(env, dto, prefix, row);
    TextsMean(env, dto, prefix, row);
  }

  /** Evaluating the compiled clauses against the full parameter array is the direct filter predicate. */
  lemma CompiledMeans(env: Env, dto: Filters, prefix: string, clauses: seq<Clause>, params: seq<Param>,
                      leading: seq<Param>, trailing: seq<Param>, row: Row)
    requires Like.LawfulFold(env.fold)
    requires Compiled(FiltersOf(dto, prefix), FILTER_COUNT, |leading|, clauses, params)
    ensures EvalAll(env, clauses, leading + params + trailing, row) == Some(Meant(env, dto, prefix, row))
  {
    FiltersMean(env, dto, prefix, row);
    CompiledEval(env, FiltersOf(dto, prefix), FILTER_COUNT, clauses, params, leading, trailing, row);
  }

  // ----- The two callers -----

  datatype Query = Query(ownerIdx: Option<nat>, clauses: seq<Clause>, params: seq<Param>,
                         limitIdx: nat, offsetIdx: nat, viewerIdx: Option<nat>)

  datatype Outcome = Rejected(reason: string) | Accepted(query: Query)

  predicate SearchPairInvalid(category: Option<string>, subcategory: Option<string>) {
    Given(category) && Given(subcategory) && !Taxonomy.IsValidSubcategory(category.value, subcategory.value)
  }

  method AssertSearchCategoryPair(category: Option<string>, subcategory: Option<string>) returns (error: Option<string>)
    ensures error.Some? <==> SearchPairInvalid(category, subcategory)
  {
    if !Given(category) || !Given(subcategory) { return None; }
    if !Taxonomy.IsValidCategory(category.value) { return Some("Invalid category"); }
    if !Taxonomy.IsValidSubcategory(category.value, subcategory.value) {
      return Some("Invalid subcategory for category");
    }
    return None;
  }

  /** `owner_id = $k`, an optional BIGINT compared with a column. */
  function EvalOwner(query: Query, row: Row): Option<bool> {
    match query.ownerIdx
    case None => Some(row.status == "available")
    case Some(k) => match Bound(query.params, k) {
      case Some(Integer(n)) => Some(row.ownerId == n)
      case _ => None
    }
  }

  /** `$v IS NULL OR (owner_id <> $v AND NOT EXISTS (a block either way))`. */
  function EvalViewer(query: Query, blocks: set<(int, int)>, row: Row): Option<bool> {
    match query.viewerIdx
    case None => Some(true)
    case Some(k) => match Bound(query.params, k) {
      case Some(NullParam) => Some(true)
      case Some(Integer(v)) => Some(row.ownerId != v && (v, row.ownerId) !in blocks && (row.ownerId, v) !in blocks)
      case _ => None
    }
  }

  /** The WHERE clause of the whole query. */
  function Selects(env: Env, query: Query, blocks: set<(int, int)>, row: Row): Option<bool> {
    And(EvalOwner(query, row), And(EvalAll(env, query.clauses, query.params, row), EvalViewer(query, blocks, row)))
  }

  /** The is_favorite column: NULL without a viewer. */
  function IsFavorite(query: Query, favorites: set<(int, int)>, row: Row): Option<Option<bool>>
    requires query.viewerIdx.Some?
  {
    match Bound(query.params, query.viewerIdx.value)
    case Some(NullParam) => Some(None)
    case Some(Integer(v)) => Some(Some((v, row.id) in favorites))
    case _ => None
  }

  ghost predicate PageBound(query: Query, dto: Filters) {
    && 1 <= query.limitIdx <= |query.params| && 1 <= query.offsetIdx <= |query.params|
    && query.params[query.limitIdx - 1] == Integer(if dto.limit.Some? then dto.limit.value else 20)
    && query.params[query.offsetIdx - 1] == Integer(if dto.offset.Some? then dto.offset.value else 0)
  }

  ghost predicate IsUsed(query: Query, k: nat) {
    || query.ownerIdx == Some(k) || query.viewerIdx == Some(k) || k == query.limitIdx || k == query.offsetIdx
    || exists i :: 0 <= i < |query.clauses| && query.clauses[i].k == k
  }

  /** Every placeholder of the query is in range, and every parameter is used by exactly one index. */
  ghost predicate IndicesExact(query: Query) {
    && |query.params| == |query.clauses| + 2 + (if query.ownerIdx.Some? then 1 else 0)
                         + (if query.viewerIdx.Some? then 1 else 0)
    && (forall k :: 1 <= k <= |query.params| ==> IsUsed(query, k))
  }

  method ListMyProducts(ghost env: Env, user: int, dto: Filters) returns (r: Outcome)
    requires Like.LawfulFold(env.fold)
    ensures r.Rejected? <==> SearchPairInvalid(dto.category, dto.subcategory)
    ensures r.Accepted? ==> PageBound(r.query, dto) && IndicesExact(r.query)
    ensures r.Accepted? ==> forall blocks, row ::
              Selects(env, r.query, blocks, row) == Some(row.ownerId == user && Meant(env, dto, "plv.", row))
  {
    var error := AssertSearchCategoryPair(dto.category, dto.subcategory);
    if error.Some? { return Rejected(error.value); }
    var leadingParams := [Integer(user)];
    var clauses, params := BuildSearchFilters(dto, leadingParams, "plv.");
    var page := [Integer(dto.limit.GetOr(DEFAULT_PAGE_SIZE)), Integer(dto.offset.GetOr(0))];
    var limitIdx := |leadingParams| + |params| + 1;
    var offsetIdx := |leadingParams| + |params| + 2;
    var query := Query(Some(1), clauses, leadingParams + params + page, limitIdx, offsetIdx, None);
    forall row {
      CompiledMeans(env, dto, "plv.", clauses, params, leadingParams, page, row);
    }
    IndicesCovered(query, FiltersOf(dto, "plv."), params, 1);
    return Accepted(query);
  }

  method SearchProducts(ghost env: Env, viewerUserId: Option<int>, dto: Filters) returns (r: Outcome)
    requires Like.LawfulFold(env.fold)
    ensures r.Rejected? <==> SearchPairInvalid(dto.category, dto.subcategory)
    ensures r.Accepted? ==> PageBound(r.query, dto) && IndicesExact(r.query)
    ensures r.Accepted? ==> forall blocks, row ::
              Selects(env, r.query, blocks, row) == Some(
                && row.status == "available"
                && Meant(env, dto, "", row)
                && (viewerUserId.Some? ==>
                      && row.ownerId != viewerUserId.value
                      && (viewerUserId.value, row.ownerId) !in blocks && (row.ownerId, viewerUserId.value) !in blocks))
    ensures r.Accepted? ==> r.query.viewerIdx.Some? && forall favorites, row ::
              IsFavorite(r.query, favorites, row)
              == Some(if viewerUserId.Some? then Some((viewerUserId.value, row.id) in favorites) else None)
  {
    var error := AssertSearchCategoryPair(dto.category, dto.subcategory);
    if error.Some? { return Rejected(error.value); }
    var leadingParams: seq<Param> := [];
    var clauses, params := BuildSearchFilters(dto, leadingParams, "");
    var page := [Integer(dto.limit.GetOr(DEFAULT_PAGE_SIZE)), Integer(dto.offset.GetOr(0))];
    var viewer := [if viewerUserId.Some? then Integer(viewerUserId.value) else NullParam];
    var query := Query(None, clauses, params + page + viewer, |params| + 1, |params| + 2, Some(|params| + 3));
    assert query.params == leadingParams + params + (page + viewer);
    forall row {
      CompiledMeans(env, dto, "", clauses, params, leadingParams, page + viewer, row);
    }
    IndicesCovered(query, FiltersOf(dto, ""), params, 0);
    return Accepted(query);
  }

  /** A text filter counts as given unless it is absent or empty, and a pair is refused only if both of its halves are
      given and the category does not have the subcategory; "all" is one that every category has. */
  lemma GivenPairs(category: Option<string>, subcategory: Option<string>)
    ensures Given(category) <==> category != None && category != Some("")
    ensures SearchPairInvalid(category, subcategory) <==>
              && category != None && category != Some("") && subcategory != None && subcategory != Some("")
              && (category.value in Taxonomy.CATEGORY_TO_SUBCATEGORIES ==>
                    subcategory.value !in Taxonomy.CATEGORY_TO_SUBCATEGORIES[category.value])
    ensures category.Some? && category.value in Taxonomy.CATEGORY_TO_SUBCATEGORIES ==>
              !SearchPairInvalid(category, Some("all"))
  {
    if category.Some? && category.value in Taxonomy.CATEGORY_TO_SUBCATEGORIES {
      Taxonomy.AllIsListed(category.value);
    }
  }

  lemma IndicesCovered(query: Query, filters: seq<Filter>, params: seq<Param>, base: nat)
    requires |filters| == FILTER_COUNT && Compiled(filters, FILTER_COUNT, base, query.clauses, params)
    requires query.limitIdx == base + |params| + 1 && query.offsetIdx == base + |params| + 2
    requires query.ownerIdx == (if base == 1 then Some(1) else None) && base <= 1
    requires query.viewerIdx == (if base == 0 then Some(|params| + 3) else None)
    requires |query.params| == |params| + 3
    ensures IndicesExact(query)
  {
    forall k: nat | 1 <= k <= |query.params| ensures IsUsed(query, k) {
      if base < k <= base + |params| {
        assert query.clauses[k - base - 1].k == k;
      }
    }
  }

  // ----- The admin's user list: the same scheme with one condition that uses two parameters -----

  datatype UserRow = UserRow(name: string, phone: string, status: string, deleted: bool)

  datatype UserClause = StatusIs(k: nat) | NameOrPhone(i: nat, j: nat) | NotDeleted

  function EvalUser(env: Env, c: UserClause, params: seq<Param>, row: UserRow): Option<bool> {
    match c
    case NotDeleted => Some(!row.deleted)
    case StatusIs(k) =>
      var p := Bound(params, k);
      if p.Some? && p.value.Text? then Some(row.status == p.value.s) else None
    case NameOrPhone(i, j) =>
      var name, phone := Bound(params, i), Bound(params, j);
      if name.Some? && name.value.Text? && phone.Some? && phone.value.Text? then
        Some(Like.MatchesFolded(env.fold, name.value.s, row.name)
             || Like.MatchesFolded(env.fold, phone.value.s, row.phone))
      else None
  }

  function EvalUserAll(env: Env, clauses: seq<UserClause>, params: seq<Param>, row: UserRow): Option<bool> {
    if clauses == [] then Some(true)
    else
      var last := |clauses| - 1;
      And(EvalUserAll(env, clauses[..last], params, row), EvalUser(env, clauses[last], params, row))
  }

  lemma EvalUserPush(env: Env, clauses: seq<UserClause>, c: UserClause, params: seq<Param>, row: UserRow)
    ensures EvalUserAll(env, clauses + [c], params, row)
         == And(EvalUserAll(env, clauses, params, row), EvalUser(env, c, params, row))
  {
    var more := clauses + [c];
    assert more[..|more| - 1] == clauses;
  }

  ghost predicate UserMeant(env: Env, status: Option<string>, q: Option<string>, row: UserRow) {
    && (Given(status) ==> row.status == status.value)
    && (Given(q) ==> ContainsFolded(env, row.name, q.value) || ContainsFolded(env, row.phone, q.value))
    && !row.deleted
  }

  lemma NameOrPhoneMeans(env: Env, params: seq<Param>, i: nat, j: nat, q: string, row: UserRow)
    requires Like.LawfulFold(env.fold)
    requires Bound(params, i) == Some(Text(Like.ContainsPattern(q))) == Bound(params, j)
    ensures EvalUser(env, NameOrPhone(i, j), params, row)
         == Some(ContainsFolded(env, row.name, q) || ContainsFolded(env, row.phone, q))
  {
    Like.ContainsPatternFolded(env.fold, q, row.name);
    Like.ContainsPatternFolded(env.fold, q, row.phone);
  }

  function UserClauses(status: Option<string>, q: Option<string>): seq<UserClause> {
    var n := if Given(status) then 1 else 0;
    (if Given(status) then [StatusIs(1)] else [])
    + (if Given(q) then [NameOrPhone(n + 1, n + 2)] else [])
    + [NotDeleted]
  }

  function UserParams(status: Option<string>, q: Option<string>, limit: Option<nat>, offset: Option<nat>): seq<Param> {
    (if Given(status) then [Text(status.value)] else [])
    + (if Given(q) then [Text(Like.ContainsPattern(q.value)), Text(Like.ContainsPattern(q.value))] else [])
    + [Integer(limit.GetOr(50)), Integer(offset.GetOr(0))]
  }

  /** The user list selects the undeleted users with the status whose name or phone contains the term. */
  lemma UserClausesMean(env: Env, status: Option<string>, q: Option<string>, limit: Option<nat>, offset: Option<nat>,
                        row: UserRow)
    requires Like.LawfulFold(env.fold)
    ensures EvalUserAll(env, UserClauses(status, q), UserParams(status, q, limit, offset), row)
            == Some(UserMeant(env, status, q, row))
  {
    BoundUserClausesMean(env, status, q, UserParams(status, q, limit, offset), row);
  }

  lemma BoundUserClausesMean(env: Env, status: Option<string>, q: Option<string>, params: seq<Param>, row: UserRow)
    requires Like.LawfulFold(env.fold)
    requires Given(status) ==> Bound(params, 1) == Some(Text(status.value))
    requires Given(q) ==> var n := if Given(status) then 1 else 0;
      Bound(params, n + 1) == Some(Text(Like.ContainsPattern(q.value))) == Bound(params, n + 2)
    ensures EvalUserAll(env, UserClauses(status, q), params, row) == Some(UserMeant(env, status, q, row))
  {
    var n := if Given(status) then 1 else 0;
    var first := if Given(status) then [StatusIs(1)] else [];
    StatusMeans(env, status, params, row);
    TermMeans(env, q, first, n, params, row);
    EvalUserPush(env, first + (if Given(q) then [NameOrPhone(n + 1, n + 2)] else []), NotDeleted, params, row);
  }

  lemma TermMeans(env: Env, q: Option<string>, first: seq<UserClause>, n: nat, params: seq<Param>, row: UserRow)
    requires Like.LawfulFold(env.fold)
    requires Given(q) ==> Bound(params, n + 1) == Some(Text(Like.ContainsPattern(q.value))) == Bound(params, n + 2)
    requires EvalUserAll(env, first, params, row).Some?
    ensures EvalUserAll(env, first + (if Given(q) then [NameOrPhone(n + 1, n + 2)] else []), params, row)
         == Some(EvalUserAll(env, first, params, row).value
                 && (Given(q) ==> ContainsFolded(env, row.name, q.value) || ContainsFolded(env, row.phone, q.value)))
  {
    if Given(q) {
      EvalUserPush(env, first, NameOrPhone(n + 1, n + 2), params, row);
      NameOrPhoneMeans(env, params, n + 1, n + 2, q.value, row);
    } else {
      assert first + [] == first;
    }
  }

  lemma StatusMeans(env: Env, status: Option<string>, params: seq<Param>, row: UserRow)
    requires Given(status) ==> Bound(params, 1) == Some(Text(status.value))
    ensures EvalUserAll(env, if Given(status) then [StatusIs(1)] else [], params, row)
         == Some(Given(status) ==> row.status == status.value)
  {
    EvalUserPush(env, [], StatusIs(1), params, row);
    assert [] + [StatusIs(1)] == [StatusIs(1)];
  }

  method ListUsers(status: Option<string>, q: Option<string>, limit: Option<nat>, offset: Option<nat>)
    returns (clauses: seq<UserClause>, params: seq<Param>, limitIdx: nat, offsetIdx: nat)
    ensures clauses == UserClauses(status, q) && params == UserParams(status, q, limit, offset)
    ensures Bound(params, limitIdx) == Some(Integer(limit.GetOr(50)))
            && Bound(params, offsetIdx) == Some(Integer(offset.GetOr(0)))
  {
    params, clauses := [], [];
    if Given(status) {
      params := params + [Text(status.value)];
      clauses := clauses + [StatusIs(|params|)];
    }
    if Given(q) {
      var escaped := Like.ContainsPattern(q.value);
      params := params + [Text(escaped), Text(escaped)];
      clauses := clauses + [NameOrPhone(|params| - 1, |params|)];
    }
    params := params + [Integer(limit.GetOr(50)), Integer(offset.GetOr(0))];
    clauses := clauses + [NotDeleted];
    limitIdx, offsetIdx := |params| - 1, |params|;
  }
}
