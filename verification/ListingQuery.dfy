/**
 Building the listing and search queries (internal/catalog/repository.go:378-515,
 541-615) on the clauses and arguments of QueryBuilder.
 */
module ListingQuery {
  import opened Options
  import opened Slugs
  import opened QueryBuilder

  // ---- the WHERE clauses ----

  function FilterParts(f: ProductFilter, slugs: seq<string>): seq<Part>
    requires forall i :: 0 <= i < |slugs| ==> slugs[i] in f.attrs
  {
    ColumnParts(f) + FlagParts(f) + AttrParts(f.attrs, slugs)
  }

  lemma {:induction false} WhenMeans(c: bool, p: Part, row: Row)
    ensures AllHold(When(c, p), row) <==> (c ==> Holds(p.test, p.values, row))
  {
    if c { assert When(c, p)[0] == p; }
  }

  lemma {:induction false} IfNumMeans(test: Test, v: Option<int>, row: Row)
    ensures AllHold(IfNum(test, v), row) <==> (v.Some? ==> Holds(test, [Num(v.value)], row))
  {
    if v.Some? { assert IfNum(test, v)[0] == Part(test, [Num(v.value)]); }
  }

  lemma {:induction false} ColumnPartsMean(f: ProductFilter, row: Row)
    ensures AllHold(ColumnParts(f), row) <==>
      && (f.category.Some? ==> row.category == f.category.value)
      && (f.minPrice.Some? ==> f.minPrice.value <= row.price)
      && (f.maxPrice.Some? ==> row.price <= f.maxPrice.value)
      && (|f.brands| > 0 ==> row.brand in f.brands)
      && (f.minRating.Some? ==> row.ratingTenths.Some? && 10 * f.minRating.value <= row.ratingTenths.value)
  {
    var a, b, c := IfNum(CategoryIs, f.category), IfNum(PriceAtLeast, f.minPrice), IfNum(PriceAtMost, f.maxPrice);
    var d, e := When(|f.brands| > 0, Part(BrandAny, [Texts(f.brands)])), IfNum(RatingAtLeast, f.minRating);
    AllHoldAppend(a, b, row);
    AllHoldAppend(a + b, c, row);
    AllHoldAppend(a + b + c, d, row);
    AllHoldAppend(a + b + c + d, e, row);
    IfNumMeans(CategoryIs, f.category, row);
    IfNumMeans(PriceAtLeast, f.minPrice, row);
    IfNumMeans(PriceAtMost, f.maxPrice, row);
    WhenMeans(|f.brands| > 0, Part(BrandAny, [Texts(f.brands)]), row);
    IfNumMeans(RatingAtLeast, f.minRating, row);
  }

  lemma {:induction false} FlagPartsMean(f: ProductFilter, row: Row)
    ensures AllHold(FlagParts(f), row) <==>
      && (f.freeShipping == Some(true) ==> row.freeShipping)
      && (f.inStock == Some(true) ==> row.stocked)
      && (f.priceDropped == Some(true) ==> row.dropped)
  {
    var a := When(f.freeShipping == Some(true), Part(FreeShippingTrue, []));
    var b := When(f.inStock == Some(true), Part(InStockExists, []));
    var c := When(f.priceDropped == Some(true), Part(PriceDropExists, []));
    AllHoldAppend(a, b, row);
    AllHoldAppend(a + b, c, row);
    WhenMeans(f.freeShipping == Some(true), Part(FreeShippingTrue, []), row);
    WhenMeans(f.inStock == Some(true), Part(InStockExists, []), row);
    WhenMeans(f.priceDropped == Some(true), Part(PriceDropExists, []), row);
  }

  /** The appended conditions accept exactly the rows the filter describes. */
  lemma {:induction false} FilterPartsMean(f: ProductFilter, order: seq<string>, row: Row)
    requires Enumerates(order, f.attrs.Keys)
    ensures forall i :: 0 <= i < |Sorted(order)| ==> Sorted(order)[i] in f.attrs
    ensures AllHold(FilterParts(f, Sorted(order)), row) <==> Matches(f, row)
  {
    var slugs := Sorted(order);
    forall x ensures x in slugs <==> x in f.attrs { SortedHasKeys(order, f.attrs.Keys, x); }
    ColumnPartsMean(f, row);
    FlagPartsMean(f, row);
    AttrPartsMean(f.attrs, slugs, row);
    AllHoldAppend(ColumnParts(f), FlagParts(f), row);
    AllHoldAppend(ColumnParts(f) + FlagParts(f), AttrParts(f.attrs, slugs), row);
    if forall i :: 0 <= i < |slugs| ==> MatchesAttr(f.attrs, slugs[i], row) {
      forall slug | slug in f.attrs ensures MatchesAttr(f.attrs, slug, row) { assert slug in slugs; }
    }
  }

  lemma {:induction false} SortedAreKeys(order: seq<string>, keys: set<string>)
    requires Enumerates(order, keys)
    ensures forall i :: 0 <= i < |Sorted(order)| ==> Sorted(order)[i] in keys
  {
    forall i | 0 <= i < |Sorted(order)| ensures Sorted(order)[i] in keys {
      SortedHasKeys(order, keys, Sorted(order)[i]);
    }
  }

  // ---- ORDER BY ----

  /** Every order breaks ties by p.id, descending. */
  datatype OrderBy =
    | ArrayPosition(param: nat)
    | Newest | PriceAsc | PriceDesc | CashbackDesc
    | ById
    | Relevance(param: nat)

  function ExplicitOrderBy(sort: string): Option<OrderBy> {
    if sort == "newest" then Some(Newest)
    else if sort == "price_asc" then Some(PriceAsc)
    else if sort == "price_desc" then Some(PriceDesc)
    else if sort == "cashback_desc" then Some(CashbackDesc)
    else None
  }

  /** What the query's text search and category tree say about rows. */
  datatype Catalog = Catalog(inSubtree: (int, int) -> bool, textHit: (string, Row) -> bool, rank: (string, Row) -> int)

  /** array_position with NULLS LAST: the first position, or past the end. */
  function Position(ids: seq<int>, id: int): (k: nat)
    ensures k <= |ids|
    ensures k < |ids| ==> ids[k] == id
    ensures forall i :: 0 <= i < k ==> ids[i] != id
  {
    if |ids| == 0 || ids[0] == id then 0 else Position(ids[1..], id) + 1
  }

  /** Rows come in ascending order of this key, then of descending id. */
  function SortKey(c: Catalog, order: OrderBy, args: seq<Value>, row: Row): Option<int> {
    match order
    case ArrayPosition(p) =>
      if 1 <= p <= |args| && args[p - 1].Nums? then Some(Position(args[p - 1].ns, row.id)) else None
    case Newest => Some(-row.createdAt)
    case PriceAsc => Some(row.price)
    case PriceDesc => Some(-row.price)
    case CashbackDesc => Some(-(row.price * row.commissionBps))
    case ById => Some(0)
    case Relevance(p) =>
      if 1 <= p <= |args| && args[p - 1].Text? then Some(-c.rank(args[p - 1].t, row)) else None
  }

  /** What the caller asked for: popularity first, then the sort token, then relevance for a search. */
  function WantedKey(c: Catalog, f: ProductFilter, search: Option<string>, row: Row): int {
    if |f.popularIds| > 0 then Position(f.popularIds, row.id)
    else if f.sort == "newest" then -row.createdAt
    else if f.sort == "price_asc" then row.price
    else if f.sort == "price_desc" then -row.price
    else if f.sort == "cashback_desc" then -(row.price * row.commissionBps)
    else if search.Some? then -c.rank(search.value, row)
    else 0
  }

  /** Which of two rows comes first under each order, ties aside. */
  lemma {:induction false} WantedKeyOrders(c: Catalog, f: ProductFilter, search: Option<string>, a: Row, b: Row)
    ensures var before := WantedKey(c, f, search, a) < WantedKey(c, f, search, b);
      && (|f.popularIds| > 0 ==> (before <==> Position(f.popularIds, a.id) < Position(f.popularIds, b.id)))
      && (|f.popularIds| == 0 ==>
            && (f.sort == "newest" ==> (before <==> a.createdAt > b.createdAt))
            && (f.sort == "price_asc" ==> (before <==> a.price < b.price))
            && (f.sort == "price_desc" ==> (before <==> a.price > b.price))
            && (f.sort == "cashback_desc" ==> (before <==> a.price * a.commissionBps > b.price * b.commissionBps))
            && (f.sort !in ["newest", "price_asc", "price_desc", "cashback_desc"] ==>
                  if search.Some? then before <==> c.rank(search.value, a) > c.rank(search.value, b) else !before))
  { }

  // ---- the builder ----

  /** The state of a build that started from `c0`, `a0` and has appended `parts`. */
  predicate Built(clauses: seq<Clause>, args: seq<Value>, argN: nat, c0: seq<Clause>, a0: seq<Value>,
                  parts: seq<Part>) {
    && clauses == c0 + LaidClauses(parts, |a0| + 1)
    && args == a0 + LaidArgs(parts)
    && argN == |args| + 1
  }

  lemma {:induction false} BuiltMore(clauses: seq<Clause>, args: seq<Value>, argN: nat, c0: seq<Clause>,
                                     a0: seq<Value>, parts: seq<Part>, p: Part)
    requires Built(clauses, args, argN, c0, a0, parts)
    ensures Built(clauses + [Clause(p.test, Numbers(argN, |p.values|))], args + p.values, argN + |p.values|, c0, a0,
                  parts + [p])
  { }

  lemma {:induction false} Regroup(a: seq<Part>, b: seq<Part>, c: seq<Part>, d: seq<Part>)
    ensures a + b + c + d == a + (b + c + d)
  { }

  lemma {:induction false} NumbersSmall(n: nat)
    ensures Numbers(n, 0) == [] && Numbers(n, 1) == [n] && Numbers(n, 2) == [n, n + 1]
  { }

  class SqlBuilder {
    var clauses: seq<Clause>

    constructor ()
      ensures clauses == []
    {
      clauses := [];
    }

    /** One condition with its placeholders from `argN`, then its values. */
    method Bind(args: seq<Value>, argN: nat, test: Test, values: seq<Value>,
                ghost c0: seq<Clause>, ghost a0: seq<Value>, ghost parts: seq<Part>)
      returns (args': seq<Value>, argN': nat)
      requires |values| <= 2 && Built(clauses, args, argN, c0, a0, parts)
      modifies this
      ensures Built(clauses, args', argN', c0, a0, parts + [Part(test, values)])
    {
      BuiltMore(clauses, args, argN, c0, a0, parts, Part(test, values));
      NumbersSmall(argN);
      var params := if |values| == 0 then [] else if |values| == 1 then [argN] else [argN, argN + 1];
      clauses := clauses + [Clause(test, params)];
      args' := args + values;
      argN' := argN + |values|;
    }

    /** A pointer filter: bound when it is not nil. */
    method BindNum(args0: seq<Value>, argN0: nat, test: Test, v: Option<int>,
                   ghost c0: seq<Clause>, ghost a0: seq<Value>, ghost parts: seq<Part>)
      returns (args: seq<Value>, argN: nat)
      requires Built(clauses, args0, argN0, c0, a0, parts)
      modifies this
      ensures Built(clauses, args, argN, c0, a0, parts + IfNum(test, v))
    {
      args, argN := args0, argN0;
      if v.Some? { args, argN := Bind(args0, argN0, test, [Num(v.value)], c0, a0, parts); }
      else { assert parts + IfNum(test, v) == parts; }
    }

    method BindWhen(args0: seq<Value>, argN0: nat, c: bool, test: Test, values: seq<Value>,
                    ghost c0: seq<Clause>, ghost a0: seq<Value>, ghost parts: seq<Part>)
      returns (args: seq<Value>, argN: nat)
      requires |values| <= 2 && Built(clauses, args0, argN0, c0, a0, parts)
      modifies this
      ensures Built(clauses, args, argN, c0, a0, parts + When(c, Part(test, values)))
    {
      args, argN := args0, argN0;
      if c { args, argN := Bind(args0, argN0, test, values, c0, a0, parts); }
      else { assert parts + When(c, Part(test, values)) == parts; }
    }

    /** `order` is the order in which a range over the attribute map yields its slugs. */
    method AppendProductFilters(args0: seq<Value>, f: ProductFilter, order: seq<string>, argN0: nat)
      returns (args: seq<Value>, argN: nat)
      requires argN0 == |args0| + 1 && Enumerates(order, f.attrs.Keys)
      modifies this
      ensures forall i :: 0 <= i < |Sorted(order)| ==> Sorted(order)[i] in f.attrs
      ensures Built(clauses, args, argN, old(clauses), args0, FilterParts(f, Sorted(order)))
    {
      ghost var c0 := clauses;
      assert Built(clauses, args0, argN0, c0, args0, []);
      ghost var p1 := [] + IfNum(CategoryIs, f.category);
      ghost var p2 := p1 + IfNum(PriceAtLeast, f.minPrice);
      ghost var p3 := p2 + IfNum(PriceAtMost, f.maxPrice);
      ghost var p4 := p3 + When(|f.brands| > 0, Part(BrandAny, [Texts(f.brands)]));
      args, argN := BindNum(args0, argN0, CategoryIs, f.category, c0, args0, []);
      args, argN := BindNum(args, argN, PriceAtLeast, f.minPrice, c0, args0, p1);
      args, argN := BindNum(args, argN, PriceAtMost, f.maxPrice, c0, args0, p2);
      args, argN := BindWhen(args, argN, |f.brands| > 0, BrandAny, [Texts(f.brands)], c0, args0, p3);
      args, argN := BindNum(args, argN, RatingAtLeast, f.minRating, c0, args0, p4);
      assert p4 + IfNum(RatingAtLeast, f.minRating) == ColumnParts(f);
      args, argN := AppendFlags(args, f, argN, c0, args0, ColumnParts(f));
      args, argN := AppendAttrFilters(args, f.attrs, order, argN, c0, args0, ColumnParts(f) + FlagParts(f));
    }

    method AppendFlags(args0: seq<Value>, f: ProductFilter, argN0: nat,
                       ghost c0: seq<Clause>, ghost a0: seq<Value>, ghost parts: seq<Part>)
      returns (args: seq<Value>, argN: nat)
      requires Built(clauses, args0, argN0, c0, a0, parts)
      modifies this
      ensures Built(clauses, args, argN, c0, a0, parts + FlagParts(f))
    {
      ghost var p1 := parts + When(f.freeShipping == Some(true), Part(FreeShippingTrue, []));
      ghost var p2 := p1 + When(f.inStock == Some(true), Part(InStockExists, []));
      args, argN := BindWhen(args0, argN0, f.freeShipping == Some(true), FreeShippingTrue, [], c0, a0, parts);
      args, argN := BindWhen(args, argN, f.inStock == Some(true), InStockExists, [], c0, a0, p1);
      args, argN := BindWhen(args, argN, f.priceDropped == Some(true), PriceDropExists, [], c0, a0, p2);
      Regroup(parts, When(f.freeShipping == Some(true), Part(FreeShippingTrue, [])),
              When(f.inStock == Some(true), Part(InStockExists, [])),
              When(f.priceDropped == Some(true), Part(PriceDropExists, [])));
    }

    method AppendAttrFilters(args0: seq<Value>, attrs: map<string, seq<string>>, order: seq<string>, argN0: nat,
                             ghost c0: seq<Clause>, ghost a0: seq<Value>, ghost parts: seq<Part>)
      returns (args: seq<Value>, argN: nat)
      requires Enumerates(order, attrs.Keys) && Built(clauses, args0, argN0, c0, a0, parts)
      modifies this
      ensures forall i :: 0 <= i < |Sorted(order)| ==> Sorted(order)[i] in attrs
      ensures Built(clauses, args, argN, c0, a0, parts + AttrParts(attrs, Sorted(order)))
    {
      SortedAreKeys(order, attrs.Keys);
      args, argN := args0, argN0;
      var slugs := Sorted(order);
      var k := 0;
      assert parts + AttrParts(attrs, slugs[..0]) == parts;
      while k < |slugs|
        invariant 0 <= k <= |slugs|
        invariant Built(clauses, args, argN, c0, a0, parts + AttrParts(attrs, slugs[..k]))
      {
        var vals := attrs[slugs[k]];
        args, argN := BindWhen(args, argN, |vals| > 0, AttrExists, [Text(slugs[k]), Texts(vals)], c0, a0,
                               parts + AttrParts(attrs, slugs[..k]));
        AttrPartsNext(attrs, slugs, k, parts);
        k := k + 1;
      }
      assert slugs[..k] == slugs;
    }
  }

  lemma {:induction false} AttrPartsNext(attrs: map<string, seq<string>>, slugs: seq<string>, k: nat, parts: seq<Part>)
    requires (forall i :: 0 <= i < |slugs| ==> slugs[i] in attrs) && k < |slugs|
    ensures parts + AttrParts(attrs, slugs[..k + 1]) == parts + AttrParts(attrs, slugs[..k]) + AttrPart(attrs, slugs[k])
  {
    assert slugs[..k + 1][..k] == slugs[..k];
  }

  /** The order and its argument, when the next free placeholder is `n` and the default is `fallback`. */
  function OrderOf(f: ProductFilter, n: nat, fallback: OrderBy): (OrderBy, seq<Value>) {
    if |f.popularIds| > 0 then (ArrayPosition(n), [Nums(f.popularIds)])
    else if ExplicitOrderBy(f.sort).Some? then (ExplicitOrderBy(f.sort).value, [])
    else (fallback, [])
  }

  /** The order a listing gets is the one asked for, whatever is appended later. */
  lemma {:induction false} OrderMeans(c: Catalog, f: ProductFilter, args: seq<Value>, later: seq<Value>, row: Row)
    ensures var (order, bound) := OrderOf(f, |args| + 1, ById);
      SortKey(c, order, args + bound + later, row) == Some(WantedKey(c, f, None, row))
  { }

  /** Likewise for a search; relevance reuses $1, which is still the query text. */
  lemma {:induction false} SearchOrderMeans(c: Catalog, f: ProductFilter, text: string, args: seq<Value>,
                                            later: seq<Value>, row: Row)
    requires |args| > 0 && args[0] == Text(text)
    ensures var (order, bound) := OrderOf(f, |args| + 1, Relevance(1));
      SortKey(c, order, args + bound + later, row) == Some(WantedKey(c, f, Some(text), row))
  { }

  method AppendOrderBy(args: seq<Value>, f: ProductFilter, argN: nat)
    returns (order: OrderBy, args': seq<Value>, argN': nat)
    requires argN == |args| + 1
    ensures order == OrderOf(f, argN, ById).0 && args' == args + OrderOf(f, argN, ById).1
    ensures argN' == |args'| + 1
  {
    if |f.popularIds| > 0 { return ArrayPosition(argN), args + [Nums(f.popularIds)], argN + 1; }
    var token := ExplicitOrderBy(f.sort);
    assert args + [] == args;
    return if token.Some? then token.value else ById, args, argN;
  }

  method AppendSearchOrderBy(args: seq<Value>, f: ProductFilter, argN: nat)
    returns (order: OrderBy, args': seq<Value>, argN': nat)
    requires argN == |args| + 1
    ensures order == OrderOf(f, argN, Relevance(1)).0 && args' == args + OrderOf(f, argN, Relevance(1)).1
    ensures argN' == |args'| + 1
  {
    if |f.popularIds| > 0 { return ArrayPosition(argN), args + [Nums(f.popularIds)], argN + 1; }
    var token := ExplicitOrderBy(f.sort);
    assert args + [] == args;
    if token.Some? { return token.value, args, argN; }
    return Relevance(1), args, argN;
  }

  // ---- whole queries ----

  datatype Scope = InCategory | TextSearch

  datatype Query = Query(scope: Scope, clauses: seq<Clause>, order: OrderBy, limitParam: nat, offsetParam: nat,
                         args: seq<Value>)

  /** Which rows a query returns: $1 is the category or the query text, $2 the locale. */
  predicate Selects(c: Catalog, q: Query, row: Row) {
    && |q.args| >= 2 && row.active && q.args[1] == Text(row.locale)
    && (match q.scope
        case InCategory => q.args[0].Num? && c.inSubtree(q.args[0].n, row.category)
        case TextSearch => q.args[0].Text? && c.textHit(q.args[0].t, row))
    && Accepts(q.clauses, q.args, row)
  }

  /** The finished query, given the slugs in order. */
  function Finished(scope: Scope, base: seq<Value>, f: ProductFilter, slugs: seq<string>, fallback: OrderBy,
                    offset: int, limit: int): Query
    requires forall i :: 0 <= i < |slugs| ==> slugs[i] in f.attrs
  {
    var parts := FilterParts(f, slugs);
    var filtered := base + LaidArgs(parts);
    var (order, bound) := OrderOf(f, |filtered| + 1, fallback);
    var args := filtered + bound;
    Query(scope, LaidClauses(parts, |base| + 1), order, |args| + 1, |args| + 2, args + [Num(limit), Num(offset)])
  }

  /** LIMIT and OFFSET are bound to what was asked for. */
  predicate PagedBy(q: Query, offset: int, limit: int) {
    && 1 <= q.limitParam <= |q.args| && q.args[q.limitParam - 1] == Num(limit)
    && 1 <= q.offsetParam <= |q.args| && q.args[q.offsetParam - 1] == Num(offset)
  }

  /** The finished query selects the rows of its scope that match the filter. */
  lemma {:induction false} FinishedSelects(c: Catalog, scope: Scope, first: Value, locale: string, f: ProductFilter,
                                           order: seq<string>, fallback: OrderBy, offset: int, limit: int, row: Row)
    requires Enumerates(order, f.attrs.Keys)
    ensures forall i :: 0 <= i < |Sorted(order)| ==> Sorted(order)[i] in f.attrs
    ensures var q := Finished(scope, [first, Text(locale)], f, Sorted(order), fallback, offset, limit);
      && PagedBy(q, offset, limit)
      && |q.args| >= 2 && q.args[0] == first && q.args[1] == Text(locale)
      && (Accepts(q.clauses, q.args, row) <==> Matches(f, row))
  {
    FilterPartsMean(f, order, row);
    var base := [first, Text(locale)];
    var parts := FilterParts(f, Sorted(order));
    var filtered := base + LaidArgs(parts);
    var bound := OrderOf(f, |filtered| + 1, fallback).1;
    LaidMeaning(parts, base, bound + [Num(limit), Num(offset)], row);
    assert filtered + bound + [Num(limit), Num(offset)] == filtered + (bound + [Num(limit), Num(offset)]);
  }

  /** What a category listing means, for every catalog and row. */
  lemma {:induction false} CategoryQueryMeans(c: Catalog, category: int, locale: string, f: ProductFilter,
                                              order: seq<string>, offset: int, limit: int, row: Row)
    requires Enumerates(order, f.attrs.Keys)
    ensures forall i :: 0 <= i < |Sorted(order)| ==> Sorted(order)[i] in f.attrs
    ensures var q := Finished(InCategory, [Num(category), Text(locale)], f, Sorted(order), ById, offset, limit);
      && (Selects(c, q, row) <==>
            row.active && row.locale == locale && c.inSubtree(category, row.category) && Matches(f, row))
      && SortKey(c, q.order, q.args, row) == Some(WantedKey(c, f, None, row))
      && PagedBy(q, offset, limit)
  {
    FinishedSelects(c, InCategory, Num(category), locale, f, order, ById, offset, limit, row);
    OrderMeans(c, f, [Num(category), Text(locale)] + LaidArgs(FilterParts(f, Sorted(order))),
               [Num(limit), Num(offset)], row);
  }

  /** What a search means; its default order is relevance to the same text. */
  lemma {:induction false} SearchQueryMeans(c: Catalog, text: string, locale: string, f: ProductFilter,
                                            order: seq<string>, offset: int, limit: int, row: Row)
    requires Enumerates(order, f.attrs.Keys)
    ensures forall i :: 0 <= i < |Sorted(order)| ==> Sorted(order)[i] in f.attrs
    ensures var q := Finished(TextSearch, [Text(text), Text(locale)], f, Sorted(order), Relevance(1), offset, limit);
      && (Selects(c, q, row) <==>
            row.active && row.locale == locale && c.textHit(text, row) && Matches(f, row))
      && SortKey(c, q.order, q.args, row) == Some(WantedKey(c, f, Some(text), row))
      && PagedBy(q, offset, limit)
  {
    FinishedSelects(c, TextSearch, Text(text), locale, f, order, Relevance(1), offset, limit, row);
    SearchOrderMeans(c, f, text, [Text(text), Text(locale)] + LaidArgs(FilterParts(f, Sorted(order))),
                     [Num(limit), Num(offset)], row);
  }

  method ListProductsByCategory(category: int, locale: string, f: ProductFilter, order: seq<string>,
                                offset: int, limit: int)
    returns (q: Query)
    requires Enumerates(order, f.attrs.Keys)
    ensures forall i :: 0 <= i < |Sorted(order)| ==> Sorted(order)[i] in f.attrs
    ensures q == Finished(InCategory, [Num(category), Text(locale)], f, Sorted(order), ById, offset, limit)
  {
    var sb := new SqlBuilder();
    var args, argN := sb.AppendProductFilters([Num(category), Text(locale)], f, order, 3);
    var ranking;
    ranking, args, argN := AppendOrderBy(args, f, argN);
    q := Query(InCategory, sb.clauses, ranking, argN, argN + 1, args + [Num(limit), Num(offset)]);
    assert sb.clauses == LaidClauses(FilterParts(f, Sorted(order)), 3);
  }

  method SearchProductsSummary(text: string, locale: string, f: ProductFilter, order: seq<string>, offset: int,
                               limit: int)
    returns (q: Query)
    requires Enumerates(order, f.attrs.Keys)
    ensures forall i :: 0 <= i < |Sorted(order)| ==> Sorted(order)[i] in f.attrs
    ensures q == Finished(TextSearch, [Text(text), Text(locale)], f, Sorted(order), Relevance(1), offset, limit)
  {
    var sb := new SqlBuilder();
    var args, argN := sb.AppendProductFilters([Text(text), Text(locale)], f, order, 3);
    var ranking;
    ranking, args, argN := AppendSearchOrderBy(args, f, argN);
    q := Query(TextSearch, sb.clauses, ranking, argN, argN + 1, args + [Num(limit), Num(offset)]);
    assert sb.clauses == LaidClauses(FilterParts(f, Sorted(order)), 3);
  }

  /** The query does not depend on the order in which the attribute map yields its slugs. */
  lemma {:induction false} MapOrderIrrelevant(scope: Scope, base: seq<Value>, f: ProductFilter, o1: seq<string>,
                                              o2: seq<string>,
                                              fallback: OrderBy, offset: int, limit: int)
    requires Enumerates(o1, f.attrs.Keys) && Enumerates(o2, f.attrs.Keys)
    ensures forall i :: 0 <= i < |Sorted(o1)| ==> Sorted(o1)[i] in f.attrs
    ensures forall i :: 0 <= i < |Sorted(o2)| ==> Sorted(o2)[i] in f.attrs
    ensures Finished(scope, base, f, Sorted(o1), fallback, offset, limit)
         == Finished(scope, base, f, Sorted(o2), fallback, offset, limit)
  {
    SortedAreKeys(o1, f.attrs.Keys);
    SortedIgnoresMapOrder(o1, o2, f.attrs.Keys);
  }
}
