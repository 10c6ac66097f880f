/** The list route: filter the store by category and by a search term, then
    cut out one page of the result. */
module Query {
  import opened Wrappers
  import opened Text
  import opened Catalogue

  /** The query string of a list request. `page` and `limit` are the result of
      parsing the parameter as an integer: `None` when it is missing or does
      not parse. */
  datatype ListQuery = ListQuery(
    category: Option<string>,
    search: Option<string>,
    page: Option<int>,
    limit: Option<int>)

  /** `Array.prototype.filter`: the elements that `keep` accepts, visited from
      first to last and appended in that order. */
  function Filter<T(!new)>(s: seq<T>, keep: T -> bool): (r: seq<T>)
    ensures |r| <= |s|
    ensures forall x :: x in r <==> x in s && keep(x)
    decreases |s|
  {
    if s == [] then []
    else
      var last := s[|s| - 1];
      var rest := Filter(s[..|s| - 1], keep);
      assert s == s[..|s| - 1] + [last];
      if keep(last) then rest + [last] else rest
  }

  /** The positions of `s` whose element `keep` accepts, in increasing order. */
  ghost function KeptPositions<T(!new)>(s: seq<T>, keep: T -> bool): seq<int>
    decreases |s|
  {
    if s == [] then []
    else
      var rest := KeptPositions(s[..|s| - 1], keep);
      if keep(s[|s| - 1]) then rest + [|s| - 1] else rest
  }

  /** The filter result is `s` read at exactly the accepted positions, in
      their original order: an order-preserving subsequence that leaves out
      precisely the rejected elements. */
  lemma FilterKeepsOrder<T(!new)>(s: seq<T>, keep: T -> bool)
    ensures var r, idx := Filter(s, keep), KeptPositions(s, keep);
      && |idx| == |r|
      && (forall k :: 0 <= k < |idx| ==> 0 <= idx[k] < |s| && r[k] == s[idx[k]])
      && (forall k, l :: 0 <= k < l < |idx| ==> idx[k] < idx[l])
      && (forall j :: 0 <= j < |s| ==> (keep(s[j]) <==> j in idx))
  {
    KeptPositionsAscend(s, keep);
    FilterReadsKeptPositions(s, keep);
    KeptPositionsExact(s, keep);
  }

  /** The kept positions lie inside `s` and ascend. */
  lemma {:induction false} KeptPositionsAscend<T(!new)>(s: seq<T>, keep: T -> bool)
    ensures forall k :: 0 <= k < |KeptPositions(s, keep)| ==> 0 <= KeptPositions(s, keep)[k] < |s|
    ensures forall k, l :: 0 <= k < l < |KeptPositions(s, keep)| ==>
      KeptPositions(s, keep)[k] < KeptPositions(s, keep)[l]
    decreases |s|
  {
    if s != [] {
      KeptPositionsAscend(s[..|s| - 1], keep);
    }
  }

  /** Element `k` of the filter result is the element of `s` at the `k`-th
      kept position. */
  lemma {:induction false} FilterReadsKeptPositions<T(!new)>(s: seq<T>, keep: T -> bool)
    ensures |KeptPositions(s, keep)| == |Filter(s, keep)|
    ensures forall k :: 0 <= k < |Filter(s, keep)| ==>
      0 <= KeptPositions(s, keep)[k] < |s| && Filter(s, keep)[k] == s[KeptPositions(s, keep)[k]]
    decreases |s|
  {
    if s != [] {
      var n := |s| - 1;
      FilterReadsKeptPositions(s[..n], keep);
      KeptPositionsAscend(s[..n], keep);
    }
  }

  /** A position is kept exactly when `keep` accepts its element. */
  lemma {:induction false} KeptPositionsExact<T(!new)>(s: seq<T>, keep: T -> bool)
    ensures forall j :: 0 <= j < |s| ==> (keep(s[j]) <==> j in KeptPositions(s, keep))
    decreases |s|
  {
    if s != [] {
      var n := |s| - 1;
      KeptPositionsExact(s[..n], keep);
      KeptPositionsAscend(s[..n], keep);
      assert n !in KeptPositions(s[..n], keep);
      forall j | 0 <= j < n
        ensures keep(s[j]) <==> j in KeptPositions(s, keep)
      {
        assert s[..n][j] == s[j];
      }
    }
  }

  /** Accepted by both `a` and `b`. */
  function Both<T(!new)>(a: T -> bool, b: T -> bool): T -> bool
  {
    x => a(x) && b(x)
  }

  /** Filtering twice is filtering once by both conditions. */
  lemma {:induction false} FilterTwice<T(!new)>(s: seq<T>, a: T -> bool, b: T -> bool)
    ensures Filter(Filter(s, a), b) == Filter(s, Both(a, b))
    decreases |s|
  {
    if s != [] {
      var n := |s| - 1;
      FilterTwice(s[..n], a, b);
      var inner := Filter(s[..n], a);
      if a(s[n]) {
        assert (inner + [s[n]])[..|inner|] == inner;
      }
    }
  }

  /** Two conditions that agree everywhere filter alike. */
  lemma {:induction false} FilterSameKeep<T(!new)>(s: seq<T>, a: T -> bool, b: T -> bool)
    requires forall x :: a(x) == b(x)
    ensures Filter(s, a) == Filter(s, b)
    decreases |s|
  {
    if s != [] {
      FilterSameKeep(s[..|s| - 1], a, b);
    }
  }

  /** A condition that accepts everything keeps the whole sequence. */
  lemma {:induction false} FilterKeepAll<T(!new)>(s: seq<T>, a: T -> bool)
    requires forall x :: a(x)
    ensures Filter(s, a) == s
    decreases |s|
  {
    if s != [] {
      FilterKeepAll(s[..|s| - 1], a);
      assert s == s[..|s| - 1] + [s[|s| - 1]];
    }
  }

  /** The category filter: the lower-cased category equals the lower-cased
      query value, that is, the two have the same length and agree letter by
      letter once case is ignored. */
  predicate CategoryMatches(p: Product, category: string): (b: bool)
    ensures b <==> |p.category| == |category|
                   && forall i :: 0 <= i < |category| ==> LowerChar(p.category[i]) == LowerChar(category[i])
  {
    ToLower(p.category) == ToLower(category)
  }

  /** The search filter: the lower-cased name includes the lower-cased term,
      that is, the term occurs somewhere in the name once case is ignored. */
  predicate NameMatches(p: Product, search: string): (b: bool)
    ensures b <==> exists i :: OccursAt(ToLower(p.name), ToLower(search), i)
  {
    IncludesIff(ToLower(p.name), ToLower(search));
    Includes(ToLower(p.name), ToLower(search))
  }

  function InCategory(category: string): Product -> bool
  {
    p => CategoryMatches(p, category)
  }

  function NameContains(search: string): Product -> bool
  {
    p => NameMatches(p, search)
  }

  /** The list route before paging: a copy of the store, filtered by category
      when that parameter is truthy, then by search term when that one is.
      What remains is exactly the store's records that match every filter in
      force. */
  function Filtered(ps: seq<Product>, q: ListQuery): (r: seq<Product>)
    ensures |r| <= |ps|
    ensures forall p :: p in r <==> p in ps && Selected(p, q)
  {
    var byCategory := if Truthy(q.category) then Filter(ps, InCategory(q.category.value)) else ps;
    if Truthy(q.search) then Filter(byCategory, NameContains(q.search.value)) else byCategory
  }

  /** With only a category given, the list route applies the category filter
      alone. */
  lemma FilteredByCategoryOnly(ps: seq<Product>, q: ListQuery)
    requires Truthy(q.category) && !Truthy(q.search)
    ensures Filtered(ps, q) == Filter(ps, InCategory(q.category.value))
  {
  }

  /** A record the list route shows: it matches every filter that is in force. */
  predicate Selected(p: Product, q: ListQuery)
  {
    && (Truthy(q.category) ==> CategoryMatches(p, q.category.value))
    && (Truthy(q.search) ==> NameMatches(p, q.search.value))
  }

  function SelectedBy(q: ListQuery): Product -> bool
  {
    p => Selected(p, q)
  }

  /** The two filters in a row are one filter by `Selected`. */
  lemma FilteredIsOneFilter(ps: seq<Product>, q: ListQuery)
    ensures Filtered(ps, q) == Filter(ps, SelectedBy(q))
  {
    if Truthy(q.category) && Truthy(q.search) {
      var c, t := InCategory(q.category.value), NameContains(q.search.value);
      FilterTwice(ps, c, t);
      FilterSameKeep(ps, Both(c, t), SelectedBy(q));
    } else if Truthy(q.category) {
      FilterSameKeep(ps, InCategory(q.category.value), SelectedBy(q));
    } else if Truthy(q.search) {
      FilterSameKeep(ps, NameContains(q.search.value), SelectedBy(q));
    } else {
      FilterKeepAll(ps, SelectedBy(q));
    }
  }

  /** Before paging, the list route holds exactly the records that match the
      query, each at its place in the store and in store order. */
  lemma ListFilterSelects(ps: seq<Product>, q: ListQuery)
    ensures var r, idx := Filtered(ps, q), KeptPositions(ps, SelectedBy(q));
      && |idx| == |r|
      && (forall k :: 0 <= k < |idx| ==> 0 <= idx[k] < |ps| && r[k] == ps[idx[k]])
      && (forall k, l :: 0 <= k < l < |idx| ==> idx[k] < idx[l])
      && (forall j :: 0 <= j < |ps| ==> (Selected(ps[j], q) <==> j in idx))
  {
    FilteredIsOneFilter(ps, q);
    FilterKeepsOrder(ps, SelectedBy(q));
  }

  /** The category match ignores the case of the query value. */
  lemma CategoryIgnoresCase(p: Product, category: string)
    ensures CategoryMatches(p, category) <==> CategoryMatches(p, ToLower(category))
  {
    ToLowerIdempotent(category);
  }

  /** An integer query parameter with a fallback: a missing, unparsable or
      zero value is falsy and gives the fallback. */
  function OrDefault(parsed: Option<int>, fallback: int): (n: int)
    ensures parsed.Some? && parsed.value != 0 ==> n == parsed.value
    ensures parsed.None? || parsed.value == 0 ==> n == fallback
    ensures n == 0 ==> fallback == 0
  {
    if parsed.None? || parsed.value == 0 then fallback else parsed.value
  }

  function Min(a: int, b: int): int
  {
    if a <= b then a else b
  }

  /** The index `slice` actually uses for a bound `i` over `n` elements: a
      negative bound counts from the end, and the result is clamped to
      0..n. */
  function RelativeIndex(i: int, n: nat): (r: nat)
    ensures r <= n
  {
    if i < 0 then (if n + i < 0 then 0 else n + i)
    else if i < n then i
    else n
  }

  /** `Array.prototype.slice(start, end)`: the elements between the two
      relative indices, empty when they cross. */
  function Slice<T(!new)>(s: seq<T>, start: int, end: int): (r: seq<T>)
    ensures |r| <= |s|
    ensures forall x :: x in r ==> x in s
  {
    var from := RelativeIndex(start, |s|);
    var to := RelativeIndex(end, |s|);
    if from < to then s[from..to] else []
  }

  /** The page number the list route uses. */
  function PageOf(q: ListQuery): int
  {
    OrDefault(q.page, 1)
  }

  /** The page size the list route uses: it falls back to the number of
      filtered records. */
  function LimitOf(ps: seq<Product>, q: ListQuery): int
  {
    OrDefault(q.limit, |Filtered(ps, q)|)
  }

  /** The list route. The reported total counts the filtered records before
      paging; the page holds only records the query selects. */
  function ListProducts(ps: seq<Product>, q: ListQuery): (r: Response)
    ensures r.status == 200 && r.payload.Listing?
    ensures r.payload.total == |Filtered(ps, q)|
    ensures r.payload.page == PageOf(q) && r.payload.limit == LimitOf(ps, q)
    ensures |r.payload.data| <= r.payload.total
    ensures forall p :: p in r.payload.data ==> p in ps && Selected(p, q)
  {
    var result := Filtered(ps, q);
    var page := OrDefault(q.page, 1);
    var limit := OrDefault(q.limit, |result|);
    var start := (page - 1) * limit;
    var end := start + limit;
    FilteredIsOneFilter(ps, q);
    Response(200, Listing(page, limit, |result|, Slice(result, start, end)))
  }

  /** A product of naturals is a natural. Stated on its own so that the
      nonlinear step in `PageIsContiguousRun` is one small fact the solver
      is handed, rather than one it must find: without it that proof's cost
      varies widely from one solver seed to the next. */
  lemma MulNonNegative(a: int, b: int)
    requires 0 <= a && 0 <= b
    ensures 0 <= a * b
  {
  }

  /** With a positive page and page size, the page is the contiguous run of
      filtered records from `(page - 1) * limit` up to `page * limit`, cut at
      the total, so it holds at most `limit` records. */
  lemma PageIsContiguousRun(ps: seq<Product>, q: ListQuery)
    requires PageOf(q) >= 1 && LimitOf(ps, q) >= 1
    ensures var L := ListProducts(ps, q).payload;
      var start := (L.page - 1) * L.limit;
      && 0 <= start
      && L.data == Filtered(ps, q)[Min(start, L.total)..Min(start + L.limit, L.total)]
      && |L.data| <= L.limit
  {
    MulNonNegative(PageOf(q) - 1, LimitOf(ps, q));
  }

  /** A missing, unparsable or zero page means page 1; a missing, unparsable
      or zero limit means the whole filtered count, so that first page then
      shows every filtered record. */
  lemma DefaultsFallBack(ps: seq<Product>, q: ListQuery)
    ensures q.page.None? || q.page == Some(0) ==> ListProducts(ps, q).payload.page == 1
    ensures q.limit.None? || q.limit == Some(0) ==>
      ListProducts(ps, q).payload.limit == |Filtered(ps, q)|
    ensures PageOf(q) == 1 && (q.limit.None? || q.limit == Some(0)) ==>
      ListProducts(ps, q).payload.data == Filtered(ps, q)
  {
  }

  /** A negative limit on the first page drops that many records from the end
      of the filtered result, since `slice` counts a negative end from the
      back. */
  lemma NegativeLimitDropsTail(ps: seq<Product>, q: ListQuery, k: int)
    requires PageOf(q) == 1 && q.limit == Some(-k) && k > 0
    ensures var r := Filtered(ps, q);
      ListProducts(ps, q).payload.data == if k <= |r| then r[..|r| - k] else []
  {
  }
}
