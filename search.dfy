/**
 * `search_products` of the backend, without its cache and its network call:
 * pick the query to search for (or reject the request), turn the raw
 * shopping hits into offers with a positive price, sort them ascending by
 * price and summarise them.
 */
module ProductSearch {
  import opened Wrappers
  import opened Catalog
  import opened PriceParsing
  import opened PriceStatistics
  import opened Filtering

  /**
   * One entry of the shopping search's `"shopping"` list; each field is a
   * JSON key that may be missing.
   */
  datatype RawHit = RawHit(
    price: Option<string>,
    title: Option<string>,
    source: Option<string>,
    link: Option<string>,
    imageUrl: Option<string>,
    thumbnail: Option<string>)

  /** An `HTTPException` raised by the endpoint. */
  datatype HttpError = HttpError(status: nat, detail: string)

  /** An uploaded photo is not analysed yet: the search always runs for this product. */
  const ImageSearchQuery := "iPhone 15"
  const MissingQueryError := HttpError(400, "Please provide query.")
  const Unknown := "Unknown"
  const NoLink := "#"
  const NoPriceText := "0"
  const NoImage := ""
  const ResultSource := "Google API"

  // ---- request validation ----

  /** The query the search runs for, or the 400 error when there is neither a query nor a file. */
  function ResolveQuery(query: Option<string>, hasFile: bool): (r: Result<string, HttpError>)
    ensures r.Err? <==> !hasFile && (query.None? || query.value == "")
    ensures r.Err? ==> r.error == MissingQueryError
    ensures r.Ok? && hasFile ==> r.value == ImageSearchQuery
    ensures r.Ok? && !hasFile ==> query == Some(r.value)
    ensures r.Ok? ==> r.value != ""
  {
    var finalQuery := if hasFile then Some(ImageSearchQuery) else query;
    if finalQuery.None? || finalQuery.value == "" then
      // `final_query` is only falsy when no file came, so `not file` holds here.
      Err(MissingQueryError)
    else Ok(finalQuery.value)
  }

  /** `final_query or "Unknown"`: the query echoed back in the response. */
  function ResponseLabel(finalQuery: string): string
  {
    if finalQuery == "" then Unknown else finalQuery
  }

  /** After validation the `"Unknown"` fallback can never be taken: the response echoes the query searched for. */
  lemma ResponseLabelIsResolvedQuery(query: Option<string>, hasFile: bool)
    requires ResolveQuery(query, hasFile).Ok?
    ensures ResponseLabel(ResolveQuery(query, hasFile).value) == ResolveQuery(query, hasFile).value
    ensures ResponseLabel(ResolveQuery(query, hasFile).value) != Unknown || query == Some(Unknown)
  {
  }

  // ---- step 3: clean the raw hits ----

  /** `item.get("price", "0")`. */
  function PriceText(h: RawHit): string { h.price.GetOr(NoPriceText) }

  /** Whether the loop appends an offer for this hit (`p_val > 0`). */
  predicate Keeps(h: RawHit) { CleanPrice(PriceText(h)) > 0.0 }

  /** The offer built from one hit, with the source's defaults for missing keys. */
  function ToItem(h: RawHit): (it: ProductItem)
    ensures it.price == CleanPrice(PriceText(h))
    ensures it.formattedPrice == PriceText(h)
    ensures h.price.None? ==> it.price == 0.0
    ensures it.title == (if h.title.Some? then h.title.value else Unknown)
    ensures it.merchant == (if h.source.Some? then h.source.value else Unknown)
    ensures it.link == (if h.link.Some? then h.link.value else NoLink)
    ensures h.imageUrl.Some? ==> it.imageUrl == h.imageUrl.value
    ensures h.imageUrl.None? && h.thumbnail.Some? ==> it.imageUrl == h.thumbnail.value
    ensures h.imageUrl.None? && h.thumbnail.None? ==> it.imageUrl == NoImage
  {
    var priceText := PriceText(h);
    assert h.price.None? ==> KeepPriceChars(priceText) == priceText;
    ProductItem(
      title := h.title.GetOr(Unknown),
      price := CleanPrice(priceText),
      formattedPrice := priceText,
      merchant := h.source.GetOr(Unknown),
      link := h.link.GetOr(NoLink),
      imageUrl := h.imageUrl.GetOr(h.thumbnail.GetOr(NoImage)))
  }

  /** What the loop has appended after visiting `raw`, in visiting order. */
  function Kept(raw: seq<RawHit>): seq<ProductItem>
  {
    FilterMap(raw, Keeps, ToItem)
  }

  /** The positions of the hits the loop keeps. */
  function KeptPositions(raw: seq<RawHit>): seq<nat>
  {
    Positions(raw, Keeps)
  }

  /**
   * The cleaned list holds exactly the hits with a positive parsed price,
   * each once and in their original order, each turned into its offer.
   */
  lemma KeptIsPositiveHitsInOrder(raw: seq<RawHit>)
    ensures |Kept(raw)| == |KeptPositions(raw)|
    ensures forall k :: 0 <= k < |KeptPositions(raw)| ==>
              KeptPositions(raw)[k] < |raw| && Keeps(raw[KeptPositions(raw)[k]]) &&
              Kept(raw)[k] == ToItem(raw[KeptPositions(raw)[k]])
    ensures forall k, m :: 0 <= k < m < |KeptPositions(raw)| ==> KeptPositions(raw)[k] < KeptPositions(raw)[m]
    ensures forall i :: 0 <= i < |raw| && Keeps(raw[i]) ==> i in KeptPositions(raw)
  {
    FilterMapAtPositions(raw, Keeps, ToItem);
  }

  /** Every offer that survives cleaning has a positive price. */
  lemma KeptPricesPositive(raw: seq<RawHit>)
    ensures forall k :: 0 <= k < |Kept(raw)| ==> Kept(raw)[k].price > 0.0
  {
    KeptIsPositiveHitsInOrder(raw);
  }

  // ---- the stable sort by price ----

  /** Insert `x` before the first offer that is not cheaper than it. */
  function Insert(x: ProductItem, sorted: seq<ProductItem>): (r: seq<ProductItem>)
    ensures multiset(r) == multiset(sorted) + multiset{x}
    ensures SortedByPrice(sorted) ==> SortedByPrice(r)
  {
    if sorted == [] || x.price <= sorted[0].price then [x] + sorted
    else
      var rest := Insert(x, sorted[1..]);
      assert sorted == [sorted[0]] + sorted[1..];
      assert SortedByPrice(sorted) ==> SortedByPrice([sorted[0]] + rest) by {
        if SortedByPrice(sorted) {
          SortedTail(sorted);
          PrependSorted(sorted[0], rest, x, sorted[1..]);
        }
      }
      [sorted[0]] + rest
  }

  /** The tail of a sorted list is sorted, and its first offer is no dearer than any of the tail. */
  lemma SortedTail(s: seq<ProductItem>)
    requires SortedByPrice(s) && s != []
    ensures SortedByPrice(s[1..])
    ensures forall k :: 0 <= k < |s[1..]| ==> s[0].price <= s[1..][k].price
  {
    var t := s[1..];
    forall i, j | 0 <= i < j < |t|
      ensures t[i].price <= t[j].price
    {
      assert t[i] == s[i + 1] && t[j] == s[j + 1];
    }
    forall k | 0 <= k < |t|
      ensures s[0].price <= t[k].price
    {
      assert t[k] == s[k + 1];
    }
  }

  /**
   * An offer no dearer than `x` and than every offer of `tail` can go in
   * front of any sorted arrangement of `tail` with `x` added.
   */
  lemma PrependSorted(h: ProductItem, rest: seq<ProductItem>, x: ProductItem, tail: seq<ProductItem>)
    requires SortedByPrice(rest)
    requires multiset(rest) == multiset(tail) + multiset{x}
    requires h.price <= x.price
    requires forall k :: 0 <= k < |tail| ==> h.price <= tail[k].price
    ensures SortedByPrice([h] + rest)
  {
    forall j | 0 <= j < |rest|
      ensures h.price <= rest[j].price
    {
      assert rest[j] in multiset(rest);
      if rest[j] != x {
        assert rest[j] in multiset(tail);
        var i :| 0 <= i < |tail| && tail[i] == rest[j];
      }
    }
    var r := [h] + rest;
    forall i, j | 0 <= i < j < |r|
      ensures r[i].price <= r[j].price
    {
      assert r[j] == rest[j - 1];
      if i > 0 {
        assert r[i] == rest[i - 1];
      }
    }
  }

  /** `list.sort(key=lambda x: x.price)`: ascending by price, ties kept in their order. */
  function SortByPrice(items: seq<ProductItem>): (r: seq<ProductItem>)
    ensures SortedByPrice(r)
    ensures multiset(r) == multiset(items)
  {
    if items == [] then []
    else
      assert items == [items[0]] + items[1..];
      Insert(items[0], SortByPrice(items[1..]))
  }

  /** The offers priced exactly `v`, in their order. */
  function WithPrice(items: seq<ProductItem>, v: real): seq<ProductItem>
  {
    if items == [] then []
    else (if items[0].price == v then [items[0]] else []) + WithPrice(items[1..], v)
  }

  lemma WithPriceCons(h: ProductItem, t: seq<ProductItem>, v: real)
    ensures WithPrice([h] + t, v) == (if h.price == v then [h] else []) + WithPrice(t, v)
  {
    assert ([h] + t)[0] == h;
    assert ([h] + t)[1..] == t;
  }

  lemma {:induction false} InsertKeepsTies(x: ProductItem, sorted: seq<ProductItem>, v: real)
    ensures WithPrice(Insert(x, sorted), v) == WithPrice([x], v) + WithPrice(sorted, v)
  {
    WithPriceCons(x, [], v);
    assert [x] + [] == [x];
    if sorted == [] || x.price <= sorted[0].price {
      assert Insert(x, sorted) == [x] + sorted;
      WithPriceCons(x, sorted, v);
    } else {
      var ins := Insert(x, sorted[1..]);
      assert Insert(x, sorted) == [sorted[0]] + ins;
      InsertKeepsTies(x, sorted[1..], v);
      TiesPastCheaperHead(x, sorted[0], sorted[1..], ins, v);
      assert sorted == [sorted[0]] + sorted[1..];
    }
  }

  /** Moving `x` past a cheaper offer `h` does not reorder the offers of any single price. */
  lemma TiesPastCheaperHead(x: ProductItem, h: ProductItem, tail: seq<ProductItem>, ins: seq<ProductItem>, v: real)
    requires h.price < x.price
    requires WithPrice(ins, v) == WithPrice([x], v) + WithPrice(tail, v)
    ensures WithPrice([h] + ins, v) == WithPrice([x], v) + WithPrice([h] + tail, v)
  {
    WithPriceCons(h, ins, v);
    WithPriceCons(h, tail, v);
    WithPriceCons(x, [], v);
    assert [x] + [] == [x];
    var w := WithPrice(tail, v);
    var tie := if x.price == v then [x] else [];
    var head := if h.price == v then [h] else [];
    if x.price == v {
      assert head == [];
      assert head + (tie + w) == tie + w == tie + (head + w);
    } else {
      assert tie == [];
      assert head + (tie + w) == head + w == tie + (head + w);
    }
  }

  /** The sort is stable: for every price, the offers at that price keep their relative order. */
  lemma {:induction false} SortByPriceIsStable(items: seq<ProductItem>, v: real)
    ensures WithPrice(SortByPrice(items), v) == WithPrice(items, v)
  {
    if items != [] {
      var x, rest := items[0], items[1..];
      assert SortByPrice(items) == Insert(x, SortByPrice(rest));
      SortByPriceIsStable(rest, v);
      InsertKeepsTies(x, SortByPrice(rest), v);
      WithPriceCons(x, [], v);
      assert [x] + [] == [x];
      assert items == [x] + rest;
      WithPriceCons(x, rest, v);
    }
  }

  lemma {:induction false} WithPriceMembers(items: seq<ProductItem>, v: real, x: ProductItem)
    ensures x in WithPrice(items, v) <==> x in items && x.price == v
  {
    if items != [] {
      WithPriceMembers(items[1..], v, x);
      assert items == [items[0]] + items[1..];
    }
  }

  /**
   * A stable ascending order is unique: any list sorted by price whose
   * offers at each price come in the input's order equals `SortByPrice`.
   * So any stable sort, the one the source calls included, gives this result.
   */
  lemma {:induction false} StableSortIsUnique(a: seq<ProductItem>, b: seq<ProductItem>)
    requires SortedByPrice(a) && SortedByPrice(b)
    requires forall v :: WithPrice(a, v) == WithPrice(b, v)
    ensures a == b
    decreases |a|
  {
    if a == [] || b == [] {
      if a != [] {
        WithPriceMembers(a, a[0].price, a[0]);
      } else if b != [] {
        WithPriceMembers(b, b[0].price, b[0]);
      }
    } else {
      SameFirstOffer(a, b);
      forall v
        ensures WithPrice(a[1..], v) == WithPrice(b[1..], v)
      {
        SameTiesAfterFirst(a, b, v);
      }
      StableSortIsUnique(a[1..], b[1..]);
      assert a == [a[0]] + a[1..] && b == [b[0]] + b[1..];
    }
  }

  /** Two sorted lists with the same offers at every price start with the same offer. */
  lemma SameFirstOffer(a: seq<ProductItem>, b: seq<ProductItem>)
    requires SortedByPrice(a) && SortedByPrice(b) && a != [] && b != []
    requires forall v :: WithPrice(a, v) == WithPrice(b, v)
    ensures a[0] == b[0]
  {
    var p, q := a[0].price, b[0].price;
    WithPriceMembers(a, p, a[0]);
    WithPriceMembers(b, q, b[0]);
    assert a[0] in WithPrice(b, p);
    WithPriceMembers(b, p, a[0]);
    assert b[0] in WithPrice(a, q);
    WithPriceMembers(a, q, b[0]);
    assert q <= p by {
      var i :| 0 <= i < |b| && b[i] == a[0];
    }
    assert p <= q by {
      var i :| 0 <= i < |a| && a[i] == b[0];
    }
    assert WithPrice(a, p)[0] == a[0] && WithPrice(b, p)[0] == b[0];
  }

  /** Dropping a common first offer keeps the offers at each price equal. */
  lemma SameTiesAfterFirst(a: seq<ProductItem>, b: seq<ProductItem>, v: real)
    requires a != [] && b != [] && a[0] == b[0]
    requires WithPrice(a, v) == WithPrice(b, v)
    ensures WithPrice(a[1..], v) == WithPrice(b[1..], v)
  {
    if a[0].price == v {
      assert WithPrice(a, v) == [a[0]] + WithPrice(a[1..], v);
      assert WithPrice(b, v) == [b[0]] + WithPrice(b[1..], v);
      assert WithPrice(a[1..], v) == WithPrice(a, v)[1..];
      assert WithPrice(b[1..], v) == WithPrice(b, v)[1..];
    } else {
      assert WithPrice(a, v) == [] + WithPrice(a[1..], v) == WithPrice(a[1..], v);
      assert WithPrice(b, v) == [] + WithPrice(b[1..], v) == WithPrice(b[1..], v);
    }
  }

  /** The STEP 3 loop and the sort after it. */
  method CleanHits(raw: seq<RawHit>) returns (items: seq<ProductItem>)
    ensures items == SortByPrice(Kept(raw))
    ensures SortedByPrice(items)
    ensures multiset(items) == multiset(Kept(raw))
    ensures forall k :: 0 <= k < |items| ==> items[k].price > 0.0
  {
    var processed: seq<ProductItem> := [];
    for i := 0 to |raw|
      invariant processed == Kept(raw[..i])
    {
      assert raw[..i + 1][..i] == raw[..i];
      var priceText := PriceText(raw[i]);
      var priceValue := CleanPrice(priceText);
      if priceValue > 0.0 {
        processed := processed + [ToItem(raw[i])];
      }
    }
    assert raw[..|raw|] == raw;
    KeptPricesPositive(raw);
    items := SortByPrice(processed);
    forall k | 0 <= k < |items|
      ensures items[k].price > 0.0
    {
      assert items[k] in multiset(processed);
    }
  }

  /**
   * What every response of the search satisfies: offers ascending by price,
   * every price positive, and the lowest and highest price those of the
   * first and last offer.
   */
  predicate OrderedOffers(response: SearchResponse)
  {
    && SortedByPrice(response.items)
    && (forall k :: 0 <= k < |response.items| ==> response.items[k].price > 0.0)
    && (response.items != [] ==>
          && response.stats.minPrice == response.items[0].price
          && response.stats.maxPrice == response.items[|response.items| - 1].price)
  }

  /** Steps 3 and the return of `search_products`: clean and sort the hits, summarise them, echo the query. */
  method BuildResponse(finalQuery: string, hits: seq<RawHit>) returns (response: SearchResponse)
    requires finalQuery != ""
    ensures response.query == finalQuery
    ensures response.items == SortByPrice(Kept(hits))
    ensures response.stats == CalculateStats(response.items)
    ensures response.source == ResultSource
    ensures OrderedOffers(response)
  {
    var items := CleanHits(hits);
    var echoed := ResponseLabel(finalQuery);
    assert echoed == finalQuery;
    response := SearchResponse(echoed, CalculateStats(items), items, ResultSource);
    SummaryOfCleanedOffers(response);
  }

  /** A response carrying the statistics of sorted, positive offers meets `OrderedOffers`. */
  lemma SummaryOfCleanedOffers(response: SearchResponse)
    requires SortedByPrice(response.items)
    requires forall k :: 0 <= k < |response.items| ==> response.items[k].price > 0.0
    requires response.stats == CalculateStats(response.items)
    ensures OrderedOffers(response)
  {
    var items := response.items;
    if items != [] {
      StatsOfSortedOffers(items);
      assert response.stats.minPrice == items[0].price;
      assert response.stats.maxPrice == items[|items| - 1].price;
    }
  }

  /**
   * `search_products` on a cache miss: the request's form fields and, as
   * `shopping`, the hits the shopping search returns for a query.
   */
  method SearchProducts(query: Option<string>, hasFile: bool, shopping: string -> seq<RawHit>)
    returns (r: Result<SearchResponse, HttpError>)
    ensures r.Err? <==> !hasFile && (query.None? || query.value == "")
    ensures r.Err? ==> r.error == MissingQueryError
    ensures r.Ok? ==>
              var q := ResolveQuery(query, hasFile).value;
              && r.value.query == q
              && r.value.items == SortByPrice(Kept(shopping(q)))
              && r.value.stats == CalculateStats(r.value.items)
              && r.value.source == ResultSource
    ensures r.Ok? ==> OrderedOffers(r.value)
  {
    var resolved := ResolveQuery(query, hasFile);
    if resolved.Err? {
      return Err(resolved.error);
    }
    var response := BuildResponse(resolved.value, shopping(resolved.value));
    r := Ok(response);
  }
}
