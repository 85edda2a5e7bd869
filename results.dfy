/**
 * The results screen (`ResultsView`): the top-five chart series, the
 * colour of each bar, and one card per offer with the "Best Deal" badge on
 * the first. All of it is derived from the response alone; nothing is
 * re-sorted, so "best" means "first in the order the backend sent".
 */
module ResultsProjection {
  import opened Wrappers
  import opened Catalog
  import opened PriceStatistics

  const ChartSize := 5
  const HighlightFill := "#10b981"
  const DefaultFill := "#6366f1"
  const PlaceholderImage := "https://placehold.co/200"

  /** One bar of the comparison chart. */
  datatype ChartPoint = ChartPoint(merchant: string, price: real)

  /** One product card of the "Deals Found" grid. */
  datatype Card = Card(
    imageSrc: string,
    altText: string,
    merchant: string,
    bestDeal: bool,
    title: string,
    priceLabel: string,
    href: string)

  function Min(a: int, b: int): int { if a <= b then a else b }

  /** How `Array.prototype.slice` turns an argument into a position: negative counts from the end, then clamp. */
  function SliceIndex(k: int, len: nat): (r: nat)
    ensures r <= len
    ensures 0 <= k ==> r == Min(k, len)
    ensures k < 0 ==> r == if len + k < 0 then 0 else len + k
  {
    if k < 0 then (if len + k < 0 then 0 else len + k)
    else if k > len then len
    else k
  }

  /** `s.slice(start, end)`. */
  function Slice<T>(s: seq<T>, start: int, end: int): seq<T>
  {
    var b, e := SliceIndex(start, |s|), SliceIndex(end, |s|);
    if b < e then s[b..e] else []
  }

  /** A slice from 0 is the prefix of the requested length, or the whole list if that is shorter. */
  lemma SliceFromStart<T>(s: seq<T>, n: nat)
    ensures Slice(s, 0, n) == s[..Min(n, |s|)]
  {
  }

  function ToPoint(item: ProductItem): ChartPoint
  {
    ChartPoint(item.merchant, item.price)
  }

  /** `.map(item => ({ merchant: item.merchant, price: item.price }))`. */
  function ToPoints(items: seq<ProductItem>): seq<ChartPoint>
  {
    if items == [] then [] else [ToPoint(items[0])] + ToPoints(items[1..])
  }

  lemma {:induction false} ToPointsElementwise(items: seq<ProductItem>)
    ensures |ToPoints(items)| == |items|
    ensures forall i :: 0 <= i < |items| ==> ToPoints(items)[i] == ToPoint(items[i])
  {
    if items != [] {
      ToPointsElementwise(items[1..]);
    }
  }

  /** `chartData`: the first five offers as chart points. */
  function ChartData(items: seq<ProductItem>): seq<ChartPoint>
  {
    ToPoints(Slice(items, 0, ChartSize))
  }

  /**
   * The chart shows `min(5, |items|)` bars; bar `i` has exactly the merchant
   * and price of offer `i`, in the offers' own order.
   */
  lemma ChartDataIsLeadingOffers(items: seq<ProductItem>)
    ensures |ChartData(items)| == Min(ChartSize, |items|)
    ensures forall i :: 0 <= i < |ChartData(items)| ==>
              ChartData(items)[i].merchant == items[i].merchant &&
              ChartData(items)[i].price == items[i].price
    ensures items == [] ==> ChartData(items) == []
  {
    SliceFromStart(items, ChartSize);
    var top := items[..Min(ChartSize, |items|)];
    ToPointsElementwise(top);
  }

  /** Projecting a list that already fits in the chart loses nothing: the chart is the offers' own prefix. */
  lemma ChartDataOfShortList(items: seq<ProductItem>)
    requires |items| <= ChartSize
    ensures ChartData(items) == ToPoints(items)
  {
    SliceFromStart(items, ChartSize);
    assert items[..|items|] == items;
  }

  /**
   * When the backend's ascending order holds, the chart's bars ascend and
   * its first bar is the cheapest offer of all. The view relies on that
   * order and does not check it.
   */
  lemma ChartOfSortedOffersAscends(items: seq<ProductItem>)
    requires SortedByPrice(items)
    ensures forall i, j :: 0 <= i < j < |ChartData(items)| ==> ChartData(items)[i].price <= ChartData(items)[j].price
    ensures items != [] ==> forall k :: 0 <= k < |items| ==> ChartData(items)[0].price <= items[k].price
  {
    ChartDataIsLeadingOffers(items);
  }

  function CellFill(index: nat): string
  {
    if index == 0 then HighlightFill else DefaultFill
  }

  /** The fills of the bars from position `offset` on. */
  function FillsFrom(points: seq<ChartPoint>, offset: nat): seq<string>
  {
    if points == [] then [] else [CellFill(offset)] + FillsFrom(points[1..], offset + 1)
  }

  /** `chartData.map((entry, index) => <Cell fill=... />)`. */
  function CellFills(points: seq<ChartPoint>): seq<string>
  {
    FillsFrom(points, 0)
  }

  lemma {:induction false} FillsFromElementwise(points: seq<ChartPoint>, offset: nat)
    ensures |FillsFrom(points, offset)| == |points|
    ensures forall i :: 0 <= i < |points| ==> FillsFrom(points, offset)[i] == CellFill(offset + i)
  {
    if points != [] {
      FillsFromElementwise(points[1..], offset + 1);
    }
  }

  /** One fill per bar; the highlight colour on bar 0 and on no other bar. */
  lemma OnlyFirstBarHighlighted(points: seq<ChartPoint>)
    ensures |CellFills(points)| == |points|
    ensures forall i :: 0 <= i < |points| ==> (CellFills(points)[i] == HighlightFill <==> i == 0)
    ensures forall i :: 0 < i < |points| ==> CellFills(points)[i] == DefaultFill
  {
    FillsFromElementwise(points, 0);
  }

  /** `item.image_url || "https://placehold.co/200"`. */
  function ImageSource(item: ProductItem): (src: string)
    ensures src != ""
    ensures item.imageUrl != "" ==> src == item.imageUrl
    ensures item.imageUrl == "" ==> src == PlaceholderImage
  {
    if item.imageUrl != "" then item.imageUrl else PlaceholderImage
  }

  /** The card rendered for the offer at position `index`. */
  function CardFor(item: ProductItem, index: nat): Card
  {
    Card(ImageSource(item), item.title, item.merchant, index == 0, item.title, item.formattedPrice, item.link)
  }

  function CardsFrom(items: seq<ProductItem>, offset: nat): seq<Card>
  {
    if items == [] then [] else [CardFor(items[0], offset)] + CardsFrom(items[1..], offset + 1)
  }

  /** `data.items.map((item, idx) => ...)`. */
  function Cards(items: seq<ProductItem>): seq<Card>
  {
    CardsFrom(items, 0)
  }

  lemma {:induction false} CardsFromElementwise(items: seq<ProductItem>, offset: nat)
    ensures |CardsFrom(items, offset)| == |items|
    ensures forall i :: 0 <= i < |items| ==> CardsFrom(items, offset)[i] == CardFor(items[i], offset + i)
  {
    if items != [] {
      CardsFromElementwise(items[1..], offset + 1);
    }
  }

  /** The grid's deal: the first offer, when there is one. */
  function BestDealIndex(items: seq<ProductItem>): (r: Option<nat>)
    ensures r.Some? <==> items != []
    ensures r.Some? ==> r.value == 0 && r.value < |items|
  {
    if items == [] then None else Some(0)
  }

  /**
   * Every offer gets exactly one card, in order, showing its own merchant,
   * title, price text, link and image (or the placeholder); the "Best Deal"
   * badge is on the card at the best-deal index and on no other.
   */
  lemma CardsRenderEachOfferOnce(items: seq<ProductItem>)
    ensures |Cards(items)| == |items|
    ensures forall i :: 0 <= i < |items| ==>
              && Cards(items)[i].merchant == items[i].merchant
              && Cards(items)[i].title == items[i].title
              && Cards(items)[i].altText == items[i].title
              && Cards(items)[i].priceLabel == items[i].formattedPrice
              && Cards(items)[i].href == items[i].link
              && Cards(items)[i].imageSrc == ImageSource(items[i])
    ensures forall i :: 0 <= i < |items| ==> (Cards(items)[i].bestDeal <==> BestDealIndex(items) == Some(i))
  {
    CardsFromElementwise(items, 0);
  }

  /** No offers, no badge; otherwise exactly one card carries it. */
  lemma BadgeCount(items: seq<ProductItem>)
    ensures items == [] ==> forall c :: c in Cards(items) ==> !c.bestDeal
    ensures items != [] ==> Cards(items)[0].bestDeal
    ensures forall i :: 0 < i < |Cards(items)| ==> !Cards(items)[i].bestDeal
  {
    CardsFromElementwise(items, 0);
  }

  /** On offers in the backend's ascending order the badge marks the cheapest offer. */
  lemma BestDealIsCheapest(items: seq<ProductItem>)
    requires SortedByPrice(items) && items != []
    ensures forall k :: 0 <= k < |items| ==> items[BestDealIndex(items).value].price <= items[k].price
  {
  }

  /**
   * On a response as the search builds it (offers ascending, every price
   * positive, statistics computed from the offers), the badge card, the
   * highlighted bar and the "Lowest Price" figure all show the same price.
   */
  lemma BestDealShowsLowestPrice(response: SearchResponse)
    requires SortedByPrice(response.items) && response.items != []
    requires forall k :: 0 <= k < |response.items| ==> response.items[k].price > 0.0
    requires response.stats == CalculateStats(response.items)
    ensures Cards(response.items)[0].bestDeal
    ensures response.items[0].price == response.stats.minPrice
    ensures ChartData(response.items)[0].price == response.stats.minPrice
  {
    StatsOfSortedOffers(response.items);
    CardsFromElementwise(response.items, 0);
    ChartDataIsLeadingOffers(response.items);
  }
}
