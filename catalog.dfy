/**
 * The records that the price-search backend returns (its pydantic models)
 * and that the web page reads back out of the JSON body.
 * Prices are exact reals: the binary floating point of the source is not modelled.
 */
module Catalog {

  /** One merchant offer (`ProductItem`). */
  datatype ProductItem = ProductItem(
    title: string,
    price: real,
    formattedPrice: string,
    merchant: string,
    link: string,
    imageUrl: string)

  /** Summary statistics over the offers (`PriceStats`). */
  datatype PriceStats = PriceStats(
    minPrice: real,
    maxPrice: real,
    avgPrice: real,
    currency: string)

  /** The body of a successful `POST /api/search` (`SearchResponse`). */
  datatype SearchResponse = SearchResponse(
    query: string,
    stats: PriceStats,
    items: seq<ProductItem>,
    source: string)

  /** Ascending by price: what `list.sort(key=lambda x: x.price)` establishes. */
  predicate SortedByPrice(items: seq<ProductItem>)
  {
    forall i, j :: 0 <= i < j < |items| ==> items[i].price <= items[j].price
  }
}
