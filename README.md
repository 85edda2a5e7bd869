# PriceSniffer, modelled in Dafny

PriceSniffer compares shop prices for a product. A visitor types a product name or uploads a photo. The FastAPI backend asks a shopping search for offers and turns the raw hits into a cleaned list sorted by price, plus lowest, highest and average price. The Next.js page shows a chart of the five leading offers and one card per offer, with a "Best Deal" badge on the first.

This project models the logic of that flow and proves its properties:

- `price.dfy` (`PriceParsing`): `clean_price`. It keeps only digits and dots, then parses a decimal; anything that does not parse costs 0.
- `stats.dfy` (`PriceStatistics`): `calculate_stats` over the positive prices.
- `cachekey.dfy` (`CacheKeys`): `generate_cache_key`, which means `"search:"` plus the query lower-cased and stripped.
- `search.dfy` (`ProductSearch`): the request validation of `search_products` and its cleaning loop. `CleanHits` is a method with the loop and its invariant. `SearchProducts` is the endpoint with the shopping search passed in as a function.
- `filtering.dfy` (`Filtering`): a generic filter-and-map with the positions it keeps. The cleaning loop is specified through it.
- `session.dfy` (`SearchSession`): the page's `query`/`loading`/`data` state as class `SearchPage`. `handleSearch` is split at its `await` into `BeginSearch` and `CompleteSearch`; the class also has the file handler, the reset callback and the choice of screen.
- `results.dfy` (`ResultsProjection`): what `ResultsView` derives from a response. That is the chart series, the bar colours, the cards, the image fallback and the badge.
- `catalog.dfy` and `wrappers.dfy`: the response records (`ProductItem`, `PriceStats`, `SearchResponse`), and `Option`/`Result`.

Prices are exact `real` numbers. After filtering, only digits and dots remain, so Python's `float()` succeeds exactly when the text has at least one digit and at most one dot (`"1."` and `".5"` parse, `"."` and `"1.2.3"` do not). `ParseDecimal` models this.

The Python `list.sort(key=...)` is stable. `SortByPrice` models it as an insertion sort. `StableSortIsUnique` proves that any arrangement that is sorted by price and keeps the order of equal-priced offers is this one, so the model pins down the sort's result exactly.

`handleSearch` can be started again while a request is pending. Nothing guards on `loading`, so a model with a single request in flight would claim more than the code does. The ghost field `inFlight` counts pending requests. The class invariant `Valid()` says that while `loading` holds, no result is held and some request is pending. The scenario methods use these facts:

- `OverlappingSearches`: a second submit sends a second request, and the first reply ends `loading` while the second request is still pending.
- `StaleReplyAfterReset`: a reply that arrives after "Search again" brings the results back.

Three behaviours of the code are easy to miss, and the model keeps them as written:

- `BeginSearch` has no guard on `loading`.
- `Reset` leaves `query` unchanged.
- A JSON error body is stored in `data` like a result. It is `Payload.OtherJson`, and the screen it yields is `Screen.BrokenResults`.

## Model

| member | source | states |
|---|---|---|
| PriceParsing.KeepPriceChars | backend/main.py:68 | the filtered text holds only digits and dots and is no longer than the input |
| PriceParsing.KeepPriceCharsKeepsNumeralChars | backend/main.py:68 | filtering keeps every dot, and keeps a digit if and only if the input had one |
| PriceParsing.KeepPriceCharsIdempotent | backend/main.py:68 | filtering an already filtered text changes nothing |
| PriceParsing.ParsePointed | backend/main.py:69 | `float` of `whole "." frac` with digits before the dot succeeds if and only if no second dot follows and some digit is present; never negative |
| PriceParsing.ParseDecimal | backend/main.py:69 | `float` of a digits-and-dots text succeeds if and only if it has a digit and at most one dot; the value is never negative |
| PriceParsing.CleanPrice | backend/main.py:66-71 | never fails and never returns a negative price; 0 when the filtered text is no number (a zero numeral such as `0.00` also gives 0), otherwise the parsed value of the filtered text |
| PriceParsing.CleanPriceOnlyReadsPriceChars | backend/main.py:68 | the price depends only on the input with every non-digit, non-dot character removed |
| PriceParsing.CleanPriceIgnoresNoise | backend/main.py:68 | inserting any character other than a digit or a dot anywhere leaves the price unchanged |
| PriceParsing.CleanPriceTwoDots | backend/main.py:67-71 | a text with two dots anywhere costs 0 |
| PriceParsing.CleanPriceNoDigit | backend/main.py:67-71 | a text with no digit, the empty text included, costs 0 |
| PriceParsing.CleanPriceOfWholeNumber | backend/main.py:66-69 | the decimal digits of a whole number parse back to that number |
| PriceParsing.CleanPriceOfDollarText | backend/main.py:66-69 | a price written `$D.CC` parses to exactly D + CC/100 (round trip from cents) |
| PriceStatistics.PositivePrices | backend/main.py:76 | the list is no longer than the offers, holds only positive prices, and holds every positive price of the offers (that it holds nothing else is `PositivePricesAreOfferPrices`) |
| PriceStatistics.PositivePricesAreOfferPrices | backend/main.py:76 | every listed price is the price of some offer |
| PriceStatistics.PositivePricesIsFilterMap | backend/main.py:76 | the comprehension equals the generic filter-and-map with the test "price > 0" and the projection to the price |
| PriceStatistics.PositivePricesOncePerOffer | backend/main.py:76 | one entry per offer with a positive price, in the offers' order: entry k is the price of the k-th such offer, so repeated prices are listed once per offer |
| PriceStatistics.MinOf | backend/main.py:80 | `min` returns a member of the list that no member is below |
| PriceStatistics.MaxOf | backend/main.py:81 | `max` returns a member of the list that no member is above |
| PriceStatistics.CalculateStats | backend/main.py:73-84 | currency is USD; all zero when no offer has a positive price; otherwise min and max are positive prices of some offer and bound every positive price, and the average times the number of positive prices is their sum |
| PriceStatistics.Sum | backend/main.py:82 | no contract of its own: `sum(prices)`, the left-to-right total; `MeanTimesCount` and `MeanIsDetermined` use it |
| PriceStatistics.Mean | backend/main.py:82 | no contract of its own: `sum(prices) / len(prices)` without the rounding; `MeanTimesCount` and `MeanIsDetermined` state what it is |
| PriceStatistics.MeanTimesCount | backend/main.py:82 | `sum(prices) / len(prices)` times `len(prices)` is `sum(prices)` |
| PriceStatistics.MeanIsDetermined | backend/main.py:82 | a value whose `len` multiples add up to the sum is the mean, so the average in the statistics is fixed |
| PriceStatistics.RepeatedPricesWeighTheAverage | backend/main.py:76-82 | offers priced 1, 1 and 4 average to 2: each offer's price counts once |
| PriceStatistics.MeanBetweenMinAndMax | backend/main.py:79-83 | the unrounded average lies between the minimum and the maximum |
| PriceStatistics.StatsOrdered | backend/main.py:73-84 | for every offer list, 0 <= min <= avg <= max, with avg the unrounded average |
| PriceStatistics.StatsOfSortedOffers | backend/main.py:151-152 | on the sorted, all-positive cleaned list, min is the first offer's price and max the last's |
| CacheKeys.Lower | backend/main.py:88 | lower-casing keeps the length and maps each character on its own |
| CacheKeys.Strip | backend/main.py:88 | no contract of its own: `str.strip()` as leading then trailing whitespace removal; `StripShape` and `StripIgnoresPadding` state what it keeps |
| CacheKeys.StripShape | backend/main.py:88 | `strip` keeps one slice of the text, removes only whitespace around it, and the slice has no whitespace at its ends |
| CacheKeys.StripIgnoresPadding | backend/main.py:88 | whitespace added around a text does not change what `strip` keeps |
| CacheKeys.CacheKey | backend/main.py:86-88 | every key starts with `search:` |
| CacheKeys.CacheKeyShape | backend/main.py:86-88 | after the prefix comes the lower-cased, stripped query: no upper-case letter and no whitespace at either end |
| CacheKeys.CacheKeyIgnoresCase | backend/main.py:86-88 | queries that differ only in letter case share a key |
| CacheKeys.CacheKeyIgnoresPadding | backend/main.py:86-88 | queries that differ only in surrounding whitespace share a key |
| ProductSearch.ResolveQuery | backend/main.py:96-102 | rejected with 400 "Please provide query." if and only if there is no file and the query is missing or empty; with a file the search runs for "iPhone 15", otherwise for the query itself |
| ProductSearch.ResponseLabel | backend/main.py:165 | no contract of its own: `final_query or "Unknown"`; `ResponseLabelIsResolvedQuery` states that after validation it is the query itself |
| ProductSearch.ResponseLabelIsResolvedQuery | backend/main.py:164-165 | after validation the `"Unknown"` fallback is never taken: the response echoes the query searched for |
| ProductSearch.ToItem | backend/main.py:139-149 | each offer keeps the raw price text as its formatted price, and its parsed price; a missing title or merchant becomes "Unknown", a missing link "#", a missing image the thumbnail and then "" |
| ProductSearch.PriceText | backend/main.py:139 | no contract of its own: `item.get("price", "0")`; `ToItem` states that the offer's price is `CleanPrice` of this text and that the text is kept as `formatted_price` |
| ProductSearch.Keeps | backend/main.py:140-141 | no contract of its own: `clean_price(p_str) > 0`; `KeptIsPositiveHitsInOrder` and `KeptPricesPositive` state its effect |
| ProductSearch.Kept | backend/main.py:137-149 | no contract of its own: the offers the loop appends; `KeptIsPositiveHitsInOrder` states they are exactly the kept hits, once each and in order, and `CleanHits` proves the loop builds this list |
| ProductSearch.KeptIsPositiveHitsInOrder | backend/main.py:137-149 | the cleaned list holds exactly the hits whose parsed price is positive, each once, in their original order |
| ProductSearch.KeptPricesPositive | backend/main.py:141 | every offer that survives cleaning has a positive price |
| ProductSearch.SortByPrice | backend/main.py:151 | the sorted list is ascending by price and a permutation of its input |
| ProductSearch.SortByPriceIsStable | backend/main.py:151 | offers with equal prices keep their relative order |
| ProductSearch.StableSortIsUnique | backend/main.py:151 | two lists sorted by price that keep the same order for each price are equal, so the stable sort's result is unique |
| ProductSearch.CleanHits | backend/main.py:137-151 | the loop yields the stable sort of exactly the positive-price hits; the result is ascending, a permutation of them, all positive |
| ProductSearch.SummaryOfCleanedOffers | backend/main.py:151-152 | statistics of sorted, positive offers put the lowest price on the first offer and the highest on the last |
| ProductSearch.BuildResponse | backend/main.py:137-169 | the response echoes the searched query and carries the stable sort of exactly the positive-price hits, their statistics and source "Google API"; its offers are ascending and positive, with min and max the first and last prices |
| ProductSearch.SearchProducts | backend/main.py:96-169 | the 400 error exactly when both query and file are missing; otherwise the response for the query searched: the cleaned, sorted offers, their statistics and source "Google API", ascending and positive with min and max the first and last offers' prices |
| SearchSession.Proceeds | frontend/app/page.tsx:18 | no contract of its own: the negation of `!query && !file`; `BuildForm` states it holds exactly when the form is non-empty, and `BeginSearch` that nothing changes when it fails |
| SearchSession.BuildForm | frontend/app/page.tsx:23-25 | the form has a file field if and only if a file was given, a query field if and only if the query is not empty, the file first when both are there, and is empty exactly when the guard would stop |
| SearchSession.SearchPage.constructor | frontend/app/page.tsx:11-13 | the page starts with an empty query, no spinner and no result |
| SearchSession.SearchPage.SetQuery | frontend/app/page.tsx:83 | typing changes only the query |
| SearchSession.SearchPage.BeginSearch | frontend/app/page.tsx:16-25 | with no query and no file nothing changes and nothing is sent; otherwise loading is set, the result cleared and the form built, also while another request is pending |
| SearchSession.SearchPage.CompleteSearch | frontend/app/page.tsx:27-38 | a parsed body becomes the result; a thrown failure raises one alert and leaves the result as it was, so none while loading; loading is off afterwards either way |
| SearchSession.SearchPage.HandleFileChange | frontend/app/page.tsx:41-45 | the first chosen file starts a search; an empty selection changes nothing |
| SearchSession.SearchPage.Reset | frontend/app/page.tsx:118 | the result is cleared; query, spinner and alerts are unchanged |
| SearchSession.SearchPage.CurrentScreen | frontend/app/page.tsx:57-118 | the search screen shows exactly when there is no result, with the spinner exactly while loading; a search response shows the results screen |
| SearchSession.OverlappingSearches | frontend/app/page.tsx:16-39 | two submits send two requests; the first reply shows its results without spinner while the second is pending |
| SearchSession.FailedSearch | frontend/app/page.tsx:27-38 | a failed search raises the alert once and leaves the search screen up, without spinner and with the query kept |
| SearchSession.SearchAgain | frontend/app/page.tsx:118 | "Search again" goes from the results back to the search screen and keeps the query |
| SearchSession.StaleReplyAfterReset | frontend/app/page.tsx:27-38 | a reply that arrives after "Search again" shows its results again |
| ResultsProjection.SliceIndex | frontend/components/ResultsView.tsx:7 | a `slice` argument becomes a position within the list: clamped, negative ones counted from the end |
| ResultsProjection.ToPointsElementwise | frontend/components/ResultsView.tsx:7-10 | mapping to chart points keeps the length and maps offer i to point i |
| ResultsProjection.Slice | frontend/components/ResultsView.tsx:7 | no contract of its own: `Array.prototype.slice(start, end)` from `SliceIndex`; `SliceFromStart` states that `slice(0, n)` is the prefix of length min(n, length) |
| ResultsProjection.SliceFromStart | frontend/components/ResultsView.tsx:7 | `slice(0, n)` is the prefix of length min(n, length), the whole list when it is shorter |
| ResultsProjection.ChartData | frontend/components/ResultsView.tsx:7-10 | no contract of its own: `slice(0, 5).map(...)`; `ChartDataIsLeadingOffers`, `ChartDataOfShortList` and `ChartOfSortedOffersAscends` state what it holds |
| ResultsProjection.ChartDataIsLeadingOffers | frontend/components/ResultsView.tsx:7-10 | the chart has min(5, number of offers) points, point i has exactly offer i's merchant and price, and no offers give no points |
| ResultsProjection.ChartDataOfShortList | frontend/components/ResultsView.tsx:7 | with at most five offers the chart shows all of them |
| ResultsProjection.ChartOfSortedOffersAscends | frontend/components/ResultsView.tsx:7-10 | on offers in ascending order the bars ascend and the first bar is the cheapest offer |
| ResultsProjection.CellFills | frontend/components/ResultsView.tsx:49-51 | no contract of its own: one `Cell` fill per chart entry by index; `OnlyFirstBarHighlighted` states the colours |
| ResultsProjection.OnlyFirstBarHighlighted | frontend/components/ResultsView.tsx:49-51 | one fill per bar; the highlight colour on bar 0 and the default colour on every other |
| ResultsProjection.ImageSource | frontend/components/ResultsView.tsx:64 | the image is the offer's image URL when it is not empty, otherwise the placeholder; never empty |
| ResultsProjection.BestDealIndex | frontend/components/ResultsView.tsx:69 | there is a best deal exactly when there are offers, and it is offer 0 |
| ResultsProjection.CardFor | frontend/components/ResultsView.tsx:62-72 | no contract of its own: the card of one offer at its index; `CardsRenderEachOfferOnce` states its fields |
| ResultsProjection.Cards | frontend/components/ResultsView.tsx:61-73 | no contract of its own: `data.items.map((item, idx) => ...)`; `CardsRenderEachOfferOnce` and `BadgeCount` state what it renders |
| ResultsProjection.CardsRenderEachOfferOnce | frontend/components/ResultsView.tsx:61-73 | one card per offer, in order, with that offer's merchant, title, alt text (the title), price text, link and image; the badge exactly on the best-deal index |
| ResultsProjection.BadgeCount | frontend/components/ResultsView.tsx:69 | no badge without offers; otherwise the badge on the first card and on no other |
| ResultsProjection.BestDealIsCheapest | frontend/components/ResultsView.tsx:69 | on offers in ascending order the badge marks an offer no other undercuts |
| ResultsProjection.BestDealShowsLowestPrice | frontend/components/ResultsView.tsx:7-69 | on a response built by the search, the badge card, the highlighted bar and the "Lowest Price" figure show the same price |

## Left out

- The Redis cache is not modelled: connecting, `get`/`setex`, the 3600-second lifetime and rebuilding a response from a cache hit (backend/main.py:35-42, 107-116, 155-162). It is external I/O. `SearchProducts` always behaves as on a cache miss, so its `source` is always "Google API". The rule that only a non-empty cleaned list is cached is not modelled either.
- The shopping search call is not modelled: `httpx`, the API key, the mapping of its failures to status 500, and the one-second pause for uploads. It becomes the function parameter `shopping` of `SearchProducts`.
- FastAPI, CORS, `load_dotenv` and the debug prints are server plumbing and are left out.
- `SearchProducts` sees only whether a file was uploaded, because the image is never analysed.
- PriceParsing.ParseDecimal: gives the exact decimal value, not the nearest binary64 float.
- PriceStatistics.CalculateStats: `avg_price` is the exact mean; the `round(..., 2)` is not modelled, because binary float rounding has no counterpart over reals. The rounded average of the code can fall outside [min, max] for prices finer than a cent: one offer at `$0.004` has min and max 0.004 but average `round(0.004, 2) == 0.0`. `StatsOrdered` and `MeanBetweenMinAndMax` hold for the exact mean only.
- PriceParsing.KeepPriceChars: treats only the ASCII digits `0`-`9` as digits. Python's `\d` and `float()` also accept other Unicode decimal digits.
- ProductSearch.PriceText: a price that is present but not a string is not modelled. In the source that makes `re.sub` raise `TypeError` and the price is 0. Likewise, JSON `null` values, which `dict.get` returns instead of the default, are not modelled. Each key of a hit is either a string or missing.
- CacheKeys.Lower: lower-cases only ASCII letters. Python's `str.lower` and `str.strip` act on all of Unicode; the model's whitespace set is the ASCII characters that `str.isspace` accepts.
- The frontend transport is reduced to parameters: `fetch`, `FormData`, `res.json()`, the API URL from the environment, and `alert`. The form is returned as a list of fields, the outcome of the exchange is an argument of `CompleteSearch`, and alerts are collected in a list.
- `SearchPage.data` holds either a search response or another JSON body. A falsy JSON body (`null`, `false`, `0`, `""`), which would keep the search screen up, is not modelled.
- The file input's click forwarding through `useRef` is left out. So are the `preventDefault` on submit, the JSX layout, the framer-motion animations and the recharts rendering.
- `ResultsView` rendering a JSON body that has no `items` throws in the browser. The model only names that screen (`BrokenResults`).
- `frontend/components/HowItWorks.tsx` is a decorative carousel on a timer, and `frontend/components/BentoGrid.tsx` is static content. Neither is part of this model.
- ProductSearch.SortByPrice: states the result of the in-place `list.sort`, not its algorithm (Timsort).
