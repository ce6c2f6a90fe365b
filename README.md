# Oil tenders dashboard — a Dafny model

The dashboard turns a list of tender offers into charts and tables. Offers
are untyped JSON records, and field names vary between data sources. Every
reading therefore goes through three pickers. Each picker tries an ordered
list of field names and takes the first field that qualifies:

- `pickString` takes a non-blank string.
- `pickNumber` takes a number that is not NaN, or a string that
  `parseNumeric` can read. `parseNumeric` accepts both `1.234,56` and
  `1,234.56` spellings.
- `pickDateISO` takes a string that contains a `dddd-dd-dd` run.

On top of the pickers, `inferStatus` classifies each offer as tendered,
active or awarded, and the filter predicate picks the offers to show.

Each aggregator is a loop over the filtered offers. The grouped views fill a
map and then sort and cut the result; the KPI cards, the funnel, the scatter
and the expiring list keep counters and lists instead. The aggregators are:

- the KPI cards and the funnel;
- the basin → delivery Sankey links;
- the basin map and the exports-by-basin bars;
- the daily time series;
- the by-product and by-country bars;
- the price/volume scatter;
- the company leaderboard;
- the list of offers closing soon.

Around these sit a few small components:

- the basin coordinate resolver, which uses a fixed table, then exact and
  case-insensitive lookup, then keyword rules;
- the preparation of the origin–destination Sankey's input;
- the product-label disambiguation and field updates of the filter panel;
- the leaderboard's column sort;
- the API status indicator;
- the navigation bar's active-link rule;
- the closing-day calendar.

## How the model is built

- A record is a `map<string, Value>`. `Value` distinguishes strings,
  numbers, NaN, booleans, `null` and anything else. A key that is absent
  stands for `undefined`.
- Numbers are mathematical reals.
- Each picker is a method with an early-return loop. It is proved equal to
  one generic specification function, `Offers.FirstOf`. The functions of
  the model use `FirstOf`.
- Each grouped view (Sankey links, basin map, exports by basin, series,
  products, countries, companies) is a method whose `for` loop keeps a
  `Groups.Sums` value equal to the grouping of the offers seen so far. The
  KPI, funnel, scatter and expiring methods keep counters and lists, each
  tied by its invariants to a specification function over the offers seen. `Groups.Sums` holds the
  keys in first-insertion order, as a JavaScript `Map` does, plus a total
  per key.
- Each method's `ensures` ties its result to a specification function such
  as `Country.CountryView`. The lemmas then state what the source promises
  about that function: totals, bounds, order, origin of each row, and
  defaults.
- `Array.prototype.sort` is a stable insertion sort (`Sorting.SortDesc`,
  `Sorting.SortAsc`), because ECMAScript sorts are stable.
- Several helpers are imported but not shown:
  - `convertVolume` becomes the parameter `conv`;
  - `shortenDeliveryName` and `shortenProductName` become `shorten`;
  - `shortCode` becomes `code`;
  - `getBasinGroup` becomes `basinGroup`.
- The current time is the parameter `now`.
- The random id fallback is `random`, a function from position to number.
- The calendar's date-fns day keys are `keyOf`, a function from cell index
  to key.

The rule order of `getBasinCoords` has a consequence that
`Basins.NeuquinaSubzonesUnreachable` states. Every name that mentions
"neuquina" also contains "neuqu", so the first keyword rule always wins. The
Río Negro, La Pampa and Mendoza rules therefore never fire. Those positions
are reachable only through exact or case-insensitive lookup
(`Basins.KeysResolve`).

## Model

| member | source | states |
|---|---|---|
| NumericParse.ParseNumericDefined | src/app/dashboard/page.tsx:25-43 | `parseNumeric` gives a number exactly when the input holds a decimal digit; "N/A" gives none, not 0 |
| NumericParse.ParseEuropean | src/app/dashboard/page.tsx:31-33 | a comma after the last dot is the decimal point and dots are thousands: `x.y,z` reads as the decimal `xy.z` |
| NumericParse.ParseUs | src/app/dashboard/page.tsx:34-36 | when the dot comes last, commas are dropped: `x,y.z` reads as `xy.z` |
| NumericParse.ParseDecimalComma | src/app/dashboard/page.tsx:31-33 | a lone comma is the decimal separator |
| NumericParse.ParseDecimalDot | src/app/dashboard/page.tsx:34-41 | a lone dot is the decimal separator |
| NumericParse.ParseNegative | src/app/dashboard/page.tsx:39-41 | a leading minus sign negates the value |
| NumericParse.ParseInteger | src/app/dashboard/page.tsx:39-41 | a plain digit string reads as its integer value |
| NumericExamples.ExampleEuropean | src/app/dashboard/page.tsx:31-33 | "1.234,56" reads as 1234.56 |
| NumericExamples.ExampleUs | src/app/dashboard/page.tsx:34-36 | "1,234.56" reads as 1234.56 |
| NumericExamples.ExampleComma | src/app/dashboard/page.tsx:31-33 | "1,5" reads as 1.5 |
| NumericExamples.ExampleNegative | src/app/dashboard/page.tsx:39-41 | "-12.5" reads as -12.5 |
| NumericExamples.ExampleInteger | src/app/dashboard/page.tsx:39-41 | "1234" reads as 1234 |
| NumericExamples.ExampleMissing | src/app/dashboard/page.tsx:39-40 | "N/A" reads as no number |
| Offers.PickString | src/app/dashboard/page.tsx:45-51 | the loop returns the generic first-qualifying-key pick with the non-blank-string test |
| Offers.PickNumber | src/app/dashboard/page.tsx:53-63 | the loop returns the generic pick with the number-or-numeric-string test |
| Offers.PickDateISO | src/app/dashboard/page.tsx:65-71 | the loop returns the generic pick with the date-pattern test |
| Offers.FirstOfEarliest | src/app/dashboard/page.tsx:45-71 | the pick is the value at the earliest qualifying key, and keys before it are skipped; nothing is picked exactly when no key qualifies |
| Offers.PickedTextUntrimmed | src/app/dashboard/page.tsx:48 | a picked string is some field's own untrimmed string, and its trim is not empty |
| Offers.AsNumberCases | src/app/dashboard/page.tsx:55-60 | NaN is rejected and numbers are taken as they are; a string qualifies exactly when it holds a digit; booleans, null and other values never qualify |
| Offers.PickedNumberEarliest | src/app/dashboard/page.tsx:54-56 | a number field after non-numeric fields is the one picked |
| Offers.PickedDateUnchanged | src/app/dashboard/page.tsx:68 | a picked date is a field's string, unchanged, that contains a `dddd-dd-dd` run |
| Offers.PickedDateLength | src/app/dashboard/page.tsx:68 | a picked date has at least ten characters |
| Fields.TextOrFallback | src/app/dashboard/page.tsx:166-168 | `pickString(...) \|\| fallback` yields the fallback when nothing is picked, and otherwise a string that is not blank |
| Fields.DeadlineEmpty | src/app/dashboard/page.tsx:221 | the deadline is empty exactly when no deadline field holds a date |
| Status.AwardTextWins | src/app/dashboard/page.tsx:75 | award text (contains "award", or is "adjudicada") makes the offer awarded, whatever the flag says |
| Status.ActiveTextBeatsFlag | src/app/dashboard/page.tsx:76-78 | open, active or ongoing text without award text makes the offer active, even when `awarded` is true |
| Status.SilentTextUsesFlag | src/app/dashboard/page.tsx:77-79 | when the text says neither, the offer is awarded exactly when `awarded === true`, and never active |
| Status.AwardedEqualityRedundant | src/app/dashboard/page.tsx:75 | the test for equality with "awarded" adds nothing, because that text already contains "award" |
| Status.ExampleAwardedUnflagged | src/app/dashboard/page.tsx:74-75 | status "Awarded" with `awarded: false` is awarded |
| Status.ExampleOpenFlagged | src/app/dashboard/page.tsx:76 | status "open" with `awarded: true` is active |
| Status.ExamplePaddedAdjudicada | src/app/dashboard/page.tsx:74-79 | " adjudicada" with a leading space is tendered, because the picked text is not trimmed |
| Filter.FilterPositions | src/app/dashboard/page.tsx:164-177 | `filtered` is the subsequence of the offers at exactly the positions whose offer matches |
| Filter.FilterMembership | src/app/dashboard/page.tsx:164-176 | an offer is kept exactly when it is among the offers and matches |
| Filter.NoFiltersKeepAll | src/app/dashboard/page.tsx:170-175 | with no filter set, every offer is kept, in order |
| Filter.FilterIdempotent | src/app/dashboard/page.tsx:164-177 | filtering twice with the same filter is filtering once |
| Filter.FilterAppend | src/app/dashboard/page.tsx:165 | filtering distributes over concatenation |
| Filter.UndatedFailsBounds | src/app/dashboard/page.tsx:169-174 | an offer without a usable date fails every `from` or `to` bound that is set |
| Filter.TimeSuffixAfterDay | src/app/dashboard/page.tsx:173-174 | bounds compare the whole raw date string, so "2024-05-01T10:00" is not `<=` "2024-05-01" |
| Filter.ProductCaseInsensitive | src/app/dashboard/page.tsx:160-172 | filter texts that differ only in case select the same offers |
| Kpis.ComputeKpis | src/app/dashboard/page.tsx:209-237 | the loop and the two divisions compute the KPI specification: converted volume sums, award ratio, mean price, active count |
| Kpis.AwardRateBounds | src/app/dashboard/page.tsx:231 | the award rate lies between 0 and 1, and it is 0 when no offer is shown |
| Kpis.RatioBounds | src/app/dashboard/page.tsx:231 | `n ? count / n : 0` with count ≤ n lies in [0, 1]; times n it gives back count; when n is 0 it is 0 |
| Kpis.ActiveBound | src/app/dashboard/page.tsx:228 | no more offers are open than there are offers |
| Kpis.MeanBounds | src/app/dashboard/page.tsx:232 | the mean of no values is 0, and otherwise lies between any bounds of the values |
| Kpis.AvgPriceBounds | src/app/dashboard/page.tsx:219-232 | the mean price lies between the lowest and highest extracted price |
| Kpis.PricesOfOffers | src/app/dashboard/page.tsx:229 | a price is averaged exactly when some offer has it |
| Kpis.NoAwardNoVolume | src/app/dashboard/page.tsx:224-226 | without an awarded offer, the awarded volume is zero |
| Kpis.CountBound | src/app/dashboard/page.tsx:226-228 | a counter never exceeds the number of offers |
| Kpis.CountZero | src/app/dashboard/page.tsx:226-228 | a counter is zero exactly when no offer satisfies its test |
| Kpis.Funnel | src/app/dashboard/page.tsx:348-364 | the loop computes the three funnel steps: all offers, open offers, awarded offers |
| Kpis.FunnelMatchesKpis | src/app/dashboard/page.tsx:348-364 | for the same clock reading, the funnel's first step is n, its open step is the KPI active count, and the award rate is awarded over n; both later steps are ≤ n |
| Groups.GroupKeys | src/app/dashboard/page.tsx:317-321 | a bucket exists for a key exactly when some offer has that key |
| Groups.GroupTotals | src/app/dashboard/page.tsx:320 | each bucket holds the sum of its offers' volumes |
| Groups.GroupSumsToTotal | src/app/dashboard/page.tsx:317-321 | before the cut, the bucket totals add up to the total volume |
| Groups.GroupValid | src/app/dashboard/page.tsx:316-321 | the keys are listed once each, in first-insertion order, and each has a total |
| Groups.SumBy | src/app/dashboard/page.tsx:316-321 | the `map.set(key, (map.get(key) \|\| 0) + vol)` loop computes the grouping specification |
| Sankey.SankeyLinks | src/app/dashboard/page.tsx:240-275 | the loop, the map over entries, the sort and the cut compute the Sankey specification |
| Sankey.SplitJoin | src/app/dashboard/page.tsx:256-269 | splitting `basin__delivery` gives back the pair when neither part holds "__" and the basin does not end in "_" |
| Sankey.SplitShiftsUnderscore | src/app/dashboard/page.tsx:256-269 | a basin ending in "_" loses it: "x_" with "y" splits into "x" and "_y" |
| Sankey.SplitDropsTail | src/app/dashboard/page.tsx:269 | a delivery name holding "__" is cut there: "a__b__c" splits into "a" and "b" |
| Sankey.KeyHasTarget | src/app/dashboard/page.tsx:256-269 | every key holds "__", so every link has a target |
| Sankey.LinkColor | src/app/dashboard/page.tsx:260-271 | the colour is always one of the palette colours: an unknown or empty basin group falls back to the "Otro" colour |
| Sankey.SankeyShape | src/app/dashboard/page.tsx:274 | exactly 40 links, or one per key when there are fewer, in non-increasing value order; no link left out is larger than one kept |
| Sankey.SankeyLinkSource | src/app/dashboard/page.tsx:268-272 | each link's ends come from the key of some offer, and its colour is from the palette |
| Sankey.SankeyLinkValue | src/app/dashboard/page.tsx:257-272 | each link carries the converted sum of the volumes under its key |
| Sankey.CleanOfferLinked | src/app/dashboard/page.tsx:242-273 | before the cut, an offer with a clean basin and delivery name has a link from exactly that basin to exactly that place |
| BasinMap.BasinMapData | src/app/dashboard/page.tsx:278-291 | both loops and the sort compute the basin-map specification |
| BasinMap.PushPoints | src/app/dashboard/page.tsx:285-289 | the second loop pushes one point per map entry, in entry order |
| BasinMap.BasinMapShape | src/app/dashboard/page.tsx:278-290 | every basin is drawn once, largest first, and the points are a permutation of the entries |
| BasinMap.BasinMapPointSource | src/app/dashboard/page.tsx:281-288 | each point is a basin some offer has, at that basin's resolved position or the default |
| BasinMap.BasinMapPointValue | src/app/dashboard/page.tsx:283-288 | each point carries the converted sum of its basin's volumes |
| BasinMap.BasinMapCovers | src/app/dashboard/page.tsx:280-289 | no offer's basin is missing from the map |
| BasinMap.KeyedBasinPlaced | src/app/dashboard/page.tsx:287 | a basin named exactly like a table key is drawn at that key's position |
| BasinMap.PlacedInTable | src/app/dashboard/page.tsx:287 | every point lies at a table position or at the default [-64.0, -40.5] |
| Series.BuildSeries | src/app/dashboard/page.tsx:293-313 | the loop, the sort and the conversion compute the series specification |
| Series.DayLength | src/app/dashboard/page.tsx:296 | a day key is empty or exactly ten characters long |
| Series.SeriesAscending | src/app/dashboard/page.tsx:305-306 | the points are in strictly ascending date order, so there is one point per day |
| Series.SeriesDays | src/app/dashboard/page.tsx:296-297 | a day has a point exactly when some filtered offer is dated on that day; undated offers are skipped |
| Series.SeriesTotals | src/app/dashboard/page.tsx:298-310 | each point holds the converted tendered and awarded totals of its day |
| Series.AwardedOnlyFromAwarded | src/app/dashboard/page.tsx:299-302 | only offers classified as awarded add to the awarded line |
| Series.EntriesDistinct | src/app/dashboard/page.tsx:294-305 | the map entries have pairwise different days |
| Views.ByProduct | src/app/dashboard/page.tsx:315-326 | the loop, the map, the sort and the cut compute the by-product specification |
| Views.ProductViewProps | src/app/dashboard/page.tsx:322-325 | exactly 12 rows, or one per product when there are fewer, largest first; no product left out is larger than one shown; all of them are shown when there are at most 12 |
| Views.ProductRowSource | src/app/dashboard/page.tsx:318-323 | each row is a product some offer has, with the converted sum of that product's volumes |
| Views.ProductTotals | src/app/dashboard/page.tsx:316-321 | before the cut, the product totals add up to the total volume |
| Views.ProductDefault | src/app/dashboard/page.tsx:318 | an offer without a product is counted under "Otro" |
| Views.ExportsByBasin | src/app/dashboard/page.tsx:378-389 | the loop, the map, the sort and the cut compute the exports-by-basin specification |
| Views.ExportsViewProps | src/app/dashboard/page.tsx:378-389 | exactly 12 bars, or one per basin when there are fewer, largest first; each bar is its basin's converted sum; before the cut the totals add up to the total volume |
| Views.BasinDefault | src/app/dashboard/page.tsx:381 | an offer without a basin is counted under "Desconocida" |
| Views.Companies | src/app/dashboard/page.tsx:391-410 | the loop, the rows, the sort and the cut compute the company specification |
| Views.CompanyViewProps | src/app/dashboard/page.tsx:409 | exactly 20 rows, or one per company when there are fewer, largest volume first; no company left out has more volume than one shown, and with at most 20 companies every one is shown |
| Views.CompanyTop | src/app/dashboard/page.tsx:409 | for distinct company keys, the sort and cut keep exactly 20 rows or all of them, largest volume first, one per company, none left out larger than one kept |
| Views.CompanyRowSource | src/app/dashboard/page.tsx:393-408 | each row is a company some offer names, with the converted sum of its volumes, its number of offers, and its unconverted volume over the total volume |
| Views.CompanyRowsSource | src/app/dashboard/page.tsx:393-408 | for any grouping key, a row before sorting is a key some offer has, with its converted volume sum, its offer count and its share of the total |
| Views.CompanyRowsMember | src/app/dashboard/page.tsx:403-408 | a row built from the buckets is a listed key with its bucket's converted volume, share and count |
| Views.CompanyViewRows | src/app/dashboard/page.tsx:409 | every row shown is one of the rows built before sorting and cutting |
| Views.CompanyBuckets | src/app/dashboard/page.tsx:398-401 | the volume and the offer-count entries list the same companies in the same order |
| Views.CompanyOffersTotal | src/app/dashboard/page.tsx:400 | before the cut, the offer counts add up to the number of filtered offers |
| Views.CompanySharesTotal | src/app/dashboard/page.tsx:397-406 | before the cut, the shares add up to 1 whenever the total volume is not zero |
| Views.CompanyRowsSums | src/app/dashboard/page.tsx:403-408 | one row per company in entry order; the row offers and shares add up to the count total and to volume total over `totalVol` |
| Country.ByCountry | src/app/dashboard/page.tsx:328-346 | the loop, the union of keys, the sort and the cut compute the by-country specification |
| Country.CountriesOfOffers | src/app/dashboard/page.tsx:338 | each country is listed once, and it is an offering or destination country of some offer |
| Country.OfferingCountriesFirst | src/app/dashboard/page.tsx:338 | offering countries come first, in first-appearance order |
| Country.CountryRowValues | src/app/dashboard/page.tsx:341-342 | `map.get(c) \|\| 0` is the sum of the volumes offered by, or sent to, that country |
| Country.CountryColumnsTotal | src/app/dashboard/page.tsx:335-338 | over the country list, each column adds up to the total volume |
| Country.CountryShape | src/app/dashboard/page.tsx:344-345 | exactly 12 rows, or one per country when there are fewer, non-increasing by combined volume; no country left out is larger than one kept |
| Country.CountryRowSource | src/app/dashboard/page.tsx:338-343 | each row shows a country that some offer names |
| Country.CountryRowTotals | src/app/dashboard/page.tsx:339-343 | each row holds both converted sums of its country |
| Country.DestinationDefault | src/app/dashboard/page.tsx:333 | an offer without a destination sends its volume to its own offering country |
| Lists.Scatter | src/app/dashboard/page.tsx:366-375 | the loop and the cut compute the scatter specification |
| Lists.ScatterMembers | src/app/dashboard/page.tsx:369-372 | a point is listed exactly when it is the point of an offer with both a price and a volume |
| Lists.ScatterAppend | src/app/dashboard/page.tsx:368-373 | points keep the offer order |
| Lists.ScatterShape | src/app/dashboard/page.tsx:374 | exactly the first 1000 points, or all of them when there are no more |
| Lists.Expiring | src/app/dashboard/page.tsx:412-426 | the loop, the sort and the cut compute the closing-soon specification |
| Lists.ItemsOfOffers | src/app/dashboard/page.tsx:415-423 | an item is listed exactly when it is the item of some offer with a deadline |
| Lists.ExpiringShape | src/app/dashboard/page.tsx:425 | exactly 10 items, or all of them when there are fewer, soonest deadline first, and the sort is a permutation; no item left out closes before one kept |
| Lists.ExpiringSource | src/app/dashboard/page.tsx:415-420 | each item comes from an offer with a deadline and closes on that deadline |
| Lists.DrawnOnlyWithoutIds | src/app/dashboard/page.tsx:418 | a random id is drawn exactly when `id` and `uuid` are both missing or null |
| Lists.CollectMembers | src/app/dashboard/page.tsx:368-373 | a push loop lists exactly the values that some offer gives |
| Sorting.SortDescProps | src/app/dashboard/page.tsx:324 | the descending sort is a permutation in non-increasing key order |
| Sorting.SortDescSorted | src/app/dashboard/page.tsx:324 | sorting a list already in order leaves it as it is, because the sort is stable |
| Sorting.SortAscProps | src/app/dashboard/page.tsx:306 | the ascending sort is a permutation in non-decreasing key order |
| Sorting.TakeTop | src/app/dashboard/page.tsx:325 | after `slice(0, n)` of a sorted list, no element left out has a larger key than one kept |
| Sorting.TopRows | src/app/dashboard/page.tsx:322-325 | sort and cut keep exactly n rows, or all when there are fewer, in order and from the input, and distinct names stay distinct |
| Basins.EmptyName | src/components/dashboard/charts/basins.ts:41 | an empty name has no coordinates |
| Basins.KeysResolve | src/components/dashboard/charts/basins.ts:43 | every table key, sub-zones included, resolves to its own coordinates |
| Basins.KeyIgnoringCase | src/components/dashboard/charts/basins.ts:44-47 | a name equal to a key ignoring case gets that key's coordinates |
| Basins.FoldedKeysDistinct | src/components/dashboard/charts/basins.ts:3-38 | no two table keys are equal ignoring case |
| Basins.Fallback | src/components/dashboard/charts/basins.ts:41-49 | a name that equals no key ignoring case goes to the keyword rules |
| Basins.NeuquinaRule | src/components/dashboard/charts/basins.ts:50-51 | any name mentioning "neuquina" goes to Neuquén (Medanito) |
| Basins.NeuquinaSubzonesUnreachable | src/components/dashboard/charts/basins.ts:52-57 | the keyword rules never give the Río Negro, La Pampa or Mendoza positions |
| Basins.GolfoBeforeAustral | src/components/dashboard/charts/basins.ts:58-59 | "golfo" or "san jorge" wins over every Austral rule |
| Basins.AustralRules | src/components/dashboard/charts/basins.ts:60-67 | the Austral rules apply in order: fuego with off, then santa cruz with or without off, then san sebastián |
| Basins.NoroesteRule | src/components/dashboard/charts/basins.ts:68-69 | "noroeste" or "salta", after the earlier rules, gives Noroeste – Salta |
| Basins.NoKeyword | src/components/dashboard/charts/basins.ts:70 | a name with none of the keywords has no position |
| Basins.ResultInTable | src/components/dashboard/charts/basins.ts:40-71 | every returned position is the position of some table entry |
| Basins.ChubutIsGolfoSanJorge | src/components/dashboard/charts/basins.ts:15-19 | the Chubut entry is the range midpoint [-68.5, -46], the same as Golfo San Jorge |
| OdSankey.NodeNamesProps | src/components/dashboard/charts/OriginDestinationSankey.tsx:23-25 | the node names have no repeats and are exactly the non-empty link ends |
| OdSankey.NodeNamesExtend | src/components/dashboard/charts/OriginDestinationSankey.tsx:23-25 | the node names are in order of first appearance: a longer list of links only appends names |
| OdSankey.IndexOf | src/components/dashboard/charts/OriginDestinationSankey.tsx:26 | `indexOf` gives the first position holding the name, or -1 when the name is absent |
| OdSankey.DrawnLinks | src/components/dashboard/charts/OriginDestinationSankey.tsx:29 | a link is kept exactly when both ends are non-empty and its value is positive |
| OdSankey.ILinksIndices | src/components/dashboard/charts/OriginDestinationSankey.tsx:27-31 | the last filter drops nothing; each kept link's indices are valid and name its ends, and it keeps its value |
| OdSankey.ChartTotal | src/components/dashboard/charts/OriginDestinationSankey.tsx:33 | the total is not negative, and it is positive once a link is drawn |
| OdSankey.FilterMembers | src/components/dashboard/charts/OriginDestinationSankey.tsx:24-31 | `filter` keeps exactly the elements its test accepts |
| FilterPanel.LabelCounts | src/components/dashboard/Filters.tsx:55-59 | `counts[s]` is the number of options whose short name is `s`, and `s` is a key exactly when some option has it |
| FilterPanel.ChoiceLabels | src/components/dashboard/Filters.tsx:60-66 | one choice per option, in order, valued by the raw name; a unique short name stands alone, a shared one gets its upper-cased code |
| FilterPanel.SharedShortName | src/components/dashboard/Filters.tsx:62 | two options with the same short name make its count at least 2 |
| FilterPanel.UniqueShortName | src/components/dashboard/Filters.tsx:62 | a short name no other option has counts 1 |
| FilterPanel.Selected | src/components/dashboard/Filters.tsx:47 | the empty choice stores "not set", and any other value is stored as it is |
| FilterPanel.SelectUpdates | src/components/dashboard/Filters.tsx:46-100 | a select sets only its own field, to "not set" for the empty choice |
| FilterPanel.DateUpdates | src/components/dashboard/Filters.tsx:115-128 | a date change replaces only its own bound |
| FilterPanel.ResetKeepsAll | src/components/dashboard/Filters.tsx:34-37 | after `reset` every offer passes the filter, in order |
| FilterPanel.ClearedProductMatches | src/components/dashboard/Filters.tsx:47 | clearing the product select drops the product condition and keeps the others |
| CompanyTable.SortedRowsProps | src/components/dashboard/Tables/TopCompaniesTable.tsx:14-16 | the table shows every row of a copy as often as given, non-increasing by the chosen numeric column |
| CompanyTable.DefaultByVolume | src/components/dashboard/Tables/TopCompaniesTable.tsx:13 | until a header is clicked, rows are ordered by volume |
| CompanyTable.DefaultKeepsLeaderboard | src/components/dashboard/Tables/TopCompaniesTable.tsx:13-16 | the dashboard's leaderboard is already ranked by volume, so the default sort shows it unchanged |
| ApiStatus.ClassifyCases | src/components/ApiStatus.tsx:41-53 | each indicator is shown for exactly its kind of text, tried in order; anything else is an error |
| ApiStatus.OkIgnoresCase | src/components/ApiStatus.tsx:42-44 | "OK", "Healthy" and "UP" read as OK |
| ApiStatus.DegradedExample | src/components/ApiStatus.tsx:46-47 | "Degraded" reads as degraded |
| ApiStatus.NoLetterNoMatch | src/components/ApiStatus.tsx:41-53 | a status whose lower-cased text is not an OK word and has neither "w" nor "g" is not degraded, and is shown as loading if it reads "loading" and as an error otherwise |
| ApiStatus.FixedStates | src/components/ApiStatus.tsx:14-52 | "error" and "" read as an error, and the initial "loading" reads as loading |
| ApiStatus.ReplyStatus | src/components/ApiStatus.tsx:24 | a reply's status is never empty: a missing or empty one becomes "ok" |
| ApiStatus.EmptyReplyIsOk | src/components/ApiStatus.tsx:24-44 | a reply with an empty or missing status shows OK |
| Navbar.ActiveFlags | src/components/Navbar.tsx:7-19 | one flag per link, in order, each set exactly when the active-path rule holds; what that means per link is stated by Navbar.HomeExact, Navbar.DashboardPrefix and Navbar.AtMostOneActive |
| Navbar.HomeExact | src/components/Navbar.tsx:19 | "/" is highlighted only on "/" |
| Navbar.DashboardPrefix | src/components/Navbar.tsx:19 | "/dashboard" is highlighted on every path that starts with it |
| Navbar.OwnPathActive | src/components/Navbar.tsx:19 | a link is highlighted on its own path |
| Navbar.AtMostOneActive | src/components/Navbar.tsx:7-19 | at most one link is highlighted, and none when there is no path |
| Navbar.PrefixNotSegment | src/components/Navbar.tsx:19 | the prefix test works on characters, so "/dashboards" highlights the dashboard link |
| Calendar.Cells | src/components/dashboard/charts/OffersCalendar.tsx:11-16 | exactly 35 cells; each holds its day's index and the count found for its key |
| Calendar.Level | src/components/dashboard/charts/OffersCalendar.tsx:18-23 | the shade step is 0 for zero, 1 for other counts below 3 (negatives included), 2 for counts below 6, and 3 for the rest |
| Calendar.ScaleByLevel | src/components/dashboard/charts/OffersCalendar.tsx:18-23 | the shade of a count is the shade of its step |
| Calendar.ZeroAndNegative | src/components/dashboard/charts/OffersCalendar.tsx:19-20 | zero is muted, and a negative count shares the palest green |
| Calendar.LevelMonotone | src/components/dashboard/charts/OffersCalendar.tsx:18-23 | more closings never give a paler shade |
| Calendar.FirstMatch | src/components/dashboard/charts/OffersCalendar.tsx:14-15 | a day's count is that of the first entry whose date begins with the day's key |
| Calendar.NoMatch | src/components/dashboard/charts/OffersCalendar.tsx:15 | a day that no entry matches counts 0 |
| Calendar.LaterEntriesIgnored | src/components/dashboard/charts/OffersCalendar.tsx:14 | entries after the first match are never read |

## Left out

- Fetching, the 30-second health polling, and filter persistence to the URL and local storage: these are network, timer and browser I/O.
- The filter option lists: they are sorted with `localeCompare`, which is locale collation.
- Floating point: volumes and prices are mathematical reals. NaN is an explicit tag only where a field is read. Also left out: `Math.sqrt` radii, `toFixed` and `toLocaleString` formatting, and the Sankey percent string.
- Calendar dates: date-fns builds the day keys from the start of the month, so the keys are a parameter `keyOf`. Rendering, tooltips and styling are not modelled.
- Case folding: `toLowerCase` covers ASCII and Latin-1 upper-case letters only. Other Unicode letters are left unchanged.
- Text.Upper: `toUpperCase` is modelled for ASCII and Latin-1 only. Letters whose upper case lies outside Latin-1 or is longer (ß, ÿ, µ) are left unchanged, as are all other Unicode letters.
- Text.Less, Text.Prefix: a string is a sequence of code points, while JavaScript's `<` and `slice` work on UTF-16 code units. The two agree below U+10000; above it the order and the 10-character day prefix can differ from the source.
- Basins.GetBasinCoords, Basins.NoKeyword, Basins.ResultInTable, BasinMap.PlacedInTable, Sankey.LinkColor, Sankey.SankeyLinkSource: the source looks names up in plain objects, so a name such as "constructor", "toString" or "__proto__" finds an inherited property of `Object.prototype`. The model's maps hold only the listed names, so its "unknown name" default, its "always a table position", and its "always a palette colour" do not hold for those names in the source.
- The helpers `convertVolume`, `shortenDeliveryName`, `shortenProductName`, `shortCode` and `getBasinGroup`: their bodies are not part of this model. They are parameters, and nothing is assumed about them.
- Lists.ExpiringShape: the source's comparator returns 1 on equal deadlines, so it is not a consistent order on ties. The model sorts stably, so the order among items with the same deadline is not the source's.
- CompanyTable.SortedRowsProps: the column choice leaves out "company". Sorting by that column subtracts strings, which gives NaN, so the resulting order is unspecified.
- OdSankey.DrawnLinks: a `null` link and a non-numeric `value` are not modelled. Links are typed records with a real value.
- Status.SilentTextUsesFlag: the flag is read whenever the text names neither award nor activity. That includes a non-empty but unrelated text, not only a missing one. The model follows the code here.
- Sankey.SplitJoin: the split round trip is stated only for names without "__" and basins not ending in "_". `Sankey.SplitShiftsUnderscore` and `Sankey.SplitDropsTail` show what happens otherwise.
- Navbar.PrefixNotSegment: this states the behaviour as written. Whether "/dashboards" ought to be highlighted is not claimed either way.
