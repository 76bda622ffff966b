# Milk-price dashboard and forecast, modelled in Dafny

This project models the two data derivations of the milk-price dashboard.
Both take a flat list of price records `{ data: "dd-mm-yyyy", estado,
preco_leite_produtor }` and turn it into chart series:

* **The forecast** (`handlePredict` in `components/PredictiveAI.tsx`):
  1. The records with a positive price are grouped by calendar month under the key `YYYY-MM`, dated on the first of the month.
  2. Each month is averaged over all states, and the months are sorted chronologically.
  3. A projection follows. Month `i` after the last one is priced at the last average times `1.02^i`.
  4. A fixed five-factor importance list is attached, sorted by importance.
* **The dashboard** (the memoised computation in `components/MilkPriceDashboard.tsx`):
  1. The distinct list of state names, sorted, and the initially selected state.
  2. The latest record date, found by a max-reduce and written back as a zero-padded `dd-mm-yyyy` string.
  3. The KPIs: the national average on the latest date, the highest and lowest prices, and the number of records on the latest date.
  4. The price series of the selected state.
  5. The mean price per state and per year.

Modules, one per file:

* `Wrappers` holds `Option` and `Result`.
* `Text` models the JavaScript string operations the code relies on:
  * `split('-')` and `Number` on digit strings.
  * `String(n)` and `padStart(2, '0')`.
  * `trim()`, with the ECMAScript white-space set.
  * Code-point string order.
* `Calendar` covers dates as `(year, month, day)` triples, ordered lexicographically, which is the `getTime()` order for valid dates. It also has:
  * The parse/format of record date strings.
  * The month key `YYYY-MM`.
  * `setMonth` with year rollover and day spill-over.
  * The locale label, modelled as the injective value `MonthLabel(year, month)`.
* `Sorting` models the stable `Array.prototype.sort` as a stable insertion sort under "compare(a, b) <= 0". It also has the first-occurrence `new Set`.
* `Prices` covers the records, the "reported price" filter (`preco_leite_produtor > 0`) and sums and means. It also has the generic `forEach` pass that fills a `{ [key]: { sum, count } }` dictionary: the method `AccumulateBy`, proved against the functions `GroupKeys` and `GroupTable`.
* `Forecast` covers `handlePredict`:
  * The dictionary pass, as the method `AccumulateMonths`.
  * The projection loop, as the method `Project`.
  * The whole handler, as the method `HandlePredict`, proved equal to the function `Prediction`.
* `Dashboard` covers the memoised computation. The method `ComputeDashboard` is proved equal to the function `DashboardOf`.

Prices are `real`s. Inputs the code reads from outside become parameters:
* the record list (`rawMilkPriceData`);
* the number of months (`formData.months`);
* the selected state.

A dataset with no reported price makes `handlePredict` throw, because it reads a field of `undefined`. The model returns `Failure(NoHistoricalData)` instead.

## Model

| member | source | states |
|---|---|---|
| Text.Split | components/MilkPriceDashboard.tsx:20 | `split` gives at least one field; `JoinSplit` and `SplitConcat` state what the fields are |
| Text.JoinSplit | components/MilkPriceDashboard.tsx:20 | joining the fields of `split('-')` with `-` gives the string back, and no field contains `-` |
| Text.SplitConcat | components/MilkPriceDashboard.tsx:79 | splitting `a-b` where `a` has no dash gives `a` followed by the fields of `b` |
| Text.NatToStringValue | components/PredictiveAI.tsx:49 | `Number(String(n)) == n` for decimal digit strings |
| Text.Pad2 | components/MilkPriceDashboard.tsx:25 | `String(n).padStart(2, '0')` is a digit string of at least two characters whose value is `n` |
| Text.Trim | components/MilkPriceDashboard.tsx:14 | `s.trim()`; `TrimEmptyIffBlank` states when it is empty |
| Text.TrimEmptyIffBlank | components/MilkPriceDashboard.tsx:14 | `s.trim()` is empty exactly when every character of `s` is ECMAScript white space |
| Text.StrLeTotal | components/MilkPriceDashboard.tsx:14 | the default string order compares every pair |
| Text.StrLeTransitive | components/MilkPriceDashboard.tsx:92 | the string order is transitive |
| Text.StrLeAntisymmetric | components/MilkPriceDashboard.tsx:92 | two strings each at most the other are equal, so sorting distinct strings is strict |
| Calendar.DaysInMonth | components/MilkPriceDashboard.tsx:21 | every month has between 28 and 31 days |
| Calendar.ParseDate | components/MilkPriceDashboard.tsx:20 | the three fields of `split('-').map(Number)`, read as day, month and year, are naturals when they are digit strings; `ParseFormat` states the round trip |
| Calendar.FormatDate | components/MilkPriceDashboard.tsx:25 | the zero-padded `dd-mm-yyyy` string of a day; `ParseFormat` states that it reads back as that day |
| Calendar.ParseFormat | components/MilkPriceDashboard.tsx:19-25 | parsing the zero-padded `dd-mm-yyyy` of a day gives the same day back |
| Calendar.ParseDateMonth | components/PredictiveAI.tsx:47-48 | the month read from a date string is the parsed date moved to day 1 |
| Calendar.ParseMonth | components/PredictiveAI.tsx:47-48 | the month of a record is dated day 1 and its fields are naturals; `ParseDateMonth` relates it to `ParseDate` |
| Calendar.MonthKey | components/PredictiveAI.tsx:49 | the key `${year}-${MM}`; `MonthKeyRoundTrip` and `MonthKeyInjective` state that it names exactly one month |
| Calendar.MonthKeyRoundTrip | components/PredictiveAI.tsx:48-49 | the key `${year}-${MM}` reads back as the first day of that month |
| Calendar.MonthKeyInjective | components/PredictiveAI.tsx:49 | two days have the same month key exactly when they lie in the same month |
| Calendar.SetMonth | components/PredictiveAI.tsx:76 | `setMonth(m)` gives a month in 1..12 and carries whole years, so the new month is `m` months from January of the old year; a day the target month has is kept, and a later one spills over into the next month by the days the target month lacks |
| Calendar.SetMonthValid | components/PredictiveAI.tsx:76 | from any day 1..31, `setMonth` lands on a day its month has |
| Calendar.AddMonthsRollsOver | components/PredictiveAI.tsx:76 | 31 January 2024 moved one month on is 2 March 2024 |
| Calendar.AddMonths | components/PredictiveAI.tsx:75-76 | `newDate.setMonth(newDate.getMonth() + i)`; its properties are those of `SetMonth`, `AddNoMonths`, `AddMonthsStep` and `AddMonthsIncreasing` |
| Calendar.AddNoMonths | components/PredictiveAI.tsx:76 | moving a valid date zero months leaves it as it is |
| Calendar.AddMonthsStep | components/PredictiveAI.tsx:74-76 | for a day every month has (1..28), `n + 1` months on is the month after `n` months on, with rollover into the next year |
| Calendar.AddMonthsIncreasing | components/PredictiveAI.tsx:74-76 | more months on is strictly later |
| Calendar.MonthIndexOrder | components/PredictiveAI.tsx:75-76 | a date on an earlier month is earlier, whatever the days |
| Sorting.InsertBy | components/PredictiveAI.tsx:66 | inserting adds exactly the one element |
| Sorting.SortBy | components/PredictiveAI.tsx:66 | the sort is a permutation of its input |
| Sorting.InsertBySorted | components/PredictiveAI.tsx:66 | inserting into a sorted list under a total preorder keeps it sorted |
| Sorting.SortBySorted | components/PredictiveAI.tsx:66 | under a total preorder comparator the result is sorted |
| Sorting.PermutationDistinct | components/MilkPriceDashboard.tsx:14 | a rearrangement of a list without repeats has no repeats |
| Sorting.InsertByFront | components/PredictiveAI.tsx:98 | an element that no element may precede is inserted at the front |
| Sorting.SortByDescending | components/PredictiveAI.tsx:92-98 | sorting a list in which no element may precede a later one reverses it |
| Sorting.ReversedAt | components/PredictiveAI.tsx:92-98 | element `i` of the reversal is element `n - 1 - i` |
| Sorting.Dedup | components/MilkPriceDashboard.tsx:14 | `[...new Set(xs)]` has no repeats and holds exactly the elements of `xs` |
| Prices.PricesOf | components/MilkPriceDashboard.tsx:60 | every price filed under a key is positive |
| Prices.GroupKeys | components/MilkPriceDashboard.tsx:61-63 | `Object.keys` has no repeats and holds exactly the keys that carry a reported price |
| Prices.AccumulateBy | components/MilkPriceDashboard.tsx:58-67 | the `forEach` dictionary pass (for states here and for years at lines 76-86) ends with exactly the grouped keys in first-appearance order and, per key, the sum and count of its reported prices |
| Prices.FileRecord | components/MilkPriceDashboard.tsx:59-66 | the `forEach` callback appends the key of a reported record when it is new, adds the price and one to that key's entry (opening it at `{ 0, 0 }`), and leaves both unchanged for an unreported record |
| Prices.FiledEmpty | components/MilkPriceDashboard.tsx:58 | the empty dictionary is the pass over no records |
| Prices.FiledStep | components/MilkPriceDashboard.tsx:59-66 | one callback keeps the keys and the entries equal to the grouped keys and tallies of the records read so far |
| Prices.FiledAll | components/MilkPriceDashboard.tsx:58-67 | after every record the keys and the dictionary are the grouped keys and table of the whole list |
| Prices.TabulatesGroupTable | components/MilkPriceDashboard.tsx:58-67 | a table that holds exactly the keys with reported prices, each with its sum and count, is the grouped table |
| Prices.TabulatesStep | components/MilkPriceDashboard.tsx:60-65 | a reported record adds its price to its key's sum and one to its count, opening the key when new, and the table still holds exactly the tallies of the records read |
| Prices.TabulatesSkip | components/MilkPriceDashboard.tsx:60 | a record without a positive price leaves the table holding the tallies of the longer list |
| Prices.SumSnoc | components/MilkPriceDashboard.tsx:64 | adding a price to the running sum is the sum of the longer list |
| Prices.PricesSnoc | components/MilkPriceDashboard.tsx:60-65 | a new record adds its price to its own key only, and only when reported |
| Prices.KeysSnoc | components/MilkPriceDashboard.tsx:61-63 | a new reported record adds its key at the end when the key is new, and changes nothing otherwise |
| Prices.PricesOfWitness | components/MilkPriceDashboard.tsx:60-63 | a key has prices exactly when some reported record carries it |
| Prices.PricesOfSound | components/MilkPriceDashboard.tsx:33 | every filed price is the price of a reported record with that key |
| Prices.PricesOfComplete | components/MilkPriceDashboard.tsx:33 | every reported price is filed under its record's key |
| Prices.PricesOfCount | components/MilkPriceDashboard.tsx:28-29 | a key has one price per reported record carrying it |
| Prices.UnreportedIgnored | components/MilkPriceDashboard.tsx:60 | a record without a positive price changes no key's prices, wherever it stands |
| Prices.KeysUnreportedIgnored | components/MilkPriceDashboard.tsx:60-63 | a record without a positive price opens no key |
| Prices.KeysSameSuffix | components/MilkPriceDashboard.tsx:59-63 | two record lists with the same keys keep the same keys when the same records follow |
| Prices.KeysSnocCongruent | components/MilkPriceDashboard.tsx:59-63 | two record lists with the same keys keep the same keys after one more record |
| Prices.TableUnreportedIgnored | components/MilkPriceDashboard.tsx:58-67 | a record without a positive price changes no sum and no count |
| Prices.PricesOfTransfer | components/PredictiveAI.tsx:49 | two keyings that agree on every reported record file the same prices |
| Prices.SumBounds | components/MilkPriceDashboard.tsx:31 | a sum of `n` prices within `[lo, hi]` lies within `[n lo, n hi]` |
| Prices.MeanBounds | components/MilkPriceDashboard.tsx:31 | a mean lies between any bounds of its prices |
| Prices.SumPositive | components/MilkPriceDashboard.tsx:31 | a non-empty sum of positive prices is positive |
| Prices.MeanPositive | components/MilkPriceDashboard.tsx:31 | a mean of positive prices is positive |
| Forecast.AccumulateMonths | components/PredictiveAI.tsx:44-57 | the pass ends with the `YYYY-MM` keys in first-appearance order and, per month, the sum, the count and the first day of that month |
| Forecast.FileMonth | components/PredictiveAI.tsx:45-56 | the callback files a reported record under its month key, appending the key when new, opening the entry dated the first of that month, adding the price and one to the count; an unreported record changes nothing |
| Forecast.MonthFiledEmpty | components/PredictiveAI.tsx:44 | the empty dictionary is the pass over no records |
| Forecast.MonthFiledStep | components/PredictiveAI.tsx:45-56 | one callback keeps the keys and the entries equal to the grouped month keys and tallies of the records read so far |
| Forecast.MonthFiledAll | components/PredictiveAI.tsx:44-57 | after every record the keys and the dictionary are the month keys and table of the whole list |
| Forecast.MonthTabulatesStep | components/PredictiveAI.tsx:46-55 | a reported record adds its price and one to its month's entry, opened dated the first of the month when new |
| Forecast.MonthTabulatesSkip | components/PredictiveAI.tsx:46 | a record without a positive price leaves every month's entry as it is |
| Forecast.MonthTabulatesTable | components/PredictiveAI.tsx:44-57 | a dictionary holding exactly the months with reported prices, each with its sum, count and first day, is the month table |
| Forecast.History | components/PredictiveAI.tsx:59-66 | the historical series of a dataset; `HistoryPointIsMonthMean`, `HistoryCoversEveryMonth` and `HistoryStrictlyAscending` state its properties |
| Forecast.HistoricalData | components/PredictiveAI.tsx:59-66 | one point per month, each with a date and a historical price and with `predictedPrice` null |
| Forecast.Projection | components/PredictiveAI.tsx:73-86 | exactly `months` points (none for `months <= 0`) |
| Forecast.Project | components/PredictiveAI.tsx:73-86 | the loop pushes exactly the projection: point `i` is dated `lastDate + i` months and priced `lastPrice * 1.02^i` |
| Forecast.Prediction | components/PredictiveAI.tsx:59-103 | the forecast as a value; `HandlePredict`, `PredictionSeam`, `FailsIffNoReportedPrice` and `MarkerIsLatestMonth` state its properties |
| Forecast.Assemble | components/PredictiveAI.tsx:69-103 | history, projection, ranking and marker put together; `AssembleSeam` states the seam |
| Forecast.HandlePredict | components/PredictiveAI.tsx:43-104 | the handler's result is the forecast value: history, then projection, then the ranking and the marker, or the failure for an empty history |
| Forecast.UnreportedIgnoredByForecast | components/PredictiveAI.tsx:46-56 | records with a non-positive price change no month's sum or count and do not change the forecast |
| Forecast.MonthTableUnreportedIgnored | components/PredictiveAI.tsx:46-56 | a record without a positive price changes no month's sum, count or date |
| Forecast.FailsIffNoReportedPrice | components/PredictiveAI.tsx:69-71 | the forecast fails exactly when no record has a positive price |
| Forecast.KeyNamesItsMonth | components/PredictiveAI.tsx:48-52 | every dictionary key is the key of the first of a month that holds a reported record |
| Forecast.MonthPricesByKey | components/PredictiveAI.tsx:47-49 | filing by month key is filing by (year, month), whatever the day or state |
| Forecast.HistoricalPointsDistinctMonths | components/PredictiveAI.tsx:59-65 | no two points of the dictionary share a month |
| Forecast.HistoryPointIsMonthMean | components/PredictiveAI.tsx:47-63 | each historical point is dated day 1 of a month holding a reported record, carries that month's label, and its price is the mean of all reported prices of that month across days and states |
| Forecast.HistoryCoversEveryMonth | components/PredictiveAI.tsx:45-66 | every month holding a reported record has a historical point |
| Forecast.SortedDistinctDatesAscending | components/PredictiveAI.tsx:66 | points of distinct dates sorted by date are strictly ascending |
| Forecast.HistoryStrictlyAscending | components/PredictiveAI.tsx:59-66 | the historical series is strictly ascending by month |
| Forecast.ProjectionAt | components/PredictiveAI.tsx:74-85 | projected point `i` (from 0) is the point for month `i + 1` |
| Forecast.ProjectionPrice | components/PredictiveAI.tsx:74-84 | projected point `i` (from 0) is priced `lastPrice * Math.pow(1.02, i + 1)` and has no historical price |
| Forecast.ProjectionCompounds | components/PredictiveAI.tsx:79-84 | projected points carry no historical price; the first price is the last price times 1.02 and each later one is the previous times 1.02 |
| Forecast.CompoundStep | components/PredictiveAI.tsx:80 | `lastPrice * 1.02^(i+1)` is `lastPrice * 1.02^i` times 1.02 |
| Forecast.ProjectionFirst | components/PredictiveAI.tsx:74-80 | the first projected price is the last price times 1.02 |
| Forecast.FirstProjectedPrice | components/PredictiveAI.tsx:80 | `lastPrice * Math.pow(1.02, 1)` is `lastPrice * 1.02` |
| Forecast.ProjectionMonths | components/PredictiveAI.tsx:74-82 | projected point `i` is labelled `i` months after the last month, each the month after the one before, all after the last month |
| Forecast.ProjectionExample | components/PredictiveAI.tsx:74-85 | from 2.10 in February 2024, two months give 2.142 in March and 2.18484 in April 2024 |
| Forecast.PredictionSeam | components/PredictiveAI.tsx:69-103 | the forecast is the history followed by `max(months, 0)` projected points; historical points have only a historical price, projected ones only a projected price; the first projected price is the last average times 1.02; the marker is the last historical label |
| Forecast.AssembleSeam | components/PredictiveAI.tsx:69-103 | the same seam for any non-empty history whose points carry only historical prices |
| Forecast.ConcatSides | components/PredictiveAI.tsx:89 | in `[...historical, ...predicted]` the first part keeps the historical points and the rest the projected ones |
| Forecast.NoMonthsNoProjection | components/PredictiveAI.tsx:74 | with `months <= 0` the forecast is the history alone |
| Forecast.MarkerIsLatestMonth | components/PredictiveAI.tsx:69-103 | the marker is the label of the latest month that holds a reported record |
| Forecast.MarkerNamesLatestMonth | components/PredictiveAI.tsx:59-103 | a marker equal to the last historical label names the latest month that holds a reported record |
| Forecast.PredictionMarker | components/PredictiveAI.tsx:69-103 | a successful forecast has a history, and its marker is the label of the last historical point |
| Forecast.LastHistoryIsLatestMonth | components/PredictiveAI.tsx:59-69 | the last historical point is dated a month that holds a reported record, and no reported record lies in a later month |
| Forecast.EarlierOrSameTotal | components/PredictiveAI.tsx:66 | the date comparator is a total preorder |
| Forecast.ImportanceOrderTotal | components/PredictiveAI.tsx:98 | the importance comparator is a total preorder |
| Forecast.FeatureRanking | components/PredictiveAI.tsx:92-98 | the sorted factor list; `FeatureRankingSorted` and `FeatureRankingValue` state its properties |
| Forecast.FeatureRankingSorted | components/PredictiveAI.tsx:92-98 | the factor list is a permutation of the five factors, non-decreasing in importance |
| Forecast.FeatureRankingReversesFactors | components/PredictiveAI.tsx:92-98 | sorting the factors, written in decreasing importance, reverses them |
| Forecast.FeatureRankingValue | components/PredictiveAI.tsx:92-98 | the list is Exportações 5, Demanda Interna 10, Clima 15, Câmbio (Dólar) 25, Custo da Ração 45 |
| Forecast.ReversedFactors | components/PredictiveAI.tsx:92-97 | the factors reversed, element by element |
| Dashboard.NamedStatesMembers | components/MilkPriceDashboard.tsx:14 | the filtered names are exactly the state names that are non-empty after trimming |
| Dashboard.StrLeTotalPreorder | components/MilkPriceDashboard.tsx:14 | the default string order is a total preorder |
| Dashboard.AllStates | components/MilkPriceDashboard.tsx:14 | the state list; `AllStatesSpec` states its properties |
| Dashboard.AllStatesSpec | components/MilkPriceDashboard.tsx:14 | the state list holds exactly the states non-empty after trimming, each once, strictly ascending |
| Dashboard.InitialState | components/MilkPriceDashboard.tsx:15 | the initial state is empty exactly when no state has text, and otherwise the least listed state |
| Dashboard.LatestDate | components/MilkPriceDashboard.tsx:19-24 | the reduce gives a valid day no earlier than the epoch and no earlier than any record's day, which is the epoch or some record's day |
| Dashboard.LatestDateString | components/MilkPriceDashboard.tsx:24-25 | the latest day written zero-padded; `LatestDateRoundTrip` states that it reads back as that day |
| Dashboard.LatestDateRoundTrip | components/MilkPriceDashboard.tsx:24-25 | the latest-date string is a calendar date that reads back as the latest day |
| Dashboard.MaxOf | components/MilkPriceDashboard.tsx:34 | `Math.max` is an element of the list and no element exceeds it |
| Dashboard.MinOf | components/MilkPriceDashboard.tsx:35 | `Math.min` is an element of the list and no element is below it |
| Dashboard.KpisOf | components/MilkPriceDashboard.tsx:28-42 | the four KPIs; `KpisExtremes`, `KpisLatest` and `KpisAverageBetweenExtremes` state their properties |
| Dashboard.NationalAverage | components/MilkPriceDashboard.tsx:31 | the sum divided by the length, or by 1 when there is nothing to average; `KpisLatest` and `KpisAverageBetweenExtremes` state its properties |
| Dashboard.KpisExtremes | components/MilkPriceDashboard.tsx:33-35 | max and min are 0 when no price is reported, otherwise the greatest and least reported prices, attained, with 0 < min <= max |
| Dashboard.KpisLatest | components/MilkPriceDashboard.tsx:28-41 | `states` counts the reported records dated exactly the latest-date string, and the average is 0 exactly when there are none |
| Dashboard.KpisAverageBetweenExtremes | components/MilkPriceDashboard.tsx:31-35 | when records are counted, the average is their mean and lies between min and max |
| Dashboard.LatestPaddedCounted | components/MilkPriceDashboard.tsx:24-31 | a reported record on the latest day written zero-padded is counted, making the average positive |
| Dashboard.StateRecords | components/MilkPriceDashboard.tsx:45-46 | every record the filter keeps is a reported record of `rs` of the selected state |
| Dashboard.StateRecordsCount | components/MilkPriceDashboard.tsx:45-46 | the filter keeps a record once per position of `rs` holding it when it is a reported record of the selected state, and never otherwise |
| Dashboard.StateRecordsSpec | components/MilkPriceDashboard.tsx:45-46 | the filter keeps exactly the reported records of the selected state, one entry per record |
| Dashboard.Points | components/MilkPriceDashboard.tsx:47-54 | one chart point per record |
| Dashboard.PointsMembers | components/MilkPriceDashboard.tsx:47-54 | the points are exactly the points of the records |
| Dashboard.EvolutionData | components/MilkPriceDashboard.tsx:45-55 | the evolution series; `EvolutionSpec` and `EvolutionPointCount` state its properties |
| Dashboard.EvolutionSpec | components/MilkPriceDashboard.tsx:45-55 | the series is a rearrangement of the points of the filtered records (same multiset), has one point per reported record of the selected state, exactly those records' points, with days non-decreasing |
| Dashboard.PointsSnoc | components/MilkPriceDashboard.tsx:47-54 | mapping one more record appends its point |
| Dashboard.StatePointsCount | components/MilkPriceDashboard.tsx:45-54 | the mapped points hold each point once per reported record of the selected state whose point it is |
| Dashboard.EvolutionPointCount | components/MilkPriceDashboard.tsx:45-55 | the series holds each point exactly once per reported record of the selected state whose point it is |
| Dashboard.EvolutionSorted | components/MilkPriceDashboard.tsx:55 | the series is in non-decreasing order of day |
| Dashboard.EvolutionCount | components/MilkPriceDashboard.tsx:45-54 | the series has one point per reported record of the selected state |
| Dashboard.EvolutionMembers | components/MilkPriceDashboard.tsx:45-54 | every point is the point of a reported record of the selected state, and every such record has its point in the series |
| Dashboard.GroupTableCounts | components/MilkPriceDashboard.tsx:71 | every grouped key has a non-zero count, so the division is defined |
| Dashboard.GroupMeansSpec | components/MilkPriceDashboard.tsx:68-72 | any rearrangement of the means has one entry per key with a reported record, the mean of that key's reported prices |
| Dashboard.GroupMeansValues | components/MilkPriceDashboard.tsx:68-72 | every entry names a key with reported prices and carries their mean |
| Dashboard.GroupMeansDistinct | components/MilkPriceDashboard.tsx:68-72 | no two entries name the same key |
| Dashboard.GroupMeansCover | components/MilkPriceDashboard.tsx:68-72 | every key of a reported record has an entry |
| Dashboard.StateAverages | components/MilkPriceDashboard.tsx:68-73 | the state averages; `StateAveragesSpec` states their properties |
| Dashboard.StateAveragesSpec | components/MilkPriceDashboard.tsx:58-73 | one entry per state with a reported record, the mean of its reported prices, non-decreasing by mean |
| Dashboard.KeyNoLaterTotal | components/MilkPriceDashboard.tsx:92 | the year comparator is a total preorder |
| Dashboard.YearAverages | components/MilkPriceDashboard.tsx:87-92 | the year averages; `YearAveragesSpec` states their properties |
| Dashboard.YearAveragesSpec | components/MilkPriceDashboard.tsx:76-92 | one entry per distinct third date field of a reported record, that year's mean, strictly ascending by year string |
| Dashboard.YearFieldOfDate | components/MilkPriceDashboard.tsx:79 | for a record dated by a calendar day, the year key is the digit string of that day's year |
| Dashboard.ComputeDashboard | components/MilkPriceDashboard.tsx:17-100 | the memoised computation, with its two dictionary passes, gives the dashboard value |
| Dashboard.AveragesIgnoreUnreported | components/MilkPriceDashboard.tsx:58-86 | records without a positive price change neither the state nor the year averages |

## Left out

- React rendering, hooks, the charts and the tab and form plumbing are not modelled. The form fields `volume` and `season` do not affect the result.
- The 1500 ms delay and the `loading` flag of the forecast are not modelled. The handler is modelled as the synchronous computation after the delay.
- The text of `toLocaleDateString('pt-BR', …)` is a foreign locale call. Its label is the injective value `MonthLabel(year, month)`. The real label prints a two-digit year, so two months a century apart get the same text; the model keeps them apart.
- Prices are `real`s. IEEE-754 rounding of sums, means and `Math.pow` is not modelled. The `|| 0` on the last price only matters for `NaN`, which cannot arise from reals.
- The dashboard requires every record's date string to have first three `-` fields that are decimal digits naming a valid day (`AllDated`). The forecast requires every reported record's month and year fields to be digits naming a month, with a year from 100 to 275759 (`MonthsReadable`). The record list itself (`constants`) is not part of this model. Three things the `Date` constructor does with other strings are not modelled:
  - `NaN` from non-numeric fields.
  - Days or months in a date string that overflow into the next month (the overflow of `setMonth` is modelled).
  - The years 0 to 99, which it reads as 1900 to 1999.
- Dashboard.LatestDate: the seed `0` of the reduce is read as 1 January 1970. This is exact when local time is UTC. Time zones are not modelled.
- Sorting.SortBy: `Array.prototype.sort` is modelled by its observable contract, a stable sort, through an insertion sort. The engine's own algorithm is not modelled.
- Text.StrLe: the default `sort()` compares UTF-16 code units and `localeCompare` uses a locale collation. Both are modelled as code-point order. This agrees with both on digit strings (the year keys) and on the Basic Multilingual Plane for `sort()`.
- Prices.GroupKeys: `Object.keys` puts integer-like keys first, in numeric order. The model keeps insertion order. For the year keys the result is the same, because the `localeCompare` sort of distinct keys fixes their order. The state averages are sorted by mean with a stable sort, so ties keep key order. There the model can differ whenever an integer-like state name ties another state's mean: JavaScript lists the integer-like name first, and the model lists the state first seen first.
- Prices.AccumulateBy: a state or year named like an `Object.prototype` member (`constructor`, `toString`) makes `!statePriceData[key]` false in the source and ruins the entry. The model treats every name as a plain key.
- `Math.max(...xs)` and `Math.min(...xs)` on lists longer than the engine's argument limit are not modelled.
- services/geminiService.ts is not part of this model; it makes network calls to a foreign SDK. components/Login.tsx, Layout.tsx, Welcome.tsx, Dashboard.tsx, SupplierAnalysis.tsx, AgroProductsDashboard.tsx, App.tsx and types.ts are not part of this model either; they are view code or type declarations.
