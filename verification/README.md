# Vehicle data dashboard: join and aggregation engine

This project models the in-memory engine of the dealership dashboard component
(`src/VehicleDataDashboard.jsx`). That engine:

- joins the loaded CSV tables into one denormalised view per vehicle (`getVehicleDetails`);
- counts vehicles, colour join rows and documents per resolved label (`getMakeStats`,
  `getFuelTypeStats`, `getTransmissionStats`, `getTrimStats`, `getColorStats`,
  `getDocumentStats`);
- ranks the ten most common models (`getModelStats`);
- sorts prices into five fixed ranges (`getPriceStats`);
- orders the inventory table by a header the user clicks (`sortData`, `requestSort`).

Modules, one per file:

- `Wrappers` (`wrappers.dfy`): `Option`. A JavaScript `undefined`, `null` or `NaN` is `None`.
- `Tables` (`tables.dfy`):
  - A row is a `map<string, string>`, and a missing column reads as `None`.
  - Each of the eleven tables is an `Option<seq<Row>>`, so a table can be absent.
  - Also here: `Array.prototype.find` (`FindIndex`, `Find`), the `?.name || "Unknown …"` label
    lookup (`Label`), and `filter` (`Filter`).
- `Numbers` (`numbers.dfy`):
  - `parseInt` and `parseFloat` as decimal prefix parsers that skip leading white space. NaN is `None`.
  - JavaScript `<` on strings as a lexicographic order (`LexLess`), proved to be a strict total order.
- `Ordering` (`ordering.dfy`): `[...s].sort(cmp)` as a stable insertion sort `SortBy` over a
  "comes before" relation, with its sortedness, stability and idempotence lemmas. The language requires
  `Array.prototype.sort` to be stable.
- `Join` (`join.dfy`): `getVehicleDetails` and the object spread that builds its result.
- `Grouping` (`grouping.dfy`):
  - The fold `acc[name] = (acc[name] || 0) + 1` is the method `Fold`, a loop over a `map`
    accumulator. `Object.entries` is `CountBy`, specified by the function `GroupCounts`.
  - `.sort((a, b) => b.count - a.count)` is `RankByCount`, and `.slice(0, n)` is `Take`.
- `Stats` (`stats.dfy`): the eight statistics. `getPriceStats` is a counting loop over the
  vehicles (`CountRanges`, `CountPrice`).
- `Inventory` (`inventory.dfy`):
  - The sort key and comparator (`SortKey`, `RowBefore`) and `sortData` (`SortData`).
  - The component state as the class `Dashboard`: the loaded tables and `sortConfig`, with
    `requestSort` as the method `RequestSort`.

The model follows the code in three places a reader might not expect:

- A price that does not parse fails every `<=` test in `getPriceStats`, so it is counted in "40k+".
  It is not excluded.
- The `sortData` comparator returns 0 whenever either value is NaN or `undefined`. It does not
  treat NaN as "always greater". Such a comparator is not a consistent order, so `SortData`
  promises sortedness only when every compared value is a string or a number (`AllComparable`).
  It promises a permutation in every case.
- `sortData` returns its input unchanged when the key is falsy, which includes the empty string
  as well as `null`.

## Model

| member | source | states |
|---|---|---|
| Tables.FindIndex | src/VehicleDataDashboard.jsx:144 | `find` returns the first row whose column equals the value, and no row when none does (both directions) |
| Tables.Find | src/VehicleDataDashboard.jsx:147-159 | `table?.find(...)` is undefined exactly when the table is absent or nothing matches; otherwise it is the first matching row |
| Tables.Label | src/VehicleDataDashboard.jsx:147-159 | the name of the first dimension row with the id, else the fixed fallback when the table is absent, the id is unresolved or the name is missing or empty; never empty when the fallback is not |
| Tables.Filter | src/VehicleDataDashboard.jsx:161-175 | `filter` keeps exactly the rows whose column equals the value, with their multiplicities, and keeps everything when every row matches |
| Tables.FilterAppend | src/VehicleDataDashboard.jsx:161-175 | filtering distributes over concatenation, so the kept rows stay in table order |
| Tables.FilterOne | src/VehicleDataDashboard.jsx:161-175 | a single row is kept exactly when its column holds the value |
| Numbers.LexLess | src/VehicleDataDashboard.jsx:122-125 | string `<` never holds between equal strings, and a proper prefix is `<` the longer string |
| Numbers.ParseInt | src/VehicleDataDashboard.jsx:98-99 | `parseInt` of a missing cell or of a string with no digits is NaN; a plain digit string parses to its decimal value |
| Numbers.ParseFloat | src/VehicleDataDashboard.jsx:102-107 | `parseFloat` of a missing cell or of a string with no digits is NaN; a plain digit string parses to its decimal value |
| Numbers.LexLessIrreflexive | src/VehicleDataDashboard.jsx:119-124 | no string is `<` itself |
| Numbers.LexLessAsymmetric | src/VehicleDataDashboard.jsx:119-124 | `a < b` excludes `b < a` |
| Numbers.LexLessTransitive | src/VehicleDataDashboard.jsx:119-124 | string `<` is transitive |
| Numbers.LexLessTotal | src/VehicleDataDashboard.jsx:119-124 | two distinct strings are ordered one way or the other |
| Numbers.LexNotLessTransitive | src/VehicleDataDashboard.jsx:119-124 | "not less than" is transitive on strings, which makes the string comparator a strict weak order |
| Numbers.TenThousand | src/VehicleDataDashboard.jsx:676-677 | `parseFloat("10000")` is exactly 10000 |
| Join.ResolveNames | src/VehicleDataDashboard.jsx:161-171 | the `.map(find?.name).filter(Boolean)` chain gives non-empty names, each resolved from some join row, no more names than rows, one per row when all resolve, and none without the dimension table |
| Join.ResolveNamesAppend | src/VehicleDataDashboard.jsx:161-171 | names are resolved row by row: those of a concatenation are those of each part, in join-table order |
| Join.ResolveNamesOne | src/VehicleDataDashboard.jsx:161-171 | one join row yields its name when that name is present and non-empty, and nothing otherwise |
| Join.JoinedNames | src/VehicleDataDashboard.jsx:161-171 | a vehicle's colours or features are names resolved from join rows with its `vehicle_id`, no more names than such rows, and none when either table is absent |
| Join.JoinedNamesAppend | src/VehicleDataDashboard.jsx:161-171 | a vehicle's names over a concatenated join table are those of each part, in order |
| Join.JoinedNamesOne | src/VehicleDataDashboard.jsx:161-171 | one join row contributes its resolved name exactly when its `vehicle_id` is the vehicle's |
| Join.DocumentsOf | src/VehicleDataDashboard.jsx:173-175 | the documents are exactly the document rows with this `vehicle_id`, with multiplicities, and none when the table is absent |
| Join.DocumentsOfAppend | src/VehicleDataDashboard.jsx:173-175 | a vehicle's documents over a concatenated table are those of each part, in table order |
| Join.GetVehicleDetails | src/VehicleDataDashboard.jsx:141-188 | null exactly when the vehicles table is absent or no row has the id; otherwise built from the first row with it, the five labels non-empty and resolved with their "Unknown …" fallbacks, colours, features and documents from the join tables |
| Join.Record | src/VehicleDataDashboard.jsx:177-187 | the spread keeps every vehicle column, and the eight synthesised fields overwrite columns of the same name |
| Ordering.Insert | src/VehicleDataDashboard.jsx:82 | inserting adds exactly one element and keeps the others |
| Ordering.SortBy | src/VehicleDataDashboard.jsx:82 | the sorted copy is a permutation of the input |
| Ordering.InsertSorted | src/VehicleDataDashboard.jsx:82 | under a strict weak order, inserting into a sorted sequence keeps it sorted |
| Ordering.SortBySortedWithin | src/VehicleDataDashboard.jsx:82 | under a strict weak order on a superset of the elements, the copy is sorted |
| Ordering.SortBySorted | src/VehicleDataDashboard.jsx:82 | under a strict weak order on its elements, the copy is sorted |
| Ordering.SortByKeepsSorted | src/VehicleDataDashboard.jsx:82 | under a strict weak order, sorting an already sorted sequence returns it unchanged |
| Ordering.WithKeyAppend | src/VehicleDataDashboard.jsx:82 | the elements with one key in a concatenation are those of each part, in order |
| Ordering.InsertKeepsKey | src/VehicleDataDashboard.jsx:82 | an element inserted past no element of its key lands ahead of those, the others keeping their order |
| Ordering.SortKeepsKey | src/VehicleDataDashboard.jsx:82 | under a strict weak order, the sort is stable: when no element goes before another with the same key, each key's elements keep their input order |
| Grouping.Dedup | src/VehicleDataDashboard.jsx:661 | the keys of the accumulator in first-encounter order are distinct and are exactly the labels that occur |
| Grouping.DedupFirstEncounter | src/VehicleDataDashboard.jsx:654-661 | the keys come in first-encounter order: of two keys, the earlier one occurs in the labels before any occurrence of the later |
| Grouping.FoldStep | src/VehicleDataDashboard.jsx:657 | one `acc[l] = (acc[l] \|\| 0) + 1` step keeps the accumulator equal to the counts of the labels seen so far |
| Grouping.DedupStep | src/VehicleDataDashboard.jsx:657 | a new label is appended to the key order, and a known one leaves it unchanged |
| Grouping.AccStep | src/VehicleDataDashboard.jsx:657 | the step adds one to the label's count (from 0 when absent) and leaves every other key alone |
| Grouping.SumStep | src/VehicleDataDashboard.jsx:657 | the step adds one to the sum of the counts |
| Grouping.SumOverAdd | src/VehicleDataDashboard.jsx:657 | one more occurrence of a label raises the sum over distinct keys by one exactly when the label is a key |
| Grouping.SumOverAppend | src/VehicleDataDashboard.jsx:657 | adding a key adds its count to the sum |
| Grouping.Fold | src/VehicleDataDashboard.jsx:654-659 | the reduce leaves one key per distinct label in first-encounter order, mapped to its number of occurrences, the counts summing to the number of rows |
| Grouping.TotalIsSumOver | src/VehicleDataDashboard.jsx:661 | the entries' counts add up to the accumulator's sum |
| Grouping.CountBy | src/VehicleDataDashboard.jsx:654-661 | the reduce plus `Object.entries` is `GroupCounts`: distinct names in first-encounter order, each with its occurrence count (at least 1), and the counts summing to the number of rows |
| Grouping.GroupCounts | src/VehicleDataDashboard.jsx:654-661 | the grouping is one entry per distinct label, in first-encounter order, counting its occurrences, the counts summing to the number of labels |
| Grouping.DedupCovers | src/VehicleDataDashboard.jsx:657 | every label occurrence is counted under exactly one key, so the counts over the distinct labels add up to the number of labels |
| Grouping.EntriesGroup | src/VehicleDataDashboard.jsx:661 | one entry per distinct label with its occurrence count forms a grouping of the labels |
| Grouping.TotalAppend | src/VehicleDataDashboard.jsx:717-720 | the total of a concatenation is the sum of the totals |
| Grouping.RemoveAtTotal | src/VehicleDataDashboard.jsx:717-720 | removing one entry lowers the total by its count |
| Grouping.RemoveAtLabels | src/VehicleDataDashboard.jsx:717-720 | removing one entry removes its name from the labels |
| Grouping.PermutationRest | src/VehicleDataDashboard.jsx:717-720 | removing the same entry from two permutations leaves permutations |
| Grouping.PermutationKeepsTotal | src/VehicleDataDashboard.jsx:717-720 | reordering entries keeps their total |
| Grouping.PermutationKeepsLabels | src/VehicleDataDashboard.jsx:717-720 | reordering entries keeps the multiset of their names |
| Grouping.PermutationKeepsCountsOf | src/VehicleDataDashboard.jsx:800-805 | a reordered grouping is still a grouping of the same labels |
| Grouping.RankByCount | src/VehicleDataDashboard.jsx:717-720 | the descending-count sort is a permutation with counts non-increasing |
| Grouping.ByCountDescIsWeakOrder | src/VehicleDataDashboard.jsx:719 | the descending-count comparator is a strict weak order, and entries with equal counts never go before one another |
| Grouping.RankKeepsTies | src/VehicleDataDashboard.jsx:717-720 | after ranking, entries with equal counts are in first-encounter order |
| Grouping.TakeKeepsTies | src/VehicleDataDashboard.jsx:720 | `slice(0, n)` keeps, for each count, a prefix of the entries with that count |
| Grouping.Take | src/VehicleDataDashboard.jsx:720 | `slice(0, n)` is a prefix of length min(n, length) |
| Grouping.PrefixOfDistinct | src/VehicleDataDashboard.jsx:720 | a slice of a grouping has distinct names, all taken from it |
| Grouping.PrefixHoldsLargest | src/VehicleDataDashboard.jsx:717-720 | in a ranked grouping, a name outside the first `n` occurs no more often than any name within them |
| Grouping.TopKeepsLargest | src/VehicleDataDashboard.jsx:717-720 | rank plus `slice(0, n)` yields min(n, groups) distinct entries of the grouping, non-increasing, and every name left out occurs no more often than any name kept |
| Stats.GroupLabels | src/VehicleDataDashboard.jsx:655-656 | each row is grouped under a non-empty label: its resolved name when that is present and non-empty, otherwise "Unknown"; always "Unknown" without the dimension table |
| Stats.CountByDimension | src/VehicleDataDashboard.jsx:651-662 | empty when either table is absent; otherwise a grouping of the rows by resolved name with "Unknown" as fallback, with non-empty names |
| Stats.MakeStats | src/VehicleDataDashboard.jsx:651-662 | empty without vehicles or makes; otherwise vehicles per resolved make, distinct names, counts at least 1 and summing to the number of vehicles |
| Stats.FuelTypeStats | src/VehicleDataDashboard.jsx:690-705 | the same for fuel types |
| Stats.TransmissionStats | src/VehicleDataDashboard.jsx:741-762 | the same for transmission types |
| Stats.TrimStats | src/VehicleDataDashboard.jsx:764-783 | the same for trims |
| Stats.ColorStats | src/VehicleDataDashboard.jsx:723-739 | the same over colour join rows, the counts summing to the number of `vehicleColors` rows |
| Stats.UnresolvedCountedAsUnknown | src/VehicleDataDashboard.jsx:655-658 | a row whose key does not resolve, or resolves to an empty name, is counted under "Unknown" |
| Stats.ModelStats | src/VehicleDataDashboard.jsx:707-721 | empty without vehicles or models; otherwise min(10, models) distinct (model, count) pairs of the grouping, non-increasing, equal counts in first-encounter order, no model left out counting more than one kept |
| Stats.DocumentStats | src/VehicleDataDashboard.jsx:785-808 | empty without the documents table; otherwise documents per type ("Unknown" for a missing or empty type), counts summing to the number of documents, non-increasing, equal counts in first-encounter order |
| Stats.DocumentLabels | src/VehicleDataDashboard.jsx:793 | each document is grouped under its non-empty `document_type`, otherwise "Unknown" |
| Stats.Bucket | src/VehicleDataDashboard.jsx:677-681 | a price falls in one of the five ranges, and in range `k` or an earlier one exactly when it is at most the k-th bound |
| Stats.BucketBounds | src/VehicleDataDashboard.jsx:676-681 | NaN is in "40k+"; 10000 is in "0-10k", 10000.01 in "10k-20k", 40000.01 in "40k+" |
| Stats.PriceCellExamples | src/VehicleDataDashboard.jsx:676-681 | the cell "10000" is in "0-10k"; an empty or non-numeric cell is in "40k+" |
| Stats.ChainPicksBucket | src/VehicleDataDashboard.jsx:677-681 | each branch of the `<=` chain picks the range `Bucket` names |
| Stats.PriceBuckets | src/VehicleDataDashboard.jsx:675-682 | one range per vehicle, in vehicle order: the range of its parsed `price`, one of the five |
| Stats.PriceBucketsStep | src/VehicleDataDashboard.jsx:675-682 | one more vehicle adds its range to the list |
| Stats.BucketsAddUp | src/VehicleDataDashboard.jsx:675-682 | the five range tallies add up to the number of vehicles |
| Stats.Tally | src/VehicleDataDashboard.jsx:677-681 | incrementing a range's counter keeps every counter equal to its tally |
| Stats.CountPrice | src/VehicleDataDashboard.jsx:676-681 | one iteration increments exactly the counter of the price's range |
| Stats.CountRanges | src/VehicleDataDashboard.jsx:675-682 | after the loop, counter `b` is the number of vehicles in range `b` |
| Stats.RangeEntries | src/VehicleDataDashboard.jsx:667-673 | the entries list the five ranges in their fixed order, each with its counter |
| Stats.RangeEntriesTotal | src/VehicleDataDashboard.jsx:684-687 | the entries' total is the sum of the five counters |
| Stats.PriceStats | src/VehicleDataDashboard.jsx:664-688 | empty without vehicles; otherwise exactly the five ranges in order, each counting its vehicles, the counts summing to the number of vehicles |
| Inventory.SortKey | src/VehicleDataDashboard.jsx:87-122 | year, price and mileage compare as numbers (or NaN), every other key as strings (or undefined) |
| Inventory.Less | src/VehicleDataDashboard.jsx:122-125 | `<` holds only between two values of one kind, neither NaN nor undefined, and never between equal values |
| Inventory.RowBefore | src/VehicleDataDashboard.jsx:82-129 | the comparator never moves a NaN or undefined value ahead of or behind anything, and never separates equal values |
| Inventory.DescendingMirrorsAscending | src/VehicleDataDashboard.jsx:122-127 | descending order puts `a` before `b` exactly when ascending order puts `b` before `a` |
| Inventory.LessIsWeakOrder | src/VehicleDataDashboard.jsx:124-129 | `<` between values of one kind, none NaN, is asymmetric, and "not less" is transitive |
| Inventory.RowBeforeIsWeakOrder | src/VehicleDataDashboard.jsx:82-129 | when no compared value is NaN or undefined, the comparator is a strict weak order in either direction |
| Inventory.SortData | src/VehicleDataDashboard.jsx:79-130 | unchanged input for a falsy key; otherwise a permutation, sorted by the key's value in the chosen direction when every value is comparable |
| Inventory.SortDataStable | src/VehicleDataDashboard.jsx:82 | when every compared value is a string or a number, the sort is stable: rows with equal values under the key keep their input order |
| Inventory.SortDataIdempotent | src/VehicleDataDashboard.jsx:79-130 | re-sorting the sorted inventory with the same configuration changes nothing, when a key is set provided every compared value is a string or a number |
| Inventory.InventoryCanSort | src/VehicleDataDashboard.jsx:259 | the table's call `sortData(data.vehicles \|\| [])` always resolves every row's id, so the comparator never dereferences null |
| Inventory.Dashboard.constructor | src/VehicleDataDashboard.jsx:32-37 | initially no table is loaded, the key is null and the direction ascending |
| Inventory.Dashboard.Load | src/VehicleDataDashboard.jsx:67 | loading replaces the tables and keeps the sort configuration |
| Inventory.Dashboard.RequestSort | src/VehicleDataDashboard.jsx:132-138 | the key becomes the clicked one; the direction flips when that key was already chosen and is ascending otherwise; the tables are unchanged |
| Inventory.Dashboard.InventoryRows | src/VehicleDataDashboard.jsx:259 | the rows listed are a permutation of the vehicles: in load order without a key, sorted by it when every value is comparable |

## Left out

- CSV loading (`loadCSVData`, `fetch`, Papa.parse, `useEffect`) is I/O in a foreign library. Its result is the `Dataset` passed to `Dashboard.Load`, and any of its eleven tables may be absent.
- Rendering is left out: the JSX tabs, the charts, the colour palette, the details modal and number or date formatting. So is all `console.log` and `console.error` output.
- The date orderings inside the documents tab (the latest document per type, the recent documents list) depend on the host's `Date` parsing and live in render code.
- The recent documents list (src/VehicleDataDashboard.jsx:616-617) sorts the loaded documents table in place while rendering. After that tab renders, the documents table is in issue-date order, which changes the tie order of `getDocumentStats` and the order of `documents` in `getVehicleDetails`. The model keeps every table in load order from `Dashboard.Load` on, because that mutation happens in render code.
- `src/index.js` (the error boundary and the React bootstrap) is not part of this model.
- Grouping.CountBy: entries are in first-encounter order. `Object.entries` lists integer-like keys (a make named "2020", say) first, in ascending numeric order, and the model does not reproduce this.
- Grouping.Fold: a label that names an `Object.prototype` member (`constructor`, `__proto__`) starts from an inherited value in the source's plain-object accumulator; the model starts every label from 0.
- Numbers.LexLess compares characters by code point. JavaScript compares UTF-16 code units, which differs only for characters outside the Basic Multilingual Plane.
- Numbers.ParseFloat uses exact rationals, not IEEE doubles, and does not accept "Infinity".
- Numbers.ParseInt does not accept the "0x" hexadecimal prefix, and returns an unbounded integer where JavaScript returns a double, which rounds digit strings past 2^53.
- Inventory.SortData: with NaN or undefined values the comparator is inconsistent, and the order the engine then produces depends on the engine's sort algorithm. The model sorts by stable insertion and promises only a permutation in that case.
- Inventory.SortData requires that, for a label key and two or more rows, every row's id resolves through `getVehicleDetails`. The source would otherwise throw on `null.make`; the only caller meets this requirement (`InventoryCanSort`).
- The statistics return `{make, count}`, `{type, count}`, `{model, count}`, `{range, count}` and `{name, value}` objects; all are modelled as `Entry(name, count)`.
