# Jornal dashboard aggregation, modelled in Dafny

The dashboard compares the notices ("editais") published in 1992 with those
published in 2024. It loads two record lists, `data1992` and `data2024`, and
turns them into chart rows and summary figures through five helpers inside
the `JornalDashboard` component:

- `processMonthlyData` and its duplicate `processRadarData`: a twelve-slot
  histogram per year, keyed by `parseInt(mes_jrl) - 1`. Months that do not
  parse or fall outside 1..12 are skipped.
- `processCadernData`: counts per label `Cad ${cardern_jrl}`. It takes the
  union of both years' labels, ranks them by combined total with a stable
  sort and keeps eight.
- `processPageData`: counts per five-page range `Math.floor(pgn_jrl / 5) * 5`.
  It sorts the union of range starts ascending, keeps the first ten and labels
  each `start-(start+4)`.
- `getStats`: raw totals, the growth percentage guarded against an empty
  1992 list, the absolute growth, the records per day, and the number of
  distinct raw `cardern_jrl` values per year.

The model is split into modules:

- `Records`: one notice with its parsed month (`Option<int>`, where `None` is
  `NaN`), its raw category value (undefined, null, a string or an integral
  number) and its page. It also holds the template-literal rendering of the
  category.
- `Tally`: the counting loop that each helper runs with `forEach` over a
  dictionary. It is a method, `CountBy`, proved against the reference
  functions `Occurrences` (how often a key occurs) and `Dedup` (a JavaScript
  `Set` built from a list, in first-seen order). `PartitionSum` is the shared
  partition lemma.
- `Strings`: `String(n)` for integers and the `parseInt` that reads it back.
- `Monthly`, `Categories`, `Pages`, `Stats`: one module per helper.
  - The counting steps are methods. `Monthly.CountMonths` fills a
    twelve-element array. `Tally.CountBy` fills a map and records its key
    order.
  - The final `map`/`sort`/`slice` shaping is done by functions. Lemmas state
    what the chart rows mean.

The component state `data1992`/`data2024` becomes the two parameters of every
helper.

Notes on the page chart, as the code builds it:

- Pages are bucketed in ranges of five.
- The chart keeps the ten lowest range starts, not the ten ranges with the
  largest totals.
- A page is never skipped: a negative page falls into a negative range
  (`-3` goes to `-5`).
- A `null`, empty-string or boolean page is coerced to a number that floors
  into the range starting at 0, so such a record is counted in `0-4`. The
  model takes it as page 0.

## Model

| member | source | states |
|---|---|---|
| `Tally.CountBy` | src/App.jsx:70-79 | after one pass, the dictionary holds exactly the keys seen, each with its true number of occurrences (a missing key reads as 0), and its key order is the first-seen order |
| `Tally.Dedup` | src/App.jsx:81 | `new Set(...)` spread back into a list: no repeats, exactly the elements of the input, no longer than the input, and empty only for an empty input |
| `Tally.DedupAppend` | src/App.jsx:81 | a `Set` keeps first-insertion order: adding a new element puts it at the end, and adding a repeated one changes nothing |
| `Tally.Take` | src/App.jsx:87 | `.slice(0, n)` is a prefix of length `min(n, length)` |
| `Tally.PartitionSum` | src/App.jsx:70-79 | when the key list names every key once, the per-key counts add up to the number of records: none is lost or counted twice |
| `Strings.NatToString` | src/App.jsx:110 | rendering a natural number gives a non-empty string of decimal digits with no leading zero |
| `Strings.IntRoundTrip` | src/App.jsx:110 | `parseInt(String(n)) == n` for every integer, negative ones included, as JavaScript does for magnitudes below `1e21` |
| `Records.Render` | src/App.jsx:72 | `${cardern_jrl}`: a missing value reads `undefined`, null reads `null`, a string is itself, and a number renders to text that `parseInt` reads back as that number |
| `Monthly.MonthSlot` | src/App.jsx:49-50 | a record bumps a counter exactly when its month parses into 1..12, and then it bumps slot `month - 1` |
| `Monthly.CountMonths` | src/App.jsx:45-56 | the twelve counters end with, in slot `i`, the number of records whose month parses to `i + 1` |
| `Monthly.ProcessMonthlyData` | src/App.jsx:43-64 | exactly twelve rows, labelled Jan..Dez in order; each carries both years' true counts for its month and `diferenca = 2024 - 1992`, which may be negative |
| `Monthly.ProcessRadarData` | src/App.jsx:117-137 | the same twelve labels and the same per-month counts as `ProcessMonthlyData`, without the difference |
| `Monthly.MonthCountIsParsedMonth` | src/App.jsx:48-56 | slot `i` (for `i` in 0..11) counts exactly the records whose month parses to `i + 1` |
| `Monthly.MonthlyTotal` | src/App.jsx:48-56 | the twelve counts sum to at most the dataset length, with equality exactly when every record's month parses into 1..12 |
| `Categories.Label` | src/App.jsx:72 | the label is `Cad ` followed by the rendered category, so it is never an integer-like key |
| `Categories.SortByTotal` | src/App.jsx:87 | the sort returns a permutation ordered by total, largest first, and it is stable: for every total, the rows with that total keep their input order |
| `Categories.ProcessCadernData` | src/App.jsx:67-88 | the rows are the candidate rows, built from the counted dictionaries, ranked by total and cut to eight |
| `Categories.CandidatesCoverUnion` | src/App.jsx:81-86 | before truncation there is one row per label seen in either year, without repeats, and each count is 0 exactly when that year lacks the label |
| `Categories.CandidateColumnsSum` | src/App.jsx:70-79 | no record is dropped: before truncation each year's column adds up to that year's length |
| `Categories.MissingCategoryLabel` | src/App.jsx:72 | a record without `cardern_jrl` is grouped under `Cad undefined` |
| `Categories.TopCadernosRanked` | src/App.jsx:87 | at most eight rows, eight whenever there are that many labels; they are candidates, in non-increasing total, and no omitted label has a larger total than a kept one |
| `Categories.TopCadernosKeepTieOrder` | src/App.jsx:87 | ties keep their first-seen union order: for every total, the kept rows with that total are the first candidates with that total, in candidate order |
| `Pages.SortAscending` | src/App.jsx:104-105 | the sort returns a permutation in ascending numeric order, strictly ascending when the keys are distinct |
| `Pages.ProcessPageData` | src/App.jsx:91-114 | the rows are those of the ten lowest range starts, each labelled and counted from the dictionaries |
| `Pages.RangeStart` | src/App.jsx:96 | a page's range start is a multiple of five, and the range `[start, start+4]` covers that page |
| `Pages.RangeStartUnique` | src/App.jsx:96 | exactly one multiple-of-five range `[start, start+4]` holds a page, so each record lands in one bucket |
| `Pages.RangeLabel` | src/App.jsx:110 | the label is the start, a `-`, then the end: each part reads back with `parseInt` as `start` and `start + 4` |
| `Pages.RangeLabelParsesStart` | src/App.jsx:110 | the key parsed back inside the label is the range start, so the label reads `start-(start+4)` |
| `Pages.PagePartition` | src/App.jsx:93-102 | before truncation, each year's per-range counts add up to that year's length |
| `Pages.ShownStartsLowest` | src/App.jsx:104-106 | at most ten starts, ten whenever that many were seen; strictly ascending, each observed in some year, and every omitted start is above every shown one |
| `Pages.PageRowsFaithful` | src/App.jsx:108-113 | each row has its start's label, and each count is positive exactly when that year has a record in the range |
| `Pages.PageRowsEmpty` | src/App.jsx:91-114 | the page chart is empty exactly when both datasets are empty |
| `Stats.Growth` | src/App.jsx:140-142 | the growth is 0 with no 1992 record, never a division by zero. Otherwise growth times `total1992` equals `100 * (total2024 - total1992)`, and its sign is that of the difference |
| `Stats.GetStats` | src/App.jsx:139-154 | totals are the raw lengths, `crescimentoAbs = total2024 - total1992`, and growth is guarded. `mediaDia` times 365 gives the total. Each distinct-category count is the number of distinct raw `cardern_jrl` values of its year, at most its total and 0 only for an empty dataset |
| `Stats.DistinctCats` | src/App.jsx:151-152 | `new Set(...).size` is the size of the set of raw `cardern_jrl` values: at most one per record, and 0 only for an empty dataset |
| `Stats.LabelsAtMostDistinctCats` | src/App.jsx:151-152 | distinct raw `cardern_jrl` values are never fewer than the distinct `Cad ...` labels |
| `Stats.RawCatsCanOutnumberLabels` | src/App.jsx:151-152 | the two counts can differ: the number 1 and the string "1" are two raw values with one label |

## Left out

- Fetching (`fetchData`, src/App.jsx:17-40) is network I/O with React state setters. The model receives both datasets as parameters.
- All rendering is left out: JSX, `CustomTooltip`, and the recharts and lucide components (src/App.jsx:156-438).
- `toFixed(1)` is not modelled. Growth and records per day are exact rationals (`real`), without rounding or string conversion.
- Months are not parsed here: `mes_jrl` arrives already parsed by the lenient `parseInt` (`"3abc"` gives 3), with `None` for `NaN`.
- `pgn_jrl` is the integer the division coerces it to: `null`, `""`, `false` and `true` all land in the range starting at 0 and are taken as page 0, and a numeric string as its number. An `undefined` or non-numeric string page (a `NaN` bucket, which breaks the `a - b` comparator) is not modelled. Neither is a fractional page.
- Strings.IntRoundTrip: holds for every integer, but JavaScript's `String` switches to exponent notation from `1e21` on (`"1e+21"`, which `parseInt` reads as 1). The model renders every range start and numeric category in plain digits, so pages or category numbers of that size are not modelled.
- Category values are undefined, null, strings or integral numbers. Other JSON values (booleans, fractions, objects) are not modelled, and neither is exponent notation for very large numbers (see the line above).
- Key order of a JavaScript object is kept in first-insertion order. `Object.keys` lists array-index keys (the non-negative page starts below `2^32 - 1`) first, in ascending order, and the other keys (negative starts among them) after them in insertion order. This has no effect, because the page starts are re-sorted. Category labels always start with `Cad ` (`Categories.Label`), so they are never array-index keys.
- Counts are unbounded naturals. JavaScript numbers are doubles, which is exact far beyond any dataset size.
