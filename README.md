# Project-loss dashboard: verified model of the CSV and chart logic

The dashboard script (`script.js`) downloads a CSV file of failed projects. It
parses the file into records and renders three charts and a table: losses per
project, yearly loss totals, and loss totals per industry. This project models
the parts of the script that compute something, and proves what they promise.

- **The CSV parser** `parseCsvData`:
  - The imperative method `CsvParser.ParseCsvData` keeps the source's loops, the `hasError` flag and the `break`.
  - It is proved equal to the pure specification `CsvParser.Parsed`.
  - The lemmas about `Parsed` state the parser's skip policy, where each record comes from, and what each column holds.
- **The JavaScript built-ins the parser relies on**, written out as functions: `trim`, `split` on one character, `substring`, `startsWith`/`endsWith`, `parseInt(…, 10)` and `parseFloat`.
- **The two `reduce` folds** inside `renderCharts`. They are one generic loop, `Aggregation.GroupLosses`, over the accumulator object. The object is modelled as its insertion-ordered key list and a map.
  - Year keys are sorted numerically.
  - Industry keys are read back in `Object.keys` order: array-index keys first, ascending, then the other keys in creation order.
  - Both are proved against reference definitions: per-key sums, first-appearance order, and a grand total.
- **The three chart slots.** A class `Charts.ChartRegistry` holds nullable references to `Charts.Chart` objects. Each chart counts its `destroy()` calls.
  - `DestroyExistingCharts` destroys each occupied slot once and clears all three slots.
  - `RenderCharts` fills the slots with charts whose labels and values are those of the folds.
- **The rows of `populateTable`**, as values. With no records there is one placeholder row. Otherwise there is one seven-cell row per record.

Numbers are exact: `parseInt` gives an `int` and `parseFloat` gives a `real`. `NaN` is `None`.

A record is a map from column name to `Field`:
- `IntVal` for `year` and `id`;
- `RealVal` for `estimatedLoss`;
- `Text` for every other column.

## Model

| member | source | states |
|---|---|---|
| JsString.TrimCharacterization | script.js:50 | `trim` returns an infix of its input that neither starts nor ends with white space, and only white space is cut on either side |
| JsString.TrimIdempotent | script.js:63 | trimming an already trimmed value changes nothing |
| JsString.SplitSpec | script.js:51 | no piece of `split(c)` contains `c`, and joining the pieces with `c` gives the input back |
| JsString.SplitJoin | script.js:55 | splitting a join of separator-free pieces gives the pieces back |
| JsString.Substring | script.js:90 | `substring` returns the slice between its indices, in either argument order |
| JsNumber.ParseIntFails | script.js:66-67 | `parseInt` is `NaN` exactly when, after white space and a sign, no digit follows |
| JsNumber.ParseIntShowInt | script.js:66 | `parseInt` reads back the decimal rendering of any integer, whatever non-digit text follows it |
| JsNumber.ParseFloatFails | script.js:73-74 | `parseFloat` is `NaN` exactly when, after white space and a sign, neither a digit nor a `.` followed by a digit comes next |
| JsNumber.ParseFloatExtendsParseInt | script.js:66-74 | whenever `parseInt` succeeds, so does `parseFloat`, on the same leading digits |
| CsvParser.StripQuotes | script.js:89-91 | a value of length at least 2 with a quote at both ends loses exactly those two characters; any other value, including a lone `"`, is kept as it is |
| CsvParser.ParseCsvData | script.js:49-103 | the imperative parser returns exactly `Parsed(csvText)`, with at most one record per data line |
| CsvParser.ParseLine | script.js:55-100 | the body of the outer loop keeps a line exactly when its field count matches and its record can be built, and then returns that record |
| CsvParser.ConvertValue | script.js:62-93 | one column's conversion fails exactly when a `year` or `estimatedLoss` value does not parse, and otherwise stores what the column's rule gives |
| CsvParser.ConvertRow | script.js:60-94 | the inner loop either reports an error exactly when building the line's record fails, or returns that record |
| CsvParser.BuildFailureSticks | script.js:67-70 | once a conversion has failed, the rest of the line cannot rescue the record |
| CsvParser.BuildFailsIff | script.js:61-78 | a record is dropped exactly when one of its conversions failed |
| CsvParser.BuildKeys | script.js:60-93 | a built record has exactly the column names as keys |
| CsvParser.BuildValues | script.js:62-93 | under each column name a built record holds the conversion of the last column carrying that name, so a repeated name keeps its last value |
| CsvParser.BuildWellTyped | script.js:62-93 | conversions of the right shapes build a well-typed record |
| CsvParser.SomesOrigins | script.js:95-97 | the kept records are the present outcomes, one each, at increasing positions |
| CsvParser.SomeIndicesComplete | script.js:95-97 | a position is kept exactly when its outcome is a record |
| CsvParser.SomesWellTyped | script.js:95-96 | keeping only some records keeps them well typed |
| CsvParser.HeadersOfFirstLine | script.js:50-51 | the headers are the comma-split pieces of the first line of the trimmed text, each trimmed |
| CsvParser.ConvertFieldCases | script.js:65-93 | a conversion fails exactly for a `year` that fails `parseInt` or an `estimatedLoss` that fails `parseFloat`; otherwise it stores an integer, real or text by column |
| CsvParser.RowDroppedIff | script.js:59-99 | a line is dropped exactly when its field count differs from the header count, or its `year` fails `parseInt`, or its `estimatedLoss` fails `parseFloat` |
| CsvParser.RecordFields | script.js:59-93 | a kept line has as many fields as there are headers and stores, per column, `parseInt` of the year, `parseFloat` of the loss, the parsed id or else the line index, or the trimmed text with one pair of quotes removed |
| CsvParser.ParsedOrigins | script.js:54-97 | record `k` comes from data line `SourceLines[k]`, never the header; the lines increase, and there are at most as many records as data lines |
| CsvParser.ParsedComplete | script.js:54-100 | every data line that yields a record is among the source lines, and no other line is |
| CsvParser.RowEntryWellTyped | script.js:62-93 | a record built from one line is well typed |
| CsvParser.ParsedWellTyped | script.js:62-93 | every parsed record holds integers under `year` and `id`, a real under `estimatedLoss` and text elsewhere |
| Aggregation.GroupLosses | script.js:161-166 | after the fold, the keys are listed in first-appearance order, each bucket equals the reference sum for its key, and a key without a bucket has sum 0 |
| Aggregation.FirstSeenMembers | script.js:162-164 | the bucket keys have no duplicates and are exactly the keys of the included records |
| Aggregation.FirstSeenOrder | script.js:196-199 | bucket keys come in order of first appearance: a record with a later key always comes after a record with each earlier key |
| Aggregation.SumTotalsSnoc | script.js:162-163 | one more record adds its loss to the buckets exactly when its key is among them |
| Aggregation.BucketsSumToTotal | script.js:161-166 | the buckets together hold the whole loss of the included records |
| Aggregation.SumTotalsEmpty | script.js:161 | before any record, every bucket sums to zero |
| Aggregation.SumOfBucketValues | script.js:175 | the values read off bucket by bucket sum to the buckets' total |
| Aggregation.YearSeries | script.js:161-175 | the years are strictly increasing and are exactly the non-zero years of records with a loss; each has its records' loss sum; the totals add up to all included loss |
| Aggregation.KeyPartition | script.js:206 | splitting keys into array-index and other keys loses and repeats nothing |
| Aggregation.ObjectKeysMembers | script.js:206 | `Object.keys` lists every key exactly once |
| Aggregation.ObjectKeysOrder | script.js:206 | `Object.keys` lists the array-index keys first, in ascending numeric order, then the other keys in creation order |
| Aggregation.IndustrySeries | script.js:195-209 | each non-empty industry of a record with a loss appears once, with the loss sum of the records carrying exactly that industry; the values add up to all included loss |
| Aggregation.NoIndustryNoBucket | script.js:196-197 | a record with an empty or missing industry changes no bucket and adds no key |
| Seqs.InsertBySpec | script.js:167 | inserting into a sorted duplicate-free list an element it lacks keeps it sorted and duplicate-free and adds just that element |
| Seqs.SortBySpec | script.js:167 | sorting with a numeric comparator keeps the elements and orders them by rank |
| Seqs.SortedIntsStrictlyIncrease | script.js:167 | distinct integers sorted by `a - b` are strictly increasing |
| Display.TextOf | script.js:245-251 | a value is shown only when it is present and truthy, non-empty text is shown as stored, and a missing column shows the fallback |
| Display.IntTextRoundTrip | script.js:247 | a non-zero integer is shown in decimal, and `parseInt` reads that text back as the same integer |
| Display.ParsedTextColumn | script.js:245-251 | on a parsed record, a text column shows its text, and the fallback appears only when the column is missing or empty (or holds the fallback's own text) |
| Charts.ProjectLabelParsed | script.js:136 | on a parsed record the bar label is the title, or `Untitled` when it is missing or empty, followed by the decimal year in parentheses, or `N/A` when the year is missing or 0 |
| Charts.LossOrZeroParsed | script.js:139 | on a parsed record the bar value is the stored loss when the record has one, and 0 otherwise |
| Charts.YearTextsRoundTrip | script.js:167-172 | every line-chart label reads back as its year, so distinct years give distinct labels |
| Charts.Chart.constructor | script.js:133-143 | a new chart holds the given type, labels and values and has never been destroyed |
| Charts.Chart.Destroy | script.js:111-113 | `destroy()` is counted once per call |
| Charts.ChartRegistry.constructor | script.js:106-108 | all three slots start empty |
| Charts.ChartRegistry.DestroyExistingCharts | script.js:110-117 | every chart that was in a slot is destroyed exactly once, an empty slot destroys nothing, other charts are untouched, and all slots end empty |
| Charts.ChartRegistry.RenderCharts | script.js:120-230 | the previous charts are destroyed once each. With no records the slots stay empty. Otherwise they hold fresh bar, line and pie charts of the records, the yearly totals and the industry totals |
| Charts.ChartRegistry.Install | script.js:133-203 | filling the emptied slots with three new charts keeps the registry's invariant |
| Charts.NewCharts | script.js:132-229 | the bar chart has one label and value per record in order; the line chart has the sorted years with their totals; the pie chart has the industries in `Object.keys` order with their totals |
| Table.RowOf | script.js:245-253 | a data row has seven cells: a text cell is N/A exactly when the value is missing or falsy and otherwise shows the value's text; the money cell shows the loss whenever there is one |
| Table.PopulateTable | script.js:238-255 | with no records there is exactly one placeholder row spanning all seven columns; otherwise one row per record, in record order; every row spans seven columns |
| Table.ParsedRowCells | script.js:245-253 | on a parsed record, a text cell shows the stored text, and is N/A exactly when the column is missing or empty; the year cell shows the decimal year unless it is 0, and the money cell shows the loss whenever the column exists |

## Left out

- The network fetch, the URL check and the startup sequence (script.js:1-47). These are asynchronous I/O.
  - `ParseCsvData` takes the downloaded text as a parameter.
  - `RenderCharts` and `PopulateTable` take the parsed records.
- All DOM work is left out: `getElementById`, `innerHTML` writes, `insertRow`, and `displayErrorMessage`/`clearErrorMessages` (script.js:259-310).
  - `PopulateTable` returns the rows it would insert.
  - The empty-data message of `renderCharts` is not modelled.
- `console.warn`/`console.log` messages are left out.
- Chart.js is left out. A chart keeps only its type, labels, data set and a count of `destroy()` calls. Colours, options and tooltip formatters are not modelled.
  - This also leaves out `Intl.NumberFormat`, the pie chart's `toFixed(1)` percentage, and `toLocaleString` in the money cell. `Money` keeps the amount unformatted.
- The `!lossData` test for a null argument is left out. The records are always a sequence here.
- JsNumber.ParseFloat: the `Infinity` prefix that JavaScript accepts is not modelled, because reals have no infinity. The model treats it as `NaN`, so a line whose loss is written `Infinity` is dropped although the script keeps it.
- JsNumber.ParseFloat: values are exact reals. Rounding to double precision and its overflow are not modelled.
- JsNumber.ParseInt: integers are unbounded. The loss of precision above 2^53, and the exponent notation `String` uses for very large numbers, are not modelled. So year labels are the plain decimal text.
- Strings are sequences of Unicode scalar values rather than UTF-16 code units. A character outside the Basic Multilingual Plane counts once here and twice in JavaScript. This matters only for `substring` positions and lengths.
- Column names that collide with `Object.prototype` members, such as `__proto__`, are not modelled. An object here is a plain map.
- Aggregation.IndustrySeries: industry values equal to the names of `Object.prototype` members are not modelled, since the accumulator here is a plain map. In JavaScript the `{}` accumulator inherits those members. For `__proto__`, the assignment of a number is ignored, so no key is created and `Object.keys` leaves it out. For names such as `constructor`, `toString`, `valueOf` or `hasOwnProperty`, `acc[k] || 0` reads the inherited function, so the bucket becomes a string rather than a sum.
- Display.TextOf: a non-integer number is not rendered as text, and its display falls back to the fallback text. On parsed records only `estimatedLoss` holds such a number, and the charts and table never show it as text.
- Aggregation.LossOf: the test `estimatedLoss != null` is read as "holds a number". On parsed records this is the same test, by `CsvParser.ParsedWellTyped`.
- Aggregation.YearOf: truthiness of `year` is read as "a non-zero integer". On parsed records this is the same test, by `CsvParser.ParsedWellTyped`.
- Aggregation.IndustryOf: non-textual values are not keys. They never occur on parsed records.
- The `'Unknown'` fallback for a missing industry (script.js:197) is unreachable. The guard before it already excludes records without an industry, so it has no counterpart in the model.
- `my-vue-app/` is not part of this model:
  - `src/library/auth.js` only forwards calls to the Supabase client.
  - `src/main.js` is an asynchronous router guard.
  - `src/router.js` and `src/supabaseClient.js` hold configuration only.
