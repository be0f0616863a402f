# Timesheet: a verified model of its reporting and bookkeeping core

The timesheet application records activities: a project, an employee, a `YYYY-MM-DD` date and a
number of hours. The application has two halves:

- An Express server stores the activities. It validates new ones, and it answers
  `/api/activities/aggregate?keys=...&dateBucket=...` with a hierarchical report. The report has
  `group`, `leaf` and `subtotal` rows per dimension value, and it is closed by one `grandTotal`
  row.
- An Angular client does three things:
  - It turns the fetched activities into table entries with numeric ids.
  - It builds a flat, one- or two-level summary table from them.
  - It exports that table as CSV or as a one-page PDF.

  A pair of selectors chooses the grouping, and those selectors are kept in step with the
  page's `group1` / `group2` query parameters.

This project models that core in Dafny and proves its properties. There are one or more modules
per source file:

| module | file | what it holds |
|---|---|---|
| `GroupKeys` | `api/src/aggregation/aggregate.ts`, `web/src/app/model/model.ts` | the three dimensions `project`, `employee`, `date` |
| `Aggregate`, `AggregateDates`, `AggregateTree`, `AggregateFlatten` | `api/src/aggregation/aggregate.ts` | `bucketDate`; the tree-building loop as a method over a path-copying tree value; `dfs` as a recursive method appending to the row list; the invariants and lemmas about them |
| `ActivitiesRoute` | `api/src/routes/activities.ts` | the key-list parser, the body and group-spec validators, the two handlers without their database calls |
| `ViewModel` | `web/src/app/utils/aggregations.ts` | `buildViewModel`: the accessors, the bucketing loop, the row construction and the stable sort |
| `TimesheetPage`, `TimesheetCsv`, `TimesheetPdf` | `web/src/app/pages/timesheet/timesheet.component.ts` | cell formatting, `distinctNamedEntities`, `resolveEntityName`; CSV escaping and building with a reader that un-escapes it; PDF escaping, assembly of the text stream, object offsets, cross-reference table and trailer |
| `GroupFilters` | `web/src/app/components/group-filters/group-filters.component.ts` | the component as a class with its fields. Emits and navigations go to an event log |
| `TimesheetService` | `web/src/app/service/timesheet.service.ts` | the id allocator as a class with the two name→id tables and their counters |
| `Model`, `Common`, `Text`, `Sorting` | `web/src/app/model/model.ts` and shared helpers | datatypes; `Option`; decimal printing, `padStart`, `split`/`join`; a stable insertion sort under an abstract total preorder |

Some things are parameters of the model:

- The collations (`localeCompare` with the Italian locale) are a comparator `le`. Where sorting
  matters, `le` is required to be a total preorder.
- `toRomeDay` (time-zone formatting) is a function parameter `romeDay`.
- `String(n)` on hours is a function parameter `num`.
- `Number(choice)` is a function parameter `number`.

Hours are `real`. Every sum is proved as exact arithmetic.

Four behaviours of the source are reproduced exactly as written:

- Bucketing is applied to every record, whether or not `date` is a key.
- The top-level groups of the report come in order of first appearance, and only deeper levels
  are sorted.
- With no keys the report is the grand-total row alone.
- A named object's explicit id is cached even when another name already holds that id.

## Model

| member | source | states |
|---|---|---|
| GroupKeys.Parse | api/src/aggregation/aggregate.ts:3 | a text is accepted exactly when it is one of the three key names, and the key returned is spelled as that text |
| GroupKeys.ParseName | api/src/aggregation/aggregate.ts:3 | parsing the name of a key gives the key back |
| Aggregate.DaysInMonth | api/src/aggregation/aggregate.ts:42-44 | every month of the proleptic Gregorian calendar `Date.UTC` follows has 28 to 31 days |
| Aggregate.FindChild | api/src/aggregation/aggregate.ts:70 | finds the child holding a value, or reports that no child holds it |
| Aggregate.LeafRows | api/src/aggregation/aggregate.ts:89-96 | one leaf row per stored record, in `leaves` order |
| Aggregate.SortedChildren | api/src/aggregation/aggregate.ts:98 | the children visited below the top level are a permutation of the node's children |
| Aggregate.Dfs | api/src/aggregation/aggregate.ts:85-103 | `dfs` appends to the shared rows exactly the rows of the node's subtree: group row, middle rows, subtotal row |
| Aggregate.PushLeaves | api/src/aggregation/aggregate.ts:90-96 | the leaf loop appends one leaf row per record of the node |
| Aggregate.DfsChildren | api/src/aggregation/aggregate.ts:98-100 | the child loop appends the subtrees' rows child after child |
| Aggregate.Build | api/src/aggregation/aggregate.ts:59-81 | the record loop produces the tree that threads every bucketed record through one visit each, in input order |
| Aggregate.Aggregate | api/src/aggregation/aggregate.ts:51-108 | `aggregate` returns the flattening of the built tree: top-level subtrees in insertion order, then the grand total |
| AggregateDates.BucketIdentity | api/src/aggregation/aggregate.ts:37 | mode `day` or no mode returns the date unchanged |
| AggregateDates.BucketMonth | api/src/aggregation/aggregate.ts:38-39 | `month` gives the year as `Number` prints it, `-`, and the two month digits; a date whose year has no leading zero is cut to its `YYYY-MM` prefix |
| AggregateDates.BucketQuarter | api/src/aggregation/aggregate.ts:38-40 | `quarter` gives `Y-Qq` with q in 1..4, and month m lies in quarter q exactly when 3(q-1) < m <= 3q |
| AggregateDates.MonthEnd | api/src/aggregation/aggregate.ts:42-44 | every month ends within its year, so the day of the year of a real date never exceeds the year's length |
| AggregateDates.BucketWeek | api/src/aggregation/aggregate.ts:41-46 | for a day that exists in its month, the day of the year lies in 1..365/366 and `week` gives `Y-Wk` with k in 1..53 and 7(k-1) < dayOfYear <= 7k |
| AggregateTree.VisitKeeps | api/src/aggregation/aggregate.ts:67-80 | a visit keeps a node's level, key, value and label, adds exactly the record's hours to its total, and leaves it non-empty |
| AggregateTree.VisitShape | api/src/aggregation/aggregate.ts:67-79 | a visit keeps the tree's shape: children with distinct values, each with the next level's key and label `k: v`, leaves only at the last level |
| AggregateTree.VisitSums | api/src/aggregation/aggregate.ts:67-80 | a visit keeps every node's total equal to its own records' hours plus its children's totals |
| AggregateTree.VisitPaths | api/src/aggregation/aggregate.ts:67-79 | a record is stored below the nodes whose values it has for the keys of their levels |
| AggregateTree.VisitLeaves | api/src/aggregation/aggregate.ts:67-79 | a visit stores the record exactly once more below the node and keeps every other stored record |
| AggregateTree.VisitInv | api/src/aggregation/aggregate.ts:67-79 | a visit preserves the whole loop invariant: shape, sums and paths |
| AggregateTree.EnrichAll | api/src/aggregation/aggregate.ts:60 | every record is replaced by its date-bucketed copy, position by position |
| AggregateTree.VisitValues | api/src/aggregation/aggregate.ts:70-75 | a new top-level child is appended exactly when no child has the record's first value yet |
| AggregateTree.BuildTreeInv | api/src/aggregation/aggregate.ts:52-81 | the built tree's root is labelled `root` and satisfies the shape, sums and paths invariant |
| AggregateTree.BuildTreeTotal | api/src/aggregation/aggregate.ts:59-81 | the root's total is the sum of all input hours |
| AggregateTree.BuildTreeLeaves | api/src/aggregation/aggregate.ts:59-81 | the records stored in the tree are exactly the bucketed input records, each once |
| AggregateTree.BuildTreeNoKeys | api/src/aggregation/aggregate.ts:62-66 | with no keys the root has no children and holds every bucketed record in input order |
| AggregateTree.BuildTreeOrder | api/src/aggregation/aggregate.ts:70-75 | the top-level children are the distinct first-key values in order of first appearance |
| AggregateTree.SubtreeTotal | api/src/aggregation/aggregate.ts:77 | given the sums invariant, every node's total is the sum of the hours of the records in its subtree |
| AggregateFlatten.NodeRowsOk | api/src/aggregation/aggregate.ts:85-103 | every row of a subtree has a level and path consistent with the node it belongs to |
| AggregateFlatten.NodeBrackets | api/src/aggregation/aggregate.ts:86-102 | a subtree's rows open with its group row and close with a subtotal row of the same level, path and hours, labelled `Subtotal — ` plus the group's label; the path has length level+1, and no proper prefix closes the group |
| AggregateFlatten.LeafRowsBalance | api/src/aggregation/aggregate.ts:89-96 | leaf rows neither open nor close a group |
| AggregateFlatten.MiddleNested | api/src/aggregation/aggregate.ts:89-101 | the rows between a group row and its subtotal nest like brackets |
| AggregateFlatten.NodeLeafHours | api/src/aggregation/aggregate.ts:85-103 | the leaf rows inside a group add up to the node's total, the hours its group and subtotal rows show |
| AggregateFlatten.SortedChildrenOrder | api/src/aggregation/aggregate.ts:98 | below the top level, children are visited in ascending comparator order of their values, as a permutation of the children, with equal values in insertion order |
| AggregateFlatten.TopNodeGroups | api/src/aggregation/aggregate.ts:105 | each top-level node contributes exactly one level-0 group row, its own |
| AggregateFlatten.RootTopGroups | api/src/aggregation/aggregate.ts:105 | the level-0 group rows follow the root's children in insertion order |
| AggregateFlatten.AggregateRowsShape | api/src/aggregation/aggregate.ts:84-107 | the output ends with exactly one grand-total row (level 0, empty path, all input hours), and the group and subtotal rows before it are well placed and nest like brackets |
| AggregateFlatten.AggregateLeafHours | api/src/aggregation/aggregate.ts:89-106 | with at least one key the leaf rows carry every input hour exactly once |
| AggregateFlatten.AggregateNoKeys | api/src/aggregation/aggregate.ts:62-106 | with no keys the output is the grand-total row alone |
| AggregateFlatten.AggregateTopOrder | api/src/aggregation/aggregate.ts:105 | the level-0 groups are the distinct first-key values in order of first appearance, not sorted |
| Sorting.SortBy | web/src/app/utils/aggregations.ts:71-79 | the sort returns a permutation of its input |
| Sorting.SortBySorted | web/src/app/utils/aggregations.ts:71-79 | under a total preorder the sort's output is ordered |
| Sorting.SortByStable | web/src/app/utils/aggregations.ts:71-79 | the sort is stable: elements with equal keys keep their input order |
| ActivitiesRoute.NonEmpty | api/src/routes/activities.ts:30 | the kept pieces are non-empty pieces of the input, and input without empty pieces is kept whole |
| ActivitiesRoute.ParseKeys | api/src/routes/activities.ts:30 | every parsed key is non-empty and free of commas |
| ActivitiesRoute.ParseKeysEmpty | api/src/routes/activities.ts:30 | a missing or empty `keys` parameter gives no keys |
| ActivitiesRoute.ParseKeysRoundTrip | api/src/routes/activities.ts:30 | non-empty comma-free keys joined by commas parse back to the same list |
| ActivitiesRoute.ParseKeysList | api/src/routes/activities.ts:30 | a repeated parameter reads as its values joined by commas |
| ActivitiesRoute.ParseKeysLeadingComma | api/src/routes/activities.ts:30 | a leading comma is dropped |
| ActivitiesRoute.ParseKeysEmptyPieces | api/src/routes/activities.ts:30 | empty pieces from leading, repeated and trailing commas are dropped |
| ActivitiesRoute.ParseBucket | api/src/aggregation/aggregate.ts:8 | a bucket name is accepted exactly when it is one of the four modes |
| ActivitiesRoute.ParseKeyList | api/src/aggregation/aggregate.ts:7 | a key list is accepted exactly when every element is a key name, element by element |
| ActivitiesRoute.ParseSpec | api/src/routes/activities.ts:31-34 | the spec is rejected exactly when a key is outside the three names or a present `dateBucket` is not one of the four modes; the accepted spec keeps the keys in order |
| ActivitiesRoute.DuplicateKeysAccepted | api/src/aggregation/aggregate.ts:7 | repeated keys are accepted |
| ActivitiesRoute.EmptyBucketRejected | api/src/aggregation/aggregate.ts:8 | an empty `dateBucket` parameter is rejected |
| ActivitiesRoute.DatePatternShape | api/src/routes/activities.ts:18 | the date pattern accepts exactly four digits, `-`, two digits, `-`, two digits |
| ActivitiesRoute.ParseBody | api/src/routes/activities.ts:15-20 | a body is accepted exactly when project and employee are non-empty strings, the date has the pattern's shape and hours is a number >= 0; the result carries those four fields |
| ActivitiesRoute.UncheckedDateAccepted | api/src/routes/activities.ts:18 | month and day ranges are not checked: `2024-13-45` is accepted |
| ActivitiesRoute.AcceptedDateBucketable | api/src/routes/activities.ts:18 | every accepted date can be bucketed by day, month or quarter |
| ActivitiesRoute.PostActivity | api/src/routes/activities.ts:21-26 | a rejected body answers 400 with no create, and an accepted one creates exactly the parsed activity |
| ActivitiesRoute.GetAggregate | api/src/routes/activities.ts:29-39 | a rejected spec answers 400 before aggregation, and an accepted one returns the aggregate of the stored activities for the parsed spec |
| ViewModel.Labels | web/src/app/utils/aggregations.ts:12-19 | one label per chosen group, each the accessor's label |
| ViewModel.Keys | web/src/app/utils/aggregations.ts:12-19 | one key per chosen group, each the accessor's key |
| ViewModel.AccessAll | web/src/app/utils/aggregations.ts:52-56 | the inner loop pushes each group's label and key in group order |
| ViewModel.FindBucket | web/src/app/utils/aggregations.ts:59 | finds the bucket with a key, or reports that none has it |
| ViewModel.Lookup | web/src/app/utils/aggregations.ts:59 | a definition, not a proved claim: `buckets.get(composite) ?? { labels, hours: 0 }`, the bucket with the key or the fresh one when none has it; what the buckets hold is proved in BucketsFirst and BucketsHours |
| ViewModel.CollectBuckets | web/src/app/utils/aggregations.ts:46-62 | the bucketing loop yields the buckets of the whole input |
| ViewModel.PutExisting | web/src/app/utils/aggregations.ts:61 | storing a bucket whose key is present replaces that bucket and nothing else |
| ViewModel.BucketsKeys | web/src/app/utils/aggregations.ts:58-61 | there is one bucket per distinct composite key, in order of first appearance |
| ViewModel.BucketsDistinct | web/src/app/utils/aggregations.ts:61 | no two buckets share a key |
| ViewModel.BucketsHours | web/src/app/utils/aggregations.ts:59-61 | each bucket's hours are the hours of the entries sharing its composite key |
| ViewModel.BucketsFirst | web/src/app/utils/aggregations.ts:59 | each bucket keeps the labels of the first entry with its key |
| ViewModel.BucketsTotal | web/src/app/utils/aggregations.ts:59-61 | all buckets together hold all input hours |
| ViewModel.GroupedRows | web/src/app/utils/aggregations.ts:65-70 | one row per bucket, in bucket order |
| ViewModel.GroupedRowCells | web/src/app/utils/aggregations.ts:66-69 | a grouped row holds the hours and, under each group's name, that group's label, and no other column |
| ViewModel.SortKey | web/src/app/utils/aggregations.ts:72-74 | the comparator reads each group's cell as text, in group order |
| ViewModel.LexTotalPreorder | web/src/app/utils/aggregations.ts:71-79 | comparing rows group by group is a total preorder when the collation is one |
| ViewModel.ViewBuckets | web/src/app/utils/aggregations.ts:46-62 | every bucket has one label per chosen group |
| ViewModel.BuildViewModel | web/src/app/utils/aggregations.ts:21-82 | `buildViewModel` returns the view table of the entries and groups |
| ViewModel.ViewRaw | web/src/app/utils/aggregations.ts:33-42 | with no group: one row per entry in input order, columns `project, employee, date, hours` |
| ViewModel.ViewGrouped | web/src/app/utils/aggregations.ts:48-81 | with groups: columns are the groups then `hours`, one row per distinct composite key, a permutation of the bucket rows, sorted by labels group by group, with ties in bucket order |
| ViewModel.ViewTotal | web/src/app/utils/aggregations.ts:59-79 | with groups, the rows' hours add up to the input hours |
| ViewModel.ViewRowsShow | web/src/app/utils/aggregations.ts:48-79 | every row shows the labels of the first entry with some composite key and the hours of all entries with that key |
| ViewModel.ViewRowsCover | web/src/app/utils/aggregations.ts:48-79 | every entry's composite key has a row |
| TimesheetPage.FormatValue | web/src/app/pages/timesheet/timesheet.component.ts:242-250 | a definition, not a proved claim: a missing cell is empty, a text cell is itself, a number is its `String` rendering |
| TimesheetPage.HeaderCells | web/src/app/pages/timesheet/timesheet.component.ts:261 | each column's header, falling back to the column name |
| TimesheetPage.RowCells | web/src/app/pages/timesheet/timesheet.component.ts:262 | each column's formatted cell of a row |
| TimesheetPage.TableCells | web/src/app/pages/timesheet/timesheet.component.ts:261-263 | the header line then one line per row, each with one cell per column |
| TimesheetPage.DistinctNamedEntities | web/src/app/pages/timesheet/timesheet.component.ts:199-205 | the `seen` loop followed by the sort returns the first entity per id sorted by name |
| TimesheetPage.FirstPerIdIds | web/src/app/pages/timesheet/timesheet.component.ts:200-203 | the kept ids are the distinct input ids in order of first appearance |
| TimesheetPage.FirstPerIdFirst | web/src/app/pages/timesheet/timesheet.component.ts:202 | each kept entity is the first input item with its id |
| TimesheetPage.DistinctNamedEntitiesSpec | web/src/app/pages/timesheet/timesheet.component.ts:199-205 | the result has distinct ids, one for every input id, sorted by name, with name ties in first-appearance order |
| TimesheetPage.Trim | web/src/app/pages/timesheet/timesheet.component.ts:234 | the trimmed text neither starts nor ends with white space, is empty exactly when the input is all white space, and is what remains after dropping white space at both ends |
| TimesheetPage.TrimIdempotent | web/src/app/pages/timesheet/timesheet.component.ts:234 | trimming twice is trimming once |
| TimesheetPage.ResolveEntityName | web/src/app/pages/timesheet/timesheet.component.ts:231-239 | no choice or an empty one gives no name; `__new` gives the trimmed input, or none when that is empty; any other choice gives the indexed entity's name, or none when its id is not in the index |
| TimesheetPage.ResolveNewName | web/src/app/pages/timesheet/timesheet.component.ts:233-235 | a new name is never empty or padded with white space, and it is a part of the typed text |
| TimesheetCsv.EscapeCsv | web/src/app/pages/timesheet/timesheet.component.ts:253-258 | a value without `"`, `;` or line feed is unchanged, and any other value is quoted |
| TimesheetCsv.PlainRoundTrip | web/src/app/pages/timesheet/timesheet.component.ts:257 | an unquoted cell is read back up to the next separator |
| TimesheetCsv.QuotedRoundTrip | web/src/app/pages/timesheet/timesheet.component.ts:255 | a quoted cell with doubled quotes is read back exactly, with the quotes undoubled |
| TimesheetCsv.FieldRoundTrip | web/src/app/pages/timesheet/timesheet.component.ts:253-258 | un-escaping an escaped cell gives the cell back and stops at the separator after it |
| TimesheetCsv.RecordRoundTrip | web/src/app/pages/timesheet/timesheet.component.ts:263 | a line of escaped cells joined by `;` reads back as those cells |
| TimesheetCsv.LinesRoundTrip | web/src/app/pages/timesheet/timesheet.component.ts:263-264 | lines joined by line feeds read back as the lines |
| TimesheetCsv.BuildCsvRoundTrip | web/src/app/pages/timesheet/timesheet.component.ts:260-265 | with at least one column the export reads back as `1 + rows` records of one field per column: the headers, then each row's formatted cells |
| TimesheetCsv.BuildCsvNoColumns | web/src/app/pages/timesheet/timesheet.component.ts:260-265 | without columns the export is one line feed per row |
| TimesheetPdf.PdfLines | web/src/app/pages/timesheet/timesheet.component.ts:274-279 | the header line then one line per row, cells joined by a space, a vertical bar and a space; with no row the single placeholder `Nessun dato disponibile` |
| TimesheetPdf.EscapeChar | web/src/app/pages/timesheet/timesheet.component.ts:269 | the single-pass reference definition, not a proved claim: the three delimiters are backslash-prefixed and every other character is kept; EscapePdfSinglePass proves the source's three `replace` calls equal it |
| TimesheetPdf.EscapePdfSinglePass | web/src/app/pages/timesheet/timesheet.component.ts:269 | the three replacements in the source's order equal one pass that prefixes each delimiter with a backslash |
| TimesheetPdf.LiteralRoundTrip | web/src/app/pages/timesheet/timesheet.component.ts:269 | a reader of PDF literal strings (section 7.3.4.2 of ISO 32000-1) recovers every escaped line exactly and stops right after its closing parenthesis |
| TimesheetPdf.TextStreamShowsLines | web/src/app/pages/timesheet/timesheet.component.ts:281-290 | the content stream opens with the font, leading and position set-up, shows exactly the page's lines in order, and ends with `ET` |
| TimesheetPdf.AsciiLength | web/src/app/pages/timesheet/timesheet.component.ts:292-294 | for ASCII text the UTF-8 byte count equals the character count |
| TimesheetPdf.NonAsciiLength | web/src/app/pages/timesheet/timesheet.component.ts:292-294 | one non-ASCII character makes the byte count exceed the character count |
| TimesheetPdf.Objects | web/src/app/pages/timesheet/timesheet.component.ts:296-302 | the file has five objects |
| TimesheetPdf.Offsets | web/src/app/pages/timesheet/timesheet.component.ts:305-309 | one offset per object after the leading 0 |
| TimesheetPdf.BodyPrefix | web/src/app/pages/timesheet/timesheet.component.ts:304-309 | each recorded offset is the length of the text written before its object, and the object follows there |
| TimesheetPdf.ObjectAt | web/src/app/pages/timesheet/timesheet.component.ts:306-309 | object n is found in the body at its recorded offset |
| TimesheetPdf.OffsetsIncrease | web/src/app/pages/timesheet/timesheet.component.ts:306-309 | with non-empty objects the offsets strictly increase |
| TimesheetPdf.EntryShape | web/src/app/pages/timesheet/timesheet.component.ts:315 | an in-use entry is 20 characters whose first ten are the offset in decimal |
| TimesheetPdf.DocumentPieces | web/src/app/pages/timesheet/timesheet.component.ts:304-321 | the file is the body, the table header, the entries and the trailer, in that order |
| TimesheetPdf.ObjectsAreNumbered | web/src/app/pages/timesheet/timesheet.component.ts:297-301 | object i of the list opens with `i 0 obj` |
| TimesheetPdf.FileObjectAt | web/src/app/pages/timesheet/timesheet.component.ts:304-309 | in the file, the first offset is 0, each offset exceeds the one before it, and the text at `offsets[i]` starts with `i 0 obj` |
| TimesheetPdf.FileXref | web/src/app/pages/timesheet/timesheet.component.ts:311-321 | the table starts where the body ends, with `xref`, `0 size` and the free entry, and the file ends with `startxref`, the table's position (which reads back as that number) and `%%EOF` |
| TimesheetPdf.EntryDigits | web/src/app/pages/timesheet/timesheet.component.ts:314-316 | entry j of the table carries the digits of offset j at a fixed 20-character stride |
| TimesheetPdf.FileEntryAt | web/src/app/pages/timesheet/timesheet.component.ts:311-316 | in the file, entry i of the table holds the ten-digit offset of object i, for a body below 10^10 characters |
| TimesheetPdf.WriteTextStream | web/src/app/pages/timesheet/timesheet.component.ts:282-290 | the `forEach` loop writes the prologue, one show operator per line (`T*` before all but the first) and `ET` |
| TimesheetPdf.WriteBody | web/src/app/pages/timesheet/timesheet.component.ts:304-309 | the object loop writes the body and records the offsets |
| TimesheetPdf.WriteXref | web/src/app/pages/timesheet/timesheet.component.ts:311-316 | the table loop writes the header, the free entry and one entry per object |
| TimesheetPdf.WriteTrailer | web/src/app/pages/timesheet/timesheet.component.ts:317-321 | the trailer with `/Size`, `/Root`, `startxref` and `%%EOF` |
| TimesheetPdf.BuildPdf | web/src/app/pages/timesheet/timesheet.component.ts:273-324 | `buildPdf` returns the five-object file of the page's escaped lines, with the stream's `/Length` in bytes |
| GroupFilters.Get | web/src/app/components/group-filters/group-filters.component.ts:50-51 | a definition, not a proved claim: `ParamMap.get`, a parameter's value, present exactly when the address has it |
| GroupFilters.ParseGroupKey | web/src/app/components/group-filters/group-filters.component.ts:145-148 | an absent, empty or unknown value gives no key, and a key name gives that key |
| GroupFilters.Normalize | web/src/app/components/group-filters/group-filters.component.ts:52-56 | the normalised selection keeps the first key as parsed, and has a second key exactly when both parse and differ, so group2 is set only under a different group1 |
| GroupFilters.NavigationNeededIff | web/src/app/components/group-filters/group-filters.component.ts:69-72 | the handler navigates exactly when the raw parameters are not in normal form |
| GroupFilters.NormalizeIdempotent | web/src/app/components/group-filters/group-filters.component.ts:55-72 | normalising a normalised selection's spelling gives it back and calls for no navigation |
| GroupFilters.QueryParams | web/src/app/components/group-filters/group-filters.component.ts:150-158 | every other parameter is copied unchanged; `group1` is set exactly when the first key is, and `group2` exactly when both are |
| GroupFilters.QueryParamsFixedPoint | web/src/app/components/group-filters/group-filters.component.ts:150-158 | parameters written for a consistent selection are in normal form and read back as that selection, so re-reading them causes no navigation |
| GroupFilters.QueryParamsSameKeys | web/src/app/components/group-filters/group-filters.component.ts:156-157 | parameters written for two equal keys are not in normal form |
| GroupFilters.Component.constructor | web/src/app/components/group-filters/group-filters.component.ts:20-44 | both selections start empty with no events |
| GroupFilters.Component.SetGroup1 | web/src/app/components/group-filters/group-filters.component.ts:21-24 | the `group1` input setter stores its value in both fields without checking it |
| GroupFilters.Component.SetGroup2 | web/src/app/components/group-filters/group-filters.component.ts:28-31 | the `group2` input setter stores its value in both fields without checking it |
| GroupFilters.Component.UpdateQueryParams | web/src/app/components/group-filters/group-filters.component.ts:150-164 | one navigation to the route's parameters with the two keys set or deleted; nothing else changes |
| GroupFilters.Component.OnQueryParams | web/src/app/components/group-filters/group-filters.component.ts:47-75 | the handled parameters become the route's snapshot; the handler adopts their normalised selection, announces each key that changed and only those, then navigates exactly when the raw parameters differ from the normal form, to those same parameters with `group1`/`group2` rewritten; the selection invariant holds afterwards |
| GroupFilters.Component.OnChangeGroup1 | web/src/app/components/group-filters/group-filters.component.ts:84-108 | clearing the first key clears the second one too; choosing the key already second clears the second one; the events and the navigation in the source's order; the invariant holds afterwards |
| GroupFilters.Component.OnChangeGroup2 | web/src/app/components/group-filters/group-filters.component.ts:111-129 | the second key becomes none without a first key or when it equals the first; one change event and one navigation; the invariant holds afterwards |
| GroupFilters.Component.Clear | web/src/app/components/group-filters/group-filters.component.ts:132-140 | both keys become none, both changes are announced and the address loses both parameters |
| GroupFilters.Component.TriggerCsv | web/src/app/components/group-filters/group-filters.component.ts:142 | one CSV request event; nothing else changes |
| GroupFilters.Component.TriggerPdf | web/src/app/components/group-filters/group-filters.component.ts:143 | one PDF request event; nothing else changes |
| TimesheetService.Allocate | web/src/app/service/timesheet.service.ts:90-95 | a cached name keeps its id and nothing changes; a new name draws the counter's value, which is cached, and the counter moves on by exactly one |
| TimesheetService.Resolve | web/src/app/service/timesheet.service.ts:71-88 | the name ends up cached with the returned id, no other name's id changes, the counter never goes down, and an explicit id is returned with the counter moved past it |
| TimesheetService.ResolveKeepsFresh | web/src/app/service/timesheet.service.ts:76-88 | every cached id stays below the counter |
| TimesheetService.PlainKeepsInjective | web/src/app/service/timesheet.service.ts:85-95 | with only bare names, distinct names keep distinct ids |
| TimesheetService.ExplicitIdCollision | web/src/app/service/timesheet.service.ts:77-78 | an explicit id is cached even when another name already holds it, so two names can share an id |
| TimesheetService.ResolveIdempotent | web/src/app/service/timesheet.service.ts:71-95 | resolving the same source twice gives the same id and changes nothing the second time |
| TimesheetService.MapEntry | web/src/app/service/timesheet.service.ts:62-69 | an entry's project is resolved in the project table only and its employee in the employee table only, each once; names, date and hours are copied |
| TimesheetService.MapEntries | web/src/app/service/timesheet.service.ts:40 | one entry per fetched item, in order |
| TimesheetService.MapEntriesPlain | web/src/app/service/timesheet.service.ts:40 | over bare names, the tables stay fresh and injective and every entry carries its names' final ids |
| TimesheetService.DistinctNamesDistinctIds | web/src/app/service/timesheet.service.ts:85-95 | over bare names, entries with different project (or employee) names get different ids |
| TimesheetService.MapEntriesMonotone | web/src/app/service/timesheet.service.ts:101-107 | the counters never go down over a list |
| TimesheetService.Service.constructor | web/src/app/service/timesheet.service.ts:33-36 | both tables start empty and both counters at 1 |
| TimesheetService.Service.PeekNextId | web/src/app/service/timesheet.service.ts:97-99 | the counter of a kind lies above every id cached for that kind |
| TimesheetService.Service.SetId | web/src/app/service/timesheet.service.ts:78 | `cache.set` updates one table and leaves the other kind untouched |
| TimesheetService.Service.NextId | web/src/app/service/timesheet.service.ts:64-65 | the callback returns the counter and increments it, for one kind only |
| TimesheetService.Service.EnsureId | web/src/app/service/timesheet.service.ts:90-95 | `ensureId` on the object's fields behaves as the allocator on that kind's table and leaves the other kind untouched |
| TimesheetService.Service.BumpNextId | web/src/app/service/timesheet.service.ts:101-107 | the counter becomes the larger of itself and the value, so it never goes down |
| TimesheetService.Service.ToNamedEntity | web/src/app/service/timesheet.service.ts:71-88 | `toNamedEntity` behaves as the resolver on that kind's table, leaves the other table alone and keeps the counters above every cached id |
| TimesheetService.Service.MapToTimesheetEntry | web/src/app/service/timesheet.service.ts:62-69 | the object's tables move exactly as the entry mapping says, and the invariant holds |
| TimesheetService.Service.MapActivities | web/src/app/service/timesheet.service.ts:40 | mapping a fetched list moves the tables as the list mapping says, and the invariant holds |

## Left out

- Database, HTTP and framework plumbing is not modelled: `ActivityModel.find`/`create`,
  `res.json`, Express routing, `HttpClient`, the refresh trigger, `shareReplay`, `takeUntil` and
  `ngOnDestroy`. The stored activities are a parameter of `ActivitiesRoute.GetAggregate`, and
  creation is a returned outcome.
- The router's asynchronous delivery of query parameters is not modelled. A navigation is an
  event in the component's log, and `route` stands for the current route's query parameters.
  Each parameter has one string value. A navigation does not by itself move `route`: the
  router's next delivery, `OnQueryParams`, sets it to the delivered parameters before the
  handler reads them.
- Downloads (`downloadFile`), file names from the wall clock (`buildFilename`), the reactive
  form and its validators are out, because they are DOM, clock and framework code.
- `localeCompare` with the Italian locale, `toRomeDay`, `String(number)` and `Number(choice)` are
  abstract parameters. The model does not say which total preorder or which formatting they
  are.
- Hours are exact reals, so floating-point rounding in `+=` is not modelled.
- Ids are unbounded integers; the width and precision of JavaScript numbers are not modelled.
- Strings are sequences of Unicode characters. JavaScript's `length` counts a character outside
  the Basic Multilingual Plane as two code units, whereas the model counts it as one. So for
  such text the model's lengths, including the PDF offsets, are not the source's. No Unicode
  normalisation is modelled.
- The PDF offsets are character counts (`pdf.length`), as the source computes them. The
  stream's `/Length` is in UTF-8 bytes. These agree only for ASCII text
  (`TimesheetPdf.AsciiLength`, `TimesheetPdf.NonAsciiLength`), so for non-ASCII cells the
  cross-reference offsets are not byte offsets into the encoded file. The model keeps the
  source's offsets.
- Aggregate.BucketDate: modelled only where `bucketDate` reads a real date:
  - any text for `day` or no mode;
  - the `YYYY-MM-DD` digit shape for `month` and `quarter`;
  - that shape with a month in 1..12 for `week`.

  The `NaN` results of `Number` on other texts are not modelled. Neither is `Date.UTC` mapping a
  month outside 1..12 into another year.
- Aggregate.Aggregate: requires every stored date to be bucketable in that sense. For `week`
  this is more than the body validator guarantees, since it accepts months outside 1..12.
- ActivitiesRoute.GetAggregate: carries the same requirement on the stored activities.
- AggregateDates.BucketWeek: its day-of-year bounds are stated for days that exist in their
  month. For any two-digit day, the day of the year is computed as `Date.UTC` overflows it,
  linearly from the first of the month.
- ActivitiesRoute.ParseSpec: a query parameter is missing, one string or a list of strings.
  Nested query objects are rendered as `[object Object]` by `QueryText` but are not validated
  further.
- Node identity in the aggregation tree: `node` is a reference into the tree in the source,
  while the model rebuilds the path of the tree it changes. Aliasing between nodes is not
  modelled.
- TimesheetPage.FormatValue: row cells are strings or numbers, as the row type declares. The
  object branch (`name` or `JSON.stringify`) is not modelled.
- `updateProjectNameValidators` and `updateEmployeeNameValidators` are form configuration and
  are not part of this model.
- The server's `GET /` list handler is only a database read, so it is not modelled.
