# Unique-ID-Checker: the identifier diff, modelled in Dafny

The Unique-ID-Checker page compares a *master* CSV of property identifiers
with a *monthly* analytics CSV. It reports the monthly records whose `ID`
value does not occur as a `Property ID` value in the master list. When no
master file is selected, the page fetches a bundled default master dataset
and shows a notice that the data may be outdated.

This project models the Compare button's handler as a pure computation over
already-parsed tables, and proves what it reports:

- `tables.dfy`: modules `Wrappers` (an `Option`) and `Tables`. A parsed
  record is an ordered list of `(name, value)` cells with distinct names, in
  the order the properties were created. It stands for the script object
  built by a header-mode CSV parse. `Lookup` is `row[name]` restricted to the
  record's own properties. It gives `None` where the record has no property
  of that name. For the key columns `Property ID` and `ID` this is exactly
  the script's `undefined`, since no inherited property has those names. `Keys` is `Object.keys(row)` with the
  JavaScript property order: names that are array indices (canonical decimal
  integers from 0 to 2^32 - 2, such as `2023`) come first in ascending
  numeric order, then the other names in creation order.
- `diff.dfy` (module `Diff`): the master key set (`new Set(rows.map(...))`)
  and the filter of monthly records (`rows.filter(row => !ids.has(...))`).
  Proved about it: the filter keeps order, is sound, is complete with
  multiplicities, and is empty exactly when every key matched. The key set
  depends only on which master records exist, not on their order or
  repetition.
- `results.dfy` (module `ResultTable`): the results table as rows of strings.
  The header row is the first unmatched record's keys. Each data row has one
  cell per header, holding `row[header] || ''`. Two loop methods build it.
- `compare.dfy` (module `Comparison`): `fetchDefault`, then the handler.
  The handler checks for the monthly file, chooses the master source,
  applies the empty-text guard, validates the columns, runs the diff, and
  classifies the result as `Failed(message)`, `Aborted`,
  `NoDifferences(usingDefault)` or `Found(rows, usingDefault)`. `Show` gives
  what the page presents for each outcome: error text, default notice and
  table.
- `scenarios.dfy` (module `Scenarios`): concrete comparisons. Among them is
  the current handling of records that lack the key property: a missing
  `ID` matches a master record that lacks `Property ID`.

Inputs that come from the browser are parameters. A selected file is given
as `Some(text)`, and no selection as `None`. The HTTP request for the
default dataset is a `Response`. The CSV parser is a function
`parse: string -> Table`.

Behaviour of the script that the model keeps:

- Parse errors are not reported. The script ignores the parser's error list
  and checks only the header fields (script.js:81-82).
- The schema error is one fixed message naming both columns, whichever
  column is missing (script.js:81-83). It does not say which table lacks
  its column.
- A fetched default dataset with an empty body stops the comparison with
  nothing shown (`Aborted`: the `!masterCsvText` guard at script.js:65). A
  failed fetch shows `Error loading default master CSV: <reason>`
  (script.js:38-40) and nothing else.
- An uploaded master file with empty text is not rejected. script.js:59-61
  has no emptiness test, so the text is parsed and compared like any other
  upload.
- Records need not have a key set equal to the field list. A record without
  the key property looks up `undefined`, and missing keys match one another.
- The header row of the results table follows `Object.keys`, so numeric
  column names such as years are listed before the others, whatever their
  place in the CSV header.

## Model

| member | source | states |
|---|---|---|
| `Tables.Lookup` | script.js:89 | `row[name]` is defined exactly when the record has a cell with that name, and then is that cell's text |
| `Tables.KeysPermutation` | script.js:111 | `Object.keys(row)` lists every column name of the record exactly once: as many keys as cells, and the same names with the same multiplicities |
| `Tables.KeysIndexNamesFirst` | script.js:111 | in `Object.keys(row)`, a name that is an array index is preceded only by array-index names with no greater numeric value |
| `Tables.KeysOtherNamesInOrder` | script.js:111 | in `Object.keys(row)`, the names that are not array indices appear in the order the record's properties were created |
| `Tables.KeysParts` | script.js:111 | `Object.keys(row)` is the array-index names in ascending numeric order followed by the other names |
| `Tables.LookupOwnCell` | script.js:124 | looking up any of a record's own keys yields that key's cell text |
| `Diff.KeySet` | script.js:89 | the master key set holds every master record's `Property ID` value (or undefined) and nothing else |
| `Diff.Unmatched` | script.js:93 | the filter never returns more records than the input, and no returned record's key is in the set |
| `Diff.UnmatchedIsSubsequence` | script.js:93 | the returned records are a subsequence of the monthly records: their relative order is kept |
| `Diff.UnmatchedMultiset` | script.js:93 | each record is returned as many times as it occurs in the monthly table if its key is not in the set, and never otherwise |
| `Diff.UnmatchedMembership` | script.js:93 | a record is returned if and only if it is a monthly record whose key is not in the set |
| `Diff.UnmatchedComplete` | script.js:93 | every monthly record whose key is not in the set is returned |
| `Diff.UnmatchedEmpty` | script.js:93 | the result is empty if and only if every monthly record's key is in the set |
| `Diff.KeySetOfSameRecords` | script.js:89 | two master tables holding the same records, in any order and with any repetition, give the same key set |
| `ResultTable.CellText` | script.js:124 | the drawn text under `header` is the text of the record's own cell named `header` when it has one, and '' when it has none (inherited names are left out) |
| `ResultTable.OrEmpty` | script.js:124 | the script's fallback to '' gives the value when it is defined and '' when it is undefined |
| `ResultTable.ProjectRow` | script.js:122-126 | a data row has exactly one cell per header, in header order, each being the record's text under that header or '' |
| `ResultTable.Projection` | script.js:109-128 | the table has one header row equal to the first record's keys, then exactly one data row per record |
| `ResultTable.ProjectionCells` | script.js:120-128 | every data row has one cell per header, and each cell is the record's text under that header where the record has that column, and '' where it lacks it |
| `ResultTable.ProjectionFirstRow` | script.js:111-126 | each cell of the first record's data row is the text of that record's own cell named by the column's header |
| `ResultTable.BuildRow` | script.js:121-127 | the per-header loop builds exactly the projected data row |
| `ResultTable.BuildTable` | script.js:109-128 | the header row followed by the per-record loop builds exactly the projected table |
| `Comparison.FetchDefault` | script.js:31-42 | the dataset text is returned only for an answer with an ok status, and is then its body; otherwise the shown message is the fixed prefix plus the thrown error's reason, which is `Unable to fetch default master CSV` for a non-ok answer |
| `Comparison.HasKeyColumns` | script.js:81-82 | the check passes exactly when the master header includes `Property ID` and the monthly header includes `ID` |
| `Comparison.CompareTables` | script.js:77-102 | the outcome is the schema error exactly when the master fields lack `Property ID` or the monthly fields lack `ID`; otherwise it is a result carrying the caller's default flag; a `Found` result is never empty |
| `Comparison.OnCompare` | script.js:51-67 | with no monthly file the outcome is exactly `Please upload the monthly analytics.`; the default flag of every result is set exactly when no master file was selected; only an ok, empty default body aborts silently |
| `Comparison.Show` | script.js:96-135 | the error line is shown unless the comparison aborted or found records, and is the failure's own message or `No unique property IDs found`; the default notice text is shown exactly for results obtained with the default dataset, empty or not; a table is drawn exactly for a non-empty `Found` result and is its projection |
| `Comparison.SchemaMessageNamesBoth` | script.js:77-83 | the schema error message, built from the template at line 83, holds `Property ID` and `ID` at the two places the template names them |
| `Comparison.SchemaErrorShown` | script.js:81-85 | when a key column is missing, the page shows only the schema error: no notice and no table |
| `Comparison.CompareTablesSoundAndComplete` | script.js:87-93 | with both key columns present, the reported records are exactly the monthly records whose `ID` value equals no master record's `Property ID` value, with their multiplicities, in monthly order |
| `Comparison.KnownIffInKeySet` | script.js:89 | a key is in the master key set if and only if some master record has that `Property ID` value |
| `Comparison.NoDifferencesExactly` | script.js:96-135 | with valid columns, `No unique property IDs found` is shown exactly when every monthly record is known to the master table (in particular when there are no monthly records); the default notice is shown in both the empty and non-empty case exactly when the default was used |
| `Comparison.MasterRecordSetSuffices` | script.js:89 | the order and repetition of master records do not change the outcome |
| `Comparison.MissingMonthlyShown` | script.js:51-54 | without a monthly file, the page shows only that error, whatever the master sources hold |
| `Comparison.FailedDefaultStops` | script.js:62-66 | without a master file, a failed fetch ends in exactly the fetch error, which is all the page shows; an ok empty body ends with nothing shown at all |
| `Comparison.DefaultMasterUsed` | script.js:62-70 | without a master file, a non-empty ok body is parsed as the master table and compared with the default flag set |
| `Comparison.NoticeExactly` | script.js:96-99 | given a monthly file, the notice appears exactly when no master file was selected, the default answered ok with a non-empty body, and both key columns are present |
| `Comparison.UploadedMasterUsed` | script.js:59-61 | a selected master file is always the master source, and the default flag is then unset |
| `Scenarios.MatchedIdsDropped` | script.js:89-93 | master P1, P2 against monthly P1, P3 reports only the P3 record |
| `Scenarios.MasterWithoutKeyColumn` | script.js:81-83 | a master header without `Property ID` gives the combined schema message |
| `Scenarios.EmptyMonthly` | script.js:102-135 | a monthly table with no records shows `No unique property IDs found` and nothing else |
| `Scenarios.DefaultDatasetUsed` | script.js:62-99 | with no master file, the default keys D1 against monthly D1, D2 report D2 with the default notice |
| `Scenarios.MissingKeysMatchEachOther` | script.js:89-93 | a monthly record without `ID` counts as known when a master record lacks `Property ID` |
| `Scenarios.YearColumnsListedFirst` | script.js:111 | a record with cells `ID`, `2024`, `2023` in that order gets the header row `2023`, `2024`, `ID` |

## Left out

- CSV parsing (`Papa.parse`, script.js:70-76) is an external library. It is the
  `parse` parameter. Its behaviour is not modelled, including its error list,
  its handling of ragged rows (the `__parsed_extra` key) and its renaming of
  duplicate headers. The monthly file is parsed from the file object, which
  the model treats as parsing that file's text.
- Reading the selected files (`files[0].text()`) and the network request
  (`fetch`) are asynchronous I/O. They are inputs. A rejected read of the
  uploaded master file is not handled by the script and is not modelled.
- Browser rendering (`clearResults`, `showError`, `console.error`, class
  toggling, `innerHTML`, element creation; script.js:2-28 and 103-132) is
  reduced to the `Screen` value. That value holds the error text, the notice
  text and the table's cell strings, all drawn on a cleared page.
- Callback and `await` sequencing (script.js:46 and 73-75) is event-loop
  plumbing. One comparison is a single function, run once to completion.
- A failed read of the monthly file is not modelled. `Papa.parse` is given
  only a `complete` callback (script.js:73-76), so on such a failure the
  validation and diff never run, and the page stays cleared. In the model,
  `parse` is total and always yields a table.
- The order in which the parser creates a record's properties is taken to
  be the order of the cells. The model does not derive it from the header.
- ResultTable.CellText: inherited property names are not modelled. The
  parser's records are plain objects, so `row[header]` at script.js:124 also
  finds the properties of `Object.prototype`. For a header such as
  `toString`, `constructor` or `valueOf` on a record that lacks that cell,
  the page shows the inherited function's text and the model shows ''. The
  model's lookup covers own properties only.
- ResultTable.ProjectionCells: its "'' where the record lacks the column"
  holds only for headers that do not name an inherited property of
  `Object.prototype`, for the reason given for `ResultTable.CellText`.
