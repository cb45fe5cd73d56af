# PE Import Analyzer — a Dafny model of the import-report pipeline

PE Import Analyzer reads the import table of a Windows PE executable and writes a report,
as plain text or HTML. The report groups the imported functions by DLL. For every DLL known
to its annotation catalog, it shows the DLL's explanation and its functions in
case-insensitive order, with an explanation for each catalogued API, up to a cap of 20
annotated functions. An optional last section lists the "dangerous or suspicious" functions
that were imported.

This project models that pipeline in Dafny and proves what it promises. The modules are:

- `Wrappers`: `Option` and `Result`.
- `Strings`:
  - ASCII `str.lower`, and Python's string order on the lower-cased key.
  - The decimal text of an ordinal.
  - `"\n".join`.
  - `html.escape` with the five-character map: `&` `<` `>` `"` `'`.
  - `Unescape`, the inverse of `html.escape`, used to state that escaping loses nothing.
- `Sorting`: `sort(key=str.lower)`, as a stable insertion sort. It is proved ordered, a
  permutation of its input, stable, and the only sequence with those properties.
- `Catalog`:
  - `extend_apis`, as the method `DllRecord.ExtendApis` of a class whose API map is updated
    in place.
  - The module-level padding loop.
  - The catalog lookups of the renderers.
- `Imports`: `extract_and_sort_imports` after the parse. This covers the nested loops that
  fill `imports_by_dll`, the in-place sort of every list, and the key-ordering comprehension.
  They are proved against the specification function `Grouped`.
- `Reporting`: what both generators show, as a `Report` value. This covers:
  - which DLLs get a section;
  - which functions are listed under the 20-annotated-function cap;
  - which explanations appear;
  - the dangerous section.
- `Render`: `generate_text_output` and `generate_html_output` as methods with the source's
  loops, counter and `break`. Each is proved to produce exactly the lines of the `Report`.
  The HTML output is also proved safe: every interpolated string is escaped.
- `Analyzer`: the dangerous-set loop of `main`, the opt-in, and the whole run from parsed
  records to the report or the `ValueError` message.

The parser's result is an `Option<seq<ImportRecord>>`. Each record is a library name and a
sequence of `(name, ordinal)` entries, with `""` standing for a missing name. `None` means
the file is not a PE image.

Three behaviours of the code are worth stating outright:

- **No deduplication.** The import lists are not deduplicated. A function imported twice is
  listed twice, and two records naming the same DLL are merged into one list
  (`Imports.GroupingPreservesEntries`).
- **The cap counts annotated functions only.** The program's docstring promises "up to 20"
  API commands per DLL (PE-Import-Analyzer.py:7). The counter, however, counts only
  annotated functions, so a DLL can show more than 20 functions
  (`Reporting.UnannotatedNotCapped`).
- **Errors are printed.** On a file that is not a PE image, `main` prints the error and
  returns normally.

## Model

| member | source | states |
|---|---|---|
| `Catalog.DllRecord.ExtendApis` | PE-Import-Analyzer.py:27-33 | the API map becomes `Padded(old map, target)`; the explanation is unchanged |
| `Catalog.ExtendCatalog` | PE-Import-Analyzer.py:1197-1198 | every catalog record is padded to `target`; nothing else changes |
| `Catalog.PaddedContents` | PE-Import-Analyzer.py:27-33 | when no placeholder key collides, the original entries are kept; the added keys are exactly `placeholder_<c+1>` .. `placeholder_<target>`, each explained by `DEFAULT_EXPLANATION` |
| `Catalog.PaddedSize` | PE-Import-Analyzer.py:27-33 | when no placeholder key collides, a map with fewer than `target` entries ends with exactly `target`; any other map is unchanged |
| `Catalog.PaddedCollisionFallsShort` | PE-Import-Analyzer.py:29-33 | when a key the loop writes (`placeholder_<i>` with `c < i <= target`) is already present, the map ends with fewer than `target` entries |
| `Catalog.PlaceholderKeyInjective` | PE-Import-Analyzer.py:32 | distinct indices give distinct `placeholder_<i>` keys |
| `Catalog.Lookup` | PE-Import-Analyzer.py:1234-1236 | `nested_dict[key]` is found exactly when some catalog entry has that key, and it is that entry |
| `Catalog.FirstApi` | PE-Import-Analyzer.py:1252-1256 | the explanation comes from the first library in catalog order whose API map has the key; `None` exactly when no library has it |
| `Strings.DecimalRoundTrip` | PE-Import-Analyzer.py:1221 | the ordinal's decimal text reads back as the ordinal |
| `Strings.NotLowerNeverMatches` | PE-Import-Analyzer.py:153 | a catalog key that is not lower-case, such as `OpenSCManagerA`, is never the lower-cased form of any name |
| `Strings.EscapeIsEscaped` | PE-Import-Analyzer.py:1282-1313 | `html.escape` output holds no `<`, `>`, `"` or `'`, and each `&` in it starts an entity |
| `Strings.EscapeRoundTrip` | PE-Import-Analyzer.py:1282-1313 | unescaping the escaped text gives the original text back |
| `Sorting.SortByLowerSpec` | PE-Import-Analyzer.py:1225-1226 | the sort's result is a permutation of its input, non-decreasing by lower-cased name |
| `Sorting.SortByLowerStable` | PE-Import-Analyzer.py:1225-1226 | elements with the same lower-cased name keep their input order |
| `Sorting.SortByLowerUnique` | PE-Import-Analyzer.py:1225-1226 | any ordered sequence that keeps each key's elements in input order equals the sort's result |
| `Sorting.SortSortedIsIdentity` | PE-Import-Analyzer.py:1239 | re-sorting an already sorted list changes nothing |
| `Imports.FallbackNames` | PE-Import-Analyzer.py:1215-1222 | a missing library name becomes `UNKNOWN_DLL`; a missing function name becomes `Ordinal_` plus the decimal digits of the ordinal, which read back as the ordinal; every resolved name is non-empty |
| `Imports.ExtractAndSortImports` | PE-Import-Analyzer.py:1208-1227 | `Failure("Not a valid PE file.")` when the parse fails; otherwise exactly `Grouped(records)` |
| `Imports.GroupByLibrary` | PE-Import-Analyzer.py:1215-1222 | the keys are the resolved library names in order of first appearance; each list holds all that library's resolved function names in import order |
| `Imports.AppendEntries` | PE-Import-Analyzer.py:1220-1222 | the resolved names of the record's entries are appended to that library's list; other lists are unchanged |
| `Imports.SortEachGroup` | PE-Import-Analyzer.py:1224-1225 | each list is replaced by its case-insensitive sort; the keys are unchanged |
| `Imports.GroupingPreservesEntries` | PE-Import-Analyzer.py:1215-1226 | the multiset of (library, function) pairs of the result is that of the records, so nothing is lost and no duplicate is removed; the total count is preserved |
| `Imports.GroupedKeys` | PE-Import-Analyzer.py:1215-1226 | a name is a key of the result exactly when it is some record's resolved library name |
| `Imports.GroupedKeysOrdered` | PE-Import-Analyzer.py:1215-1226 | the keys are pairwise distinct and non-decreasing by lower-cased name |
| `Imports.GroupedKeysStable` | PE-Import-Analyzer.py:1215-1226 | library names equal up to case keep their order of first appearance among the keys |
| `Imports.GroupedFunctions` | PE-Import-Analyzer.py:1219-1225 | each list is a permutation of all of its library's resolved function names, non-decreasing by lower-cased name, with equal keys in import order |
| `Reporting.ListedCap` | PE-Import-Analyzer.py:1238-1247 | the listed functions are a prefix of the sorted list with at most 20 annotated ones; with fewer than 20 annotated functions the list is listed whole; otherwise the listing ends at the 20th annotated function |
| `Reporting.UnannotatedNotCapped` | PE-Import-Analyzer.py:1240-1247 | more than 20 functions, none of them annotated, are all listed |
| `Reporting.SectionRows` | PE-Import-Analyzer.py:1232-1248 | a section shows the library's name and explanation; its rows are a prefix of the sorted functions; a row has an explanation exactly when its lower-cased name is an API key, and it is that key's explanation |
| `Reporting.SectionsFromCatalog` | PE-Import-Analyzer.py:1232-1235 | every section is that of an imported library whose lower-cased name is a catalog key |
| `Reporting.CatalogLibraryShown` | PE-Import-Analyzer.py:1232-1235 | every imported library whose lower-cased name is a catalog key gets its section |
| `Reporting.MixedCaseKeyUnused` | PE-Import-Analyzer.py:1240-1241 | a key that is not lower-case annotates no listed function |
| `Reporting.DangerousSection` | PE-Import-Analyzer.py:1249-1260 | the names of the dangerous rows are a permutation of the set's names (each once), in lower-cased order, empty exactly when the set is; each explanation is the first catalog library's, omitted when absent, empty or `DEFAULT_EXPLANATION` |
| `Render.FindApi` | PE-Import-Analyzer.py:1252-1256 | the inner catalog loop finds the first library's explanation (`FirstApi`) |
| `Render.ListFunctionsText` | PE-Import-Analyzer.py:1237-1247 | the listing loop with its counter and `break` emits the text lines of the capped rows |
| `Render.DangerousText` | PE-Import-Analyzer.py:1251-1260 | the dangerous loop emits the text lines of the dangerous rows |
| `Render.LibrariesText` | PE-Import-Analyzer.py:1232-1248 | the library loop emits the text blocks of the report's sections |
| `Render.GenerateTextOutput` | PE-Import-Analyzer.py:1230-1261 | the output is the `"\n"`-join of the report's text lines |
| `Render.ListFunctionsHtml` | PE-Import-Analyzer.py:1285-1298 | the listing loop emits the escaped table rows of the capped rows |
| `Render.DangerousHtml` | PE-Import-Analyzer.py:1304-1314 | the dangerous loop emits the escaped table rows of the dangerous rows |
| `Render.LibrariesHtml` | PE-Import-Analyzer.py:1278-1299 | the library loop emits the HTML blocks of the report's sections |
| `Render.GenerateHtmlOutput` | PE-Import-Analyzer.py:1264-1317 | the output is the `"\n"`-join of the report's HTML lines |
| `Render.RowHtmlCells` | PE-Import-Analyzer.py:1291-1295 | a table row holds escaped cells from which the function name and its explanation are recovered |
| `Render.HtmlLinesSafe` | PE-Import-Analyzer.py:1265-1316 | the HTML starts with the fixed 11-line head and ends with `</body></html>`; every line is fixed markup or a template whose holes are escaped text |
| `Analyzer.DangerousFoundMembers` | PE-Import-Analyzer.py:1331-1335 | the found set holds exactly the imported names, as imported, whose lower-cased form is on the dangerous list |
| `Analyzer.CollectDangerous` | PE-Import-Analyzer.py:1331-1335 | the nested loop with `set.add` computes the found set |
| `Analyzer.DangerousIgnoresCase` | PE-Import-Analyzer.py:1334 | a name is dangerous exactly when its lower-cased form is |
| `Analyzer.LoadLibraryVariantsNotDangerous` | PE-Import-Analyzer.py:1201-1204 | the match is on whole names: `LoadLibrary` in any case is flagged; `LoadLibraryA`, `LoadLibraryW` and `LoadLibraryExA` are not |
| `Analyzer.Enumerate` | PE-Import-Analyzer.py:1346-1348 | the set's iteration order lists each member once |
| `Analyzer.Analyze` | PE-Import-Analyzer.py:1328-1348 | a failed parse gives the `ValueError` message; otherwise the text or HTML report of the grouped imports, with the dangerous set only when the user opted in |
| `Analyzer.DangerousSectionOptIn` | PE-Import-Analyzer.py:1346-1348 | the dangerous section is non-empty exactly when the user opted in and some imported name is dangerous; it then names exactly those imports, one row per name, in lower-cased order |

## Left out

- The `lief.parse` call and its `lief.PE.Binary` check are a foreign binary-format library.
  They are modelled as an optional sequence of import records.
- The interactive and file I/O of `main` is not modelled: `argparse`, the `input()` prompts,
  the output file name derived by `os.path`, `open`/`write`, `print`, and the catch-all
  `except`. The two yes/no answers are parameters of `Analyzer.Analyze`, and its result
  stands for what is written or printed.
- The literal contents of `dll_api_explanations` are static data. The catalog is a parameter
  (`Catalog.Catalog`); only `DEFAULT_EXPLANATION` and the list `dangerous_functions` are kept.
- `Catalog.Entry` reads a `Catalog.DllRecord` as the renderers' `CatalogEntry` value. The model
  does not tie the padded records to the catalog that `Analyzer.Analyze` is given.
- The catalog is a sequence of entries. Two entries with the same name, which a Python dict
  cannot hold, are outside the model; `Catalog.Lookup` would return the first.
- `str.lower` and `html.escape` cover ASCII only. There is no Unicode case mapping.
- An API map without an `"apis"` key, where `extend_apis` raises `KeyError`, is not modelled.
  Every record has a map.
- `Catalog.PaddedContents` and `Catalog.PaddedSize` assume no existing key is a placeholder
  name the loop writes. `Catalog.PaddedCollisionFallsShort` shows what happens otherwise.
- The iteration order of Python's `set` is not fixed. `Analyzer.Enumerate` picks some order
  of the set's members; the order matters only among names equal up to case, which the
  stable sort keeps in that order.
