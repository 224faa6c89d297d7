# OFXtoDB: the mapping and accumulation engine, in Dafny

OFXtoDB reads an OFX financial statement and loads its transaction, position and security lists
into a database, an Excel workbook or CSV files. The core is modelled here, one module per part
of the program:

- **Mapping** (`mapping.dfy`). `MappingFromIniFile` validates the `[Mapping]` lines of the
  configuration and sorts them. It then hands them out one at a time, each with the `newtable` and
  `newlist` flags inferred from the next row.
- **Compiler** (`compiler.dfy`). `Writer.__init__` folds those rows into the registry. The
  registry holds, per OFX list and per table: the column positions, the key column positions,
  the tag-to-(position, type code) map and the blank record. Rows of lists absent from the file
  are skipped.
- **Casts** (`casts.dfy`). `__DestFmt` casts a value by its type code: string, decimal, boolean,
  timestamp or date. The timestamp pattern is written out as a matcher. The groomed string the code
  builds from the match is modelled too.
- **Accumulator** (`accumulator.dfy`). The writer's events `OFXListStart`, `OFXRecStart`,
  `OFXPutData` and `OFXRecEnd` act on the current list's tables. `OFXRecEnd` drops a record
  whose key tuple was already kept. The `Writer` class carries the registry, the current list
  and the `__iter__`/`__next__` list order.
- **Walker** (`walker.dfy`). `ElandParent` is the explicit-stack walk that gives every element
  of a subtree with its parent, in pre-order.
- **Context** (`context.dfy`). `AddData` is the second stack walk, which gathers the "nearby"
  values of a list. `ProcessListEntry` derives the BUYSELL and ELEMENTNAME pseudo-tags. The
  regular-expression path split gives a list's tag and upper context.
- **Driver** (`driver.dfy`). The main program filters the known lists to those present in the
  file and collects FID and ORG. It then sends the writer the event stream of every list, context,
  wrapper and entry.
- **Excel** (`excel.dfy`, `excel_book.dfy`). `IndexOneWorksheet` builds the header column
  numbers, the formula columns and the key-to-row index. `IndexAllWorksheets` drives the ready
  flag. `ExcelWBWriter.OFXListEnd` routes each record to its indexed row or to a new row,
  counts inserts and updates, and fills formulas down with `repl`.
- **Csv** (`csv.dfy`). `FieldtoStr` formats each field: Excel-compatible wrapping, quoting and
  dates. `CSVWriter.OFXListEnd` assembles the lines of each table's file.
- **Postgres** (`postgres.dfy`). `PostgresDBWriter.OFXListEnd` builds its SQL text (temporary
  table, match count, MERGE with the non-key SET list) and updates the insert/update statistics.

The helper modules `Wrappers`, `Values`, `Dicts` and `Strs` hold Option/Result, the cast values,
insertion-ordered dicts and the string functions standing for `re.findall`, `split`, `join` and
`replace`.

Library calls the code makes are parameters of the model:

- `html.unescape`, `Decimal()` and the `strptime`/`astimezone` conversion are fields of
  `Casts.CastEnv`.
- The CSV date expression is `CsvConfig.dateLike`.
- ElementTree's XPath `find`/`iterfind` are the `Driver.Doc` functions.
- The database's answers are `db` in `Postgres`.

Element truthiness follows ElementTree: an element is true when it has children. The regular
expressions' `\d` and `\w` classes and `upper()` are modelled on ASCII; `\s` is the set of
characters for which `str.isspace()` holds.

Some behaviours of the code that a reader might not expect, modelled as written:

- The Excel key index is not extended with the keys of newly inserted rows (ExcelWriter.py:118).
- Records are deduplicated only within one list occurrence, since the key lists are cleared at
  each `OFXListStart`.
- A table without key columns makes a MERGE with an empty `ON` clause (`Postgres.NoKeyMerge`),
  and a table whose every column is a key column one with an empty SET list
  (`Postgres.OnlyKeyColumnFails`). PostgreSQL rejects both, which stops the list end.
- A worksheet created earlier in the same run has no ready flag, and a later list end on it
  stops (`ExcelBook.ListEndTableNotReady`).

## Model

| member | source | states |
|---|---|---|
| Casts.BoolCast | OFXWriter.py:64-70 | True exactly when the upper-cased value is Y, YES, T or TRUE; False exactly when it is N, NO, F or FALSE; None exactly otherwise |
| Casts.BoolCastCaseInsensitive | OFXWriter.py:65-67 | two values equal after upper() cast to the same boolean |
| Casts.DestFmt | OFXWriter.py:58-91 | E/S unescape, N parse a decimal, B is the boolean cast; D/DATE give None exactly when the timestamp pattern does not match, DATE gives a midnight time; any other code gives None |
| Casts.MatchRender | OFXWriter.py:72 | the timestamp matcher accepts the text of every well-formed match (also with the one trailing newline `$` admits) and gives back its groups |
| Casts.MatchSound | OFXWriter.py:72 | every string the matcher accepts is the text of its match, possibly followed by one newline |
| Casts.ZoneRoundTrip | OFXWriter.py:72 | the `[offset:name]` group is recovered from its text |
| Casts.TimeGroupNeverEmpty | OFXWriter.py:74-75 | group 2 of a match is always six digits, so the branch for a missing time never runs |
| Casts.Groom | OFXWriter.py:77-81 | the groomed text is date and time, a dot, the fraction field, then the zone field in brackets |
| Casts.GroomZoneField | OFXWriter.py:78-81 | the zone field is a sign (minus only for negative hours, plus without a zone) and at least four digits whose value is the hours times 100; the zone name is dropped |
| Casts.FracFieldValue | OFXWriter.py:77-80 | the fraction field is at least six digits and its value is int(group 4), 0 when absent |
| Casts.FractionNotScaled | OFXWriter.py:77-81 | the fraction ".5" is groomed to ".000005", an integer padded to six digits, not half a second |
| Casts.ZoneGroomed | OFXWriter.py:78-81 | "[-5:EST]" is groomed to "[-0500]": hours times 100, the zone name dropped |
| Strs.TokensJoin | OFXWriter.py:185 | findall(`[^\s,]+`) of tokens joined by separators gives back the tokens |
| Mapping.ParseItem | OFXWriter.py:185-196 | a line is accepted exactly when it has four items, its table section exists and the column is in it; otherwise the matching error; an accepted row carries its items, the column's place among the section's options and the first-appearance numbers of its list and table |
| Mapping.ScanItems | OFXWriter.py:184-197 | the loop gives the error of the first bad line, or every line's row in line order |
| Mapping.RowsErrors | OFXWriter.py:179-187 | an empty mapping raises the "No Mapping section" error; a bad first line raises its own error |
| Mapping.RowsOk | OFXWriter.py:201 | the rows handed out are a sorted permutation of the scanned rows, sorted by (list number, table number, ordinal, tag, column) |
| Mapping.SortRows | OFXWriter.py:201 | the sort's result is a permutation of its input |
| Mapping.SortRowsSorted | OFXWriter.py:201 | the sort's result is ordered by that key |
| Mapping.SortedUnique | OFXWriter.py:201 | two sorted permutations of rows with distinct keys are equal, so the order is fully determined |
| Mapping.Contiguous | OFXWriter.py:201 | in the sorted rows each list, and each table within a list, occupies one contiguous block |
| Mapping.RecordAt | OFXWriter.py:208-215 | missing or empty column definitions raise the "Table definition missing" error; a definition with no item raises the IndexError; otherwise the type category is its first item and PK its second |
| Mapping.RecordFlags | OFXWriter.py:208-209 | newlist implies newtable, and the last row has both |
| Mapping.FlagsCloseBlocks | OFXWriter.py:208-209 | newlist holds exactly when no later row has the same list, newtable exactly when no later row has the same list and table |
| Mapping.MappingSource.Iter | OFXWriter.py:177-203 | after __iter__ the pending rows are the sorted rows, or the error is recorded |
| Mapping.MappingSource.Next | OFXWriter.py:205-216 | __next__ gives the record of the head row and pops it, or StopIteration when none is left |
| Mapping.NoColumnMessageSwapped | OFXWriter.py:192-193 | the message as written names the table as the column and the column as the table |
| Mapping.NoColumnMessageNamesColumn | OFXWriter.py:192-193 | the corrected message names the missing column and then its table |
| Compiler.KeyOf | OFXWriter.py:116 | the key tuple has one value per key column, in PKCols order, taken from that column's slot |
| Compiler.AbsorbPositions | OFXWriter.py:143-145 | known columns keep their positions; a new column gets the next position, the blank record's length |
| Compiler.AbsorbAllKeys | OFXWriter.py:143-148 | a table's column order and key column order are the distinct columns in first-appearance order |
| Compiler.ColumnPositions | OFXWriter.py:143-145 | each column's position is its first-appearance index |
| Compiler.AbsorbTagAt | OFXWriter.py:146 | a tag's entry comes from the last row for that tag in the table and points at that row's column position |
| Compiler.AbsorbAllTags | OFXWriter.py:146 | every last row for a tag has its entry in the table's tag map |
| Compiler.SkipAbsent | OFXWriter.py:142 | rows whose list's final word is not in InThisFile change nothing |
| Compiler.InsideTable | OFXWriter.py:141-148 | rows before a newtable row only grow the open table specification |
| Compiler.CloseTable | OFXWriter.py:149-158 | a newtable row commits the table with an empty record list; a newlist row also commits the list and starts a new table dict |
| Compiler.TableRun | OFXWriter.py:141-158 | a block of rows ending with newtable commits exactly the specification the block builds |
| Accumulator.PutTable | OFXWriter.py:97-106 | the cast value goes to the bare tag's slot if mapped, else to the qualified tag's slot if mapped, else nothing changes; every other slot and the kept records stay |
| Accumulator.EndTable | OFXWriter.py:113-119 | the record and its key tuple are appended exactly when the tuple is not yet kept |
| Accumulator.ApplyTable | OFXWriter.py:35-52 | ListStart empties the records and keys; RecStart installs an all-None buffer with one slot per column |
| Accumulator.ForEachTable | OFXWriter.py:35-37 | the loop over the current list's tables applies the event to every table |
| Accumulator.Apply | OFXWriter.py:32-120 | a registered list becomes current; an unregistered one sets the current list to None, after which record events change nothing; no event adds or drops a list |
| Accumulator.ApplyListStart | OFXWriter.py:32-40 | OFXListStart on a registered list clears every table's records and keys and leaves other lists alone |
| Accumulator.RecordEventsKeepLists | OFXWriter.py:49-112 | record events keep the current list and the registry's lists; with no current list they change nothing |
| Accumulator.EventsKeepRegistry | OFXWriter.py:32-120 | no event sequence registers or drops a list |
| Accumulator.KeepFirstSpec | OFXWriter.py:116-119 | keeping first occurrences gives the distinct keys in first-seen order, each with the record of its first occurrence |
| Accumulator.EndAllKeepsFirst | OFXWriter.py:111-120 | a run of RecEnds on an emptied table keeps exactly the first record of each key |
| Accumulator.FirstRecordWins | OFXWriter.py:111-120 | after a list's RecEnds the keys are distinct, parallel to the records, and each record is the first one seen with its key |
| Accumulator.NoKeyAtMostOne | OFXWriter.py:116-117 | a table without key columns keeps at most one record |
| Accumulator.Writer.ListStart | OFXWriter.py:32-40 | the writer's state after OFXListStart is the event's effect; it returns the list's tables or None |
| Accumulator.Writer.RecStart | OFXWriter.py:48-53 | the writer's state after OFXRecStart is the event's effect |
| Accumulator.Writer.PutData | OFXWriter.py:95-107 | the writer's state after OFXPutData is the event's effect |
| Accumulator.Writer.PutValue | OFXWriter.py:58-107 | a put of a possibly missing value fails exactly when the value is None and some current table casts the tag (or, failing that, the parent) with E, S, N, B, D or DATE; otherwise it is OFXPutData of the text |
| Accumulator.PutTextIrrelevant | OFXWriter.py:95-107 | when no current table casts the tag with one of those codes, the text put leaves the same tables whatever it is, so a None that does not raise can stand as "" |
| Accumulator.ApplySpecs | OFXWriter.py:32-120 | no event changes a table's specification, and events other than OFXListStart keep the current list's specifications |
| Accumulator.ApplyAllSpecs | OFXWriter.py:32-120 | no event sequence changes a table's specification |
| Accumulator.Writer.RecEnd | OFXWriter.py:111-120 | the writer's state after OFXRecEnd is the event's effect |
| Accumulator.Writer.ListEnd | OFXWriter.py:42-43 | the base writer's OFXListEnd changes nothing |
| Accumulator.Writer.Iter | OFXWriter.py:163-166 | the pending list order is the registry's lists in insertion order |
| Accumulator.Writer.Next | OFXWriter.py:168-171 | __next__ pops and gives the first pending list, or StopIteration |
| Accumulator.NewWriter | OFXWriter.py:125-159 | a mapping error propagates; otherwise the writer's registry is the compiled mapping and no list is current |
| Walker.Pre | WalkElementTree.py:16-27 | the walk has one pair per element of the subtree and starts with (start, None) |
| Walker.PreParents | WalkElementTree.py:22-25 | every pair after the first pairs an element with the parent it is a child of |
| Walker.PreLeaf | WalkElementTree.py:18-27 | a start element without children gives exactly one pair |
| Walker.ElandParent.Iter | WalkElementTree.py:12-14 | after __iter__ the whole pre-order walk of the start element is still to come |
| Walker.ElandParent.Next | WalkElementTree.py:16-27 | __next__ gives the next pair of the pre-order walk, or StopIteration when the walk is done |
| Walker.Walk | WalkElementTree.py:12-27 | iterating ElandParent gives exactly the pre-order walk with parents |
| Context.AddData | OFXtoDB.py:42-67 | the result is the global values, unchanged and first, followed by the context values of the subtree |
| Context.AddStep | OFXtoDB.py:45-66 | each step of the loop moves values from the stack to the result, keeps what is still to be gathered, and shrinks the work left |
| Context.CtxIsWalk | OFXtoDB.py:46-56 | without known lists in the subtree, the context values are the text-bearing pairs of the pre-order walk, qualified "parent/tag" with "" for the root's parent |
| Context.KnownListsSkipped | OFXtoDB.py:48-63 | a known list contributes nothing unless it is the list processed, and then only its DTSTART/DTEND children qualified by the list tag |
| Context.HoistDates | OFXtoDB.py:58-62 | the dates of the processed list are appended as "LIST/DTxxx" values |
| Context.BuySell | OFXtoDB.py:71-86 | BUY* gives BUY, SELL* SELL, INCOME/REINVEST INCOME, INVEXPENSE/MARGININTEREST FEES, any other tag but INVBANKTRAN OTHER |
| Context.BankTranSign | OFXtoDB.py:78-80 | INVBANKTRAN gives SELL exactly when TRNAMT starts with "-", else BUY |
| Context.ListEntryPuts | OFXtoDB.py:70-87 | an INVTRANLIST entry gets one BUYSELL put before the ELEMENTNAME put; other lists get only ELEMENTNAME, qualified by the list name |
| Context.PathSplit | OFXtoDB.py:122-127 | the path is the upper context, a "", "/" or "//" separator and the final word; the search context is ".//" plus the upper context, or plus the list tag when none remains |
| Context.UpperContextCut | OFXtoDB.py:122 | the upper context is the path cut before its final segment and separator |
| Strs.FinalWord | OFXtoDB.py:123 | the list tag is the path's longest word-character suffix |
| Driver.PresentSpec | OFXtoDB.py:101-104 | a known list survives exactly when it is found in the document; the survivors keep their order |
| Driver.FilterInThisFile | OFXtoDB.py:101-104 | the reversed-index pop loop leaves exactly the present lists |
| Driver.GlobalVars | OFXtoDB.py:106-109 | FID and ORG become "FI/FID" and "FI/ORG" values exactly when the FI element has both, and their values are those children's texts |
| Driver.VarPuts | OFXtoDB.py:136-137 | one put per context value, in order, with its tag, its text ("" for None) and its qualified tag |
| Driver.RaisingFrom | OFXtoDB.py:136-137 | the first context value from a position on whose put raises, or the end |
| Driver.FirstRaising | OFXtoDB.py:136-137 | no value before it raises, and the one at it, if any, does |
| Driver.EntryTrace | OFXtoDB.py:133-142 | an entry gives RecStart, then its pseudo-tag puts, the context values and its own walk puts, then RecEnd; it stops after RecStart when ProcessListEntry raises, and just before the first context value without text that a current table casts with E, S, N, B, D or DATE |
| Driver.EntryEvents | OFXtoDB.py:133-142 | the events of an entry are RecStart, the pseudo-tag puts and the context puts up to the first that raises, then, when none raises, the walk puts and RecEnd |
| Driver.EntryPutFirst | OFXtoDB.py:138-141 | the entry's own text is put under its bare tag before its descendants |
| Driver.EntryCounts | OFXtoDB.py:133-142 | each entry gives exactly one RecStart and, when it completes, one RecEnd |
| Driver.WrapperCounts | OFXtoDB.py:131-142 | a wrapper gives one RecStart and one RecEnd per child other than DTSTART/DTEND |
| Driver.WrapperRuns | OFXtoDB.py:131-142 | when every child can be classified and no context value's put raises, the wrapper runs to completion |
| Driver.ListStartSpecs | OFXtoDB.py:128 | after OFXListStart the current tables are those registered for the list, none when it is unregistered |
| Driver.SpecsKept | OFXtoDB.py:133-142 | record events keep the current list and its table specifications |
| Driver.PutVars | OFXtoDB.py:136-137 | the context-value loop puts every value up to the first that raises, and reports whether all were put |
| Driver.RunEntry | OFXtoDB.py:133-142 | the writer's state after one entry is the entry's events applied |
| Driver.RunWrapper | OFXtoDB.py:131-142 | the writer's state after one wrapper is its events applied |
| Driver.RunContext | OFXtoDB.py:129-142 | the writer's state after one upper context is its events applied |
| Driver.RunList | OFXtoDB.py:120-143 | the writer's state after one list is its events applied, the list being skipped when not found |
| Driver.Run | OFXtoDB.py:119-143 | the writer's state after the loop is the whole run's events applied |
| Driver.Convert | OFXtoDB.py:98-143 | no FI or a bad mapping stops the run with its error; otherwise the writer holds the compiled registry after the run's events |
| Excel.ReplValue | ExcelWriter.py:16-17 | repl keeps the letters and gives the row number plus one |
| Excel.FillDownRef | ExcelWriter.py:128-129 | a one-to-three-letter reference moves down one row |
| Excel.FillDownNoRef | ExcelWriter.py:128-129 | a formula without references is unchanged |
| Excel.ColNumbers | ExcelWriter.py:33-41 | each mapped column gets the 1-based number of its first matching header; a missing one raises the "Column ... is not in spreadsheet" error |
| Excel.ColNumbersNoDup | ExcelWriter.py:33-38 | distinct mapped columns get distinct column numbers |
| Excel.PkNumbers | ExcelWriter.py:46-54 | each key column gets the 0-based index of its first matching header; a missing one raises the "PK Column" error |
| Excel.MapColumns | ExcelWriter.py:31-41 | the header loop gives the column numbers and leaves the unmapped columns as formula candidates |
| Excel.KeyColumns | ExcelWriter.py:46-54 | the key header loop gives the key column indexes |
| Excel.IndexUpToSpec | ExcelWriter.py:55-60 | every row 2..max_row has its key indexed at that row or a later one, and every indexed row holds its key |
| Excel.IndexLastWins | ExcelWriter.py:55-60 | a key is indexed at a row exactly when no later row holds the same key |
| Excel.IndexInjective | ExcelWriter.py:55-60 | no two keys are indexed at the same row |
| Excel.IndexRows | ExcelWriter.py:55-60 | the row loop builds exactly that index |
| Excel.FormulaColumns | ExcelWriter.py:42-45 | the kept columns are exactly those whose last cell is a formula text and the sheet has data rows |
| Excel.PruneFormulaCols | ExcelWriter.py:42-45 | the corrected pruning loop examines every column and keeps exactly the formula columns |
| Excel.PruneAsWritten | ExcelWriter.py:42-45 | the loop as written, removing while iterating, skips the column after each removal |
| Excel.SkippedColumnKept | ExcelWriter.py:42-45 | with two empty unmapped columns, the loop as written keeps column 2, which has no formula |
| Excel.NumberCellStopsBuild | ExcelWriter.py:44 | a number in the last row of an unmapped column stops the build as written, while the corrected build succeeds |
| Excel.FormulaCheck | ExcelWriter.py:44 | the test as written keeps a column exactly when it is a formula column as the corrected build defines it, and otherwise drops it or raises |
| Excel.FormulasAsWritten | ExcelWriter.py:42-45 | the pruning loop as written keeps some of the columns it is given, never more |
| Excel.BuildIndexOk | ExcelWriter.py:27-61 | the corrected build succeeds exactly when every mapped and every key column has a header |
| Excel.BuildAsWrittenAgrees | ExcelWriter.py:27-61 | when the build as written succeeds, the corrected build succeeds with the same column numbers and index, and the formula columns it keeps are unmapped columns of the sheet |
| Excel.BuildIndexColumns | ExcelWriter.py:31-45 | every mapped column sits under its header, no two share a column, and the formula columns are exactly the unmapped columns with a formula |
| Excel.BuildIndexKeys | ExcelWriter.py:46-60 | key columns sit under their headers and the index maps each row's key to the last row holding it |
| Excel.IndexOneWorksheet | ExcelWriter.py:27-61 | the worksheet gets the built attributes and the ready flag True, or keeps its flag when the build fails |
| Excel.StartOne | ExcelWriter.py:70-77 | a sheet met for a table is indexed when it has rows and no flag yet; every other sheet is unchanged |
| Excel.IndexList | ExcelWriter.py:69-77 | each sheet is indexed with the first specification naming it |
| Excel.IndexAllWorksheets | ExcelWriter.py:67-77 | after the pass each sheet is indexed with the first table naming it in registry order, or untouched |
| ExcelBook.RouteCounts | ExcelWriter.py:116-132 | inserts are the records whose key is not indexed, updates the rest; together they are the batch length |
| ExcelBook.ReplayUpdates | ExcelWriter.py:116-132 | a batch whose keys are all indexed gives zero inserts and one update per record |
| ExcelBook.RouteMaxRow | ExcelWriter.py:118 | max_row grows by one per new row, and an unindexed record goes to max_row + 1 |
| ExcelBook.DestDistinct | ExcelWriter.py:118 | records with distinct keys go to distinct rows |
| ExcelBook.RouteCells | ExcelWriter.py:118-120 | each record's values land in its row at the mapped columns, in order |
| ExcelBook.FillCell | ExcelWriter.py:127-129 | a formula text is filled down to a text; any other value, where `re.sub` would raise, is copied unchanged, a branch a ready sheet never reaches since its last-row formula cells stay text |
| ExcelBook.RouteKeepsFormulaText | ExcelWriter.py:126-129 | the formula columns of the last row still hold formula texts after fill-down |
| ExcelBook.NewSheetCells | ExcelWriter.py:99-103 | a new sheet holds the header row and then every record, and has no ready flag |
| ExcelBook.Bump | ExcelWriter.py:105-107 | the table's Stats entry starts at [0, 0] and grows by the inserts and updates |
| ExcelBook.ListEndTableNew | ExcelWriter.py:99-107 | a table without a sheet gets a new sheet, and every record counts as inserted |
| ExcelBook.ExistingTable | ExcelWriter.py:108-115 | on an existing sheet the list end stops exactly when its index is not ready, then naming the table and changing no sheet; the Stats entry exists either way |
| ExcelBook.ListEndTableNotReady | ExcelWriter.py:110-115 | a sheet without a ready index stops the list end, after its Stats entry is created |
| ExcelBook.ListEndTableCounts | ExcelWriter.py:108-132 | on a ready sheet, inserts are the unindexed keys and updates the indexed ones |
| ExcelBook.ListEndTableCells | ExcelWriter.py:116-120 | on a ready sheet every record is written to its destination row |
| ExcelBook.EndFromError | ExcelWriter.py:96-115 | a list end that stops names a table of the list whose sheet has no ready index |
| ExcelBook.RouteRecords | ExcelWriter.py:116-132 | the routing loop writes the cells and counts exactly as the routing function says |
| ExcelBook.ExcelWBWriter.AddSheet | ExcelWriter.py:99-107 | the new worksheet object holds the new sheet and the Stats entry grows |
| ExcelBook.ExcelWBWriter.EndExisting | ExcelWriter.py:108-132 | an existing worksheet is routed into, or the list end stops |
| ExcelBook.ExcelWBWriter.EndOne | ExcelWriter.py:97-132 | one table of the list ends as the list-end function says |
| ExcelBook.ExcelWBWriter.ListEnd | ExcelWriter.py:95-132 | with a current list every table ends in order up to the first that stops; without one nothing changes |
| ExcelBook.ExcelWBWriter.EndList | ExcelWriter.py:96-132 | the loop over a list's tables matches the list-end function |
| Csv.ConfigOf | CSVWriter.py:38-44 | WriteToDirectory defaults to ".", Headers to "NO"; WhenToQuote and ExcelCompatibility are taken as given, QuoteChar and ColumnSeparator by their first character; the four are required and the two character settings non-empty, and the error names the first failing one in the order WhenToQuote, ExcelCompatibility, QuoteChar, ColumnSeparator |
| Csv.FieldtoStr | CSVWriter.py:5-35 | None gives ""; a string holding the separator is always enclosed in quote characters |
| Csv.QuotedField | CSVWriter.py:32-34 | a quoted str field, followed by a separator, a newline or nothing, reads back as the text after the Excel step; an unquoted one never holds the separator |
| Csv.PlainString | CSVWriter.py:16-32 | with Excel compatibility off and quoting as needed, a string without the separator is unchanged |
| Csv.ExcelWraps | CSVWriter.py:18-31 | with Excel compatibility on and a separator that is not a regular-expression metacharacter, a string is wrapped as `="..."` exactly when it looks like a number, holds the separator, looks like a date or is TRUE/FALSE |
| Csv.DigitsWrapped | CSVWriter.py:19-20 | a digit string is wrapped |
| Csv.SeparatorWrapped | CSVWriter.py:19-20 | a one-line string holding the separator is wrapped |
| Csv.FormulaRoundTrip | CSVWriter.py:20 | the wrapped string gives back the original text |
| Strs.UndoubleDouble | CSVWriter.py:34 | doubling the quote character is undone by reading pairs back |
| Csv.DateTextFields | CSVWriter.py:13-15 | a datetime prints as YYYY-MM-DD, followed by " HH:MM:SS" exactly when the time is not midnight |
| Csv.BareQuoteUnreadable | CSVWriter.py:32-34 | an unquoted string starting with the quote character yields a line a CSV reader cannot read |
| Csv.LinesReadBack | CSVWriter.py:57-62 | the lines of readable records read back as the records' field texts |
| Csv.CsvTextReadBack | CSVWriter.py:51-62 | a table's file reads back as its header and records |
| Csv.AllStringsReadable | CSVWriter.py:32-34 | with every string quoted, records of strings and Nones are readable |
| Csv.CsvPathInjective | CSVWriter.py:50 | distinct tables write distinct file names |
| Csv.WrittenTables | CSVWriter.py:49-63 | after the loop each table's file holds its text |
| Csv.WrittenOthers | CSVWriter.py:49-63 | files of other names are left as they were |
| Csv.EncodeRow | CSVWriter.py:58-62 | the field loop builds the record's line: fields joined by the separator, then a newline |
| Csv.WriteTable | CSVWriter.py:50-62 | the table loop builds the header line when enabled, then one line per record |
| Csv.CsvWriter.ListEnd | CSVWriter.py:47-63 | with a current list every table's file is written; without one nothing changes |
| Csv.CsvWriter.WriteList | CSVWriter.py:49-63 | the files written are exactly the list's tables' texts |
| Postgres.ColListSplits | PostgresWriter.py:43-44 | the column list splits back into every column, double-quoted, in order |
| Postgres.HoldEverywhere | PostgresWriter.py:42-66 | create, insert and drop all name "<table>_Hold" |
| Postgres.MergeReadsHold | PostgresWriter.py:55 | the MERGE reads "<table>_Hold" into the permanent table |
| Postgres.MatchQueryShape | PostgresWriter.py:46-50 | the match query is "Select 0" exactly when there are no key columns; otherwise its ON clause is the MERGE's |
| Postgres.NoKeyMerge | PostgresWriter.py:55-56 | without key columns the MERGE's ON clause is empty |
| Postgres.InsertBranchAligned | PostgresWriter.py:63-65 | the insert branch's columns and values name the same columns in the same order |
| Postgres.NonPkMembers | PostgresWriter.py:59-62 | the SET list assigns exactly the non-key columns |
| Postgres.NonPkNoDup | PostgresWriter.py:59-62 | no column is assigned twice |
| Postgres.NonPkOrder | PostgresWriter.py:59-62 | the assignments follow the column order |
| Postgres.SetListStep | PostgresWriter.py:58-62 | one column step appends its assignment, with the connector only after the first |
| Postgres.AppendSetList | PostgresWriter.py:57-62 | the connector loop appends exactly the SET list |
| Postgres.BuildStatements | PostgresWriter.py:42-66 | the statements built are the five SQL texts of the table |
| Postgres.Tally | PostgresWriter.py:80-83 | inserted grows by rowcount minus matched and updated by matched, from [0, 0] |
| Postgres.TallyAt | PostgresWriter.py:80-83 | only the table's own entry changes |
| Postgres.MergeableText | PostgresWriter.py:55-62 | a table's MERGE is accepted exactly when neither its ON clause nor its SET list is empty |
| Postgres.OnlyKeyColumnFails | PostgresWriter.py:57-63 | a table whose only column is its key gets an empty SET list, so its MERGE fails |
| Postgres.FailingFrom | PostgresWriter.py:40-75 | the first table from a position on whose MERGE fails, or the end |
| Postgres.FirstFailing | PostgresWriter.py:40-75 | every table before it is merged, and the one at it, if any, has an empty ON clause or SET list |
| Postgres.ListError | PostgresWriter.py:40-75 | a list end fails exactly when some table's MERGE fails, naming such a table |
| Postgres.FailedListEndsWithMerge | PostgresWriter.py:40-78 | a failing list end sends six statements per table before the first failing one and four for it, the last its MERGE with an empty ON clause or SET list, and no drop or commit after |
| Postgres.StatsEntry | PostgresWriter.py:39-83 | after a list each table's entry is raised by its own counts; other entries stay |
| Postgres.ListStats | PostgresWriter.py:39-83 | the same for the tables of one list, up to the first whose MERGE fails |
| Postgres.LogEntry | PostgresWriter.py:39-79 | the statements are sent table by table, six per table |
| Postgres.PostgresDBWriter.WriteTable | PostgresWriter.py:41-83 | a table with key columns and a non-key column appends its six statements and tallies its counts; any other appends four, ending with the MERGE, tallies nothing and reports the error |
| Postgres.PostgresDBWriter.WriteList | PostgresWriter.py:39-83 | the list loop sends the list's statements up to and including the failing MERGE, tallies the tables before it and reports its error |
| Postgres.PostgresDBWriter.ListEnd | PostgresWriter.py:38-83 | with a current list its tables are written up to the first failing MERGE, whose error is reported; without one nothing changes |

## Left out

- Database I/O: the psycopg2 connection, cursors, `execute_values`, commit and close. The SQL
  sent is recorded as a log, and the match count and MERGE row count come from the parameter `db`.
- `MappingFromDB`, the mapping read from the database catalogue. Its ordering is server-side SQL.
- openpyxl: workbook load and save, sheet creation, and number-format and font copying. A
  worksheet is a grid of values with its max_row and max_column.
- The threads of `IndexAllWorksheets` and the `join`. Each index build is modelled as a sequential
  call that sets the ready flag, False before it starts and True after it completes.
- Casts.DestFmt: the datetime of a D/DATE cast comes from a parameter standing for
  `strptime`/`astimezone` in the target zone. The contract states when the result is None and
  that DATE gives midnight, but not the converted instant.
- Casts.DestFmt: the parameter is total, so a text that matches the timestamp pattern but that
  `strptime` rejects at OFXWriter.py:82-83 gets a datetime here, where the source raises
  ValueError and the program stops. Examples are a month 13 ("20231301000000"), a fraction of
  seven digits, which `%f` does not take, and a zone of 24 hours or more ("[+24]").
- `html.unescape` and `Decimal()` are parameters; their exceptions (a malformed decimal raises
  in the source) are not modelled.
- Csv.ExcelWraps: the date-recognition expression at CSVWriter.py:21-26 is the predicate
  `dateLike`, not a matcher.
- Csv.ExcelWraps: the separator is matched as a literal character (`NumberOrSep`), while
  CSVWriter.py:19 pastes it into the pattern unescaped, so any regular-expression metacharacter
  as separator changes or breaks the pattern there. For example `|`, `^` and `$` make it match
  every one-line string, and `(` or `)` makes `re.search` raise. The contract holds only for
  separators that are not metacharacters.
- Accumulator.EndTable: key tuples are compared by their modelled values, and a decimal is
  carried as its text, so `Decimal('1.0')` and `Decimal('1.00')`, or a decimal 5 and an integer
  5, count as different keys, where Python finds them equal; so does `True == 1`. The same
  comparison decides the row in ExcelBook.DestRow and the kept keys of ExcelBook.RouteCounts.
- Excel.IndexOneWorksheet: the worksheet chain (IndexAllWorksheets and the list end) uses the
  corrected pruning loop and value check of the Findings table; the build as written is
  Excel.BuildIndexAsWritten, related to it by Excel.BuildAsWrittenAgrees.
- Excel.BuildIndexOk: states when the corrected build succeeds; the build as written can also
  stop on a last-row value that is not text (Excel.NumberCellStopsBuild).
- Accumulator.Writer.PutValue: when a put raises, the source has already cast the value into
  the tables before the one that raises; the model leaves the state unchanged, since the
  exception ends the program before anything is written out.
- File open, write and close in the CSV writer. Files are a map from path to text.
- ofxtools parsing and ElementTree's XPath `find`/`iterfind`/`iter`. The document is a tree of
  elements, and the XPath queries are functions of `Driver.Doc`.
- `OFXtoDataParams.py`, `ChooseWriter.py` and `DataDumper.py` (configuration reading, writer
  dispatch, printing), and the summary printing at OFXtoDB.py:145-151.
- `OFXAllDone`: the workbook save (ExcelWriter.py:134-135) and the session close are I/O.
- A missing `TRNAMT` under `INVBANKTRAN` (an AttributeError in the source) is modelled: such an
  entry is reported as not completing. The library exceptions named in the lines above are
  not modelled.

## Findings

| source | as written | input that shows it | evidently intended | confidence | as-written member | corrected member |
|---|---|---|---|---|---|---|
| OFXWriter.py:192-193 | the message passes the table (item 1) as the column and the column (item 3) as the table | the line "L, T, TAG, c" where section Table:T has no option c gives "No column T in table c" | "No column c in table T" | high, not executed | Mapping.NoColumnMessageSwapped | Mapping.NoColumnMessageNamesColumn |
| ExcelWriter.py:42-45 | columns are removed from FormulaCols while iterating over it, so the column after each removed one is never examined | a sheet with two unmapped columns, both empty in the last row: column 2 stays a formula column | every unmapped column without a formula in its last row is dropped | high, not executed | Excel.SkippedColumnKept | Excel.PruneFormulaCols |
| ExcelWriter.py:44 | `value[0]` is read from a last-row cell that is not a string, which raises TypeError in the index thread; the ready flag stays False and the list end fails | a sheet with headers ID and Note whose one data row has the number 5 under Note | a value that is not a formula text is not a formula column, and the build succeeds | high, not executed | Excel.NumberCellStopsBuild | Excel.BuildIndexColumns |
