# go-infrastructure: a Dafny model of `flat`, `pricefmt`, `sterrors` and parts of `stlogs`

This project models the core of the Go repository `stocktwits/go-infrastructure` in Dafny and
proves properties of that model.

- **`flat`** is a small CSV export engine (files `dynamic_value.dfy`, `formater.dfy`,
  `splits.dfy`, `csv.dfy`, `csv_scenarios.dfy`).
  - A *dynamic value* is a raw Go value classified into one of nine kinds. An error value has
    kind Null and carries its error. A reader keeps its concrete Go type (`*bytes.Buffer`,
    `*strings.Reader`, ...): all readers are streams, but a type assertion to one reader type
    panics on a reader of another.
  - `Key` and `Idx` navigate safely: they give the Null constant, never an error.
  - `strVal` renders a value as a CSV field, or as the sentinel `<ERROR>` with an error.
  - A *formatter* is any function from a dynamic value to a dynamic value or an error. Those
    built by `NewFormatter` wrap a typed user function in a kind check; a caller's own
    formatter is run as it is, with no check. The type assertion that follows
    the check can still panic, on a reader of another concrete type.
  - No formatter reaches `Export` in the program: `Source`'s fields are unexported, every
    source the package builds has none, and `ColFormatted` drops the one it is given. The
    model's flattener is wider and may store a formatted source; the formatter path of
    `strVal` and the `ExportPanicked` ending exist only for such a flattener.
    `PlainFlattenerNeverPanics` proves that a flattener storing no formatter (every flattener
    Go code can write) never takes that path and never makes `Export` panic.
  - *Splitters* are column-scoped, kind-checked include predicates. They combine with AND and
    OR, which stop at the first deciding answer.
  - A *row* collects named columns and, when created with headers, the header names in
    first-insertion order. `Row` is a class whose `values` and `headers` are updated in place.
  - `Export` walks the rows the root value produces. It hands the CSV writer the header record
    of a row with headers, then one data record per row with exactly one field per header.
    The writer buffers; only the final flush, reached when every row went through, delivers
    the records to the destination.
- **`pricefmt`** (`pricefmt.dfy`) describes a price for display.
  - It keeps the canonical decimal text, the sign, the currency code and the symbol.
  - For a price between zero and one, it adds the number of zeros after the point, the value
    of the next digits (at most `valueLength` of them) and whether subscript display applies.
- **`sterrors`** covers two files.
  - `sterror.dfy` looks up an error code's message and HTTP status, falling back to the
    factory's defaults, and lays out `Error()`.
  - `document.dfy` models `GetDocumentMd`, which writes the error table as Markdown. It
    collects the codes, sorts them in place in an array, and writes line by line to a writer
    that may fail.
- **`stlogs`** (`logs.dfy`) covers the level table and the audit data and tags of an entry.
  - `InfoCtx.AddTags` merges tags and removes duplicates.
  - `AddData` overwrites one key.
  - `CopyInfo` copies an entry's context into a fresh object.

`wrappers.dfy` holds the shared result types: `Option`, `Result`, and `Outcome`, which is
returned, raised or panicked. It also holds Go-style wrapped errors. `text.dfy` holds `%d`
decimal rendering, string joining and small sequence and set helpers.

Collaborators that are not shown become parameters:
- `json.Marshal` and `%g` are the `Codecs` of `strVal`.
- The user's flattener, formatter functions and predicates are Dafny functions.
- The `shopspring/decimal` conversions are a `DecimalLib`, which gives canonical decimals.
- A JSON stream is the list of objects it decodes, plus how it ends: what the reader yields
  on its first read.
- An `io.Writer` takes a fixed number of writes and then fails. `TextWriter` plays this role
  for `GetDocumentMd`, and `RecordWriter` for the CSV writer.

Go map iteration order is arbitrary. It is modelled by choosing an element with `:|`: in
`CollectCodes`, in `InfoCtx.AddTags` and in `AuditEntry.CopyInfo`. The contracts of these
three hold whatever order is chosen.

Where the source and its intended behaviour differ, the model follows the source:
- A stream whose decoding fails makes `streamRows` return without closing the row channel.
  `Export` then never returns; this is `Blocked` in the model. It is not a terminal error.
- `NoSplit` binds an `any` predicate to the column `""`. On that column the kind check still
  runs: a non-Null value is a type mismatch, and a nil value panics in the type assertion.
  So `NoSplit` is a no-op filter only for named columns.
- A root with no rows, such as an empty array or an empty stream, hands nothing to the writer,
  not even a header record.
- Every row created with headers replaces the headers in effect. Only the first row is
  created with headers, so this is the first row's header list.
- `ColFormatted` drops the formatter. `Source.format` has a value receiver and its result is
  not kept, so the stored source keeps its old formatter.
- An AND or OR over an empty list includes everything.

## Model

| member | source | states |
|---|---|---|
| DynamicValues.NewDynamicValue | flat/dynamic_value.go:56-58 | the value keeps its payload, has no error, and its kind is the payload's classification |
| DynamicValues.ErrorDynamicValue | flat/dynamic_value.go:68-74 | an error value has kind Null, a nil payload and the given error |
| DynamicValues.StreamJSONFromReader | flat/dynamic_value.go:90-92 | a non-nil reader of a given concrete type is wrapped unread, keeping its type, as a stream-of-objects value without error |
| DynamicValues.Classify | flat/dynamic_value.go:33-54 | the kind switch: nil and unknown types are Null, every reader type is a stream; its totality and agreement with the static type are `ClassifyAgreesWithType` |
| DynamicValues.ClassifyAgreesWithType | flat/dynamic_value.go:33-54 | classification is total: nil and unknown types are Null, a reader is a stream, any other value is classified like the zero value of its type |
| DynamicValues.MatchingKindAsserts | flat/dynamic_value.go:60-66 | a value whose kind is that of a valid type argument passes the type assertion to it, except exactly a reader asserted to another concrete reader type |
| DynamicValues.StrVal | flat/dynamic_value.go:111-142 | the rendering of a value as a CSV field with an optional error; what it gives per kind is stated by `StrValOfError`, `StrValOfScalars`, `StrValOfStream` and `StrValErrorCases` |
| DynamicValues.ErrorValueRendering | flat/dynamic_value.go:112-114 | rendering an error value gives `<ERROR>` and an error that wraps the value's error |
| DynamicValues.StrValOfError | flat/dynamic_value.go:112-114 | any value carrying an error renders as `<ERROR>`, with an error that wraps it |
| DynamicValues.StrValOfScalars | flat/dynamic_value.go:123-138 | Null (and an unclassified value) renders as "", a string verbatim, a bool as true/false, an int as plain decimal, all without error |
| DynamicValues.StrValOfStream | flat/dynamic_value.go:135-136 | a stream always renders as `<ERROR>` with an error |
| DynamicValues.StrValErrorCases | flat/dynamic_value.go:111-142 | rendering fails exactly for error values, streams and failed marshalling, and a failure always comes with `<ERROR>` |
| DynamicValues.RootKey | flat/dynamic_value.go:146-160 | one key step; its cases are `RootKeyCases` |
| DynamicValues.RootKeyCases | flat/dynamic_value.go:146-160 | `rootKey` gives Null off an object or for an absent key, and the classified child for a present key |
| DynamicValues.Key | flat/dynamic_value.go:164-177 | the key walk; stated by `KeyIsLookup`, `KeyNeverFails` and `KeyUnfolds` |
| DynamicValues.KeyIsLookup | flat/dynamic_value.go:164-177 | `Key(k1..kn)` is the value reached by walking the keys down nested objects, and Null for no keys, a missing key or a non-object step |
| DynamicValues.KeyNeverFails | flat/dynamic_value.go:164-177 | `Key` never produces an error value |
| DynamicValues.KeyUnfolds | flat/dynamic_value.go:166-176 | `Key` of two or more keys is `rootKey(k1).Key(k2..kn)`; `Key()` and `Key` on Null are Null |
| DynamicValues.Idx | flat/dynamic_value.go:196-214 | one index step; its cases are `IdxCases` |
| DynamicValues.IdxCases | flat/dynamic_value.go:196-214 | `Idx(i)` gives the classified element in range on an array kind, and Null otherwise; never an error |
| Formatters.NewFormatter | flat/formater.go:12-33 | the formatter keeps its type arguments and user function |
| Formatters.NewSafeFormatter | flat/formater.go:37-41 | the wrapped user function always succeeds with the safe function's result |
| Formatters.Apply | flat/formater.go:8-32 | a formatter applied to a value: a caller's own function as it is; the `NewFormatter` closure passes nil through, then runs the type checks, the type assertion and the user call; stated by `NilPassesThrough`, `ApplyCases`, `UserFunctionSeesItsType`, `SuccessHasOutputKind` and `FormatCases` |
| Formatters.NilPassesThrough | flat/formater.go:14-16 | a `NewFormatter` closure returns a value with a nil payload unchanged, without error |
| Formatters.ApplyCases | flat/formater.go:18-31 | invalid type arguments and a kind mismatch give their errors; when they pass, the type assertion panics exactly on a reader of another concrete type; a user error is wrapped; success, exactly when the checks and the assertion pass and the user function succeeds, gives the reclassified output |
| Formatters.UserFunctionSeesItsType | flat/formater.go:22-26 | when the checks pass, the payload is a value and `dv.Value().(T)` panics exactly when a reader meets another concrete reader type |
| Formatters.SuccessHasOutputKind | flat/formater.go:31 | on success the result is the output reclassified; an output of type S has S's (non-Null) kind and no error |
| Formatters.SafeFormatterNeverFailsInUser | flat/formater.go:37-41 | with valid types and a matching kind, a safe formatter succeeds exactly when its type assertion holds, and otherwise panics |
| Formatters.Format | flat/dynamic_value.go:181-192 | `DynamicValue.Format` over any formatter; stated by `FormatCases` and `CustomResultUnchecked` |
| Formatters.FormatCases | flat/dynamic_value.go:181-192 | for every formatter, typed or a caller's own: `Format(nil)` is the identity; a formatter error gives an error value of kind Null; a formatter panic stays a panic; a returned value is passed on unchecked |
| Formatters.CustomResultUnchecked | flat/dynamic_value.go:181-192 | a caller's formatter returning a fixed value makes `Format` return that value, whatever it was given |
| Splits.SplitFunc | flat/splits.go:38-58 | the typed include function built by `newSplitter`; stated by `SplitFuncOutcomes`, `MatchingKindAppliesPredicate`, `MismatchIsError` and the two int-widening lemmas |
| Splits.NewSplitter | flat/splits.go:30-35 | a single splitter on the header with the given predicate |
| Splits.NoSplit | flat/splits.go:69-76 | the splitter on column "" whose `any` predicate is always true |
| Splits.Split | flat/splits.go:81-86 | the same splitter as `NewSplitter` |
| Splits.SplitAnd | flat/splits.go:123-129 | an AND composite of the given splitters |
| Splits.SplitOr | flat/splits.go:134-140 | an OR composite of the given splitters |
| Splits.ShouldInclude | flat/splits.go:89-101 | a splitter's `ShouldInclude`: other columns and a missing function include, its own column asks the function; stated by `OtherColumnIncluded`, `MissingFunctionIncludes` and `NoSplitIncludesNamedColumns` |
| Splits.OtherColumnIncluded | flat/splits.go:89-93 | a splitter includes every value of every other column, without error |
| Splits.MissingFunctionIncludes | flat/splits.go:95-98 | a splitter without an include function includes everything |
| Splits.IntPredicateAcceptsIntegralFloat | flat/splits.go:44-50 | an int predicate given an integral float in range answers as it does for the int |
| Splits.IntPredicateRejectsFractionalFloat | flat/splits.go:44-54 | a float with a fractional part, given to an int predicate, is a type-mismatch error |
| Splits.MismatchIsError | flat/splits.go:52-54 | a kind mismatch that widening does not cover is an error, never a silent exclusion |
| Splits.MatchingKindAppliesPredicate | flat/splits.go:56-57 | when kinds match, the answer is the user predicate on the payload, except that a reader of another concrete reader type panics |
| Splits.SplitFuncOutcomes | flat/splits.go:38-58 | the only error is the type mismatch; a panic happens exactly for a failed assertion under a Null expected kind or a reader of another concrete type; every answer is the predicate on some value |
| Splits.NoSplitIncludesNamedColumns | flat/splits.go:69-76 | `NoSplit` includes every value of every non-empty column |
| Splits.NoSplitOnEmptyColumn | flat/splits.go:40-57 | on column "" `NoSplit` raises a mismatch for a non-Null value, panics on nil and includes an unclassified value |
| Splits.Fold | flat/splits.go:142-164 | the AND/OR loop from the `i`-th sub-splitter on; stated by `FoldWithoutErrors`, `ShortCircuit`, `ErrorAborts`, `FoldPasses` and `FoldRaises` |
| Splits.EmptyCompositeIncludes | flat/splits.go:143-146 | AND or OR over no splitters includes everything |
| Splits.FoldWithoutErrors | flat/splits.go:149-164 | when no sub-splitter fails, AND's fold is true iff all say include and OR's iff some does |
| Splits.CompositeWithoutErrors | flat/splits.go:142-164 | the same for the whole composite, counting an empty list as include |
| Splits.ShortCircuit | flat/splits.go:155-160 | the first deciding answer (false for AND, true for OR) decides, and later splitters are never consulted |
| Splits.FoldPasses | flat/splits.go:155-160 | a sub-splitter giving the operation's neutral answer (true for AND, false for OR) hands over to the next |
| Splits.FoldRaises | flat/splits.go:150-153 | a sub-splitter that errors ends the loop with its error wrapped |
| Splits.ErrorAborts | flat/splits.go:150-153 | the first error, if no earlier splitter decided, aborts with that error wrapped |
| Splits.PredicateAndNegationPartition | flat/splits.go:142-164 | on its column, OR of a predicate and its negation includes every value of the right kind and AND includes none; a reader of another concrete type makes both panic |
| CsvExport.SourceIdx | flat/csv.go:130-134 | `Source.Idx` navigates the value with `Idx`, drops the formatter and has no error |
| CsvExport.SourceKey | flat/csv.go:140-144 | `Source.Key` navigates the value with `Key`, drops the formatter and has no error |
| CsvExport.SourceFormat | flat/csv.go:149-152 | `format` returns a copy with the formatter replaced and the value kept |
| CsvExport.SourceStrVal | flat/csv.go:155-167 | never a bare error; without a formatter it is the value's `strVal`; it panics exactly when the formatter does; any error comes with `<ERROR>` |
| CsvExport.NewRowState | flat/csv.go:184-195 | a new row is empty, valid and has the given header flag |
| CsvExport.Names | flat/csv.go:203-214 | the column names, one per call, in call order |
| CsvExport.FirstIndex | flat/csv.go:205 | the position of the first occurrence of a name |
| CsvExport.FirstOccurrencesProperties | flat/csv.go:203-208 | the first occurrences of the names are duplicate-free, hold exactly the names used and keep first-appearance order |
| CsvExport.BuiltRowHeaders | flat/csv.go:203-208 | a filled row stays valid, and with headers its headers are the names in first-insertion order |
| CsvExport.BuiltRowColumns | flat/csv.go:214 | a filled row has a column for exactly the names used |
| CsvExport.BuiltRowLastValue | flat/csv.go:210-214 | each column holds the value of the last call with its name, formatter untouched |
| CsvExport.Row.constructor | flat/csv.go:184-195 | `newRow` gives the empty row with the given header flag |
| CsvExport.Row.ColFormatted | flat/csv.go:203-215 | a new name is appended to the headers of a row with headers; the value is stored as given |
| CsvExport.Row.Col | flat/csv.go:198-200 | `ColFormatted` without a formatter |
| CsvExport.Row.HasHeaders | flat/csv.go:218-220 | the row's header flag |
| CsvExport.Row.GetHeaders | flat/csv.go:223-228 | the header list for a row with headers, nil otherwise |
| CsvExport.AddColumn | flat/csv.go:203-215 | one `ColFormatted` call on a row's state; stated by `AddColumnKeepsValid` and `SecondWriteOverwrites` |
| CsvExport.ApplyCalls | flat/csv.go:203-215 | the row after a sequence of column calls; stated by `BuiltRowHeaders`, `BuiltRowColumns` and `BuiltRowLastValue` |
| CsvExport.AddColumnKeepsValid | flat/csv.go:203-215 | one column call keeps the row valid, sets that column and leaves every other column alone |
| CsvExport.SecondWriteOverwrites | flat/csv.go:203-214 | writing a name twice keeps one header and the later value |
| CsvExport.FillRow | flat/csv.go:236 | the flattener's calls, made in order, give the row `ApplyCalls` describes |
| CsvExport.NewErrorCsv | flat/csv.go:47-51 | an error CSV holding the error |
| CsvExport.NewCsv | flat/csv.go:31-44 | the root's own error or an unsupported kind gives an error CSV; otherwise the CSV holds root and flattener |
| CsvExport.NilReaderRejected | flat/dynamic_value.go:51-52 | a nil reader is the Null value, which `newCsv` refuses as an unsupported root |
| CsvExport.GenerateRows | flat/csv.go:231-277 | one row per source that `streamRows` hands to the flattener |
| CsvExport.GeneratedRowsShape | flat/csv.go:235-272 | every generated row is valid, and exactly the first is created with headers |
| CsvExport.ObjectRootGivesOneRow | flat/csv.go:233-237 | an object root gives one row with headers, built from the root |
| CsvExport.ArrayRootGivesRowPerElement | flat/csv.go:238-245 | an array root gives one row per element in index order, headers only on element 0 |
| CsvExport.ObjectArrayRootGivesRowPerObject | flat/csv.go:246-253 | an array-of-objects root gives one row per object in index order, headers only on the first |
| CsvExport.StreamRootGivesRowPerObject | flat/csv.go:254-273 | a stream gives one row per decoded object; a decode error ends generation with that error wrapped |
| CsvExport.RecordWriter.constructor | flat/csv.go:61 | a fresh CSV writer, handed nothing and not yet flushed |
| CsvExport.RecordWriter.Write | flat/csv.go:71 | a write hands the record to the writer while it takes more, and otherwise fails with the destination's error; it does not flush |
| CsvExport.RecordWriter.Flush | flat/csv.go:95-98 | flushing reports the flush error, keeps the records, and marks them delivered exactly when it succeeds |
| CsvExport.RecordWriter.Delivered | flat/csv.go:95-98 | what the destination holds after a successful flush: the encoding of the records handed over |
| CsvExport.FieldOf | flat/csv.go:78-87 | the field under one header: "" for a missing column, the rendering, a wrapped rendering error, or a formatter panic (the last only for a flattener storing a formatter, which Go code cannot write) |
| CsvExport.RenderFields | flat/csv.go:76-88 | the data record of a row; stated by `RenderFieldsAllOk`, `RenderFieldsFirstError` and `RenderFieldsShape` |
| CsvExport.RenderFieldsAllOk | flat/csv.go:76-88 | when every field renders, the record has one field per header, in header order |
| CsvExport.RenderFieldsFirstError | flat/csv.go:79-82 | the first header whose value fails to render, with an error or a formatter panic, decides the record's outcome |
| CsvExport.RenderFieldsErrorFrom | flat/csv.go:77-82 | the same over the headers from any position on: the first failing field from there decides the outcome |
| CsvExport.RenderFieldsShape | flat/csv.go:76-88 | a data record has exactly one field per header: "" for a missing column and the (returned) rendering for a present one |
| CsvExport.EmitRow | flat/csv.go:68-91 | one iteration of the row loop over the records handed over; stated through `EmitRowsPlainFirst` and `EmitRowsHeaderFirst` |
| CsvExport.EmitRows | flat/csv.go:66-93 | the row loop, stopping at the first failure; stated by `EmitRowsWithoutHeaders` and `EmitRowsFirstWithHeaders` |
| CsvExport.ExportSpec | flat/csv.go:56-100 | how `Export` ends and what it hands over; stated by `ErrorCsvWritesNothing`, `UnsupportedRootFails`, `ExportWritesHeadersThenRows` and `NoRowsWriteNothing` |
| CsvExport.RenderRecord | flat/csv.go:76-88 | the loop filling `values` computes the record, or the first rendering error, or a formatter panic for a flattener storing a formatter |
| CsvExport.WriteRow | flat/csv.go:68-92 | one loop iteration: new headers are handed to the writer if the row has them, then its data record; a formatter panic, possible only for a flattener storing a formatter, stops the loop; nothing is flushed |
| CsvExport.BuildRow | flat/csv.go:233-272 | the `i`-th source gets a new row, with headers only when `i` is 0, filled by the flattener: the `i`-th generated row |
| CsvExport.ExportRows | flat/csv.go:66-93 | the row loop hands over records and stops as `EmitRows` describes over the generated rows, without flushing |
| CsvExport.Export | flat/csv.go:56-100 | `Export` hands the writer what `ExportSpec` describes and ends as it says: nil, the first error, blocked, or (only for a flattener storing a formatter) a formatter panic; the writer is flushed exactly when it returns nil |
| CsvExport.ErrorCsvWritesNothing | flat/csv.go:57-59 | an error CSV fails before handing over anything, with the earlier error wrapped |
| CsvExport.UnsupportedRootFails | flat/csv.go:36-38 | a scalar or Null root hands over nothing and fails |
| CsvExport.EmitRowsPlainFirst | flat/csv.go:76-91 | a row without headers, when nothing fails, adds just its data record under the headers in effect |
| CsvExport.EmitRowsHeaderFirst | flat/csv.go:68-91 | a row with headers, when nothing fails, adds its headers and then its data record under them, which become the headers in effect |
| CsvExport.DataRecords | flat/csv.go:76-88 | one data record per row, in row order, each rendered under the same headers |
| CsvExport.EmitRowsWithoutHeaders | flat/csv.go:67-93 | when nothing fails, rows without headers add exactly their data records, in row order, and every record renders |
| CsvExport.EmitRowsFirstWithHeaders | flat/csv.go:67-93 | when nothing fails and only the first row carries headers, those headers are written once, then the data records of all rows under them |
| CsvExport.ExportWritesHeadersThenRows | flat/csv.go:56-100 | when every row goes through (nil, or blocked on a decode error) the writer was handed the first row's headers, then the data records of all rows in order, each with one field per header |
| CsvExport.NoRowsWriteNothing | flat/csv.go:66-93 | a root without rows hands nothing to the writer, not even headers |
| CsvExport.ApplyCallsPlain | flat/csv.go:203-214 | column calls whose values carry no formatter leave every column of the row without one |
| CsvExport.PlainFieldOf | flat/csv.go:78-87 | without formatters a field never panics and its only error is the value's own rendering error, wrapped with the header, never "error formatting data" |
| CsvExport.PlainRenderFields | flat/csv.go:76-88 | without formatters a data record never panics, and its error is the wrapped rendering error of one of its headers |
| CsvExport.PlainEmitRows | flat/csv.go:66-93 | rows without formatters never stop the row loop with a panic |
| CsvExport.PlainFlattenerNeverPanics | flat/csv.go:56-100 | with a flattener that stores no formatter, every field is rendered by the value's own `strVal` and `Export` never ends in a panic |
| CsvScenarios.ExportOneObject | flat/csv.go:233-237 | one object gives its header record, then its fields, "" where the age is missing |
| CsvScenarios.SimpleExport | flat/csv_test.go:18-31 | one object gives `name,age` then `John,30` |
| CsvScenarios.SimpleExportText | flat/csv_test.go:30 | those records are the text `name,age\nJohn,30\n` |
| CsvScenarios.MultipleRowsExport | flat/csv_test.go:33-52 | two objects give the header and two records |
| CsvScenarios.MultipleRowsText | flat/csv_test.go:51 | those records are the text `name,age\nJohn,30\nJane,25\n` |
| CsvScenarios.MissingValueExport | flat/csv_test.go:54-72 | a missing column is an empty field |
| CsvScenarios.ErrorExport | flat/csv_test.go:74-81 | an error CSV hands over nothing and fails |
| CsvScenarios.ExportTwoObjects | flat/csv.go:246-253 | two objects give the header and each object's fields, "" where the age is missing |
| CsvScenarios.StreamDecodeFailureBlocks | flat/csv.go:259-276 | a stream failing after one object hands that object's records to the writer, then `Export` never returns and never flushes |
| PriceFormat.FromInt | pricefmt/pricefmt.go:154-155 | an int converts exactly: its text is the `%d` text, with the sign and zero-ness of the int |
| PriceFormat.GetDecimalValue | pricefmt/pricefmt.go:148-161 | the conversion switch; stated by `DecimalConversionCases` |
| PriceFormat.GetCurrencySymbol | pricefmt/pricefmt.go:164-185 | the symbol switch; stated by `CurrencySymbolTable` |
| PriceFormat.DecimalData | pricefmt/pricefmt.go:89-145 | the description of a canonical decimal; stated by `LargeOrZeroGetsBasicData`, `ZeroCountAndSubscript`, `AfterZerosValueFromDigits` and `SmallDecimalResult` |
| PriceFormat.FormatWithOptionsSpec | pricefmt/pricefmt.go:74-145 | `FormatWithOptions` as a function; stated by `ResultCarriesPrice` and `PanicCases` |
| PriceFormat.LeadingZeros | pricefmt/pricefmt.go:111-118 | the length of the run of '0's at the start |
| PriceFormat.AfterZerosDigits | pricefmt/pricefmt.go:125-131 | the first `valueLength` digits after the zeros (all when fewer), or "0" when none are kept |
| PriceFormat.WrapInt64 | pricefmt/pricefmt.go:138 | `IntPart` keeps a value in the int64 range unchanged |
| PriceFormat.SplitAtPoint | pricefmt/pricefmt.go:101-103 | the text before the first point and the text after it |
| PriceFormat.FormatWithOptions | pricefmt/pricefmt.go:74-145 | the method returns what `FormatWithOptionsSpec` describes |
| PriceFormat.FormatDecimal | pricefmt/pricefmt.go:80-144 | the text processing of a decimal returns what `DecimalData` describes |
| PriceFormat.PointParts | pricefmt/pricefmt.go:97-103 | no parts exactly when the text has no point; otherwise the parts around the first point |
| PriceFormat.CountLeadingZeros | pricefmt/pricefmt.go:111-118 | the rune loop counts the leading zeros |
| PriceFormat.FormatWithCurrency | pricefmt/pricefmt.go:69-71 | `FormatWithOptions` with the default lengths |
| PriceFormat.Format | pricefmt/pricefmt.go:55-57 | `FormatWithCurrency` in USD; stated by `FormatDefaults` |
| PriceFormat.TryFormatWithCurrency | pricefmt/pricefmt.go:60-66 | nil exactly when `FormatWithCurrency` errors, otherwise its result; a panic stays a panic |
| PriceFormat.TryFormat | pricefmt/pricefmt.go:50-52 | nil exactly when `Format` errors, a panic exactly when it panics, otherwise its result |
| PriceFormat.CurrencySymbolTable | pricefmt/pricefmt.go:164-185 | the eight codes map to their symbols; any other code is its own symbol |
| PriceFormat.DecimalConversionCases | pricefmt/pricefmt.go:148-161 | conversion fails exactly for an unparsable string or an unsupported type, and panics exactly for a non-finite float |
| PriceFormat.ResultCarriesPrice | pricefmt/pricefmt.go:75-86 | the only error is the conversion error, wrapped; a result copies the code, looks up the symbol, keeps the decimal's text and sign |
| PriceFormat.LargeOrZeroGetsBasicData | pricefmt/pricefmt.go:89-91 | a zero price or one of absolute value at least one gets no zero data and no subscript |
| PriceFormat.ZeroCountAndSubscript | pricefmt/pricefmt.go:111-142 | the zero count is the run of zeros after the point, at least one; count and value are present together; subscript iff count >= `subscriptLength` |
| PriceFormat.AfterZerosValueFromDigits | pricefmt/pricefmt.go:111-142 | for a price below one with zeros after the point and 1..18 digits kept, the data counts the run of zeros and its value is the number the kept digits form, below 10^valueLength |
| PriceFormat.SmallDecimalResult | pricefmt/pricefmt.go:111-142 | a price below one with `count` leading zeros gets its text, sign, the count, the wrapped value of the kept digits, and subscript display iff count >= `subscriptLength` |
| PriceFormat.KeptDigitsValue | pricefmt/pricefmt.go:125-138 | the kept digits' value is below 10^valueLength and falls in the int64 range |
| PriceFormat.PanicCases | pricefmt/pricefmt.go:125-128 | a panic happens exactly for a non-finite float, or a negative `valueLength` reaching the slice; with the defaults only the float case remains |
| PriceFormat.FormatDefaults | pricefmt/pricefmt.go:24-30 | `Format` is `FormatWithOptions` with USD, 5 and 4 |
| PriceFormat.SmallDecimalExample | pricefmt/pricefmt.go:111-142 | 0.00000456 gives five zeros, 456 and subscript display |
| PriceFormat.NegativeEuroExample | pricefmt/pricefmt.go:80-142 | -0.0001 in euros gives three zeros, 1, negative, no subscript |
| PriceFormat.TruncatedValueExample | pricefmt/pricefmt.go:125-128 | with value length 2, 0.000001234 keeps 12 |
| PriceFormat.IntegerExample | pricefmt/pricefmt.go:89-91 | the integer 123 gets basic data only |
| PriceFormat.NamedTypeExample | pricefmt/pricefmt.go:158-159 | a price of a defined type is refused, and `TryFormat` gives nil |
| StErrors.NewFactory | sterrors/sterror.go:28-34 | the factory keeps the table and both defaults |
| StErrors.GetMessage | sterrors/sterror.go:53-59 | the entry's message for a known code, the default message otherwise |
| StErrors.GetHttpCode | sterrors/sterror.go:61-67 | the entry's status for a known code, the default status otherwise |
| StErrors.NewError | sterrors/sterror.go:36-43 | the code and wrapped error are kept; message and status come from the lookups |
| StErrors.BaseText | sterrors/sterror.go:47-50 | the three-field layout of `Error()`; stated by `StatusPrefix`, `StatusIsReadable` and `UnknownCodeText` |
| StErrors.ErrorText | sterrors/sterror.go:45-51 | the wrapped error's text is appended after ", " only when there is one |
| StErrors.NewErrorUsesTable | sterrors/sterror.go:36-67 | a known code takes its entry's message and status, an unknown one the defaults |
| StErrors.StatusPrefix | sterrors/sterror.go:47-50 | the text before the first comma is "http error: " and the status |
| StErrors.StatusIsReadable | sterrors/sterror.go:47-50 | two errors whose texts agree up to the first comma have the same status |
| StErrors.UnknownCodeText | sterrors/sterror.go:50-58 | an unknown code without wrapped error prints the defaults in the three-field layout |
| ErrorDocument.TextWriter.constructor | sterrors/document.go:9-10 | a writer that has received nothing |
| ErrorDocument.TextWriter.Write | sterrors/document.go:10-13 | a write appends the line while the writer accepts, and otherwise fails with its error |
| ErrorDocument.RowLine | sterrors/document.go:41 | one table row; `RowLineInjective` states that it determines its code |
| ErrorDocument.RowLines | sterrors/document.go:39-46 | one `\|code\|Type\|Message\|HTTP\|` line per code, in the codes' order |
| ErrorDocument.SwapDown | sterrors/document.go:35-37 | swapping two neighbours changes only them and keeps the elements as a multiset |
| ErrorDocument.MinOf | sterrors/document.go:35-37 | the least code of a non-empty set |
| ErrorDocument.SortedCodes | sterrors/document.go:30-37 | the codes of a set, strictly ascending, each exactly once |
| ErrorDocument.SortCodes | sterrors/document.go:35-37 | the in-place sort leaves the array ascending and a permutation of what it held |
| ErrorDocument.CollectCodes | sterrors/document.go:30-33 | the collected codes are exactly the table's keys, once each, in some order |
| ErrorDocument.SortedKeysAreSortedCodes | sterrors/document.go:30-37 | any ascending arrangement of the keys is the strictly ascending key list |
| ErrorDocument.AscendingIsUnique | sterrors/document.go:35-37 | two strictly ascending sequences with the same elements are equal |
| ErrorDocument.Emit | sterrors/document.go:10-46 | writing lines in order to a writer that may fail; stated by `EmitAppend`, `EmitWritesPrefix` and `EmitAllOrPrefix` |
| ErrorDocument.DocumentLines | sterrors/document.go:9-49 | the lines of the document; stated by `DocumentLayout` and `RowsAreDistinct` |
| ErrorDocument.EmitAppend | sterrors/document.go:10-46 | writing two groups of lines is writing the first, then the second unless that failed |
| ErrorDocument.WriteHeader | sterrors/document.go:10-28 | the four header writes, stopping at the first failure |
| ErrorDocument.WriteRows | sterrors/document.go:39-46 | one row write per code, in the order given, stopping at the first failure |
| ErrorDocument.SortedKeys | sterrors/document.go:30-37 | a fresh array holding the table's codes strictly ascending |
| ErrorDocument.DocumentEmit | sterrors/document.go:9-49 | writing the document is writing the header, then the rows unless that failed |
| ErrorDocument.WriteTable | sterrors/document.go:30-46 | collect, sort and write the rows, stopping at the first failure |
| ErrorDocument.GetDocumentMd | sterrors/document.go:9-49 | the writer receives the document's lines up to the first failure, and the result is that failure or nil |
| ErrorDocument.EmitWritesPrefix | sterrors/document.go:10-46 | a writer with room for k more writes receives exactly the first k lines, and an error iff a line did not fit |
| ErrorDocument.DocumentLayout | sterrors/document.go:10-46 | title, summary with the app name, table header and alignment row, then one row per entry in strictly ascending code order |
| ErrorDocument.RowLineInjective | sterrors/document.go:41 | two equal rows are rows of the same code |
| ErrorDocument.RowsAreDistinct | sterrors/document.go:30-46 | no row of the document repeats |
| ErrorDocument.EmitAllOrPrefix | sterrors/document.go:9-49 | a writer with room for every line gets all of them and nil; otherwise it gets a proper prefix of them and its own error |
| AuditLogs.GetLevel | stlogs/logs.go:52-69 | the result is one of the five levels; "trace" is DEBUG and an unknown name INFO |
| AuditLogs.LevelName | stlogs/logs.go:52-63 | a logrus name for each level |
| AuditLogs.GetLevelOfName | stlogs/logs.go:31-37 | every level is reached from its own name, so the five levels are told apart |
| AuditLogs.LevelValues | stlogs/logs.go:31-63 | fatal, error, warning, info and debug are 50, 40, 30, 20 and 10, in increasing order |
| AuditLogs.InfoCtx.constructor | stlogs/logs.go:214-217 | a context holding the given data and tags |
| AuditLogs.InfoCtx.AddTags | stlogs/logs.go:326-340 | afterwards the tags have no duplicates, are exactly the old tags and the new ones, and the data is unchanged |
| AuditLogs.AuditEntry.constructor | stlogs/logs.go:140-144 | an entry over the given context |
| AuditLogs.AuditEntry.AddData | stlogs/logs.go:296-304 | the key is set to the value, every other key and the tags are unchanged, and the entry is returned |
| AuditLogs.AuditEntry.AddTag | stlogs/logs.go:308-315 | `addTags` of one tag, and the entry is returned |
| AuditLogs.AuditEntry.AddTags | stlogs/logs.go:317-324 | `addTags` of the tags, and the entry is returned |
| AuditLogs.AuditEntry.CopyInfo | stlogs/logs.go:201-218 | a fresh context with the same data and tags as the entry's |

## Left out

- The producer goroutine and the bounded channel of `Export` are left out. Rows are produced and written one at a time, in order, so the concurrency does not change what is written.
- Split destinations and `ExportSplit`, the writer half of `NoSplit`/`Split`/`SplitAnd`/`SplitOr`, are left out. `ExportSplit` has no implementation in `flat/csv.go`; the splitters are modelled as predicates.
- The 4096-byte buffer of `csv.Writer` is not modelled: the model does not say which prefix of the records handed over reaches the destination before the flush, so after a write error, a formatter panic or a blocked export it promises nothing about the destination's contents.
- The model's `Flattener` is wider than a Go flattener: it may store a `Source` that carries a formatter, which code outside the package cannot build (the fields of `Source` are unexported and `ColFormatted` discards the formatted copy). The formatter outcomes of `FieldOf` and the `ExportPanicked` ending are only reachable through it, as `PlainFlattenerNeverPanics` shows.
- The zero `flat.Source{}` is not modelled: its `data` is a nil pointer, so its `strVal` panics on the nil dereference (`flat/dynamic_value.go:110-111`). Every `Source` of the model holds a value.
- `t.err` is not modelled as state. It is assigned by the producer after a decode error, and only a concurrent caller could observe it; the decode error is recorded in `Generation.decodeFailure`.
- The CSV quoting of `encoding/csv` (section 2 of RFC 4180) is left out. It is library code; a record is modelled as its fields joined by "," and ended by "\n".
- `json.Marshal`, `json.Decoder` and `%g` are foreign library calls. They are parameters (`Codecs`, `StreamInput`); `ReadJSONFromReader` is not part of this model, because it is only JSON decoding.
- The `%T` type names in the "invalid data types" error of `NewFormatter` are not modelled; the message is kept without them.
- Formatters.Format: a caller's formatter that returns `(nil, nil)` is not modelled, since a dynamic value here is never a nil pointer; `Format` would return nil, and a later `strVal` would dereference it.
- DynamicValues.StreamJSONFromReader: the model describes the reader's first and only read. Reading consumes a Go reader, so a second `Export` of the same stream CSV, or a second CSV over the same reader, sees only what is left (after a complete export, nothing: `io.EOF` at once, no records, nil). The stream is an immutable value here, so the model does not capture that consumption or that sharing. A nil reader appears only as `NewDynamicValue(RNil)`, which `NilReaderRejected` states is refused.
- A nil flattener and a nil formatter closure are not modelled. Go panics on those calls, and the model's functions are total.
- The decimal arithmetic of `shopspring/decimal` is left out. `DecimalLib` and the canonical decimal text stand for it, and `FromInt` is the exact integer conversion.
- The error return of `decimal.NewFromString` on the digits after the zeros (`pricefmt/pricefmt.go:133-136`) is unreachable: the text is a non-empty run of digits. It is not modelled as a path.
- The "no point" and "whole part not 0" returns of `FormatWithOptions` (`pricefmt/pricefmt.go:97-109`) are unreachable for a canonical decimal below one. They are proved unreachable rather than modelled as outcomes.
- PriceFormat.WrapInt64: `IntPart` is modelled as keeping the low 64 bits, and only the in-range identity is stated.
- `Level` is modelled as `int`; the level names of logrus are strings.
- The logrus formatter, regex redaction, ULID and time IDs, hostname lookup, the singleton loggers, `printer.go` and all locking in `stlogs/logs.go` are left out. They are I/O, globals and concurrency.
- `ssmenv` and `stmocks` are left out. They are network calls and a test helper.
