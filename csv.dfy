/**
 * Row building and CSV export of the `flat` package: a root value is cut into sources (one per
 * object, array element or streamed object), a flattener turns each source into named columns
 * of a row, and `Export` writes the header record and one record per row.
 */
module CsvExport {
  import opened Wrappers
  import opened Text
  import opened DynamicValues
  import opened Formatters

  // ---------------------------------------------------------------------------------------
  // Sources
  // ---------------------------------------------------------------------------------------

  /** `Source`: a value, and the formatter to apply when it is rendered (nil: none). */
  datatype Source = Source(data: DynamicValue, formatter: Option<Formatter>)

  /** `Source.Idx(index)`: navigation drops any formatter. */
  function SourceIdx(s: Source, index: int): (r: Source)
    ensures r.formatter == None && r.data.Error() == None
    ensures r.data == Idx(s.data, index)
  {
    IdxCases(s.data, index);
    Source(Idx(s.data, index), None)
  }

  /** `Source.Key(keys...)`: navigation drops any formatter and never yields an error. */
  function SourceKey(s: Source, keys: seq<string>): (r: Source)
    ensures r.formatter == None && r.data.Error() == None
    ensures r.data == Key(s.data, keys)
  {
    KeyNeverFails(s.data, keys);
    Source(Key(s.data, keys), None)
  }

  /** `Source.format(formatter)`: a copy with the formatter replaced; the receiver is a value. */
  function SourceFormat(s: Source, formatter: Option<Formatter>): (r: Source)
    ensures r.data == s.data && r.formatter == formatter
  {
    s.(formatter := formatter)
  }

  /**
   * `Source.strVal()`: the formatter, if any, then the value's own rendering. It returns a
   * `(string, error)` pair, unless the formatter panics.
   */
  function SourceStrVal(s: Source, c: Codecs): (r: Outcome<Rendered>)
    ensures !r.Raised?
    ensures s.formatter == None ==> r == Returned(StrVal(s.data, c))
    ensures r.Panicked? <==> s.formatter.Some? && Apply(s.formatter.value, s.data).Panicked?
    ensures r.Returned? && r.value.err.Some? ==> r.value.text == ErrorStrValue
  {
    match s.formatter
    case None => StrValErrorCases(s.data, c); Returned(StrVal(s.data, c))
    case Some(fm) =>
      match Apply(fm, s.data)
      case Panicked => Panicked
      case Raised(e) => Returned(Rendered(ErrorStrValue, Some(Wrap("error formatting data", e))))
      case Returned(v) => StrValErrorCases(v, c); Returned(StrVal(v, c))
  }

  // ---------------------------------------------------------------------------------------
  // Rows
  // ---------------------------------------------------------------------------------------

  /** One call a flattener makes on its `Dest`: `ColFormatted(name, value, formatter)`. */
  datatype ColCall = ColCall(name: string, value: Source, formatter: Option<Formatter>)

  /**
   * A `flattener`: the user function that receives each source and fills its row. Its effect
   * on the row is the sequence of calls it makes, in order.
   */
  type Flattener = Source -> seq<ColCall>

  /** The fields of a `row`. */
  datatype RowState = RowState(values: map<string, Source>, headers: seq<string>, withHeaders: bool)
  {
    /** Headers are only tracked in a row created with headers, and never twice. */
    predicate Valid()
    {
      NoDuplicates(headers) && (!withHeaders ==> headers == [])
    }
  }

  /** `newRow(withHeaders)`. */
  function NewRowState(withHeaders: bool): (r: RowState)
    ensures r.Valid() && r.values == map[] && r.headers == [] && r.withHeaders == withHeaders
  {
    RowState(map[], [], withHeaders)
  }

  /**
   * `ColFormatted`: a new name joins the headers of a row with headers; the value is stored as
   * given, because the copy returned by `value.format(formatter)` is discarded.
   */
  function AddColumn(r: RowState, call: ColCall): RowState
  {
    RowState(r.values[call.name := call.value],
             if r.withHeaders && call.name !in r.headers then r.headers + [call.name] else r.headers,
             r.withHeaders)
  }

  /** The row after the calls `calls`, in order. */
  function ApplyCalls(r: RowState, calls: seq<ColCall>): RowState
    decreases |calls|
  {
    if calls == [] then r else AddColumn(ApplyCalls(r, calls[..|calls| - 1]), calls[|calls| - 1])
  }

  /** The column names the calls use, in call order. */
  function Names(calls: seq<ColCall>): (names: seq<string>)
    ensures |names| == |calls| && forall k :: 0 <= k < |calls| ==> names[k] == calls[k].name
  {
    seq(|calls|, k requires 0 <= k < |calls| => calls[k].name)
  }

  /** Each name at its first occurrence, in order: the reference for the header list. */
  function FirstOccurrences(names: seq<string>): seq<string>
    decreases |names|
  {
    if names == [] then []
    else
      var prefix := FirstOccurrences(names[..|names| - 1]);
      if names[|names| - 1] in prefix then prefix else prefix + [names[|names| - 1]]
  }

  /** The position of the first occurrence of `x` in `s`. */
  function FirstIndex(s: seq<string>, x: string): (k: nat)
    requires x in s
    ensures k < |s| && s[k] == x && forall j :: 0 <= j < k ==> s[j] != x
  {
    if s[0] == x then 0 else 1 + FirstIndex(s[1..], x)
  }

  /**
   * The first occurrences are duplicate-free, hold exactly the names used, and keep the order
   * in which the names first appear.
   */
  lemma {:induction false} FirstOccurrencesProperties(names: seq<string>)
    ensures NoDuplicates(FirstOccurrences(names))
    ensures forall x :: x in FirstOccurrences(names) <==> x in names
    ensures forall i, j :: 0 <= i < j < |FirstOccurrences(names)| ==>
      FirstIndex(names, FirstOccurrences(names)[i]) < FirstIndex(names, FirstOccurrences(names)[j])
    decreases |names|
  {
    if names != [] {
      var init := names[..|names| - 1];
      var last := names[|names| - 1];
      FirstOccurrencesProperties(init);
      assert names == init + [last];
      var out := FirstOccurrences(names);
      forall x | x in init
        ensures FirstIndex(names, x) == FirstIndex(init, x)
      {
        FirstIndexOfPrefix(init, last, x);
      }
      if last !in init {
        assert FirstIndex(names, last) == |init| by {
          forall j | 0 <= j < |init| ensures names[j] != last {
            assert names[j] == init[j];
          }
        }
      }
    }
  }

  /** Extending a sequence does not move the first occurrence of a name it already holds. */
  lemma {:induction false} FirstIndexOfPrefix(s: seq<string>, last: string, x: string)
    requires x in s
    ensures FirstIndex(s + [last], x) == FirstIndex(s, x)
  {
    if s[0] != x {
      assert (s + [last])[1..] == s[1..] + [last];
      FirstIndexOfPrefix(s[1..], last, x);
    }
  }

  /**
   * A row built by a flattener stays valid, and, with headers, its headers are the first
   * occurrences of the names used, in order.
   */
  lemma {:induction false} BuiltRowHeaders(withHeaders: bool, calls: seq<ColCall>)
    ensures ApplyCalls(NewRowState(withHeaders), calls).Valid()
    ensures ApplyCalls(NewRowState(withHeaders), calls).withHeaders == withHeaders
    ensures withHeaders ==> ApplyCalls(NewRowState(withHeaders), calls).headers == FirstOccurrences(Names(calls))
    decreases |calls|
  {
    if calls != [] {
      var init := calls[..|calls| - 1];
      var last := calls[|calls| - 1];
      BuiltRowHeaders(withHeaders, init);
      var before := ApplyCalls(NewRowState(withHeaders), init);
      assert ApplyCalls(NewRowState(withHeaders), calls) == AddColumn(before, last);
      AddColumnKeepsValid(before, last);
      if withHeaders {
        var names := Names(calls);
        assert names[..|names| - 1] == Names(init);
        assert names[|names| - 1] == last.name;
      }
    }
  }

  /** A row built by a flattener has a column for exactly the names used. */
  lemma {:induction false} BuiltRowColumns(withHeaders: bool, calls: seq<ColCall>)
    ensures forall x :: x in ApplyCalls(NewRowState(withHeaders), calls).values <==> x in Names(calls)
    decreases |calls|
  {
    if calls != [] {
      var init := calls[..|calls| - 1];
      BuiltRowColumns(withHeaders, init);
      assert Names(calls) == Names(init) + [calls[|calls| - 1].name];
    }
  }

  /**
   * Each column holds the value, formatter untouched, of the last call with that name: a
   * later `Col` with an existing name overwrites it.
   */
  lemma {:induction false} BuiltRowLastValue(withHeaders: bool, calls: seq<ColCall>, k: nat)
    requires k < |calls|
    requires forall j :: k < j < |calls| ==> calls[j].name != calls[k].name
    ensures calls[k].name in ApplyCalls(NewRowState(withHeaders), calls).values
    ensures ApplyCalls(NewRowState(withHeaders), calls).values[calls[k].name] == calls[k].value
    decreases |calls|
  {
    if k < |calls| - 1 {
      var init := calls[..|calls| - 1];
      assert init[k] == calls[k];
      forall j | k < j < |init| ensures init[j].name != init[k].name {
        assert init[j] == calls[j];
      }
      BuiltRowLastValue(withHeaders, init, k);
    }
  }

  /**
   * A row, as `newRow` creates it and `Col`/`ColFormatted` fill it. The values and the header
   * list are updated in place.
   */
  class Row {
    var values: map<string, Source>
    var headers: seq<string>
    const withHeaders: bool

    function State(): RowState
      reads this
    {
      RowState(values, headers, withHeaders)
    }

    /** `newRow(withHeaders)`. */
    constructor (withHeaders: bool)
      ensures State() == NewRowState(withHeaders)
    {
      this.values := map[];
      this.headers := [];
      this.withHeaders := withHeaders;
    }

    /** `row.ColFormatted(name, value, formatter)`. */
    method ColFormatted(name: string, value: Source, formatter: Option<Formatter>)
      modifies this
      ensures State() == AddColumn(old(State()), ColCall(name, value, formatter))
    {
      if withHeaders {
        if name !in headers {
          headers := headers + [name];
        }
      }
      if formatter.Some? {
        // `value.format(formatter)` has a value receiver: its result is not kept.
        var formatted := SourceFormat(value, formatter);
      }
      values := values[name := value];
    }

    /** `row.Col(name, value)`. */
    method Col(name: string, value: Source)
      modifies this
      ensures State() == AddColumn(old(State()), ColCall(name, value, None))
    {
      ColFormatted(name, value, None);
    }

    /** `row.hasHeaders()`. */
    function HasHeaders(): (b: bool)
      reads this
      ensures b <==> State().withHeaders
    {
      withHeaders
    }

    /** `row.getHeaders()`: nil for a row created without headers. */
    function GetHeaders(): (h: Option<seq<string>>)
      reads this
      ensures h.Some? <==> State().withHeaders
      ensures h.Some? ==> h.value == State().headers
    {
      if withHeaders then Some(headers) else None
    }
  }

  /** `Col`/`ColFormatted` keep a row valid. */
  lemma AddColumnKeepsValid(r: RowState, call: ColCall)
    requires r.Valid()
    ensures AddColumn(r, call).Valid()
    ensures AddColumn(r, call).values[call.name] == call.value
    ensures AddColumn(r, call).values[call.name].formatter == call.value.formatter
    ensures forall x :: x != call.name && x in r.values ==> AddColumn(r, call).values[x] == r.values[x]
    ensures !r.withHeaders ==> AddColumn(r, call).headers == []
  {
  }

  /** Writing a name twice keeps one header and the later value. */
  lemma SecondWriteOverwrites(name: string, first: Source, second: Source)
    ensures ApplyCalls(NewRowState(true), [ColCall(name, first, None), ColCall(name, second, None)]).headers == [name]
    ensures ApplyCalls(NewRowState(true), [ColCall(name, first, None), ColCall(name, second, None)]).values == map[name := second]
  {
    var c0, c1 := ColCall(name, first, None), ColCall(name, second, None);
    var calls := [c0, c1];
    assert calls[..1] == [c0] && [c0][..0] == [];
    var once := ApplyCalls(NewRowState(true), [c0]);
    assert ApplyCalls(NewRowState(true), []) == NewRowState(true);
    assert once == AddColumn(ApplyCalls(NewRowState(true), [c0][..0]), c0);
    assert once == AddColumn(NewRowState(true), c0);
    assert once.values == map[name := first] && once.headers == [name] && once.withHeaders;
    assert ApplyCalls(NewRowState(true), calls) == AddColumn(once, c1);
    assert map[name := first][name := second] == map[name := second];
  }

  /** The flattener's calls, made one by one on a row. */
  method FillRow(r: Row, calls: seq<ColCall>)
    modifies r
    ensures r.State() == ApplyCalls(old(r.State()), calls)
  {
    var k := 0;
    while k < |calls|
      invariant 0 <= k <= |calls|
      invariant r.State() == ApplyCalls(old(r.State()), calls[..k])
    {
      assert calls[..k + 1][..k] == calls[..k];
      r.ColFormatted(calls[k].name, calls[k].value, calls[k].formatter);
      k := k + 1;
    }
    assert calls[..k] == calls;
  }

  // ---------------------------------------------------------------------------------------
  // The CSV and its rows
  // ---------------------------------------------------------------------------------------

  /** `CSV`: an error CSV, or a root value and its flattener. */
  datatype Csv = ErrorCsv(err: Error) | DataCsv(rootData: DynamicValue, flattener: Flattener)

  /** `rootDataTypes`. */
  const RootDataTypes: seq<Kind> := [Object, Array, ArrayOfObjects, StreamOfObjects]

  /** `newErrorCsv(err)`. */
  function NewErrorCsv(e: Error): (cs: Csv)
    ensures cs.ErrorCsv? && cs.err == e
  {
    ErrorCsv(e)
  }

  /** `newCsv(root, f)`: the root's own error, or an unsupported kind, gives an error CSV. */
  function NewCsv(root: DynamicValue, f: Flattener): (cs: Csv)
    ensures root.Error().Some? ==> cs == ErrorCsv(root.Error().value)
    ensures root.Error().None? && root.DataType() !in RootDataTypes ==>
      cs == ErrorCsv(Leaf("data type is not supported for CSV generation"))
    ensures cs.DataCsv? <==> root.Error().None? && root.DataType() in RootDataTypes
    ensures cs.DataCsv? ==> cs.rootData == root && cs.flattener == f && root.Value?
  {
    if root.Error().Some? then NewErrorCsv(root.Error().value)
    else if root.DataType() !in RootDataTypes then
      NewErrorCsv(Leaf("data type is not supported for CSV generation"))
    else DataCsv(root, f)
  }

  /**
   * `StreamJSONFromReader(nil)` classifies as Null, like any nil interface value, so `newCsv`
   * refuses it as an unsupported root.
   */
  lemma NilReaderRejected(f: Flattener)
    ensures NewDynamicValue(RNil).DataType() == Null && NewDynamicValue(RNil).Error() == None
    ensures NewCsv(NewDynamicValue(RNil), f) == ErrorCsv(Leaf("data type is not supported for CSV generation"))
  {
  }

  /**
   * What `streamRows` hands to the flattener, in order, and how the stream ended: an object
   * root is one source, an array one source per element, a stream one per decoded object.
   */
  datatype Generation = Generation(sources: seq<Source>, decodeFailure: Option<Error>)

  function RootSources(root: DynamicValue): Generation
  {
    if root.Failed? then Generation([], None)
    else
      match root.payload
      case RMap(_) => Generation([Source(root, None)], None)
      case RSlice(items) =>
        Generation(seq(|items|, i requires 0 <= i < |items| => Source(NewDynamicValue(items[i]), None)), None)
      case RSliceOfMaps(maps) =>
        Generation(seq(|maps|, i requires 0 <= i < |maps| => Source(NewDynamicValue(RMap(maps[i])), None)), None)
      case RReader(_, input) =>
        Generation(
          seq(|input.objects|, i requires 0 <= i < |input.objects| =>
            Source(NewDynamicValue(RMap(input.objects[i])), None)),
          match input.failure
          case None => None
          case Some(e) => Some(Wrap("error decoding JSON stream", e)))
      case _ => Generation([], None)
  }

  /** `streamRows` as the sequence of rows it sends: only the first row is created with headers. */
  function GenerateRows(cs: Csv): (rows: seq<RowState>)
    requires cs.DataCsv?
    ensures |rows| == |RootSources(cs.rootData).sources|
  {
    var sources := RootSources(cs.rootData).sources;
    seq(|sources|, i requires 0 <= i < |sources| =>
      ApplyCalls(NewRowState(i == 0), cs.flattener(sources[i])))
  }

  /** Every generated row is valid, and exactly the first is created with headers. */
  lemma GeneratedRowsShape(cs: Csv)
    requires cs.DataCsv?
    ensures forall i :: 0 <= i < |GenerateRows(cs)| ==>
      GenerateRows(cs)[i].Valid() && (GenerateRows(cs)[i].withHeaders <==> i == 0)
  {
    var sources := RootSources(cs.rootData).sources;
    forall i | 0 <= i < |sources|
      ensures GenerateRows(cs)[i].Valid() && (GenerateRows(cs)[i].withHeaders <==> i == 0)
    {
      BuiltRowHeaders(i == 0, cs.flattener(sources[i]));
    }
  }

  /** An object root gives exactly one row, created with headers, from the root itself. */
  lemma ObjectRootGivesOneRow(fields: map<string, Raw>, f: Flattener)
    ensures NewCsv(NewDynamicValue(RMap(fields)), f).DataCsv?
    ensures GenerateRows(NewCsv(NewDynamicValue(RMap(fields)), f)) ==
      [ApplyCalls(NewRowState(true), f(Source(NewDynamicValue(RMap(fields)), None)))]
    ensures RootSources(NewDynamicValue(RMap(fields))).decodeFailure == None
  {
  }

  /** An array root gives one row per element, in index order. */
  lemma ArrayRootGivesRowPerElement(items: seq<Raw>, f: Flattener)
    ensures NewCsv(NewDynamicValue(RSlice(items)), f).DataCsv?
    ensures |GenerateRows(NewCsv(NewDynamicValue(RSlice(items)), f))| == |items|
    ensures forall i :: 0 <= i < |items| ==>
      GenerateRows(NewCsv(NewDynamicValue(RSlice(items)), f))[i] ==
      ApplyCalls(NewRowState(i == 0), f(Source(NewDynamicValue(items[i]), None)))
  {
  }

  /** An array-of-objects root gives one row per object, in index order. */
  lemma ObjectArrayRootGivesRowPerObject(maps: seq<map<string, Raw>>, f: Flattener)
    ensures NewCsv(NewDynamicValue(RSliceOfMaps(maps)), f).DataCsv?
    ensures |GenerateRows(NewCsv(NewDynamicValue(RSliceOfMaps(maps)), f))| == |maps|
    ensures forall i :: 0 <= i < |maps| ==>
      GenerateRows(NewCsv(NewDynamicValue(RSliceOfMaps(maps)), f))[i] ==
      ApplyCalls(NewRowState(i == 0), f(Source(NewDynamicValue(RMap(maps[i])), None)))
  {
  }

  /**
   * A stream gives one row per object decoded before the stream ended; a decode error ends
   * generation with that error wrapped, and no later object is read.
   */
  lemma StreamRootGivesRowPerObject(readerType: string, input: StreamInput, f: Flattener)
    ensures NewCsv(StreamJSONFromReader(readerType, input), f).DataCsv?
    ensures |GenerateRows(NewCsv(StreamJSONFromReader(readerType, input), f))| == |input.objects|
    ensures forall i :: 0 <= i < |input.objects| ==>
      GenerateRows(NewCsv(StreamJSONFromReader(readerType, input), f))[i] ==
      ApplyCalls(NewRowState(i == 0), f(Source(NewDynamicValue(RMap(input.objects[i])), None)))
    ensures RootSources(StreamJSONFromReader(readerType, input)).decodeFailure.Some? <==> input.failure.Some?
    ensures input.failure.Some? ==>
      RootSources(StreamJSONFromReader(readerType, input)).decodeFailure == Some(Wrap("error decoding JSON stream", input.failure.value))
  {
  }

  // ---------------------------------------------------------------------------------------
  // The record writer
  // ---------------------------------------------------------------------------------------

  /** How `encoding/csv` lays out one record: the fields joined by commas, then a newline. */
  function EncodeRecord(fields: seq<string>): string
  {
    Join(fields, ",") + "\n"
  }

  /** The text of a sequence of records. */
  function Encode(records: seq<seq<string>>): string
  {
    Concat(seq(|records|, i requires 0 <= i < |records| => EncodeRecord(records[i])))
  }

  /**
   * A `csv.Writer` over the destination: the records handed to it, in order, and whether a
   * flush has succeeded. The writer buffers what it is handed; the destination is only known to
   * hold that text once a flush has succeeded. The writer takes the first `accepts` records and
   * then reports `writeError` on every further write (where its buffer meets the destination's
   * failure); flushing reports `flushError`, if any.
   */
  class RecordWriter {
    var records: seq<seq<string>>
    var flushed: bool
    const accepts: nat
    const writeError: Error
    const flushError: Option<Error>

    constructor (accepts: nat, writeError: Error, flushError: Option<Error>)
      ensures records == [] && !flushed && this.accepts == accepts
      ensures this.writeError == writeError && this.flushError == flushError
    {
      this.records := [];
      this.flushed := false;
      this.accepts := accepts;
      this.writeError := writeError;
      this.flushError := flushError;
    }

    /** `csvWriter.Write(record)`. */
    method Write(record: seq<string>) returns (err: Option<Error>)
      modifies this
      ensures |old(records)| < accepts ==> records == old(records) + [record] && err == None
      ensures |old(records)| >= accepts ==> records == old(records) && err == Some(writeError)
      ensures flushed == old(flushed)
    {
      if |records| < accepts {
        records := records + [record];
        err := None;
      } else {
        err := Some(writeError);
      }
    }

    /** `csvWriter.Flush()` followed by `csvWriter.Error()`. */
    method Flush() returns (err: Option<Error>)
      modifies this
      ensures err == flushError
      ensures records == old(records) && flushed == (old(flushed) || flushError.None?)
    {
      err := flushError;
      if flushError.None? {
        flushed := true;
      }
    }

    /** What the destination holds after a successful flush: the text of every record handed over. */
    function Delivered(): (text: string)
      requires flushed
      reads this
      ensures text == Encode(records)
    {
      Encode(records)
    }
  }

  // ---------------------------------------------------------------------------------------
  // Export
  // ---------------------------------------------------------------------------------------

  /**
   * How `Export` ends: nil, an error, waiting forever on a channel that is never closed, or a
   * panic raised by a formatter while a field is rendered.
   */
  datatype ExportOutcome = Exported | ExportFailed(err: Error) | Blocked | ExportPanicked

  /** Why `Export`'s loop stopped early: an error it returns, or a panic that unwinds it. */
  datatype Stop = Failure(err: Error) | Panic

  /** The records handed to the CSV writer so far and what stopped the loop, if anything. */
  datatype Progress = Progress(records: seq<seq<string>>, failure: Option<Stop>)

  /** The field written under header `h`: the rendered column, or "" when the row lacks it. */
  function FieldOf(values: map<string, Source>, h: string, c: Codecs): Outcome<string>
  {
    if h in values then
      match SourceStrVal(values[h], c)
      case Returned(r) =>
        if r.err.Some? then Raised(Wrap("failed to get value for header " + h, r.err.value)) else Returned(r.text)
      case _ => Panicked
    else Returned("")
  }

  /** The data record of one row: the field of every header in order, or the first error or panic. */
  function RenderFields(values: map<string, Source>, hs: seq<string>, c: Codecs): Outcome<seq<string>>
    decreases |hs|
  {
    if hs == [] then Returned([])
    else
      match FieldOf(values, hs[0], c)
      case Panicked => Panicked
      case Raised(e) => Raised(e)
      case Returned(field) =>
        match RenderFields(values, hs[1..], c)
        case Panicked => Panicked
        case Raised(e) => Raised(e)
        case Returned(rest) => Returned([field] + rest)
  }

  /** When every field renders, the record is those fields, one per header. */
  lemma {:induction false} RenderFieldsAllOk(values: map<string, Source>, hs: seq<string>, c: Codecs)
    requires forall k :: 0 <= k < |hs| ==> FieldOf(values, hs[k], c).Returned?
    ensures RenderFields(values, hs, c).Returned? && |RenderFields(values, hs, c).value| == |hs|
    ensures forall k :: 0 <= k < |hs| ==> RenderFields(values, hs, c).value[k] == FieldOf(values, hs[k], c).value
    decreases |hs|
  {
    if hs != [] {
      assert forall k :: 0 <= k < |hs[1..]| ==> hs[1..][k] == hs[k + 1];
      RenderFieldsAllOk(values, hs[1..], c);
    }
  }

  /** The first field that fails decides the record's error. */
  lemma RenderFieldsFirstError(values: map<string, Source>, hs: seq<string>, j: nat, c: Codecs)
    requires j < |hs| && !FieldOf(values, hs[j], c).Returned?
    requires forall k :: 0 <= k < j ==> FieldOf(values, hs[k], c).Returned?
    ensures FieldOf(values, hs[j], c).Raised? ==> RenderFields(values, hs, c) == Raised(FieldOf(values, hs[j], c).error)
    ensures FieldOf(values, hs[j], c).Panicked? ==> RenderFields(values, hs, c) == Panicked
  {
    RenderFieldsErrorFrom(values, hs, 0, j, c);
    assert hs[0..] == hs;
  }

  /** The same, for the headers from the `i`-th on. */
  lemma {:induction false} RenderFieldsErrorFrom(values: map<string, Source>, hs: seq<string>, i: nat, j: nat, c: Codecs)
    requires i <= j < |hs| && !FieldOf(values, hs[j], c).Returned?
    requires forall k :: i <= k < j ==> FieldOf(values, hs[k], c).Returned?
    ensures FieldOf(values, hs[j], c).Raised? ==> RenderFields(values, hs[i..], c) == Raised(FieldOf(values, hs[j], c).error)
    ensures FieldOf(values, hs[j], c).Panicked? ==> RenderFields(values, hs[i..], c) == Panicked
    decreases j - i
  {
    var rest := hs[i..];
    assert rest[0] == hs[i];
    if i < j {
      assert rest[1..] == hs[i + 1..];
      assert !RenderFields(values, hs[i + 1..], c).Returned? &&
             (FieldOf(values, hs[j], c).Raised? ==> RenderFields(values, hs[i + 1..], c) == Raised(FieldOf(values, hs[j], c).error)) &&
             (FieldOf(values, hs[j], c).Panicked? ==> RenderFields(values, hs[i + 1..], c) == Panicked) by {
        RenderFieldsErrorFrom(values, hs, i + 1, j, c);
      }
      RenderFieldsPassesError(values, rest, c);
    } else {
      RenderFieldsHeadError(values, rest, c);
    }
  }

  /** A first field that fails is the error, or the panic, of the record. */
  lemma RenderFieldsHeadError(values: map<string, Source>, hs: seq<string>, c: Codecs)
    requires hs != [] && !FieldOf(values, hs[0], c).Returned?
    ensures FieldOf(values, hs[0], c).Raised? ==> RenderFields(values, hs, c) == Raised(FieldOf(values, hs[0], c).error)
    ensures FieldOf(values, hs[0], c).Panicked? ==> RenderFields(values, hs, c) == Panicked
  {
  }

  /** After a field that renders, a failure of the rest is the failure of the record. */
  lemma RenderFieldsPassesError(values: map<string, Source>, hs: seq<string>, c: Codecs)
    requires hs != [] && FieldOf(values, hs[0], c).Returned? && !RenderFields(values, hs[1..], c).Returned?
    ensures RenderFields(values, hs, c) == RenderFields(values, hs[1..], c)
  {
  }

  /**
   * Every data record has exactly one field per header: a column the row lacks is "", a column
   * it has is its rendering, and a column outside the headers is not written.
   */
  lemma {:induction false} RenderFieldsShape(values: map<string, Source>, hs: seq<string>, c: Codecs)
    requires RenderFields(values, hs, c).Returned?
    ensures |RenderFields(values, hs, c).value| == |hs|
    ensures forall k :: 0 <= k < |hs| ==> hs[k] !in values ==> RenderFields(values, hs, c).value[k] == ""
    ensures forall k :: 0 <= k < |hs| ==> hs[k] in values ==>
      SourceStrVal(values[hs[k]], c).Returned? &&
      RenderFields(values, hs, c).value[k] == SourceStrVal(values[hs[k]], c).value.text
    decreases |hs|
  {
    if hs != [] {
      RenderFieldsShape(values, hs[1..], c);
      var rest := RenderFields(values, hs[1..], c).value;
      assert RenderFields(values, hs, c).value == [FieldOf(values, hs[0], c).value] + rest;
    }
  }

  /** Where `Export` stands after one row: the headers now in effect and what was written. */
  datatype Step = Step(headers: seq<string>, progress: Progress)

  /**
   * One iteration of `Export`'s loop: a row with headers replaces the headers and writes them,
   * then the row writes its data record under the headers in effect. A formatter panic while
   * the record is rendered unwinds the loop.
   */
  function EmitRow(row: RowState, headers: seq<string>, records: seq<seq<string>>,
                   accepts: nat, writeError: Error, c: Codecs): Step
  {
    if row.withHeaders && |records| >= accepts then
      Step(headers, Progress(records, Some(Failure(Wrap("failed to write CSV headers", writeError)))))
    else
      var hs := if row.withHeaders then row.headers else headers;
      var written := if row.withHeaders then records + [hs] else records;
      match RenderFields(row.values, hs, c)
      case Panicked => Step(hs, Progress(written, Some(Panic)))
      case Raised(e) => Step(hs, Progress(written, Some(Failure(e))))
      case Returned(fields) =>
        if |written| >= accepts then Step(hs, Progress(written, Some(Failure(Wrap("failed to write CSV data", writeError)))))
        else Step(hs, Progress(written + [fields], None))
  }

  /** `Export`'s loop over the rows, stopping at the first error or panic. */
  function EmitRows(rows: seq<RowState>, headers: seq<string>, records: seq<seq<string>>,
                    accepts: nat, writeError: Error, c: Codecs): Progress
    decreases |rows|
  {
    if rows == [] then Progress(records, None)
    else
      var step := EmitRow(rows[0], headers, records, accepts, writeError, c);
      if step.progress.failure.Some? then step.progress
      else EmitRows(rows[1..], step.headers, step.progress.records, accepts, writeError, c)
  }

  /**
   * How `Export` ends and the records handed to the CSV writer by then, after the `records`
   * it already held.
   */
  datatype Run = Run(records: seq<seq<string>>, outcome: ExportOutcome)

  function ExportSpec(cs: Csv, records: seq<seq<string>>, accepts: nat, writeError: Error,
                      flushError: Option<Error>, c: Codecs): Run
  {
    match cs
    case ErrorCsv(e) => Run(records, ExportFailed(Wrap("cannot export CSV due to previous error", e)))
    case DataCsv(_, _) =>
      var p := EmitRows(GenerateRows(cs), [], records, accepts, writeError, c);
      if p.failure == Some(Panic) then Run(p.records, ExportPanicked)
      else if p.failure.Some? then Run(p.records, ExportFailed(p.failure.value.err))
      else if RootSources(cs.rootData).decodeFailure.Some? then Run(p.records, Blocked)
      else if flushError.Some? then Run(p.records, ExportFailed(Wrap("failed to flush CSV writer", flushError.value)))
      else Run(p.records, Exported)
  }

  /** The loop of `Export` that fills the `values` array of one data record. */
  method RenderRecord(values: map<string, Source>, headers: seq<string>, c: Codecs)
    returns (fields: Outcome<seq<string>>)
    ensures fields == RenderFields(values, headers, c)
  {
    var record := new string[|headers|];
    var j := 0;
    while j < |headers|
      invariant 0 <= j <= |headers|
      invariant forall k :: 0 <= k < j ==>
        FieldOf(values, headers[k], c).Returned? && record[k] == FieldOf(values, headers[k], c).value
    {
      var h := headers[j];
      if h in values {
        var rendered := SourceStrVal(values[h], c);
        if !rendered.Returned? {
          RenderFieldsFirstError(values, headers, j, c);
          return Panicked;
        }
        if rendered.value.err.Some? {
          RenderFieldsFirstError(values, headers, j, c);
          return Raised(Wrap("failed to get value for header " + h, rendered.value.err.value));
        }
        record[j] := rendered.value.text;
      } else {
        record[j] := "";
      }
      j := j + 1;
    }
    RenderFieldsAllOk(values, headers, c);
    assert record[..] == RenderFields(values, headers, c).value;
    return Returned(record[..]);
  }

  /** The body of `Export`'s loop for one row. */
  method WriteRow(r: Row, headers: seq<string>, w: RecordWriter, c: Codecs)
    returns (newHeaders: seq<string>, failure: Option<Stop>)
    modifies w
    ensures Step(newHeaders, Progress(w.records, failure)) ==
      EmitRow(r.State(), headers, old(w.records), w.accepts, w.writeError, c)
    ensures w.flushed == old(w.flushed)
  {
    newHeaders := headers;
    if r.HasHeaders() {
      newHeaders := r.GetHeaders().value;
      var err := w.Write(newHeaders);
      if err.Some? {
        return headers, Some(Failure(Wrap("failed to write CSV headers", err.value)));
      }
    }
    var fields := RenderRecord(r.values, newHeaders, c);
    if fields.Panicked? {
      return newHeaders, Some(Panic);
    }
    if fields.Raised? {
      return newHeaders, Some(Failure(fields.error));
    }
    var err := w.Write(fields.value);
    if err.Some? {
      return newHeaders, Some(Failure(Wrap("failed to write CSV data", err.value)));
    }
    return newHeaders, None;
  }

  /** What the producer does for the `i`-th source: a new row, filled by the flattener. */
  method BuildRow(cs: Csv, sources: seq<Source>, i: nat) returns (r: Row)
    requires cs.DataCsv? && sources == RootSources(cs.rootData).sources && i < |sources|
    ensures fresh(r) && r.State() == GenerateRows(cs)[i]
  {
    r := new Row(i == 0);
    FillRow(r, cs.flattener(sources[i]));
  }

  /** The row loop of `Export`: each row is built, then written, until one fails. */
  method ExportRows(cs: Csv, sources: seq<Source>, w: RecordWriter, c: Codecs) returns (failure: Option<Stop>)
    requires cs.DataCsv? && sources == RootSources(cs.rootData).sources
    modifies w
    ensures Progress(w.records, failure) == EmitRows(GenerateRows(cs), [], old(w.records), w.accepts, w.writeError, c)
    ensures w.flushed == old(w.flushed)
  {
    ghost var rows := GenerateRows(cs);
    ghost var start := w.records;
    var headers: seq<string> := [];
    var i := 0;
    while i < |sources|
      invariant 0 <= i <= |sources| == |rows|
      invariant EmitRows(rows, [], start, w.accepts, w.writeError, c) ==
                EmitRows(rows[i..], headers, w.records, w.accepts, w.writeError, c)
      invariant w.flushed == old(w.flushed)
    {
      var r := BuildRow(cs, sources, i);
      assert rows[i..][0] == rows[i] && rows[i..][1..] == rows[i + 1..];
      headers, failure := WriteRow(r, headers, w, c);
      if failure.Some? {
        return;
      }
      i := i + 1;
    }
    assert rows[i..] == [];
    failure := None;
  }

  /**
   * `CSV.Export(w)`: rows are built one at a time, as the producer goroutine sends them, and
   * handed to the CSV writer as they arrive. The writer is flushed only once every row went
   * through and the producer closed the channel.
   */
  method Export(cs: Csv, w: RecordWriter, c: Codecs) returns (outcome: ExportOutcome)
    modifies w
    ensures Run(w.records, outcome) == ExportSpec(cs, old(w.records), w.accepts, w.writeError, w.flushError, c)
    ensures w.flushed == (old(w.flushed) || outcome == Exported)
  {
    if cs.ErrorCsv? {
      return ExportFailed(Wrap("cannot export CSV due to previous error", cs.err));
    }
    var generation := RootSources(cs.rootData);
    var failure := ExportRows(cs, generation.sources, w, c);
    if failure == Some(Panic) {
      return ExportPanicked;
    }
    if failure.Some? {
      return ExportFailed(failure.value.err);
    }
    if generation.decodeFailure.Some? {
      return Blocked;
    }
    var flushErr := w.Flush();
    if flushErr.Some? {
      return ExportFailed(Wrap("failed to flush CSV writer", flushErr.value));
    }
    return Exported;
  }

  // ---------------------------------------------------------------------------------------
  // Properties of Export
  // ---------------------------------------------------------------------------------------

  /** An error CSV fails before anything is written, with the earlier error wrapped. */
  lemma ErrorCsvWritesNothing(e: Error, records: seq<seq<string>>, accepts: nat, writeError: Error,
                              flushError: Option<Error>, c: Codecs)
    ensures ExportSpec(NewErrorCsv(e), records, accepts, writeError, flushError, c) ==
      Run(records, ExportFailed(Wrap("cannot export CSV due to previous error", e)))
    ensures ExportSpec(NewErrorCsv(e), records, accepts, writeError, flushError, c).outcome.err.Wraps(e)
  {
  }

  /** A root of any other kind cannot be exported. */
  lemma UnsupportedRootFails(root: DynamicValue, f: Flattener, records: seq<seq<string>>, accepts: nat,
                             writeError: Error, flushError: Option<Error>, c: Codecs)
    requires root.DataType() in {String, Float, Int, Boolean, Null}
    ensures ExportSpec(NewCsv(root, f), records, accepts, writeError, flushError, c).records == records
    ensures ExportSpec(NewCsv(root, f), records, accepts, writeError, flushError, c).outcome.ExportFailed?
  {
  }

  /** When the rows export without failure, a first row without headers adds its data record. */
  lemma EmitRowsPlainFirst(rows: seq<RowState>, hs: seq<string>, records: seq<seq<string>>,
                           accepts: nat, writeError: Error, c: Codecs)
    requires rows != [] && !rows[0].withHeaders
    requires EmitRows(rows, hs, records, accepts, writeError, c).failure == None
    ensures RenderFields(rows[0].values, hs, c).Returned?
    ensures EmitRows(rows, hs, records, accepts, writeError, c) ==
      EmitRows(rows[1..], hs, records + [RenderFields(rows[0].values, hs, c).value], accepts, writeError, c)
  {
    assert EmitRow(rows[0], hs, records, accepts, writeError, c).progress.failure == None;
  }

  /** When the rows export without failure, a first row with headers adds its headers and its data record. */
  lemma EmitRowsHeaderFirst(rows: seq<RowState>, hs: seq<string>, records: seq<seq<string>>,
                            accepts: nat, writeError: Error, c: Codecs)
    requires rows != [] && rows[0].withHeaders
    requires EmitRows(rows, hs, records, accepts, writeError, c).failure == None
    ensures RenderFields(rows[0].values, rows[0].headers, c).Returned?
    ensures EmitRows(rows, hs, records, accepts, writeError, c) ==
      EmitRows(rows[1..], rows[0].headers,
               records + [rows[0].headers] + [RenderFields(rows[0].values, rows[0].headers, c).value],
               accepts, writeError, c)
  {
    assert EmitRow(rows[0], hs, records, accepts, writeError, c).progress.failure == None;
  }

  /** The data record of each row under the headers `hs` (empty where rendering fails). */
  function DataRecords(rows: seq<RowState>, hs: seq<string>, c: Codecs): (recs: seq<seq<string>>)
    ensures |recs| == |rows|
  {
    seq(|rows|, i requires 0 <= i < |rows| =>
      var r := RenderFields(rows[i].values, hs, c); if r.Returned? then r.value else [])
  }

  /**
   * Rows created without headers each add one data record rendered under the headers in
   * effect, in order, and nothing else, as long as nothing fails.
   */
  lemma {:induction false} EmitRowsWithoutHeaders(rows: seq<RowState>, hs: seq<string>, records: seq<seq<string>>,
                                                  accepts: nat, writeError: Error, c: Codecs)
    requires forall i :: 0 <= i < |rows| ==> !rows[i].withHeaders
    requires EmitRows(rows, hs, records, accepts, writeError, c).failure == None
    ensures forall i :: 0 <= i < |rows| ==> RenderFields(rows[i].values, hs, c).Returned?
    ensures EmitRows(rows, hs, records, accepts, writeError, c).records == records + DataRecords(rows, hs, c)
    decreases |rows|
  {
    if rows == [] {
      assert records + DataRecords(rows, hs, c) == records;
    } else {
      EmitRowsPlainFirst(rows, hs, records, accepts, writeError, c);
      var f0 := RenderFields(rows[0].values, hs, c).value;
      var tail := rows[1..];
      assert forall i :: 0 <= i < |tail| ==> tail[i] == rows[i + 1];
      EmitRowsWithoutHeaders(tail, hs, records + [f0], accepts, writeError, c);
      assert DataRecords(rows, hs, c) == [f0] + DataRecords(tail, hs, c);
      assert records + [f0] + DataRecords(tail, hs, c) == records + DataRecords(rows, hs, c);
    }
  }

  /**
   * Rows of which only the first is created with headers write those headers, then one data
   * record per row under them, in order, as long as nothing fails.
   */
  lemma EmitRowsFirstWithHeaders(rows: seq<RowState>, records: seq<seq<string>>,
                                 accepts: nat, writeError: Error, c: Codecs)
    requires rows != [] && rows[0].withHeaders
    requires forall i :: 0 < i < |rows| ==> !rows[i].withHeaders
    requires EmitRows(rows, [], records, accepts, writeError, c).failure == None
    ensures forall i :: 0 <= i < |rows| ==> RenderFields(rows[i].values, rows[0].headers, c).Returned?
    ensures EmitRows(rows, [], records, accepts, writeError, c).records ==
      records + [rows[0].headers] + DataRecords(rows, rows[0].headers, c)
  {
    var hs := rows[0].headers;
    EmitRowsHeaderFirst(rows, [], records, accepts, writeError, c);
    var f0 := RenderFields(rows[0].values, hs, c).value;
    var tail := rows[1..];
    assert forall i :: 0 <= i < |tail| ==> tail[i] == rows[i + 1];
    EmitRowsWithoutHeaders(tail, hs, records + [hs] + [f0], accepts, writeError, c);
    assert DataRecords(rows, hs, c) == [f0] + DataRecords(tail, hs, c);
    assert records + [hs] + [f0] + DataRecords(tail, hs, c) == records + [hs] + DataRecords(rows, hs, c);
  }

  /**
   * What a CSV whose rows all go through hands to the CSV writer: the first row's headers,
   * then one data record per row, each with exactly one field per header, fields in header
   * order. That is so whether `Export` then returns nil (and has flushed the writer) or blocks
   * on a stream's decode error (and never flushes it).
   */
  lemma ExportWritesHeadersThenRows(cs: Csv, records: seq<seq<string>>, accepts: nat, writeError: Error,
                                    flushError: Option<Error>, c: Codecs)
    requires cs.DataCsv? && GenerateRows(cs) != []
    requires ExportSpec(cs, records, accepts, writeError, flushError, c).outcome in {Exported, Blocked}
    ensures var rows := GenerateRows(cs);
      ExportSpec(cs, records, accepts, writeError, flushError, c).records ==
        records + [rows[0].headers] + DataRecords(rows, rows[0].headers, c)
    ensures var rows := GenerateRows(cs);
      forall i :: 0 <= i < |rows| ==>
        RenderFields(rows[i].values, rows[0].headers, c).Returned? &&
        |DataRecords(rows, rows[0].headers, c)[i]| == |rows[0].headers|
  {
    var rows := GenerateRows(cs);
    GeneratedRowsShape(cs);
    var p := EmitRows(rows, [], records, accepts, writeError, c);
    var spec := ExportSpec(cs, records, accepts, writeError, flushError, c);
    assert p.failure == None && spec.records == p.records;
    EmitRowsFirstWithHeaders(rows, records, accepts, writeError, c);
    forall i | 0 <= i < |rows|
      ensures |DataRecords(rows, rows[0].headers, c)[i]| == |rows[0].headers|
    {
      RenderFieldsShape(rows[i].values, rows[0].headers, c);
    }
  }

  /** A root with no rows (an empty array, an empty stream) hands nothing to the writer, not even headers. */
  lemma NoRowsWriteNothing(cs: Csv, records: seq<seq<string>>, accepts: nat, writeError: Error,
                           flushError: Option<Error>, c: Codecs)
    requires cs.DataCsv? && GenerateRows(cs) == []
    ensures ExportSpec(cs, records, accepts, writeError, flushError, c).records == records
  {
  }

  // ---------------------------------------------------------------------------------------
  // Flatteners a Go program can write
  // ---------------------------------------------------------------------------------------

  /** No column of the map carries a formatter. */
  predicate PlainValues(values: map<string, Source>)
  {
    forall h :: h in values ==> values[h].formatter == None
  }

  /**
   * A flattener as Go code outside the package can write one: the fields of `Source` are
   * unexported, every source the package builds has no formatter, and `ColFormatted` drops the
   * one it is given, so every value a flattener stores carries none.
   */
  ghost predicate PlainFlattener(f: Flattener)
  {
    forall s: Source, k :: 0 <= k < |f(s)| ==> f(s)[k].value.formatter == None
  }

  /** Column calls without formatters keep a row free of formatters. */
  lemma {:induction false} ApplyCallsPlain(r: RowState, calls: seq<ColCall>)
    requires PlainValues(r.values)
    requires forall k :: 0 <= k < |calls| ==> calls[k].value.formatter == None
    ensures PlainValues(ApplyCalls(r, calls).values)
    decreases |calls|
  {
    if calls != [] {
      ApplyCallsPlain(r, calls[..|calls| - 1]);
    }
  }

  /**
   * Without formatters a field never panics, and its only error is the value's own rendering
   * error, wrapped with the header: never "error formatting data".
   */
  lemma PlainFieldOf(values: map<string, Source>, h: string, c: Codecs)
    requires PlainValues(values)
    ensures !FieldOf(values, h, c).Panicked?
    ensures h in values ==> SourceStrVal(values[h], c) == Returned(StrVal(values[h].data, c))
    ensures FieldOf(values, h, c).Raised? ==>
      h in values && StrVal(values[h].data, c).err.Some? &&
      FieldOf(values, h, c).error == Wrap("failed to get value for header " + h, StrVal(values[h].data, c).err.value)
  {
  }

  /** Without formatters a data record never panics; its error is some field's rendering error. */
  lemma {:induction false} PlainRenderFields(values: map<string, Source>, hs: seq<string>, c: Codecs)
    requires PlainValues(values)
    ensures !RenderFields(values, hs, c).Panicked?
    ensures RenderFields(values, hs, c).Raised? ==>
      exists j :: 0 <= j < |hs| && hs[j] in values && StrVal(values[hs[j]].data, c).err.Some? &&
        RenderFields(values, hs, c).error ==
          Wrap("failed to get value for header " + hs[j], StrVal(values[hs[j]].data, c).err.value)
    decreases |hs|
  {
    if hs != [] {
      PlainFieldOf(values, hs[0], c);
      if FieldOf(values, hs[0], c).Returned? {
        PlainRenderFields(values, hs[1..], c);
        if RenderFields(values, hs[1..], c).Raised? {
          var j :| 0 <= j < |hs[1..]| && hs[1..][j] in values && StrVal(values[hs[1..][j]].data, c).err.Some? &&
            RenderFields(values, hs[1..], c).error ==
              Wrap("failed to get value for header " + hs[1..][j], StrVal(values[hs[1..][j]].data, c).err.value);
          assert hs[j + 1] == hs[1..][j];
        }
      } else {
        assert hs[0] in values;
      }
    }
  }

  /** Rows without formatters never stop the row loop with a panic. */
  lemma {:induction false} PlainEmitRows(rows: seq<RowState>, hs: seq<string>, records: seq<seq<string>>,
                                         accepts: nat, writeError: Error, c: Codecs)
    requires forall i :: 0 <= i < |rows| ==> PlainValues(rows[i].values)
    ensures EmitRows(rows, hs, records, accepts, writeError, c).failure != Some(Panic)
    decreases |rows|
  {
    if rows != [] {
      var r0 := rows[0];
      PlainRenderFields(r0.values, if r0.withHeaders then r0.headers else hs, c);
      var step := EmitRow(r0, hs, records, accepts, writeError, c);
      assert step.progress.failure != Some(Panic);
      if step.progress.failure.None? {
        var tail := rows[1..];
        assert forall i :: 0 <= i < |tail| ==> tail[i] == rows[i + 1];
        PlainEmitRows(tail, step.headers, step.progress.records, accepts, writeError, c);
      }
    }
  }

  /**
   * With a flattener a Go program can write, every field is the value's own `strVal` (the
   * formatter path is never taken) and `Export` never ends in a panic.
   */
  lemma PlainFlattenerNeverPanics(cs: Csv, records: seq<seq<string>>, accepts: nat, writeError: Error,
                                  flushError: Option<Error>, c: Codecs)
    requires cs.DataCsv? && PlainFlattener(cs.flattener)
    ensures forall i, h :: 0 <= i < |GenerateRows(cs)| && h in GenerateRows(cs)[i].values ==>
      SourceStrVal(GenerateRows(cs)[i].values[h], c) == Returned(StrVal(GenerateRows(cs)[i].values[h].data, c))
    ensures ExportSpec(cs, records, accepts, writeError, flushError, c).outcome != ExportPanicked
  {
    var rows := GenerateRows(cs);
    var sources := RootSources(cs.rootData).sources;
    forall i | 0 <= i < |rows|
      ensures PlainValues(rows[i].values)
    {
      ApplyCallsPlain(NewRowState(i == 0), cs.flattener(sources[i]));
    }
    PlainEmitRows(rows, [], records, accepts, writeError, c);
  }
}
