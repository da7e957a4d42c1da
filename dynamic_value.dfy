/**
 * The tagged dynamic value of the `flat` package: a raw Go value classified into one of nine
 * kinds, with safe navigation (`Key`, `Idx`) and rendering to a CSV field (`strVal`).
 */
module DynamicValues {
  import opened Wrappers
  import Text

  /** `DataType`, in the order of the source's `iota` constants. */
  datatype Kind = Object | Array | ArrayOfObjects | StreamOfObjects | String | Float | Int | Boolean | Null

  /**
   * What a JSON decoder reading object after object from a reader produces: the objects in
   * order, then either the end of input (`failure == None`) or a decode error.
   */
  datatype StreamInput = StreamInput(objects: seq<map<string, Raw>>, failure: Option<Error>)

  /** A Go value held in an `any`, one constructor per dynamic type the classifier tells apart. */
  datatype Raw =
    | RMap(fields: map<string, Raw>)          // map[string]any
    | RSlice(items: seq<Raw>)                 // []any
    | RSliceOfMaps(maps: seq<map<string, Raw>>) // []map[string]any
    | RString(s: string)                      // string
    | RFloat(f: real)                         // float64
    | RInt(i: int)                            // int
    | RBool(b: bool)                          // bool
    | RReader(readerType: string, stream: StreamInput) // a value of a concrete type implementing io.Reader
    | RNil                                    // the nil interface
    | ROther(typeName: string)                // a value of any other concrete type

  /**
   * A Go type used as a type argument `T` of the generic constructors (`NewFormatter[T, S]`,
   * `NewSplitter[T]`). `ReaderType(name)` is a concrete type implementing io.Reader, such as
   * `*bytes.Buffer` (its zero value, a typed nil, still classifies as a stream). `AnyType` and
   * `ReaderInterfaceType` are interface types, whose zero value is nil; `OtherType` is any other
   * concrete type that does not implement io.Reader.
   */
  datatype GoType =
    | MapType | SliceType | SliceOfMapsType | StringType | Float64Type | IntType | BoolType
    | ReaderType(readerName: string) | AnyType | ReaderInterfaceType | OtherType(name: string)

  /** The dynamic type of a value; nil has none. */
  function TypeOf(x: Raw): Option<GoType>
  {
    match x
    case RMap(_) => Some(MapType)
    case RSlice(_) => Some(SliceType)
    case RSliceOfMaps(_) => Some(SliceOfMapsType)
    case RString(_) => Some(StringType)
    case RFloat(_) => Some(Float64Type)
    case RInt(_) => Some(IntType)
    case RBool(_) => Some(BoolType)
    case RReader(n, _) => Some(ReaderType(n))
    case RNil => None
    case ROther(n) => Some(OtherType(n))
  }

  /** `getDataTypeFromValue`: the type switch over the value's dynamic type. */
  function Classify(x: Raw): Kind
  {
    match x
    case RMap(_) => Object
    case RSlice(_) => Array
    case RSliceOfMaps(_) => ArrayOfObjects
    case RString(_) => String
    case RFloat(_) => Float
    case RInt(_) => Int
    case RBool(_) => Boolean
    case RReader(_, _) => StreamOfObjects
    case RNil => Null
    case ROther(_) => Null
  }

  /** `getDataTypeFromType[T]`: the classification of `*new(T)`, the zero value of `T`. */
  function KindOfType(t: GoType): Kind
  {
    match t
    case MapType => Object
    case SliceType => Array
    case SliceOfMapsType => ArrayOfObjects
    case StringType => String
    case Float64Type => Float
    case IntType => Int
    case BoolType => Boolean
    case ReaderType(_) => StreamOfObjects
    case AnyType => Null
    case ReaderInterfaceType => Null
    case OtherType(_) => Null
  }

  /** `isValidDataType[T]`. */
  predicate IsValidDataType(t: GoType)
  {
    KindOfType(t) != Null
  }

  /**
   * The single-result type assertion `x.(T)`: true when it succeeds, false when it panics.
   * Asserting nil to any type fails.
   */
  predicate AssertsTo(x: Raw, t: GoType)
  {
    match t
    case AnyType => x != RNil
    case ReaderInterfaceType => x.RReader?
    case _ => TypeOf(x) == Some(t)
  }

  /**
   * The one way a kind check can pass while the assertion `x.(T)` still panics: `T` and the
   * value are both readers, of different concrete types (a `*strings.Reader` asserted to
   * `*bytes.Buffer`), since every reader type has kind StreamOfObjects.
   */
  predicate ReaderTypeClash(x: Raw, t: GoType)
  {
    x.RReader? && t.ReaderType? && t.readerName != x.readerType
  }

  /**
   * A DynamicValue. Every value the source builds comes from `newDynamicValue` (the payload
   * is kept and the kind is its classification) or from `errorDynamicValue` (kind Null, nil
   * payload, the error set), so the two constructors are exactly those two functions.
   */
  datatype DynamicValue = Value(payload: Raw) | Failed(err: Error)
  {
    /** `DataType()`. */
    function DataType(): Kind
    {
      if Failed? then Null else Classify(payload)
    }

    /** `Value()`: the payload, nil for an error value. */
    function RawValue(): Raw
    {
      if Failed? then RNil else payload
    }

    /** `Error()`. */
    function Error(): Option<Error>
    {
      if Failed? then Some(err) else None
    }
  }

  /** `DynamicValueNull`: what every failed navigation returns. */
  const DynamicValueNull: DynamicValue := Value(RNil)

  /** `errorStrValue`. */
  const ErrorStrValue: string := "<ERROR>"

  /** `newDynamicValue`. */
  function NewDynamicValue(x: Raw): (d: DynamicValue)
    ensures d.DataType() == Classify(x) && d.RawValue() == x && d.Error() == None
  {
    Value(x)
  }

  /** `errorDynamicValue`. */
  function ErrorDynamicValue(e: Error): (d: DynamicValue)
    ensures d.DataType() == Null && d.RawValue() == RNil && d.Error() == Some(e)
  {
    Failed(e)
  }

  /**
   * `StreamJSONFromReader`: a non-nil reader, of concrete type `readerType`, is wrapped without
   * being read. A nil reader is a nil interface value, which is `NewDynamicValue(RNil)`.
   */
  function StreamJSONFromReader(readerType: string, input: StreamInput): (d: DynamicValue)
    ensures d.DataType() == StreamOfObjects && d.Error() == None
    ensures d.RawValue() == RReader(readerType, input)
  {
    NewDynamicValue(RReader(readerType, input))
  }

  /** The library calls `strVal` makes and that are not part of this model. */
  datatype Codecs = Codecs(
    marshal: Raw -> Result<string>,   // json.Marshal
    formatG: real -> string)          // fmt.Sprintf("%g", f)

  /** A `(string, error)` pair: `strVal` always returns text, even beside an error. */
  datatype Rendered = Rendered(text: string, err: Option<Error>)

  /** `strVal`: the CSV field text of a value. */
  function StrVal(d: DynamicValue, c: Codecs): Rendered
  {
    if d.Failed? then Rendered(ErrorStrValue, Some(Wrap("data contains error", d.err)))
    else
      var x := d.payload;
      match d.DataType()
      case Object | Array | ArrayOfObjects =>
        (match c.marshal(x)
         case Err(e) => Rendered(ErrorStrValue, Some(Wrap("failed to marshal data", e)))
         case Ok(text) => Rendered(text, None))
      case String => Rendered(x.s, None)
      case Float => Rendered(c.formatG(x.f), None)
      case Int => Rendered(Text.IntToDecimal(x.i), None)
      case Boolean => Rendered(if x.b then "true" else "false", None)
      case StreamOfObjects =>
        Rendered(ErrorStrValue, Some(Leaf("data is a stream of objects, cannot convert to string")))
      case Null => Rendered("", None)
  }

  /** `rootKey`: one step of object navigation. */
  function RootKey(d: DynamicValue, key: string): DynamicValue
  {
    if d.DataType() != Object then DynamicValueNull
    else if key in d.payload.fields then NewDynamicValue(d.payload.fields[key])
    else DynamicValueNull
  }

  /** `Key(keys...)`. */
  function Key(d: DynamicValue, keys: seq<string>): DynamicValue
    decreases |keys|
  {
    if |keys| == 0 then DynamicValueNull
    else if |keys| == 1 then RootKey(d, keys[0])
    else Key(RootKey(d, keys[0]), keys[1..])
  }

  /** `Idx(index)`. */
  function Idx(d: DynamicValue, index: int): DynamicValue
  {
    if d.DataType() != Array && d.DataType() != ArrayOfObjects then DynamicValueNull
    else if d.DataType() == Array then
      if 0 <= index < |d.payload.items| then NewDynamicValue(d.payload.items[index]) else DynamicValueNull
    else
      if 0 <= index < |d.payload.maps| then NewDynamicValue(RMap(d.payload.maps[index])) else DynamicValueNull
  }

  // ---------------------------------------------------------------------------------------
  // Properties
  // ---------------------------------------------------------------------------------------

  /**
   * Classification is total and agrees with the type of the value: a non-nil value is
   * classified like the zero value of its own type, and only nil or a type outside the
   * recognised ones is Null.
   */
  lemma ClassifyAgreesWithType(x: Raw)
    ensures x == RNil <==> TypeOf(x).None?
    ensures x != RNil ==> Classify(x) == KindOfType(TypeOf(x).value)
    ensures Classify(x) == Null <==> (x.RNil? || x.ROther?)
    ensures Classify(x) == StreamOfObjects <==> x.RReader?
  {
  }

  /**
   * A value whose kind matches a valid type passes the assertion to that type, except a reader
   * of another concrete reader type, on which the assertion panics.
   */
  lemma MatchingKindAsserts(x: Raw, t: GoType)
    requires IsValidDataType(t) && Classify(x) == KindOfType(t)
    ensures AssertsTo(x, t) <==> !ReaderTypeClash(x, t)
  {
  }

  /** An error value has kind Null, and rendering it gives the sentinel and the wrapped error. */
  lemma ErrorValueRendering(e: Error, c: Codecs)
    ensures ErrorDynamicValue(e).DataType() == Null
    ensures StrVal(ErrorDynamicValue(e), c) == Rendered(ErrorStrValue, Some(Wrap("data contains error", e)))
    ensures StrVal(ErrorDynamicValue(e), c).err.value.Wraps(e)
  {
  }

  /** Any value carrying an error renders as the sentinel, with an error. */
  lemma StrValOfError(d: DynamicValue, c: Codecs)
    requires d.Error().Some?
    ensures StrVal(d, c).text == ErrorStrValue
    ensures StrVal(d, c).err.Some? && StrVal(d, c).err.value.Wraps(d.Error().value)
  {
  }

  /** Null is empty, strings are verbatim, booleans are true/false, ints are plain decimal. */
  lemma StrValOfScalars(s: string, b: bool, i: int, c: Codecs)
    ensures StrVal(DynamicValueNull, c) == Rendered("", None)
    ensures StrVal(NewDynamicValue(ROther(s)), c) == Rendered("", None)
    ensures StrVal(NewDynamicValue(RString(s)), c) == Rendered(s, None)
    ensures StrVal(NewDynamicValue(RBool(b)), c) == Rendered(if b then "true" else "false", None)
    ensures StrVal(NewDynamicValue(RInt(i)), c) == Rendered(Text.IntToDecimal(i), None)
  {
  }

  /** A stream cannot be rendered: always the sentinel and an error. */
  lemma StrValOfStream(readerType: string, input: StreamInput, c: Codecs)
    ensures StrVal(StreamJSONFromReader(readerType, input), c).text == ErrorStrValue
    ensures StrVal(StreamJSONFromReader(readerType, input), c).err.Some?
  {
  }

  /** Only errors, streams and failed marshalling produce a rendering error. */
  lemma StrValErrorCases(d: DynamicValue, c: Codecs)
    ensures StrVal(d, c).err.Some? <==>
      (d.Failed? || d.DataType() == StreamOfObjects ||
       (d.DataType() in {Object, Array, ArrayOfObjects} && c.marshal(d.payload).Err?))
    ensures StrVal(d, c).err.Some? ==> StrVal(d, c).text == ErrorStrValue
  {
  }

  /** `rootKey`: Null off an object or on an absent key, the classified child otherwise. */
  lemma RootKeyCases(d: DynamicValue, key: string)
    ensures d.DataType() != Object ==> RootKey(d, key) == DynamicValueNull
    ensures d.DataType() == Object && key !in d.payload.fields ==> RootKey(d, key) == DynamicValueNull
    ensures d.DataType() == Object && key in d.payload.fields ==>
      RootKey(d, key) == NewDynamicValue(d.payload.fields[key])
  {
  }

  /** Where a walk down nested objects leads, if anywhere: the reference for `Key`. */
  function Lookup(x: Raw, keys: seq<string>): Option<Raw>
    decreases |keys|
  {
    if keys == [] then Some(x)
    else if x.RMap? && keys[0] in x.fields then Lookup(x.fields[keys[0]], keys[1..])
    else None
  }

  /**
   * `Key(k1..kn)` is the value found by walking `k1..kn` down nested objects, and Null when the
   * list is empty, a key is missing or a step is not an object.
   */
  lemma {:induction false} KeyIsLookup(d: DynamicValue, keys: seq<string>)
    ensures Key(d, keys) ==
      if keys == [] || d.Failed? then DynamicValueNull
      else match Lookup(d.payload, keys)
        case Some(v) => NewDynamicValue(v)
        case None => DynamicValueNull
    decreases |keys|
  {
    if |keys| >= 2 {
      var next := RootKey(d, keys[0]);
      KeyIsLookup(next, keys[1..]);
    }
  }

  /** `Key` never produces an error value, whatever it is given. */
  lemma {:induction false} KeyNeverFails(d: DynamicValue, keys: seq<string>)
    ensures Key(d, keys).Error() == None
  {
    KeyIsLookup(d, keys);
  }

  /** `Key(k1..kn)` for n >= 2 is `rootKey(k1).Key(k2..kn)`; on Null it stays Null. */
  lemma KeyUnfolds(d: DynamicValue, keys: seq<string>)
    ensures |keys| >= 2 ==> Key(d, keys) == Key(RootKey(d, keys[0]), keys[1..])
    ensures Key(DynamicValueNull, keys) == DynamicValueNull
    ensures Key(d, []) == DynamicValueNull
  {
    KeyIsLookup(DynamicValueNull, keys);
  }

  /** `Idx(i)`: the classified element in range on an array kind, Null otherwise. */
  lemma IdxCases(d: DynamicValue, i: int)
    ensures d.DataType() == Array && 0 <= i < |d.payload.items| ==>
      Idx(d, i) == NewDynamicValue(d.payload.items[i])
    ensures d.DataType() == ArrayOfObjects && 0 <= i < |d.payload.maps| ==>
      Idx(d, i) == NewDynamicValue(RMap(d.payload.maps[i])) && Idx(d, i).DataType() == Object
    ensures Idx(d, i) != DynamicValueNull ==>
      d.Value? && ((d.payload.RSlice? && 0 <= i < |d.payload.items|) ||
                   (d.payload.RSliceOfMaps? && 0 <= i < |d.payload.maps|))
    ensures Idx(d, i).Error() == None
  {
  }
}
