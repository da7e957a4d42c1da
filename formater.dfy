/**
 * Formatters of the `flat` package: any function from a dynamic value to a dynamic value or an
 * error, and in particular the kind-checked ones `NewFormatter` builds from a typed function
 * `T -> (S, error)`, which check that the value's kind is `T`'s before the function is called.
 */
module Formatters {
  import opened Wrappers
  import opened DynamicValues

  /**
   * A `Formatter`: either the closure `NewFormatter[T, S](f)` returns, which captures the type
   * arguments and the user function (the function only ever sees values of type `T`: the
   * closure asserts the value to `T` before calling it), or any other function of the
   * exported type `func(*DynamicValue) (*DynamicValue, error)` a caller writes, given by what
   * it returns, raises or whether it panics.
   */
  datatype Formatter =
    | Typed(input: GoType, output: GoType, f: Raw -> Result<Raw>)
    | Custom(run: DynamicValue -> Outcome<DynamicValue>)

  /** `NewFormatter[T, S](f)`. */
  function NewFormatter(input: GoType, output: GoType, f: Raw -> Result<Raw>): (fm: Formatter)
    ensures fm.Typed? && fm.input == input && fm.output == output && fm.f == f
  {
    Typed(input, output, f)
  }

  /** `NewSafeFormatter[T, S](f)`: the user function cannot fail. */
  function NewSafeFormatter(input: GoType, output: GoType, g: Raw -> Raw): (fm: Formatter)
    ensures fm.Typed? && fm.input == input && fm.output == output
    ensures forall x :: fm.f(x) == Ok(g(x))
  {
    NewFormatter(input, output, x => Ok(g(x)))
  }

  /**
   * A formatter applied to one value. The closure `NewFormatter` returns gives its
   * `(value, error)` result, or a panic when the assertion `dv.Value().(T)` fails after the
   * kind check has passed; a caller's own function gives whatever it gives.
   */
  function Apply(fm: Formatter, dv: DynamicValue): Outcome<DynamicValue>
  {
    if fm.Custom? then fm.run(dv)
    else if dv.RawValue() == RNil then Returned(dv)
    else if !IsValidDataType(fm.input) || !IsValidDataType(fm.output) then
      Raised(Leaf("invalid data types"))
    else if KindOfType(fm.input) != dv.DataType() then
      Raised(Leaf("formatter function type mismatch with data type"))
    else if !AssertsTo(dv.payload, fm.input) then
      Panicked
    else
      match fm.f(dv.payload)
      case Err(e) => Raised(Wrap("error formatting data", e))
      case Ok(y) => Returned(NewDynamicValue(y))
  }

  /** `DynamicValue.Format(formatter)`: a nil formatter is the identity; a panic propagates. */
  function Format(dv: DynamicValue, formatter: Option<Formatter>): Outcome<DynamicValue>
  {
    match formatter
    case None => Returned(dv)
    case Some(fm) =>
      match Apply(fm, dv)
      case Panicked => Panicked
      case Raised(e) => Returned(ErrorDynamicValue(Wrap("error transforming data", e)))
      case Returned(v) => Returned(v)
  }

  // ---------------------------------------------------------------------------------------
  // Properties
  // ---------------------------------------------------------------------------------------

  /**
   * Through a `NewFormatter` closure, Null, an error value and any value with a nil payload
   * pass through unchanged.
   */
  lemma NilPassesThrough(fm: Formatter, dv: DynamicValue)
    requires fm.Typed? && dv.RawValue() == RNil
    ensures Apply(fm, dv) == Returned(dv)
  {
  }

  /** Both type arguments are valid and the value has `T`'s kind: the checks before the call pass. */
  predicate ChecksPass(fm: Formatter, dv: DynamicValue)
    requires fm.Typed?
  {
    IsValidDataType(fm.input) && IsValidDataType(fm.output) && KindOfType(fm.input) == dv.DataType()
  }

  /**
   * The formatter's outcome, case by case: invalid type arguments, a kind mismatch (the user
   * function is not called), a panicking assertion for a reader of another concrete type, the
   * user's error wrapped, or the reclassified output.
   */
  lemma ApplyCases(fm: Formatter, dv: DynamicValue)
    requires fm.Typed? && dv.RawValue() != RNil
    ensures !IsValidDataType(fm.input) || !IsValidDataType(fm.output) ==>
      Apply(fm, dv) == Raised(Leaf("invalid data types"))
    ensures IsValidDataType(fm.input) && IsValidDataType(fm.output) && KindOfType(fm.input) != dv.DataType() ==>
      Apply(fm, dv) == Raised(Leaf("formatter function type mismatch with data type"))
    ensures Apply(fm, dv).Panicked? <==> ChecksPass(fm, dv) && ReaderTypeClash(dv.payload, fm.input)
    ensures Apply(fm, dv).Returned? <==>
      ChecksPass(fm, dv) && !ReaderTypeClash(dv.payload, fm.input) && fm.f(dv.payload).Ok?
    ensures ChecksPass(fm, dv) && !ReaderTypeClash(dv.payload, fm.input) && fm.f(dv.payload).Err? ==>
      Apply(fm, dv) == Raised(Wrap("error formatting data", fm.f(dv.payload).error))
    ensures Apply(fm, dv).Returned? ==> Apply(fm, dv) == Returned(NewDynamicValue(fm.f(dv.payload).value))
  {
    if ChecksPass(fm, dv) {
      MatchingKindAsserts(dv.payload, fm.input);
    }
  }

  /**
   * Once the checks pass, the user function is called exactly when the assertion to `T`
   * succeeds, which is every case but a reader of another concrete reader type; that case
   * panics before the function is reached.
   */
  lemma UserFunctionSeesItsType(fm: Formatter, dv: DynamicValue)
    requires fm.Typed? && dv.RawValue() != RNil && ChecksPass(fm, dv)
    ensures dv.Value?
    ensures AssertsTo(dv.payload, fm.input) <==> !ReaderTypeClash(dv.payload, fm.input)
    ensures Apply(fm, dv).Panicked? <==> ReaderTypeClash(dv.payload, fm.input)
  {
    MatchingKindAsserts(dv.payload, fm.input);
  }

  /**
   * On success the result is the reclassified output; when the user function returns a value of
   * its declared type `S`, the result's kind is `S`'s kind.
   */
  lemma SuccessHasOutputKind(fm: Formatter, dv: DynamicValue)
    requires fm.Typed? && Apply(fm, dv).Returned? && dv.RawValue() != RNil
    requires fm.f(dv.payload).Ok? ==> TypeOf(fm.f(dv.payload).value) == Some(fm.output)
    ensures Apply(fm, dv) == Returned(NewDynamicValue(fm.f(dv.payload).value))
    ensures Apply(fm, dv).value.DataType() == KindOfType(fm.output) != Null
    ensures Apply(fm, dv).value.Error() == None
  {
    ClassifyAgreesWithType(fm.f(dv.payload).value);
  }

  /**
   * A safe formatter never fails in the user function: once its type checks pass it returns,
   * unless the value is a reader of another concrete type, which panics.
   */
  lemma SafeFormatterNeverFailsInUser(input: GoType, output: GoType, g: Raw -> Raw, dv: DynamicValue)
    requires IsValidDataType(input) && IsValidDataType(output)
    requires dv.RawValue() == RNil || KindOfType(input) == dv.DataType()
    ensures Apply(NewSafeFormatter(input, output, g), dv).Returned? <==> !ReaderTypeClash(dv.RawValue(), input)
    ensures Apply(NewSafeFormatter(input, output, g), dv).Panicked? <==> ReaderTypeClash(dv.RawValue(), input)
  {
    if dv.RawValue() != RNil {
      MatchingKindAsserts(dv.payload, input);
    }
  }

  /**
   * For every kind of formatter: `Format(nil)` is the identity; a formatter error gives an
   * error value of kind Null; a formatter panic is a panic of `Format`; a returned value is
   * passed on as it is. A caller's own formatter is run with no nil or kind check, and its
   * result reaches the caller unchecked.
   */
  lemma FormatCases(dv: DynamicValue, fm: Formatter)
    ensures Format(dv, None) == Returned(dv)
    ensures Apply(fm, dv).Raised? ==>
      Format(dv, Some(fm)) == Returned(ErrorDynamicValue(Wrap("error transforming data", Apply(fm, dv).error))) &&
      Format(dv, Some(fm)).value.DataType() == Null && Format(dv, Some(fm)).value.Error().Some?
    ensures Apply(fm, dv).Returned? ==> Format(dv, Some(fm)) == Apply(fm, dv)
    ensures Format(dv, Some(fm)).Panicked? <==> Apply(fm, dv).Panicked?
    ensures fm.Custom? ==> Apply(fm, dv) == fm.run(dv)
    ensures fm.Custom? && fm.run(dv).Returned? ==> Format(dv, Some(fm)) == fm.run(dv)
  {
  }

  /**
   * A caller's formatter that returns a fixed value: `Format` passes that value on, whatever the
   * kind, payload or error of the value formatted.
   */
  lemma CustomResultUnchecked(dv: DynamicValue, out: DynamicValue)
    ensures Format(dv, Some(Custom(_ => Returned(out)))) == Returned(out)
  {
  }
}
