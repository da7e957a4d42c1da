/**
 * Package `pricefmt`: the display data of a price, mainly for small decimals such as 0.00000456,
 * which are shown as a count of leading zeros after the point followed by a few digits.
 *
 * The decimal library is not modelled by its arithmetic. A decimal is its canonical text
 * (sign, whole part and fraction digits with trailing zeros trimmed), and the two conversions
 * whose results depend on the library (from a string and from a float) are parameters.
 */
module PriceFormat {
  import opened Wrappers
  import opened Text

  const CurrencyCodeUSD := "USD"
  const CurrencyCodeEUR := "EUR"
  const CurrencyCodeGBP := "GBP"
  const CurrencyCodeINR := "INR"
  const CurrencyCodeCAD := "CAD"
  const CurrencyCodeAUD := "AUD"
  const CurrencyCodePHP := "PHP"
  const CurrencyCodeNZD := "NZD"

  const DefaultCurrencyCode := CurrencyCodeUSD
  /** The least number of leading zeros for which subscript display is used. */
  const DefaultSubscriptLength := 5
  /** The greatest number of digits kept after the leading zeros. */
  const DefaultValueLength := 4

  const TwoTo63: int := 0x8000_0000_0000_0000
  type Int64 = i: int | -TwoTo63 <= i < TwoTo63

  /**
   * A decimal by the parts of its canonical text `[-]whole[.frac]`: `whole` has no leading zero,
   * `frac` no trailing zero, and zero is never negative.
   */
  datatype Decimal = Decimal(negative: bool, whole: string, frac: string)
  {
    predicate Valid()
    {
      CanonicalNatural(whole) && AllDigits(frac) && (|frac| > 0 ==> frac[|frac| - 1] != '0') &&
      (IsZero() ==> !negative)
    }

    predicate IsZero()
    {
      whole == "0" && frac == ""
    }

    predicate IsNegative()
    {
      negative
    }

    function Abs(): Decimal
    {
      this.(negative := false)
    }

    /** `d.Abs().GreaterThanOrEqual(1)`: on canonical text, a whole part other than "0". */
    predicate AbsAtLeastOne()
    {
      whole != "0"
    }

    /** `d.String()`. */
    function String(): string
    {
      (if negative then "-" else "") + whole + (if frac == "" then "" else "." + frac)
    }
  }

  type CanonicalDecimal = d: Decimal | d.Valid() witness Decimal(false, "0", "")

  /** The conversions of the decimal library whose results this model does not compute. */
  datatype DecimalLib = DecimalLib(
    fromString: string -> Result<CanonicalDecimal>,
    fromFloat: real -> CanonicalDecimal)

  /** A `float64`: a finite value, or one of the values the decimal library refuses. */
  datatype Float64 = Finite(value: real) | NaN | PosInf | NegInf

  /**
   * The dynamic type of the `price` argument. `Named` is a value of a defined type such as
   * `type Price string`: the generic constraint admits it, but the type switch does not match it.
   */
  datatype PriceInput =
    | StringPrice(s: string)
    | FloatPrice(f: Float64)
    | IntPrice(i: Int64)
    | DecimalPrice(d: CanonicalDecimal)
    | NamedPrice(typeName: string)

  /** `PriceFormatted`; the two pointer fields are `None` when nil. */
  datatype PriceFormatted = PriceFormatted(
    useSubscript: bool,
    rawValue: string,
    currencyCode: string,
    currencyString: string,
    isNegative: bool,
    zerosAfterDecimal: Option<int>,
    afterZerosValue: Option<Int64>)

  /** `decimal.NewFromInt(int64(v))`: exact. */
  function FromInt(i: Int64): (d: CanonicalDecimal)
    ensures d.String() == IntToDecimal(i)
    ensures d.IsNegative() <==> i < 0
    ensures d.IsZero() <==> i == 0
  {
    var n: nat := if i < 0 then -(i as int) else i as int;
    NatToDecimalCanonical(n);
    assert DecimalValue("0") == 0;
    Decimal(i < 0, NatToDecimal(n), "")
  }

  /** `getDecimalValue`; `decimal.NewFromFloat` panics on NaN and the infinities. */
  function GetDecimalValue(price: PriceInput, lib: DecimalLib): Outcome<CanonicalDecimal>
  {
    match price
    case StringPrice(s) =>
      (match lib.fromString(s)
       case Ok(d) => Returned(d)
       case Err(e) => Raised(e))
    case FloatPrice(f) => if f.Finite? then Returned(lib.fromFloat(f.value)) else Panicked
    case IntPrice(i) => Returned(FromInt(i))
    case DecimalPrice(d) => Returned(d)
    case NamedPrice(typeName) => Raised(Leaf("unsupported price type: " + typeName))
  }

  /** `getCurrencySymbol`. */
  function GetCurrencySymbol(currencyCode: string): string
  {
    if currencyCode == CurrencyCodeUSD then "US$"
    else if currencyCode == CurrencyCodeEUR then "€"
    else if currencyCode == CurrencyCodeGBP then "£"
    else if currencyCode == CurrencyCodeINR then "₹"
    else if currencyCode == CurrencyCodeCAD then "CA$"
    else if currencyCode == CurrencyCodeAUD then "A$"
    else if currencyCode == CurrencyCodePHP then "₱"
    else if currencyCode == CurrencyCodeNZD then "NZ$"
    else currencyCode
  }

  /** The fields every successful result carries, whatever the size of the price. */
  function BasicData(d: CanonicalDecimal, currencyCode: string): PriceFormatted
  {
    PriceFormatted(false, d.String(), currencyCode, GetCurrencySymbol(currencyCode), d.IsNegative(), None, None)
  }

  /** The number of consecutive '0' characters at the start of `s`. */
  function LeadingZeros(s: string): (n: nat)
    ensures n <= |s|
    ensures forall j :: 0 <= j < n ==> s[j] == '0'
    ensures n < |s| ==> s[n] != '0'
  {
    if s != [] && s[0] == '0' then 1 + LeadingZeros(s[1..]) else 0
  }

  /**
   * The digits kept after the leading zeros: at most `valueLength` of them, and "0" when none
   * is kept.
   */
  function AfterZerosDigits(rest: string, valueLength: nat): (t: string)
    requires AllDigits(rest)
    ensures AllDigits(t) && 1 <= |t|
    ensures valueLength > 0 && rest != "" ==> t == rest[..if |rest| > valueLength then valueLength else |rest|]
    ensures valueLength == 0 || rest == "" ==> t == "0"
  {
    var kept := if |rest| > valueLength then rest[..valueLength] else rest;
    if kept == "" then "0" else kept
  }

  /** `IntPart()` of a decimal integer: big.Int's conversion keeps the low 64 bits. */
  function WrapInt64(n: int): (w: Int64)
    ensures -TwoTo63 <= n < TwoTo63 ==> w == n
  {
    if -TwoTo63 <= n < TwoTo63 then n else (n + TwoTo63) % (2 * TwoTo63) - TwoTo63
  }

  /**
   * What `FormatWithOptions` returns for a decimal, stated on its parts. A price is small when it
   * is not zero and below one in absolute value; only a small price with at least one zero after
   * the point gets the zero count, the value after the zeros and the subscript decision. A
   * negative `valueLength` makes the slice of the digits panic.
   */
  function DecimalData(d: CanonicalDecimal, currencyCode: string, subscriptLength: int, valueLength: int): Outcome<PriceFormatted>
  {
    var base := BasicData(d, currencyCode);
    if d.IsZero() || d.AbsAtLeastOne() then Returned(base)
    else
      var count := LeadingZeros(d.frac);
      if count == 0 then Returned(base)
      else if valueLength < 0 then Panicked
      else
        var digits := AfterZerosDigits(d.frac[count..], valueLength);
        Returned(base.(useSubscript := count >= subscriptLength,
                       zerosAfterDecimal := Some(count),
                       afterZerosValue := Some(WrapInt64(DecimalValue(digits)))))
  }

  /** `FormatWithOptions`: convert the price, wrap a conversion error, then `DecimalData`. */
  function FormatWithOptionsSpec(price: PriceInput, lib: DecimalLib, currencyCode: string,
                                 subscriptLength: int, valueLength: int): Outcome<PriceFormatted>
  {
    match GetDecimalValue(price, lib)
    case Panicked => Panicked
    case Raised(e) => Raised(Wrap("error converting price to decimal", e))
    case Returned(d) => DecimalData(d, currencyCode, subscriptLength, valueLength)
  }

  /** The data of a small decimal with zeros after the point. */
  lemma SmallDecimalData(d: CanonicalDecimal, currencyCode: string, subscriptLength: int, valueLength: int)
    requires !d.IsZero() && !d.AbsAtLeastOne() && LeadingZeros(d.frac) > 0 && valueLength >= 0
    ensures var count := LeadingZeros(d.frac);
      DecimalData(d, currencyCode, subscriptLength, valueLength) ==
      Returned(BasicData(d, currencyCode).(useSubscript := count >= subscriptLength,
        zerosAfterDecimal := Some(count),
        afterZerosValue := Some(WrapInt64(DecimalValue(AfterZerosDigits(d.frac[count..], valueLength))))))
  {
  }

  /** The text of the absolute value of a small decimal is "0." followed by its fraction. */
  lemma SmallDecimalText(d: CanonicalDecimal)
    requires !d.IsZero() && !d.AbsAtLeastOne()
    ensures d.frac != ""
    ensures d.Abs().String() == "0." + d.frac
  {
  }

  /** `strings.SplitN(s, ".", 2)` of a text that holds a point: the parts before and after the first one. */
  function SplitAtPoint(s: string): (parts: (string, string))
    requires '.' in s
    ensures s == parts.0 + "." + parts.1 && '.' !in parts.0
  {
    var i := FirstIndexOf(s, '.');
    assert s == s[..i] + "." + s[i + 1..];
    (s[..i], s[i + 1..])
  }

  /** Splitting the text of a small decimal's absolute value gives "0" and its fraction. */
  lemma SmallDecimalSplit(d: CanonicalDecimal, wholePart: string, decimalPart: string)
    requires !d.IsZero() && !d.AbsAtLeastOne()
    requires d.Abs().String() == wholePart + "." + decimalPart && '.' !in wholePart
    ensures wholePart == "0" && decimalPart == d.frac
  {
    SmallDecimalText(d);
    var t := d.Abs().String();
    assert t[0] == '0' && t[1] == '.';
    assert |wholePart| == 1;
    assert wholePart == t[..1] == "0";
    assert decimalPart == t[2..];
  }

  /** `FormatWithOptions`: convert the price, then format the decimal. */
  method FormatWithOptions(price: PriceInput, lib: DecimalLib, currencyCode: string,
                           subscriptLength: int, valueLength: int) returns (r: Outcome<PriceFormatted>)
    ensures r == FormatWithOptionsSpec(price, lib, currencyCode, subscriptLength, valueLength)
  {
    var converted := GetDecimalValue(price, lib);
    if converted.Panicked? {
      return Panicked;
    }
    if converted.Raised? {
      return Raised(Wrap("error converting price to decimal", converted.error));
    }
    r := FormatDecimal(converted.value, currencyCode, subscriptLength, valueLength);
  }

  /**
   * The body of `FormatWithOptions` after the conversion, on the decimal's text as the source
   * does it: split at the point, count the zeros that follow it, cut the digits after them to
   * `valueLength`.
   */
  method FormatDecimal(d: CanonicalDecimal, currencyCode: string, subscriptLength: int, valueLength: int)
    returns (r: Outcome<PriceFormatted>)
    ensures r == DecimalData(d, currencyCode, subscriptLength, valueLength)
  {
    var priceData := PriceFormatted(false, d.String(), currencyCode, GetCurrencySymbol(currencyCode),
                                    d.IsNegative(), None, None);
    if d.IsZero() || d.AbsAtLeastOne() {
      return Returned(priceData);
    }
    var parts := PointParts(d.Abs().String());
    SmallDecimalText(d);
    if parts.None? {
      // a small decimal always prints a point
      assert false;
      return Returned(priceData);
    }
    var wholePart := parts.value.0;
    var decimalPart := parts.value.1;
    SmallDecimalSplit(d, wholePart, decimalPart);
    if wholePart != "0" {
      // a small decimal's whole part is always "0"
      assert false;
      return Returned(priceData);
    }
    var count := CountLeadingZeros(decimalPart);
    if count == 0 {
      assert DecimalData(d, currencyCode, subscriptLength, valueLength) == Returned(priceData);
      return Returned(priceData);
    }
    var afterZeros := decimalPart[count..];
    if |afterZeros| > valueLength {
      if valueLength < 0 {
        // slice bounds out of range
        return Panicked;
      }
      afterZeros := afterZeros[..valueLength];
    }
    if afterZeros == "" {
      afterZeros := "0";
    }
    assert afterZeros == AfterZerosDigits(d.frac[count..], valueLength);
    // decimal.NewFromString cannot fail on a non-empty string of digits
    var afterZerosValue := WrapInt64(DecimalValue(afterZeros));
    priceData := priceData.(useSubscript := count >= subscriptLength);
    priceData := priceData.(zerosAfterDecimal := Some(count));
    priceData := priceData.(afterZerosValue := Some(afterZerosValue));
    SmallDecimalData(d, currencyCode, subscriptLength, valueLength);
    return Returned(priceData);
  }

  /**
   * The text before and after the first point of `strPrice`, or `None` when it holds no point
   * (`strings.Contains` and `strings.SplitN` in the source).
   */
  method PointParts(strPrice: string) returns (parts: Option<(string, string)>)
    ensures parts.None? <==> '.' !in strPrice
    ensures parts.Some? ==> strPrice == parts.value.0 + "." + parts.value.1 && '.' !in parts.value.0
  {
    if '.' !in strPrice {
      return None;
    }
    return Some(SplitAtPoint(strPrice));
  }

  /** The rune loop of `FormatWithOptions`: count '0's until the first other character. */
  method CountLeadingZeros(s: string) returns (count: nat)
    ensures count == LeadingZeros(s)
  {
    count := 0;
    while count < |s| && s[count] == '0'
      invariant count <= |s|
      invariant forall j :: 0 <= j < count ==> s[j] == '0'
    {
      count := count + 1;
    }
  }

  /** `FormatWithCurrency`: the default subscript and value lengths. */
  function FormatWithCurrency(price: PriceInput, lib: DecimalLib, currencyCode: string): Outcome<PriceFormatted>
  {
    FormatWithOptionsSpec(price, lib, currencyCode, DefaultSubscriptLength, DefaultValueLength)
  }

  /** `Format`: the default currency as well. */
  function Format(price: PriceInput, lib: DecimalLib): Outcome<PriceFormatted>
  {
    FormatWithCurrency(price, lib, DefaultCurrencyCode)
  }

  /** `TryFormatWithCurrency`: an error becomes nil; a panic is not recovered. */
  function TryFormatWithCurrency(price: PriceInput, lib: DecimalLib, currencyCode: string): (r: Outcome<Option<PriceFormatted>>)
    ensures r == Returned(None) <==> FormatWithCurrency(price, lib, currencyCode).Raised?
    ensures r.Panicked? <==> FormatWithCurrency(price, lib, currencyCode).Panicked?
    ensures FormatWithCurrency(price, lib, currencyCode).Returned? ==>
      r == Returned(Some(FormatWithCurrency(price, lib, currencyCode).value))
  {
    match FormatWithCurrency(price, lib, currencyCode)
    case Returned(p) => Returned(Some(p))
    case Raised(_) => Returned(None)
    case Panicked => Panicked
  }

  /** `TryFormat`. */
  function TryFormat(price: PriceInput, lib: DecimalLib): (r: Outcome<Option<PriceFormatted>>)
    ensures r == Returned(None) <==> Format(price, lib).Raised?
    ensures r.Panicked? <==> Format(price, lib).Panicked?
    ensures Format(price, lib).Returned? ==> r == Returned(Some(Format(price, lib).value))
  {
    TryFormatWithCurrency(price, lib, DefaultCurrencyCode)
  }

  // ---------------------------------------------------------------------------------------
  // Properties
  // ---------------------------------------------------------------------------------------

  /** The supported codes map to their symbols; any other code is its own symbol. */
  lemma CurrencySymbolTable(currencyCode: string)
    ensures GetCurrencySymbol(CurrencyCodeUSD) == "US$" && GetCurrencySymbol(CurrencyCodeEUR) == "€"
    ensures GetCurrencySymbol(CurrencyCodeGBP) == "£" && GetCurrencySymbol(CurrencyCodeINR) == "₹"
    ensures GetCurrencySymbol(CurrencyCodeCAD) == "CA$" && GetCurrencySymbol(CurrencyCodeAUD) == "A$"
    ensures GetCurrencySymbol(CurrencyCodePHP) == "₱" && GetCurrencySymbol(CurrencyCodeNZD) == "NZ$"
    ensures currencyCode !in {CurrencyCodeUSD, CurrencyCodeEUR, CurrencyCodeGBP, CurrencyCodeINR,
                              CurrencyCodeCAD, CurrencyCodeAUD, CurrencyCodePHP, CurrencyCodeNZD} ==>
      GetCurrencySymbol(currencyCode) == currencyCode
  {
  }

  /**
   * The conversion to a decimal fails exactly for an unparsable string and for a type the switch
   * does not match, and panics exactly for a float that is not finite.
   */
  lemma DecimalConversionCases(price: PriceInput, lib: DecimalLib)
    ensures GetDecimalValue(price, lib).Raised? <==>
      (price.StringPrice? && lib.fromString(price.s).Err?) || price.NamedPrice?
    ensures GetDecimalValue(price, lib).Panicked? <==> price.FloatPrice? && !price.f.Finite?
    ensures price.DecimalPrice? ==> GetDecimalValue(price, lib) == Returned(price.d)
    ensures price.IntPrice? ==>
      GetDecimalValue(price, lib).Returned? && GetDecimalValue(price, lib).value.String() == IntToDecimal(price.i)
  {
  }

  /**
   * The conversion error is the only error, wrapped; on success the code is copied, the symbol
   * looked up, the raw value is the decimal's text and the sign is the decimal's.
   */
  lemma ResultCarriesPrice(price: PriceInput, lib: DecimalLib, currencyCode: string,
                           subscriptLength: int, valueLength: int)
    ensures FormatWithOptionsSpec(price, lib, currencyCode, subscriptLength, valueLength).Raised? <==>
      GetDecimalValue(price, lib).Raised?
    ensures GetDecimalValue(price, lib).Raised? ==>
      FormatWithOptionsSpec(price, lib, currencyCode, subscriptLength, valueLength).error ==
      Wrap("error converting price to decimal", GetDecimalValue(price, lib).error)
    ensures FormatWithOptionsSpec(price, lib, currencyCode, subscriptLength, valueLength).Returned? ==>
      var p := FormatWithOptionsSpec(price, lib, currencyCode, subscriptLength, valueLength).value;
      var d := GetDecimalValue(price, lib).value;
      GetDecimalValue(price, lib).Returned? &&
      p.rawValue == d.String() && p.currencyCode == currencyCode &&
      p.currencyString == GetCurrencySymbol(currencyCode) &&
      p.isNegative == d.IsNegative() && (p.isNegative <==> p.rawValue[0] == '-')
  {
  }

  /** A zero price, or one of absolute value at least one, gets no zero data and no subscript. */
  lemma LargeOrZeroGetsBasicData(d: CanonicalDecimal, currencyCode: string, subscriptLength: int, valueLength: int)
    requires d.IsZero() || d.AbsAtLeastOne()
    ensures DecimalData(d, currencyCode, subscriptLength, valueLength) == Returned(BasicData(d, currencyCode))
    ensures !DecimalData(d, currencyCode, subscriptLength, valueLength).value.useSubscript
  {
  }

  /**
   * The zero count is the number of consecutive zeros right after the point of a small price,
   * at least one; it is present exactly when the value after the zeros is; and subscript display
   * is used exactly when the count is at least `subscriptLength`.
   */
  lemma ZeroCountAndSubscript(d: CanonicalDecimal, currencyCode: string, subscriptLength: int, valueLength: int)
    requires DecimalData(d, currencyCode, subscriptLength, valueLength).Returned?
    ensures var p := DecimalData(d, currencyCode, subscriptLength, valueLength).value;
      (p.zerosAfterDecimal.Some? <==> p.afterZerosValue.Some?) &&
      (p.useSubscript <==> p.zerosAfterDecimal.Some? && p.zerosAfterDecimal.value >= subscriptLength) &&
      (p.zerosAfterDecimal.Some? <==> !d.IsZero() && !d.AbsAtLeastOne() && d.frac[0] == '0') &&
      (p.zerosAfterDecimal.Some? ==>
        var n := p.zerosAfterDecimal.value;
        1 <= n < |d.frac| && (forall j :: 0 <= j < n ==> d.frac[j] == '0') && d.frac[n] != '0')
  {
    if !d.IsZero() && !d.AbsAtLeastOne() {
      SmallDecimalText(d);
    }
  }

  /** The value of a digit string is below ten to the power of its length. */
  function Pow10(n: nat): (p: nat)
    ensures p >= 1
  {
    if n == 0 then 1 else 10 * Pow10(n - 1)
  }

  lemma {:induction false} DecimalValueBound(s: string)
    requires AllDigits(s)
    ensures DecimalValue(s) < Pow10(|s|)
  {
    if s != [] {
      DecimalValueBound(s[..|s| - 1]);
    }
  }

  lemma {:induction false} Pow10Add(m: nat, n: nat)
    ensures Pow10(m + n) == Pow10(m) * Pow10(n)
    decreases n
  {
    if n > 0 {
      Pow10Add(m, n - 1);
      assert Pow10(m + n) == 10 * Pow10(m + n - 1);
    }
  }

  /** Ten to the eighteenth, the greatest power of ten below 2^63. */
  lemma Pow10Of18()
    ensures Pow10(18) == 1_000_000_000_000_000_000 < TwoTo63
  {
    assert Pow10(3) == 1000;
    Pow10Add(3, 3);
    Pow10Add(6, 6);
    Pow10Add(12, 6);
  }

  lemma {:induction false} Pow10Monotone(m: nat, n: nat)
    requires m <= n
    ensures Pow10(m) <= Pow10(n)
    decreases n
  {
    if m < n {
      Pow10Monotone(m, n - 1);
    }
  }

  /** The fraction of a small decimal with a zero after the point: zeros, then at least one digit. */
  lemma ZerosThenDigits(frac: string)
    requires AllDigits(frac) && frac != "" && frac[0] == '0' && frac[|frac| - 1] != '0'
    ensures 1 <= LeadingZeros(frac) < |frac|
    ensures AllDigits(frac[LeadingZeros(frac)..])
  {
    var n := LeadingZeros(frac);
    var rest := frac[n..];
    assert forall j :: 0 <= j < |rest| ==> rest[j] == frac[n + j];
  }

  /**
   * The value after the zeros is the number formed by the first `valueLength` digits after them
   * (all of them when fewer), so with up to 18 digits it is below 10^valueLength and never wraps.
   */
  lemma AfterZerosValueFromDigits(d: CanonicalDecimal, currencyCode: string, subscriptLength: int, valueLength: int)
    requires 1 <= valueLength <= 18
    requires !d.IsZero() && !d.AbsAtLeastOne() && d.frac != "" && d.frac[0] == '0'
    ensures 1 <= LeadingZeros(d.frac) < |d.frac| && AllDigits(d.frac[LeadingZeros(d.frac)..])
    ensures DecimalData(d, currencyCode, subscriptLength, valueLength).Returned?
    ensures DecimalData(d, currencyCode, subscriptLength, valueLength).value.zerosAfterDecimal == Some(LeadingZeros(d.frac))
    ensures var kept := AfterZerosDigits(d.frac[LeadingZeros(d.frac)..], valueLength);
      DecimalData(d, currencyCode, subscriptLength, valueLength).value.afterZerosValue == Some(DecimalValue(kept)) &&
      DecimalValue(kept) < Pow10(valueLength)
  {
    ZerosThenDigits(d.frac);
    var n := LeadingZeros(d.frac);
    var rest := d.frac[n..];
    KeptDigitsValue(rest, valueLength);
    SmallDecimalData(d, currencyCode, subscriptLength, valueLength);
  }

  /** The digits kept after the zeros, and their value when there are at most 18 of them. */
  lemma KeptDigitsValue(rest: string, valueLength: nat)
    requires AllDigits(rest) && rest != "" && 1 <= valueLength <= 18
    ensures var kept := rest[..if |rest| > valueLength then valueLength else |rest|];
      AfterZerosDigits(rest, valueLength) == kept && AllDigits(kept) &&
      0 <= DecimalValue(kept) < Pow10(valueLength) && WrapInt64(DecimalValue(kept)) == DecimalValue(kept)
  {
    var kept := rest[..if |rest| > valueLength then valueLength else |rest|];
    DecimalValueBound(kept);
    Pow10Monotone(|kept|, valueLength);
    Pow10Monotone(valueLength, 18);
    Pow10Of18();
  }

  /**
   * Formatting panics exactly when the float cannot be converted, or when a small decimal with
   * zeros after the point meets a negative `valueLength`; so the defaults never panic on a
   * finite price.
   */
  lemma PanicCases(price: PriceInput, lib: DecimalLib, currencyCode: string, subscriptLength: int, valueLength: int)
    ensures FormatWithOptionsSpec(price, lib, currencyCode, subscriptLength, valueLength).Panicked? <==>
      GetDecimalValue(price, lib).Panicked? ||
      (GetDecimalValue(price, lib).Returned? && valueLength < 0 &&
       var d := GetDecimalValue(price, lib).value;
       d.whole == "0" && d.frac != "" && d.frac[0] == '0')
    ensures FormatWithCurrency(price, lib, currencyCode).Panicked? <==> price.FloatPrice? && !price.f.Finite?
  {
  }

  /** `Format` is `FormatWithOptions` with USD and the lengths 5 and 4. */
  lemma FormatDefaults(price: PriceInput, lib: DecimalLib)
    ensures Format(price, lib) == FormatWithOptionsSpec(price, lib, "USD", 5, 4)
    ensures Format(price, lib).Returned? ==>
      Format(price, lib).value.currencyCode == "USD" && Format(price, lib).value.currencyString == "US$"
  {
  }

  // ---------------------------------------------------------------------------------------
  // Examples
  // ---------------------------------------------------------------------------------------

  /** The data of a small decimal, once its zero count and the value after the zeros are known. */
  lemma SmallDecimalResult(d: CanonicalDecimal, currencyCode: string, subscriptLength: int, valueLength: nat,
                           count: nat, value: Int64)
    requires !d.IsZero() && !d.AbsAtLeastOne() && count > 0 && LeadingZeros(d.frac) == count
    requires AllDigits(d.frac[count..]) && WrapInt64(DecimalValue(AfterZerosDigits(d.frac[count..], valueLength))) == value
    ensures DecimalData(d, currencyCode, subscriptLength, valueLength) ==
      Returned(PriceFormatted(count >= subscriptLength, d.String(), currencyCode, GetCurrencySymbol(currencyCode),
                              d.negative, Some(count), Some(value)))
  {
    SmallDecimalData(d, currencyCode, subscriptLength, valueLength);
  }

  /** 0.00000456: five zeros, 456 after them, subscript display. */
  lemma SmallDecimalExample()
    ensures DecimalData(Decimal(false, "0", "00000456"), "USD", 5, 4) ==
      Returned(PriceFormatted(true, "0.00000456", "USD", "US$", false, Some(5), Some(456)))
  {
    var frac := "00000456";
    SmallDigits();
    var dec := Decimal(false, "0", frac);
    assert dec.Valid() by {
      assert CanonicalNatural("0");
    }
    var d: CanonicalDecimal := dec;
    assert d.String() == "0.00000456";
    assert GetCurrencySymbol("USD") == "US$";
    SmallDecimalResult(d, "USD", 5, 4, 5, 456);
  }

  /** The digits of 0.00000456: five zeros, then 456. */
  lemma SmallDigits()
    ensures LeadingZeros("00000456") == 5
    ensures AllDigits("00000456"[5..])
    ensures AfterZerosDigits("00000456"[5..], 4) == "456"
    ensures DecimalValue("456") == 456
    ensures AllDigits("00000456") && "00000456"[7] == '6'
  {
    var frac := "00000456";
    assert frac[5] != '0';
    assert frac[5..] == "456";
    assert "456"[..2] == "45";
    assert "45"[..1] == "4";
  }

  /** -0.0001 in euros: three zeros, 1 after them, negative, no subscript. */
  lemma NegativeEuroExample()
    ensures DecimalData(Decimal(true, "0", "0001"), "EUR", 5, 4) ==
      Returned(PriceFormatted(false, "-0.0001", "EUR", "€", true, Some(3), Some(1)))
  {
    var frac := "0001";
    assert LeadingZeros(frac) == 3 by {
      assert frac[3] != '0';
    }
    assert frac[3..] == "1";
    assert DecimalValue("1") == 1 by {
      assert "1"[..0] == "";
    }
    var d: CanonicalDecimal := Decimal(true, "0", frac);
    assert d.String() == "-0.0001";
    SmallDecimalResult(d, "EUR", 5, 4, 3, 1);
  }

  /** 0.000001234 with a value length of 2: the digits after the zeros are cut to 12. */
  lemma TruncatedValueExample()
    ensures DecimalData(Decimal(false, "0", "000001234"), "USD", 5, 2) ==
      Returned(PriceFormatted(true, "0.000001234", "USD", "US$", false, Some(5), Some(12)))
  {
    var frac := "000001234";
    TruncatedDigits();
    var dec := Decimal(false, "0", frac);
    assert dec.Valid() by {
      assert CanonicalNatural("0");
    }
    var d: CanonicalDecimal := dec;
    assert d.String() == "0.000001234";
    assert GetCurrencySymbol("USD") == "US$";
    SmallDecimalResult(d, "USD", 5, 2, 5, 12);
  }

  /** The digits of 0.000001234: five zeros, then 1234, cut to 12. */
  lemma TruncatedDigits()
    ensures LeadingZeros("000001234") == 5
    ensures AllDigits("000001234"[5..])
    ensures AfterZerosDigits("000001234"[5..], 2) == "12"
    ensures DecimalValue("12") == 12
    ensures AllDigits("000001234") && "000001234"[8] == '4'
  {
    var frac := "000001234";
    assert frac[5] != '0';
    assert frac[5..] == "1234";
    assert "1234"[..2] == "12";
    assert "12"[..1] == "1";
  }

  /** The integer 123: its text and no zero data. */
  lemma IntegerExample(lib: DecimalLib)
    ensures Format(IntPrice(123), lib).Returned?
    ensures Format(IntPrice(123), lib).value ==
      PriceFormatted(false, IntToDecimal(123), "USD", "US$", false, None, None)
  {
  }

  /** A price of a defined type is refused, and `TryFormat` turns that into nil. */
  lemma NamedTypeExample(lib: DecimalLib)
    ensures Format(NamedPrice("main.Price"), lib) ==
      Raised(Wrap("error converting price to decimal", Leaf("unsupported price type: main.Price")))
    ensures TryFormat(NamedPrice("main.Price"), lib) == Returned(None)
  {
  }
}
