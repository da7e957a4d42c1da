/**
 * Package `sterrors`: application errors built from a table of known error codes, each with a
 * type, a message and an HTTP status, falling back to a default message and status.
 */
module StErrors {
  import opened Wrappers
  import opened Text

  /** `ErrorData`: one entry of the table. */
  datatype ErrorData = ErrorData(typ: string, message: string, httpCode: int)

  /** `ErrorConfig`: the table, keyed by error code. */
  type ErrorConfig = map<int, ErrorData>

  /** `sterrors.Error`: the wrapped error (nil or not), the code, the message and the status. */
  datatype StError = StError(err: Option<Error>, code: int, message: string, httpCode: int)

  /** `ErrorFactory`. */
  datatype ErrorFactory = ErrorFactory(config: ErrorConfig, defaultMessage: string, defaultHttpCode: int)

  /** `NewFactory`: stores the table and both defaults unchanged. */
  function NewFactory(config: ErrorConfig, defMsg: string, defHttpCode: int): (f: ErrorFactory)
    ensures f.config == config && f.defaultMessage == defMsg && f.defaultHttpCode == defHttpCode
  {
    ErrorFactory(config, defMsg, defHttpCode)
  }

  /** `getMessage`: the entry's message, or the default for an unknown code. */
  function GetMessage(f: ErrorFactory, code: int): (m: string)
    ensures code in f.config ==> m == f.config[code].message
    ensures code !in f.config ==> m == f.defaultMessage
  {
    if code in f.config then f.config[code].message else f.defaultMessage
  }

  /** `getHttpCode`: the entry's status, or the default for an unknown code. */
  function GetHttpCode(f: ErrorFactory, code: int): (h: int)
    ensures code in f.config ==> h == f.config[code].httpCode
    ensures code !in f.config ==> h == f.defaultHttpCode
  {
    if code in f.config then f.config[code].httpCode else f.defaultHttpCode
  }

  /** `NewError`: the code and the wrapped error are kept; message and status come from the table. */
  function NewError(f: ErrorFactory, code: int, err: Option<Error>): (e: StError)
    ensures e.code == code && e.err == err
    ensures e.message == GetMessage(f, code) && e.httpCode == GetHttpCode(f, code)
  {
    StError(err, code, GetMessage(f, code), GetHttpCode(f, code))
  }

  /** The three-field layout of `Error()`, used when there is no wrapped error. */
  function BaseText(httpCode: int, code: int, message: string): string
  {
    "http error: " + IntToDecimal(httpCode) + ", with internal code: " + IntToDecimal(code) +
    ", message: " + message
  }

  /** `(*Error).Error()`: the wrapped error's text is appended only when there is one. */
  function ErrorText(e: StError): (s: string)
    ensures e.err.None? ==> s == BaseText(e.httpCode, e.code, e.message)
    ensures e.err.Some? ==> s == BaseText(e.httpCode, e.code, e.message) + ", " + e.err.value.Message()
  {
    var base := BaseText(e.httpCode, e.code, e.message);
    match e.err
    case None => base
    case Some(inner) => base + ", " + inner.Message()
  }

  // ---------------------------------------------------------------------------------------
  // Properties
  // ---------------------------------------------------------------------------------------

  /** A known code takes its entry's message and status; an unknown one the factory's defaults. */
  lemma NewErrorUsesTable(config: ErrorConfig, defMsg: string, defHttpCode: int, code: int, err: Option<Error>)
    ensures var e := NewError(NewFactory(config, defMsg, defHttpCode), code, err);
      e.code == code && e.err == err &&
      (code in config ==> e.message == config[code].message && e.httpCode == config[code].httpCode) &&
      (code !in config ==> e.message == defMsg && e.httpCode == defHttpCode)
  {
  }

  /** The status before the first comma of the text is the status the factory chose. */
  lemma {:induction false} NatToDecimalHasNoComma(n: nat)
    ensures ',' !in NatToDecimal(n)
    decreases n
  {
    if n >= 10 {
      NatToDecimalHasNoComma(n / 10);
    }
  }

  /**
   * The text starts with the status, and the base text determines the status: two errors whose
   * texts agree up to the first comma carry the same status.
   */
  lemma StatusIsReadable(e1: StError, e2: StError)
    requires ErrorText(e1)[..FirstIndexOf(ErrorText(e1), ',')] == ErrorText(e2)[..FirstIndexOf(ErrorText(e2), ',')]
    ensures e1.httpCode == e2.httpCode
  {
    StatusPrefix(e1);
    StatusPrefix(e2);
    var p1 := "http error: " + IntToDecimal(e1.httpCode);
    var p2 := "http error: " + IntToDecimal(e2.httpCode);
    assert p1[12..] == IntToDecimal(e1.httpCode);
    assert p2[12..] == IntToDecimal(e2.httpCode);
    IntToDecimalInjective(e1.httpCode, e2.httpCode);
  }

  /** What precedes the first comma of an error's text is "http error: " and the status. */
  lemma StatusPrefix(e: StError)
    ensures var s := ErrorText(e);
      s[..FirstIndexOf(s, ',')] == "http error: " + IntToDecimal(e.httpCode)
  {
    var p := "http error: " + IntToDecimal(e.httpCode);
    var r := ", with internal code: " + IntToDecimal(e.code) + ", message: " + e.message +
      (if e.err.Some? then ", " + e.err.value.Message() else "");
    NatToDecimalHasNoComma(if e.httpCode < 0 then -e.httpCode else e.httpCode);
    assert ',' !in p by {
      if e.httpCode < 0 {
        assert IntToDecimal(e.httpCode) == "-" + NatToDecimal(-e.httpCode);
      }
    }
    assert ErrorText(e) == p + r;
    FirstIndexOfJoin(p, r, ',');
  }

  /** An unknown code without a wrapped error prints the defaults in the three-field layout. */
  lemma UnknownCodeText(config: ErrorConfig, defMsg: string, defHttpCode: int, code: int)
    requires code !in config
    ensures ErrorText(NewError(NewFactory(config, defMsg, defHttpCode), code, None)) ==
      BaseText(defHttpCode, code, defMsg)
  {
  }
}
