/**
 * `GetDocumentMd` of package `sterrors`: the error table rendered as Markdown, one row per
 * error code in ascending order, written line by line to a writer that may fail.
 */
module ErrorDocument {
  import opened Wrappers
  import opened Text
  import opened StErrors

  /**
   * An `io.Writer` that takes the first `accepts` writes and fails every later one with
   * `failure`; `text` is what it has received.
   */
  class TextWriter {
    var text: string
    var writes: nat
    const accepts: nat
    const failure: Error

    constructor (accepts: nat, failure: Error)
      ensures text == "" && writes == 0 && this.accepts == accepts && this.failure == failure
    {
      this.text := "";
      this.writes := 0;
      this.accepts := accepts;
      this.failure := failure;
    }

    /** `fmt.Fprintf(w, ...)` of the already formatted `s`. */
    method Write(s: string) returns (err: Option<Error>)
      modifies this
      ensures old(writes) < accepts ==> text == old(text) + s && writes == old(writes) + 1 && err == None
      ensures old(writes) >= accepts ==> text == old(text) && writes == old(writes) && err == Some(failure)
    {
      if writes < accepts {
        text := text + s;
        writes := writes + 1;
        err := None;
      } else {
        err := Some(failure);
      }
    }
  }

  const Title := "# Application Errors Summary\n\n"
  const TableHeader := "|Error Code|Type|Message|HTTP Code|\n"
  const AlignmentRow := "|:----------|:----------|:----------|:----------|\n"

  function Summary(appname: string): string
  {
    "The following table summarize all the errors that can be expect from " + appname + ".\n\n"
  }

  /** The four lines before the table rows. */
  function HeaderLines(appname: string): seq<string>
  {
    [Title, Summary(appname), TableHeader, AlignmentRow]
  }

  /** `"|%d|%s|%s|%d|\n"` of one entry. */
  function RowLine(code: int, info: ErrorData): string
  {
    "|" + IntToDecimal(code) + RowFields(info)
  }

  /** The columns of a row after the code: `"|%s|%s|%d|\n"`. */
  function RowFields(info: ErrorData): (t: string)
    ensures t != [] && t[0] == '|'
  {
    "|" + info.typ + "|" + info.message + "|" + IntToDecimal(info.httpCode) + "|\n"
  }

  /** The rows of the given codes, in the given order. */
  function RowLines(config: ErrorConfig, codes: seq<int>): (rows: seq<string>)
    requires forall c :: c in codes ==> c in config
    ensures |rows| == |codes|
    ensures forall i :: 0 <= i < |codes| ==> rows[i] == RowLine(codes[i], config[codes[i]])
  {
    if codes == [] then [] else [RowLine(codes[0], config[codes[0]])] + RowLines(config, codes[1..])
  }

  predicate StrictlyIncreasing(s: seq<int>)
  {
    forall i, j :: 0 <= i < j < |s| ==> s[i] < s[j]
  }

  predicate Sorted(s: seq<int>)
  {
    forall i, j :: 0 <= i < j < |s| ==> s[i] <= s[j]
  }

  /** The least element of a non-empty set of codes. */
  ghost function MinOf(s: set<int>): (m: int)
    requires s != {}
    ensures m in s && forall x :: x in s ==> m <= x
    decreases s
  {
    var x := AnyElement(s);
    if s == {x} then x
    else
      var y := MinOf(s - {x});
      assert forall z :: z in s ==> z == x || z in s - {x};
      if x < y then x else y
  }

  /** The codes of a set in ascending order. */
  ghost function SortedCodes(s: set<int>): (r: seq<int>)
    ensures StrictlyIncreasing(r)
    ensures forall c :: c in r <==> c in s
    ensures |r| == |s|
    decreases s
  {
    if s == {} then []
    else
      var m := MinOf(s);
      var rest := SortedCodes(s - {m});
      assert forall c :: c in rest ==> m < c;
      [m] + rest
  }

  /** The whole document, line by line. */
  ghost function DocumentLines(config: ErrorConfig, appname: string): seq<string>
  {
    HeaderLines(appname) + RowLines(config, SortedCodes(config.Keys))
  }

  /**
   * Writing `lines` one by one from a writer state (`text`, `writes`): stop at the first write
   * the writer refuses and return its error.
   */
  function Emit(lines: seq<string>, text: string, writes: nat, accepts: nat, failure: Error): (string, nat, Option<Error>)
    decreases |lines|
  {
    if lines == [] then (text, writes, None)
    else if writes < accepts then Emit(lines[1..], text + lines[0], writes + 1, accepts, failure)
    else (text, writes, Some(failure))
  }

  /** Sort the codes in place, ascending. */
  method SortCodes(a: array<int>)
    modifies a
    ensures Sorted(a[..])
    ensures multiset(a[..]) == multiset(old(a[..]))
  {
    var i := 1;
    while i < a.Length
      invariant a.Length == 0 || 1 <= i <= a.Length
      invariant forall p, q :: 0 <= p < q < i && q < a.Length ==> a[p] <= a[q]
      invariant multiset(a[..]) == multiset(old(a[..]))
    {
      var j := i;
      while j > 0 && a[j - 1] > a[j]
        invariant 0 <= j <= i
        invariant forall p, q :: 0 <= p < q <= i && q != j ==> a[p] <= a[q]
        invariant multiset(a[..]) == multiset(old(a[..]))
      {
        SwapDown(a, j);
        j := j - 1;
      }
      i := i + 1;
    }
  }

  /** Exchange `a[j - 1]` and `a[j]`. */
  method SwapDown(a: array<int>, j: int)
    requires 0 < j < a.Length
    modifies a
    ensures a[j - 1] == old(a[j]) && a[j] == old(a[j - 1])
    ensures forall k :: 0 <= k < a.Length && k != j - 1 && k != j ==> a[k] == old(a[k])
    ensures multiset(a[..]) == multiset(old(a[..]))
  {
    a[j - 1], a[j] := a[j], a[j - 1];
  }

  /** The keys of `config`, in the order the map is iterated (any order). */
  method CollectCodes(config: ErrorConfig) returns (codes: seq<int>)
    ensures multiset(codes) == multiset(config.Keys)
  {
    codes := [];
    var remaining := config.Keys;
    while remaining != {}
      invariant remaining <= config.Keys
      invariant multiset(codes) + multiset(remaining) == multiset(config.Keys)
      decreases remaining
    {
      // Solver hint: a witness that the set is not empty, so the `:|` below can pick an element.
      ghost var chosen := AnyElement(remaining);
      var code :| code in remaining;
      codes := codes + [code];
      remaining := remaining - {code};
    }
  }

  /** Two equal elements of a sequence count twice in its multiset. */
  lemma RepeatCountsTwice(s: seq<int>, i: int, j: int)
    requires 0 <= i < j < |s| && s[i] == s[j]
    ensures multiset(s)[s[i]] >= 2
  {
    assert s == s[..i] + [s[i]] + s[i + 1..j] + [s[j]] + s[j + 1..];
  }

  /** A sorted arrangement of the keys of a map is strictly ascending and is the sorted key list. */
  lemma SortedKeysAreSortedCodes(s: seq<int>, keys: set<int>)
    requires Sorted(s) && multiset(s) == multiset(keys)
    ensures s == SortedCodes(keys)
  {
    forall i, j | 0 <= i < j < |s|
      ensures s[i] < s[j]
    {
      if s[i] == s[j] {
        RepeatCountsTwice(s, i, j);
      }
    }
    assert forall c :: c in s <==> c in keys by {
      forall c
        ensures c in s <==> c in keys
      {
        assert c in s <==> c in multiset(s);
      }
    }
    AscendingIsUnique(s, SortedCodes(keys));
  }

  /** Two strictly ascending sequences with the same elements are equal. */
  lemma {:induction false} AscendingIsUnique(s: seq<int>, t: seq<int>)
    requires StrictlyIncreasing(s) && StrictlyIncreasing(t)
    requires forall c :: c in s <==> c in t
    ensures s == t
    decreases |s|
  {
    if s != [] {
      assert s[0] in s;
      assert t != [];
    }
    if t != [] {
      assert t[0] in t;
      assert s != [];
    }
    if s != [] {
      assert s[0] == t[0] by {
        assert s[0] in s && t[0] in t;
      }
      assert forall c :: c in s[1..] <==> c in t[1..] by {
        forall c
          ensures c in s[1..] <==> c in t[1..]
        {
          if c in s[1..] {
            assert c in t && c != t[0];
          }
          if c in t[1..] {
            assert c in s && c != s[0];
          }
        }
      }
      AscendingIsUnique(s[1..], t[1..]);
      assert s == [s[0]] + s[1..] && t == [t[0]] + t[1..];
    }
  }

  /** Writing `a` then `b` is writing `a`, then, unless that failed, writing `b` from there. */
  lemma {:induction false} EmitAppend(a: seq<string>, b: seq<string>, text: string, writes: nat, accepts: nat, failure: Error)
    ensures var first := Emit(a, text, writes, accepts, failure);
      Emit(a + b, text, writes, accepts, failure) ==
        if first.2.Some? then first else Emit(b, first.0, first.1, accepts, failure)
    decreases |a|
  {
    if a == [] {
      assert a + b == b;
    } else if writes < accepts {
      assert (a + b)[1..] == a[1..] + b;
      EmitAppend(a[1..], b, text + a[0], writes + 1, accepts, failure);
    }
  }

  /** Write the four header lines; stop at the first failed write. */
  method WriteHeader(w: TextWriter, appname: string) returns (err: Option<Error>)
    modifies w
    ensures (w.text, w.writes, err) == Emit(HeaderLines(appname), old(w.text), old(w.writes), w.accepts, w.failure)
  {
    ghost var target := Emit(HeaderLines(appname), w.text, w.writes, w.accepts, w.failure);
    ghost var lines := HeaderLines(appname);
    err := w.Write(Title);
    if err.Some? {
      return;
    }
    assert Emit(lines[1..], w.text, w.writes, w.accepts, w.failure) == target;
    err := w.Write(Summary(appname));
    if err.Some? {
      return;
    }
    assert Emit(lines[2..], w.text, w.writes, w.accepts, w.failure) == target;
    err := w.Write(TableHeader);
    if err.Some? {
      return;
    }
    assert Emit(lines[3..], w.text, w.writes, w.accepts, w.failure) == target;
    err := w.Write(AlignmentRow);
    assert Emit(lines[4..], w.text, w.writes, w.accepts, w.failure) == target || err.Some?;
  }

  /** Write one row per code, in order; stop at the first failed write. */
  method WriteRows(w: TextWriter, config: ErrorConfig, codes: seq<int>) returns (err: Option<Error>)
    requires forall c :: c in codes ==> c in config
    modifies w
    ensures (w.text, w.writes, err) == Emit(RowLines(config, codes), old(w.text), old(w.writes), w.accepts, w.failure)
  {
    ghost var lines := RowLines(config, codes);
    ghost var target := Emit(lines, w.text, w.writes, w.accepts, w.failure);
    var i := 0;
    while i < |codes|
      invariant 0 <= i <= |codes|
      invariant Emit(lines[i..], w.text, w.writes, w.accepts, w.failure) == target
    {
      var code := codes[i];
      var info := config[code];
      assert lines[i] == RowLine(code, info);
      assert lines[i..][1..] == lines[i + 1..];
      err := w.Write(RowLine(code, info));
      if err.Some? {
        return;
      }
      i := i + 1;
    }
    assert lines[i..] == [];
    err := None;
  }

  /** The table's codes gathered from the map into a fresh array and sorted ascending. */
  method SortedKeys(config: ErrorConfig) returns (a: array<int>)
    ensures fresh(a)
    ensures a[..] == SortedCodes(config.Keys)
  {
    var codes := CollectCodes(config);
    a := new int[|codes|](i requires 0 <= i < |codes| => codes[i]);
    assert a[..] == codes;
    SortCodes(a);
    SortedKeysAreSortedCodes(a[..], config.Keys);
  }

  /** Writing the document is writing the header, then, unless that failed, the rows. */
  lemma DocumentEmit(config: ErrorConfig, appname: string, text: string, writes: nat, accepts: nat, failure: Error)
    ensures var first := Emit(HeaderLines(appname), text, writes, accepts, failure);
      Emit(DocumentLines(config, appname), text, writes, accepts, failure) ==
        if first.2.Some? then first
        else Emit(RowLines(config, SortedCodes(config.Keys)), first.0, first.1, accepts, failure)
  {
    EmitAppend(HeaderLines(appname), RowLines(config, SortedCodes(config.Keys)), text, writes, accepts, failure);
  }

  /** The table rows, codes ascending; stop at the first failed write. */
  method WriteTable(w: TextWriter, config: ErrorConfig) returns (err: Option<Error>)
    modifies w
    ensures (w.text, w.writes, err) == Emit(RowLines(config, SortedCodes(config.Keys)), old(w.text), old(w.writes), w.accepts, w.failure)
  {
    var codes := SortedKeys(config);
    err := WriteRows(w, config, codes[..]);
  }

  /** `GetDocumentMd(w, config, appname)`. */
  method GetDocumentMd(w: TextWriter, config: ErrorConfig, appname: string) returns (err: Option<Error>)
    modifies w
    ensures (w.text, w.writes, err) == Emit(DocumentLines(config, appname), old(w.text), old(w.writes), w.accepts, w.failure)
  {
    DocumentEmit(config, appname, w.text, w.writes, w.accepts, w.failure);
    err := WriteHeader(w, appname);
    if err.Some? {
      return;
    }
    err := WriteTable(w, config);
  }

  // ---------------------------------------------------------------------------------------
  // Properties
  // ---------------------------------------------------------------------------------------

  /**
   * A writer with room for `k` more writes receives exactly the first `k` lines (all of them if
   * they fit); the write is reported failed iff some line did not fit.
   */
  lemma {:induction false} EmitWritesPrefix(lines: seq<string>, text: string, writes: nat, accepts: nat, failure: Error)
    ensures var k := if writes >= accepts then 0 else if accepts - writes >= |lines| then |lines| else accepts - writes;
      Emit(lines, text, writes, accepts, failure) ==
        (text + Concat(lines[..k]), writes + k, if k == |lines| then None else Some(failure))
    decreases |lines|
  {
    if lines == [] {
      assert text + Concat([]) == text;
    } else if writes < accepts {
      EmitWritesPrefix(lines[1..], text + lines[0], writes + 1, accepts, failure);
      var k := if accepts - writes >= |lines| then |lines| else accepts - writes;
      assert lines[..k] == [lines[0]] + lines[1..][..k - 1];
      assert Concat(lines[..k]) == lines[0] + Concat(lines[1..][..k - 1]);
      assert text + Concat(lines[..k]) == text + lines[0] + Concat(lines[1..][..k - 1]);
    } else {
      assert lines[..0] == [];
      assert text + Concat(lines[..0]) == text;
    }
  }

  /**
   * The document is the four header lines followed by one row per entry of the table, taken in
   * strictly ascending order of code, and every code of the table has its row.
   */
  lemma DocumentLayout(config: ErrorConfig, appname: string)
    ensures var lines := DocumentLines(config, appname);
      |lines| == 4 + |config| &&
      lines[..4] == [Title, Summary(appname), TableHeader, AlignmentRow] &&
      exists codes: seq<int> ::
        StrictlyIncreasing(codes) && (forall c :: c in codes <==> c in config) &&
        lines[4..] == RowLines(config, codes)
  {
    var codes := SortedCodes(config.Keys);
    var lines := DocumentLines(config, appname);
    assert lines[4..] == RowLines(config, codes);
  }

  /** Two rows with the same text are rows of the same code. */
  lemma RowLineInjective(c1: int, info1: ErrorData, c2: int, info2: ErrorData)
    requires RowLine(c1, info1) == RowLine(c2, info2)
    ensures c1 == c2
  {
    var d1, d2 := IntToDecimal(c1), IntToDecimal(c2);
    NoBarInDecimal(c1);
    NoBarInDecimal(c2);
    var r1, r2 := RowFields(info1), RowFields(info2);
    var t := RowLine(c1, info1)[1..];
    assert t == d1 + r1;
    assert t == d2 + r2;
    FirstIndexOfJoin(d1, r1, '|');
    FirstIndexOfJoin(d2, r2, '|');
    IntToDecimalInjective(c1, c2);
  }

  /** `%d` never prints the column separator. */
  lemma NoBarInDecimal(i: int)
    ensures '|' !in IntToDecimal(i)
  {
    NatToDecimalCanonical(if i < 0 then -i else i);
    if i < 0 {
      assert IntToDecimal(i) == "-" + NatToDecimal(-i);
    }
  }

  /** Distinct codes give distinct rows, so no row of the document repeats. */
  lemma RowsAreDistinct(config: ErrorConfig)
    ensures NoDuplicates(RowLines(config, SortedCodes(config.Keys)))
  {
    var codes := SortedCodes(config.Keys);
    var rows := RowLines(config, codes);
    forall i, j | 0 <= i < j < |rows|
      ensures rows[i] != rows[j]
    {
      if rows[i] == rows[j] {
        RowLineInjective(codes[i], config[codes[i]], codes[j], config[codes[j]]);
      }
    }
  }

  /**
   * A writer that takes every write receives all the lines and no error; one that refuses one
   * of them receives the lines only up to that write, and its error is returned.
   */
  lemma EmitAllOrPrefix(lines: seq<string>, text: string, writes: nat, accepts: nat, failure: Error)
    ensures var r := Emit(lines, text, writes, accepts, failure);
      (writes + |lines| <= accepts ==> r == (text + Concat(lines), writes + |lines|, None)) &&
      (writes + |lines| > accepts && lines != [] ==>
         r.2 == Some(failure) && exists k :: 0 <= k < |lines| && r.0 == text + Concat(lines[..k]))
  {
    EmitWritesPrefix(lines, text, writes, accepts, failure);
    assert lines[..|lines|] == lines;
    if writes + |lines| > accepts && lines != [] {
      var k := if writes >= accepts then 0 else accepts - writes;
      assert 0 <= k < |lines| && Emit(lines, text, writes, accepts, failure).0 == text + Concat(lines[..k]);
    }
  }
}
