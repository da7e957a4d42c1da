/**
 * Split predicates of the `flat` package: a column-scoped, kind-checked include test, and AND/OR
 * combinations of such tests that stop at the first deciding answer.
 */
module Splits {
  import opened Wrappers
  import opened DynamicValues

  /** The user's `rawIncludeFunc func(T) bool` together with its type argument `T`. */
  datatype TypedPredicate = TypedPredicate(expected: GoType, pred: Raw -> bool)

  /** `splitOperation`. */
  datatype Operation = And | Or

  /**
   * A `splitter`: a `singleSplitter` (its header and its include function, which may be nil)
   * or a `splitWriterOperation` combining other splitters.
   */
  datatype Splitter =
    | Single(header: string, includeFunc: Option<TypedPredicate>)
    | Composite(operation: Operation, splitters: seq<Splitter>)

  /** Go's `int(f)` keeps the value exactly: an integral float inside the 64-bit range. */
  predicate NarrowsExactly(f: real)
  {
    f == f.Floor as real && -0x8000_0000_0000_0000 as real <= f < 0x8000_0000_0000_0000 as real
  }

  /** The closure built by `getSplitFunc(rawSplitFunc)`, applied to one value. */
  function SplitFunc(tp: TypedPredicate, dv: DynamicValue): Outcome<bool>
  {
    var expected := KindOfType(tp.expected);
    if expected == Int && dv.DataType() == Float && NarrowsExactly(dv.payload.f) then
      Returned(tp.pred(RInt(dv.payload.f.Floor)))
    else if dv.DataType() != expected then
      Raised(Leaf("split function type mismatch with data type"))
    else if !AssertsTo(dv.RawValue(), tp.expected) then
      Panicked
    else
      Returned(tp.pred(dv.RawValue()))
  }

  /** `NewSplitter[T](header, rawIncludeFunc)`. */
  function NewSplitter(header: string, tp: TypedPredicate): (s: Splitter)
    ensures s.Single? && s.header == header && s.includeFunc == Some(tp)
  {
    Single(header, Some(tp))
  }

  /** The splitter of `NoSplit`: an `any` predicate that always answers true, on column "". */
  function NoSplit(): (s: Splitter)
    ensures s.Single? && s.header == "" && s.includeFunc.Some? && s.includeFunc.value.expected == AnyType
    ensures forall x :: s.includeFunc.value.pred(x)
  {
    NewSplitter("", TypedPredicate(AnyType, _ => true))
  }

  /** The splitter of `Split[T](w, header, rawIncludeFunc)`. */
  function Split(header: string, tp: TypedPredicate): (s: Splitter)
    ensures s == NewSplitter(header, tp)
  {
    NewSplitter(header, tp)
  }

  /** The splitter of `SplitAnd(w, splitters...)`. */
  function SplitAnd(splitters: seq<Splitter>): (s: Splitter)
    ensures s.Composite? && s.operation == And && s.splitters == splitters
  {
    Composite(And, splitters)
  }

  /** The splitter of `SplitOr(w, splitters...)`. */
  function SplitOr(splitters: seq<Splitter>): (s: Splitter)
    ensures s.Composite? && s.operation == Or && s.splitters == splitters
  {
    Composite(Or, splitters)
  }

  /** `shouldInclude(header, dv)` for either kind of splitter. */
  function ShouldInclude(s: Splitter, header: string, dv: DynamicValue): Outcome<bool>
    decreases s, 1
  {
    match s
    case Single(h, includeFunc) =>
      if h != header then Returned(true)
      else if includeFunc.None? then Returned(true)
      else SplitFunc(includeFunc.value, dv)
    case Composite(op, subs) =>
      if |subs| == 0 then Returned(true) else Fold(s, 0, header, dv)
  }

  /** The loop of the composite `shouldInclude`, from the `i`-th sub-splitter on. */
  function Fold(s: Splitter, i: nat, header: string, dv: DynamicValue): Outcome<bool>
    requires s.Composite? && i <= |s.splitters|
    decreases s, 0, |s.splitters| - i
  {
    if i == |s.splitters| then Returned(s.operation == And)
    else
      match ShouldInclude(s.splitters[i], header, dv)
      case Panicked => Panicked
      case Raised(e) => Raised(Wrap("error checking split condition", e))
      case Returned(included) =>
        if s.operation == And && !included then Returned(false)
        else if s.operation == Or && included then Returned(true)
        else Fold(s, i + 1, header, dv)
  }

  // ---------------------------------------------------------------------------------------
  // Single splitters
  // ---------------------------------------------------------------------------------------

  /** A splitter bound to one column includes every value of every other column. */
  lemma OtherColumnIncluded(header: string, tp: TypedPredicate, other: string, dv: DynamicValue)
    requires other != header
    ensures ShouldInclude(Split(header, tp), other, dv) == Returned(true)
  {
  }

  /** A single splitter without an include function includes everything. */
  lemma MissingFunctionIncludes(header: string, column: string, dv: DynamicValue)
    ensures ShouldInclude(Single(header, None), column, dv) == Returned(true)
  {
  }

  /**
   * Numeric widening: an `int` predicate given a float with no fractional part sees the
   * narrowed int, so it answers for 30.0 exactly as it answers for 30.
   */
  lemma IntPredicateAcceptsIntegralFloat(header: string, pred: Raw -> bool, n: int)
    requires -0x8000_0000_0000_0000 <= n < 0x8000_0000_0000_0000
    ensures ShouldInclude(Split(header, TypedPredicate(IntType, pred)), header, NewDynamicValue(RFloat(n as real)))
         == Returned(pred(RInt(n)))
    ensures ShouldInclude(Split(header, TypedPredicate(IntType, pred)), header, NewDynamicValue(RFloat(n as real)))
         == ShouldInclude(Split(header, TypedPredicate(IntType, pred)), header, NewDynamicValue(RInt(n)))
  {
    var tp := TypedPredicate(IntType, pred);
    var f := NewDynamicValue(RFloat(n as real));
    var i := NewDynamicValue(RInt(n));
    assert ShouldInclude(Split(header, tp), header, f) == SplitFunc(tp, f);
    assert ShouldInclude(Split(header, tp), header, i) == SplitFunc(tp, i);
    assert SplitFunc(tp, f) == Returned(pred(RInt(n))) by {
      assert f.DataType() == Float && NarrowsExactly(f.payload.f) && f.payload.f.Floor == n;
    }
    assert SplitFunc(tp, i) == Returned(pred(RInt(n))) by {
      assert i.DataType() == Int && AssertsTo(i.RawValue(), IntType);
    }
  }

  /** A float with a fractional part, offered to an `int` predicate, is a type error. */
  lemma IntPredicateRejectsFractionalFloat(header: string, pred: Raw -> bool, f: real)
    requires f != f.Floor as real
    ensures ShouldInclude(Split(header, TypedPredicate(IntType, pred)), header, NewDynamicValue(RFloat(f)))
         == Raised(Leaf("split function type mismatch with data type"))
  {
  }

  /**
   * On its own column a predicate is wrong-kind exactly when the kinds differ and widening does
   * not apply; it is then an error (never a silent exclusion) and the predicate is not called.
   */
  lemma MismatchIsError(tp: TypedPredicate, dv: DynamicValue)
    requires dv.DataType() != KindOfType(tp.expected)
    requires !(KindOfType(tp.expected) == Int && dv.DataType() == Float && NarrowsExactly(dv.payload.f))
    ensures SplitFunc(tp, dv) == Raised(Leaf("split function type mismatch with data type"))
  {
  }

  /**
   * When the kinds match on a valid type argument, the answer is exactly the user predicate on
   * the payload, except for a reader of another concrete reader type, whose assertion panics.
   */
  lemma MatchingKindAppliesPredicate(tp: TypedPredicate, dv: DynamicValue)
    requires IsValidDataType(tp.expected) && dv.DataType() == KindOfType(tp.expected)
    ensures dv.Value?
    ensures !ReaderTypeClash(dv.payload, tp.expected) ==> SplitFunc(tp, dv) == Returned(tp.pred(dv.payload))
    ensures ReaderTypeClash(dv.payload, tp.expected) ==> SplitFunc(tp, dv) == Panicked
  {
    MatchingKindAsserts(dv.payload, tp.expected);
  }

  /**
   * The split function's outcomes: the only error is the type mismatch; it panics exactly when
   * the assertion fails after the kind check, which needs a Null kind on both sides or a reader
   * of another concrete reader type; an answer is always the predicate on some value.
   */
  lemma SplitFuncOutcomes(tp: TypedPredicate, dv: DynamicValue)
    ensures SplitFunc(tp, dv).Raised? ==>
      SplitFunc(tp, dv).error == Leaf("split function type mismatch with data type")
    ensures SplitFunc(tp, dv).Panicked? <==>
      (KindOfType(tp.expected) == Null && dv.DataType() == Null && !AssertsTo(dv.RawValue(), tp.expected)) ||
      (KindOfType(tp.expected) == StreamOfObjects && ReaderTypeClash(dv.RawValue(), tp.expected))
    ensures SplitFunc(tp, dv).Returned? ==>
      exists x :: SplitFunc(tp, dv) == Returned(tp.pred(x))
  {
    if IsValidDataType(tp.expected) && dv.DataType() == KindOfType(tp.expected) {
      MatchingKindAsserts(dv.payload, tp.expected);
    }
    if SplitFunc(tp, dv).Returned? {
      if KindOfType(tp.expected) == Int && dv.DataType() == Float && NarrowsExactly(dv.payload.f) {
        assert SplitFunc(tp, dv) == Returned(tp.pred(RInt(dv.payload.f.Floor)));
      } else {
        assert SplitFunc(tp, dv) == Returned(tp.pred(dv.RawValue()));
      }
    }
  }

  /** `NoSplit` includes every value on every non-empty column name. */
  lemma NoSplitIncludesNamedColumns(column: string, dv: DynamicValue)
    requires column != ""
    ensures ShouldInclude(NoSplit(), column, dv) == Returned(true)
  {
  }

  /**
   * On the empty column name `NoSplit`'s `any` predicate runs the kind check: a non-Null kind is
   * a mismatch, a nil payload panics in the type assertion, and any other Null-kind value (a value
   * of a type the classifier does not know) is included.
   */
  lemma NoSplitOnEmptyColumn(dv: DynamicValue)
    ensures dv.DataType() != Null ==>
      ShouldInclude(NoSplit(), "", dv) == Raised(Leaf("split function type mismatch with data type"))
    ensures dv.RawValue() == RNil ==> ShouldInclude(NoSplit(), "", dv) == Panicked
    ensures dv.RawValue().ROther? ==> ShouldInclude(NoSplit(), "", dv) == Returned(true)
  {
    var tp := NoSplit().includeFunc.value;
    assert KindOfType(tp.expected) == Null;
    assert ShouldInclude(NoSplit(), "", dv) == SplitFunc(tp, dv);
    if dv.DataType() != Null {
      MismatchIsError(tp, dv);
    } else {
      assert AssertsTo(dv.RawValue(), tp.expected) <==> dv.RawValue() != RNil;
    }
  }

  // ---------------------------------------------------------------------------------------
  // Composite splitters
  // ---------------------------------------------------------------------------------------

  /** AND or OR over no splitters includes everything. */
  lemma EmptyCompositeIncludes(op: Operation, column: string, dv: DynamicValue)
    ensures ShouldInclude(Composite(op, []), column, dv) == Returned(true)
  {
  }

  /** The answers of the sub-splitters `lo..hi`, all returned normally. */
  predicate AllReturned(subs: seq<Splitter>, lo: nat, hi: nat, header: string, dv: DynamicValue)
    requires lo <= hi <= |subs|
  {
    forall k :: lo <= k < hi ==> ShouldInclude(subs[k], header, dv).Returned?
  }

  /**
   * The fold from `i`, when every sub-splitter from `i` on returns normally: AND is true exactly
   * when every answer is true, OR is true exactly when some answer is true.
   */
  lemma {:induction false} FoldWithoutErrors(s: Splitter, i: nat, header: string, dv: DynamicValue)
    requires s.Composite? && i <= |s.splitters|
    requires AllReturned(s.splitters, i, |s.splitters|, header, dv)
    ensures Fold(s, i, header, dv).Returned?
    ensures s.operation == And ==>
      (Fold(s, i, header, dv).value <==>
       forall k :: i <= k < |s.splitters| ==> ShouldInclude(s.splitters[k], header, dv).value)
    ensures s.operation == Or ==>
      (Fold(s, i, header, dv).value <==>
       exists k :: i <= k < |s.splitters| && ShouldInclude(s.splitters[k], header, dv).value)
    decreases |s.splitters| - i
  {
    if i < |s.splitters| {
      FoldWithoutErrors(s, i + 1, header, dv);
    }
  }

  /**
   * AND over splitters that all answer: included exactly when every sub-splitter includes; OR:
   * included exactly when some sub-splitter includes, or when there are none.
   */
  lemma CompositeWithoutErrors(op: Operation, subs: seq<Splitter>, header: string, dv: DynamicValue)
    requires AllReturned(subs, 0, |subs|, header, dv)
    ensures ShouldInclude(Composite(op, subs), header, dv).Returned?
    ensures op == And ==>
      (ShouldInclude(Composite(op, subs), header, dv).value <==>
       forall k :: 0 <= k < |subs| ==> ShouldInclude(subs[k], header, dv).value)
    ensures op == Or ==>
      (ShouldInclude(Composite(op, subs), header, dv).value <==>
       |subs| == 0 || exists k :: 0 <= k < |subs| && ShouldInclude(subs[k], header, dv).value)
  {
    if |subs| > 0 {
      var s := Composite(op, subs);
      FoldWithoutErrors(s, 0, header, dv);
      assert s.splitters == subs;
    }
  }

  /**
   * Short-circuit: if sub-splitter `j` is the first that decides (false for AND, true for OR)
   * and all before it answer without deciding, the composite answers at `j` and the splitters
   * after `j` are never consulted, whatever they would do.
   */
  lemma {:induction false} ShortCircuit(s: Splitter, i: nat, j: nat, header: string, dv: DynamicValue)
    requires s.Composite? && i <= j < |s.splitters|
    requires forall k :: i <= k < j ==>
      ShouldInclude(s.splitters[k], header, dv) == Returned(s.operation == And)
    requires ShouldInclude(s.splitters[j], header, dv) == Returned(s.operation == Or)
    ensures Fold(s, i, header, dv) == Returned(s.operation == Or)
    decreases j - i
  {
    if i < j {
      ShortCircuit(s, i + 1, j, header, dv);
    }
  }

  /**
   * An error of the first failing sub-splitter aborts the composite with that error wrapped,
   * provided none before it decided.
   */
  lemma {:induction false} ErrorAborts(s: Splitter, i: nat, j: nat, header: string, dv: DynamicValue)
    requires s.Composite? && i <= j < |s.splitters|
    requires forall k :: i <= k < j ==>
      ShouldInclude(s.splitters[k], header, dv) == Returned(s.operation == And)
    requires ShouldInclude(s.splitters[j], header, dv).Raised?
    ensures Fold(s, i, header, dv) ==
      Raised(Wrap("error checking split condition", ShouldInclude(s.splitters[j], header, dv).error))
    decreases j - i
  {
    if i < j {
      var raised := Raised(Wrap("error checking split condition", ShouldInclude(s.splitters[j], header, dv).error));
      assert Fold(s, i, header, dv) == Fold(s, i + 1, header, dv) by {
        FoldPasses(s, i, header, dv);
      }
      assert Fold(s, i + 1, header, dv) == raised by {
        ErrorAborts(s, i + 1, j, header, dv);
      }
    } else {
      FoldRaises(s, i, header, dv);
    }
  }

  /** A sub-splitter that raises ends the loop with its error wrapped. */
  lemma FoldRaises(s: Splitter, i: nat, header: string, dv: DynamicValue)
    requires s.Composite? && i < |s.splitters|
    requires ShouldInclude(s.splitters[i], header, dv).Raised?
    ensures Fold(s, i, header, dv) ==
      Raised(Wrap("error checking split condition", ShouldInclude(s.splitters[i], header, dv).error))
  {
  }

  /** A sub-splitter that returns the operation's neutral answer passes the decision on. */
  lemma FoldPasses(s: Splitter, i: nat, header: string, dv: DynamicValue)
    requires s.Composite? && i < |s.splitters|
    requires ShouldInclude(s.splitters[i], header, dv) == Returned(s.operation == And)
    ensures Fold(s, i, header, dv) == Fold(s, i + 1, header, dv)
  {
  }

  /**
   * A predicate and its negation, joined by OR, include every value of the column of the right
   * kind; joined by AND, they include none: the two splits partition the rows. A reader of
   * another concrete reader type makes both combinations panic at the first splitter.
   */
  lemma PredicateAndNegationPartition(header: string, t: GoType, p: Raw -> bool, dv: DynamicValue)
    requires IsValidDataType(t) && dv.DataType() == KindOfType(t)
    ensures !ReaderTypeClash(dv.RawValue(), t) ==>
      ShouldInclude(SplitOr([Split(header, TypedPredicate(t, p)),
                             Split(header, TypedPredicate(t, x => !p(x)))]), header, dv) == Returned(true)
    ensures !ReaderTypeClash(dv.RawValue(), t) ==>
      ShouldInclude(SplitAnd([Split(header, TypedPredicate(t, p)),
                              Split(header, TypedPredicate(t, x => !p(x)))]), header, dv) == Returned(false)
    ensures ReaderTypeClash(dv.RawValue(), t) ==>
      ShouldInclude(SplitOr([Split(header, TypedPredicate(t, p)),
                             Split(header, TypedPredicate(t, x => !p(x)))]), header, dv) == Panicked &&
      ShouldInclude(SplitAnd([Split(header, TypedPredicate(t, p)),
                              Split(header, TypedPredicate(t, x => !p(x)))]), header, dv) == Panicked
  {
    var yes := Split(header, TypedPredicate(t, p));
    var no := Split(header, TypedPredicate(t, x => !p(x)));
    MatchingKindAppliesPredicate(TypedPredicate(t, p), dv);
    MatchingKindAppliesPredicate(TypedPredicate(t, x => !p(x)), dv);
    var either := SplitOr([yes, no]);
    var both := SplitAnd([yes, no]);
    if ReaderTypeClash(dv.payload, t) {
      assert ShouldInclude(yes, header, dv) == Panicked;
      assert Fold(either, 0, header, dv) == Panicked;
      assert Fold(both, 0, header, dv) == Panicked;
      return;
    }
    assert ShouldInclude(yes, header, dv) == Returned(p(dv.payload));
    assert ShouldInclude(no, header, dv) == Returned(!p(dv.payload));
    if p(dv.payload) {
      assert Fold(either, 0, header, dv) == Returned(true);
      assert Fold(both, 1, header, dv) == Returned(false);
    } else {
      assert Fold(either, 1, header, dv) == Returned(true);
      assert Fold(both, 0, header, dv) == Returned(false);
    }
  }
}
