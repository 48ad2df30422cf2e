/** Whole compilations, traced token by token: the expressions the unit tests of
    src/checker.rs (lines 347-499) compile and test, and the two traces that show how the
    cascade treats parentheses. */
module CompileFacts {
  import opened Common
  import opened Tokens
  import opened Checkers
  import opened CheckSet
  import opened CompileSpec
  import opened Strings
  import opened Numbers
  import GtCheck
  import EqCheck
  import RangeCheck
  import LengthCheck

  /** The token at position `k` moves the run of the remaining tokens one step on. */
  lemma RunAt(tokens: seq<Token>, k: nat, b: Build, b': Build, fieldType: string)
    requires k < |tokens| && Step(b, tokens[k], fieldType) == Ok(b')
    ensures Run(tokens[k..], b, fieldType) == Run(tokens[k + 1..], b', fieldType)
  {
    assert tokens[k..][0] == tokens[k];
    assert tokens[k..][1..] == tokens[k + 1..];
  }

  /** A run that succeeds on a prefix continues from where the prefix left off. */
  lemma {:induction false} RunThen(pre: seq<Token>, post: seq<Token>, b: Build, fieldType: string)
    requires Run(pre, b, fieldType).Ok?
    ensures Run(pre + post, b, fieldType) == Run(post, Run(pre, b, fieldType).value, fieldType)
    decreases |pre|
  {
    if pre == [] {
      assert pre + post == post;
    } else {
      assert (pre + post)[0] == pre[0];
      assert (pre + post)[1..] == pre[1..] + post;
      RunThen(pre[1..], post, Step(b, pre[0], fieldType).value, fieldType);
    }
  }

  /** A single root decides alone. */
  lemma SingleRoot(c: Checker, value: string, fo: FloatOracle)
    ensures TestAll([c], value, fo) == Test(c, value, fo)
  {
    assert [c][1..] == [];
  }

  /** The column types of the tests, as `contains` sees them. */
  lemma ColumnTypes()
    ensures !Contains("int", "float") && Contains("int", "int")
    ensures Contains("float", "float")
    ensures !Contains("int[]", "string") && !Contains("int[]", "localize") && Contains("int[]", "[]")
    ensures Contains("string", "string")
  {
    assert OccursAt("int", "int", 0);
    assert OccursAt("float", "float", 0);
    assert OccursAt("int[]", "[]", 3);
    assert OccursAt("string", "string", 0);
  }

  /** A known name pushes its checker and marks it pending. */
  lemma NameStep(b: Build, n: string, fieldType: string, c: Checker)
    requires FromName(n, fieldType) == Some(c)
    ensures Step(b, Name(n), fieldType) == Ok(Build(b.stack + [c], b.pending + [|b.stack|]))
  {
  }

  /** A parameter the checker at the top pending index accepts replaces that checker. */
  lemma ParamStep(b: Build, text: string, fieldType: string, c: Checker)
    requires b.pending != [] && Last(b.pending) < |b.stack| && AddParam(b.stack[Last(b.pending)], text) == Ok(c)
    ensures Step(b, Numeral(text), fieldType) == Ok(Build(b.stack[Last(b.pending) := c], b.pending))
  {
  }

  /** `)` after a ready last checker whose index is the only one pending. */
  lemma CloseLastStep(stack: seq<Checker>, fieldType: string)
    requires stack != [] && !ExpectMore(Last(stack))
    ensures Step(Build(stack, [|stack| - 1]), Punct(CloseParen), fieldType) == Ok(Build(stack, []))
  {
    assert DropLast([|stack| - 1]) == [];
  }

  // ---------------------------------------------------------------------------------------
  // Parentheses and the cascade.

  /** `)` after a ready checker sitting above a parent that takes it as its last child: the
      cascade hands the child to the parent, which is then complete and leaves the pending
      list. */
  lemma CloseIntoParent(parent: Checker, child: Checker, whole: Checker, fieldType: string)
    requires !ExpectMore(child) && Add(parent, child) == Some(whole) && !ExpectMore(whole)
    ensures Step(Build([parent, child], [0, 1]), Punct(CloseParen), fieldType) == Ok(Build([whole], []))
  {
    var b := Build([parent, child], [0]);
    assert Last(b.pending) == 0 && DropLast(b.stack) == [parent] && Last(b.stack) == child;
    assert [parent][0 := whole] == [whole];
    assert DropLast([0]) == [];
    assert Cascade(b) == Ok(Build([whole], []));
    assert Last([0, 1]) == 1 && DropLast([0, 1]) == [0];
  }

  /** `)` with nothing pending stops the run. */
  lemma CloseWithNothingPending(tokens: seq<Token>, k: nat, b: Build, fieldType: string)
    requires k < |tokens| && tokens[k] == Punct(CloseParen) && b.pending == []
    ensures Run(tokens[k..], b, fieldType) == Refused
  {
    assert tokens[k..][0] == Punct(CloseParen);
  }

  /** The `gt` checker of a column, and the same checker once its bound is `1`. */
  lemma GtOne(fieldType: string)
    ensures FromName("gt", fieldType) == Some(Cmp(GtCheck.Generic(Gt, fieldType, "")))
    ensures AddParam(Cmp(GtCheck.Generic(Gt, fieldType, "")), "1") == Ok(Cmp(GtCheck.Generic(Gt, fieldType, "1")))
    ensures !ExpectMore(Cmp(GtCheck.Generic(Gt, fieldType, "1")))
  {
  }

  /** `n(p` above a single pending parent: the checker is pushed above it and takes its
      parameter. */
  lemma CallAbove(tokens: seq<Token>, k: nat, parent: Checker, n: string, p: string, fieldType: string,
                  c: Checker, c1: Checker)
    requires k + 3 <= |tokens| && tokens[k] == Name(n) && tokens[k + 1] == Punct(OpenParen) && tokens[k + 2] == Numeral(p)
    requires FromName(n, fieldType) == Some(c) && AddParam(c, p) == Ok(c1)
    ensures Run(tokens[k..], Build([parent], [0]), fieldType) == Run(tokens[k + 3..], Build([parent, c1], [0, 1]), fieldType)
  {
    NameStep(Build([parent], [0]), n, fieldType, c);
    assert [parent] + [c] == [parent, c] && [0] + [1] == [0, 1];
    RunAt(tokens, k, Build([parent], [0]), Build([parent, c], [0, 1]), fieldType);
    OpenAndCommaRule(Build([parent, c], [0, 1]), OpenParen, fieldType);
    RunAt(tokens, k + 1, Build([parent, c], [0, 1]), Build([parent, c], [0, 1]), fieldType);
    assert Last([0, 1]) == 1;
    ParamStep(Build([parent, c], [0, 1]), p, fieldType, c1);
    assert [parent, c][1 := c1] == [parent, c1];
    RunAt(tokens, k + 2, Build([parent, c], [0, 1]), Build([parent, c1], [0, 1]), fieldType);
  }

  /** `not gt(1)` compiles: the `)` attaches `gt` to the `not` and the cascade pops the
      `not`'s pending index. */
  lemma NotWithoutParensCompiles(fieldType: string)
    ensures Compile([Keyword(Keyword.Not), Name("gt"), Punct(OpenParen), Numeral("1"), Punct(CloseParen)], fieldType)
            == Ok([Checker.Not(Some(Cmp(GtCheck.Generic(Gt, fieldType, "1"))))])
  {
    var gt1 := Cmp(GtCheck.Generic(Gt, fieldType, "1"));
    var tokens := [Keyword(Keyword.Not), Name("gt"), Punct(OpenParen), Numeral("1"), Punct(CloseParen)];
    assert [] + [Checker.Not(None)] == [Checker.Not(None)] && [] + [0] == [0];
    RunAt(tokens, 0, Build([], []), Build([Checker.Not(None)], [0]), fieldType);
    GtOne(fieldType);
    CallAbove(tokens, 1, Checker.Not(None), "gt", "1", fieldType, Cmp(GtCheck.Generic(Gt, fieldType, "")), gt1);
    CloseIntoParent(Checker.Not(None), gt1, Checker.Not(Some(gt1)), fieldType);
    RunAt(tokens, 4, Build([Checker.Not(None), gt1], [0, 1]), Build([Checker.Not(Some(gt1))], []), fieldType);
    assert tokens[0..] == tokens && tokens[5..] == [];
    assert AllReady([Checker.Not(Some(gt1))]);
  }

  /** `not(gt(1))` is rejected: the inner `)` already completes the `not` and empties the
      pending list, so the outer `)` finds nothing pending. */
  lemma NotWithParensRejected(fieldType: string)
    ensures Compile([Keyword(Keyword.Not), Punct(OpenParen), Name("gt"), Punct(OpenParen), Numeral("1"),
                     Punct(CloseParen), Punct(CloseParen)], fieldType) == Refused
  {
    var gt1 := Cmp(GtCheck.Generic(Gt, fieldType, "1"));
    var tokens := [Keyword(Keyword.Not), Punct(OpenParen), Name("gt"), Punct(OpenParen), Numeral("1"),
                   Punct(CloseParen), Punct(CloseParen)];
    assert [] + [Checker.Not(None)] == [Checker.Not(None)] && [] + [0] == [0];
    RunAt(tokens, 0, Build([], []), Build([Checker.Not(None)], [0]), fieldType);
    OpenAndCommaRule(Build([Checker.Not(None)], [0]), OpenParen, fieldType);
    RunAt(tokens, 1, Build([Checker.Not(None)], [0]), Build([Checker.Not(None)], [0]), fieldType);
    GtOne(fieldType);
    CallAbove(tokens, 2, Checker.Not(None), "gt", "1", fieldType, Cmp(GtCheck.Generic(Gt, fieldType, "")), gt1);
    CloseIntoParent(Checker.Not(None), gt1, Checker.Not(Some(gt1)), fieldType);
    RunAt(tokens, 5, Build([Checker.Not(None), gt1], [0, 1]), Build([Checker.Not(Some(gt1))], []), fieldType);
    CloseWithNothingPending(tokens, 6, Build([Checker.Not(Some(gt1))], []), fieldType);
    assert tokens[0..] == tokens;
  }

  /** Compilation does not require the pending list to end empty: the unclosed `gt(1`
      compiles to the same check as `gt(1)`. */
  lemma UnclosedCallCompiles(fieldType: string)
    ensures Compile([Name("gt"), Punct(OpenParen), Numeral("1")], fieldType)
            == Ok([Cmp(GtCheck.Generic(Gt, fieldType, "1"))])
  {
    var gt1 := Cmp(GtCheck.Generic(Gt, fieldType, "1"));
    var tokens := [Name("gt"), Punct(OpenParen), Numeral("1")];
    GtOne(fieldType);
    CallOpening(tokens, "gt", "1", fieldType, Cmp(GtCheck.Generic(Gt, fieldType, "")), gt1);
    assert tokens[3..] == [];
    assert AllReady([gt1]);
  }

  // ---------------------------------------------------------------------------------------
  // The unit tests of src/checker.rs, each stated for every value instead of a handful.

  /** `n(p` at the start of the input: the checker is pushed and takes its first parameter. */
  lemma CallOpening(tokens: seq<Token>, n: string, p: string, fieldType: string, c: Checker, c1: Checker)
    requires |tokens| >= 3 && tokens[0] == Name(n) && tokens[1] == Punct(OpenParen) && tokens[2] == Numeral(p)
    requires FromName(n, fieldType) == Some(c) && AddParam(c, p) == Ok(c1)
    ensures Run(tokens, Build([], []), fieldType) == Run(tokens[3..], Build([c1], [0]), fieldType)
  {
    NameStep(Build([], []), n, fieldType, c);
    assert [] + [c] == [c] && [] + [0] == [0];
    RunAt(tokens, 0, Build([], []), Build([c], [0]), fieldType);
    OpenAndCommaRule(Build([c], [0]), OpenParen, fieldType);
    RunAt(tokens, 1, Build([c], [0]), Build([c], [0]), fieldType);
    ParamStep(Build([c], [0]), p, fieldType, c1);
    assert [c][0 := c1] == [c1];
    RunAt(tokens, 2, Build([c], [0]), Build([c1], [0]), fieldType);
    assert tokens[0..] == tokens;
  }

  /** A call with one parameter, `n(p)`, as the only expression. */
  lemma OneParamCall(n: string, p: string, fieldType: string, c: Checker, c1: Checker)
    requires FromName(n, fieldType) == Some(c) && AddParam(c, p) == Ok(c1) && !ExpectMore(c1)
    ensures Run([Name(n), Punct(OpenParen), Numeral(p), Punct(CloseParen)], Build([], []), fieldType)
            == Ok(Build([c1], []))
    ensures Compile([Name(n), Punct(OpenParen), Numeral(p), Punct(CloseParen)], fieldType) == Ok([c1])
  {
    var tokens := [Name(n), Punct(OpenParen), Numeral(p), Punct(CloseParen)];
    CallOpening(tokens, n, p, fieldType, c, c1);
    CloseLastStep([c1], fieldType);
    RunAt(tokens, 3, Build([c1], [0]), Build([c1], []), fieldType);
    assert tokens[4..] == [];
    assert AllReady([c1]);
  }

  /** `, q)` closing a call whose checker took its first parameter. */
  lemma SecondParamClosing(tokens: seq<Token>, q: string, fieldType: string, c1: Checker, c2: Checker)
    requires tokens == [Punct(Comma), Numeral(q), Punct(CloseParen)]
    requires AddParam(c1, q) == Ok(c2) && !ExpectMore(c2)
    ensures Run(tokens, Build([c1], [0]), fieldType) == Ok(Build([c2], []))
  {
    OpenAndCommaRule(Build([c1], [0]), Comma, fieldType);
    RunAt(tokens, 0, Build([c1], [0]), Build([c1], [0]), fieldType);
    ParamStep(Build([c1], [0]), q, fieldType, c2);
    assert [c1][0 := c2] == [c2];
    RunAt(tokens, 1, Build([c1], [0]), Build([c2], [0]), fieldType);
    CloseLastStep([c2], fieldType);
    RunAt(tokens, 2, Build([c2], [0]), Build([c2], []), fieldType);
    assert tokens[0..] == tokens && tokens[3..] == [];
  }

  /** A call with two parameters, `n(p, q)`, as the only expression. */
  lemma TwoParamCall(n: string, p: string, q: string, fieldType: string, c: Checker, c1: Checker, c2: Checker)
    requires FromName(n, fieldType) == Some(c) && AddParam(c, p) == Ok(c1) && AddParam(c1, q) == Ok(c2)
    requires !ExpectMore(c2)
    ensures Compile([Name(n), Punct(OpenParen), Numeral(p), Punct(Comma), Numeral(q), Punct(CloseParen)], fieldType)
            == Ok([c2])
  {
    var tokens := [Name(n), Punct(OpenParen), Numeral(p), Punct(Comma), Numeral(q), Punct(CloseParen)];
    CallOpening(tokens, n, p, fieldType, c, c1);
    assert tokens[3..] == [Punct(Comma), Numeral(q), Punct(CloseParen)];
    SecondParamClosing(tokens[3..], q, fieldType, c1, c2);
    assert AllReady([c2]);
  }

  /** An ordering predicate with one bound compiles to one root holding that bound. */
  lemma OrderCall(name: string, order: Order, fieldType: string, bound: string)
    requires FromName(name, fieldType) == Some(Cmp(GtCheck.New(order, fieldType))) && bound != []
    ensures Compile([Name(name), Punct(OpenParen), Numeral(bound), Punct(CloseParen)], fieldType)
            == Ok([Cmp(GtCheck.Generic(order, fieldType, bound))])
  {
    OneParamCall(name, bound, fieldType, Cmp(GtCheck.New(order, fieldType)), Cmp(GtCheck.Generic(order, fieldType, bound)));
  }

  /** `range(a, b)` compiles to one root holding both bounds. */
  lemma RangeCall(fieldType: string, a: string, b: string)
    requires a != [] && b != []
    ensures Compile([Name("range"), Punct(OpenParen), Numeral(a), Punct(Comma), Numeral(b), Punct(CloseParen)], fieldType)
            == Ok([Range(RangeCheck.Range(fieldType, a, b))])
  {
    RangeCheck.TwoParamsComplete(fieldType, a, b);
    assert FromName("range", fieldType) == Some(Range(RangeCheck.New(fieldType)));
    TwoParamCall("range", a, b, fieldType, Range(RangeCheck.New(fieldType)), Range(RangeCheck.Range(fieldType, a, "")),
                 Range(RangeCheck.Range(fieldType, a, b)));
  }

  /** The numbers the tests write as bounds, as `format!` writes them. */
  lemma TestNumerals()
    ensures Format(12) == "12" && Format(10) == "10" && Format(100) == "100"
  {
  }

  /** An ordering predicate on an `int` column whose bound is the spelling of `b`, as
      the only root. */
  lemma OrderOnInts(order: Order, bound: string, b: int, v: int, fo: FloatOracle)
    requires Format(b) == bound && I32_MIN <= b <= I32_MAX && I32_MIN <= v <= I32_MAX
    ensures TestAll([Cmp(GtCheck.Generic(order, "int", bound))], Format(v), fo)
            == if GtCheck.Holds(order, b, v) then Pass else Fail
  {
    ColumnTypes();
    GtCheck.IntegerMeaning(order, "int", b, v, fo);
    SingleRoot(Cmp(GtCheck.Generic(order, "int", bound)), Format(v), fo);
  }

  /** A single `range` root decides as the range predicate does. */
  lemma RangeRoot(r: RangeCheck.Range, value: string, fo: FloatOracle)
    ensures TestAll([Range(r)], value, fo) == RangeCheck.Test(r, value, fo)
  {
    SingleRoot(Range(r), value, fo);
  }

  /** On a column whose type names `float`, a non-blank value goes to the oracle. */
  lemma RangeOnFloatColumn(r: RangeCheck.Range, value: string, fo: FloatOracle)
    requires Contains(r.fieldType, "float") && Trim(value) != []
    ensures RangeCheck.Test(r, value, fo) == fo.Ask(Between(r.start, r.end, value))
  {
  }

  /** `range` on an `int` column whose bounds are the spellings of `s` and `e`, as the
      only root. */
  lemma RangeOnInts(fieldType: string, start: string, end: string, s: int, e: int, v: int, fo: FloatOracle)
    requires !Contains(fieldType, "float") && Contains(fieldType, "int")
    requires Format(s) == start && Format(e) == end
    requires I32_MIN <= s <= I32_MAX && I32_MIN <= e <= I32_MAX && I32_MIN <= v <= I32_MAX
    ensures TestAll([Range(RangeCheck.Range(fieldType, start, end))], Format(v), fo) == if s <= v <= e then Pass else Fail
  {
    RangeCheck.IntegerMeaning(fieldType, s, e, v, fo);
    RangeRoot(RangeCheck.Range(fieldType, start, end), Format(v), fo);
  }

  /** `gt(12)` on an `int` column compiles to one root that passes exactly the numbers
      above 12 (the source's test uses 13 and 13345463 against 1, -1232141, 0 and 12). */
  lemma GtTwelve(v: int, fo: FloatOracle)
    requires I32_MIN <= v <= I32_MAX
    ensures Compile([Name("gt"), Punct(OpenParen), Numeral("12"), Punct(CloseParen)], "int")
            == Ok([Cmp(GtCheck.Generic(Gt, "int", "12"))])
    ensures TestAll([Cmp(GtCheck.Generic(Gt, "int", "12"))], Format(v), fo) == if 12 < v then Pass else Fail
  {
    OrderCall("gt", Gt, "int", "12");
    TestNumerals();
    OrderOnInts(Gt, "12", 12, v, fo);
  }

  /** `lt(12)` on an `int` column passes exactly the numbers below 12. */
  lemma LtTwelve(v: int, fo: FloatOracle)
    requires I32_MIN <= v <= I32_MAX
    ensures Compile([Name("lt"), Punct(OpenParen), Numeral("12"), Punct(CloseParen)], "int")
            == Ok([Cmp(GtCheck.Generic(Lt, "int", "12"))])
    ensures TestAll([Cmp(GtCheck.Generic(Lt, "int", "12"))], Format(v), fo) == if v < 12 then Pass else Fail
  {
    OrderCall("lt", Lt, "int", "12");
    TestNumerals();
    OrderOnInts(Lt, "12", 12, v, fo);
  }

  /** `range(10, 100)` on an `int` column passes exactly 10 to 100, both ends included. */
  lemma RangeTenToHundred(v: int, fo: FloatOracle)
    requires I32_MIN <= v <= I32_MAX
    ensures Compile([Name("range"), Punct(OpenParen), Numeral("10"), Punct(Comma), Numeral("100"), Punct(CloseParen)], "int")
            == Ok([Range(RangeCheck.Range("int", "10", "100"))])
    ensures TestAll([Range(RangeCheck.Range("int", "10", "100"))], Format(v), fo) == if 10 <= v <= 100 then Pass else Fail
  {
    RangeCall("int", "10", "100");
    TestNumerals();
    ColumnTypes();
    RangeOnInts("int", "10", "100", 10, 100, v, fo);
  }

  /** `range(10, 100)` on a `float` column hands every non-blank value to the `f32`
      comparison with both bounds as written. */
  lemma RangeOnFloats(value: string, fo: FloatOracle)
    requires Trim(value) != []
    ensures Compile([Name("range"), Punct(OpenParen), Numeral("10"), Punct(Comma), Numeral("100"), Punct(CloseParen)], "float")
            == Ok([Range(RangeCheck.Range("float", "10", "100"))])
    ensures TestAll([Range(RangeCheck.Range("float", "10", "100"))], value, fo) == fo.Ask(Between("10", "100", value))
  {
    RangeCall("float", "10", "100");
    ColumnTypes();
    RangeRoot(RangeCheck.Range("float", "10", "100"), value, fo);
    RangeOnFloatColumn(RangeCheck.Range("float", "10", "100"), value, fo);
  }

  /** The two parameters of `len(2, 4)` become its bounds. */
  lemma LenTwoFourParams(fieldType: string)
    ensures LengthCheck.AddParam(LengthCheck.New(fieldType), "2") == Ok(LengthCheck.Len(fieldType, 2, -1))
    ensures LengthCheck.AddParam(LengthCheck.Len(fieldType, 2, -1), "4") == Ok(LengthCheck.Len(fieldType, 2, 4))
  {
    assert Format(2) == "2";
    assert Format(4) == "4";
    ParseFormat(2);
    ParseFormat(4);
  }

  /** `len(2, 4)` compiles to one root with both bounds set, on any column type. */
  lemma LenTwoFourCompiles(fieldType: string)
    ensures Compile([Name("len"), Punct(OpenParen), Numeral("2"), Punct(Comma), Numeral("4"), Punct(CloseParen)], fieldType)
            == Ok([Len(LengthCheck.Len(fieldType, 2, 4))])
  {
    LenTwoFourParams(fieldType);
    TwoParamCall("len", "2", "4", fieldType, Len(LengthCheck.New(fieldType)), Len(LengthCheck.Len(fieldType, 2, -1)),
                 Len(LengthCheck.Len(fieldType, 2, 4)));
  }

  /** A single `len` root passes exactly when the length predicate holds. */
  lemma LenRoot(l: LengthCheck.Len, value: string, fo: FloatOracle)
    ensures TestAll([Len(l)], value, fo).Passed() <==> LengthCheck.Test(l, value)
  {
    SingleRoot(Len(l), value, fo);
  }

  /** `len(2, 4)` on an `int[]` column passes exactly the lists of two to four elements. */
  lemma LenOnArrays(value: string, fo: FloatOracle)
    requires |value| < I32_MAX
    ensures Compile([Name("len"), Punct(OpenParen), Numeral("2"), Punct(Comma), Numeral("4"), Punct(CloseParen)], "int[]")
            == Ok([Len(LengthCheck.Len("int[]", 2, 4))])
    ensures TestAll([Len(LengthCheck.Len("int[]", 2, 4))], value, fo).Passed() <==> 2 <= |Split(value, ',')| <= 4
  {
    LenTwoFourCompiles("int[]");
    ColumnTypes();
    LengthCheck.ArrayMeaning(LengthCheck.Len("int[]", 2, 4), value);
    LenRoot(LengthCheck.Len("int[]", 2, 4), value, fo);
  }

  /** `len(2, 4)` on a `string` column passes exactly the strings of two to four UTF-8 bytes. */
  lemma LenOnStrings(value: string, fo: FloatOracle)
    requires Utf8Len(value) <= I32_MAX
    ensures Compile([Name("len"), Punct(OpenParen), Numeral("2"), Punct(Comma), Numeral("4"), Punct(CloseParen)], "string")
            == Ok([Len(LengthCheck.Len("string", 2, 4))])
    ensures TestAll([Len(LengthCheck.Len("string", 2, 4))], value, fo).Passed() <==> 2 <= Utf8Len(value) <= 4
  {
    LenTwoFourCompiles("string");
    ColumnTypes();
    LengthCheck.StringMeaning(LengthCheck.Len("string", 2, 4), value);
    LenRoot(LengthCheck.Len("string", 2, 4), value, fo);
  }

  /** The `eq` checker, and the same checker once it holds a non-empty `x`. */
  lemma EqParts(x: string, fieldType: string)
    requires x != []
    ensures FromName("eq", fieldType) == Some(Eq(EqCheck.New()))
    ensures AddParam(Eq(EqCheck.New()), x) == Ok(Eq(EqCheck.Eq(x)))
    ensures !ExpectMore(Eq(EqCheck.Eq(x)))
  {
  }

  /** `2` and `3` carry no surrounding whitespace. */
  lemma TwoAndThreeTrimmed()
    ensures Trim("2") == "2" && Trim("3") == "3"
  {
    TrimOfTrimmed("2");
    TrimOfTrimmed("3");
  }

  /** An `eq` whose expectation has no surrounding whitespace passes exactly the values
      equal to it up to surrounding whitespace, and never panics. */
  lemma EqMeaning(expected: string, value: string, fo: FloatOracle)
    requires Trim(expected) == expected
    ensures Test(Eq(EqCheck.Eq(expected)), value, fo).Passed() <==> Trim(value) == expected
    ensures Test(Eq(EqCheck.Eq(expected)), value, fo) != Panic
  {
  }

  /** `eq(x)` compiles to one `eq` root holding `x`. */
  lemma EqCall(x: string, fieldType: string)
    requires x != []
    ensures Run([Name("eq"), Punct(OpenParen), Numeral(x), Punct(CloseParen)], Build([], []), fieldType)
            == Ok(Build([Eq(EqCheck.Eq(x))], []))
    ensures Compile([Name("eq"), Punct(OpenParen), Numeral(x), Punct(CloseParen)], fieldType) == Ok([Eq(EqCheck.Eq(x))])
  {
    EqParts(x, fieldType);
    OneParamCall("eq", x, fieldType, Eq(EqCheck.New()), Eq(EqCheck.Eq(x)));
  }

  /** `eq(2)` passes exactly the values that are `2` up to surrounding whitespace. */
  lemma EqTwo(value: string, fo: FloatOracle)
    ensures Compile([Name("eq"), Punct(OpenParen), Numeral("2"), Punct(CloseParen)], "int")
            == Ok([Eq(EqCheck.Eq("2"))])
    ensures TestAll([Eq(EqCheck.Eq("2"))], value, fo).Passed() <==> Trim(value) == "2"
  {
    EqCall("2", "int");
    TwoAndThreeTrimmed();
    EqMeaning("2", value, fo);
    SingleRoot(Eq(EqCheck.Eq("2")), value, fo);
  }

  /** `and` or `or` after a single root: the root becomes the left operand and its
      position is pushed as pending. */
  lemma CombineSingle(c: Checker, pending: seq<nat>, w: Keyword, fieldType: string)
    requires w == Keyword.And || w == Keyword.Or
    ensures Step(Build([c], pending), Keyword(w), fieldType)
            == Ok(Build([if w == Keyword.And then Checker.And(Some(c), None) else Checker.Or(Some(c), None)], pending + [0]))
  {
    assert Last([c]) == c && DropLast([c]) == [];
    var node := if w == Keyword.And then Checker.And(Some(c), None) else Checker.Or(Some(c), None);
    assert [] + [node] == [node];
  }

  /** `eq(y)` above a pending `or` whose left operand is `l`: it becomes the right operand. */
  lemma EqIntoOr(tokens: seq<Token>, l: Checker, y: string, fieldType: string)
    requires y != [] && tokens == [Name("eq"), Punct(OpenParen), Numeral(y), Punct(CloseParen)]
    ensures Run(tokens, Build([Checker.Or(Some(l), None)], [0]), fieldType)
            == Ok(Build([Checker.Or(Some(l), Some(Eq(EqCheck.Eq(y))))], []))
  {
    var ey := Eq(EqCheck.Eq(y));
    var o1 := Checker.Or(Some(l), None);
    EqParts(y, fieldType);
    CallAbove(tokens, 0, o1, "eq", y, fieldType, Eq(EqCheck.New()), ey);
    CloseIntoParent(o1, ey, Checker.Or(Some(l), Some(ey)), fieldType);
    RunAt(tokens, 3, Build([o1, ey], [0, 1]), Build([Checker.Or(Some(l), Some(ey))], []), fieldType);
    assert tokens[0..] == tokens && tokens[4..] == [];
  }

  /** `or eq(y)` after a finished root `l`. */
  lemma OrEqRun(tokens: seq<Token>, l: Checker, y: string, fieldType: string)
    requires y != [] && tokens == [Keyword(Keyword.Or), Name("eq"), Punct(OpenParen), Numeral(y), Punct(CloseParen)]
    ensures Run(tokens, Build([l], []), fieldType) == Ok(Build([Checker.Or(Some(l), Some(Eq(EqCheck.Eq(y))))], []))
  {
    CombineSingle(l, [], Keyword.Or, fieldType);
    assert [] + [0] == [0];
    RunAt(tokens, 0, Build([l], []), Build([Checker.Or(Some(l), None)], [0]), fieldType);
    assert tokens[0..] == tokens;
    EqIntoOr(tokens[1..], l, y, fieldType);
  }

  /** Two runs in a row that end with every root ready compile. */
  lemma CompileInTwo(first: seq<Token>, rest: seq<Token>, fieldType: string, b: Build, b': Build)
    requires Run(first, Build([], []), fieldType) == Ok(b) && Run(rest, b, fieldType) == Ok(b')
    requires AllReady(b'.stack)
    ensures Compile(first + rest, fieldType) == Ok(b'.stack)
  {
    RunThen(first, rest, Build([], []), fieldType);
  }

  /** `eq(x) or eq(y)` compiles to one complete `or` root. */
  lemma EqOrCompiles(x: string, y: string, fieldType: string)
    requires x != [] && y != []
    ensures Compile([Name("eq"), Punct(OpenParen), Numeral(x), Punct(CloseParen), Keyword(Keyword.Or),
                     Name("eq"), Punct(OpenParen), Numeral(y), Punct(CloseParen)], fieldType)
            == Ok([Checker.Or(Some(Eq(EqCheck.Eq(x))), Some(Eq(EqCheck.Eq(y))))])
  {
    var ex := Eq(EqCheck.Eq(x));
    var o := Checker.Or(Some(ex), Some(Eq(EqCheck.Eq(y))));
    var first := [Name("eq"), Punct(OpenParen), Numeral(x), Punct(CloseParen)];
    var rest := [Keyword(Keyword.Or), Name("eq"), Punct(OpenParen), Numeral(y), Punct(CloseParen)];
    EqCall(x, fieldType);
    OrEqRun(rest, ex, y, fieldType);
    assert AllReady([o]);
    CompileInTwo(first, rest, fieldType, Build([ex], []), Build([o], []));
    assert first + rest == [Name("eq"), Punct(OpenParen), Numeral(x), Punct(CloseParen), Keyword(Keyword.Or),
                            Name("eq"), Punct(OpenParen), Numeral(y), Punct(CloseParen)];
  }

  /** `eq(2) or eq(3)` compiles to one complete `or` root. */
  lemma EqTwoOrThreeCompiles()
    ensures Compile([Name("eq"), Punct(OpenParen), Numeral("2"), Punct(CloseParen), Keyword(Keyword.Or),
                     Name("eq"), Punct(OpenParen), Numeral("3"), Punct(CloseParen)], "int")
            == Ok([Checker.Or(Some(Eq(EqCheck.Eq("2"))), Some(Eq(EqCheck.Eq("3"))))])
  {
    EqOrCompiles("2", "3", "int");
  }

  /** A complete `or` of two `eq` roots passes exactly the values equal to one of the two
      expectations, up to surrounding whitespace. */
  lemma EqOrMeaning(x: string, y: string, value: string, fo: FloatOracle)
    requires Trim(x) == x && Trim(y) == y
    ensures TestAll([Checker.Or(Some(Eq(EqCheck.Eq(x))), Some(Eq(EqCheck.Eq(y))))], value, fo).Passed()
            <==> Trim(value) == x || Trim(value) == y
  {
    var o := Checker.Or(Some(Eq(EqCheck.Eq(x))), Some(Eq(EqCheck.Eq(y))));
    EqMeaning(x, value, fo);
    EqMeaning(y, value, fo);
    AndOrMeaning(Eq(EqCheck.Eq(x)), Eq(EqCheck.Eq(y)), value, fo);
    SingleRoot(o, value, fo);
  }

  /** The compiled `eq(2) or eq(3)` passes exactly `2` and `3` (up to surrounding
      whitespace); the source's test uses 2 and 3 against 2.5 and 100. */
  lemma EqTwoOrThreeTest(value: string, fo: FloatOracle)
    ensures TestAll([Checker.Or(Some(Eq(EqCheck.Eq("2"))), Some(Eq(EqCheck.Eq("3"))))], value, fo).Passed()
            <==> Trim(value) == "2" || Trim(value) == "3"
  {
    TwoAndThreeTrimmed();
    EqOrMeaning("2", "3", value, fo);
  }

  // ---------------------------------------------------------------------------------------
  // A parameter outside parentheses.

  /** `eq 1 and` : the bare `1` completes `eq` but nothing removes its index from the
      pending list, so `and` pushes its own index on top of it. */
  lemma BareParamAnd(tokens: seq<Token>, fieldType: string)
    requires |tokens| >= 3 && tokens[0] == Name("eq") && tokens[1] == Numeral("1") && tokens[2] == Keyword(Keyword.And)
    ensures Run(tokens, Build([], []), fieldType)
            == Run(tokens[3..], Build([Checker.And(Some(Eq(EqCheck.Eq("1"))), None)], [0, 0]), fieldType)
  {
    var e := Eq(EqCheck.New());
    var e1 := Eq(EqCheck.Eq("1"));
    var a := Checker.And(Some(e1), None);
    EqParts("1", fieldType);
    NameStep(Build([], []), "eq", fieldType, e);
    assert [] + [e] == [e] && [] + [0] == [0];
    RunAt(tokens, 0, Build([], []), Build([e], [0]), fieldType);
    ParamStep(Build([e], [0]), "1", fieldType, e1);
    assert [e][0 := e1] == [e1];
    RunAt(tokens, 1, Build([e], [0]), Build([e1], [0]), fieldType);
    CombineSingle(e1, [0], Keyword.And, fieldType);
    assert [0] + [0] == [0, 0];
    RunAt(tokens, 2, Build([e1], [0]), Build([a], [0, 0]), fieldType);
    assert tokens[0..] == tokens;
  }

  /** `eq(2` after `eq 1 and`: the second `eq` is pushed above the `and` and takes `2`. */
  lemma BareParamSecondCall(tokens: seq<Token>, fieldType: string)
    requires tokens == [Name("eq"), Punct(OpenParen), Numeral("2")]
    ensures Run(tokens, Build([Checker.And(Some(Eq(EqCheck.Eq("1"))), None)], [0, 0]), fieldType)
            == Ok(Build([Checker.And(Some(Eq(EqCheck.Eq("1"))), None), Eq(EqCheck.Eq("2"))], [0, 0, 1]))
  {
    var e := Eq(EqCheck.New());
    var e2 := Eq(EqCheck.Eq("2"));
    var a := Checker.And(Some(Eq(EqCheck.Eq("1"))), None);
    EqParts("2", fieldType);
    NameStep(Build([a], [0, 0]), "eq", fieldType, e);
    assert [a] + [e] == [a, e] && [0, 0] + [1] == [0, 0, 1];
    RunAt(tokens, 0, Build([a], [0, 0]), Build([a, e], [0, 0, 1]), fieldType);
    OpenAndCommaRule(Build([a, e], [0, 0, 1]), OpenParen, fieldType);
    RunAt(tokens, 1, Build([a, e], [0, 0, 1]), Build([a, e], [0, 0, 1]), fieldType);
    assert Last([0, 0, 1]) == 1;
    ParamStep(Build([a, e], [0, 0, 1]), "2", fieldType, e2);
    assert [a, e][1 := e2] == [a, e2];
    RunAt(tokens, 2, Build([a, e], [0, 0, 1]), Build([a, e2], [0, 0, 1]), fieldType);
    assert tokens[0..] == tokens && tokens[3..] == [];
  }

  /** The first six tokens of `eq 1 and eq(2)`. */
  lemma BareParamPrefix(fieldType: string)
    ensures Run([Name("eq"), Numeral("1"), Keyword(Keyword.And), Name("eq"), Punct(OpenParen), Numeral("2")],
                Build([], []), fieldType)
            == Ok(Build([Checker.And(Some(Eq(EqCheck.Eq("1"))), None), Eq(EqCheck.Eq("2"))], [0, 0, 1]))
  {
    var tokens := [Name("eq"), Numeral("1"), Keyword(Keyword.And), Name("eq"), Punct(OpenParen), Numeral("2")];
    BareParamAnd(tokens, fieldType);
    assert tokens[3..] == [Name("eq"), Punct(OpenParen), Numeral("2")];
    BareParamSecondCall(tokens[3..], fieldType);
  }

  /** The closing `)` of `eq 1 and eq(2)`: the cascade completes the `and`, pops the `and`'s
      index, and then meets the stale index of the first `eq`, which no longer exists. */
  lemma BareParamClose(fieldType: string)
    ensures Step(Build([Checker.And(Some(Eq(EqCheck.Eq("1"))), None), Eq(EqCheck.Eq("2"))], [0, 0, 1]),
                 Punct(CloseParen), fieldType) == Refused
  {
    var e1 := Eq(EqCheck.Eq("1"));
    var e2 := Eq(EqCheck.Eq("2"));
    var a := Checker.And(Some(e1), None);
    var full := Checker.And(Some(e1), Some(e2));
    var b := Build([a, e2], [0, 0]);
    assert Last([0, 0, 1]) == 1;
    assert DropLast([0, 0, 1]) == [0, 0];
    assert Last(b.pending) == 0;
    assert DropLast(b.stack) == [a];
    assert Add(a, e2) == Some(full);
    assert [a][0 := full] == [full];
    assert DropLast([0, 0]) == [0];
    assert Cascade(b) == Cascade(Build([full], [0]));
    assert Cascade(Build([full], [0])) == Refused;
  }

  /** `eq 1 and eq(2)` is rejected, where the parenthesised form compiles (as
      `EqTwoOrThreeCompiles` shows for `or`): a parameter outside parentheses leaves its
      predicate pending for ever. */
  lemma BareParamThenAndRejected(fieldType: string)
    ensures Compile([Name("eq"), Numeral("1"), Keyword(Keyword.And), Name("eq"), Punct(OpenParen), Numeral("2"),
                     Punct(CloseParen)], fieldType) == Refused
  {
    var pre := [Name("eq"), Numeral("1"), Keyword(Keyword.And), Name("eq"), Punct(OpenParen), Numeral("2")];
    BareParamPrefix(fieldType);
    BareParamClose(fieldType);
    RunThen(pre, [Punct(CloseParen)], Build([], []), fieldType);
    assert pre + [Punct(CloseParen)] == [Name("eq"), Numeral("1"), Keyword(Keyword.And), Name("eq"), Punct(OpenParen),
                                         Numeral("2"), Punct(CloseParen)];
  }
}
