/** The `Checker` trait of src/checker.rs as a closed sum: one constructor per predicate
    the compiler can build (`func_name_to_checker_obj`) and one per combinator (`not`,
    `and`, `or`). A node owns its children exclusively (`Box<dyn Checker>`), so the tree is
    a value and `add`/`add_param` return the updated node. */
module Checkers {
  import opened Common
  import opened Strings
  import Dataset
  import EmptyCheck
  import EqCheck
  import GtCheck
  import RangeCheck
  import LengthCheck
  import ExpectFieldCheck

  datatype Checker =
    | Empty
    | Eq(eq: EqCheck.Eq)
    | Cmp(cmp: GtCheck.Generic)
    | Range(range: RangeCheck.Range)
    | Len(len: LengthCheck.Len)
    | Expect(target: ExpectFieldCheck.ExpectField)
    | Not(next: Option<Checker>)
    | And(left: Option<Checker>, right: Option<Checker>)
    | Or(left: Option<Checker>, right: Option<Checker>)
  {
    /** The node combines other checkers instead of taking parameters. */
    predicate IsCombinator() {
      Not? || And? || Or?
    }
  }

  /** `func_name_to_checker_obj`: the predicate a name stands for, built empty for the
      column type; any other name is unknown. */
  function FromName(name: string, fieldType: string): Option<Checker> {
    match name
    case "empty" => Some(Empty)
    case "range" => Some(Range(RangeCheck.New(fieldType)))
    case "gt" => Some(Cmp(GtCheck.New(Gt, fieldType)))
    case "ge" => Some(Cmp(GtCheck.New(Ge, fieldType)))
    case "lt" => Some(Cmp(GtCheck.New(Lt, fieldType)))
    case "le" => Some(Cmp(GtCheck.New(Le, fieldType)))
    case "eq" => Some(Eq(EqCheck.New()))
    case "len" => Some(Len(LengthCheck.New(fieldType)))
    case "expect" => Some(Expect(ExpectFieldCheck.New()))
    case _ => None
  }

  /** `Checker::expect_more`: a parameter or a child is still missing. */
  predicate ExpectMore(c: Checker) {
    match c
    case Empty => false
    case Eq(e) => EqCheck.ExpectMore(e)
    case Cmp(g) => GtCheck.ExpectMore(g)
    case Range(r) => RangeCheck.ExpectMore(r)
    case Len(l) => LengthCheck.ExpectMore(l)
    case Expect(e) => ExpectFieldCheck.ExpectMore(e)
    case Not(next) => next.None?
    case And(left, right) => left.None? || right.None?
    case Or(left, right) => left.None? || right.None?
  }

  /** `Checker::add_param`: predicates take parameters; `empty` and the combinators refuse
      them. A predicate whose parse `unwrap` fails panics. */
  function AddParam(c: Checker, param: string): Progress<Checker> {
    match c
    case Eq(e) => Lift(EqCheck.AddParam(e, param), x => Checker.Eq(x))
    case Cmp(g) => Lift(GtCheck.AddParam(g, param), x => Checker.Cmp(x))
    case Range(r) => Lift(RangeCheck.AddParam(r, param), x => Checker.Range(x))
    case Len(l) => Lift(LengthCheck.AddParam(l, param), x => Checker.Len(x))
    case Expect(e) => Lift(ExpectFieldCheck.AddParam(e, param), x => Checker.Expect(x))
    case _ => Refused
  }

  function Lift<T>(p: Progress<T>, wrap: T -> Checker): Progress<Checker> {
    match p
    case Ok(v) => Ok(wrap(v))
    case Refused => Refused
    case Aborted => Aborted
  }

  /** `Checker::add`: `not` takes one child, `and` and `or` take a left then a right one;
      predicates and complete combinators refuse (`None`). */
  function Add(c: Checker, child: Checker): Option<Checker> {
    match c
    case Not(None) => Some(Not(Some(child)))
    case And(None, right) => Some(And(Some(child), right))
    case And(Some(left), None) => Some(And(Some(left), Some(child)))
    case Or(None, right) => Some(Or(Some(child), right))
    case Or(Some(left), None) => Some(Or(Some(left), Some(child)))
    case _ => None
  }

  /** Boolean negation that lets a panic through. */
  function Negate(v: Verdict): Verdict {
    match v
    case Pass => Fail
    case Fail => Pass
    case Panic => Panic
  }

  /** Conjunction of two evaluated verdicts: a panic in either one ends the run. */
  function Conj(l: Verdict, r: Verdict): Verdict {
    if l == Panic || r == Panic then Panic
    else if l == Pass && r == Pass then Pass
    else Fail
  }

  /** Disjunction of two evaluated verdicts: a panic in either one ends the run. */
  function Disj(l: Verdict, r: Verdict): Verdict {
    if l == Panic || r == Panic then Panic
    else if l == Pass || r == Pass then Pass
    else Fail
  }

  /** `Checker::test`. `expect` always passes here (its real test needs every workbook
      loaded); a combinator with a missing child fails. `and` and `or` evaluate both
      children and then combine their verdicts, so a panic in either child ends the run. */
  function Test(c: Checker, value: string, fo: FloatOracle): Verdict
    decreases c
  {
    match c
    case Empty => if EmptyCheck.Test(value) then Pass else Fail
    case Eq(e) => if EqCheck.Test(e, value) then Pass else Fail
    case Cmp(g) => GtCheck.Test(g, value, fo)
    case Range(r) => RangeCheck.Test(r, value, fo)
    case Len(l) => if LengthCheck.Test(l, value) then Pass else Fail
    case Expect(_) => Pass
    case Not(next) =>
      if next.None? then Fail else Negate(Test(next.value, value, fo))
    case And(left, right) =>
      if left.None? || right.None? then Fail
      else Conj(Test(left.value, value, fo), Test(right.value, value, fo))
    case Or(left, right) =>
      if left.None? || right.None? then Fail
      else Disj(Test(left.value, value, fo), Test(right.value, value, fo))
  }

  /** `Checker::need_full_load`: only `expect` asks for every workbook to be loaded; the
      combinators keep the trait's default and do not ask on behalf of their children. */
  predicate NeedFullLoad(c: Checker) {
    c.Expect?
  }

  /** `Checker::test_on_all_load`: `expect` looks the value up; every other checker keeps
      the trait's default and passes. */
  predicate TestOnAllLoad(c: Checker, value: string, ds: Dataset.Dataset) {
    match c
    case Expect(e) => ExpectFieldCheck.TestOnAllLoad(e, value, ds)
    case _ => true
  }

  /** Number of checker nodes in the tree. */
  function Size(c: Checker): nat
    decreases c
  {
    match c
    case Not(next) => 1 + (if next.None? then 0 else Size(next.value))
    case And(left, right) =>
      1 + (if left.None? then 0 else Size(left.value)) + (if right.None? then 0 else Size(right.value))
    case Or(left, right) =>
      1 + (if left.None? then 0 else Size(left.value)) + (if right.None? then 0 else Size(right.value))
    case _ => 1
  }

  /** The nine names the compiler knows, and the shape of what each builds: one node, a
      predicate and not a combinator, that expects a parameter unless it is `empty`. */
  lemma FromNameShape(name: string, fieldType: string)
    ensures FromName(name, fieldType).Some? <==>
            name in ["empty", "range", "gt", "ge", "lt", "le", "eq", "len", "expect"]
    ensures FromName(name, fieldType).Some? ==>
              var c := FromName(name, fieldType).value;
              Size(c) == 1 && !c.IsCombinator() && (ExpectMore(c) <==> name != "empty")
  {
  }

  /** A known name builds a single node. */
  lemma FromNameSize(name: string, fieldType: string)
    ensures FromName(name, fieldType).Some? ==> Size(FromName(name, fieldType).value) == 1
  {
  }

  /** The parameter protocol: only a predicate that still expects a parameter takes one
      (or panics trying), and taking it changes nothing in the shape of the tree. */
  lemma AddParamProtocol(c: Checker, param: string)
    ensures !AddParam(c, param).Refused? <==> !c.IsCombinator() && ExpectMore(c)
    ensures AddParam(c, param).Ok? ==> Size(AddParam(c, param).value) == 1
                                       && !AddParam(c, param).value.IsCombinator()
  {
    match c
    case Eq(e) => EqCheck.AddParamProtocol(e, param);
    case Cmp(g) => GtCheck.AddParamProtocol(g, param);
    case Range(r) => RangeCheck.AddParamProtocol(r, param);
    case Len(l) => LengthCheck.AddParamProtocol(l, param);
    case Expect(e) => ExpectFieldCheck.AddParamProtocol(e, param);
    case _ =>
  }

  /** The child protocol: only a combinator that still expects a child takes one; the child
      becomes part of the tree, whose size grows by the child's size. */
  lemma AddProtocol(c: Checker, child: Checker)
    ensures Add(c, child).Some? <==> c.IsCombinator() && ExpectMore(c)
    ensures Add(c, child).Some? ==> Size(Add(c, child).value) == Size(c) + Size(child)
                                    && Add(c, child).value.IsCombinator()
  {
  }

  /** `not` inverts its child's verdict, and a panic stays a panic. */
  lemma NotInverts(child: Checker, value: string, fo: FloatOracle)
    ensures Test(Not(Some(child)), value, fo).Passed() <==> Test(child, value, fo) == Fail
    ensures Test(Not(Some(child)), value, fo) == Panic <==> Test(child, value, fo) == Panic
  {
    var t := Test(child, value, fo);
    assert Test(Not(Some(child)), value, fo) == Negate(t);
  }

  /** Two negations cancel: `not not c` decides every value as `c` does. */
  lemma DoubleNegation(c: Checker, value: string, fo: FloatOracle)
    ensures Test(Not(Some(Not(Some(c)))), value, fo) == Test(c, value, fo)
  {
    var t := Test(c, value, fo);
    assert Test(Not(Some(c)), value, fo) == Negate(t);
    assert Test(Not(Some(Not(Some(c)))), value, fo) == Negate(Negate(t));
  }

  /** A complete `and` passes exactly the values both children pass, a complete `or` the
      values one child passes while neither panics, and either one panics exactly when
      one of its children does. */
  lemma AndOrMeaning(l: Checker, r: Checker, value: string, fo: FloatOracle)
    ensures Test(And(Some(l), Some(r)), value, fo).Passed() <==>
            Test(l, value, fo).Passed() && Test(r, value, fo).Passed()
    ensures Test(Or(Some(l), Some(r)), value, fo).Passed() <==>
            Test(l, value, fo) != Panic && Test(r, value, fo) != Panic &&
            (Test(l, value, fo).Passed() || Test(r, value, fo).Passed())
    ensures Test(And(Some(l), Some(r)), value, fo) == Panic <==>
            Test(l, value, fo) == Panic || Test(r, value, fo) == Panic
    ensures Test(Or(Some(l), Some(r)), value, fo) == Panic <==>
            Test(l, value, fo) == Panic || Test(r, value, fo) == Panic
  {
    var tl, tr := Test(l, value, fo), Test(r, value, fo);
    assert Test(And(Some(l), Some(r)), value, fo) == Conj(tl, tr);
    assert Test(Or(Some(l), Some(r)), value, fo) == Disj(tl, tr);
  }

  /** The load-related defaults: only an `expect` root asks for a full load, every other
      root passes the full-load test, and an `expect` passes every value in the local pass. */
  lemma LoadDefaults(c: Checker, value: string, fo: FloatOracle, ds: Dataset.Dataset)
    ensures NeedFullLoad(c) <==> c.Expect?
    ensures !c.Expect? ==> TestOnAllLoad(c, value, ds)
    ensures c.Expect? ==> Test(c, value, fo) == Pass
  {
  }

  /** A combinator still waiting for a child fails every value: unfinished conditions never
      let a value through. */
  lemma IncompleteCombinatorFails(c: Checker, value: string, fo: FloatOracle)
    requires c.IsCombinator() && ExpectMore(c)
    ensures Test(c, value, fo) == Fail
  {
    match c
    case Not(next) =>
      assert next.None?;
    case And(left, right) =>
      assert left.None? || right.None?;
    case Or(left, right) =>
      assert left.None? || right.None?;
  }
}
