/** `CheckObj` (src/checker.rs:43-46, 229-342), the compiler loop `process_token`
    (src/checker.rs:75-201) and its entry point `generate_checker` (src/checker.rs:203-227).
    The object holds the root checkers in a vector it pushes to and pops from; each method
    is proved to compute the corresponding function of `CheckSet` or `Compile`. */
module CheckObjects {
  import opened Common
  import opened Strings
  import opened Tokens
  import Checkers
  import Dataset
  import opened CheckSet
  import opened CompileSpec

  class CheckObj {
    var checkers: seq<Checkers.Checker>

    /** `CheckObj::new`: no roots. */
    constructor ()
      ensures checkers == []
    {
      checkers := [];
    }

    /** `CheckObj::len`. */
    function Length(): nat
      reads this
    {
      |checkers|
    }

    /** `CheckObj::add`: push a root at the end. */
    method Add(c: Checkers.Checker)
      modifies this
      ensures checkers == old(checkers) + [c]
    {
      checkers := checkers + [c];
    }

    /** `CheckObj::pop`: remove and return the last root, if any. */
    method Pop() returns (r: Option<Checkers.Checker>)
      modifies this
      ensures old(checkers) == [] ==> r == None && checkers == []
      ensures old(checkers) != [] ==> r == Some(Last(old(checkers))) && checkers == DropLast(old(checkers))
    {
      if checkers == [] {
        r := None;
      } else {
        r := Some(checkers[|checkers| - 1]);
        checkers := checkers[..|checkers| - 1];
      }
    }

    /** Writing an updated checker back at `index`, what the source does in place through
        `get_mut`. */
    method Put(index: nat, c: Checkers.Checker)
      requires index < |checkers|
      modifies this
      ensures checkers == old(checkers)[index := c]
    {
      checkers := checkers[index := c];
    }

    /** `CheckObj::is_ready`: the checker at `index` exists and expects nothing more. */
    predicate IsReady(index: nat)
      reads this
    {
      index < |checkers| && !Checkers.ExpectMore(checkers[index])
    }

    /** `CheckObj::is_all_ready`. */
    method IsAllReady() returns (r: bool)
      ensures r == AllReady(checkers)
    {
      var k := 0;
      while k < |checkers|
        invariant 0 <= k <= |checkers|
        invariant forall j :: 0 <= j < k ==> !Checkers.ExpectMore(checkers[j])
      {
        if Checkers.ExpectMore(checkers[k]) {
          return false;
        }
        k := k + 1;
      }
      return true;
    }

    /** `CheckObj::test`: stops at the first root that does not pass. */
    method Test(value: string, fo: FloatOracle) returns (v: Verdict)
      ensures v == TestAll(checkers, value, fo)
    {
      var k := 0;
      while k < |checkers|
        invariant 0 <= k <= |checkers|
        invariant TestAll(checkers, value, fo) == TestAll(checkers[k..], value, fo)
      {
        assert checkers[k..][1..] == checkers[k + 1..];
        var t := Checkers.Test(checkers[k], value, fo);
        if t != Pass {
          return t;
        }
        k := k + 1;
      }
      return Pass;
    }

    /** `CheckObj::test_on_all_load`: stops at the first root that fails. */
    method TestOnAllLoad(value: string, ds: Dataset.Dataset) returns (r: bool)
      ensures r == TestAllOnLoad(checkers, value, ds)
    {
      var k := 0;
      while k < |checkers|
        invariant 0 <= k <= |checkers|
        invariant forall j :: 0 <= j < k ==> Checkers.TestOnAllLoad(checkers[j], value, ds)
      {
        if !Checkers.TestOnAllLoad(checkers[k], value, ds) {
          return false;
        }
        k := k + 1;
      }
      return true;
    }

    /** `CheckObj::need_full_load`: stops at the first root that asks for it. */
    method NeedFullLoad() returns (r: bool)
      ensures r == AnyNeedsFullLoad(checkers)
    {
      var k := 0;
      while k < |checkers|
        invariant 0 <= k <= |checkers|
        invariant forall j :: 0 <= j < k ==> !Checkers.NeedFullLoad(checkers[j])
      {
        if Checkers.NeedFullLoad(checkers[k]) {
          return true;
        }
        k := k + 1;
      }
      return false;
    }

    /** `CheckObj::check_finished`, the completion cascade run by `)`: it takes the pending
        list and gives back the updated one. */
    method CheckFinished(expects: seq<nat>) returns (ok: bool, pending: seq<nat>)
      modifies this
      ensures ok <==> Cascade(Build(old(checkers), expects)).Ok?
      ensures ok ==> Cascade(Build(old(checkers), expects)) == Ok(Build(checkers, pending))
    {
      pending := expects;
      while pending != []
        invariant Cascade(Build(old(checkers), expects)) == Cascade(Build(checkers, pending))
        decreases |checkers|
      {
        var i := pending[|pending| - 1];
        if i == |checkers| {
          return true, pending;
        }
        var last := Pop();
        if i >= |checkers| {
          return false, pending;
        }
        var receiver := Checkers.Add(checkers[i], last.value);
        if receiver.None? {
          return false, pending;
        }
        Put(i, receiver.value);
        if !Checkers.ExpectMore(receiver.value) {
          pending := pending[..|pending| - 1];
        }
      }
      return true, pending;
    }
  }

  /** One arm of the token `match` in `process_token`: updates the object and the pending
      list as `Step` says, or reports the token's failure or panic. */
  method ProcessOne(checker: CheckObj, expectFrom: seq<nat>, t: Token, fieldType: string)
    returns (r: Progress<seq<nat>>)
    modifies checker
    ensures var s := Step(Build(old(checker.checkers), expectFrom), t, fieldType);
            match s
            case Ok(b) => r == Ok(b.pending) && checker.checkers == b.stack
            case Refused => r == Refused
            case Aborted => r == Aborted
  {
    match t
    case Keyword(w) =>
      if w == Keyword.Not {
        checker.Add(Checkers.Not(None));
        return Ok(expectFrom + [checker.Length() - 1]);
      } else if w == Keyword.And || w == Keyword.Or {
        if checker.Length() == 0 {
          return Refused;
        }
        var last := checker.Pop();
        var blank := if w == Keyword.And then Checkers.And(None, None) else Checkers.Or(None, None);
        var node := Checkers.Add(blank, last.value);
        if node.None? {
          return Refused;
        }
        checker.Add(node.value);
        return Ok(expectFrom + [checker.Length() - 1]);
      } else {
        return Refused;
      }
    case Punct(p) =>
      if p == OpenParen || p == Comma {
        return if expectFrom == [] then Refused else Ok(expectFrom);
      } else if p == CloseParen {
        if expectFrom == [] {
          return Refused;
        }
        var i := expectFrom[|expectFrom| - 1];
        if !checker.IsReady(i) {
          return Refused;
        }
        CascadeNeverPanics(Build(checker.checkers, expectFrom[..|expectFrom| - 1]));
        var ok, pending := checker.CheckFinished(expectFrom[..|expectFrom| - 1]);
        return if ok then Ok(pending) else Refused;
      } else {
        return Refused;
      }
    case Name(n) =>
      var inst := Checkers.FromName(n, fieldType);
      if inst.None? {
        return Refused;
      }
      checker.Add(inst.value);
      return Ok(expectFrom + [checker.Length() - 1]);
    case Numeral(text) =>
      r := AddParamAtTop(checker, expectFrom, text);
    case LiteralString(text) =>
      r := AddParamAtTop(checker, expectFrom, text);
    case OtherToken =>
      return Refused;
  }

  /** The numeral and string-literal arms: `add_param` on the checker at the top pending
      index. */
  method AddParamAtTop(checker: CheckObj, expectFrom: seq<nat>, text: string)
    returns (r: Progress<seq<nat>>)
    modifies checker
    ensures match Param(Build(old(checker.checkers), expectFrom), text)
            case Ok(b) => r == Ok(b.pending) && checker.checkers == b.stack
            case Refused => r == Refused
            case Aborted => r == Aborted
  {
    if checker.Length() == 0 || expectFrom == [] {
      return Refused;
    }
    var i := expectFrom[|expectFrom| - 1];
    if i >= checker.Length() {
      return Refused;
    }
    var updated := Checkers.AddParam(checker.checkers[i], text);
    match updated
    case Ok(c) =>
      checker.Put(i, c);
      return Ok(expectFrom);
    case Refused =>
      return Refused;
    case Aborted =>
      return Aborted;
  }

  /** `process_token`: runs every token through `ProcessOne`, stops at the first failure
      (`false`) or panic, and finally asks `is_all_ready`. */
  method ProcessToken(checker: CheckObj, tokens: seq<Token>, fieldType: string) returns (r: Outcome<bool>)
    modifies checker
    ensures var run := Run(tokens, Build(old(checker.checkers), []), fieldType);
            && (r == Panicked <==> run.Aborted?)
            && (r == Returned(true) <==> run.Ok? && AllReady(run.value.stack))
            && (run.Ok? ==> checker.checkers == run.value.stack)
  {
    var expectFrom: seq<nat> := [];
    var k := 0;
    while k < |tokens|
      invariant 0 <= k <= |tokens|
      invariant Run(tokens, Build(old(checker.checkers), []), fieldType)
                == Run(tokens[k..], Build(checker.checkers, expectFrom), fieldType)
    {
      assert tokens[k..][1..] == tokens[k + 1..];
      var v := ProcessOne(checker, expectFrom, tokens[k], fieldType);
      match v {
        case Ok(pending) =>
          expectFrom := pending;
        case Refused =>
          return Returned(false);
        case Aborted =>
          return Panicked;
      }
      k := k + 1;
    }
    var ready := checker.IsAllReady();
    return Returned(ready);
  }

  /** `generate_checker`: a blank expression, `c` or `~` means "no constraint" and gives
      the empty check set without lexing; anything else is lexed (the lexer is a parameter)
      and compiled into a new object. `Returned(false)` is the "unsupported check
      condition" error. */
  method GenerateChecker(expr: string, lex: string -> seq<Token>, fieldType: string)
    returns (checker: CheckObj, r: Outcome<bool>)
    ensures fresh(checker)
    ensures Trim(expr) in {"", "c", "~"} ==> r == Returned(true) && checker.checkers == []
    ensures Trim(expr) !in {"", "c", "~"} ==>
              var compiled := Compile(lex(expr), fieldType);
              && (r == Returned(true) <==> compiled.Ok?)
              && (r == Panicked <==> compiled.Aborted?)
              && (compiled.Ok? ==> checker.checkers == compiled.value)
  {
    checker := new CheckObj();
    var trimmed := Trim(expr);
    if trimmed == "" || trimmed == "c" || trimmed == "~" {
      return checker, Returned(true);
    }
    r := ProcessToken(checker, lex(expr), fieldType);
  }
}
