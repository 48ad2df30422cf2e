/** What `process_token` (src/checker.rs:75-201) computes, token by token, as functions on
    the compiler's two structures: the build stack (the `checkers` vector of `CheckObj`)
    and the pending list (`expect_from`, the stack indices of the checkers that still take
    parameters or children). The imperative `ProcessToken` and `CheckObj.CheckFinished`
    are proved equal to these. */
module CompileSpec {
  import opened Common
  import opened Tokens
  import opened Checkers
  import opened CheckSet

  datatype Build = Build(stack: seq<Checker>, pending: seq<nat>)

  function Last<T>(s: seq<T>): T
    requires s != []
  {
    s[|s| - 1]
  }

  function DropLast<T>(s: seq<T>): seq<T>
    requires s != []
  {
    s[..|s| - 1]
  }

  /** `CheckObj::check_finished`: while the top pending index `i` is not the stack length,
      pop the last checker and `add` it to checker `i`, dropping `i` from the pending list
      once that checker expects nothing more. It fails when checker `i` does not exist
      after the pop, or refuses the child. */
  function Cascade(b: Build): Progress<Build>
    decreases |b.stack|
  {
    if b.pending == [] then Ok(b)
    else
      var i := Last(b.pending);
      if i == |b.stack| then Ok(b)
      else if i + 1 >= |b.stack| then Refused
      else
        var rest := DropLast(b.stack);
        match Add(rest[i], Last(b.stack))
        case None => Refused
        case Some(p) =>
          Cascade(Build(rest[i := p], if ExpectMore(p) then b.pending else DropLast(b.pending)))
  }

  /** `and` / `or`: the last checker becomes the left operand of a new combinator that
      takes its place and its index is pushed as pending; an empty stack fails. */
  function Combine(b: Build, blank: Checker): Progress<Build> {
    if b.stack == [] then Refused
    else
      match Add(blank, Last(b.stack))
      case None => Refused
      case Some(node) => Ok(Build(DropLast(b.stack) + [node], b.pending + [|b.stack| - 1]))
  }

  /** A numeral or a string literal: the parameter goes to the checker at the top pending
      index; it fails when the stack or the pending list is empty, when that checker does not
      exist, or when it refuses the parameter, and panics when it panics. */
  function Param(b: Build, text: string): Progress<Build> {
    if b.stack == [] || b.pending == [] then Refused
    else
      var i := Last(b.pending);
      if i >= |b.stack| then Refused
      else
        match AddParam(b.stack[i], text)
        case Ok(c) => Ok(Build(b.stack[i := c], b.pending))
        case Refused => Refused
        case Aborted => Aborted
  }

  /** One iteration of the token loop of `process_token`. */
  function Step(b: Build, t: Token, fieldType: string): Progress<Build> {
    match t
    case Keyword(w) =>
      (match w
       case Not => Ok(Build(b.stack + [Checker.Not(None)], b.pending + [|b.stack|]))
       case And => Combine(b, Checker.And(None, None))
       case Or => Combine(b, Checker.Or(None, None))
       case OtherKeyword => Refused)
    case Punct(p) =>
      (match p
       case OpenParen => if b.pending == [] then Refused else Ok(b)
       case Comma => if b.pending == [] then Refused else Ok(b)
       case CloseParen =>
         if b.pending == [] then Refused
         else
           var i := Last(b.pending);
           if i < |b.stack| && !ExpectMore(b.stack[i]) then Cascade(Build(b.stack, DropLast(b.pending)))
           else Refused
       case OtherPunct => Refused)
    case Name(n) =>
      (match FromName(n, fieldType)
       case None => Refused
       case Some(c) => Ok(Build(b.stack + [c], b.pending + [|b.stack|])))
    case Numeral(text) => Param(b, text)
    case LiteralString(text) => Param(b, text)
    case OtherToken => Refused
  }

  /** The token loop: the first failing token stops it. */
  function Run(tokens: seq<Token>, b: Build, fieldType: string): Progress<Build>
    decreases |tokens|
  {
    if tokens == [] then Ok(b)
    else
      match Step(b, tokens[0], fieldType)
      case Ok(b') => Run(tokens[1..], b', fieldType)
      case Refused => Refused
      case Aborted => Aborted
  }

  /** `process_token` on a new `CheckObj`: the loop must get through every token and
      leave every root ready (`is_all_ready`). The pending list need not be empty. */
  function Compile(tokens: seq<Token>, fieldType: string): Progress<seq<Checker>> {
    match Run(tokens, Build([], []), fieldType)
    case Ok(b) => if AllReady(b.stack) then Ok(b.stack) else Refused
    case Refused => Refused
    case Aborted => Aborted
  }

  /** Number of checker nodes on a stack, children included. */
  function TotalSize(cs: seq<Checker>): nat
    decreases |cs|
  {
    if cs == [] then 0 else TotalSize(DropLast(cs)) + Size(Last(cs))
  }

  /** Number of tokens that create a checker node: known names and `not`/`and`/`or`. */
  function NodeTokens(tokens: seq<Token>): nat
    decreases |tokens|
  {
    if tokens == [] then 0
    else (match tokens[0]
          case Keyword(w) => if w == OtherKeyword then 0 else 1
          case Name(_) => 1
          case _ => 0) + NodeTokens(tokens[1..])
  }

  // ---------------------------------------------------------------------------------------
  // The rules of the individual tokens.

  /** `and` and `or` fail on an empty stack; otherwise they keep the stack length, wrap the
      former last checker as the left operand, and push that position as pending. */
  lemma CombineRule(b: Build, w: Keyword, fieldType: string)
    requires w == Keyword.And || w == Keyword.Or
    ensures Step(b, Keyword(w), fieldType).Refused? <==> b.stack == []
    ensures !Step(b, Keyword(w), fieldType).Aborted?
    ensures b.stack != [] ==>
              var b' := Step(b, Keyword(w), fieldType).value;
              |b'.stack| == |b.stack| && DropLast(b'.stack) == DropLast(b.stack)
              && Last(b'.stack) == (if w == Keyword.And then Checker.And(Some(Last(b.stack)), None)
                                    else Checker.Or(Some(Last(b.stack)), None))
              && b'.pending == b.pending + [|b.stack| - 1]
  {
  }

  /** `(` and `,` succeed exactly when something is pending, and change nothing. */
  lemma OpenAndCommaRule(b: Build, p: Punct, fieldType: string)
    requires p == OpenParen || p == Comma
    ensures Step(b, Punct(p), fieldType) == if b.pending == [] then Refused else Ok(b)
  {
  }

  /** `)` fails when nothing is pending or when the checker at the top pending index is
      missing or still expects more; otherwise it drops that index and runs the cascade. */
  lemma CloseRule(b: Build, fieldType: string)
    ensures Step(b, Punct(CloseParen), fieldType).Ok? ==>
              b.pending != [] && Last(b.pending) < |b.stack| && !ExpectMore(b.stack[Last(b.pending)])
    ensures b.pending != [] && Last(b.pending) < |b.stack| && !ExpectMore(b.stack[Last(b.pending)]) ==>
              Step(b, Punct(CloseParen), fieldType) == Cascade(Build(b.stack, DropLast(b.pending)))
  {
  }

  /** Every token outside the language fails: an unknown name, a keyword other than
      `not`/`and`/`or`, punctuation other than `(`, `)`, `,`, and any other kind of token. */
  lemma ForeignTokensFail(b: Build, n: string, fieldType: string)
    requires n !in ["empty", "range", "gt", "ge", "lt", "le", "eq", "len", "expect"]
    ensures Step(b, Name(n), fieldType) == Refused
    ensures Step(b, Keyword(OtherKeyword), fieldType) == Refused
    ensures Step(b, Punct(OtherPunct), fieldType) == Refused
    ensures Step(b, OtherToken, fieldType) == Refused
  {
    FromNameShape(n, fieldType);
  }

  /** A numeral or string literal goes to the checker at the top pending index and to no
      other; it fails when the stack or the pending list is empty or when that checker
      refuses it. */
  lemma ParamRule(b: Build, text: string, fieldType: string)
    ensures Step(b, Numeral(text), fieldType) == Step(b, LiteralString(text), fieldType)
    ensures b.stack == [] || b.pending == [] ==> Step(b, Numeral(text), fieldType) == Refused
    ensures Step(b, Numeral(text), fieldType).Ok? ==>
              var i := Last(b.pending);
              var b' := Step(b, Numeral(text), fieldType).value;
              i < |b.stack| && AddParam(b.stack[i], text) == Ok(b'.stack[i])
              && b'.stack == b.stack[i := b'.stack[i]] && b'.pending == b.pending
  {
  }

  // ---------------------------------------------------------------------------------------
  // The cascade.

  /** A successful cascade stops with nothing pending or with the top pending index equal to
      the stack length; it never grows the stack or the pending list. */
  lemma {:induction false} CascadeStops(b: Build)
    requires Cascade(b).Ok?
    ensures var r := Cascade(b).value;
            (r.pending == [] || Last(r.pending) == |r.stack|)
            && |r.stack| <= |b.stack| && |r.pending| <= |b.pending|
    decreases |b.stack|
  {
    if b.pending != [] && Last(b.pending) != |b.stack| {
      var i := Last(b.pending);
      var rest := DropLast(b.stack);
      var p := Add(rest[i], Last(b.stack)).value;
      CascadeStops(Build(rest[i := p], if ExpectMore(p) then b.pending else DropLast(b.pending)));
    }
  }

  /** The cascade never panics: only `add_param` can. */
  lemma {:induction false} CascadeNeverPanics(b: Build)
    ensures !Cascade(b).Aborted?
    decreases |b.stack|
  {
    if b.pending != [] && Last(b.pending) + 1 < |b.stack| {
      var i := Last(b.pending);
      var rest := DropLast(b.stack);
      match Add(rest[i], Last(b.stack))
      case None =>
      case Some(p) =>
        CascadeNeverPanics(Build(rest[i := p], if ExpectMore(p) then b.pending else DropLast(b.pending)));
    }
  }

  /** Moving the last checker into checker `i` keeps the node count of the stack. */
  lemma {:induction false} TotalSizeMove(cs: seq<Checker>, i: nat, p: Checker)
    requires i + 1 < |cs| && Size(p) == Size(cs[i]) + Size(Last(cs))
    ensures TotalSize(DropLast(cs)[i := p]) == TotalSize(cs)
  {
    TotalSizeUpdate(DropLast(cs), i, p);
  }

  /** Replacing one checker changes the node count by the difference of the sizes. */
  lemma {:induction false} TotalSizeUpdate(cs: seq<Checker>, i: nat, p: Checker)
    requires i < |cs|
    ensures TotalSize(cs[i := p]) + Size(cs[i]) == TotalSize(cs) + Size(p)
    decreases |cs|
  {
    if i + 1 < |cs| {
      assert DropLast(cs[i := p]) == DropLast(cs)[i := p];
      TotalSizeUpdate(DropLast(cs), i, p);
    } else {
      assert DropLast(cs[i := p]) == DropLast(cs);
    }
  }

  /** The cascade only moves checkers into other checkers: no node is lost or duplicated. */
  lemma {:induction false} CascadeKeepsNodes(b: Build)
    requires Cascade(b).Ok?
    ensures TotalSize(Cascade(b).value.stack) == TotalSize(b.stack)
    decreases |b.stack|
  {
    if b.pending != [] && Last(b.pending) != |b.stack| {
      var i := Last(b.pending);
      var rest := DropLast(b.stack);
      var p := Add(rest[i], Last(b.stack)).value;
      AddProtocol(rest[i], Last(b.stack));
      TotalSizeMove(b.stack, i, p);
      CascadeKeepsNodes(Build(rest[i := p], if ExpectMore(p) then b.pending else DropLast(b.pending)));
    }
  }

  /** Each token adds to the stack's node count exactly the nodes it creates. */
  lemma StepKeepsNodes(b: Build, t: Token, fieldType: string)
    requires Step(b, t, fieldType).Ok?
    ensures TotalSize(Step(b, t, fieldType).value.stack) == TotalSize(b.stack) + NodeTokens([t])
  {
    assert NodeTokens([t]) == (match t
                               case Keyword(w) => if w == OtherKeyword then 0 else 1
                               case Name(_) => 1
                               case _ => 0);
    match t
    case Keyword(w) =>
      if w == Keyword.Not {
        PushKeepsNodes(b.stack, Checker.Not(None));
      } else if w == Keyword.And {
        CombineKeepsNodes(b, Checker.And(None, None));
      } else if w == Keyword.Or {
        CombineKeepsNodes(b, Checker.Or(None, None));
      }
    case Punct(p) =>
      if p == CloseParen {
        CascadeKeepsNodes(Build(b.stack, DropLast(b.pending)));
      }
    case Name(n) =>
      FromNameSize(n, fieldType);
      PushKeepsNodes(b.stack, FromName(n, fieldType).value);
    case Numeral(text) =>
      ParamKeepsNodes(b, text);
    case LiteralString(text) =>
      ParamKeepsNodes(b, text);
    case OtherToken =>
  }

  /** Pushing a checker adds its nodes. */
  lemma PushKeepsNodes(cs: seq<Checker>, c: Checker)
    ensures TotalSize(cs + [c]) == TotalSize(cs) + Size(c)
  {
    assert DropLast(cs + [c]) == cs;
  }

  /** `and` and `or` add exactly their own node. */
  lemma CombineKeepsNodes(b: Build, blank: Checker)
    requires blank == Checker.And(None, None) || blank == Checker.Or(None, None)
    requires Combine(b, blank).Ok?
    ensures TotalSize(Combine(b, blank).value.stack) == TotalSize(b.stack) + 1
  {
    AddProtocol(blank, Last(b.stack));
    var node := Add(blank, Last(b.stack)).value;
    PushKeepsNodes(DropLast(b.stack), node);
    assert b.stack == DropLast(b.stack) + [Last(b.stack)];
    PushKeepsNodes(DropLast(b.stack), Last(b.stack));
  }

  lemma ParamKeepsNodes(b: Build, text: string)
    requires Param(b, text).Ok?
    ensures TotalSize(Param(b, text).value.stack) == TotalSize(b.stack)
  {
    var i := Last(b.pending);
    AddParamProtocol(b.stack[i], text);
    TotalSizeUpdate(b.stack, i, AddParam(b.stack[i], text).value);
  }

  /** Node conservation for the whole loop: the checkers built are exactly the named
      predicates and the `not`/`and`/`or` keywords of the input, each placed once. */
  lemma {:induction false} RunKeepsNodes(tokens: seq<Token>, b: Build, fieldType: string)
    requires Run(tokens, b, fieldType).Ok?
    ensures TotalSize(Run(tokens, b, fieldType).value.stack) == TotalSize(b.stack) + NodeTokens(tokens)
    decreases |tokens|
  {
    if tokens != [] {
      StepKeepsNodes(b, tokens[0], fieldType);
      RunKeepsNodes(tokens[1..], Step(b, tokens[0], fieldType).value, fieldType);
    }
  }

  /** A compiled check set holds one node per node-creating token, and every root is ready. */
  lemma CompileKeepsNodes(tokens: seq<Token>, fieldType: string)
    requires Compile(tokens, fieldType).Ok?
    ensures TotalSize(Compile(tokens, fieldType).value) == NodeTokens(tokens)
    ensures AllReady(Compile(tokens, fieldType).value)
  {
    RunKeepsNodes(tokens, Build([], []), fieldType);
  }
}
