/**
 The meaning of a program by structured outcomes: a statement ends normally, or returns, breaks,
 continues, raises or dies, and whoever encloses it decides what becomes of that. There is no flag, no
 catch frame and nothing to restore: scope and recursion depth are parameters.
 */
module FlowSemantics {
  import opened Basics
  import opened FlowLanguage

  const DEPTH_MAX: nat := 1024

  datatype Ending =
    | Went(val: Val)
    | Returned(val: Val)
    | Broke(target: Option<string>)
    | Continued(target: Option<string>)
    | Raised(exc: Val)
    | Died(why: Death)
    | Starved // the loop fuel ran out

  datatype Outcome = Outcome(end: Ending, w: World)

  /** The same ending without its value: only blocks, lists, expressions and definitions have one. */
  function Valueless(r: Outcome): Outcome {
    if r.end.Went? then r.(end := Went(VoidVal)) else r
  }

  /** Expressions and calls leave no return, break or continue behind. */
  predicate NoFlow(end: Ending) {
    end.Went? || end.Raised? || end.Died? || end.Starved?
  }

  // ----- expressions -----

  function Eval(e: Expr, w: World, cur: nat, depth: nat, fuel: nat): (r: Outcome)
    ensures NoFlow(r.end)
    decreases fuel, DEPTH_MAX - depth, 0
  {
    if depth >= DEPTH_MAX then Outcome(Died(RecursionLimit), w) else EvalInner(e, w, cur, depth + 1, fuel)
  }

  function EvalInner(e: Expr, w: World, cur: nat, depth: nat, fuel: nat): (r: Outcome)
    ensures NoFlow(r.end)
    decreases fuel, DEPTH_MAX - depth, 5
  {
    match e
    case IntLit(n) => Outcome(Went(IntVal(n)), w)
    case BoolLit(b) => Outcome(Went(BoolVal(b)), w)
    case Name(name) =>
      var cell := FindCell(w.envs, cur, name);
      if cell.None? then Outcome(Died(UnknownName(name)), w) else Outcome(Went(ReadCell(w, cell.value)), w)
    case Binary(op, l, r) =>
      var (a, b) := EvalTwo(l, r, w, cur, depth, fuel);
      if !b.end.Went? then b
      else
        var v := ApplyOp(op, a, b.end.val);
        Outcome(if v.None? then Died(BadOperands) else Went(v.value), b.w)
    case RangeOf(l, r, desc, incl) =>
      var (a, b) := EvalTwo(l, r, w, cur, depth, fuel);
      if !b.end.Went? then b
      else if a.IntVal? && b.end.val.IntVal? then
        Outcome(Went(RangeVal(Span(a.n, b.end.val.n, desc, incl))), b.w)
      else Outcome(Died(BadOperands), b.w)
    case MakeError(name) => Outcome(Went(ErrVal(name)), w)
    case Unwrap(hard, x) =>
      var a := Eval(x, w, cur, depth, fuel);
      if !a.end.Went? || !a.end.val.ErrVal? then a
      else Outcome(if hard then Raised(a.end.val) else Went(VoidVal), a.w)
    case FuncExpr(params, body) => Outcome(Went(FuncVal(params, body, cur)), w)
    case Call(callee, args) =>
      var f := Eval(callee, w, cur, depth, fuel);
      if !f.end.Went? then f else
        var vs := EvalArgs(args, [], f.w, cur, depth, fuel);
        if vs.1.end.Went? then Invoke(f.end.val, vs.0, vs.1.w, depth, fuel) else vs.1
    case Println(x) =>
      var a := Eval(x, w, cur, depth, fuel);
      if !a.end.Went? then a else Outcome(Went(VoidVal), a.w.(out := a.w.out + [a.end.val]))
    case IfThenElse(_, _, _) => Outcome(Died(NotAnExpression), w)
    case MatchOf(_, _) => Outcome(Died(NotAnExpression), w)
  }

  /** Two operands from left to right: the first value, and how the evaluation ended. */
  function EvalTwo(l: Expr, r: Expr, w: World, cur: nat, depth: nat, fuel: nat): (two: (Val, Outcome))
    ensures NoFlow(two.1.end)
    decreases fuel, DEPTH_MAX - depth, 1, 0
  {
    var a := Eval(l, w, cur, depth, fuel);
    if a.end.Went? then (a.end.val, Eval(r, a.w, cur, depth, fuel)) else (VoidVal, a)
  }

  /** The arguments from left to right; the result's value is not used. */
  function EvalArgs(args: seq<Expr>, done: seq<Val>, w: World, cur: nat, depth: nat, fuel: nat)
    : (r: (seq<Val>, Outcome))
    ensures NoFlow(r.1.end)
    decreases fuel, DEPTH_MAX - depth, 1, |args|
  {
    if args == [] then (done, Outcome(Went(VoidVal), w))
    else
      var a := Eval(args[0], w, cur, depth, fuel);
      if a.end.Went? then EvalArgs(args[1..], done + [a.end.val], a.w, cur, depth, fuel) else (done, a)
  }

  /** A call runs the body in a new frame below the closure; only a raise or a death leaves it. */
  function Invoke(f: Val, args: seq<Val>, w: World, depth: nat, fuel: nat): (r: Outcome)
    ensures NoFlow(r.end)
    decreases fuel, DEPTH_MAX - depth, 3
  {
    if !f.FuncVal? then Outcome(Died(NotCallable), w)
    else if |args| != |f.params| then Outcome(Died(WrongArguments), w)
    else
      var w1 := Push(w, Env(Some(f.closure), Params(f.params, args)));
      var r := if f.body.BlockOf? then ExecBlock(f.body.stmts, w1, |w.envs|, depth, fuel)
               else Exec(f.body, w1, |w.envs|, depth, fuel);
      match r.end
      case Returned(v) => Outcome(Went(v), r.w)
      case Broke(_) => Outcome(Went(VoidVal), r.w)
      case Continued(_) => Outcome(Went(VoidVal), r.w)
      case _ => r
  }

  // ----- statements -----

  function Exec(s: Stmt, w: World, cur: nat, depth: nat, fuel: nat): Outcome
    decreases fuel, DEPTH_MAX - depth, 0
  {
    if depth >= DEPTH_MAX then Outcome(Died(RecursionLimit), w) else ExecInner(s, w, cur, depth + 1, fuel)
  }

  function ExecInner(s: Stmt, w: World, cur: nat, depth: nat, fuel: nat): Outcome
    decreases fuel, DEPTH_MAX - depth, 5
  {
    match s
    case BlockOf(ss) => ExecBlock(ss, w, cur, depth, fuel)
    case ListOf(ss) => ExecList(ss, VoidVal, w, cur, depth, fuel)
    case ExprStmt(e) => Eval(e, w, cur, depth, fuel)
    case Bare(e) => ExecBare(e, w, cur, depth, fuel)
    case Var(name, init) =>
      var r := Eval(init, w, cur, depth, fuel);
      if r.end.Went? then r.(w := Bind(r.w, cur, name, r.end.val)) else r
    case Assign(name, e) =>
      var cell := FindCell(w.envs, cur, name);
      if cell.None? then Outcome(Died(UnknownName(name)), w)
      else
        var r := Eval(e, w, cur, depth, fuel);
        if r.end.Went? then Outcome(Went(VoidVal), WriteCell(r.w, cell.value, r.end.val)) else r
    case If(cond, t, e) =>
      var c := EvalCond(cond, w, cur, depth, fuel);
      if !c.end.Went? then c
      else if c.end.val == BoolVal(true) then Valueless(Exec(t, c.w, cur, depth, fuel))
      else if e.Some? then Valueless(Exec(e.value, c.w, cur, depth, fuel))
      else Outcome(Went(VoidVal), c.w)
    case LoopUntil(_, _) => Loop(s, w, cur, depth, fuel)
    case While(_, _) => Loop(s, w, cur, depth, fuel)
    case For(name, init, _, _, _) =>
      var r := Eval(init, w, cur, depth, fuel);
      if r.end.Went? then Loop(s, Bind(r.w, cur, name, r.end.val), cur, depth, fuel) else r
    case In(ordinal, name, coll, body) =>
      var r := Eval(coll, w, cur, depth, fuel);
      if !r.end.Went? then r
      else if !r.end.val.RangeVal? then Outcome(Died(NotARange), r.w)
      else Each(ordinal, name, Elements(r.end.val.span), body, r.w, cur, depth, fuel)
    case Return(None) => Outcome(Returned(VoidVal), w)
    case Return(Some(e)) =>
      var r := Eval(e, w, cur, depth, fuel);
      if r.end.Went? then r.(end := Returned(r.end.val)) else r
    case Break(target) => Outcome(Broke(target), w)
    case Continue(target) => Outcome(Continued(target), w)
    case Labelled(name, body) =>
      var r := Exec(body, w, cur, depth, fuel);
      if r.end == Broke(Some(name)) || r.end == Continued(Some(name)) then Outcome(Went(VoidVal), r.w) else Valueless(r)
    case Try(body) => Valueless(Exec(body, w, cur, depth, fuel))
    case Region(guarded, name, handlers) =>
      var r := ExecList(guarded, VoidVal, w, cur, depth, fuel);
      if r.end.Raised? then Valueless(ExecList(handlers, VoidVal, BindOpt(r.w, cur, name, r.end.exc), cur, depth, fuel))
      else Valueless(r)
  }

  /**
   An expression executed as a statement: a `match` runs an arm, an `if` hands on to one; nothing else is
   executable.
   */
  function ExecBare(e: Expr, w: World, cur: nat, depth: nat, fuel: nat): Outcome
    decreases fuel, DEPTH_MAX - depth, 4
  {
    match e
    case IfThenElse(cond, t, f) =>
      var c := EvalCond(cond, w, cur, depth, fuel);
      if !c.end.Went? then c
      else Valueless(Exec(Bare(if c.end.val == BoolVal(true) then t else f), c.w, cur, depth, fuel))
    case MatchOf(subject, arms) =>
      var r := Eval(subject, w, cur, depth, fuel);
      if r.end.Went? then MatchArms(r.end.val, arms, r.w, cur, depth, fuel) else r
    case _ => Outcome(Died(NotAStatement), w)
  }

  /** The first arm with a pattern that matches runs. */
  function MatchArms(v: Val, arms: seq<Arm>, w: World, cur: nat, depth: nat, fuel: nat): Outcome
    decreases fuel, DEPTH_MAX - depth, 3, |arms|
  {
    if arms == [] then Outcome(Died(NoArmMatches), w)
    else
      var m := MatchAny(v, arms[0].pats, w, cur, depth, fuel);
      if !m.end.Went? then m
      else if m.end.val == BoolVal(true) then Valueless(Exec(arms[0].body, m.w, cur, depth, fuel))
      else MatchArms(v, arms[1..], m.w, cur, depth, fuel)
  }

  /** Whether one of the patterns matches, as a boolean value. */
  function MatchAny(v: Val, pats: seq<Pattern>, w: World, cur: nat, depth: nat, fuel: nat): (r: Outcome)
    ensures NoFlow(r.end)
    decreases fuel, DEPTH_MAX - depth, 2, |pats|
  {
    if pats == [] then Outcome(Went(BoolVal(false)), w)
    else
      var m := MatchOne(v, pats[0], w, cur, depth, fuel);
      if !m.end.Went? || m.end.val == BoolVal(true) then m else MatchAny(v, pats[1..], m.w, cur, depth, fuel)
  }

  function MatchOne(v: Val, pat: Pattern, w: World, cur: nat, depth: nat, fuel: nat): (r: Outcome)
    ensures NoFlow(r.end)
    decreases fuel, DEPTH_MAX - depth, 2, 0
  {
    match pat
    case NamePat(name) =>
      if name == "_" then Outcome(Went(BoolVal(true)), w)
      else
        var cell := FindCell(w.envs, cur, name);
        if cell.None? then Outcome(Went(BoolVal(false)), w) else Outcome(Compared(v, ReadCell(w, cell.value)), w)
    case IntPat(n) => Outcome(Compared(v, IntVal(n)), w)
    case BoolPat(b) => Outcome(Compared(v, BoolVal(b)), w)
    case GuardPat(guard) => EvalCond(guard, w, cur, depth, fuel)
  }

  function Compared(a: Val, b: Val): (end: Ending)
    ensures NoFlow(end)
  {
    var same := SameVal(a, b);
    if same.None? then Died(BadOperands) else Went(BoolVal(same.value))
  }

  /** A condition's truth, as a boolean value. */
  function EvalCond(e: Expr, w: World, cur: nat, depth: nat, fuel: nat): (r: Outcome)
    ensures NoFlow(r.end)
    decreases fuel, DEPTH_MAX - depth, 1
  {
    var r := Eval(e, w, cur, depth, fuel);
    if !r.end.Went? then r
    else if Truth(r.end.val).None? then Outcome(Died(NotACondition), r.w)
    else Outcome(Went(BoolVal(Truth(r.end.val).value)), r.w)
  }

  /** Statements one after the other, up to the first that does not end normally. */
  function ExecList(ss: seq<Stmt>, last: Val, w: World, cur: nat, depth: nat, fuel: nat): Outcome
    decreases fuel, DEPTH_MAX - depth, 1, |ss|
  {
    if ss == [] then Outcome(Went(last), w)
    else
      var r := Exec(ss[0], w, cur, depth, fuel);
      if r.end.Went? then ExecList(ss[1..], r.end.val, r.w, cur, depth, fuel) else r
  }

  /** A block runs in a frame of its own. */
  function ExecBlock(ss: seq<Stmt>, w: World, cur: nat, depth: nat, fuel: nat): Outcome
    decreases fuel, DEPTH_MAX - depth, 2, 0
  {
    ExecList(ss, VoidVal, Push(w, Env(Some(cur), [])), |w.envs|, depth, fuel)
  }

  /** A loop's body ended so that the loop goes on. */
  predicate GoesOn(end: Ending) {
    end.Went? || end == Continued(None)
  }

  /** How a loop ends whose body ended so that it does not go on: its own break is over with it. */
  function LoopEnd(r: Outcome): Outcome {
    if r.end == Broke(None) then Outcome(Went(VoidVal), r.w) else r
  }

  predicate IsLoop(s: Stmt) {
    s.LoopUntil? || s.While? || s.For?
  }

  /** One iteration and the rest. */
  function Loop(s: Stmt, w: World, cur: nat, depth: nat, fuel: nat): Outcome
    requires IsLoop(s)
    decreases fuel, DEPTH_MAX - depth, 3
  {
    if fuel == 0 then Outcome(Starved, w)
    else
      var c := LoopHead(s, w, cur, depth, fuel);
      if !c.end.Went? then c
      else if c.end.val != BoolVal(true) then Outcome(Went(VoidVal), c.w)
      else
        var r := LoopBody(s, c.w, cur, depth, fuel);
        if !GoesOn(r.end) then LoopEnd(r)
        else
          var t := LoopTail(s, r.w, cur, depth, fuel);
          if !t.end.Went? then t
          else if t.end.val == BoolVal(true) then Outcome(Went(VoidVal), t.w)
          else Loop(s, t.w, cur, depth, fuel - 1)
  }

  /** The condition before the body. */
  function LoopHead(s: Stmt, w: World, cur: nat, depth: nat, fuel: nat): Outcome
    requires IsLoop(s)
    decreases fuel, DEPTH_MAX - depth, 2
  {
    match s
    case LoopUntil(_, _) => Outcome(Went(BoolVal(true)), w)
    case While(cond, _) => EvalCond(cond, w, cur, depth, fuel)
    case For(_, _, cond, _, _) => EvalCond(cond, w, cur, depth, fuel)
  }

  function LoopBody(s: Stmt, w: World, cur: nat, depth: nat, fuel: nat): Outcome
    requires IsLoop(s)
    decreases fuel, DEPTH_MAX - depth, 2, 1
  {
    match s
    case LoopUntil(ss, _) => ExecBlock(ss, w, cur, depth, fuel)
    case While(_, body) => Exec(body, w, cur, depth, fuel)
    case For(_, _, _, _, body) => Exec(body, w, cur, depth, fuel)
  }

  /**
   What comes after the body: the `until` condition, or the step of a counting loop. A step that
   returns, breaks or continues leaves the next condition nothing to test.
   */
  function LoopTail(s: Stmt, w: World, cur: nat, depth: nat, fuel: nat): Outcome
    requires IsLoop(s)
    decreases fuel, DEPTH_MAX - depth, 2, 1
  {
    match s
    case LoopUntil(_, until) =>
      if until.Some? then EvalCond(until.value, w, cur, depth, fuel) else Outcome(Went(BoolVal(false)), w)
    case While(_, _) => Outcome(Went(BoolVal(false)), w)
    case For(_, _, _, post, _) =>
      if post.None? then Outcome(Went(BoolVal(false)), w)
      else
        var r := Exec(StepStmt(post.value), w, cur, depth, fuel);
        if r.end.Returned? || r.end.Broke? || r.end.Continued? then Outcome(Died(NotACondition), r.w) else Valueless(r)
  }

  /** A loop over the integers of a range, each bound in the current frame. */
  function Each(ordinal: Option<string>, name: string, els: seq<int>, body: Stmt, w: World, cur: nat, depth: nat,
          fuel: nat): Outcome
    decreases fuel, DEPTH_MAX - depth, 3, |els|
  {
    if els == [] then Outcome(Went(VoidVal), w)
    else
      var r := EachBody(ordinal, name, els[0], body, w, cur, depth, fuel);
      if GoesOn(r.end) then Each(ordinal, name, els[1..], body, r.w, cur, depth, fuel) else LoopEnd(r)
  }

  function EachBody(ordinal: Option<string>, name: string, i: int, body: Stmt, w: World, cur: nat, depth: nat,
          fuel: nat): Outcome
    decreases fuel, DEPTH_MAX - depth, 3, 0
  {
    var w1 := BindEach(w, cur, ordinal, name, i);
    if body.BlockOf? then ExecBlock(body.stmts, w1, cur, depth, fuel) else Exec(body, w1, cur, depth, fuel)
  }

  // ----- whole programs -----

  datatype Exit = Code(n: int) | Failed(why: Death) | Unfinished

  /** The top level: declarations are bound; once a loose statement breaks out, the later ones are skipped. */
  function TopLevel(items: seq<Item>, skipping: bool, w: World, fuel: nat): Outcome
    decreases |items|
  {
    if items == [] then Outcome(Went(VoidVal), w)
    else
      match items[0]
      case FuncDecl(name, params, body) =>
        TopLevel(items[1..], skipping, BindAny(w, 0, name, FuncVal(params, body, 0)), fuel)
      case Loose(s) =>
        if skipping then TopLevel(items[1..], true, w, fuel)
        else
          var r := Exec(s, w, 0, 0, fuel);
          if r.end.Raised? || r.end.Died? || r.end.Starved? then r
          else TopLevel(items[1..], !r.end.Went?, r.w, fuel)
  }

  /** Then `main` is called, if there is one. */
  function Program(items: seq<Item>, fuel: nat): (Exit, seq<Val>) {
    var r := TopLevel(items, false, World([Env(None, [])], []), fuel);
    if !r.end.Went? then (ExitOf(r.end), r.w.out)
    else
      var cell := FindCell(r.w.envs, 0, "main");
      var f := if cell.Some? then ReadCell(r.w, cell.value) else VoidVal;
      if !f.FuncVal? then (Code(0), r.w.out)
      else
        var r' := Invoke(f, [], r.w, 0, fuel);
        (ExitOf(r'.end), r'.w.out)
  }

  function ExitOf(end: Ending): Exit {
    match end
    case Went(v) => Code(if v.IntVal? then v.n else 0)
    case Raised(x) => Failed(Uncaught(x))
    case Died(why) => Failed(why)
    case Starved => Unfinished
    case _ => Code(0)
  }
}
