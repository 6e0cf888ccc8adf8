/**
 Loop fuel only bounds a run: once a program has not run out of it, more fuel gives the same outcome.
 */
module FlowFuel {
  import opened Basics
  import opened FlowLanguage
  import opened FlowSemantics

  lemma EvalMore(e: Expr, w: World, cur: nat, depth: nat, fuel: nat, more: nat)
    requires !Eval(e, w, cur, depth, fuel).end.Starved?
    ensures Eval(e, w, cur, depth, fuel + more) == Eval(e, w, cur, depth, fuel)
    decreases fuel, DEPTH_MAX - depth, 0
  {
    hide EvalInner;
    if depth < DEPTH_MAX {
      EvalInnerMore(e, w, cur, depth + 1, fuel, more);
    }
  }

  lemma EvalInnerMore(e: Expr, w: World, cur: nat, depth: nat, fuel: nat, more: nat)
    requires !EvalInner(e, w, cur, depth, fuel).end.Starved?
    ensures EvalInner(e, w, cur, depth, fuel + more) == EvalInner(e, w, cur, depth, fuel)
    decreases fuel, DEPTH_MAX - depth, 5
  {
    hide Eval, EvalTwo, EvalArgs, Invoke;
    match e
    case IntLit(_) =>
    case BoolLit(_) =>
    case Name(_) =>
    case Binary(_, l, r) => EvalTwoMore(l, r, w, cur, depth, fuel, more);
    case RangeOf(l, r, _, _) => EvalTwoMore(l, r, w, cur, depth, fuel, more);
    case MakeError(_) =>
    case Unwrap(_, x) => EvalMore(x, w, cur, depth, fuel, more);
    case FuncExpr(_, _) =>
    case Call(callee, args) =>
      var f := Eval(callee, w, cur, depth, fuel);
      EvalMore(callee, w, cur, depth, fuel, more);
      if f.end.Went? {
        var vs := EvalArgs(args, [], f.w, cur, depth, fuel);
        EvalArgsMore(args, [], f.w, cur, depth, fuel, more);
        if vs.1.end.Went? {
          InvokeMore(f.end.val, vs.0, vs.1.w, depth, fuel, more);
        }
      }
    case Println(x) => EvalMore(x, w, cur, depth, fuel, more);
    case IfThenElse(_, _, _) =>
    case MatchOf(_, _) =>
  }

  lemma EvalTwoMore(l: Expr, r: Expr, w: World, cur: nat, depth: nat, fuel: nat, more: nat)
    requires !EvalTwo(l, r, w, cur, depth, fuel).1.end.Starved?
    ensures EvalTwo(l, r, w, cur, depth, fuel + more) == EvalTwo(l, r, w, cur, depth, fuel)
    decreases fuel, DEPTH_MAX - depth, 1, 0
  {
    hide Eval;
    EvalMore(l, w, cur, depth, fuel, more);
    var a := Eval(l, w, cur, depth, fuel);
    if a.end.Went? {
      EvalMore(r, a.w, cur, depth, fuel, more);
    }
  }

  lemma {:induction false} EvalArgsMore(args: seq<Expr>, done: seq<Val>, w: World, cur: nat, depth: nat, fuel: nat,
          more: nat)
    requires !EvalArgs(args, done, w, cur, depth, fuel).1.end.Starved?
    ensures EvalArgs(args, done, w, cur, depth, fuel + more) == EvalArgs(args, done, w, cur, depth, fuel)
    decreases fuel, DEPTH_MAX - depth, 1, |args|
  {
    hide Eval;
    if args != [] {
      EvalMore(args[0], w, cur, depth, fuel, more);
      var a := Eval(args[0], w, cur, depth, fuel);
      if a.end.Went? {
        EvalArgsMore(args[1..], done + [a.end.val], a.w, cur, depth, fuel, more);
      }
    }
  }

  lemma InvokeMore(f: Val, args: seq<Val>, w: World, depth: nat, fuel: nat, more: nat)
    requires !Invoke(f, args, w, depth, fuel).end.Starved?
    ensures Invoke(f, args, w, depth, fuel + more) == Invoke(f, args, w, depth, fuel)
    decreases fuel, DEPTH_MAX - depth, 3
  {
    hide Exec, ExecBlock;
    if f.FuncVal? && |args| == |f.params| {
      var w1 := Push(w, Env(Some(f.closure), Params(f.params, args)));
      if f.body.BlockOf? {
        ExecBlockMore(f.body.stmts, w1, |w.envs|, depth, fuel, more);
      } else {
        ExecMore(f.body, w1, |w.envs|, depth, fuel, more);
      }
    }
  }

  /** More fuel gives the same outcome. */
  lemma ExecMore(s: Stmt, w: World, cur: nat, depth: nat, fuel: nat, more: nat)
    requires !Exec(s, w, cur, depth, fuel).end.Starved?
    ensures Exec(s, w, cur, depth, fuel + more) == Exec(s, w, cur, depth, fuel)
    decreases fuel, DEPTH_MAX - depth, 0
  {
    hide ExecInner;
    if depth < DEPTH_MAX {
      ExecInnerMore(s, w, cur, depth + 1, fuel, more);
    }
  }

  lemma ExecInnerMore(s: Stmt, w: World, cur: nat, depth: nat, fuel: nat, more: nat)
    requires !ExecInner(s, w, cur, depth, fuel).end.Starved?
    ensures ExecInner(s, w, cur, depth, fuel + more) == ExecInner(s, w, cur, depth, fuel)
    decreases fuel, DEPTH_MAX - depth, 5
  {
    hide Eval, EvalCond, Exec, ExecList, ExecBlock, Loop, Each, ExecBare;
    match s
    case BlockOf(ss) => ExecBlockMore(ss, w, cur, depth, fuel, more);
    case ListOf(ss) => ExecListMore(ss, VoidVal, w, cur, depth, fuel, more);
    case ExprStmt(e) => EvalMore(e, w, cur, depth, fuel, more);
    case Bare(e) => ExecBareMore(e, w, cur, depth, fuel, more);
    case Var(_, init) => EvalMore(init, w, cur, depth, fuel, more);
    case Assign(name, e) =>
      if FindCell(w.envs, cur, name).Some? {
        EvalMore(e, w, cur, depth, fuel, more);
      }
    case If(cond, t, e) =>
      EvalCondMore(cond, w, cur, depth, fuel, more);
      var c := EvalCond(cond, w, cur, depth, fuel);
      if c.end == Went(BoolVal(true)) {
        ExecMore(t, c.w, cur, depth, fuel, more);
      } else if c.end.Went? && e.Some? {
        ExecMore(e.value, c.w, cur, depth, fuel, more);
      }
    case LoopUntil(_, _) => LoopMore(s, w, cur, depth, fuel, more);
    case While(_, _) => LoopMore(s, w, cur, depth, fuel, more);
    case For(name, init, _, _, _) =>
      EvalMore(init, w, cur, depth, fuel, more);
      var r := Eval(init, w, cur, depth, fuel);
      if r.end.Went? {
        LoopMore(s, Bind(r.w, cur, name, r.end.val), cur, depth, fuel, more);
      }
    case In(ordinal, name, coll, body) =>
      EvalMore(coll, w, cur, depth, fuel, more);
      var r := Eval(coll, w, cur, depth, fuel);
      if r.end.Went? && r.end.val.RangeVal? {
        EachMore(ordinal, name, Elements(r.end.val.span), body, r.w, cur, depth, fuel, more);
      }
    case Return(value) =>
      if value.Some? {
        EvalMore(value.value, w, cur, depth, fuel, more);
      }
    case Break(_) =>
    case Continue(_) =>
    case Labelled(_, body) => ExecMore(body, w, cur, depth, fuel, more);
    case Try(body) => ExecMore(body, w, cur, depth, fuel, more);
    case Region(guarded, name, handlers) =>
      ExecListMore(guarded, VoidVal, w, cur, depth, fuel, more);
      var r := ExecList(guarded, VoidVal, w, cur, depth, fuel);
      if r.end.Raised? {
        ExecListMore(handlers, VoidVal, BindOpt(r.w, cur, name, r.end.exc), cur, depth, fuel, more);
      }
  }

  lemma ExecBareMore(e: Expr, w: World, cur: nat, depth: nat, fuel: nat, more: nat)
    requires !ExecBare(e, w, cur, depth, fuel).end.Starved?
    ensures ExecBare(e, w, cur, depth, fuel + more) == ExecBare(e, w, cur, depth, fuel)
    decreases fuel, DEPTH_MAX - depth, 4
  {
    hide Eval, EvalCond, Exec, MatchArms;
    match e
    case IfThenElse(cond, t, f) =>
      EvalCondMore(cond, w, cur, depth, fuel, more);
      var c := EvalCond(cond, w, cur, depth, fuel);
      if c.end.Went? {
        ExecMore(Bare(if c.end.val == BoolVal(true) then t else f), c.w, cur, depth, fuel, more);
      }
    case MatchOf(subject, arms) =>
      EvalMore(subject, w, cur, depth, fuel, more);
      var r := Eval(subject, w, cur, depth, fuel);
      if r.end.Went? {
        MatchArmsMore(r.end.val, arms, r.w, cur, depth, fuel, more);
      }
    case _ =>
  }

  lemma {:induction false} MatchArmsMore(v: Val, arms: seq<Arm>, w: World, cur: nat, depth: nat, fuel: nat, more: nat)
    requires !MatchArms(v, arms, w, cur, depth, fuel).end.Starved?
    ensures MatchArms(v, arms, w, cur, depth, fuel + more) == MatchArms(v, arms, w, cur, depth, fuel)
    decreases fuel, DEPTH_MAX - depth, 3, |arms|
  {
    hide Exec, MatchAny;
    if arms != [] {
      MatchAnyMore(v, arms[0].pats, w, cur, depth, fuel, more);
      var m := MatchAny(v, arms[0].pats, w, cur, depth, fuel);
      if m.end == Went(BoolVal(true)) {
        ExecMore(arms[0].body, m.w, cur, depth, fuel, more);
      } else if m.end.Went? {
        MatchArmsMore(v, arms[1..], m.w, cur, depth, fuel, more);
      }
    }
  }

  lemma {:induction false} MatchAnyMore(v: Val, pats: seq<Pattern>, w: World, cur: nat, depth: nat, fuel: nat,
          more: nat)
    requires !MatchAny(v, pats, w, cur, depth, fuel).end.Starved?
    ensures MatchAny(v, pats, w, cur, depth, fuel + more) == MatchAny(v, pats, w, cur, depth, fuel)
    decreases fuel, DEPTH_MAX - depth, 2, |pats|
  {
    hide EvalCond;
    if pats != [] {
      if pats[0].GuardPat? {
        EvalCondMore(pats[0].guard, w, cur, depth, fuel, more);
      }
      var m := MatchOne(v, pats[0], w, cur, depth, fuel);
      if m.end.Went? && m.end.val != BoolVal(true) {
        MatchAnyMore(v, pats[1..], m.w, cur, depth, fuel, more);
      }
    }
  }

  lemma EvalCondMore(e: Expr, w: World, cur: nat, depth: nat, fuel: nat, more: nat)
    requires !EvalCond(e, w, cur, depth, fuel).end.Starved?
    ensures EvalCond(e, w, cur, depth, fuel + more) == EvalCond(e, w, cur, depth, fuel)
    decreases fuel, DEPTH_MAX - depth, 1
  {
    hide Eval;
    EvalMore(e, w, cur, depth, fuel, more);
  }

  lemma {:induction false} ExecListMore(ss: seq<Stmt>, last: Val, w: World, cur: nat, depth: nat, fuel: nat, more: nat)
    requires !ExecList(ss, last, w, cur, depth, fuel).end.Starved?
    ensures ExecList(ss, last, w, cur, depth, fuel + more) == ExecList(ss, last, w, cur, depth, fuel)
    decreases fuel, DEPTH_MAX - depth, 1, |ss|
  {
    hide Exec;
    if ss != [] {
      ExecMore(ss[0], w, cur, depth, fuel, more);
      var r := Exec(ss[0], w, cur, depth, fuel);
      if r.end.Went? {
        ExecListMore(ss[1..], r.end.val, r.w, cur, depth, fuel, more);
      }
    }
  }

  lemma ExecBlockMore(ss: seq<Stmt>, w: World, cur: nat, depth: nat, fuel: nat, more: nat)
    requires !ExecBlock(ss, w, cur, depth, fuel).end.Starved?
    ensures ExecBlock(ss, w, cur, depth, fuel + more) == ExecBlock(ss, w, cur, depth, fuel)
    decreases fuel, DEPTH_MAX - depth, 2, 0
  {
    hide ExecList;
    ExecListMore(ss, VoidVal, Push(w, Env(Some(cur), [])), |w.envs|, depth, fuel, more);
  }

  lemma {:induction false} LoopMore(s: Stmt, w: World, cur: nat, depth: nat, fuel: nat, more: nat)
    requires IsLoop(s) && !Loop(s, w, cur, depth, fuel).end.Starved?
    ensures Loop(s, w, cur, depth, fuel + more) == Loop(s, w, cur, depth, fuel)
    decreases fuel, DEPTH_MAX - depth, 3
  {
    hide LoopHead, LoopBody, LoopTail;
    LoopHeadMore(s, w, cur, depth, fuel, more);
    var c := LoopHead(s, w, cur, depth, fuel);
    if c.end == Went(BoolVal(true)) {
      LoopBodyMore(s, c.w, cur, depth, fuel, more);
      var r := LoopBody(s, c.w, cur, depth, fuel);
      if GoesOn(r.end) {
        LoopTailMore(s, r.w, cur, depth, fuel, more);
        var t := LoopTail(s, r.w, cur, depth, fuel);
        if t.end.Went? && t.end.val != BoolVal(true) {
          LoopMore(s, t.w, cur, depth, fuel - 1, more);
        }
      }
    }
  }

  lemma LoopHeadMore(s: Stmt, w: World, cur: nat, depth: nat, fuel: nat, more: nat)
    requires IsLoop(s) && !LoopHead(s, w, cur, depth, fuel).end.Starved?
    ensures LoopHead(s, w, cur, depth, fuel + more) == LoopHead(s, w, cur, depth, fuel)
    decreases fuel, DEPTH_MAX - depth, 2
  {
    hide EvalCond;
    match s
    case LoopUntil(_, _) =>
    case While(cond, _) => EvalCondMore(cond, w, cur, depth, fuel, more);
    case For(_, _, cond, _, _) => EvalCondMore(cond, w, cur, depth, fuel, more);
  }

  lemma LoopBodyMore(s: Stmt, w: World, cur: nat, depth: nat, fuel: nat, more: nat)
    requires IsLoop(s) && !LoopBody(s, w, cur, depth, fuel).end.Starved?
    ensures LoopBody(s, w, cur, depth, fuel + more) == LoopBody(s, w, cur, depth, fuel)
    decreases fuel, DEPTH_MAX - depth, 2, 1
  {
    hide Exec, ExecBlock;
    match s
    case LoopUntil(ss, _) => ExecBlockMore(ss, w, cur, depth, fuel, more);
    case While(_, body) => ExecMore(body, w, cur, depth, fuel, more);
    case For(_, _, _, _, body) => ExecMore(body, w, cur, depth, fuel, more);
  }

  lemma LoopTailMore(s: Stmt, w: World, cur: nat, depth: nat, fuel: nat, more: nat)
    requires IsLoop(s) && !LoopTail(s, w, cur, depth, fuel).end.Starved?
    ensures LoopTail(s, w, cur, depth, fuel + more) == LoopTail(s, w, cur, depth, fuel)
    decreases fuel, DEPTH_MAX - depth, 2, 1
  {
    hide Exec, EvalCond;
    match s
    case LoopUntil(_, until) =>
      if until.Some? {
        EvalCondMore(until.value, w, cur, depth, fuel, more);
      }
    case While(_, _) =>
    case For(_, _, _, post, _) =>
      if post.Some? {
        ExecMore(StepStmt(post.value), w, cur, depth, fuel, more);
      }
  }

  lemma {:induction false} EachMore(ordinal: Option<string>, name: string, els: seq<int>, body: Stmt, w: World,
          cur: nat, depth: nat, fuel: nat, more: nat)
    requires !Each(ordinal, name, els, body, w, cur, depth, fuel).end.Starved?
    ensures
      Each(ordinal, name, els, body, w, cur, depth, fuel + more) == Each(ordinal, name, els, body, w, cur, depth, fuel)
    decreases fuel, DEPTH_MAX - depth, 3, |els|
  {
    hide Exec, ExecBlock;
    if els != [] {
      var w1 := BindEach(w, cur, ordinal, name, els[0]);
      var r := EachBody(ordinal, name, els[0], body, w, cur, depth, fuel);
      if body.BlockOf? {
        ExecBlockMore(body.stmts, w1, cur, depth, fuel, more);
      } else {
        ExecMore(body, w1, cur, depth, fuel, more);
      }
      if GoesOn(r.end) {
        EachMore(ordinal, name, els[1..], body, r.w, cur, depth, fuel, more);
      }
    }
  }

  lemma {:induction false} TopLevelMore(items: seq<Item>, skipping: bool, w: World, fuel: nat, more: nat)
    requires !TopLevel(items, skipping, w, fuel).end.Starved?
    ensures TopLevel(items, skipping, w, fuel + more) == TopLevel(items, skipping, w, fuel)
    decreases |items|
  {
    hide Exec;
    if items != [] {
      match items[0]
      case FuncDecl(name, params, body) =>
        TopLevelMore(items[1..], skipping, BindAny(w, 0, name, FuncVal(params, body, 0)), fuel, more);
      case Loose(s) =>
        if skipping {
          TopLevelMore(items[1..], true, w, fuel, more);
        } else {
          ExecMore(s, w, 0, 0, fuel, more);
          var r := Exec(s, w, 0, 0, fuel);
          if !r.end.Raised? && !r.end.Died? && !r.end.Starved? {
            TopLevelMore(items[1..], !r.end.Went?, r.w, fuel, more);
          }
        }
    }
  }

  /** A finished run is the same for all the fuel there is: exit code or failure, and output. */
  lemma ProgramMore(items: seq<Item>, fuel: nat, more: nat)
    requires !Program(items, fuel).0.Unfinished?
    ensures Program(items, fuel + more) == Program(items, fuel)
  {
    hide TopLevel, Invoke;
    var w := World([Env(None, [])], []);
    TopLevelMore(items, false, w, fuel, more);
    var r := TopLevel(items, false, w, fuel);
    if r.end.Went? {
      var cell := FindCell(r.w.envs, 0, "main");
      var f := if cell.Some? then ReadCell(r.w, cell.value) else VoidVal;
      if f.FuncVal? {
        InvokeMore(f, [], r.w, 0, fuel, more);
      }
    }
  }
}
