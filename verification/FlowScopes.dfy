/**
 Lexical scope over every run of the older interpreter (bootstrap-olg/exec.c:211-236, 1988-2048): frames hang
 below older ones for ever, every closure names a frame that exists, no binding moves or goes away, and
 nothing that was printed is taken back. So the chain of frames that a function's names are looked up in is the
 one it was made in, however it is called.
 */
module FlowScopes {
  import opened Basics
  import opened FlowLanguage
  import opened FlowSemantics
  import opened FlowLaws

  /** A closure's frame exists. */
  predicate Fits(v: Val, n: nat) {
    v.FuncVal? ==> v.closure < n
  }

  predicate Sound(w: World) {
    forall i :: 0 <= i < |w.envs| ==> FrameFits(w.envs[i], i, |w.envs|)
  }

  predicate FrameFits(env: Env, i: nat, n: nat) {
    && (env.parent.Some? ==> env.parent.value < i)
    && forall k :: 0 <= k < |env.bindings| ==> Fits(env.bindings[k].val, n)
  }

  /** Later in a run: frames and bindings stay where they are, and so does the output. */
  predicate Grows(w: World, w': World) {
    && |w.envs| <= |w'.envs| && w.out <= w'.out
    && forall i :: 0 <= i < |w.envs| ==> Keeps(w.envs[i], w'.envs[i])
  }

  predicate Keeps(env: Env, env': Env) {
    && env'.parent == env.parent && |env.bindings| <= |env'.bindings|
    && forall k :: 0 <= k < |env.bindings| ==> env'.bindings[k].name == env.bindings[k].name
  }

  predicate EndFits(end: Ending, n: nat) {
    match end
    case Went(v) => Fits(v, n)
    case Returned(v) => Fits(v, n)
    case Raised(v) => Fits(v, n)
    case _ => true
  }

  /** What every step of a run keeps. */
  predicate Good(w: World, r: Outcome) {
    Sound(r.w) && Grows(w, r.w) && EndFits(r.end, |r.w.envs|)
  }

  // ----- single steps -----

  lemma GoodHere(w: World, end: Ending)
    requires Sound(w) && EndFits(end, |w.envs|)
    ensures Good(w, Outcome(end, w))
  {
  }

  lemma GrowsOn(w: World, w1: World, w2: World)
    requires Grows(w, w1) && Grows(w1, w2)
    ensures Grows(w, w2)
  {
    forall i | 0 <= i < |w.envs|
      ensures Keeps(w.envs[i], w2.envs[i])
    {
      assert Keeps(w.envs[i], w1.envs[i]) && Keeps(w1.envs[i], w2.envs[i]);
    }
  }

  lemma GoodOn(w: World, w1: World, r: Outcome)
    requires Grows(w, w1) && Good(w1, r)
    ensures Good(w, r)
  {
    hide Grows, Sound;
    GrowsOn(w, w1, r.w);
  }

  lemma FitsOn(v: Val, w: World, w1: World)
    requires Fits(v, |w.envs|) && Grows(w, w1)
    ensures Fits(v, |w1.envs|)
  {
  }

  lemma BindAnySound(w: World, cur: nat, name: string, v: Val)
    requires Sound(w) && Fits(v, |w.envs|)
    ensures Sound(BindAny(w, cur, name, v)) && Grows(w, BindAny(w, cur, name, v))
    ensures |BindAny(w, cur, name, v).envs| == |w.envs|
  {
    var w' := BindAny(w, cur, name, v);
    forall i | 0 <= i < |w'.envs|
      ensures FrameFits(w'.envs[i], i, |w'.envs|) && Keeps(w.envs[i], w'.envs[i])
    {
      assert FrameFits(w.envs[i], i, |w.envs|);
    }
  }

  lemma BindSound(w: World, cur: nat, name: string, v: Val)
    requires Sound(w) && Fits(v, |w.envs|)
    ensures Sound(Bind(w, cur, name, v)) && Grows(w, Bind(w, cur, name, v))
    ensures |Bind(w, cur, name, v).envs| == |w.envs|
  {
    hide BindAny, Sound;
    BindAnySound(w, cur, name, v);
    GrowsSame(w);
  }

  lemma GrowsSame(w: World)
    ensures Grows(w, w)
  {
  }

  lemma WriteSound(w: World, c: Cell, v: Val)
    requires Sound(w) && Fits(v, |w.envs|)
    ensures Sound(WriteCell(w, c, v)) && Grows(w, WriteCell(w, c, v))
    ensures |WriteCell(w, c, v).envs| == |w.envs|
  {
    var w' := WriteCell(w, c, v);
    forall i | 0 <= i < |w'.envs|
      ensures FrameFits(w'.envs[i], i, |w'.envs|) && Keeps(w.envs[i], w'.envs[i])
    {
      assert FrameFits(w.envs[i], i, |w.envs|);
    }
  }

  lemma ReadFits(w: World, c: Cell)
    requires Sound(w)
    ensures Fits(ReadCell(w, c), |w.envs|)
  {
    if HasCell(w, c) {
      assert FrameFits(w.envs[c.env], c.env, |w.envs|);
    }
  }

  lemma PushSound(w: World, env: Env)
    requires Sound(w) && FrameFits(env, |w.envs|, |w.envs| + 1)
    ensures Sound(Push(w, env)) && Grows(w, Push(w, env)) && |Push(w, env).envs| == |w.envs| + 1
  {
    var w' := Push(w, env);
    forall i | 0 <= i < |w'.envs|
      ensures FrameFits(w'.envs[i], i, |w'.envs|)
    {
      if i < |w.envs| {
        assert FrameFits(w.envs[i], i, |w.envs|);
      }
    }
  }

  lemma {:induction false} ParamsFit(params: seq<string>, args: seq<Val>, n: nat)
    requires |params| == |args| && forall i :: 0 <= i < |args| ==> Fits(args[i], n)
    ensures forall k :: 0 <= k < |Params(params, args)| ==> Fits(Params(params, args)[k].val, n)
  {
    if params != [] {
      ParamsFit(params[1..], args[1..], n);
    }
  }

  lemma PrintSound(w: World, v: Val)
    requires Sound(w)
    ensures Sound(w.(out := w.out + [v])) && Grows(w, w.(out := w.out + [v]))
  {
  }

  // ----- every step of a run -----

  lemma {:induction false} EvalGood(e: Expr, w: World, cur: nat, depth: nat, fuel: nat)
    requires Sound(w) && cur < |w.envs|
    ensures Good(w, Eval(e, w, cur, depth, fuel))
    decreases fuel, DEPTH_MAX - depth, 0
  {
    hide EvalInner, Sound, Good;
    GoodHere(w, Died(RecursionLimit));
    if depth < DEPTH_MAX {
      EvalInnerGood(e, w, cur, depth + 1, fuel);
    }
  }

  lemma {:induction false} EvalInnerGood(e: Expr, w: World, cur: nat, depth: nat, fuel: nat)
    requires Sound(w) && cur < |w.envs|
    ensures Good(w, EvalInner(e, w, cur, depth, fuel))
    decreases fuel, DEPTH_MAX - depth, 5
  {
    hide Eval, EvalTwo, EvalArgs, Invoke, FindCell, ReadCell, Sound, Grows;
    GrowsSame(w);
    match e
    case IntLit(_) =>
    case BoolLit(_) =>
    case Name(name) =>
      var cell := FindCell(w.envs, cur, name);
      if cell.Some? {
        ReadFits(w, cell.value);
      }
    case Binary(_, l, r) => EvalTwoGood(l, r, w, cur, depth, fuel);
    case RangeOf(l, r, _, _) => EvalTwoGood(l, r, w, cur, depth, fuel);
    case MakeError(_) =>
    case Unwrap(_, x) => EvalGood(x, w, cur, depth, fuel);
    case FuncExpr(_, _) =>
    case Call(callee, args) => CallGood(callee, args, w, cur, depth, fuel);
    case Println(x) =>
      EvalGood(x, w, cur, depth, fuel);
      var a := Eval(x, w, cur, depth, fuel);
      if a.end.Went? {
        PrintSound(a.w, a.end.val);
        GrowsOn(w, a.w, a.w.(out := a.w.out + [a.end.val]));
      }
    case IfThenElse(_, _, _) =>
    case MatchOf(_, _) =>
  }

  lemma {:induction false} CallGood(callee: Expr, args: seq<Expr>, w: World, cur: nat, depth: nat, fuel: nat)
    requires Sound(w) && cur < |w.envs|
    ensures Good(w, EvalInner(Call(callee, args), w, cur, depth, fuel))
    decreases fuel, DEPTH_MAX - depth, 4
  {
    hide Eval, EvalArgs, Invoke, Sound;
    EvalGood(callee, w, cur, depth, fuel);
    var f := Eval(callee, w, cur, depth, fuel);
    if f.end.Went? {
      EvalArgsGood(args, [], f.w, cur, depth, fuel);
      var vs := EvalArgs(args, [], f.w, cur, depth, fuel);
      hide Grows;
      GoodOn(w, f.w, vs.1);
      if vs.1.end.Went? {
        FitsOn(f.end.val, f.w, vs.1.w);
        InvokeGood(f.end.val, vs.0, vs.1.w, depth, fuel);
        GoodOn(w, vs.1.w, Invoke(f.end.val, vs.0, vs.1.w, depth, fuel));
      }
    }
  }

  lemma {:induction false} EvalTwoGood(l: Expr, r: Expr, w: World, cur: nat, depth: nat, fuel: nat)
    requires Sound(w) && cur < |w.envs|
    ensures Good(w, EvalTwo(l, r, w, cur, depth, fuel).1)
    decreases fuel, DEPTH_MAX - depth, 1, 0
  {
    hide Eval, Sound;
    EvalGood(l, w, cur, depth, fuel);
    var a := Eval(l, w, cur, depth, fuel);
    if a.end.Went? {
      EvalGood(r, a.w, cur, depth, fuel);
      GoodOn(w, a.w, Eval(r, a.w, cur, depth, fuel));
    }
  }

  lemma {:induction false} EvalArgsGood(args: seq<Expr>, done: seq<Val>, w: World, cur: nat, depth: nat, fuel: nat)
    requires Sound(w) && cur < |w.envs| && forall i :: 0 <= i < |done| ==> Fits(done[i], |w.envs|)
    ensures
      var (vs, r) := EvalArgs(args, done, w, cur, depth, fuel);
      Good(w, r) && forall i :: 0 <= i < |vs| ==> Fits(vs[i], |r.w.envs|)
    decreases fuel, DEPTH_MAX - depth, 1, |args|
  {
    hide Eval, Sound;
    GoodHere(w, Went(VoidVal));
    if args != [] {
      EvalGood(args[0], w, cur, depth, fuel);
      var a := Eval(args[0], w, cur, depth, fuel);
      if a.end.Went? {
        EvalArgsGood(args[1..], done + [a.end.val], a.w, cur, depth, fuel);
        GoodOn(w, a.w, EvalArgs(args[1..], done + [a.end.val], a.w, cur, depth, fuel).1);
      }
    }
  }

  lemma {:induction false} InvokeGood(f: Val, args: seq<Val>, w: World, depth: nat, fuel: nat)
    requires Sound(w) && Fits(f, |w.envs|) && forall i :: 0 <= i < |args| ==> Fits(args[i], |w.envs|)
    ensures Good(w, Invoke(f, args, w, depth, fuel))
    decreases fuel, DEPTH_MAX - depth, 3
  {
    hide Exec, ExecBlock, Sound, Grows, Params;
    GrowsSame(w);
    if f.FuncVal? && |args| == |f.params| {
      var env := Env(Some(f.closure), Params(f.params, args));
      ParamsFit(f.params, args, |w.envs| + 1);
      PushSound(w, env);
      var w1 := Push(w, env);
      if f.body.BlockOf? {
        ExecBlockGood(f.body.stmts, w1, |w.envs|, depth, fuel);
        GoodOn(w, w1, ExecBlock(f.body.stmts, w1, |w.envs|, depth, fuel));
      } else {
        ExecGood(f.body, w1, |w.envs|, depth, fuel);
        GoodOn(w, w1, Exec(f.body, w1, |w.envs|, depth, fuel));
      }
    }
  }

  lemma {:induction false} ExecGood(s: Stmt, w: World, cur: nat, depth: nat, fuel: nat)
    requires Sound(w) && cur < |w.envs|
    ensures Good(w, Exec(s, w, cur, depth, fuel))
    decreases fuel, DEPTH_MAX - depth, 0
  {
    hide ExecInner, Sound, Good;
    GoodHere(w, Died(RecursionLimit));
    if depth < DEPTH_MAX {
      ExecInnerGood(s, w, cur, depth + 1, fuel);
    }
  }

  lemma ValuelessGood(w: World, r: Outcome)
    requires Good(w, r)
    ensures Good(w, Valueless(r))
  {
    hide Sound, Grows;
  }

  lemma {:induction false} ExecInnerGood(s: Stmt, w: World, cur: nat, depth: nat, fuel: nat)
    requires Sound(w) && cur < |w.envs|
    ensures Good(w, ExecInner(s, w, cur, depth, fuel))
    decreases fuel, DEPTH_MAX - depth, 5
  {
    hide Eval, EvalCond, Exec, ExecList, ExecBlock, Loop, Each, ExecBare, Sound, Grows, Bind, FindCell, WriteCell;
    GrowsSame(w);
    match s
    case BlockOf(ss) => ExecBlockGood(ss, w, cur, depth, fuel);
    case ListOf(ss) => ExecListGood(ss, VoidVal, w, cur, depth, fuel);
    case ExprStmt(e) => EvalGood(e, w, cur, depth, fuel);
    case Bare(e) => ExecBareGood(e, w, cur, depth, fuel);
    case Var(name, init) =>
      EvalGood(init, w, cur, depth, fuel);
      var r := Eval(init, w, cur, depth, fuel);
      if r.end.Went? {
        BindSound(r.w, cur, name, r.end.val);
        GrowsOn(w, r.w, Bind(r.w, cur, name, r.end.val));
      }
    case Assign(name, e) =>
      EvalGood(e, w, cur, depth, fuel);
      var cell, r := FindCell(w.envs, cur, name), Eval(e, w, cur, depth, fuel);
      if cell.Some? && r.end.Went? {
        WriteSound(r.w, cell.value, r.end.val);
        GrowsOn(w, r.w, WriteCell(r.w, cell.value, r.end.val));
      }
    case If(_, _, _) => IfGood(s, w, cur, depth, fuel);
    case LoopUntil(_, _) => LoopGood(s, w, cur, depth, fuel);
    case While(_, _) => LoopGood(s, w, cur, depth, fuel);
    case For(_, _, _, _, _) => ForGood(s, w, cur, depth, fuel);
    case In(_, _, _, _) => InGood(s, w, cur, depth, fuel);
    case Return(value) =>
      if value.Some? {
        EvalGood(value.value, w, cur, depth, fuel);
      }
    case Break(_) =>
    case Continue(_) =>
    case Labelled(_, body) => ExecGood(body, w, cur, depth, fuel);
    case Try(body) => ExecGood(body, w, cur, depth, fuel);
    case Region(_, _, _) => RegionGood(s, w, cur, depth, fuel);
  }

  lemma {:induction false} IfGood(s: Stmt, w: World, cur: nat, depth: nat, fuel: nat)
    requires s.If? && Sound(w) && cur < |w.envs|
    ensures Good(w, ExecInner(s, w, cur, depth, fuel))
    decreases fuel, DEPTH_MAX - depth, 4
  {
    hide EvalCond, Exec, Sound;
    EvalCondGood(s.cond, w, cur, depth, fuel);
    var c := EvalCond(s.cond, w, cur, depth, fuel);
    if c.end == Went(BoolVal(true)) {
      ExecGood(s.thenArm, c.w, cur, depth, fuel);
      GoodOn(w, c.w, Exec(s.thenArm, c.w, cur, depth, fuel));
    } else if c.end.Went? && s.elseArm.Some? {
      ExecGood(s.elseArm.value, c.w, cur, depth, fuel);
      GoodOn(w, c.w, Exec(s.elseArm.value, c.w, cur, depth, fuel));
    }
  }

  lemma {:induction false} ForGood(s: Stmt, w: World, cur: nat, depth: nat, fuel: nat)
    requires s.For? && Sound(w) && cur < |w.envs|
    ensures Good(w, ExecInner(s, w, cur, depth, fuel))
    decreases fuel, DEPTH_MAX - depth, 4
  {
    hide Eval, Loop, Sound, Grows, Bind;
    EvalGood(s.init, w, cur, depth, fuel);
    var r := Eval(s.init, w, cur, depth, fuel);
    if r.end.Went? {
      var w1 := Bind(r.w, cur, s.name, r.end.val);
      BindSound(r.w, cur, s.name, r.end.val);
      GrowsOn(w, r.w, w1);
      FitsOn(FuncVal([], s, cur), w, w1);
      LoopGood(s, w1, cur, depth, fuel);
      GoodOn(w, w1, Loop(s, w1, cur, depth, fuel));
    }
  }

  lemma {:induction false} InGood(s: Stmt, w: World, cur: nat, depth: nat, fuel: nat)
    requires s.In? && Sound(w) && cur < |w.envs|
    ensures Good(w, ExecInner(s, w, cur, depth, fuel))
    decreases fuel, DEPTH_MAX - depth, 4
  {
    hide Eval, Each, Sound, Elements;
    EvalGood(s.coll, w, cur, depth, fuel);
    var r := Eval(s.coll, w, cur, depth, fuel);
    if r.end.Went? && r.end.val.RangeVal? {
      EachGood(s.ordinal, s.name, Elements(r.end.val.span), s.body, r.w, cur, depth, fuel);
      GoodOn(w, r.w, Each(s.ordinal, s.name, Elements(r.end.val.span), s.body, r.w, cur, depth, fuel));
    }
  }

  lemma {:induction false} RegionGood(s: Stmt, w: World, cur: nat, depth: nat, fuel: nat)
    requires s.Region? && Sound(w) && cur < |w.envs|
    ensures Good(w, ExecInner(s, w, cur, depth, fuel))
    decreases fuel, DEPTH_MAX - depth, 4
  {
    hide ExecList, Sound, Grows, BindAny;
    ExecListGood(s.guarded, VoidVal, w, cur, depth, fuel);
    var r := ExecList(s.guarded, VoidVal, w, cur, depth, fuel);
    if r.end.Raised? {
      var w1 := BindOpt(r.w, cur, s.catchName, r.end.exc);
      GrowsSame(r.w);
      if s.catchName.Some? {
        BindAnySound(r.w, cur, s.catchName.value, r.end.exc);
      }
      GrowsOn(w, r.w, w1);
      FitsOn(FuncVal([], s, cur), w, w1);
      ExecListGood(s.handlers, VoidVal, w1, cur, depth, fuel);
      GoodOn(w, w1, ExecList(s.handlers, VoidVal, w1, cur, depth, fuel));
    }
  }

  lemma {:induction false} ExecBareGood(e: Expr, w: World, cur: nat, depth: nat, fuel: nat)
    requires Sound(w) && cur < |w.envs|
    ensures Good(w, ExecBare(e, w, cur, depth, fuel))
    decreases fuel, DEPTH_MAX - depth, 4
  {
    hide Eval, EvalCond, Exec, MatchArms, Sound;
    GrowsSame(w);
    match e
    case IfThenElse(cond, t, f) =>
      EvalCondGood(cond, w, cur, depth, fuel);
      var c := EvalCond(cond, w, cur, depth, fuel);
      if c.end.Went? {
        var arm := Bare(if c.end.val == BoolVal(true) then t else f);
        ExecGood(arm, c.w, cur, depth, fuel);
        GoodOn(w, c.w, Exec(arm, c.w, cur, depth, fuel));
      }
    case MatchOf(subject, arms) =>
      EvalGood(subject, w, cur, depth, fuel);
      var r := Eval(subject, w, cur, depth, fuel);
      if r.end.Went? {
        MatchArmsGood(r.end.val, arms, r.w, cur, depth, fuel);
        GoodOn(w, r.w, MatchArms(r.end.val, arms, r.w, cur, depth, fuel));
      }
    case _ =>
  }

  lemma {:induction false} MatchArmsGood(v: Val, arms: seq<Arm>, w: World, cur: nat, depth: nat, fuel: nat)
    requires Sound(w) && cur < |w.envs|
    ensures Good(w, MatchArms(v, arms, w, cur, depth, fuel))
    decreases fuel, DEPTH_MAX - depth, 3, |arms|
  {
    hide Exec, MatchAny, Sound;
    GrowsSame(w);
    if arms != [] {
      MatchAnyGood(v, arms[0].pats, w, cur, depth, fuel);
      var m := MatchAny(v, arms[0].pats, w, cur, depth, fuel);
      if m.end == Went(BoolVal(true)) {
        ExecGood(arms[0].body, m.w, cur, depth, fuel);
        GoodOn(w, m.w, Exec(arms[0].body, m.w, cur, depth, fuel));
      } else if m.end.Went? {
        MatchArmsGood(v, arms[1..], m.w, cur, depth, fuel);
        GoodOn(w, m.w, MatchArms(v, arms[1..], m.w, cur, depth, fuel));
      }
    }
  }

  lemma {:induction false} MatchAnyGood(v: Val, pats: seq<Pattern>, w: World, cur: nat, depth: nat, fuel: nat)
    requires Sound(w) && cur < |w.envs|
    ensures Good(w, MatchAny(v, pats, w, cur, depth, fuel))
    decreases fuel, DEPTH_MAX - depth, 2, |pats|
  {
    hide EvalCond, Sound, FindCell, ReadCell;
    GrowsSame(w);
    if pats != [] {
      if pats[0].GuardPat? {
        EvalCondGood(pats[0].guard, w, cur, depth, fuel);
      }
      var m := MatchOne(v, pats[0], w, cur, depth, fuel);
      if m.end.Went? && m.end.val != BoolVal(true) {
        MatchAnyGood(v, pats[1..], m.w, cur, depth, fuel);
        GoodOn(w, m.w, MatchAny(v, pats[1..], m.w, cur, depth, fuel));
      }
    }
  }

  lemma {:induction false} EvalCondGood(e: Expr, w: World, cur: nat, depth: nat, fuel: nat)
    requires Sound(w) && cur < |w.envs|
    ensures Good(w, EvalCond(e, w, cur, depth, fuel))
    decreases fuel, DEPTH_MAX - depth, 1
  {
    hide Eval, Sound;
    EvalGood(e, w, cur, depth, fuel);
  }

  lemma {:induction false} ExecListGood(ss: seq<Stmt>, last: Val, w: World, cur: nat, depth: nat, fuel: nat)
    requires Sound(w) && cur < |w.envs| && Fits(last, |w.envs|)
    ensures Good(w, ExecList(ss, last, w, cur, depth, fuel))
    decreases fuel, DEPTH_MAX - depth, 1, |ss|
  {
    hide Exec, Sound;
    GrowsSame(w);
    if ss != [] {
      ExecGood(ss[0], w, cur, depth, fuel);
      var r := Exec(ss[0], w, cur, depth, fuel);
      if r.end.Went? {
        ExecListGood(ss[1..], r.end.val, r.w, cur, depth, fuel);
        GoodOn(w, r.w, ExecList(ss[1..], r.end.val, r.w, cur, depth, fuel));
      }
    }
  }

  lemma {:induction false} ExecBlockGood(ss: seq<Stmt>, w: World, cur: nat, depth: nat, fuel: nat)
    requires Sound(w) && cur < |w.envs|
    ensures Good(w, ExecBlock(ss, w, cur, depth, fuel))
    decreases fuel, DEPTH_MAX - depth, 2, 0
  {
    hide ExecList, Sound, Grows;
    var w1 := Push(w, Env(Some(cur), []));
    PushSound(w, Env(Some(cur), []));
    ExecListGood(ss, VoidVal, w1, |w.envs|, depth, fuel);
    GoodOn(w, w1, ExecList(ss, VoidVal, w1, |w.envs|, depth, fuel));
  }

  lemma {:induction false} LoopGood(s: Stmt, w: World, cur: nat, depth: nat, fuel: nat)
    requires IsLoop(s) && Sound(w) && cur < |w.envs|
    ensures Good(w, Loop(s, w, cur, depth, fuel))
    decreases fuel, DEPTH_MAX - depth, 3
  {
    hide LoopHead, LoopBody, LoopTail, Sound;
    GrowsSame(w);
    if fuel > 0 {
      LoopHeadGood(s, w, cur, depth, fuel);
      var c := LoopHead(s, w, cur, depth, fuel);
      if c.end == Went(BoolVal(true)) {
        LoopBodyGood(s, c.w, cur, depth, fuel);
        var r := LoopBody(s, c.w, cur, depth, fuel);
        GoodOn(w, c.w, r);
        if GoesOn(r.end) {
          LoopTailGood(s, r.w, cur, depth, fuel);
          var t := LoopTail(s, r.w, cur, depth, fuel);
          GoodOn(w, r.w, t);
          if t.end.Went? && t.end.val != BoolVal(true) {
            LoopGood(s, t.w, cur, depth, fuel - 1);
            GoodOn(w, t.w, Loop(s, t.w, cur, depth, fuel - 1));
          }
        }
      }
    }
  }

  lemma {:induction false} LoopHeadGood(s: Stmt, w: World, cur: nat, depth: nat, fuel: nat)
    requires IsLoop(s) && Sound(w) && cur < |w.envs|
    ensures Good(w, LoopHead(s, w, cur, depth, fuel))
    decreases fuel, DEPTH_MAX - depth, 2
  {
    hide EvalCond, Sound;
    GrowsSame(w);
    match s
    case LoopUntil(_, _) =>
    case While(cond, _) => EvalCondGood(cond, w, cur, depth, fuel);
    case For(_, _, cond, _, _) => EvalCondGood(cond, w, cur, depth, fuel);
  }

  lemma {:induction false} LoopBodyGood(s: Stmt, w: World, cur: nat, depth: nat, fuel: nat)
    requires IsLoop(s) && Sound(w) && cur < |w.envs|
    ensures Good(w, LoopBody(s, w, cur, depth, fuel))
    decreases fuel, DEPTH_MAX - depth, 2, 1
  {
    hide Exec, ExecBlock, Sound;
    match s
    case LoopUntil(ss, _) => ExecBlockGood(ss, w, cur, depth, fuel);
    case While(_, body) => ExecGood(body, w, cur, depth, fuel);
    case For(_, _, _, _, body) => ExecGood(body, w, cur, depth, fuel);
  }

  lemma {:induction false} LoopTailGood(s: Stmt, w: World, cur: nat, depth: nat, fuel: nat)
    requires IsLoop(s) && Sound(w) && cur < |w.envs|
    ensures Good(w, LoopTail(s, w, cur, depth, fuel))
    decreases fuel, DEPTH_MAX - depth, 2, 1
  {
    hide Exec, EvalCond, Sound;
    GrowsSame(w);
    match s
    case LoopUntil(_, until) =>
      if until.Some? {
        EvalCondGood(until.value, w, cur, depth, fuel);
      }
    case While(_, _) =>
    case For(_, _, _, post, _) =>
      if post.Some? {
        ExecGood(StepStmt(post.value), w, cur, depth, fuel);
      }
  }

  lemma {:induction false} EachGood(ordinal: Option<string>, name: string, els: seq<int>, body: Stmt, w: World,
          cur: nat, depth: nat, fuel: nat)
    requires Sound(w) && cur < |w.envs|
    ensures Good(w, Each(ordinal, name, els, body, w, cur, depth, fuel))
    decreases fuel, DEPTH_MAX - depth, 3, |els|
  {
    hide EachBody, Sound;
    GrowsSame(w);
    if els != [] {
      EachBodyGood(ordinal, name, els[0], body, w, cur, depth, fuel);
      var r := EachBody(ordinal, name, els[0], body, w, cur, depth, fuel);
      if GoesOn(r.end) {
        EachGood(ordinal, name, els[1..], body, r.w, cur, depth, fuel);
        GoodOn(w, r.w, Each(ordinal, name, els[1..], body, r.w, cur, depth, fuel));
      }
    }
  }

  lemma {:induction false} EachBodyGood(ordinal: Option<string>, name: string, i: int, body: Stmt, w: World,
          cur: nat, depth: nat, fuel: nat)
    requires Sound(w) && cur < |w.envs|
    ensures Good(w, EachBody(ordinal, name, i, body, w, cur, depth, fuel))
    decreases fuel, DEPTH_MAX - depth, 3, 0
  {
    hide Exec, ExecBlock, Sound, Grows, BindAny, Bind;
    var w0 := BindOpt(w, cur, ordinal, IntVal(i));
    GrowsSame(w);
    if ordinal.Some? {
      BindAnySound(w, cur, ordinal.value, IntVal(i));
    }
    var w1 := Bind(w0, cur, name, IntVal(i));
    BindSound(w0, cur, name, IntVal(i));
    GrowsOn(w, w0, w1);
    if body.BlockOf? {
      ExecBlockGood(body.stmts, w1, cur, depth, fuel);
      GoodOn(w, w1, ExecBlock(body.stmts, w1, cur, depth, fuel));
    } else {
      ExecGood(body, w1, cur, depth, fuel);
      GoodOn(w, w1, Exec(body, w1, cur, depth, fuel));
    }
  }

  // ----- whole runs -----

  lemma {:induction false} TopLevelGood(items: seq<Item>, skipping: bool, w: World, fuel: nat)
    requires Sound(w) && w.envs != []
    ensures Good(w, TopLevel(items, skipping, w, fuel))
    decreases |items|
  {
    hide Exec, Sound, BindAny, Grows;
    GrowsSame(w);
    if items != [] {
      match items[0]
      case FuncDecl(name, params, body) =>
        var f := FuncVal(params, body, 0);
        BindAnySound(w, 0, name, f);
        TopLevelGood(items[1..], skipping, BindAny(w, 0, name, f), fuel);
        GoodOn(w, BindAny(w, 0, name, f), TopLevel(items[1..], skipping, BindAny(w, 0, name, f), fuel));
      case Loose(s) =>
        if skipping {
          TopLevelGood(items[1..], true, w, fuel);
        } else {
          ExecGood(s, w, 0, 0, fuel);
          var r := Exec(s, w, 0, 0, fuel);
          if !r.end.Raised? && !r.end.Died? && !r.end.Starved? {
            MoreFrames(w, r.w);
            TopLevelGood(items[1..], !r.end.Went?, r.w, fuel);
            GoodOn(w, r.w, TopLevel(items[1..], !r.end.Went?, r.w, fuel));
          }
        }
    }
  }

  lemma MoreFrames(w: World, w': World)
    requires Grows(w, w')
    ensures |w.envs| <= |w'.envs|
  {
  }

  /** The world a program begins in. */
  const BEGIN := World([Env(None, [])], [])

  /** From the first statement to the last one of `main`. */
  lemma ProgramGood(items: seq<Item>, fuel: nat)
    ensures
      var r := TopLevel(items, false, BEGIN, fuel);
      && Good(BEGIN, r)
      && forall f, args :: Fits(f, |r.w.envs|) && (forall i :: 0 <= i < |args| ==> Fits(args[i], |r.w.envs|)) ==>
           Good(BEGIN, Invoke(f, args, r.w, 0, fuel))
  {
    hide TopLevel, Invoke, Grows;
    TopLevelGood(items, false, BEGIN, fuel);
    var r := TopLevel(items, false, BEGIN, fuel);
    forall f, args | Fits(f, |r.w.envs|) && (forall i :: 0 <= i < |args| ==> Fits(args[i], |r.w.envs|))
      ensures Good(BEGIN, Invoke(f, args, r.w, 0, fuel))
    {
      InvokeGood(f, args, r.w, 0, fuel);
      GoodOn(BEGIN, r.w, Invoke(f, args, r.w, 0, fuel));
    }
  }

  // ----- lexical scope -----

  /** The chain of frames that names are looked up in. */
  function ChainOf(w: World, cur: nat): (chain: seq<nat>)
    requires Sound(w) && cur < |w.envs|
    ensures IsChain(w.envs, cur, chain)
    decreases cur
  {
    assert FrameFits(w.envs[cur], cur, |w.envs|);
    var parent := w.envs[cur].parent;
    if parent.None? then [cur] else [cur] + ChainOf(w, parent.value)
  }

  /** Later in the run it is the same chain. */
  lemma {:induction false} ChainStays(w: World, w': World, cur: nat)
    requires Sound(w) && Sound(w') && Grows(w, w') && cur < |w.envs|
    ensures ChainOf(w', cur) == ChainOf(w, cur)
    decreases cur
  {
    assert Keeps(w.envs[cur], w'.envs[cur]) && FrameFits(w.envs[cur], cur, |w.envs|);
    if w.envs[cur].parent.Some? {
      ChainStays(w, w', w.envs[cur].parent.value);
    }
  }

  /**
   A function made in one world and called in any later one: its body's names are looked up in the frame of the
   call and then in the chain of the place where the function was made, wherever the call stands.
   */
  lemma ScopeIsLexical(params: seq<string>, body: Stmt, w: World, cur: nat, depth: nat, fuel: nat, w': World,
          args: seq<Val>)
    requires Sound(w) && cur < |w.envs| && depth < DEPTH_MAX
    requires Sound(w') && Grows(w, w') && |args| == |params|
    requires forall i :: 0 <= i < |args| ==> Fits(args[i], |w'.envs|)
    ensures Eval(FuncExpr(params, body), w, cur, depth, fuel) == Outcome(Went(FuncVal(params, body, cur)), w)
    ensures
      var called := Push(w', Env(Some(cur), Params(params, args)));
      Sound(called) && ChainOf(called, |w'.envs|) == [|w'.envs|] + ChainOf(w, cur)
  {
    hide Sound, Grows, Params, ChainOf;
    var e := FuncExpr(params, body);
    assert Eval(e, w, cur, depth, fuel) == EvalInner(e, w, cur, depth + 1, fuel);
    MoreFrames(w, w');
    ParamsFit(params, args, |w'.envs| + 1);
    var env := Env(Some(cur), Params(params, args));
    PushSound(w', env);
    ChainStays(w, w', cur);
    ChainStays(w', Push(w', env), cur);
    ChainStep(Push(w', env), |w'.envs|, cur);
  }

  lemma ChainStep(w: World, cur: nat, parent: nat)
    requires Sound(w) && cur < |w.envs| && w.envs[cur].parent == Some(parent)
    ensures parent < cur && ChainOf(w, cur) == [cur] + ChainOf(w, parent)
  {
    assert FrameFits(w.envs[cur], cur, |w.envs|);
  }

  /** In every world of a run, a name has exactly the meaning that `NameIs` gives it: no look-up is cut short. */
  lemma NamesResolve(w: World, cur: nat, depth: nat, fuel: nat, name: string)
    requires Sound(w) && cur < |w.envs| && depth < DEPTH_MAX
    ensures
      var r, chain := Eval(Name(name), w, cur, depth, fuel), ChainOf(w, cur);
      r.end.Died? <==> NoneBefore(w.envs, chain, |chain|, name)
  {
    hide Eval, NoneBefore, ChainOf, Sound;
    NameIs(w, cur, depth, fuel, name, ChainOf(w, cur));
  }
}
