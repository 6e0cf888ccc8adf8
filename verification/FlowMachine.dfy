/**
 The interpreter as it runs (bootstrap-olg/exec.c): one shared flow flag signals return, break and
 continue; a raise jumps to the frame on top of the catch stack; scope and recursion depth are fields
 that every construct sets and restores.

 A jump is modelled as a result that every activation passes on at once, as the unwound C frames do,
 until the region whose frame it names takes it.
 */
module FlowMachine {
  import opened Basics
  import opened FlowLanguage
  import opened FlowSemantics

  datatype Flow = FlowNone | FlowReturn | FlowBreak | FlowContinue

  /** A catch frame: what to restore when a raise lands. */
  datatype Catch = Catch(savedCur: nat, savedDepth: nat)

  /** Where control goes: on, to a catch frame by its place in the stack, out of the program, or nowhere (no fuel). */
  datatype Jump = Stay | ToFrame(frame: nat) | Abort(why: Death) | NoFuel

  class Machine {
    var world: World
    var cur: nat
    var flow: Flow
    var target: Option<string>   // the label of a pending break or continue
    var ret: Val
    var exc: Val
    var frames: seq<Catch>       // the catch stack, innermost last
    var depth: nat

    constructor ()
      ensures world == World([Env(None, [])], []) && cur == 0 && flow == FlowNone && frames == [] && depth == 0
    {
      world, cur := World([Env(None, [])], []), 0;
      flow, target, ret, exc := FlowNone, None, VoidVal, VoidVal;
      frames, depth := [], 0;
    }

    /**
     The machine shows a result of the structured semantics, seen from where scope, depth and catch
     stack were `c`, `d` and `fs`. Normally they are as they were. A raise is on its way to the top of
     the catch stack as it was, or has died uncaught when there was none. Whatever happens, what the
     program did before is kept.
     */
    ghost predicate Shows(r: Outcome, jump: Jump, v: Val, c: nat, d: nat, fs: seq<Catch>)
      reads this
    {
      match r.end
      case Went(x) => jump == Stay && flow == FlowNone && v == x && Back(r.w, c, d, fs)
      case Returned(x) => jump == Stay && flow == FlowReturn && ret == x && v == VoidVal && Back(r.w, c, d, fs)
      case Broke(l) => jump == Stay && flow == FlowBreak && target == l && v == VoidVal && Back(r.w, c, d, fs)
      case Continued(l) => jump == Stay && flow == FlowContinue && target == l && v == VoidVal && Back(r.w, c, d, fs)
      case Raised(x) =>
        if fs == [] then jump == Abort(Uncaught(x)) && world == r.w
        else jump == ToFrame(|fs| - 1) && exc == x && flow == FlowNone && frames == fs && world == r.w
      case Died(why) => jump == Abort(why) && world == r.w
      case Starved => jump == NoFuel && world == r.w
    }

    ghost predicate Back(w: World, c: nat, d: nat, fs: seq<Catch>)
      reads this
    {
      world == w && cur == c && depth == d && frames == fs
    }

    // ----- expressions -----

    /** Raise: jump to the innermost catch frame, or die uncaught. */
    method Raise(err: Val) returns (jump: Jump)
      modifies this`exc
      ensures exc == err
      ensures jump == if frames == [] then Abort(Uncaught(err)) else ToFrame(|frames| - 1)
    {
      exc := err;
      jump := if frames == [] then Abort(Uncaught(err)) else ToFrame(|frames| - 1);
    }

    /** With a flow pending an expression is shielded; otherwise it is evaluated, and leaves none pending. */
    method Eval(e: Expr, fuel: nat) returns (v: Val, jump: Jump)
      modifies this
      ensures old(flow) == FlowNone ==>
                Shows(FlowSemantics.Eval(e, old(world), old(cur), old(depth), fuel), jump, v, old(cur), old(depth),
                      old(frames))
      ensures old(flow) != FlowNone && old(depth) < DEPTH_MAX ==>
                jump == Stay && v == VoidVal && Back(old(world), old(cur), old(depth), old(frames)) &&
                flow == old(flow) && target == old(target) && ret == old(ret)
      decreases fuel, DEPTH_MAX - depth, 0
    {
      hide FlowSemantics.EvalInner;
      v := VoidVal;
      depth := depth + 1;
      if depth > DEPTH_MAX {
        return VoidVal, Abort(RecursionLimit);
      }
      if flow != FlowNone {
        depth := depth - 1;
        return VoidVal, Stay;
      }
      v, jump := EvalInner(e, fuel);
      if jump == Stay {
        depth := depth - 1;
      }
    }

    method EvalInner(e: Expr, fuel: nat) returns (v: Val, jump: Jump)
      requires flow == FlowNone
      modifies this
      ensures
        Shows(FlowSemantics.EvalInner(e, old(world), old(cur), old(depth), fuel), jump, v, old(cur), old(depth),
              old(frames))
      decreases fuel, DEPTH_MAX - depth, 5
    {
      hide FlowSemantics.Eval, FlowSemantics.EvalArgs, FlowSemantics.Invoke;
      v, jump := VoidVal, Stay;
      match e {
        case IntLit(n) => v := IntVal(n);
        case BoolLit(b) => v := BoolVal(b);
        case Name(name) =>
          var cell := FindCell(world.envs, cur, name);
          if cell.None? {
            return VoidVal, Abort(UnknownName(name));
          }
          v := ReadCell(world, cell.value);
        case Binary(op, l, r) =>
          var a, b;
          a, b, jump := EvalTwo(l, r, fuel);
          if jump == Stay {
            var applied := ApplyOp(op, a, b);
            if applied.None? {
              return VoidVal, Abort(BadOperands);
            }
            v := applied.value;
          }
        case RangeOf(l, r, desc, incl) =>
          var a, b;
          a, b, jump := EvalTwo(l, r, fuel);
          if jump == Stay {
            if !a.IntVal? || !b.IntVal? {
              return VoidVal, Abort(BadOperands);
            }
            v := RangeVal(Span(a.n, b.n, desc, incl));
          }
        case MakeError(name) => v := ErrVal(name);
        case Unwrap(hard, x) =>
          v, jump := Eval(x, fuel);
          if jump == Stay && v.ErrVal? {
            if hard {
              jump := Raise(v);
            } else {
              v := VoidVal;
            }
          }
        case FuncExpr(params, body) => v := FuncVal(params, body, cur);
        case Call(callee, args) =>
          var f;
          f, jump := Eval(callee, fuel);
          if jump == Stay {
            var vs;
            vs, jump := EvalArgs(args, fuel);
            if jump == Stay {
              v, jump := InvokeUser(f, vs, fuel);
            }
          }
        case Println(x) =>
          var a;
          a, jump := Eval(x, fuel);
          if jump == Stay {
            world := world.(out := world.out + [a]);
          }
        case _ => return VoidVal, Abort(NotAnExpression);
      }
    }

    method EvalTwo(l: Expr, r: Expr, fuel: nat) returns (a: Val, b: Val, jump: Jump)
      requires flow == FlowNone
      modifies this
      ensures
        var two := FlowSemantics.EvalTwo(l, r, old(world), old(cur), old(depth), fuel);
        Shows(two.1, jump, b, old(cur), old(depth), old(frames)) && (jump == Stay ==> a == two.0)
      decreases fuel, DEPTH_MAX - depth, 1, 0
    {
      hide FlowSemantics.Eval;
      b := VoidVal;
      a, jump := Eval(l, fuel);
      if jump == Stay {
        b, jump := Eval(r, fuel);
      }
    }

    method EvalArgs(args: seq<Expr>, fuel: nat) returns (vs: seq<Val>, jump: Jump)
      requires flow == FlowNone
      modifies this
      ensures
        var r := FlowSemantics.EvalArgs(args, [], old(world), old(cur), old(depth), fuel);
        Shows(r.1, jump, VoidVal, old(cur), old(depth), old(frames)) && (jump == Stay ==> vs == r.0)
      decreases fuel, DEPTH_MAX - depth, 1, |args|
    {
      hide FlowSemantics.Eval;
      ghost var spec := FlowSemantics.EvalArgs(args, [], world, cur, depth, fuel);
      vs, jump := [], Stay;
      for i := 0 to |args|
        invariant flow == FlowNone && jump == Stay && Back(world, old(cur), old(depth), old(frames))
        invariant spec == FlowSemantics.EvalArgs(args[i..], vs, world, cur, depth, fuel)
      {
        assert args[i..][0] == args[i] && args[i..][1..] == args[i + 1..];
        var v;
        v, jump := Eval(args[i], fuel);
        if jump != Stay {
          return;
        }
        vs := vs + [v];
      }
    }

    /** A call: the body runs in a new frame; whatever flow it ends with is over, and the scope is restored. */
    method InvokeUser(f: Val, args: seq<Val>, fuel: nat) returns (v: Val, jump: Jump)
      modifies this
      ensures
        Shows(FlowSemantics.Invoke(f, args, old(world), old(depth), fuel), jump, v, old(cur), old(depth),
              old(frames))
      decreases fuel, DEPTH_MAX - depth, 3
    {
      hide FlowSemantics.Exec, FlowSemantics.ExecBlock, FlowLanguage.Params;
      v := VoidVal;
      if !f.FuncVal? {
        return VoidVal, Abort(NotCallable);
      }
      if |args| != |f.params| {
        return VoidVal, Abort(WrongArguments);
      }
      var savedCur := cur;
      cur := |world.envs|;
      world := Push(world, Env(Some(f.closure), Params(f.params, args)));
      flow := FlowNone;
      var imp;
      if f.body.BlockOf? {
        imp, jump := ExecBlock(f.body.stmts, fuel);
      } else {
        imp, jump := ExecStmt(f.body, fuel);
      }
      if jump != Stay {
        return VoidVal, jump;
      }
      v := if flow == FlowReturn then ret else imp;
      flow := FlowNone;
      cur := savedCur;
    }

    // ----- statements -----

    /** With a flow pending a statement is skipped; otherwise it is executed. */
    method ExecStmt(s: Stmt, fuel: nat) returns (v: Val, jump: Jump)
      modifies this
      ensures old(flow) == FlowNone ==>
                Shows(Exec(s, old(world), old(cur), old(depth), fuel), jump, v, old(cur), old(depth), old(frames))
      ensures old(flow) != FlowNone && old(depth) < DEPTH_MAX ==>
                jump == Stay && v == VoidVal && Back(old(world), old(cur), old(depth), old(frames)) &&
                flow == old(flow) && target == old(target) && ret == old(ret)
      decreases fuel, DEPTH_MAX - depth, 0
    {
      hide FlowSemantics.ExecInner;
      v := VoidVal;
      depth := depth + 1;
      if depth > DEPTH_MAX {
        return VoidVal, Abort(RecursionLimit);
      }
      if flow != FlowNone {
        depth := depth - 1;
        return VoidVal, Stay;
      }
      v, jump := ExecInner(s, fuel);
      if jump == Stay {
        depth := depth - 1;
      }
    }

    method ExecInner(s: Stmt, fuel: nat) returns (v: Val, jump: Jump)
      requires flow == FlowNone
      modifies this
      ensures
        Shows(FlowSemantics.ExecInner(s, old(world), old(cur), old(depth), fuel), jump, v, old(cur), old(depth),
              old(frames))
      decreases fuel, DEPTH_MAX - depth, 5
    {
      hide Exec, ExecList, FlowSemantics.ExecBlock, FlowSemantics.Eval, EvalCond, Loop, Each, FlowSemantics.ExecBare;
      v, jump := VoidVal, Stay;
      match s {
        case BlockOf(ss) => v, jump := ExecBlock(ss, fuel);
        case ListOf(ss) => v, jump := ExecSeq(ss, fuel);
        case ExprStmt(e) => v, jump := Eval(e, fuel);
        case Bare(e) => jump := ExecBare(e, fuel);
        case Var(name, init) =>
          v, jump := Eval(init, fuel);
          if jump == Stay {
            world := Bind(world, cur, name, v);
          }
        case Assign(name, e) =>
          var cell := FindCell(world.envs, cur, name);
          if cell.None? {
            return VoidVal, Abort(UnknownName(name));
          }
          var rv;
          rv, jump := Eval(e, fuel);
          if jump == Stay {
            world := WriteCell(world, cell.value, rv);
          }
        case If(_, _, _) => jump := ExecIf(s, fuel);
        case LoopUntil(_, _) => jump := RunLoopUntil(s, fuel);
        case While(_, _) => jump := RunWhile(s, fuel);
        case For(_, _, _, _, _) => jump := ExecFor(s, fuel);
        case In(_, _, _, _) => jump := ExecIn(s, fuel);
        case Return(value) =>
          var rv := VoidVal;
          if value.Some? {
            rv, jump := Eval(value.value, fuel);
          }
          if jump == Stay {
            ret := rv;
            flow := FlowReturn;
          }
        case Break(l) =>
          flow := FlowBreak;
          target := l;
        case Continue(l) =>
          flow := FlowContinue;
          target := l;
        case Labelled(name, body) =>
          var last;
          last, jump := ExecStmt(body, fuel);
          if jump == Stay && (flow == FlowBreak || flow == FlowContinue) && target == Some(name) {
            flow := FlowNone;
          }
        case Try(body) =>
          var last;
          last, jump := ExecStmt(body, fuel);
        case Region(_, _, _) => jump := ExecRegion(s, fuel);
      }
    }

    method ExecIf(s: Stmt, fuel: nat) returns (jump: Jump)
      requires flow == FlowNone && s.If?
      modifies this
      ensures
        Shows(FlowSemantics.ExecInner(s, old(world), old(cur), old(depth), fuel), jump, VoidVal, old(cur),
              old(depth), old(frames))
      decreases fuel, DEPTH_MAX - depth, 4
    {
      hide Exec, EvalCond;
      var c, last;
      c, jump := EvalCondition(s.cond, fuel);
      if jump == Stay {
        if c {
          last, jump := ExecStmt(s.thenArm, fuel);
        } else if s.elseArm.Some? {
          last, jump := ExecStmt(s.elseArm.value, fuel);
        }
      }
    }

    /** An expression where a statement is executed. */
    method ExecBare(e: Expr, fuel: nat) returns (jump: Jump)
      requires flow == FlowNone
      modifies this
      ensures
        Shows(FlowSemantics.ExecBare(e, old(world), old(cur), old(depth), fuel), jump, VoidVal, old(cur), old(depth),
              old(frames))
      decreases fuel, DEPTH_MAX - depth, 4
    {
      hide Exec, EvalCond, FlowSemantics.Eval, FlowSemantics.MatchArms;
      jump := Stay;
      match e {
        case IfThenElse(cond, t, f) =>
          var c, last;
          c, jump := EvalCondition(cond, fuel);
          if jump == Stay {
            last, jump := ExecStmt(Bare(if c then t else f), fuel);
          }
        case MatchOf(subject, arms) =>
          var v;
          v, jump := Eval(subject, fuel);
          if jump == Stay {
            jump := RunArms(v, arms, fuel);
          }
        case _ => return Abort(NotAStatement);
      }
    }

    /** The arms in order, up to the first that matches; that none does is fatal. */
    method RunArms(v: Val, arms: seq<Arm>, fuel: nat) returns (jump: Jump)
      requires flow == FlowNone
      modifies this
      ensures
        Shows(MatchArms(v, arms, old(world), old(cur), old(depth), fuel), jump, VoidVal, old(cur), old(depth),
              old(frames))
      decreases fuel, DEPTH_MAX - depth, 3, |arms|
    {
      hide Exec, FlowSemantics.MatchAny;
      ghost var spec := MatchArms(v, arms, world, cur, depth, fuel);
      for i := 0 to |arms|
        invariant flow == FlowNone && Back(world, old(cur), old(depth), old(frames))
        invariant spec == MatchArms(v, arms[i..], world, cur, depth, fuel)
      {
        assert arms[i..][0] == arms[i] && arms[i..][1..] == arms[i + 1..];
        var matched;
        matched, jump := MatchAny(v, arms[i].pats, fuel);
        if jump != Stay {
          return;
        }
        if matched {
          var last;
          last, jump := ExecStmt(arms[i].body, fuel);
          return;
        }
      }
      return Abort(NoArmMatches);
    }

    method MatchAny(v: Val, pats: seq<Pattern>, fuel: nat) returns (matched: bool, jump: Jump)
      requires flow == FlowNone
      modifies this
      ensures
        Shows(FlowSemantics.MatchAny(v, pats, old(world), old(cur), old(depth), fuel), jump, BoolVal(matched),
              old(cur), old(depth), old(frames))
      decreases fuel, DEPTH_MAX - depth, 2, |pats|
    {
      hide FlowSemantics.MatchOne;
      ghost var spec := FlowSemantics.MatchAny(v, pats, world, cur, depth, fuel);
      matched, jump := false, Stay;
      for j := 0 to |pats|
        invariant flow == FlowNone && !matched && jump == Stay && Back(world, old(cur), old(depth), old(frames))
        invariant spec == FlowSemantics.MatchAny(v, pats[j..], world, cur, depth, fuel)
      {
        assert pats[j..][0] == pats[j] && pats[j..][1..] == pats[j + 1..];
        matched, jump := MatchOne(v, pats[j], fuel);
        if jump != Stay || matched {
          return;
        }
      }
    }

    /** A name or a literal is compared with the subject; an unknown name matches nothing; a guard is a condition. */
    method MatchOne(v: Val, pat: Pattern, fuel: nat) returns (matched: bool, jump: Jump)
      requires flow == FlowNone
      modifies this
      ensures
        Shows(FlowSemantics.MatchOne(v, pat, old(world), old(cur), old(depth), fuel), jump, BoolVal(matched),
              old(cur), old(depth), old(frames))
      decreases fuel, DEPTH_MAX - depth, 2, 0
    {
      hide EvalCond;
      matched, jump := false, Stay;
      match pat {
        case NamePat(name) =>
          if name == "_" {
            return true, Stay;
          }
          var cell := FindCell(world.envs, cur, name);
          if cell.Some? {
            matched, jump := Compare(v, ReadCell(world, cell.value));
          }
        case IntPat(n) => matched, jump := Compare(v, IntVal(n));
        case BoolPat(b) => matched, jump := Compare(v, BoolVal(b));
        case GuardPat(guard) => matched, jump := EvalCondition(guard, fuel);
      }
    }

    static method Compare(a: Val, b: Val) returns (same: bool, jump: Jump)
      ensures
        var end := Compared(a, b);
        if end.Died? then jump == Abort(end.why) else jump == Stay && end == Went(BoolVal(same))
    {
      match a {
        case IntVal(n) => return b == IntVal(n), Stay;
        case BoolVal(x) => return b == BoolVal(x), Stay;
        case ErrVal(name) => return b == ErrVal(name), Stay;
        case _ => return false, Abort(BadOperands);
      }
    }

    method ExecFor(s: Stmt, fuel: nat) returns (jump: Jump)
      requires flow == FlowNone && s.For?
      modifies this
      ensures
        Shows(FlowSemantics.ExecInner(s, old(world), old(cur), old(depth), fuel), jump, VoidVal, old(cur),
              old(depth), old(frames))
      decreases fuel, DEPTH_MAX - depth, 4
    {
      hide FlowSemantics.Eval, Loop;
      var iv;
      iv, jump := Eval(s.init, fuel);
      if jump == Stay {
        world := Bind(world, cur, s.name, iv);
        jump := RunFor(s, fuel);
      }
    }

    method ExecIn(s: Stmt, fuel: nat) returns (jump: Jump)
      requires flow == FlowNone && s.In?
      modifies this
      ensures
        Shows(FlowSemantics.ExecInner(s, old(world), old(cur), old(depth), fuel), jump, VoidVal, old(cur),
              old(depth), old(frames))
      decreases fuel, DEPTH_MAX - depth, 4
    {
      hide FlowSemantics.Eval, Each, Elements;
      var cv;
      cv, jump := Eval(s.coll, fuel);
      if jump == Stay {
        if !cv.RangeVal? {
          return Abort(NotARange);
        }
        jump := RunRange(s.ordinal, s.name, cv.span, s.body, fuel);
      }
    }

    method EvalCondition(e: Expr, fuel: nat) returns (b: bool, jump: Jump)
      modifies this
      ensures old(flow) == FlowNone ==>
                Shows(EvalCond(e, old(world), old(cur), old(depth), fuel), jump, BoolVal(b), old(cur), old(depth),
                      old(frames))
      ensures old(flow) != FlowNone && old(depth) < DEPTH_MAX ==> jump == Abort(NotACondition) && world == old(world)
      decreases fuel, DEPTH_MAX - depth, 1
    {
      hide FlowSemantics.Eval;
      b := false;
      var v;
      v, jump := Eval(e, fuel);
      if jump == Stay {
        if Truth(v).None? {
          return false, Abort(NotACondition);
        }
        b := Truth(v).value;
      }
    }

    method ExecSeq(ss: seq<Stmt>, fuel: nat) returns (last: Val, jump: Jump)
      requires flow == FlowNone
      modifies this
      ensures
        Shows(ExecList(ss, VoidVal, old(world), old(cur), old(depth), fuel), jump, last, old(cur), old(depth),
              old(frames))
      decreases fuel, DEPTH_MAX - depth, 1, |ss|
    {
      hide Exec;
      ghost var spec := ExecList(ss, VoidVal, world, cur, depth, fuel);
      last, jump := VoidVal, Stay;
      var i := 0;
      while i < |ss| && flow == FlowNone
        invariant 0 <= i <= |ss| && jump == Stay && Back(world, old(cur), old(depth), old(frames))
        invariant flow == FlowNone ==> spec == ExecList(ss[i..], last, world, cur, depth, fuel)
        invariant flow != FlowNone ==> Shows(spec, jump, last, old(cur), old(depth), old(frames))
        decreases |ss| - i
      {
        assert ss[i..][0] == ss[i] && ss[i..][1..] == ss[i + 1..];
        last, jump := ExecStmt(ss[i], fuel);
        if jump != Stay {
          return;
        }
        i := i + 1;
      }
    }

    method ExecBlock(ss: seq<Stmt>, fuel: nat) returns (last: Val, jump: Jump)
      requires flow == FlowNone
      modifies this
      ensures
        Shows(FlowSemantics.ExecBlock(ss, old(world), old(cur), old(depth), fuel), jump, last, old(cur),
              old(depth), old(frames))
      decreases fuel, DEPTH_MAX - depth, 2, 0
    {
      hide ExecList;
      var saved := cur;
      cur := |world.envs|;
      world := Push(world, Env(Some(saved), []));
      last, jump := ExecSeq(ss, fuel);
      if jump == Stay {
        cur := saved;
      }
    }

    /**
     A region: its frame is on the catch stack while the guarded statements run. A raise in them, from
     whatever blocks and calls, lands here, with scope, depth and catch stack as at the region's entry.
     */
    method ExecRegion(s: Stmt, fuel: nat) returns (jump: Jump)
      requires flow == FlowNone && s.Region?
      modifies this
      ensures
        Shows(FlowSemantics.ExecInner(s, old(world), old(cur), old(depth), fuel), jump, VoidVal, old(cur),
              old(depth), old(frames))
      decreases fuel, DEPTH_MAX - depth, 3
    {
      hide ExecList;
      var mine := |frames|;
      frames := frames + [Catch(cur, depth)];
      var last;
      last, jump := ExecSeq(s.guarded, fuel);
      if jump == Stay {
        frames := frames[..mine];
      } else if jump == ToFrame(mine) {
        var cf := frames[mine];
        frames := frames[..mine];
        cur := cf.savedCur;
        depth := cf.savedDepth;
        flow := FlowNone;
        assert Back(world, old(cur), old(depth), old(frames));
        if s.catchName.Some? {
          world := BindAny(world, cur, s.catchName.value, exc);
        }
        last, jump := ExecSeq(s.handlers, fuel);
      }
    }

    // ----- loops -----

    /** The flow after a loop's body: an unlabelled break or continue is over; anything else leaves the loop. */
    method AfterBody() returns (leave: bool)
      modifies this`flow
      ensures leave <==> old(flow) != FlowNone && !(old(flow) == FlowContinue && target == None)
      ensures
        flow ==
        if target == None && (old(flow) == FlowBreak || old(flow) == FlowContinue) then FlowNone else old(flow)
    {
      if flow == FlowContinue && target == None {
        flow := FlowNone;
      }
      if flow == FlowBreak && target == None {
        flow := FlowNone;
        return true;
      }
      leave := flow != FlowNone;
    }

    method RunLoopUntil(s: Stmt, fuel: nat) returns (jump: Jump)
      requires flow == FlowNone && s.LoopUntil?
      modifies this
      ensures Shows(Loop(s, old(world), old(cur), old(depth), fuel), jump, VoidVal, old(cur), old(depth), old(frames))
      decreases fuel, DEPTH_MAX - depth, 3
    {
      hide FlowSemantics.ExecBlock, EvalCond;
      ghost var spec := Loop(s, world, cur, depth, fuel);
      var k: nat := fuel;
      while k > 0
        invariant k <= fuel && flow == FlowNone && Back(world, old(cur), old(depth), old(frames))
        invariant spec == Loop(s, world, cur, depth, k)
      {
        var last;
        last, jump := ExecBlock(s.stmts, k);
        if jump != Stay {
          return;
        }
        var leave := AfterBody();
        if leave {
          return;
        }
        if s.until.Some? {
          var u;
          u, jump := EvalCondition(s.until.value, k);
          if jump != Stay || u {
            return;
          }
        }
        k := k - 1;
      }
      return NoFuel;
    }

    method RunWhile(s: Stmt, fuel: nat) returns (jump: Jump)
      requires flow == FlowNone && s.While?
      modifies this
      ensures Shows(Loop(s, old(world), old(cur), old(depth), fuel), jump, VoidVal, old(cur), old(depth), old(frames))
      decreases fuel, DEPTH_MAX - depth, 3
    {
      hide Exec, EvalCond;
      ghost var spec := Loop(s, world, cur, depth, fuel);
      var k: nat := fuel;
      while k > 0
        invariant k <= fuel && flow == FlowNone && Back(world, old(cur), old(depth), old(frames))
        invariant spec == Loop(s, world, cur, depth, k)
      {
        var c;
        c, jump := EvalCondition(s.cond, k);
        if jump != Stay || !c {
          return;
        }
        var last;
        last, jump := ExecStmt(s.body, k);
        if jump != Stay {
          return;
        }
        var leave := AfterBody();
        if leave {
          return;
        }
        k := k - 1;
      }
      return NoFuel;
    }

    /** The step may leave a flow pending; then the next condition finds nothing to test. */
    method RunFor(s: Stmt, fuel: nat) returns (jump: Jump)
      requires flow == FlowNone && s.For?
      modifies this
      ensures Shows(Loop(s, old(world), old(cur), old(depth), fuel), jump, VoidVal, old(cur), old(depth), old(frames))
      decreases fuel, DEPTH_MAX - depth, 3
    {
      hide FlowSemantics.ExecInner, EvalCond;
      ghost var spec := Loop(s, world, cur, depth, fuel);
      var k: nat := fuel;
      while flow != FlowNone || k > 0
        invariant k <= fuel && Back(world, old(cur), old(depth), old(frames))
        invariant flow == FlowNone ==> spec == Loop(s, world, cur, depth, k)
        invariant flow != FlowNone ==> spec == Outcome(Died(NotACondition), world) && depth < DEPTH_MAX
        decreases k
      {
        var c;
        c, jump := EvalCondition(s.cond, k);
        if jump != Stay || !c {
          return;
        }
        var last;
        last, jump := ExecStmt(s.body, k);
        if jump != Stay {
          return;
        }
        var leave := AfterBody();
        if leave {
          return;
        }
        if s.post.Some? {
          last, jump := ExecStmt(StepStmt(s.post.value), k);
          if jump != Stay {
            return;
          }
        }
        k := k - 1;
      }
      return NoFuel;
    }

    /** Up or down, up to or including the last bound. */
    method RunRange(ordinal: Option<string>, name: string, span: Span, body: Stmt, fuel: nat) returns (jump: Jump)
      requires flow == FlowNone
      modifies this
      ensures
        Shows(Each(ordinal, name, Elements(span), body, old(world), old(cur), old(depth), fuel), jump, VoidVal,
              old(cur), old(depth), old(frames))
      decreases fuel, DEPTH_MAX - depth, 3, 1
    {
      hide EachBody, Elements;
      ghost var spec := Each(ordinal, name, Elements(span), body, world, cur, depth, fuel);
      jump := Stay;
      var i := span.lo;
      while if span.desc then (if span.incl then i >= span.hi else i > span.hi)
            else (if span.incl then i <= span.hi else i < span.hi)
        invariant flow == FlowNone && jump == Stay && Back(world, old(cur), old(depth), old(frames))
        invariant spec == Each(ordinal, name, Elements(span.(lo := i)), body, world, cur, depth, fuel)
        decreases Count(span.(lo := i))
      {
        FirstElement(span.(lo := i));
        var more;
        more, jump := InIterate(ordinal, name, i, body, fuel);
        if jump != Stay || !more {
          return;
        }
        i := if span.desc then i - 1 else i + 1;
      }
      FirstElement(span.(lo := i));
    }

    /** One iteration; whether the loop keeps going. */
    method InIterate(ordinal: Option<string>, name: string, i: int, body: Stmt, fuel: nat)
      returns (more: bool, jump: Jump)
      requires flow == FlowNone
      modifies this
      ensures
        var r := EachBody(ordinal, name, i, body, old(world), old(cur), old(depth), fuel);
        && (GoesOn(r.end) ==> more && jump == Stay && flow == FlowNone && Back(r.w, old(cur), old(depth), old(frames)))
        && (!GoesOn(r.end) ==>
              (jump == Stay ==> !more) && Shows(LoopEnd(r), jump, VoidVal, old(cur), old(depth), old(frames)))
      decreases fuel, DEPTH_MAX - depth, 3, 0
    {
      hide Exec, FlowSemantics.ExecBlock;
      if ordinal.Some? {
        world := BindAny(world, cur, ordinal.value, IntVal(i));
      }
      world := Bind(world, cur, name, IntVal(i));
      var last;
      if body.BlockOf? {
        last, jump := ExecBlock(body.stmts, fuel);
      } else {
        last, jump := ExecStmt(body, fuel);
      }
      if jump != Stay {
        return false, jump;
      }
      if flow == FlowContinue && target == None {
        flow := FlowNone;
        return true, Stay;
      }
      if flow == FlowBreak && target == None {
        flow := FlowNone;
        return false, Stay;
      }
      more := flow == FlowNone;
    }
  }

  /** A range that goes on is its first bound and the range from the next one on. */
  lemma FirstElement(s: Span)
    ensures
      var next := s.(lo := if s.desc then s.lo - 1 else s.lo + 1);
      var goesOn := if s.desc then (if s.incl then s.lo >= s.hi else s.lo > s.hi)
                    else (if s.incl then s.lo <= s.hi else s.lo < s.hi);
      if goesOn then Elements(s) == [s.lo] + Elements(next) && Count(next) < Count(s) else Elements(s) == []
  {
  }

  /** `exec_run`: the top level, then `main`; what was printed and how the run ended. */
  method RunProgram(items: seq<Item>, fuel: nat) returns (exit: Exit, out: seq<Val>)
    ensures exit == Program(items, fuel).0
    ensures out == Program(items, fuel).1
  {
    hide Exec, FlowSemantics.Invoke;
    var m := new Machine();
    ghost var spec := TopLevel(items, false, m.world, fuel);
    for i := 0 to |items|
      invariant m.cur == 0 && m.depth == 0 && m.frames == []
      invariant fresh(m)
      invariant TopLevel(items[i..], m.flow != FlowNone, m.world, fuel) == spec
    {
      assert items[i..][0] == items[i] && items[i..][1..] == items[i + 1..];
      match items[i] {
        case FuncDecl(name, params, body) => m.world := BindAny(m.world, 0, name, FuncVal(params, body, 0));
        case Loose(s) =>
          var _, jump := m.ExecStmt(s, fuel);
          if jump != Stay {
            return Ended(jump), m.world.out;
          }
      }
    }
    var cell := FindCell(m.world.envs, 0, "main");
    var f := if cell.Some? then ReadCell(m.world, cell.value) else VoidVal;
    if !f.FuncVal? {
      return Code(0), m.world.out;
    }
    var v, jump := m.InvokeUser(f, [], fuel);
    if jump != Stay {
      return Ended(jump), m.world.out;
    }
    return Code(if v.IntVal? then v.n else 0), m.world.out;
  }

  /** A jump that reaches the bottom of the C stack. No catch frame is left there to jump to. */
  function Ended(jump: Jump): Exit {
    if jump.Abort? then Failed(jump.why) else Unfinished
  }
}
