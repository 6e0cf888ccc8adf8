/**
 What names, parameters, operators and conditions mean in the older interpreter
 (bootstrap-olg/exec.c:211-256, 1262-1330, 2006-2048), without the functions that compute it.
 */
module FlowLaws {
  import opened Basics
  import opened FlowLanguage
  import opened FlowSemantics

  // ----- names -----

  /** The frames that a name is looked for in, from the current one outwards by parent steps. */
  predicate IsChain(envs: seq<Env>, cur: nat, chain: seq<nat>) {
    && chain != [] && chain[0] == cur
    && (forall i :: 0 <= i < |chain| ==> chain[i] < |envs|)
    && (forall i :: 0 < i < |chain| ==> envs[chain[i - 1]].parent == Some(chain[i]) && chain[i] < chain[i - 1])
    && envs[chain[|chain| - 1]].parent.None?
  }

  /** The frame binds the name. */
  predicate Binds(env: Env, name: string) {
    exists k :: 0 <= k < |env.bindings| && env.bindings[k].name == name
  }

  /** The last of a frame's bindings of the name. */
  predicate IsLastOf(env: Env, name: string, slot: nat) {
    && slot < |env.bindings| && env.bindings[slot].name == name
    && forall k :: slot < k < |env.bindings| ==> env.bindings[k].name != name
  }

  lemma {:induction false} FindInIs(bs: seq<Binding>, name: string, env: Env)
    requires env.bindings == bs
    ensures
      var at := FindIn(bs, name);
      if at.Some? then IsLastOf(env, name, at.value) else !Binds(env, name)
    decreases |bs|
  {
    if bs != [] && bs[|bs| - 1].name != name {
      var init := env.(bindings := bs[..|bs| - 1]);
      FindInIs(init.bindings, name, init);
      var at := FindIn(init.bindings, name);
      if at.Some? {
        assert forall k :: at.value < k < |bs| - 1 ==> bs[k] == init.bindings[k];
      } else {
        assert forall k :: 0 <= k < |bs| - 1 ==> bs[k] == init.bindings[k];
      }
    }
  }

  /**
   A name means its last binding in the first frame of the chain that binds it, and nothing exactly if no
   frame of the chain does.
   */
  lemma {:induction false} FindCellIs(envs: seq<Env>, cur: nat, name: string, chain: seq<nat>)
    requires IsChain(envs, cur, chain)
    ensures
      var cell := FindCell(envs, cur, name);
      if cell.None? then NoneBefore(envs, chain, |chain|, name)
      else
        exists i :: 0 <= i < |chain| && NoneBefore(envs, chain, i, name) && chain[i] == cell.value.env
                    && IsLastOf(envs[chain[i]], name, cell.value.slot)
    decreases |chain|
  {
    FindInIs(envs[cur].bindings, name, envs[cur]);
    var at := FindIn(envs[cur].bindings, name);
    if at.Some? {
      assert NoneBefore(envs, chain, 0, name);
    } else if |chain| > 1 {
      var outer := chain[1..];
      assert chain[1] == outer[0];
      forall i | 0 < i < |outer|
        ensures envs[outer[i - 1]].parent == Some(outer[i]) && outer[i] < outer[i - 1]
      {
        assert outer[i - 1] == chain[i] && outer[i] == chain[i + 1];
      }
      FindCellIs(envs, chain[1], name, outer);
      var cell := FindCell(envs, chain[1], name);
      assert FindCell(envs, cur, name) == cell;
      if cell.None? {
        forall i | 0 <= i < |chain|
          ensures !Binds(envs[chain[i]], name)
        {
          assert i > 0 ==> chain[i] == outer[i - 1];
        }
      } else {
        var i :| 0 <= i < |outer| && NoneBefore(envs, outer, i, name) && outer[i] == cell.value.env
                 && IsLastOf(envs[outer[i]], name, cell.value.slot);
        forall k | 0 <= k < i + 1
          ensures !Binds(envs[chain[k]], name)
        {
          assert k > 0 ==> chain[k] == outer[k - 1];
        }
        assert NoneBefore(envs, chain, i + 1, name);
      }
    }
  }

  /** No frame of the chain before the `i`th binds the name. */
  predicate NoneBefore(envs: seq<Env>, chain: seq<nat>, i: nat, name: string)
    requires i <= |chain| && forall k :: 0 <= k < |chain| ==> chain[k] < |envs|
  {
    forall k :: 0 <= k < i ==> !Binds(envs[chain[k]], name)
  }

  /** The same of an expression that is a name: the value of that binding, or the run dies. */
  lemma NameIs(w: World, cur: nat, depth: nat, fuel: nat, name: string, chain: seq<nat>)
    requires IsChain(w.envs, cur, chain) && depth < DEPTH_MAX
    ensures
      var r := Eval(Name(name), w, cur, depth, fuel);
      if NoneBefore(w.envs, chain, |chain|, name) then r == Outcome(Died(UnknownName(name)), w)
      else
        exists i: nat, slot: nat :: i < |chain| && NoneBefore(w.envs, chain, i, name)
          && IsLastOf(w.envs[chain[i]], name, slot) && r == Outcome(Went(w.envs[chain[i]].bindings[slot].val), w)
  {
    hide Binds;
    FindCellIs(w.envs, cur, name, chain);
    var cell := FindCell(w.envs, cur, name);
    assert Eval(Name(name), w, cur, depth, fuel) == EvalInner(Name(name), w, cur, depth + 1, fuel);
    if cell.Some? {
      var i :| 0 <= i < |chain| && NoneBefore(w.envs, chain, i, name) && chain[i] == cell.value.env
               && IsLastOf(w.envs[chain[i]], name, cell.value.slot);
      assert ReadCell(w, cell.value) == w.envs[chain[i]].bindings[cell.value.slot].val;
      LastBinds(w.envs[chain[i]], name, cell.value.slot);
    }
  }

  lemma LastBinds(env: Env, name: string, slot: nat)
    requires IsLastOf(env, name, slot)
    ensures Binds(env, name)
  {
  }

  /** What was bound last is found first; other names mean what they meant. */
  lemma BoundIsFound(w: World, cur: nat, name: string, v: Val)
    requires cur < |w.envs|
    ensures
      var w' := BindAny(w, cur, name, v);
      var slot := |w.envs[cur].bindings|;
      && FindCell(w'.envs, cur, name) == Some(Cell(cur, slot)) && ReadCell(w', Cell(cur, slot)) == v
      && w'.out == w.out
  {
  }

  lemma {:induction false} OthersStay(w: World, at: nat, name: string, v: Val, cur: nat, other: string)
    requires at < |w.envs| && other != name
    ensures FindCell(BindAny(w, at, name, v).envs, cur, other) == FindCell(w.envs, cur, other)
    decreases cur
  {
    var w' := BindAny(w, at, name, v);
    if cur < |w.envs| {
      if cur == at {
        assert w'.envs[cur].bindings[..|w.envs[cur].bindings|] == w.envs[cur].bindings;
      }
      var parent := w.envs[cur].parent;
      if parent.Some? && parent.value < cur {
        OthersStay(w, at, name, v, parent.value, other);
      }
    }
  }

  /** An assignment changes the one binding and no other, and no name changes the binding it means. */
  lemma WrittenIsRead(w: World, c: Cell, d: Cell, v: Val)
    requires HasCell(w, c) && HasCell(w, d)
    ensures ReadCell(WriteCell(w, c, v), d) == if d == c then v else ReadCell(w, d)
    ensures HasCell(WriteCell(w, c, v), d) && WriteCell(w, c, v).out == w.out
  {
  }

  lemma {:induction false} WritingKeepsNames(w: World, c: Cell, v: Val, cur: nat, name: string)
    requires HasCell(w, c)
    ensures FindCell(WriteCell(w, c, v).envs, cur, name) == FindCell(w.envs, cur, name)
    decreases cur
  {
    var w' := WriteCell(w, c, v);
    if cur < |w.envs| {
      SameNames(w.envs[cur].bindings, w'.envs[cur].bindings, name);
      var parent := w.envs[cur].parent;
      if parent.Some? && parent.value < cur {
        WritingKeepsNames(w, c, v, parent.value, name);
      }
    }
  }

  lemma {:induction false} SameNames(bs: seq<Binding>, cs: seq<Binding>, name: string)
    requires |bs| == |cs| && forall k :: 0 <= k < |bs| ==> bs[k].name == cs[k].name
    ensures FindIn(bs, name) == FindIn(cs, name)
    decreases |bs|
  {
    if bs != [] {
      SameNames(bs[..|bs| - 1], cs[..|cs| - 1], name);
    }
  }

  lemma DefinitionRuns(name: string, n: int, w: World, cur: nat, depth: nat, fuel: nat)
    requires depth + 2 <= DEPTH_MAX
    ensures
      Exec(Var(name, IntLit(n)), w, cur, depth, fuel) == Outcome(Went(IntVal(n)), Bind(w, cur, name, IntVal(n)))
  {
    assert Eval(IntLit(n), w, cur, depth + 1, fuel) == Outcome(Went(IntVal(n)), w);
    assert Exec(Var(name, IntLit(n)), w, cur, depth, fuel) == ExecInner(Var(name, IntLit(n)), w, cur, depth + 1, fuel);
  }

  lemma PrintRuns(name: string, c: Cell, w: World, cur: nat, depth: nat, fuel: nat)
    requires depth + 3 <= DEPTH_MAX && FindCell(w.envs, cur, name) == Some(c)
    ensures
      Exec(ExprStmt(Println(Name(name))), w, cur, depth, fuel) ==
      Outcome(Went(VoidVal), w.(out := w.out + [ReadCell(w, c)]))
  {
    var e := Println(Name(name));
    assert Eval(Name(name), w, cur, depth + 2, fuel) == EvalInner(Name(name), w, cur, depth + 3, fuel);
    assert Eval(e, w, cur, depth + 1, fuel) == EvalInner(e, w, cur, depth + 2, fuel);
    assert Exec(ExprStmt(e), w, cur, depth, fuel) == ExecInner(ExprStmt(e), w, cur, depth + 1, fuel);
  }

  /** `x := 1; { x := 2; println(x) }; println(x)`: a definition in a block hides the outer one and is over with it. */
  lemma ShadowingPrints(fuel: nat)
    ensures
      var inner := BlockOf([Var("x", IntLit(2)), ExprStmt(Println(Name("x")))]);
      var items := [Loose(Var("x", IntLit(1))), Loose(inner), Loose(ExprStmt(Println(Name("x"))))];
      Program(items, fuel) == (Code(0), [IntVal(2), IntVal(1)])
  {
    hide Exec, FindCell, BindAny, ReadCell;
    var inner := BlockOf([Var("x", IntLit(2)), ExprStmt(Println(Name("x")))]);
    var items := [Loose(Var("x", IntLit(1))), Loose(inner), Loose(ExprStmt(Println(Name("x"))))];
    var w0 := World([Env(None, [])], []);
    var w1 := Bind(w0, 0, "x", IntVal(1));
    DefinitionRuns("x", 1, w0, 0, 0, fuel);
    ShadowFrames(w0, w1);
    var w2 := Bind(Push(w1, Env(Some(0), [])), 1, "x", IntVal(2));
    var w3 := w2.(out := [IntVal(2)]);
    InnerRuns(w1, w2, w3, fuel);
    PrintRuns("x", Cell(0, 0), w3, 0, 0, fuel);
    var w4 := w3.(out := [IntVal(2), IntVal(1)]);
    assert w3.out + [IntVal(1)] == w4.out;
    assert items[1..] == [Loose(inner), Loose(ExprStmt(Println(Name("x"))))];
    assert items[1..][1..] == [Loose(ExprStmt(Println(Name("x"))))];
    assert items[1..][1..][1..] == [];
    assert TopLevel(items[1..][1..], false, w3, fuel) == Outcome(Went(VoidVal), w4);
    assert TopLevel(items[1..], false, w1, fuel) == Outcome(Went(VoidVal), w4);
    assert TopLevel(items, false, w0, fuel) == Outcome(Went(VoidVal), w4);
  }

  /** The frames of that program. */
  lemma ShadowFrames(w0: World, w1: World)
    requires w0 == World([Env(None, [])], []) && w1 == Bind(w0, 0, "x", IntVal(1))
    ensures
      var w2 := Bind(Push(w1, Env(Some(0), [])), 1, "x", IntVal(2));
      && w1.out == w2.out == [] && |w1.envs| == 1
      && FindCell(w2.envs, 1, "x") == Some(Cell(1, 0)) && ReadCell(w2, Cell(1, 0)) == IntVal(2)
      && FindCell(w2.envs, 0, "x") == Some(Cell(0, 0)) && ReadCell(w2.(out := [IntVal(2)]), Cell(0, 0)) == IntVal(1)
      && FindCell(w2.envs, 0, "main") == None
  {
    hide FindIn;
    var (one, two) := (Binding("x", IntVal(1)), Binding("x", IntVal(2)));
    assert "x"[0] != "_"[0] && "x"[0] != "main"[0];
    assert [] + [one] == [one] && [] + [two] == [two];
    assert w1.envs[0] == Env(None, [one]);
    var w2 := Bind(Push(w1, Env(Some(0), [])), 1, "x", IntVal(2));
    assert w2.envs[0] == Env(None, [one]) && w2.envs[1] == Env(Some(0), [two]) && |w2.envs| == 2;
    OneBinding(one, "x");
    OneBinding(two, "x");
    OneBinding(one, "main");
  }

  lemma OneBinding(b: Binding, name: string)
    ensures FindIn([b], name) == if b.name == name then Some(0) else None
  {
    assert FindIn([b][..0], name) == None;
  }

  lemma InnerRuns(w1: World, w2: World, w3: World, fuel: nat)
    requires |w1.envs| == 1 && w2 == Bind(Push(w1, Env(Some(0), [])), 1, "x", IntVal(2)) && w2.out == []
    requires w3 == w2.(out := [IntVal(2)])
    requires FindCell(w2.envs, 1, "x") == Some(Cell(1, 0)) && ReadCell(w2, Cell(1, 0)) == IntVal(2)
    ensures
      var inner := BlockOf([Var("x", IntLit(2)), ExprStmt(Println(Name("x")))]);
      Exec(inner, w1, 0, 0, fuel) == Outcome(Went(VoidVal), w3)
  {
    var ss := [Var("x", IntLit(2)), ExprStmt(Println(Name("x")))];
    assert Exec(BlockOf(ss), w1, 0, 0, fuel) == ExecInner(BlockOf(ss), w1, 0, 1, fuel) == ExecBlock(ss, w1, 0, 1, fuel);
    hide Exec, Bind;
    var p := Push(w1, Env(Some(0), []));
    DefinitionRuns("x", 2, p, 1, 1, fuel);
    PrintRuns("x", Cell(1, 0), w2, 1, 1, fuel);
    assert ss[1..][1..] == [];
    assert ExecList(ss[1..], IntVal(2), w2, 1, 1, fuel) == Outcome(Went(VoidVal), w3);
  }

  // ----- operators and conditions -----

  /** The operators, on two integers, the left one first; on anything else the run dies. */
  lemma OperatorIs(op: BinOp, l: Expr, r: Expr, w: World, cur: nat, depth: nat, fuel: nat, a: Val, b: Val, w1: World,
          w2: World)
    requires depth < DEPTH_MAX
    requires Eval(l, w, cur, depth + 1, fuel) == Outcome(Went(a), w1)
    requires Eval(r, w1, cur, depth + 1, fuel) == Outcome(Went(b), w2)
    ensures
      Eval(Binary(op, l, r), w, cur, depth, fuel) ==
      if !a.IntVal? || !b.IntVal? then Outcome(Died(BadOperands), w2)
      else
        var v := match op
          case Plus => IntVal(a.n + b.n)
          case Minus => IntVal(a.n - b.n)
          case Less => BoolVal(a.n < b.n)
          case Equal => BoolVal(a.n == b.n);
        Outcome(Went(v), w2)
  {
    var e := Binary(op, l, r);
    assert Eval(e, w, cur, depth, fuel) == EvalInner(e, w, cur, depth + 1, fuel);
    assert EvalTwo(l, r, w, cur, depth + 1, fuel) == (a, Outcome(Went(b), w2));
  }

  /** A condition: a truth value is itself, an integer is its difference from 0, an error is false. */
  lemma ConditionIs(e: Expr, w: World, cur: nat, depth: nat, fuel: nat, v: Val, w1: World)
    requires Eval(e, w, cur, depth, fuel) == Outcome(Went(v), w1)
    ensures
      var r := EvalCond(e, w, cur, depth, fuel);
      && r.w == w1
      && (v.BoolVal? ==> r.end == Went(v))
      && (v.IntVal? ==> r.end == Went(BoolVal(v.n != 0)))
      && (v.ErrVal? ==> r.end == Went(BoolVal(false)))
      && (v.VoidVal? || v.RangeVal? || v.FuncVal? ==> r.end == Died(NotACondition))
  {
    hide Eval;
  }

  // ----- parameters -----

  /** Where the last of the parameters with this name is. */
  predicate IsLastParam(params: seq<string>, k: nat) {
    k < |params| && params[k] != "_" && forall i :: k < i < |params| ==> params[i] != params[k]
  }

  lemma {:induction false} ParamIs(params: seq<string>, args: seq<Val>, k: nat, env: Env)
    requires |params| == |args| && IsLastParam(params, k) && env.bindings == Params(params, args)
    ensures exists slot: nat :: IsLastOf(env, params[k], slot) && env.bindings[slot].val == args[k]
    decreases k
  {
    var head := if params[0] == "_" then [] else [Binding(params[0], args[0])];
    var rest := Params(params[1..], args[1..]);
    if k == 0 {
      NoParam(params[1..], args[1..], params[0]);
      assert IsLastOf(env, params[0], 0);
    } else {
      var inner := Env(None, rest);
      assert forall i :: k - 1 < i < |params[1..]| ==> params[1..][i] == params[i + 1];
      ParamIs(params[1..], args[1..], k - 1, inner);
      var slot: nat :| IsLastOf(inner, params[k], slot) && inner.bindings[slot].val == args[k];
      var at := |head| + slot;
      assert env.bindings[at] == rest[slot];
      forall i | at < i < |env.bindings|
        ensures env.bindings[i].name != params[k]
      {
        assert env.bindings[i] == rest[i - |head|];
      }
      assert IsLastOf(env, params[k], at);
    }
  }

  lemma {:induction false} NoParam(params: seq<string>, args: seq<Val>, name: string)
    requires |params| == |args| && forall i :: 0 <= i < |params| ==> params[i] != name
    ensures forall i :: 0 <= i < |Params(params, args)| ==> Params(params, args)[i].name != name
  {
    if params != [] {
      NoParam(params[1..], args[1..], name);
    }
  }

  /** A function that returns its `k`th parameter returns its `k`th argument, and leaves only its frame behind. */
  lemma ParameterIsArgument(params: seq<string>, closure: nat, args: seq<Val>, k: nat, w: World, depth: nat, fuel: nat)
    requires |params| == |args| && IsLastParam(params, k) && depth + 2 <= DEPTH_MAX
    ensures
      var f := FuncVal(params, Return(Some(Name(params[k]))), closure);
      Invoke(f, args, w, depth, fuel) == Outcome(Went(args[k]), Push(w, Env(Some(closure), Params(params, args))))
  {
    var name, env := params[k], Env(Some(closure), Params(params, args));
    var w1, cur := Push(w, env), |w.envs|;
    ParamIs(params, args, k, env);
    var slot: nat :| IsLastOf(env, name, slot) && env.bindings[slot].val == args[k];
    FindInIs(env.bindings, name, env);
    LastIsOne(env, name, slot, FindIn(env.bindings, name));
    assert FindCell(w1.envs, cur, name) == Some(Cell(cur, slot));
    hide FindCell;
    var s := Return(Some(Name(name)));
    assert Eval(Name(name), w1, cur, depth + 1, fuel) == EvalInner(Name(name), w1, cur, depth + 2, fuel);
    assert Exec(s, w1, cur, depth, fuel) == ExecInner(s, w1, cur, depth + 1, fuel);
  }

  lemma LastIsOne(env: Env, name: string, slot: nat, at: Option<nat>)
    requires IsLastOf(env, name, slot)
    requires if at.Some? then IsLastOf(env, name, at.value) else !Binds(env, name)
    ensures at == Some(slot)
  {
    LastBinds(env, name, slot);
  }

  /** With another number of arguments nothing runs, and nothing but a function can be called. */
  lemma WrongCallsDie(f: Val, args: seq<Val>, w: World, depth: nat, fuel: nat)
    ensures !f.FuncVal? ==> Invoke(f, args, w, depth, fuel) == Outcome(Died(NotCallable), w)
    ensures f.FuncVal? && |args| != |f.params| ==> Invoke(f, args, w, depth, fuel) == Outcome(Died(WrongArguments), w)
  {
  }

  // ----- patterns -----

  /** A literal matches the equal value of its kind; what cannot be compared ends the run; `_` matches all. */
  lemma PatternIs(v: Val, pat: Pattern, w: World, cur: nat, depth: nat, fuel: nat)
    ensures
      var r := MatchOne(v, pat, w, cur, depth, fuel);
      && (pat == NamePat("_") ==> r == Outcome(Went(BoolVal(true)), w))
      && (pat.IntPat? && v.IntVal? ==> r == Outcome(Went(BoolVal(v.n == pat.n)), w))
      && (pat.BoolPat? && v.BoolVal? ==> r == Outcome(Went(BoolVal(v.b == pat.b)), w))
      && (pat.IntPat? && (v.BoolVal? || v.ErrVal?) ==> r == Outcome(Went(BoolVal(false)), w))
      && (pat.BoolPat? && (v.IntVal? || v.ErrVal?) ==> r == Outcome(Went(BoolVal(false)), w))
      && ((pat.IntPat? || pat.BoolPat?) && (v.VoidVal? || v.RangeVal? || v.FuncVal?) ==>
            r == Outcome(Died(BadOperands), w))
  {
    hide EvalCond;
  }
}
