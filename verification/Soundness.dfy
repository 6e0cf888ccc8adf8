/**
 What the checker's acceptance promises about execution (bootstrap/checker.c against bootstrap/exec.c).
 */
module Soundness {
  import opened Basics
  import opened Tokens
  import opened Ast
  import opened Walker
  import opened Exec
  import opened Checker

  /** No arm of an `if` is a bare definition: definitions inside arms sit in braced blocks. */
  predicate ArmsBraced(n: Tree)
    requires IsStmt(n)
    decreases n, 1
  {
    match n
    case IfStmt(_, _, t, e) =>
      !t.Define? && ArmsBraced(t) && (e.Some? ==> !e.value.Define? && ArmsBraced(e.value))
    case Block(_, ss) => AllArmsBraced(ss)
    case _ => true
  }

  predicate AllArmsBraced(ss: seq<Tree>)
    requires AreStmts(ss)
    decreases ss, 0
  {
    ss == [] || (ArmsBraced(ss[0]) && AllArmsBraced(ss[1..]))
  }

  /** The checker's scopes and the executor's scopes define the same names, scope by scope. */
  ghost predicate Agree(ts: TypeScopes, scopes: Scopes) {
    && |ts| == |scopes|
    && forall i :: 0 <= i < |ts| ==> ts[i].Keys == scopes[i].Keys
  }

  lemma {:induction false} TypedNamesAreDefined(ts: TypeScopes, scopes: Scopes, name: string)
    requires Agree(ts, scopes)
    requires ScopeGet(ts, name) != UnknownType
    ensures Owner(scopes, name).Some?
  {
    var last := |ts| - 1;
    if name !in ts[last] || ts[last][name] == NoneType {
      if name !in scopes[last] {
        TypedNamesAreDefined(ts[..last], scopes[..last], name);
      }
    }
  }

  lemma {:induction false} TypedExpressionsEvaluate(n: Tree, ts: TypeScopes, scopes: Scopes)
    requires IsExpr(n) && Agree(ts, scopes) && TypeOf(n, ts).Some?
    ensures
      var r := Evaluate(n, scopes);
      r.Err? ==> r.error in {DivisionByZero, LiteralRange}
  {
    match n {
      case Value(_, _, _) =>
      case Id(_, name) => TypedNamesAreDefined(ts, scopes, name);
      case Expr(_, _, l, r) =>
        TypedExpressionsEvaluate(l, ts, scopes);
        TypedExpressionsEvaluate(r, ts, scopes);
      case UExpr(_, _, e) => TypedExpressionsEvaluate(e, ts, scopes);
      case IfExpr(_, c, t, e) =>
        TypedExpressionsEvaluate(c, ts, scopes);
        TypedExpressionsEvaluate(t, ts, scopes);
        TypedExpressionsEvaluate(e.value, ts, scopes);
    }
  }

  /** A statement other than a bare definition leaves the checker's scopes as they were. */
  lemma {:induction false} ArmsKeepScopes(n: Tree, ts: TypeScopes)
    requires IsStmt(n) && ArmsBraced(n) && !n.Define?
    requires n.Block? || ts != []
    requires CheckStmt(n, ts).Some?
    ensures CheckStmt(n, ts).value == ts
    decreases n, 1
  {
    match n {
      case IfStmt(_, _, t, e) =>
        ArmsKeepScopes(t, ts);
        if e.Some? {
          ArmsKeepScopes(e.value, ts);
        }
      case Block(_, ss) =>
        StatementsKeepOuterScopes(ss, ts + [map[]]);
      case _ =>
    }
  }

  lemma {:induction false} StatementsKeepOuterScopes(ss: seq<Tree>, ts: TypeScopes)
    requires AreStmts(ss) && AllArmsBraced(ss) && ts != []
    requires CheckStmts(ss, ts).Some?
    ensures CheckStmts(ss, ts).value[..|ts| - 1] == ts[..|ts| - 1]
    decreases ss, 0
  {
    if ss != [] {
      var ts1 := CheckStmt(ss[0], ts).value;
      if !ss[0].Define? {
        ArmsKeepScopes(ss[0], ts);
      }
      StatementsKeepOuterScopes(ss[1..], ts1);
    }
  }

  /** The faults that the checker does not look for. */
  predicate Unchecked(f: Fault) {
    f in {DivisionByZero, LiteralRange, NameRedefinition}
  }

  /** The simulation: an accepted statement keeps the two scope stacks in step or ends in an unchecked fault. */
  lemma {:induction false} CheckedStatementsRun(n: Tree, ts: TypeScopes, w: World)
    requires IsStmt(n) && ArmsBraced(n)
    requires n.Block? || w.scopes != []
    requires Agree(ts, w.scopes) && CheckStmt(n, ts).Some?
    ensures
      var r := Execute(n, w);
      if r.Finished? then Agree(CheckStmt(n, ts).value, r.world.scopes) else Unchecked(r.fault)
    decreases n, 1
  {
    match n {
      case Echo(_, e) => TypedExpressionsEvaluate(e, ts, w.scopes);
      case Define(_, id, e) => TypedExpressionsEvaluate(e, ts, w.scopes);
      case Assign(_, l, e) =>
        TypedExpressionsEvaluate(e, ts, w.scopes);
        TypedNamesAreDefined(ts, w.scopes, l.name);
      case IfStmt(_, c, t, e) =>
        TypedExpressionsEvaluate(c, ts, w.scopes);
        ArmsKeepScopes(t, ts);
        CheckedStatementsRun(t, ts, w);
        if e.Some? {
          ArmsKeepScopes(e.value, ts);
          CheckedStatementsRun(e.value, ts, w);
        }
      case Block(_, ss) =>
        CheckedListsRun(ss, ts + [map[]], w.(scopes := w.scopes + [map[]]));
    }
  }

  lemma {:induction false} CheckedListsRun(ss: seq<Tree>, ts: TypeScopes, w: World)
    requires AreStmts(ss) && AllArmsBraced(ss)
    requires w.scopes != [] && Agree(ts, w.scopes) && CheckStmts(ss, ts).Some?
    ensures
      var r := ExecuteAll(ss, w);
      if r.Finished? then Agree(CheckStmts(ss, ts).value, r.world.scopes) else Unchecked(r.fault)
    decreases ss, 0
  {
    if ss != [] {
      CheckedStatementsRun(ss[0], ts, w);
      var r := Execute(ss[0], w);
      if r.Finished? {
        CheckedListsRun(ss[1..], CheckStmt(ss[0], ts).value, r.world);
      }
    }
  }

  /**
   If the walker accepts a program with the checker's table, then the same walker with the executor's
   table runs it to the end or stops for a division by zero, a redefinition in one scope or a literal
   out of range: no undefined name, no unknown operator, no stack underflow or overflow, no bad
   reference.
   */
  lemma CheckedProgramsRun(root: Tree, slots: nat, cs: CheckState, es: ExecState)
    requires root.Block? && IsStmt(root) && Separate(root) && ArmsBraced(root)
    requires slots >= 2 * Height(root) - 1 && |es.stack| + Height(root) <= es.capacity
    requires Agree(cs.scopes, es.scopes)
    ensures
      var accepted := WalkRoot(CheckOps, slots, root, cs).Go?;
      var run := WalkRoot(ExecOps, slots, root, es);
      accepted ==> run.Go? || Unchecked(run.fault)
  {
    ProgramChecks(root, slots, cs);
    ProgramRefines(root, slots, es);
    if CheckStmt(root, cs.scopes).Some? {
      CheckedStatementsRun(root, cs.scopes, World(es.scopes, es.out));
    }
  }

  // ----- when variables keep their types -----

  /**
   Every assignment gives its target a value of the type that the innermost scope owning the name gives
   it. This is decided on the tree, with the scopes that the checker has at each assignment.
   */
  predicate AssignsTyped(n: Tree, ts: TypeScopes)
    requires IsStmt(n) && (n.Block? || ts != []) && CheckStmt(n, ts).Some?
    decreases n, 1
  {
    match n
    case Assign(_, l, e) => TypeOf(e, ts) == Some(ScopeGet(ts, l.name))
    case IfStmt(_, _, t, e) => AssignsTyped(t, ts) && (e.Some? ==> AssignsTyped(e.value, CheckStmt(t, ts).value))
    case Block(_, ss) => AllAssignsTyped(ss, ts + [map[]])
    case _ => true
  }

  predicate AllAssignsTyped(ss: seq<Tree>, ts: TypeScopes)
    requires AreStmts(ss) && ts != [] && CheckStmts(ss, ts).Some?
    decreases ss, 0
  {
    ss == [] || (AssignsTyped(ss[0], ts) && AllAssignsTyped(ss[1..], CheckStmt(ss[0], ts).value))
  }

  predicate IsTruth(v: int) {
    v == 0 || v == 1
  }

  /** Every variable has a type, and every variable typed bool holds a truth value. */
  ghost predicate Conforms(ts: TypeScopes, scopes: Scopes) {
    && Agree(ts, scopes)
    && (forall i, x :: 0 <= i < |ts| && x in ts[i] ==> ts[i][x] != NoneType && ts[i][x] != UnknownType)
    && (forall i, x :: 0 <= i < |ts| && x in ts[i] && ts[i][x] == BoolType ==> IsTruth(scopes[i][x]))
  }

  /** The checker and the executor mean the same variable by a name. */
  lemma {:induction false} SameOwner(ts: TypeScopes, scopes: Scopes, name: string)
    requires Conforms(ts, scopes)
    ensures
      var o := Owner(scopes, name);
      if o.Some? then name in ts[o.value] && ScopeGet(ts, name) == ts[o.value][name]
      else ScopeGet(ts, name) == UnknownType
  {
    var last := |ts| - 1;
    if ts != [] && name !in ts[last] {
      assert Conforms(ts[..last], scopes[..last]);
      SameOwner(ts[..last], scopes[..last], name);
    }
  }

  lemma {:induction false} BoolsAreTruths(n: Tree, ts: TypeScopes, scopes: Scopes)
    requires IsExpr(n) && Conforms(ts, scopes) && TypeOf(n, ts) == Some(BoolType)
    ensures Evaluate(n, scopes).Ok? ==> IsTruth(Evaluate(n, scopes).value)
  {
    match n {
      case Id(_, name) => SameOwner(ts, scopes, name);
      case IfExpr(_, _, t, e) =>
        BoolsAreTruths(t, ts, scopes);
        BoolsAreTruths(e.value, ts, scopes);
      case _ =>
    }
  }

  /** Exactly when writing a variable keeps it at its type. */
  lemma WriteConformsIff(ts: TypeScopes, scopes: Scopes, o: nat, name: string, v: int)
    requires Conforms(ts, scopes) && o < |ts| && name in ts[o]
    ensures Conforms(ts, scopes[o := scopes[o][name := v]]) <==> ts[o][name] != BoolType || IsTruth(v)
  {
    var scopes' := scopes[o := scopes[o][name := v]];
    assert scopes'[o][name] == v;
    assert scopes'[o].Keys == scopes[o].Keys;
  }

  lemma AddConforms(ts: TypeScopes, scopes: Scopes, name: string, t: TypeId, v: int)
    requires Conforms(ts, scopes) && ts != [] && t != NoneType && t != UnknownType && (t == BoolType ==> IsTruth(v))
    ensures
      var top := |ts| - 1;
      Conforms(ScopePut(ts, name, t), scopes[top := scopes[top][name := v]])
  {
  }

  lemma DefineConforms(n: Tree, ts: TypeScopes, w: World)
    requires IsStmt(n) && n.Define? && w.scopes != []
    requires Conforms(ts, w.scopes) && CheckStmt(n, ts).Some?
    ensures Execute(n, w).Finished? ==> Conforms(CheckStmt(n, ts).value, Execute(n, w).world.scopes)
  {
    hide Conforms, ScopePut;
    var t := TypeOf(n.expr, ts).value;
    if t == BoolType {
      BoolsAreTruths(n.expr, ts, w.scopes);
    }
    if Execute(n, w).Finished? {
      AddConforms(ts, w.scopes, n.id.name, t, Evaluate(n.expr, w.scopes).value);
      SameDepth(ts, w.scopes);
    }
  }

  lemma SameDepth(ts: TypeScopes, scopes: Scopes)
    requires Conforms(ts, scopes)
    ensures |ts| == |scopes|
  {
  }

  /** An accepted statement that assigns by type keeps every variable at its type. */
  lemma {:induction false} TypedStatementsConform(n: Tree, ts: TypeScopes, w: World)
    requires IsStmt(n) && ArmsBraced(n) && (n.Block? || w.scopes != [])
    requires Conforms(ts, w.scopes) && CheckStmt(n, ts).Some? && AssignsTyped(n, ts)
    ensures Execute(n, w).Finished? ==> Conforms(CheckStmt(n, ts).value, Execute(n, w).world.scopes)
    decreases n, 1
  {
    hide Conforms, Agree;
    SameDepth(ts, w.scopes);
    match n {
      case Echo(_, _) =>
      case Define(_, _, _) => DefineConforms(n, ts, w);
      case Assign(_, _, e) =>
        if Execute(n, w).Finished? {
          AssignmentConformsIff(n, ts, w);
          if TypeOf(e, ts) == Some(BoolType) {
            BoolsAreTruths(e, ts, w.scopes);
          }
        }
      case IfStmt(_, _, t, e) =>
        ArmsKeepScopes(t, ts);
        TypedStatementsConform(t, ts, w);
        if e.Some? {
          ArmsKeepScopes(e.value, ts);
          TypedStatementsConform(e.value, ts, w);
        }
      case Block(_, ss) => TypedBlocksConform(n, ts, w);
    }
  }

  lemma {:induction false} TypedBlocksConform(n: Tree, ts: TypeScopes, w: World)
    requires IsStmt(n) && n.Block? && ArmsBraced(n)
    requires Conforms(ts, w.scopes) && CheckStmt(n, ts).Some? && AssignsTyped(n, ts)
    ensures Execute(n, w).Finished? ==> Conforms(CheckStmt(n, ts).value, Execute(n, w).world.scopes)
    decreases n, 0
  {
    var ts1, w1 := ts + [map[]], w.(scopes := w.scopes + [map[]]);
    assert Conforms(ts1, w1.scopes);
    TypedListsConform(n.stmts, ts1, w1);
  }

  lemma {:induction false} TypedListsConform(ss: seq<Tree>, ts: TypeScopes, w: World)
    requires AreStmts(ss) && AllArmsBraced(ss) && w.scopes != []
    requires Conforms(ts, w.scopes) && CheckStmts(ss, ts).Some? && AllAssignsTyped(ss, ts)
    ensures ExecuteAll(ss, w).Finished? ==> Conforms(CheckStmts(ss, ts).value, ExecuteAll(ss, w).world.scopes)
    decreases ss, 0
  {
    hide Conforms;
    SameDepth(ts, w.scopes);
    if ss != [] {
      TypedStatementsConform(ss[0], ts, w);
      var r := Execute(ss[0], w);
      if r.Finished? {
        SameDepth(CheckStmt(ss[0], ts).value, r.world.scopes);
        TypedListsConform(ss[1..], CheckStmt(ss[0], ts).value, r.world);
      }
    }
  }

  /** The same of the two walks of a whole program. */
  lemma TypedProgramsConform(root: Tree, slots: nat, cs: CheckState, es: ExecState)
    requires root.Block? && IsStmt(root) && Separate(root) && ArmsBraced(root)
    requires slots >= 2 * Height(root) - 1 && |es.stack| + Height(root) <= es.capacity
    requires Conforms(cs.scopes, es.scopes)
    ensures
      var accepted := WalkRoot(CheckOps, slots, root, cs);
      var run := WalkRoot(ExecOps, slots, root, es);
      accepted.Go? ==>
        CheckStmt(root, cs.scopes).Some?
        && (AssignsTyped(root, cs.scopes) && run.Go? ==> Conforms(accepted.ctx.scopes, run.ctx.scopes))
  {
    ProgramChecks(root, slots, cs);
    ProgramRefines(root, slots, es);
    hide Conforms, WalkRoot;
    if CheckStmt(root, cs.scopes).Some? && AssignsTyped(root, cs.scopes) {
      TypedStatementsConform(root, cs.scopes, World(es.scopes, es.out));
    }
  }

  /**
   Exactly when an accepted assignment keeps its target at its type, from any conforming state: the target
   is not a bool, or the value assigned is a truth value.
   */
  lemma AssignmentConformsIff(n: Tree, ts: TypeScopes, w: World)
    requires IsStmt(n) && n.Assign? && ts != [] && Conforms(ts, w.scopes) && CheckStmt(n, ts).Some?
    requires Evaluate(n.expr, w.scopes).Ok?
    ensures
      var v := Evaluate(n.expr, w.scopes).value;
      var r := Execute(n, w);
      && r.Finished?
      && (Conforms(CheckStmt(n, ts).value, r.world.scopes) <==> ScopeGet(ts, n.lexpr.name) != BoolType || IsTruth(v))
  {
    hide Conforms;
    SameDepth(ts, w.scopes);
    SameOwner(ts, w.scopes, n.lexpr.name);
    WriteConformsIff(ts, w.scopes, Owner(w.scopes, n.lexpr.name).value, n.lexpr.name, Evaluate(n.expr, w.scopes).value);
  }

  // ----- what acceptance does not promise -----

  lemma OneStatement(s: Tree, ts: TypeScopes, w: World)
    requires IsStmt(s) && ts != [] && w.scopes != []
    ensures AreStmts([s]) && AllArmsBraced([s]) == ArmsBraced(s)
    ensures CheckStmts([s], ts) == CheckStmt(s, ts)
    ensures ExecuteAll([s], w) == Execute(s, w)
  {
    assert [s][1..] == [];
  }

  /** A list of two statements, unfolded. */
  lemma TwoStatements(s1: Tree, s2: Tree, ts: TypeScopes, w: World)
    requires IsStmt(s1) && IsStmt(s2) && ts != [] && w.scopes != []
    ensures AreStmts([s1, s2]) && AllArmsBraced([s1, s2]) == (ArmsBraced(s1) && ArmsBraced(s2))
    ensures
      var r := CheckStmt(s1, ts);
      CheckStmts([s1, s2], ts) == if r.None? then None else CheckStmt(s2, r.value)
    ensures
      var r := Execute(s1, w);
      ExecuteAll([s1, s2], w) == if r.Failed? then r else Execute(s2, r.world)
  {
    var last: seq<Tree> := [s2];
    assert [s1, s2][1..] == last;
    var ts1 := CheckStmt(s1, ts);
    var w1 := Execute(s1, w).world;
    OneStatement(s2, if ts1.Some? then ts1.value else ts, w1);
  }

  // ----- when a statement keeps the two scope stacks in step -----

  /** The names that the checker adds to the innermost scope: definitions in both arms of an `if`. */
  function Opens(n: Tree): set<string>
    requires IsStmt(n)
    decreases n
  {
    match n
    case Define(_, id, _) => {id.name}
    case IfStmt(_, _, t, e) => Opens(t) + if e.Some? then Opens(e.value) else {}
    case _ => {}
  }

  /** The names that the executor adds to it: definitions along the arms that the tests choose. */
  function Takes(n: Tree, w: World): set<string>
    requires IsStmt(n)
    decreases n
  {
    match n
    case Define(_, id, _) => {id.name}
    case IfStmt(_, c, t, e) =>
      (match Evaluate(c, w.scopes)
       case Err(_) => {}
       case Ok(v) => if v != 0 then Takes(t, w) else if e.Some? then Takes(e.value, w) else {})
    case _ => {}
  }

  lemma {:induction false} TakesWithinOpens(n: Tree, w: World)
    requires IsStmt(n)
    ensures Takes(n, w) <= Opens(n)
    decreases n
  {
    hide Evaluate;
    if n.IfStmt? {
      TakesWithinOpens(n.thenArm, w);
      if n.elseArm.Some? {
        TakesWithinOpens(n.elseArm.value, w);
      }
    }
  }

  /** `after` has the names of `before`, and in its innermost scope the names `added` besides. */
  ghost predicate Grown<V>(before: seq<map<string, V>>, after: seq<map<string, V>>, added: set<string>) {
    && |after| == |before| > 0
    && (forall i :: 0 <= i < |before| - 1 ==> after[i].Keys == before[i].Keys)
    && after[|before| - 1].Keys == before[|before| - 1].Keys + added
  }

  lemma {:induction false} CheckingGrows(n: Tree, ts: TypeScopes)
    requires IsStmt(n) && ts != [] && CheckStmt(n, ts).Some?
    ensures Grown(ts, CheckStmt(n, ts).value, Opens(n))
    decreases n, 1
  {
    hide TypeOf, ScopeGet;
    match n
    case IfStmt(_, _, t, e) =>
      CheckingGrows(t, ts);
      if e.Some? {
        CheckingGrows(e.value, CheckStmt(t, ts).value);
      }
    case Block(_, ss) => ListCheckingGrows(ss, ts + [map[]]);
    case _ =>
  }

  lemma {:induction false} ListCheckingGrows(ss: seq<Tree>, ts: TypeScopes)
    requires AreStmts(ss) && ts != [] && CheckStmts(ss, ts).Some?
    ensures |CheckStmts(ss, ts).value| == |ts|
    ensures forall i :: 0 <= i < |ts| - 1 ==> CheckStmts(ss, ts).value[i].Keys == ts[i].Keys
    decreases ss, 0
  {
    if ss != [] {
      CheckingGrows(ss[0], ts);
      ListCheckingGrows(ss[1..], CheckStmt(ss[0], ts).value);
    }
  }

  lemma {:induction false} ExecutionGrows(n: Tree, w: World)
    requires IsStmt(n) && w.scopes != [] && Execute(n, w).Finished?
    ensures Grown(w.scopes, Execute(n, w).world.scopes, Takes(n, w))
    decreases n, 1
  {
    hide Evaluate, Owner;
    match n
    case Assign(_, l, _) =>
      var o := Owner(w.scopes, l.name);
      assert o.Some? && l.name in w.scopes[o.value];
    case IfStmt(_, c, t, e) =>
      var v := Evaluate(c, w.scopes);
      if v.value != 0 {
        ExecutionGrows(t, w);
      } else if e.Some? {
        ExecutionGrows(e.value, w);
      }
    case Block(_, ss) => ListExecutionGrows(ss, w.(scopes := w.scopes + [map[]]));
    case _ =>
  }

  lemma {:induction false} ListExecutionGrows(ss: seq<Tree>, w: World)
    requires AreStmts(ss) && w.scopes != [] && ExecuteAll(ss, w).Finished?
    ensures |ExecuteAll(ss, w).world.scopes| == |w.scopes|
    ensures forall i :: 0 <= i < |w.scopes| - 1 ==> ExecuteAll(ss, w).world.scopes[i].Keys == w.scopes[i].Keys
    decreases ss, 0
  {
    if ss != [] {
      ExecutionGrows(ss[0], w);
      ListExecutionGrows(ss[1..], Execute(ss[0], w).world);
    }
  }

  /**
   Without any demand on the arms: an accepted statement that finishes keeps the two scope stacks in step
   exactly if every name that the checker adds was there already or is added by the arms that ran.
   */
  lemma StaysInStepIff(n: Tree, ts: TypeScopes, w: World)
    requires IsStmt(n) && w.scopes != [] && Agree(ts, w.scopes)
    requires CheckStmt(n, ts).Some? && Execute(n, w).Finished?
    ensures
      Agree(CheckStmt(n, ts).value, Execute(n, w).world.scopes) <==>
      Opens(n) <= w.scopes[|w.scopes| - 1].Keys + Takes(n, w)
  {
    CheckingGrows(n, ts);
    ExecutionGrows(n, w);
    TakesWithinOpens(n, w);
    hide CheckStmt, Execute, Opens, Takes, Agree, Grown;
    GrownAgreeIff(ts, w.scopes, CheckStmt(n, ts).value, Execute(n, w).world.scopes, Opens(n), Takes(n, w));
  }

  lemma GrownAgreeIff(ts: TypeScopes, scopes: Scopes, ts1: TypeScopes, scopes1: Scopes, opens: set<string>,
          takes: set<string>)
    requires Agree(ts, scopes) && Grown(ts, ts1, opens) && Grown(scopes, scopes1, takes) && takes <= opens
    ensures Agree(ts1, scopes1) <==> opens <= scopes[|scopes| - 1].Keys + takes
  {
    var last, names := |ts| - 1, scopes[|scopes| - 1].Keys;
    if opens <= names + takes {
      assert names + opens == names + takes;
    } else {
      var name :| name in opens && name !in names + takes;
      assert name in ts1[last].Keys && name !in scopes1[last].Keys;
    }
  }

  /** Braced arms define nothing outside their braces: why they are enough. */
  lemma {:induction false} BracedArmsOpenNothing(n: Tree)
    requires IsStmt(n) && ArmsBraced(n) && !n.Define?
    ensures Opens(n) == {}
    decreases n
  {
    if n.IfStmt? {
      BracedArmsOpenNothing(n.thenArm);
      if n.elseArm.Some? {
        BracedArmsOpenNothing(n.elseArm.value);
      }
    }
  }

  /**
   Along the run, every statement of a list keeps the scopes in step, and an else-arm that is taken follows
   a then-arm whose names were all there.
   */
  predicate RunsInStep(n: Tree, w: World)
    requires IsStmt(n) && (n.Block? || w.scopes != [])
    decreases n, 1
  {
    match n
    case IfStmt(_, c, t, e) =>
      (match Evaluate(c, w.scopes)
       case Err(_) => true
       case Ok(v) =>
         if v != 0 then RunsInStep(t, w)
         else e.Some? ==> Opens(t) <= w.scopes[|w.scopes| - 1].Keys && RunsInStep(e.value, w))
    case Block(_, ss) => AllRunInStep(ss, w.(scopes := w.scopes + [map[]]))
    case _ => true
  }

  predicate AllRunInStep(ss: seq<Tree>, w: World)
    requires AreStmts(ss) && w.scopes != []
    decreases ss, 0
  {
    ss == [] || (
      && RunsInStep(ss[0], w)
      && var r := Execute(ss[0], w);
         r.Finished? ==>
           && Opens(ss[0]) <= w.scopes[|w.scopes| - 1].Keys + Takes(ss[0], w)
           && AllRunInStep(ss[1..], r.world))
  }

  /** Soundness for every accepted statement, braced or not, as far as it runs in step. */
  lemma {:induction false} InStepStatementsRun(n: Tree, ts: TypeScopes, w: World)
    requires IsStmt(n) && w.scopes != [] && Agree(ts, w.scopes) && CheckStmt(n, ts).Some? && RunsInStep(n, w)
    ensures Execute(n, w).Failed? ==> Unchecked(Execute(n, w).fault)
    decreases n, 1
  {
    hide Agree, TypeOf, Evaluate;
    match n {
      case Echo(_, e) => TypedExpressionsEvaluate(e, ts, w.scopes);
      case Define(_, _, e) => TypedExpressionsEvaluate(e, ts, w.scopes);
      case Assign(_, l, e) =>
        TypedExpressionsEvaluate(e, ts, w.scopes);
        TypedNamesAreDefined(ts, w.scopes, l.name);
      case IfStmt(_, c, t, e) =>
        TypedExpressionsEvaluate(c, ts, w.scopes);
        var v := Evaluate(c, w.scopes);
        if v.Ok? {
          if v.value != 0 {
            InStepStatementsRun(t, ts, w);
          } else if e.Some? {
            AgreeDepth(ts, w.scopes);
            ElseArmAgrees(t, ts, w);
            InStepStatementsRun(e.value, CheckStmt(t, ts).value, w);
          }
        }
      case Block(_, ss) =>
        OpenedAgree(ts, w.scopes);
        InStepListsRun(ss, ts + [map[]], w.(scopes := w.scopes + [map[]]));
    }
  }

  lemma ElseArmAgrees(t: Tree, ts: TypeScopes, w: World)
    requires IsStmt(t) && w.scopes != [] && Agree(ts, w.scopes) && CheckStmt(t, ts).Some?
    requires Opens(t) <= w.scopes[|w.scopes| - 1].Keys
    ensures Agree(CheckStmt(t, ts).value, w.scopes)
  {
    CheckingGrows(t, ts);
    hide CheckStmt, Opens, Agree, Grown;
    NothingTaken(w.scopes);
    GrownAgreeIff(ts, w.scopes, CheckStmt(t, ts).value, w.scopes, Opens(t), {});
  }

  lemma NothingTaken(scopes: Scopes)
    requires scopes != []
    ensures Grown(scopes, scopes, {})
  {
  }

  lemma AgreeDepth(ts: TypeScopes, scopes: Scopes)
    requires Agree(ts, scopes)
    ensures |ts| == |scopes|
  {
  }

  lemma OpenedAgree(ts: TypeScopes, scopes: Scopes)
    requires Agree(ts, scopes)
    ensures Agree(ts + [map[]], scopes + [map[]])
  {
  }

  lemma {:induction false} InStepListsRun(ss: seq<Tree>, ts: TypeScopes, w: World)
    requires AreStmts(ss) && w.scopes != [] && Agree(ts, w.scopes) && CheckStmts(ss, ts).Some? && AllRunInStep(ss, w)
    ensures ExecuteAll(ss, w).Failed? ==> Unchecked(ExecuteAll(ss, w).fault)
    decreases ss, 0
  {
    hide Agree, CheckStmt, Execute, Opens, Takes, RunsInStep;
    AgreeDepth(ts, w.scopes);
    if ss != [] {
      InStepStatementsRun(ss[0], ts, w);
      var r := Execute(ss[0], w);
      if r.Finished? {
        StaysInStepIff(ss[0], ts, w);
        InStepListsRun(ss[1..], CheckStmt(ss[0], ts).value, r.world);
      }
    }
  }

  /** The same of the two walks of a whole program. */
  lemma InStepProgramsRun(root: Tree, slots: nat, cs: CheckState, es: ExecState)
    requires root.Block? && IsStmt(root) && Separate(root) && RunsInStep(root, World(es.scopes, es.out))
    requires slots >= 2 * Height(root) - 1 && |es.stack| + Height(root) <= es.capacity
    requires Agree(cs.scopes, es.scopes)
    ensures
      var accepted := WalkRoot(CheckOps, slots, root, cs).Go?;
      var run := WalkRoot(ExecOps, slots, root, es);
      accepted ==> run.Go? || Unchecked(run.fault)
  {
    ProgramChecks(root, slots, cs);
    ProgramRefines(root, slots, es);
    hide Agree, WalkRoot;
    if CheckStmt(root, cs.scopes).Some? {
      var w := World(es.scopes, es.out);
      OpenedAgree(cs.scopes, es.scopes);
      InStepListsRun(root.stmts, cs.scopes + [map[]], w.(scopes := w.scopes + [map[]]));
    }
  }

  /** Braced programs always run in step. */
  lemma {:induction false} BracedRunsInStep(n: Tree, w: World)
    requires IsStmt(n) && ArmsBraced(n) && (n.Block? || w.scopes != [])
    ensures RunsInStep(n, w)
    decreases n, 1
  {
    hide Evaluate;
    match n
    case IfStmt(_, _, t, e) =>
      BracedRunsInStep(t, w);
      BracedArmsOpenNothing(t);
      if e.Some? {
        BracedRunsInStep(e.value, w);
      }
    case Block(_, ss) => BracedListsRunInStep(ss, w.(scopes := w.scopes + [map[]]));
    case _ =>
  }

  lemma {:induction false} BracedListsRunInStep(ss: seq<Tree>, w: World)
    requires AreStmts(ss) && AllArmsBraced(ss) && w.scopes != []
    ensures AllRunInStep(ss, w)
    decreases ss, 0
  {
    if ss != [] {
      BracedRunsInStep(ss[0], w);
      if !ss[0].Define? {
        BracedArmsOpenNothing(ss[0]);
      }
      var r := Execute(ss[0], w);
      if r.Finished? {
        BracedListsRunInStep(ss[1..], r.world);
      }
    }
  }

  /** `if c then x := e`, followed by `echo x`. */
  function EscapingProgram(c: Tree, e: Tree): seq<Tree> {
    [IfStmt(0, c, Define(1, Id(2, "x"), e), None), Echo(3, Id(4, "x"))]
  }

  /** The checker accepts the program; the executor misses `x` exactly if `c` is false and no scope has an `x`. */
  lemma BareDefinitionsEscapeTheirArm(c: Tree, e: Tree, ts: TypeScopes, w: World)
    requires IsExpr(c) && IsExpr(e) && w.scopes != [] && Agree(ts, w.scopes)
    requires TypeOf(c, ts) == Some(BoolType) && TypeOf(e, ts).Some?
    ensures AreStmts(EscapingProgram(c, e)) && !AllArmsBraced(EscapingProgram(c, e))
    ensures CheckStmts(EscapingProgram(c, e), ts).Some?
    ensures
      var r := ExecuteAll(EscapingProgram(c, e), w);
      r.Failed? && r.fault == UndefinedName <==> Evaluate(c, w.scopes) == Ok(0) && Owner(w.scopes, "x").None?
  {
    var s1, s2 := EscapingProgram(c, e)[0], EscapingProgram(c, e)[1];
    TwoStatements(s1, s2, ts, w);
    assert CheckStmt(s1, ts) == Some(ScopePut(ts, "x", TypeOf(e, ts).value));
    TypedExpressionsEvaluate(c, ts, w.scopes);
    TypedExpressionsEvaluate(e, ts, w.scopes);
  }

  /** `x := b`, followed by `x = i`. */
  function RetypingProgram(b: Tree, i: Tree): seq<Tree> {
    [Define(0, Id(1, "x"), b), Assign(2, Id(3, "x"), i)]
  }

  /**
   A variable that the checker knows as a bool ends up holding an integer, and so out of its type unless
   the integer happens to be 0 or 1.
   */
  lemma AssignmentsAreNotTyped(b: Tree, i: Tree, ts: TypeScopes, w: World)
    requires IsExpr(b) && i.Value? && i.kind == IntegerValue && |ts| == |w.scopes| != 0
    requires TypeOf(b, ts) == Some(BoolType)
    requires Evaluate(b, w.scopes).Ok? && "x" !in w.scopes[|ts| - 1]
    requires Literal(IntegerValue, i.text).Ok?
    ensures AreStmts(RetypingProgram(b, i))
    ensures
      var top := |ts| - 1;
      && CheckStmts(RetypingProgram(b, i), ts) == Some(ts[top := ts[top]["x" := BoolType]])
      && ExecuteAll(RetypingProgram(b, i), w) ==
         Finished(w.(scopes := w.scopes[top := w.scopes[top]["x" := Literal(IntegerValue, i.text).value]]))
    ensures
      Conforms(ts, w.scopes) ==>
        (Conforms(CheckStmts(RetypingProgram(b, i), ts).value, ExecuteAll(RetypingProgram(b, i), w).world.scopes) <==>
         IsTruth(Literal(IntegerValue, i.text).value))
  {
    var s1, s2 := RetypingProgram(b, i)[0], RetypingProgram(b, i)[1];
    TwoStatements(s1, s2, ts, w);
    var top := |ts| - 1;
    var w1 := w.(scopes := w.scopes[top := w.scopes[top]["x" := Evaluate(b, w.scopes).value]]);
    assert Execute(s1, w) == Finished(w1);
    var v := Literal(IntegerValue, i.text).value;
    assert Owner(w1.scopes, "x") == Some(top);
    assert Evaluate(i, w1.scopes) == Ok(v);
    assert w1.scopes[top]["x" := v] == w.scopes[top]["x" := v];
    assert w1.scopes[top := w1.scopes[top]["x" := v]] == w.scopes[top := w.scopes[top]["x" := v]];
  }
}
