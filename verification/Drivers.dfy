/**
 The commands of the program (bootstrap/main.c:28-238): each parses, allocates a walker with
 `2 * height + 1` task slots over one of the four machines, and runs it. Here the theorems about the walks
 meet the walker as a machine. Reading the source file and printing messages are not part of this model.
 */
module Drivers {
  import opened Basics
  import opened Tokens
  import opened Ast
  import opened W = Walker
  import opened Grammar
  import opened Engine
  import opened Programs
  import opened RoundTrip
  import Exec
  import Checker
  import CheckerMachine
  import Dump
  import Free
  import FreeMachine
  import ParserMachine
  import ParserSafety
  import ProgramRoundTrip
  import opened WalkerMachine

  function SlotsFor(root: Tree): (n: nat)
    ensures n >= 2 * Height(root) - 1 && n > 0
  {
    2 * Height(root) + 1
  }

  /** free_ast: the memory is released in post-order. */
  method FreeAst(root: Tree) returns (released: Free.Released, success: bool)
    ensures
      var r := EnterAndTraverse(Free.FreeOps, Some(root), Eval, []);
      released == r.ctx && success == r.Go?
    ensures Free.Releasable(root) && Separate(root) ==> success && released == Free.PostOrder(root)
  {
    hide Free.FreeOps, WalkRoot, EnterAndTraverse;
    var fr := new FreeMachine.AstFree();
    var walker := new WalkerMachine.Walker(ForFree(fr), SlotsFor(root));
    success := walker.WalkerRun(root);
    released := fr.released;
    AnyWalkIs(SlotsFor(root), root);
    WalkIsTraversal(Free.FreeOps, SlotsFor(root), root, []);
    if Free.Releasable(root) && Separate(root) {
      Free.FreesProgram(root, SlotsFor(root));
    }
  }

  /** run_exec, behind the parser: the exit code and what was printed are those of the direct evaluator. */
  method ExecTree(root: Tree) returns (code: nat, printed: seq<int>)
    ensures
      root.Block? && IsStmt(root) ==>
        var e := Exec.Execute(root, Exec.World([], []));
        printed == e.world.out && code == if e.Finished? then 0 else 1
  {
    hide Exec.ExecOps, Exec.Execute, WalkRoot, EnterAndTraverse, IsStmt;
    var size := SlotsFor(root);
    var em := new Exec.ExecMachine(size);
    ghost var initial := em.State();
    var walker := new WalkerMachine.Walker(ForExec(em), size);
    var success := walker.WalkerRun(root);
    AnyWalkIs(size, root);
    if root.Block? && IsStmt(root) {
      Exec.ProgramRefines(root, size, initial);
    }
    printed := em.printed;
    var _, _ := FreeAst(root);
    return if success then 0 else 1, printed;
  }

  /** run_check, behind the parser: the exit code says whether the typing rules accept the program. */
  method CheckTree(root: Tree) returns (code: nat)
    ensures
      root.Block? && IsStmt(root) && Separate(root) ==>
        code == if Checker.CheckStmt(root, []).Some? then 0 else 1
  {
    hide Checker.CheckOps, Checker.CheckStmt, WalkRoot, EnterAndTraverse, IsStmt, Separate;
    var ch := new CheckerMachine.TypeChecker();
    ghost var initial := ch.State();
    var walker := new WalkerMachine.Walker(ForCheck(ch), SlotsFor(root));
    var success := walker.WalkerRun(root);
    AnyWalkIs(SlotsFor(root), root);
    if root.Block? && IsStmt(root) && Separate(root) {
      Checker.ProgramChecks(root, SlotsFor(root), initial);
    }
    var _, _ := FreeAst(root);
    return if success then 0 else 1;
  }

  /** run_ast, behind the parser: the lines printed are those of the recursive printer. */
  method DumpTree(root: Tree) returns (code: nat, lines: seq<Dump.Line>)
    ensures Dump.Printable(root) ==> code == 0 && lines == Dump.Show(root, 1)
  {
    hide Dump.Show, Dump.Printable, Dump.Joined, Dump.DumpOps, WalkRoot, EnterAndTraverse;
    var dmp := new Dump.AstDump();
    ghost var initial := dmp.State();
    var walker := new WalkerMachine.Walker(ForDump(dmp), SlotsFor(root));
    var success := walker.WalkerRun(root);
    AnyWalkIs(SlotsFor(root), root);
    if Dump.Printable(root) {
      Dump.PrintsProgram(root, SlotsFor(root), initial);
      assert initial.chains + [Dump.Show(root, 1)] == [Dump.Show(root, 1)];
      Dump.JoinTwo(Dump.Show(root, 1), []);
    }
    lines := dmp.Print();
    var _, _ := FreeAst(root);
    return if success then 0 else 1, lines;
  }

  // ----- from the tokens to the exit code -----

  /** The exit code of a program that was parsed, and what it prints. */
  function Observed(root: Tree): (int, seq<int>)
    requires root.Block? && IsStmt(root)
  {
    var e := Exec.Execute(root, Exec.World([], []));
    (if e.Finished? then 0 else 1, e.world.out)
  }

  /** run_exec: where there is no program, nothing runs and the exit code is 4. */
  method RunExec(toks: Stream) returns (code: nat, printed: seq<int>)
    ensures
      var o := ParseRule(Language, toks, Prog, 0, 0);
      var accepted := o.Reduced? && o.arg.NodeArg? && KindAt(toks, o.pos) == TokUndef;
      && (!accepted ==> code == 4 && printed == [])
      && (accepted && IsStmt(o.arg.node) ==> o.arg.node.Block? && (code, printed) == Observed(o.arg.node))
  {
    hide ParseRule, Exec.Execute, IsStmt;
    var parsed := ParserMachine.ParseProgram(toks);
    if parsed.None? {
      return 4, [];
    }
    assert ParserSafety.ParsedBlock(parsed.value) && parsed.value.Block?;
    code, printed := ExecTree(parsed.value);
  }

  lemma {:induction false} EvaluateSame(n: Tree, m: Tree, scopes: Exec.Scopes)
    requires IsExpr(n) && Bare(n) == Bare(m)
    ensures IsExpr(m) && Exec.Evaluate(n, scopes) == Exec.Evaluate(m, scopes)
    decreases n
  {
    match n
    case Expr(_, _, l, r) =>
      EvaluateSame(l, m.op1, scopes);
      EvaluateSame(r, m.op2, scopes);
    case UExpr(_, _, e) => EvaluateSame(e, m.operand, scopes);
    case IfExpr(_, c, t, e) =>
      EvaluateSame(c, m.cond, scopes);
      EvaluateSame(t, m.thenArm, scopes);
      EvaluateSame(e.value, m.elseArm.value, scopes);
    case _ =>
  }

  /** Execution does not look at positions. */
  lemma {:induction false} ExecuteSame(n: Tree, m: Tree, w: Exec.World)
    requires IsStmt(n) && Bare(n) == Bare(m) && (n.Block? || w.scopes != [])
    ensures IsStmt(m) && (n.Block? <==> m.Block?) && Exec.Execute(n, w) == Exec.Execute(m, w)
    decreases n, 1
  {
    BareParts(n, m);
    hide Bare, Exec.Evaluate, Exec.ExecuteAll, Exec.Owner, IsExpr;
    match n
    case Echo(_, e) => EvaluateSame(e, m.expr, w.scopes);
    case Define(_, _, e) => EvaluateSame(e, m.expr, w.scopes);
    case Assign(_, _, e) => EvaluateSame(e, m.expr, w.scopes);
    case IfStmt(_, c, t, e) =>
      EvaluateSame(c, m.cond, w.scopes);
      ExecuteSame(t, m.thenArm, w);
      if e.Some? {
        ExecuteSame(e.value, m.elseArm.value, w);
      }
    case Block(_, ss) =>
      BareStmts(n, m);
      ExecuteAllSame(ss, m.stmts, w.(scopes := w.scopes + [map[]]));
  }

  lemma BareParts(n: Tree, m: Tree)
    requires IsStmt(n) && Bare(n) == Bare(m)
    ensures n.Echo? ==> m.Echo? && Bare(n.expr) == Bare(m.expr)
    ensures n.Define? ==> m.Define? && m.id.Id? && m.id.name == n.id.name && Bare(n.expr) == Bare(m.expr)
    ensures n.Assign? ==> m.Assign? && m.lexpr.Id? && m.lexpr.name == n.lexpr.name && Bare(n.expr) == Bare(m.expr)
    ensures n.IfStmt? ==>
      && m.IfStmt? && Bare(n.cond) == Bare(m.cond) && Bare(n.thenArm) == Bare(m.thenArm)
      && n.elseArm.Some? == m.elseArm.Some? && (n.elseArm.Some? ==> Bare(n.elseArm.value) == Bare(m.elseArm.value))
    ensures n.Block? ==> m.Block?
  {
  }

  lemma BareStmts(n: Tree, m: Tree)
    requires n.Block? && Bare(n) == Bare(m)
    ensures m.Block? && |m.stmts| == |n.stmts|
    ensures forall i :: 0 <= i < |n.stmts| ==> Bare(n.stmts[i]) == Bare(m.stmts[i])
  {
    var bare := Bare(n).stmts;
    forall i | 0 <= i < |n.stmts|
      ensures |m.stmts| == |n.stmts| && Bare(n.stmts[i]) == Bare(m.stmts[i])
    {
      assert bare[i] == Bare(n.stmts[i]);
    }
    assert |bare| == |n.stmts| && |bare| == |m.stmts|;
  }

  lemma {:induction false} ExecuteAllSame(ss: seq<Tree>, ts: seq<Tree>, w: Exec.World)
    requires AreStmts(ss) && w.scopes != [] && |ss| == |ts|
    requires forall i :: 0 <= i < |ss| ==> Bare(ss[i]) == Bare(ts[i])
    ensures AreStmts(ts) && Exec.ExecuteAll(ss, w) == Exec.ExecuteAll(ts, w)
    decreases ss, 0
  {
    if ss != [] {
      ExecuteSame(ss[0], ts[0], w);
      var e := Exec.Execute(ss[0], w);
      ExecuteAllSame(ss[1..], ts[1..], if e.Finished? then e.world else w);
    }
  }

  /** A layout that is read; where the limit leaves no room there is no program. */
  predicate IsRead(toks: Stream, b: seq<Written>) {
    && BlockPlace(toks, 0, b).Some? && BlockPlace(toks, 0, b).value.end == |toks|
    && ParseRule(Language, toks, Prog, 0, 0).Reduced?
  }

  /** In whatever layout a written program is read, it exits with the same code and prints the same. */
  lemma LayoutChangesNothing(s: Stream, t: Stream, b: seq<Written>)
    requires IsRead(s, b) && IsRead(t, b)
    ensures
      var (n, m) := (ParseRule(Language, s, Prog, 0, 0).arg, ParseRule(Language, t, Prog, 0, 0).arg);
      && n.NodeArg? && m.NodeArg? && n.node.Block? && m.node.Block? && IsStmt(n.node) && IsStmt(m.node)
      && Observed(n.node) == Observed(m.node)
  {
    hide BlockPlace, ParseRule, Bare, Exec.Execute, IsStmt, ProgramRoundTrip.BlockMeaning, ProgramRoundTrip.WriteBlock;
    hide BlockRoom;
    ProgramRoundTrip.WrittenProgramParses(s, b);
    ProgramRoundTrip.WrittenProgramParses(t, b);
    var n, m := BlockPlace(s, 0, b).value.tree, BlockPlace(t, 0, b).value.tree;
    ProgramRoundTrip.BlockLeast(s, 0, b);
    ProgramRoundTrip.WritableIsStmt(n);
    assert ProgramRoundTrip.WritableBlock(n) && n.Block?;
    ExecuteSame(n, m, Exec.World([], []));
  }
}
