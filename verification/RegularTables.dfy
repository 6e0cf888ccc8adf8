/**
 Tables whose loads do nothing and whose enter and leave operations only move the context down and up.

 For them the traversal of a node is its children's traversals, each one level down, followed by the
 node's own operation and one level up. The printer moves a depth counter; the executor and the
 checker are plain: nothing moves.
 */
module RegularTables {
  import opened Basics
  import opened Ast
  import opened Walker

  ghost predicate Regular<C(!new)>(ops: Table<C>, down: C -> C, up: C -> C) {
    forall node: Option<Tree>, c: C ::
      && ops(Load, node, c) == Go(c, true)
      && ops(Enter, node, c) == Go(down(c), true)
      && ops(Leave, node, c) == Go(up(c), true)
  }

  /** The move of a plain table. */
  function Same<C>(c: C): C {
    c
  }

  /** A node's own operation after its children, unless they faulted, and the way up. */
  function ThenOp<C>(ops: Table<C>, up: C -> C, r: Outcome<C>, op: Op, n: Tree): Outcome<C> {
    if r.Stop? then r
    else
      var r' := ops(op, Some(n), r.ctx);
      if r'.Stop? then r' else Go(up(r'.ctx), true)
  }

  lemma ChildIsTraverse<C(!new)>(ops: Table<C>, down: C -> C, up: C -> C, n: Tree, child: Option<Tree>, mode: Mode,
          c: C)
    requires Regular(ops, down, up)
    ensures Child(ops, n, child, mode, c) == Traverse(ops, child, mode, down(c))
  {
  }

  lemma CloseIsOp<C(!new)>(ops: Table<C>, down: C -> C, up: C -> C, op: Op, n: Tree, c: C)
    requires Regular(ops, down, up)
    ensures Close(ops, op, n, c) == ThenOp(ops, up, Go(c, true), op, n)
  {
  }

  lemma TraverseLeaf<C(!new)>(ops: Table<C>, down: C -> C, up: C -> C, op: Op, n: Tree, mode: Mode, c: C)
    requires Regular(ops, down, up)
    requires
      || (n.Value? && mode == Eval && op == ValueOf)
      || (n.Id? && mode == Eval && op == Identifier)
      || (n.Id? && mode == Reference && op == IdentifierRef)
    ensures Traverse(ops, Some(n), mode, c) == ThenOp(ops, up, Go(c, true), op, n)
  {
    CloseIsOp(ops, down, up, op, n, c);
  }

  lemma TraverseSingle<C(!new)>(ops: Table<C>, down: C -> C, up: C -> C, op: Op, n: Tree, e: Tree, c: C)
    requires Regular(ops, down, up)
    requires
      || (n.UExpr? && n.operand == e && op == Unary)
      || (n.Echo? && n.expr == e && op == ApplyEcho)
      || (n.Define? && n.expr == e && op == ApplyDefine)
    ensures Traverse(ops, Some(n), Eval, c) == ThenOp(ops, up, Traverse(ops, Some(e), Eval, down(c)), op, n)
  {
    var r := Child(ops, n, Some(e), Eval, c);
    ChildIsTraverse(ops, down, up, n, Some(e), Eval, c);
    CloseIsOp(ops, down, up, op, n, r.ctx);
    assert Traverse(ops, Some(n), Eval, c) == if r.Stop? then r else Close(ops, op, n, r.ctx);
  }

  lemma TraverseDouble<C(!new)>(ops: Table<C>, down: C -> C, up: C -> C, op: Op, n: Tree, first: Tree, second: Tree,
          mode: Mode, c: C)
    requires Regular(ops, down, up)
    requires
      || (n.Expr? && n.op1 == first && n.op2 == second && mode == Eval && op == Binary)
      || (n.Assign? && n.expr == first && n.lexpr == second && mode == Reference && op == ApplyAssign)
    ensures
      var r := Traverse(ops, Some(first), Eval, down(c));
      Traverse(ops, Some(n), Eval, c) ==
      if r.Stop? then r else ThenOp(ops, up, Traverse(ops, Some(second), mode, down(r.ctx)), op, n)
  {
    var r1 := Child(ops, n, Some(first), Eval, c);
    ChildIsTraverse(ops, down, up, n, Some(first), Eval, c);
    if r1.Go? {
      var r2 := Child(ops, n, Some(second), mode, r1.ctx);
      ChildIsTraverse(ops, down, up, n, Some(second), mode, r1.ctx);
      CloseIsOp(ops, down, up, op, n, r2.ctx);
      assert Traverse(ops, Some(n), Eval, c) == if r2.Stop? then r2 else Close(ops, op, n, r2.ctx);
    }
  }

  /** The condition operation, the two decisions, then the chosen arms: else first down, then first run. */
  function ChosenArms<C>(ops: Table<C>, down: C -> C, n: Tree, c: C): Outcome<C>
    requires n.IfStmt? || n.IfExpr?
  {
    var c1 :- ops(IfCond, Some(n), c);
    var d1 := ops(DecideThen, None, c1);
    var c2 :- d1;
    var d2 := ops(DecideElse, None, c2);
    var c3 :- d2;
    var c4 := if d2.yes then down(c3) else c3;
    var c5 :- if d1.yes then Traverse(ops, Some(n.thenArm), Eval, down(c4)) else Go(c4, true);
    if d2.yes then Traverse(ops, n.elseArm, Eval, c5) else Go(c5, true)
  }

  lemma ChooseIsChosenArms<C(!new)>(ops: Table<C>, down: C -> C, up: C -> C, n: Tree, c: C)
    requires Regular(ops, down, up)
    requires n.IfStmt? || n.IfExpr?
    ensures Choose(ops, n, n.thenArm, n.elseArm, c) == ChosenArms(ops, down, n, c)
  {
    var r0 := ops(IfCond, Some(n), c);
    if r0.Go? {
      assert Choose(ops, n, n.thenArm, n.elseArm, c) == Decided(ops, n.thenArm, n.elseArm, r0.ctx);
    }
  }

  lemma TraverseIf<C(!new)>(ops: Table<C>, down: C -> C, up: C -> C, n: Tree, c: C)
    requires Regular(ops, down, up)
    requires n.IfStmt? || n.IfExpr?
    ensures
      var r := Traverse(ops, Some(n.cond), Eval, down(c));
      Traverse(ops, Some(n), Eval, c) ==
      if r.Stop? then r
      else ThenOp(ops, up, ChosenArms(ops, down, n, r.ctx), if n.IfStmt? then IfPost else IfExprPost, n)
  {
    var r := Child(ops, n, Some(n.cond), Eval, c);
    ChildIsTraverse(ops, down, up, n, Some(n.cond), Eval, c);
    if r.Go? {
      var r2 := Choose(ops, n, n.thenArm, n.elseArm, r.ctx);
      ChooseIsChosenArms(ops, down, up, n, r.ctx);
      CloseIsOp(ops, down, up, if n.IfStmt? then IfPost else IfExprPost, n, r2.ctx);
    }
  }

  lemma TraverseNull<C(!new)>(ops: Table<C>, down: C -> C, up: C -> C, c: C)
    requires Regular(ops, down, up)
    ensures Traverse(ops, None, Eval, c) == Go(up(c), true)
  {
  }

  /** A block opens a scope, traverses its statements in order and closes the scope. */
  lemma TraverseBlock<C(!new)>(ops: Table<C>, down: C -> C, up: C -> C, n: Tree, c: C)
    requires Regular(ops, down, up)
    requires n.Block?
    ensures
      var r := ops(ScopePush, None, c);
      Traverse(ops, Some(n), Eval, c) ==
      if r.Stop? then r else ThenOp(ops, up, Rest(ops, n, n.stmts, r.ctx), ScopePop, n)
  {
    var r1 := ops(ScopePush, None, c);
    if r1.Go? {
      var ss := n.stmts;
      var r2 := Rest(ops, n, ss, r1.ctx);
      CloseIsOp(ops, down, up, ScopePop, n, r2.ctx);
      if ss != [] {
        ChildIsTraverse(ops, down, up, n, Some(ss[0]), Eval, r1.ctx);
        var r := Traverse(ops, Some(ss[0]), Eval, down(r1.ctx));
        if r.Go? {
          var r3 := Rest(ops, n, ss[1..], r.ctx);
          assert r2 == r3;
          CloseIsOp(ops, down, up, ScopePop, n, r3.ctx);
        }
      }
    }
  }

  lemma RestIsTraversals<C(!new)>(ops: Table<C>, down: C -> C, up: C -> C, n: Tree, ss: seq<Tree>, c: C)
    requires Regular(ops, down, up)
    requires ss != []
    ensures
      var r := Traverse(ops, Some(ss[0]), Eval, down(c));
      Rest(ops, n, ss, c) == if r.Stop? then r else Rest(ops, n, ss[1..], r.ctx)
  {
    ChildIsTraverse(ops, down, up, n, Some(ss[0]), Eval, c);
  }
}
