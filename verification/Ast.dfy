/**
 Syntax trees and the heights that their constructors cache (bootstrap/ast.h, bootstrap/ast.c).

 A node carries a mark `at`: the walker's operations know a node by its address, the parser knows
 it by the token that created it.
 */
module Ast {
  import opened Basics
  import opened Tokens

  datatype ValueKind = IntegerValue | FloatValue | StringValue | CharValue | BoolValue

  datatype Node<+A> =
    | Value(at: A, kind: ValueKind, text: string)
    | Id(at: A, name: string)
    | Expr(at: A, op: TokenKind, op1: Node<A>, op2: Node<A>)
    | UExpr(at: A, op: TokenKind, operand: Node<A>)
    | IfExpr(at: A, cond: Node<A>, thenArm: Node<A>, elseArm: Option<Node<A>>)
    | IfStmt(at: A, cond: Node<A>, thenArm: Node<A>, elseArm: Option<Node<A>>)
    | Echo(at: A, expr: Node<A>)
    | Define(at: A, id: Node<A>, expr: Node<A>)
    | Assign(at: A, lexpr: Node<A>, expr: Node<A>)
    | Block(at: A, stmts: seq<Node<A>>)

  /** A node in memory, known by its address. */
  type Tree = Node<nat>

  /** The height every constructor stores in the node it builds; a leaf has height 1. */
  function Height<A>(n: Node<A>): (h: nat)
    ensures h >= 1
    decreases n, 1
  {
    match n
    case Value(_, _, _) => 1
    case Id(_, _) => 1
    case Expr(_, _, l, r) => 1 + Max(Height(l), Height(r))
    case UExpr(_, _, e) => 1 + Height(e)
    case IfExpr(_, c, t, e) => 1 + Max(Max(Height(c), Height(t)), if e.Some? then Height(e.value) else 0)
    case IfStmt(_, c, t, e) => 1 + Max(Max(Height(c), Height(t)), if e.Some? then Height(e.value) else 0)
    case Echo(_, e) => 1 + Height(e)
    case Define(_, i, e) => 1 + Max(Height(i), Height(e))
    case Assign(_, l, e) => 1 + Max(Height(l), Height(e))
    case Block(_, ss) => 1 + ListHeight(ss)
  }

  function ListHeight<A>(ss: seq<Node<A>>): (h: nat)
    ensures forall i :: 0 <= i < |ss| ==> Height(ss[i]) <= h
    decreases ss, 0
  {
    if ss == [] then 0 else Max(Height(ss[0]), ListHeight(ss[1..]))
  }

  // ----- the domain -----

  predicate IsExpr<A>(n: Node<A>) {
    match n
    case Value(_, k, _) => k in {IntegerValue, BoolValue}
    case Id(_, _) => true
    case Expr(_, op, l, r) => IsArithmetic(op) && IsExpr(l) && IsExpr(r)
    case UExpr(_, op, e) => op == TokMinus && IsExpr(e)
    case IfExpr(_, c, t, e) => IsExpr(c) && IsExpr(t) && e.Some? && IsExpr(e.value)
    case _ => false
  }

  /** A statement: its operands are expressions, the arms of an `if` are statements or blocks. */
  predicate IsStmt<A>(n: Node<A>)
    decreases n, 1
  {
    match n
    case Echo(_, e) => IsExpr(e)
    case Define(_, id, e) => id.Id? && IsExpr(e)
    case Assign(_, l, e) => l.Id? && IsExpr(e)
    case IfStmt(_, c, t, e) => IsExpr(c) && IsStmt(t) && (e.Some? ==> IsStmt(e.value))
    case Block(_, ss) => AreStmts(ss)
    case _ => false
  }

  predicate AreStmts<A>(ss: seq<Node<A>>)
    decreases ss, 0
  {
    ss == [] || (IsStmt(ss[0]) && AreStmts(ss[1..]))
  }

  // ----- addresses -----

  /** The addresses of a tree's nodes. */
  function Addresses(n: Tree): set<nat>
    decreases n, 1
  {
    {n.at} +
    match n
    case Value(_, _, _) => {}
    case Id(_, _) => {}
    case Expr(_, _, l, r) => Addresses(l) + Addresses(r)
    case UExpr(_, _, e) => Addresses(e)
    case IfExpr(_, c, t, e) => Addresses(c) + Addresses(t) + (if e.Some? then Addresses(e.value) else {})
    case IfStmt(_, c, t, e) => Addresses(c) + Addresses(t) + (if e.Some? then Addresses(e.value) else {})
    case Echo(_, e) => Addresses(e)
    case Define(_, i, e) => Addresses(i) + Addresses(e)
    case Assign(_, l, e) => Addresses(l) + Addresses(e)
    case Block(_, ss) => ListAddresses(ss)
  }

  function ListAddresses(ss: seq<Tree>): set<nat>
    decreases ss, 0
  {
    if ss == [] then {} else Addresses(ss[0]) + ListAddresses(ss[1..])
  }

  /** Every node of the tree sits at its own address: the constructors allocate each node anew. */
  predicate Separate(n: Tree)
    decreases n, 1
  {
    match n
    case Value(_, _, _) => true
    case Id(_, _) => true
    case Expr(at, _, l, r) =>
      Separate(l) && Separate(r) && at !in Addresses(l) + Addresses(r) && Addresses(l) !! Addresses(r)
    case UExpr(at, _, e) => Separate(e) && at !in Addresses(e)
    case IfExpr(at, c, t, e) => Separate(c) && Separate(t) && (e.Some? ==> Separate(e.value)) && Apart(at, c, t, e)
    case IfStmt(at, c, t, e) => Separate(c) && Separate(t) && (e.Some? ==> Separate(e.value)) && Apart(at, c, t, e)
    case Echo(at, e) => Separate(e) && at !in Addresses(e)
    case Define(at, i, e) =>
      Separate(i) && Separate(e) && at !in Addresses(i) + Addresses(e) && Addresses(i) !! Addresses(e)
    case Assign(at, l, e) =>
      Separate(l) && Separate(e) && at !in Addresses(l) + Addresses(e) && Addresses(l) !! Addresses(e)
    case Block(at, ss) => ListSeparate(ss) && at !in ListAddresses(ss)
  }

  predicate Apart(at: nat, c: Tree, t: Tree, e: Option<Tree>) {
    var others := if e.Some? then Addresses(e.value) else {};
    && at !in Addresses(c) + Addresses(t) + others
    && Addresses(c) !! Addresses(t) && Addresses(c) !! others && Addresses(t) !! others
  }

  predicate ListSeparate(ss: seq<Tree>)
    decreases ss, 0
  {
    ss == [] || (Separate(ss[0]) && ListSeparate(ss[1..]) && Addresses(ss[0]) !! ListAddresses(ss[1..]))
  }
}
