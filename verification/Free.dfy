/**
 The deallocator (bootstrap/ast-free.c): an operation table that releases a tree while the walker
 walks it. Every load of a node checks that the node is still there; releasing a block of memory
 twice is a fault.

 The module proves that the walk releases every block of every node exactly once, a node after
 everything below it, and never touches a released one.
 */
module Free {
  import opened Basics
  import opened Tokens
  import opened Ast
  import opened Walker

  /** The blocks of memory of the node at an address: the node, its text, its array of statements. */
  datatype Memory = NodeOf(at: nat) | TextOf(at: nat) | ArrayOf(at: nat)

  /** Everything released so far, in order. */
  type Released = seq<Memory>

  function Release(s: Released, m: Memory): Outcome<Released> {
    if m in s then Stop(s, DoubleFree) else Go(s + [m], true)
  }

  function FreeOps(op: Op, node: Option<Tree>, s: Released): Outcome<Released> {
    if node.None? then Go(s, true)  // NULL is not released, and both decisions say yes
    else
      var n := node.value;
      match op
      case Load => if NodeOf(n.at) in s then Stop(s, UseAfterFree) else Go(s, true)
      case Leave => Release(s, NodeOf(n.at))
      case ValueOf => if n.Value? then Release(s, TextOf(n.at)) else Go(s, true)
      case Identifier => if n.Id? then Release(s, TextOf(n.at)) else Go(s, true)
      case IdentifierRef => if n.Id? then Release(s, TextOf(n.at)) else Go(s, true)
      case ScopePop => if n.Block? then Release(s, ArrayOf(n.at)) else Go(s, true)
      case ApplyDefine =>
        if n.Define? then
          if NodeOf(n.id.at) in s then Stop(s, UseAfterFree)
          else
            var s1 :- Release(s, TextOf(n.id.at));
            Release(s1, NodeOf(n.id.at))
        else Go(s, true)
      case _ => Go(s, true)
  }

  // ----- the order of release -----

  /** The memory of a tree, each node after everything below it. */
  function PostOrder(n: Tree): Released
    decreases n, 1
  {
    match n
    case Value(at, _, _) => [TextOf(at), NodeOf(at)]
    case Id(at, _) => [TextOf(at), NodeOf(at)]
    case Expr(at, _, l, r) => PostOrder(l) + PostOrder(r) + [NodeOf(at)]
    case UExpr(at, _, e) => PostOrder(e) + [NodeOf(at)]
    case IfExpr(at, c, t, e) =>
      PostOrder(c) + PostOrder(t) + (if e.Some? then PostOrder(e.value) else []) + [NodeOf(at)]
    case IfStmt(at, c, t, e) =>
      PostOrder(c) + PostOrder(t) + (if e.Some? then PostOrder(e.value) else []) + [NodeOf(at)]
    case Echo(at, e) => PostOrder(e) + [NodeOf(at)]
    case Define(at, i, e) => PostOrder(e) + PostOrder(i) + [NodeOf(at)]
    case Assign(at, l, e) => PostOrder(e) + PostOrder(l) + [NodeOf(at)]
    case Block(at, ss) => ListPostOrder(ss) + [ArrayOf(at), NodeOf(at)]
  }

  function ListPostOrder(ss: seq<Tree>): Released
    decreases ss, 0
  {
    if ss == [] then [] else PostOrder(ss[0]) + ListPostOrder(ss[1..])
  }

  /** Defined names and assigned targets are identifiers; nothing else is asked of a tree to release it. */
  predicate Releasable(n: Tree)
    decreases n, 1
  {
    match n
    case Value(_, _, _) => true
    case Id(_, _) => true
    case Expr(_, _, l, r) => Releasable(l) && Releasable(r)
    case UExpr(_, _, e) => Releasable(e)
    case IfExpr(_, c, t, e) => Releasable(c) && Releasable(t) && (e.Some? ==> Releasable(e.value))
    case IfStmt(_, c, t, e) => Releasable(c) && Releasable(t) && (e.Some? ==> Releasable(e.value))
    case Echo(_, e) => Releasable(e)
    case Define(_, i, e) => i.Id? && Releasable(e)
    case Assign(_, l, e) => l.Id? && Releasable(e)
    case Block(_, ss) => AllReleasable(ss)
  }

  predicate AllReleasable(ss: seq<Tree>)
    decreases ss, 0
  {
    ss == [] || (Releasable(ss[0]) && AllReleasable(ss[1..]))
  }

  /** `s` has touched nothing of the nodes at the addresses `a`. */
  ghost predicate Untouched(s: Released, a: set<nat>) {
    forall m :: m in s ==> m.at !in a
  }

  ghost predicate Within(memory: Released, a: set<nat>) {
    forall m :: m in memory ==> m.at in a
  }

  /** Releasing memory at some addresses touches nothing at others. */
  lemma StaysUntouched(s: Released, memory: Released, within: set<nat>, a: set<nat>)
    requires Untouched(s, a) && Within(memory, within) && a !! within
    ensures Untouched(s + memory, a)
  {
  }

  lemma {:induction false} PostOrderAddresses(n: Tree)
    ensures Within(PostOrder(n), Addresses(n))
    decreases n, 1
  {
    match n {
      case Expr(_, _, l, r) =>
        PostOrderAddresses(l);
        PostOrderAddresses(r);
      case UExpr(_, _, e) => PostOrderAddresses(e);
      case IfExpr(_, c, t, e) =>
        PostOrderAddresses(c);
        PostOrderAddresses(t);
        if e.Some? {
          PostOrderAddresses(e.value);
        }
      case IfStmt(_, c, t, e) =>
        PostOrderAddresses(c);
        PostOrderAddresses(t);
        if e.Some? {
          PostOrderAddresses(e.value);
        }
      case Echo(_, e) => PostOrderAddresses(e);
      case Define(_, i, e) =>
        PostOrderAddresses(i);
        PostOrderAddresses(e);
      case Assign(_, l, e) =>
        PostOrderAddresses(l);
        PostOrderAddresses(e);
      case Block(_, ss) => ListPostOrderAddresses(ss);
      case _ =>
    }
  }

  lemma {:induction false} ListPostOrderAddresses(ss: seq<Tree>)
    ensures Within(ListPostOrder(ss), ListAddresses(ss))
    decreases ss, 0
  {
    if ss != [] {
      PostOrderAddresses(ss[0]);
      ListPostOrderAddresses(ss[1..]);
    }
  }

  /** What a visit releases: exactly the tree's memory, in post-order. */
  predicate Releases(r: Outcome<Released>, s: Released, memory: Released) {
    r.Go? && r.ctx == s + memory
  }

  lemma Unfold<C>(ops: Table<C>, op: Op, n: Tree, first: Tree, second: Option<Tree>, mode: Mode, c: C)
    requires
      || (n.UExpr? && n.operand == first && second == None && op == Unary)
      || (n.Echo? && n.expr == first && second == None && op == ApplyEcho)
      || (n.Define? && n.expr == first && second == None && op == ApplyDefine)
      || (n.Expr? && n.op1 == first && second == Some(n.op2) && mode == Eval && op == Binary)
      || (n.Assign? && n.expr == first && second == Some(n.lexpr) && mode == Reference && op == ApplyAssign)
    ensures
      var r1 := Child(ops, n, Some(first), Eval, c);
      Traverse(ops, Some(n), Eval, c) ==
      if r1.Stop? then r1
      else if second.None? then Close(ops, op, n, r1.ctx)
      else
        var r2 := Child(ops, n, second, mode, r1.ctx);
        if r2.Stop? then r2 else Close(ops, op, n, r2.ctx)
  {
  }

  lemma UnfoldIf<C>(ops: Table<C>, n: Tree, c: C)
    requires n.IfExpr? || n.IfStmt?
    ensures
      var r1 := Child(ops, n, Some(n.cond), Eval, c);
      Traverse(ops, Some(n), Eval, c) ==
      if r1.Stop? then r1
      else
        var r2 := Choose(ops, n, n.thenArm, n.elseArm, r1.ctx);
        if r2.Stop? then r2 else Close(ops, if n.IfStmt? then IfPost else IfExprPost, n, r2.ctx)
  {
  }

  /** Loads, decisions, entries and the operations on finished operands release nothing. */
  lemma QuietOps(n: Tree, node: Option<Tree>, s: Released)
    requires NodeOf(n.at) !in s
    ensures FreeOps(Load, Some(n), s) == Go(s, true) == FreeOps(IfCond, Some(n), s)
    ensures FreeOps(Enter, node, s) == Go(s, true)
    ensures FreeOps(DecideThen, None, s) == Go(s, true) == FreeOps(DecideElse, None, s)
    ensures FreeOps(ScopePush, None, s) == Go(s, true) == FreeOps(Leave, None, s)
  {
  }

  lemma ClosesNode(op: Op, n: Tree, s: Released)
    requires op in {Unary, Binary, ApplyEcho, ApplyAssign, IfPost, IfExprPost}
    requires NodeOf(n.at) !in s
    ensures Close(FreeOps, op, n, s) == Go(s + [NodeOf(n.at)], true)
  {
  }

  lemma ClosesLeaf(op: Op, n: Tree, s: Released)
    requires (n.Value? && op == ValueOf) || (n.Id? && op in {Identifier, IdentifierRef})
    requires Untouched(s, {n.at})
    ensures Close(FreeOps, op, n, s) == Go(s + [TextOf(n.at), NodeOf(n.at)], true)
  {
    assert s + [TextOf(n.at)] + [NodeOf(n.at)] == s + [TextOf(n.at), NodeOf(n.at)];
  }

  lemma ClosesDefine(n: Tree, s: Released)
    requires n.Define? && n.id.Id? && n.at != n.id.at
    requires Untouched(s, {n.at, n.id.at})
    ensures Close(FreeOps, ApplyDefine, n, s) == Go(s + PostOrder(n.id) + [NodeOf(n.at)], true)
  {
    assert FreeOps(Load, Some(n), s) == Go(s, true);
    assert s + [TextOf(n.id.at)] + [NodeOf(n.id.at)] == s + PostOrder(n.id);
    assert FreeOps(ApplyDefine, Some(n), s) == Go(s + PostOrder(n.id), true);
  }

  lemma ClosesBlock(n: Tree, s: Released)
    requires n.Block?
    requires Untouched(s, {n.at})
    ensures Close(FreeOps, ScopePop, n, s) == Go(s + [ArrayOf(n.at), NodeOf(n.at)], true)
  {
    assert s + [ArrayOf(n.at)] + [NodeOf(n.at)] == s + [ArrayOf(n.at), NodeOf(n.at)];
  }

  lemma {:induction false} FreesTree(n: Tree, mode: Mode, s: Released)
    requires Releasable(n) && Separate(n) && (mode == Reference ==> n.Id?)
    requires Untouched(s, Addresses(n))
    ensures Releases(Traverse(FreeOps, Some(n), mode, s), s, PostOrder(n))
    decreases n, 1
  {
    match n {
      case Value(_, _, _) => ClosesLeaf(ValueOf, n, s);
      case Id(_, _) => ClosesLeaf(if mode == Eval then Identifier else IdentifierRef, n, s);
      case UExpr(_, _, e) => FreesSingle(Unary, n, e, s);
      case Echo(_, e) => FreesSingle(ApplyEcho, n, e, s);
      case Define(_, _, e) => FreesSingle(ApplyDefine, n, e, s);
      case Expr(_, _, l, r) => FreesDouble(Binary, n, l, r, Eval, s);
      case Assign(_, l, e) => FreesDouble(ApplyAssign, n, e, l, Reference, s);
      case IfExpr(_, _, _, _) => FreesIf(n, s);
      case IfStmt(_, _, _, _) => FreesIf(n, s);
      case Block(_, ss) => FreesBlock(n, s);
    }
  }

  lemma {:induction false} FreesChild(n: Tree, child: Tree, mode: Mode, s: Released)
    requires Releasable(child) && Separate(child) && (mode == Reference ==> child.Id?)
    requires Untouched(s, Addresses(child) + {n.at})
    ensures Releases(Child(FreeOps, n, Some(child), mode, s), s, PostOrder(child))
    decreases child, 2
  {
    FreesTree(child, mode, s);
    QuietOps(n, Some(child), s);
  }

  lemma {:induction false} FreesSingle(op: Op, n: Tree, e: Tree, s: Released)
    requires Releasable(n) && Separate(n) && Untouched(s, Addresses(n))
    requires
      || (n.UExpr? && n.operand == e && op == Unary)
      || (n.Echo? && n.expr == e && op == ApplyEcho)
      || (n.Define? && n.expr == e && op == ApplyDefine)
    ensures Releases(Traverse(FreeOps, Some(n), Eval, s), s, PostOrder(n))
    decreases n, 0
  {
    hide Traverse;
    Unfold(FreeOps, op, n, e, None, Eval, s);
    FreesChild(n, e, Eval, s);
    PostOrderAddresses(e);
    var s1 := s + PostOrder(e);
    if n.Define? {
      StaysUntouched(s, PostOrder(e), Addresses(e), {n.at, n.id.at});
      ClosesDefine(n, s1);
      assert s1 + PostOrder(n.id) + [NodeOf(n.at)] == s + PostOrder(n);
    } else {
      StaysUntouched(s, PostOrder(e), Addresses(e), {n.at});
      ClosesNode(op, n, s1);
    }
  }

  lemma {:induction false} FreesDouble(op: Op, n: Tree, first: Tree, second: Tree, mode: Mode, s: Released)
    requires Releasable(n) && Separate(n) && Untouched(s, Addresses(n))
    requires
      || (n.Expr? && n.op1 == first && n.op2 == second && mode == Eval && op == Binary)
      || (n.Assign? && n.expr == first && n.lexpr == second && mode == Reference && op == ApplyAssign)
    ensures Releases(Traverse(FreeOps, Some(n), Eval, s), s, PostOrder(n))
    decreases n, 0
  {
    hide Traverse;
    Unfold(FreeOps, op, n, first, Some(second), mode, s);
    FreesChild(n, first, Eval, s);
    PostOrderAddresses(first);
    var s1 := s + PostOrder(first);
    StaysUntouched(s, PostOrder(first), Addresses(first), Addresses(second) + {n.at});
    FreesChild(n, second, mode, s1);
    PostOrderAddresses(second);
    var s2 := s1 + PostOrder(second);
    StaysUntouched(s1, PostOrder(second), Addresses(second), {n.at});
    DoubleCloses(op, n, first, second, s, s2);
  }

  lemma Regroup(s: Released, a: Released, b: Released, c: Released, d: Released)
    ensures s + a + b + d == s + (a + b + d)
    ensures s + a + b + c + d == s + (a + b + c + d)
  {
  }

  lemma DoubleCloses(op: Op, n: Tree, first: Tree, second: Tree, s: Released, s2: Released)
    requires
      || (n.Expr? && n.op1 == first && n.op2 == second && op == Binary)
      || (n.Assign? && n.expr == first && n.lexpr == second && op == ApplyAssign)
    requires s2 == s + PostOrder(first) + PostOrder(second) && Untouched(s2, {n.at})
    ensures Releases(Close(FreeOps, op, n, s2), s, PostOrder(first) + PostOrder(second) + [NodeOf(n.at)])
  {
    hide PostOrder;
    ClosesNode(op, n, s2);
    Regroup(s, PostOrder(first), PostOrder(second), [], [NodeOf(n.at)]);
  }

  lemma {:induction false} FreesIf(n: Tree, s: Released)
    requires Releasable(n) && Separate(n) && (n.IfExpr? || n.IfStmt?) && Untouched(s, Addresses(n))
    ensures Releases(Traverse(FreeOps, Some(n), Eval, s), s, PostOrder(n))
    decreases n, 0
  {
    hide Traverse;
    var others := if n.elseArm.Some? then Addresses(n.elseArm.value) else {};
    UnfoldIf(FreeOps, n, s);
    FreesChild(n, n.cond, Eval, s);
    PostOrderAddresses(n.cond);
    var s1 := s + PostOrder(n.cond);
    StaysUntouched(s, PostOrder(n.cond), Addresses(n.cond), Addresses(n.thenArm) + others + {n.at});
    FreesTree(n.thenArm, Eval, s1);
    PostOrderAddresses(n.thenArm);
    var s2 := s1 + PostOrder(n.thenArm);
    StaysUntouched(s1, PostOrder(n.thenArm), Addresses(n.thenArm), others + {n.at});
    FreesElse(n, s2);
    var s3 := s2 + ElseOrder(n);
    FreesArms(n, s1, s2, s3);
    IfCloses(n, s, s3);
  }

  function ElseOrder(n: Tree): Released
    requires n.IfExpr? || n.IfStmt?
  {
    if n.elseArm.Some? then PostOrder(n.elseArm.value) else []
  }

  lemma {:induction false} FreesElse(n: Tree, s: Released)
    requires Releasable(n) && Separate(n) && (n.IfExpr? || n.IfStmt?)
    requires Untouched(s, {n.at} + if n.elseArm.Some? then Addresses(n.elseArm.value) else {})
    ensures Releases(Traverse(FreeOps, n.elseArm, Eval, s), s, ElseOrder(n))
    ensures Untouched(s + ElseOrder(n), {n.at})
    decreases n.elseArm, 2
  {
    if n.elseArm.Some? {
      FreesTree(n.elseArm.value, Eval, s);
      PostOrderAddresses(n.elseArm.value);
      StaysUntouched(s, ElseOrder(n), Addresses(n.elseArm.value), {n.at});
    } else {
      assert FreeOps(Leave, None, s) == Go(s, true);
    }
  }

  lemma IfCloses(n: Tree, s: Released, s3: Released)
    requires n.IfExpr? || n.IfStmt?
    requires s3 == s + PostOrder(n.cond) + PostOrder(n.thenArm) + ElseOrder(n) && Untouched(s3, {n.at})
    ensures
      Releases(Close(FreeOps, if n.IfStmt? then IfPost else IfExprPost, n, s3), s,
               PostOrder(n.cond) + PostOrder(n.thenArm) + ElseOrder(n) + [NodeOf(n.at)])
  {
    hide PostOrder;
    ClosesNode(if n.IfStmt? then IfPost else IfExprPost, n, s3);
    Regroup(s, PostOrder(n.cond), PostOrder(n.thenArm), ElseOrder(n), [NodeOf(n.at)]);
  }

  lemma FreesArms(n: Tree, s1: Released, s2: Released, s3: Released)
    requires (n.IfExpr? || n.IfStmt?) && Untouched(s1, {n.at})
    requires Traverse(FreeOps, Some(n.thenArm), Eval, s1).Go? && Traverse(FreeOps, Some(n.thenArm), Eval, s1).ctx == s2
    requires Traverse(FreeOps, n.elseArm, Eval, s2).Go? && Traverse(FreeOps, n.elseArm, Eval, s2).ctx == s3
    ensures Choose(FreeOps, n, n.thenArm, n.elseArm, s1).Go? && Choose(FreeOps, n, n.thenArm, n.elseArm, s1).ctx == s3
  {
    hide Traverse;
    QuietOps(n, n.elseArm, s1);
    QuietOps(n, Some(n.thenArm), s1);
    BothArms(FreeOps, n, s1);
  }

  /** Where the decisions say yes and nothing else happens, both arms run, the then-arm first. */
  lemma BothArms<C>(ops: Table<C>, n: Tree, c: C)
    requires n.IfExpr? || n.IfStmt?
    requires ops(Load, Some(n), c) == Go(c, true) == ops(IfCond, Some(n), c)
    requires ops(DecideThen, None, c) == Go(c, true) == ops(DecideElse, None, c)
    requires ops(Enter, n.elseArm, c) == Go(c, true) == ops(Enter, Some(n.thenArm), c)
    ensures
      var r := Traverse(ops, Some(n.thenArm), Eval, c);
      Choose(ops, n, n.thenArm, n.elseArm, c) == if r.Stop? then r else Traverse(ops, n.elseArm, Eval, r.ctx)
  {
    assert Choose(ops, n, n.thenArm, n.elseArm, c) == Decided(ops, n.thenArm, n.elseArm, c);
  }

  lemma {:induction false} FreesBlock(n: Tree, s: Released)
    requires Releasable(n) && Separate(n) && n.Block? && Untouched(s, Addresses(n))
    ensures Releases(Traverse(FreeOps, Some(n), Eval, s), s, PostOrder(n))
    decreases n, 0
  {
    hide Traverse;
    var ss := n.stmts;
    QuietOps(n, None, s);
    ListPostOrderAddresses(ss);
    FreesRest(n, ss, s);
    var s2 := s + ListPostOrder(ss);
    StaysUntouched(s, ListPostOrder(ss), ListAddresses(ss), {n.at});
    ClosesBlock(n, s2);
    QuietOps(n, if ss == [] then None else Some(ss[0]), s);
    UnfoldBlock(FreeOps, n, s);
    assert s2 + [ArrayOf(n.at), NodeOf(n.at)] == s + PostOrder(n);
  }

  /** Where opening the block does nothing, a block is its statements and its closing. */
  lemma UnfoldBlock<C>(ops: Table<C>, n: Tree, c: C)
    requires n.Block? && ops(Load, Some(n), c) == Go(c, true) == ops(ScopePush, None, c)
    ensures
      var r := Rest(ops, n, n.stmts, c);
      Traverse(ops, Some(n), Eval, c) == if r.Stop? then r else Close(ops, ScopePop, n, r.ctx)
  {
    var ss := n.stmts;
    if ss != [] {
      var r := ops(Enter, Some(ss[0]), c);
      if r.Go? {
        var r1 := Traverse(ops, Some(ss[0]), Eval, r.ctx);
        assert Child(ops, n, Some(ss[0]), Eval, c) == r1;
        if r1.Go? {
          assert Rest(ops, n, ss, c) == Rest(ops, n, ss[1..], r1.ctx);
        }
      }
    }
  }

  lemma {:induction false} FreesRest(n: Tree, ss: seq<Tree>, s: Released)
    requires AllReleasable(ss) && ListSeparate(ss)
    requires Untouched(s, ListAddresses(ss) + {n.at}) && n.at !in ListAddresses(ss)
    ensures Rest(FreeOps, n, ss, s) == Go(s + ListPostOrder(ss), true)
    decreases ss, 0
  {
    hide Traverse, PostOrder, FreeOps, Addresses, Separate;
    if ss == [] {
      assert s + [] == s;
    } else {
      FreesChild(n, ss[0], Eval, s);
      PostOrderAddresses(ss[0]);
      var s1 := s + PostOrder(ss[0]);
      StaysUntouched(s, PostOrder(ss[0]), Addresses(ss[0]), ListAddresses(ss[1..]) + {n.at});
      FreesRest(n, ss[1..], s1);
      assert s1 + ListPostOrder(ss[1..]) == s + ListPostOrder(ss);
    }
  }

  // ----- conservation -----

  /** The nodes directly below a node, in the order in which they are released. */
  function Children(n: Tree): seq<Tree> {
    match n
    case Value(_, _, _) => []
    case Id(_, _) => []
    case Expr(_, _, l, r) => [l, r]
    case UExpr(_, _, e) => [e]
    case IfExpr(_, c, t, e) => [c, t] + if e.Some? then [e.value] else []
    case IfStmt(_, c, t, e) => [c, t] + if e.Some? then [e.value] else []
    case Echo(_, e) => [e]
    case Define(_, i, e) => [e, i]
    case Assign(_, l, e) => [e, l]
    case Block(_, ss) => ss
  }

  /** What the node itself holds, and the node. */
  function Own(n: Tree): Released {
    (if n.Value? || n.Id? then [TextOf(n.at)] else if n.Block? then [ArrayOf(n.at)] else []) + [NodeOf(n.at)]
  }

  lemma Cons(c: Tree, cs: seq<Tree>)
    ensures ListHeight([c] + cs) == Max(Height(c), ListHeight(cs))
    ensures ListPostOrder([c] + cs) == PostOrder(c) + ListPostOrder(cs)
    ensures ListAddresses([c] + cs) == Addresses(c) + ListAddresses(cs)
    ensures ListSeparate([c] + cs) == (Separate(c) && ListSeparate(cs) && Addresses(c) !! ListAddresses(cs))
  {
    assert ([c] + cs)[1..] == cs;
  }

  lemma Pair(a: Tree, b: Tree)
    ensures ListHeight([a, b]) == Max(Height(a), Height(b))
    ensures ListPostOrder([a, b]) == PostOrder(a) + PostOrder(b)
    ensures ListAddresses([a, b]) == Addresses(a) + Addresses(b)
    ensures ListSeparate([a, b]) == (Separate(a) && Separate(b) && Addresses(a) !! Addresses(b))
  {
    hide PostOrder, Addresses, Separate, Height;
    Cons(b, []);
    Cons(a, [b]);
    assert [b] + [] == [b] && [a] + [b] == [a, b];
  }

  lemma Single(a: Tree)
    ensures ListHeight([a]) == Height(a) && ListPostOrder([a]) == PostOrder(a)
    ensures ListAddresses([a]) == Addresses(a) && ListSeparate([a]) == Separate(a)
  {
    hide PostOrder, Addresses, Separate, Height;
    Cons(a, []);
    assert [a] + [] == [a];
  }

  lemma Triple(a: Tree, b: Tree, c: Tree)
    ensures ListHeight([a, b, c]) == Max(Height(a), Max(Height(b), Height(c)))
    ensures ListPostOrder([a, b, c]) == PostOrder(a) + PostOrder(b) + PostOrder(c)
    ensures ListAddresses([a, b, c]) == Addresses(a) + Addresses(b) + Addresses(c)
    ensures
      ListSeparate([a, b, c]) ==
      (Separate(a) && Separate(b) && Separate(c)
       && Addresses(a) !! Addresses(b) && Addresses(a) !! Addresses(c) && Addresses(b) !! Addresses(c))
  {
    hide PostOrder, Addresses, Separate, Height, ListPostOrder, ListAddresses, ListSeparate, ListHeight;
    Pair(b, c);
    Cons(a, [b, c]);
    assert [a] + [b, c] == [a, b, c];
  }

  ghost predicate IsByChildren(n: Tree, cs: seq<Tree>) {
    && ListHeight(cs) < Height(n)
    && PostOrder(n) == ListPostOrder(cs) + Own(n)
    && Addresses(n) == {n.at} + ListAddresses(cs)
    && (Separate(n) ==> ListSeparate(cs) && n.at !in ListAddresses(cs))
  }

  lemma ByOneChild(n: Tree, e: Tree)
    requires (n.UExpr? && n.operand == e) || (n.Echo? && n.expr == e)
    ensures IsByChildren(n, [e])
  {
    Single(e);
  }

  lemma ByTwoChildren(n: Tree, a: Tree, b: Tree)
    requires
      || (n.Expr? && n.op1 == a && n.op2 == b)
      || (n.Define? && n.expr == a && n.id == b)
      || (n.Assign? && n.expr == a && n.lexpr == b)
    ensures IsByChildren(n, [a, b])
  {
    Pair(a, b);
  }

  lemma ByArms(n: Tree)
    requires n.IfExpr? || n.IfStmt?
    ensures n.elseArm.None? ==> IsByChildren(n, [n.cond, n.thenArm])
    ensures n.elseArm.Some? ==> IsByChildren(n, [n.cond, n.thenArm, n.elseArm.value])
  {
    if n.elseArm.None? {
      ByTwoArms(n);
    } else {
      ByThreeArms(n);
    }
  }

  lemma ByTwoArms(n: Tree)
    requires (n.IfExpr? || n.IfStmt?) && n.elseArm.None?
    ensures IsByChildren(n, [n.cond, n.thenArm])
  {
    Pair(n.cond, n.thenArm);
  }

  lemma ByThreeArms(n: Tree)
    requires (n.IfExpr? || n.IfStmt?) && n.elseArm.Some?
    ensures IsByChildren(n, [n.cond, n.thenArm, n.elseArm.value])
  {
    Triple(n.cond, n.thenArm, n.elseArm.value);
  }

  lemma ByChildren(n: Tree)
    ensures IsByChildren(n, Children(n))
  {
    match n {
      case Expr(_, _, l, r) => ByTwoChildren(n, l, r);
      case UExpr(_, _, e) => ByOneChild(n, e);
      case Echo(_, e) => ByOneChild(n, e);
      case Define(_, i, e) => ByTwoChildren(n, e, i);
      case Assign(_, l, e) => ByTwoChildren(n, e, l);
      case IfExpr(_, c, t, e) => ByArms(n); ArmsListed(n);
      case IfStmt(_, c, t, e) => ByArms(n); ArmsListed(n);
      case Block(_, _) => ByStatements(n);
      case _ => ByNothing(n);
    }
  }

  lemma ArmsListed(n: Tree)
    requires n.IfExpr? || n.IfStmt?
    ensures Children(n) == if n.elseArm.Some? then [n.cond, n.thenArm, n.elseArm.value] else [n.cond, n.thenArm]
  {
  }

  lemma ByStatements(n: Tree)
    requires n.Block?
    ensures IsByChildren(n, n.stmts)
  {
  }

  lemma ByNothing(n: Tree)
    requires n.Value? || n.Id?
    ensures IsByChildren(n, [])
  {
  }

  predicate Distinct(s: Released) {
    forall i, j :: 0 <= i < j < |s| ==> s[i] != s[j]
  }

  lemma {:induction false} NodesOnce(n: Tree)
    requires Separate(n)
    ensures Distinct(PostOrder(n))
    ensures forall a :: NodeOf(a) in PostOrder(n) <==> a in Addresses(n)
    decreases Height(n), 0
  {
    ByChildren(n);
    NodesOfListOnce(Children(n));
    ListPostOrderAddresses(Children(n));
  }

  lemma {:induction false} NodesOfListOnce(ss: seq<Tree>)
    requires ListSeparate(ss)
    ensures Distinct(ListPostOrder(ss))
    ensures forall a :: NodeOf(a) in ListPostOrder(ss) <==> a in ListAddresses(ss)
    decreases ListHeight(ss), |ss| + 1
  {
    if ss != [] {
      NodesOnce(ss[0]);
      NodesOfListOnce(ss[1..]);
      PostOrderAddresses(ss[0]);
      ListPostOrderAddresses(ss[1..]);
    }
  }

  /** Every block of memory of a tree: its nodes, the texts of its literals and names, the arrays of its blocks. */
  function Owned(n: Tree): set<Memory>
    decreases n, 1
  {
    {NodeOf(n.at)} +
    match n
    case Value(at, _, _) => {TextOf(at)}
    case Id(at, _) => {TextOf(at)}
    case Expr(_, _, l, r) => Owned(l) + Owned(r)
    case UExpr(_, _, e) => Owned(e)
    case IfExpr(_, c, t, e) => Owned(c) + Owned(t) + (if e.Some? then Owned(e.value) else {})
    case IfStmt(_, c, t, e) => Owned(c) + Owned(t) + (if e.Some? then Owned(e.value) else {})
    case Echo(_, e) => Owned(e)
    case Define(_, i, e) => Owned(i) + Owned(e)
    case Assign(_, l, e) => Owned(l) + Owned(e)
    case Block(at, ss) => {ArrayOf(at)} + OwnedByAll(ss)
  }

  function OwnedByAll(ss: seq<Tree>): set<Memory>
    decreases ss, 0
  {
    if ss == [] then {} else Owned(ss[0]) + OwnedByAll(ss[1..])
  }

  lemma {:induction false} OwnedIsReleased(n: Tree)
    ensures forall m :: m in PostOrder(n) <==> m in Owned(n)
    decreases n, 1
  {
    match n
    case Value(_, _, _) =>
    case Id(_, _) =>
    case Expr(_, _, l, r) =>
      OwnedIsReleased(l);
      OwnedIsReleased(r);
    case UExpr(_, _, e) => OwnedIsReleased(e);
    case IfExpr(_, c, t, e) => OwnedArms(n, c, t, e);
    case IfStmt(_, c, t, e) => OwnedArms(n, c, t, e);
    case Echo(_, e) => OwnedIsReleased(e);
    case Define(_, i, e) =>
      OwnedIsReleased(i);
      OwnedIsReleased(e);
    case Assign(_, l, e) =>
      OwnedIsReleased(l);
      OwnedIsReleased(e);
    case Block(_, ss) => OwnedByAllIsReleased(ss);
  }

  lemma {:induction false} OwnedArms(n: Tree, c: Tree, t: Tree, e: Option<Tree>)
    requires (n.IfExpr? || n.IfStmt?) && n.cond == c && n.thenArm == t && n.elseArm == e
    ensures forall m :: m in PostOrder(n) <==> m in Owned(n)
    decreases n, 0
  {
    OwnedIsReleased(c);
    OwnedIsReleased(t);
    if e.Some? {
      OwnedIsReleased(e.value);
    }
  }

  lemma {:induction false} OwnedByAllIsReleased(ss: seq<Tree>)
    ensures forall m :: m in ListPostOrder(ss) <==> m in OwnedByAll(ss)
    decreases ss, 0
  {
    if ss != [] {
      OwnedIsReleased(ss[0]);
      OwnedByAllIsReleased(ss[1..]);
    }
  }

  predicate Before(s: Released, x: Memory, y: Memory) {
    exists i, j :: 0 <= i < j < |s| && s[i] == x && s[j] == y
  }

  /** The (parent, child) pairs of a tree. */
  function Edges(n: Tree): set<(nat, nat)>
    decreases Height(n), 0
  {
    ByChildren(n);
    (set c | c in Children(n) :: (n.at, c.at)) + ListEdges(Children(n))
  }

  function ListEdges(ss: seq<Tree>): set<(nat, nat)>
    decreases ListHeight(ss), |ss| + 1
  {
    if ss == [] then {} else Edges(ss[0]) + ListEdges(ss[1..])
  }

  lemma BeforeInside(a: Released, s: Released, b: Released, x: Memory, y: Memory)
    requires Before(s, x, y)
    ensures Before(a + s + b, x, y)
  {
    var i, j :| 0 <= i < j < |s| && s[i] == x && s[j] == y;
    assert (a + s + b)[|a| + i] == x && (a + s + b)[|a| + j] == y;
  }

  lemma {:induction false} NodeIsReleased(ss: seq<Tree>, c: Tree)
    requires c in ss
    ensures NodeOf(c.at) in ListPostOrder(ss)
  {
    if ss[0] == c {
      assert NodeOf(c.at) in PostOrder(c);
    } else {
      assert c in ss[1..];
      NodeIsReleased(ss[1..], c);
    }
  }

  lemma {:induction false} ChildrenFirst(n: Tree, p: nat, q: nat)
    requires (p, q) in Edges(n)
    ensures Before(PostOrder(n), NodeOf(q), NodeOf(p))
    decreases Height(n), 0
  {
    hide PostOrder, Addresses, Separate;
    ByChildren(n);
    var cs := Children(n);
    var below, all := ListPostOrder(cs), PostOrder(n);
    if (p, q) in ListEdges(cs) {
      ChildrenOfListFirst(cs, p, q);
      BeforeInside([], below, Own(n), NodeOf(q), NodeOf(p));
      assert [] + below + Own(n) == all;
    } else {
      var c :| c in cs && (n.at, c.at) == (p, q);
      NodeIsReleased(cs, c);
      var i :| 0 <= i < |below| && below[i] == NodeOf(q);
      assert all[i] == NodeOf(q) && all[|all| - 1] == NodeOf(p);
    }
  }

  lemma {:induction false} ChildrenOfListFirst(ss: seq<Tree>, p: nat, q: nat)
    requires (p, q) in ListEdges(ss)
    ensures Before(ListPostOrder(ss), NodeOf(q), NodeOf(p))
    decreases ListHeight(ss), |ss| + 1
  {
    hide PostOrder, Edges, Before;
    var first, rest := PostOrder(ss[0]), ListPostOrder(ss[1..]);
    if (p, q) in Edges(ss[0]) {
      ChildrenFirst(ss[0], p, q);
      BeforeInside([], first, rest, NodeOf(q), NodeOf(p));
      assert [] + first + rest == ListPostOrder(ss);
    } else {
      ChildrenOfListFirst(ss[1..], p, q);
      BeforeInside(first, rest, [], NodeOf(q), NodeOf(p));
      assert first + rest + [] == ListPostOrder(ss);
    }
  }

  lemma RootIsFreed(root: Tree, s: Released)
    requires Releasable(root) && Separate(root) && Untouched(s, Addresses(root))
    ensures Releases(EnterAndTraverse(FreeOps, Some(root), Eval, s), s, PostOrder(root))
  {
    hide Traverse;
    FreesTree(root, Eval, s);
    assert FreeOps(Enter, Some(root), s) == Go(s, true);
  }

  /**
   Freeing a program: the run meets no fault, so no node is read after its release and nothing is
   released twice; exactly the memory of the tree is released (nodes, texts and statement arrays), each
   block once, in post-order, so that every node goes after its children.
   */
  lemma FreesProgram(root: Tree, slots: nat)
    requires Releasable(root) && Separate(root)
    requires slots >= 2 * Height(root) - 1
    ensures
      var r := WalkRoot(FreeOps, slots, root, []);
      && r.Go?
      && r.ctx == PostOrder(root)
      && Distinct(r.ctx)
      && (forall m :: m in r.ctx <==> m in Owned(root))
      && (forall a :: NodeOf(a) in r.ctx <==> a in Addresses(root))
      && (forall p, q :: (p, q) in Edges(root) ==> Before(r.ctx, NodeOf(q), NodeOf(p)))
  {
    hide Before, Edges, Addresses, Owned;
    var none: Released := [];
    WalkIsTraversal(FreeOps, slots, root, none);
    RootIsFreed(root, none);
    assert none + PostOrder(root) == PostOrder(root);
    NodesOnce(root);
    OwnedIsReleased(root);
    forall p, q | (p, q) in Edges(root)
      ensures Before(PostOrder(root), NodeOf(q), NodeOf(p))
    {
      ChildrenFirst(root, p, q);
    }
  }
}
