/**
 The tree printer (bootstrap/ast-dump.c): an operation table over a stack of line chains and a depth
 counter that the walker's pushes and pops move.

 Then-arms and else-arms are walked at different depths and corrected afterwards; the module proves
 that the printed lines are nevertheless those of a recursive printer, each indented by its depth.
 */
module Dump {
  import opened Basics
  import opened Tokens
  import opened Ast
  import opened Walker
  import opened RegularTables

  datatype Line = Line(indent: int, text: string)

  type Chain = seq<Line>

  /** `depth` counts the tasks on the walker's stack. */
  datatype DumpState = DumpState(chains: seq<Chain>, depth: int)

  function Symbol(op: TokenKind): Option<string> {
    match op
    case TokMinus => Some("expr -")
    case TokPlus => Some("expr +")
    case TokStar => Some("expr *")
    case TokSlash => Some("expr /")
    case _ => None
  }

  function Indented(c: Chain, more: int): (r: Chain)
    ensures |r| == |c|
    ensures forall i :: 0 <= i < |c| ==> r[i] == Line(c[i].indent + more, c[i].text)
  {
    seq(|c|, i requires 0 <= i < |c| => Line(c[i].indent + more, c[i].text))
  }

  function Titled(depth: int, title: string, c: Chain): Chain {
    [Line(depth, title)] + c
  }

  /** The lines of an `if` at `depth`, given the lines of its parts. */
  function IfText(depth: int, title: string, c: Chain, t: Chain, e: Option<Chain>): Chain {
    var elsePart := if e.Some? then Titled(depth + 1, "else", e.value) else [];
    Titled(depth, title, Titled(depth + 1, "cond", c) + (Titled(depth + 1, "then", t) + elsePart))
  }

  function Joined(chains: seq<Chain>): Chain {
    if chains == [] then [] else chains[0] + Joined(chains[1..])
  }

  function PushChain(s: DumpState, c: Chain): Outcome<DumpState> {
    Go(s.(chains := s.chains + [c]), true)
  }

  /** Pops `k` chains, oldest first in the result. */
  function PopChains(s: DumpState, k: nat): Result<(DumpState, seq<Chain>), Fault> {
    if |s.chains| < k then Err(PrintUnderflow)
    else Ok((s.(chains := s.chains[..|s.chains| - k]), s.chains[|s.chains| - k..]))
  }

  // ----- the printer's operations -----

  function DumpOps(op: Op, node: Option<Tree>, s: DumpState): Outcome<DumpState> {
    match op
    case Enter => Go(s.(depth := s.depth + 1), true)
    case Leave => Go(s.(depth := s.depth - 1), true)
    case _ => if node.Some? then DumpNode(op, node.value, s) else Go(s, true)  // both decisions say yes
  }

  function DumpNode(op: Op, n: Tree, s: DumpState): Outcome<DumpState> {
    if op == ValueOf && n.Value? then
      if n.kind in {IntegerValue, BoolValue} then PushChain(s, [Line(s.depth, "val " + n.text)])
      else Stop(s, UnsupportedValue)
    else if (op == Identifier || op == IdentifierRef) && n.Id? then
      PushChain(s, [Line(s.depth, "id " + n.name)])
    else if op == Binary && n.Expr? then
      if Symbol(n.op).None? then Stop(s, UnknownOperator) else Wrapped(s, [Line(s.depth, Symbol(n.op).value)], 2)
    else if op == Unary && n.UExpr? then
      if n.op != TokMinus then Stop(s, UnknownOperator) else Wrapped(s, [Line(s.depth, "uexpr -")], 1)
    else if op == ApplyEcho && n.Echo? then Wrapped(s, [Line(s.depth, "stmt echo")], 1)
    else if op == ApplyDefine && n.Define? && n.id.Id? then
      Wrapped(s, [Line(s.depth, "stmt :="), Line(s.depth + 1, "id " + n.id.name)], 1)
    else if op == ApplyAssign && n.Assign? then AssignChains(s)
    else if op == IfPost && n.IfStmt? then IfChains(s, n.elseArm.Some?, "stmt if")
    else if op == IfExprPost && n.IfExpr? then IfChains(s, n.elseArm.Some?, "expr if")
    else if op == ScopePop && n.Block? then BlockChain(s, |n.stmts|)
    else Go(s, true)
  }

  /** Lines on top of the joined last `k` chains. */
  function Wrapped(s: DumpState, lines: Chain, k: nat): Outcome<DumpState> {
    match PopChains(s, k)
    case Err(f) => Stop(s.(chains := []), f)
    case Ok((s1, cs)) => PushChain(s1, lines + Joined(cs))
  }

  /** The target was visited after the value, and is printed before it. */
  function AssignChains(s: DumpState): Outcome<DumpState> {
    match PopChains(s, 2)
    case Err(f) => Stop(s.(chains := []), f)
    case Ok((s1, cs)) => PushChain(s1, [Line(s.depth, "stmt =")] + (cs[1] + cs[0]))
  }

  /** The condition and the else-arm were walked one level too high; the then-arm was not. */
  function IfChains(s: DumpState, hasElse: bool, title: string): Outcome<DumpState> {
    match PopChains(s, if hasElse then 3 else 2)
    case Err(f) => Stop(s.(chains := []), f)
    case Ok((s1, cs)) =>
      var elseChain := if hasElse then Some(Indented(cs[2], 1)) else None;
      PushChain(s1, IfText(s.depth, title, Indented(cs[0], 1), cs[1], elseChain))
  }

  function BlockChain(s: DumpState, len: nat): Outcome<DumpState> {
    var from := if |s.chains| > len then |s.chains| - len else 0;
    PushChain(s.(chains := s.chains[..from]), [Line(s.depth, "block")] + Joined(s.chains[from..]))
  }

  // ----- the recursive printer -----

  /** What the printer can print: more than well-shaped trees, as the arms of an `if` may be anything. */
  predicate Printable(n: Tree)
    decreases n, 1
  {
    match n
    case Value(_, k, _) => k in {IntegerValue, BoolValue}
    case Id(_, _) => true
    case Expr(_, op, l, r) => IsArithmetic(op) && Printable(l) && Printable(r)
    case UExpr(_, op, e) => op == TokMinus && Printable(e)
    case IfExpr(_, c, t, e) => Printable(c) && Printable(t) && (e.Some? ==> Printable(e.value))
    case IfStmt(_, c, t, e) => Printable(c) && Printable(t) && (e.Some? ==> Printable(e.value))
    case Echo(_, e) => Printable(e)
    case Define(_, i, e) => i.Id? && Printable(e)
    case Assign(_, l, e) => l.Id? && Printable(e)
    case Block(_, ss) => AllPrintable(ss)
  }

  predicate AllPrintable(ss: seq<Tree>)
    decreases ss, 0
  {
    ss == [] || (Printable(ss[0]) && AllPrintable(ss[1..]))
  }

  /** The lines of a tree whose root stands at `depth`; every child stands below its parent. */
  function Show(n: Tree, depth: int): Chain
    requires Printable(n)
    decreases n, 1
  {
    match n
    case Value(_, _, text) => [Line(depth, "val " + text)]
    case Id(_, name) => [Line(depth, "id " + name)]
    case Expr(_, op, l, r) => [Line(depth, Symbol(op).value)] + (Show(l, depth + 1) + Show(r, depth + 1))
    case UExpr(_, _, e) => [Line(depth, "uexpr -")] + Show(e, depth + 1)
    case Echo(_, e) => [Line(depth, "stmt echo")] + Show(e, depth + 1)
    case Define(_, i, e) => [Line(depth, "stmt :="), Line(depth + 1, "id " + i.name)] + Show(e, depth + 1)
    case Assign(_, l, e) => [Line(depth, "stmt =")] + ([Line(depth + 1, "id " + l.name)] + Show(e, depth + 1))
    case IfExpr(_, c, t, e) =>
      IfText(depth, "expr if", Show(c, depth + 2), Show(t, depth + 2),
             if e.Some? then Some(Show(e.value, depth + 2)) else None)
    case IfStmt(_, c, t, e) =>
      IfText(depth, "stmt if", Show(c, depth + 2), Show(t, depth + 2),
             if e.Some? then Some(Show(e.value, depth + 2)) else None)
    case Block(_, ss) => [Line(depth, "block")] + ShowAll(ss, depth + 1)
  }

  function ShowAll(ss: seq<Tree>, depth: int): Chain
    requires AllPrintable(ss)
    decreases ss, 0
  {
    if ss == [] then [] else Show(ss[0], depth) + ShowAll(ss[1..], depth)
  }

  lemma IndentedJoin(c: Chain, d: Chain)
    ensures Indented(c + d, 1) == Indented(c, 1) + Indented(d, 1)
  {
  }

  lemma IfTextDeeper(depth: int, title: string, c: Chain, t: Chain, e: Option<Chain>)
    ensures
      Indented(IfText(depth, title, c, t, e), 1) ==
      IfText(depth + 1, title, Indented(c, 1), Indented(t, 1), if e.Some? then Some(Indented(e.value, 1)) else None)
  {
    hide Indented, Titled;
    var elsePart := if e.Some? then Titled(depth + 1, "else", e.value) else [];
    TitledDeeper(depth + 1, "cond", c);
    TitledDeeper(depth + 1, "then", t);
    if e.Some? {
      TitledDeeper(depth + 1, "else", e.value);
    }
    IndentedJoin(Titled(depth + 1, "then", t), elsePart);
    IndentedJoin(Titled(depth + 1, "cond", c), Titled(depth + 1, "then", t) + elsePart);
    TitledDeeper(depth, title, Titled(depth + 1, "cond", c) + (Titled(depth + 1, "then", t) + elsePart));
  }

  lemma TitledDeeper(depth: int, title: string, c: Chain)
    ensures Indented(Titled(depth, title, c), 1) == Titled(depth + 1, title, Indented(c, 1))
  {
  }

  /** Moving a tree one level down moves every line one level down. */
  lemma {:induction false} ShowDeeper(n: Tree, depth: int)
    requires Printable(n)
    ensures Indented(Show(n, depth), 1) == Show(n, depth + 1)
    decreases n, 1
  {
    match n {
      case Expr(_, op, l, r) =>
        ShowDeeper(l, depth + 1);
        ShowDeeper(r, depth + 1);
        IndentedJoin(Show(l, depth + 1), Show(r, depth + 1));
        IndentedJoin([Line(depth, Symbol(op).value)], Show(l, depth + 1) + Show(r, depth + 1));
      case UExpr(_, _, e) =>
        ShowDeeper(e, depth + 1);
        IndentedJoin([Line(depth, "uexpr -")], Show(e, depth + 1));
      case Echo(_, e) =>
        ShowDeeper(e, depth + 1);
        IndentedJoin([Line(depth, "stmt echo")], Show(e, depth + 1));
      case Define(_, i, e) =>
        ShowDeeper(e, depth + 1);
        IndentedJoin([Line(depth, "stmt :="), Line(depth + 1, "id " + i.name)], Show(e, depth + 1));
      case Assign(_, l, e) =>
        ShowDeeper(e, depth + 1);
        IndentedJoin([Line(depth + 1, "id " + l.name)], Show(e, depth + 1));
        IndentedJoin([Line(depth, "stmt =")], [Line(depth + 1, "id " + l.name)] + Show(e, depth + 1));
      case IfExpr(_, c, t, e) => ShowIfDeeper(n, depth, "expr if");
      case IfStmt(_, c, t, e) => ShowIfDeeper(n, depth, "stmt if");
      case Block(_, ss) =>
        ShowAllDeeper(ss, depth + 1);
        IndentedJoin([Line(depth, "block")], ShowAll(ss, depth + 1));
      case _ =>
    }
  }

  lemma {:induction false} ShowIfDeeper(n: Tree, depth: int, title: string)
    requires Printable(n) && ((n.IfExpr? && title == "expr if") || (n.IfStmt? && title == "stmt if"))
    ensures Indented(Show(n, depth), 1) == Show(n, depth + 1)
    decreases n, 0
  {
    ShowDeeper(n.cond, depth + 2);
    ShowDeeper(n.thenArm, depth + 2);
    var e := if n.elseArm.Some? then Some(Show(n.elseArm.value, depth + 2)) else None;
    if n.elseArm.Some? {
      ShowDeeper(n.elseArm.value, depth + 2);
    }
    IfTextDeeper(depth, title, Show(n.cond, depth + 2), Show(n.thenArm, depth + 2), e);
  }

  lemma {:induction false} ShowAllDeeper(ss: seq<Tree>, depth: int)
    requires AllPrintable(ss)
    ensures Indented(ShowAll(ss, depth), 1) == ShowAll(ss, depth + 1)
    decreases ss, 0
  {
    if ss != [] {
      ShowDeeper(ss[0], depth);
      ShowAllDeeper(ss[1..], depth);
      IndentedJoin(Show(ss[0], depth), ShowAll(ss[1..], depth));
    }
  }

  // ----- traversals with this table -----

  function Down(s: DumpState): DumpState {
    s.(depth := s.depth + 1)
  }

  function Up(s: DumpState): DumpState {
    s.(depth := s.depth - 1)
  }

  lemma DumpIsRegular()
    ensures Regular(DumpOps, Down, Up)
  {
  }

  lemma DumpLeaf(op: Op, n: Tree, mode: Mode, s: DumpState)
    requires
      || (n.Value? && mode == Eval && op == ValueOf)
      || (n.Id? && mode == Eval && op == Identifier)
      || (n.Id? && mode == Reference && op == IdentifierRef)
    ensures Traverse(DumpOps, Some(n), mode, s) == ThenOp(DumpOps, Up, Go(s, true), op, n)
  {
    DumpIsRegular();
    TraverseLeaf(DumpOps, Down, Up, op, n, mode, s);
  }

  lemma DumpSingle(op: Op, n: Tree, e: Tree, s: DumpState)
    requires
      || (n.UExpr? && n.operand == e && op == Unary)
      || (n.Echo? && n.expr == e && op == ApplyEcho)
      || (n.Define? && n.expr == e && op == ApplyDefine)
    ensures Traverse(DumpOps, Some(n), Eval, s) == ThenOp(DumpOps, Up, Traverse(DumpOps, Some(e), Eval, Down(s)), op, n)
  {
    DumpIsRegular();
    TraverseSingle(DumpOps, Down, Up, op, n, e, s);
  }

  lemma DumpDouble(op: Op, n: Tree, first: Tree, second: Tree, mode: Mode, s: DumpState)
    requires
      || (n.Expr? && n.op1 == first && n.op2 == second && mode == Eval && op == Binary)
      || (n.Assign? && n.expr == first && n.lexpr == second && mode == Reference && op == ApplyAssign)
    ensures
      var r := Traverse(DumpOps, Some(first), Eval, Down(s));
      Traverse(DumpOps, Some(n), Eval, s) ==
      if r.Stop? then r else ThenOp(DumpOps, Up, Traverse(DumpOps, Some(second), mode, Down(r.ctx)), op, n)
  {
    DumpIsRegular();
    TraverseDouble(DumpOps, Down, Up, op, n, first, second, mode, s);
  }

  /** The condition one level down, the then-arm two levels down, the else-arm one level down. */
  lemma DumpIf(n: Tree, s: DumpState)
    requires n.IfExpr? || n.IfStmt?
    ensures
      var r1 := Traverse(DumpOps, Some(n.cond), Eval, Down(s));
      Traverse(DumpOps, Some(n), Eval, s) ==
      if r1.Stop? then r1 else ThenOp(DumpOps, Up, DumpArms(n, r1.ctx), if n.IfStmt? then IfPost else IfExprPost, n)
  {
    DumpIsRegular();
    TraverseIf(DumpOps, Down, Up, n, s);
  }

  function DumpArms(n: Tree, s: DumpState): Outcome<DumpState>
    requires n.IfExpr? || n.IfStmt?
  {
    var s1 :- Traverse(DumpOps, Some(n.thenArm), Eval, Down(Down(s)));
    Traverse(DumpOps, n.elseArm, Eval, s1)
  }

  lemma DumpBlock(n: Tree, s: DumpState)
    requires n.Block?
    ensures Traverse(DumpOps, Some(n), Eval, s) == ThenOp(DumpOps, Up, Rest(DumpOps, n, n.stmts, s), ScopePop, n)
  {
    DumpIsRegular();
    TraverseBlock(DumpOps, Down, Up, n, s);
  }

  lemma DumpRest(n: Tree, ss: seq<Tree>, s: DumpState)
    requires ss != []
    ensures
      var r := Traverse(DumpOps, Some(ss[0]), Eval, Down(s));
      Rest(DumpOps, n, ss, s) == if r.Stop? then r else Rest(DumpOps, n, ss[1..], r.ctx)
  {
    DumpIsRegular();
    RestIsTraversals(DumpOps, Down, Up, n, ss, s);
  }

  lemma DumpNull(s: DumpState)
    ensures Traverse(DumpOps, None, Eval, s) == Go(Up(s), true)
  {
    DumpIsRegular();
    TraverseNull(DumpOps, Down, Up, s);
  }

  // ----- what a visit prints -----

  /** `r` is the end of a visit that left one chain and gave its level back. */
  predicate Printed(r: Outcome<DumpState>, s: DumpState, lines: Chain) {
    r.Go? && r.ctx == DumpState(s.chains + [lines], s.depth - 1)
  }

  lemma PopPushed(s: DumpState, cs: seq<Chain>)
    ensures PopChains(s.(chains := s.chains + cs), |cs|) == Ok((s, cs))
  {
  }

  lemma JoinTwo(a: Chain, b: Chain)
    ensures Joined([a]) == a && Joined([a, b]) == a + b
  {
    assert [a][1..] == [] && [a, b][1..] == [b] && [b][1..] == [];
  }

  lemma {:induction false} PrintsTree(n: Tree, mode: Mode, s: DumpState)
    requires Printable(n) && (mode == Reference ==> n.Id?)
    ensures Printed(Traverse(DumpOps, Some(n), mode, s), s, Show(n, s.depth))
    decreases n, 1
  {
    match n {
      case Value(_, _, _) => LeafPrints(n, mode, s);
      case Id(_, _) => LeafPrints(n, mode, s);
      case UExpr(_, _, e) => PrintsSingle(Unary, n, e, s);
      case Echo(_, e) => PrintsSingle(ApplyEcho, n, e, s);
      case Define(_, _, e) => PrintsSingle(ApplyDefine, n, e, s);
      case Expr(_, _, l, r) => PrintsDouble(Binary, n, l, r, Eval, s);
      case Assign(_, l, e) => PrintsDouble(ApplyAssign, n, e, l, Reference, s);
      case IfExpr(_, _, _, _) => PrintsIf(n, s);
      case IfStmt(_, _, _, _) => PrintsIf(n, s);
      case Block(_, ss) =>
        PrintsRest(n, ss, s);
        DumpBlock(n, s);
        BlockPrints(n, s, ChainsOf(ss, s.depth + 1), Rest(DumpOps, n, ss, s), Traverse(DumpOps, Some(n), mode, s));
    }
  }

  lemma LeafPrints(n: Tree, mode: Mode, s: DumpState)
    requires Printable(n) && (n.Value? || n.Id?) && (mode == Reference ==> n.Id?)
    ensures Printed(Traverse(DumpOps, Some(n), mode, s), s, Show(n, s.depth))
  {
    DumpLeaf(if n.Value? then ValueOf else if mode == Reference then IdentifierRef else Identifier, n, mode, s);
  }

  lemma {:induction false} PrintsSingle(op: Op, n: Tree, e: Tree, s: DumpState)
    requires Printable(n)
    requires
      || (n.UExpr? && n.operand == e && op == Unary)
      || (n.Echo? && n.expr == e && op == ApplyEcho)
      || (n.Define? && n.expr == e && op == ApplyDefine)
    ensures Printed(Traverse(DumpOps, Some(n), Eval, s), s, Show(n, s.depth))
    decreases n, 0
  {
    hide Traverse;
    PrintsTree(e, Eval, Down(s));
    DumpSingle(op, n, e, s);
    SinglePrints(op, n, e, s, Traverse(DumpOps, Some(e), Eval, Down(s)), Traverse(DumpOps, Some(n), Eval, s));
  }

  lemma SinglePrints(op: Op, n: Tree, e: Tree, s: DumpState, r: Outcome<DumpState>, rn: Outcome<DumpState>)
    requires Printable(n) && Printable(e)
    requires
      || (n.UExpr? && n.operand == e && op == Unary)
      || (n.Echo? && n.expr == e && op == ApplyEcho)
      || (n.Define? && n.expr == e && op == ApplyDefine)
    requires Printed(r, Down(s), Show(e, s.depth + 1))
    requires rn == ThenOp(DumpOps, Up, r, op, n)
    ensures Printed(rn, s, Show(n, s.depth))
  {
    OnOneChain(op, n, s, Show(e, s.depth + 1));
  }

  lemma OnOneChain(op: Op, n: Tree, s: DumpState, c: Chain)
    requires
      || (n.UExpr? && n.op == TokMinus && op == Unary)
      || (n.Echo? && op == ApplyEcho)
      || (n.Define? && n.id.Id? && op == ApplyDefine)
    ensures
      var lines :=
        if n.UExpr? then [Line(s.depth, "uexpr -")]
        else if n.Echo? then [Line(s.depth, "stmt echo")]
        else [Line(s.depth, "stmt :="), Line(s.depth + 1, "id " + n.id.name)];
      DumpOps(op, Some(n), s.(chains := s.chains + [c])) == Go(s.(chains := s.chains + [lines + c]), true)
  {
    PopPushed(s, [c]);
    JoinTwo(c, c);
  }

  lemma {:induction false} PrintsDouble(op: Op, n: Tree, first: Tree, second: Tree, mode: Mode, s: DumpState)
    requires Printable(n)
    requires
      || (n.Expr? && n.op1 == first && n.op2 == second && mode == Eval && op == Binary)
      || (n.Assign? && n.expr == first && n.lexpr == second && mode == Reference && op == ApplyAssign)
    ensures Printed(Traverse(DumpOps, Some(n), Eval, s), s, Show(n, s.depth))
    decreases n, 0
  {
    hide Traverse;
    PrintsTree(first, Eval, Down(s));
    var s1 := Traverse(DumpOps, Some(first), Eval, Down(s)).ctx;
    PrintsTree(second, mode, Down(s1));
    DumpDouble(op, n, first, second, mode, s);
    DoublePrints(op, n, first, second, s, s1, Traverse(DumpOps, Some(second), mode, Down(s1)),
                 Traverse(DumpOps, Some(n), Eval, s));
  }

  lemma DoublePrints(op: Op, n: Tree, first: Tree, second: Tree, s: DumpState, s1: DumpState, r: Outcome<DumpState>,
                     rn: Outcome<DumpState>)
    requires Printable(n) && Printable(first) && Printable(second)
    requires
      || (n.Expr? && n.op1 == first && n.op2 == second && op == Binary)
      || (n.Assign? && n.expr == first && n.lexpr == second && op == ApplyAssign)
    requires s1 == s.(chains := s.chains + [Show(first, s.depth + 1)])
    requires Printed(r, Down(s1), Show(second, s.depth + 1))
    requires rn == ThenOp(DumpOps, Up, r, op, n)
    ensures Printed(rn, s, Show(n, s.depth))
  {
    OnTwoChains(op, n, s, Show(first, s.depth + 1), Show(second, s.depth + 1));
  }

  lemma OnTwoChains(op: Op, n: Tree, s: DumpState, c1: Chain, c2: Chain)
    requires (n.Expr? && IsArithmetic(n.op) && op == Binary) || (n.Assign? && op == ApplyAssign)
    ensures
      var lines :=
        if n.Expr? then [Line(s.depth, Symbol(n.op).value)] + (c1 + c2)
        else [Line(s.depth, "stmt =")] + (c2 + c1);
      DumpOps(op, Some(n), s.(chains := s.chains + [c1] + [c2])) == Go(s.(chains := s.chains + [lines]), true)
  {
    assert s.chains + [c1] + [c2] == s.chains + [c1, c2];
    PopPushed(s, [c1, c2]);
    JoinTwo(c1, c2);
  }

  lemma {:induction false} PrintsIf(n: Tree, s: DumpState)
    requires Printable(n) && (n.IfExpr? || n.IfStmt?)
    ensures Printed(Traverse(DumpOps, Some(n), Eval, s), s, Show(n, s.depth))
    decreases n, 0
  {
    hide Traverse, Show, Indented, DumpOps;
    DumpIf(n, s);
    PrintsTree(n.cond, Eval, Down(s));
    var s1 := Traverse(DumpOps, Some(n.cond), Eval, Down(s)).ctx;
    PrintsTree(n.thenArm, Eval, Down(Down(s1)));
    var s2 := Traverse(DumpOps, Some(n.thenArm), Eval, Down(Down(s1))).ctx;
    ShowDeeper(n.cond, s.depth + 1);
    if n.elseArm.Some? {
      PrintsTree(n.elseArm.value, Eval, s2);
      ShowDeeper(n.elseArm.value, s.depth + 1);
    } else {
      DumpNull(s2);
    }
    IfPrints(n, s, s1, s2, Traverse(DumpOps, n.elseArm, Eval, s2), Traverse(DumpOps, Some(n), Eval, s));
  }

  lemma IfPrints(n: Tree, s: DumpState, s1: DumpState, s2: DumpState, r: Outcome<DumpState>, rn: Outcome<DumpState>)
    requires Printable(n) && (n.IfExpr? || n.IfStmt?)
    requires Indented(Show(n.cond, s.depth + 1), 1) == Show(n.cond, s.depth + 2)
    requires n.elseArm.Some? ==> Indented(Show(n.elseArm.value, s.depth + 1), 1) == Show(n.elseArm.value, s.depth + 2)
    requires s1 == s.(chains := s.chains + [Show(n.cond, s.depth + 1)])
    requires s2 == DumpState(s1.chains + [Show(n.thenArm, s.depth + 2)], s.depth + 1)
    requires if n.elseArm.Some? then Printed(r, s2, Show(n.elseArm.value, s.depth + 1)) else r == Go(Up(s2), true)
    requires rn == ThenOp(DumpOps, Up, r, if n.IfStmt? then IfPost else IfExprPost, n)
    ensures Printed(rn, s, Show(n, s.depth))
  {
    var c3 := if n.elseArm.Some? then Some(Show(n.elseArm.value, s.depth + 1)) else None;
    OnIfChains(n, s, Show(n.cond, s.depth + 1), Show(n.thenArm, s.depth + 2), c3);
    assert c3.None? ==> s1.chains + [Show(n.thenArm, s.depth + 2)] + [] == s1.chains + [Show(n.thenArm, s.depth + 2)];
  }

  /** The correction of the levels: the then-arm's lines stay as they were. */
  lemma OnIfChains(n: Tree, s: DumpState, c1: Chain, c2: Chain, c3: Option<Chain>)
    requires (n.IfExpr? || n.IfStmt?) && n.elseArm.Some? == c3.Some?
    ensures
      var pushed := s.chains + [c1] + [c2] + if c3.Some? then [c3.value] else [];
      var title := if n.IfStmt? then "stmt if" else "expr if";
      var e := if c3.Some? then Some(Indented(c3.value, 1)) else None;
      DumpOps(if n.IfStmt? then IfPost else IfExprPost, Some(n), s.(chains := pushed)) ==
      Go(s.(chains := s.chains + [IfText(s.depth, title, Indented(c1, 1), c2, e)]), true)
  {
    hide Indented, IfText, Joined, PopChains;
    var cs := [c1, c2] + if c3.Some? then [c3.value] else [];
    assert s.chains + [c1] + [c2] + (if c3.Some? then [c3.value] else []) == s.chains + cs;
    PopPushed(s, cs);
  }

  lemma BlockPrints(n: Tree, s: DumpState, cs: seq<Chain>, r: Outcome<DumpState>, rn: Outcome<DumpState>)
    requires Printable(n) && n.Block? && cs == ChainsOf(n.stmts, s.depth + 1)
    requires r == Go(s.(chains := s.chains + cs), true)
    requires rn == ThenOp(DumpOps, Up, r, ScopePop, n)
    ensures Printed(rn, s, Show(n, s.depth))
  {
    assert r.ctx.chains[|s.chains|..] == cs && r.ctx.chains[..|s.chains|] == s.chains;
    assert DumpOps(ScopePop, Some(n), r.ctx) == Go(s.(chains := s.chains + [Show(n, s.depth)]), true);
  }

  /** The chains that the statements of a block leave. */
  function ChainsOf(ss: seq<Tree>, depth: int): (r: seq<Chain>)
    requires AllPrintable(ss)
    ensures |r| == |ss|
    ensures Joined(r) == ShowAll(ss, depth)
  {
    if ss == [] then []
    else
      var r := [Show(ss[0], depth)] + ChainsOf(ss[1..], depth);
      assert r[1..] == ChainsOf(ss[1..], depth);
      r
  }

  lemma {:induction false} PrintsRest(n: Tree, ss: seq<Tree>, s: DumpState)
    requires AllPrintable(ss)
    ensures Rest(DumpOps, n, ss, s) == Go(s.(chains := s.chains + ChainsOf(ss, s.depth + 1)), true)
    decreases ss, 0
  {
    hide Traverse;
    if ss != [] {
      DumpRest(n, ss, s);
      PrintsTree(ss[0], Eval, Down(s));
      var s1 := Traverse(DumpOps, Some(ss[0]), Eval, Down(s)).ctx;
      PrintsRest(n, ss[1..], s1);
      RestPrints(ss, s, s1, Rest(DumpOps, n, ss[1..], s1));
    } else {
      assert s.chains + [] == s.chains;
    }
  }

  lemma RestPrints(ss: seq<Tree>, s: DumpState, s1: DumpState, r: Outcome<DumpState>)
    requires AllPrintable(ss) && ss != []
    requires s1 == s.(chains := s.chains + [Show(ss[0], s.depth + 1)])
    requires r == Go(s1.(chains := s1.chains + ChainsOf(ss[1..], s1.depth + 1)), true)
    ensures r == Go(s.(chains := s.chains + ChainsOf(ss, s.depth + 1)), true)
  {
    hide Show, ShowAll, Joined;
    assert s.chains + [Show(ss[0], s.depth + 1)] + ChainsOf(ss[1..], s.depth + 1) ==
           s.chains + ([Show(ss[0], s.depth + 1)] + ChainsOf(ss[1..], s.depth + 1));
  }

  /**
   A run of the printer on any printable tree never faults and leaves one chain: the lines of the
   recursive printer with the root at depth 1, which astdump_print prints without indentation.
   */
  lemma PrintsProgram(root: Tree, slots: nat, s: DumpState)
    requires Printable(root)
    requires slots >= 2 * Height(root) - 1
    ensures
      WalkRoot(DumpOps, slots, root, s) == Go(s.(chains := s.chains + [Show(root, s.depth + 1)]), true)
  {
    WalkIsTraversal(DumpOps, slots, root, s);
    PrintsTree(root, Eval, Down(s));
    assert DumpOps(Enter, Some(root), s) == Go(Down(s), true);
  }

  // ----- the machine -----

  /** The print stack grows on demand, so only underflow is a fault. */
  class AstDump {
    var chains: seq<Chain>
    var depth: int

    ghost function State(): DumpState
      reads this
    {
      DumpState(chains, depth)
    }

    ghost predicate Reached(r: Outcome<DumpState>, fault: Option<Fault>)
      reads this
    {
      State() == r.ctx && fault == if r.Stop? then Some(r.fault) else None
    }

    constructor ()
      ensures State() == DumpState([], 0)
    {
      chains, depth := [], 0;
    }

    method StackPush(c: Chain)
      modifies this`chains
      ensures chains == old(chains) + [c]
    {
      chains := chains + [c];
    }

    method StackPop() returns (c: Chain, fault: Option<Fault>)
      modifies this`chains
      ensures fault == if old(chains) == [] then Some(PrintUnderflow) else None
      ensures if fault.None? then old(chains) == chains + [c] else chains == []
    {
      if chains == [] {
        return [], Some(PrintUnderflow);
      }
      c := chains[|chains| - 1];
      chains := chains[..|chains| - 1];
      return c, None;
    }

    /** printnode_indent_add: walks the chain and moves every line. */
    static method IndentAdd(c: Chain, more: int) returns (r: Chain)
      ensures r == Indented(c, more)
    {
      r := [];
      for i := 0 to |c|
        invariant |r| == i
        invariant forall k :: 0 <= k < i ==> r[k] == Line(c[k].indent + more, c[k].text)
      {
        r := r + [Line(c[i].indent + more, c[i].text)];
      }
    }

    method ApplyEnter()
      modifies this`depth
      ensures State() == Down(old(State()))
    {
      depth := depth + 1;
    }

    method ApplyLeave()
      modifies this`depth
      ensures State() == Up(old(State()))
    {
      depth := depth - 1;
    }

    method ScopePop(block: Tree)
      requires block.Block?
      modifies this`chains
      ensures Reached(DumpOps(Op.ScopePop, Some(block), old(State())), None)
    {
      var blockChain := [Line(depth, "block")];
      var from := if |chains| > |block.stmts| then |chains| - |block.stmts| else 0;
      ghost var whole := blockChain + Joined(chains[from..]);
      for i := from to |chains|
        invariant blockChain + Joined(chains[i..]) == whole
      {
        assert chains[i..][1..] == chains[i + 1..];
        blockChain := blockChain + chains[i];
      }
      assert chains[|chains|..] == [];
      assert blockChain == whole;
      chains := chains[..from];
      StackPush(blockChain);
    }

    method ApplyExpr(n: Tree) returns (fault: Option<Fault>)
      requires n.Expr?
      modifies this`chains
      ensures Reached(DumpOps(Binary, Some(n), old(State())), fault)
    {
      var symbol := Symbol(n.op);
      if symbol.None? {
        return Some(UnknownOperator);
      }
      var r, f := StackPop();
      if f.Some? {
        return f;
      }
      var l;
      l, f := StackPop();
      if f.Some? {
        return f;
      }
      assert old(chains)[|old(chains)| - 2..] == [l, r];
      JoinTwo(l, r);
      StackPush([Line(depth, symbol.value)] + (l + r));
      return None;
    }

    /** Pops the chains of an `if`, the else-arm's first. */
    method PopParts(hasElse: bool) returns (c: Chain, t: Chain, e: Option<Chain>, fault: Option<Fault>)
      modifies this`chains
      ensures fault == if |old(chains)| < (if hasElse then 3 else 2) then Some(PrintUnderflow) else None
      ensures fault.Some? ==> chains == []
      ensures
        fault.None? ==>
          && e.Some? == hasElse
          && old(chains) == chains + [c] + [t] + if hasElse then [e.value] else []
    {
      c, t, e := [], [], None;
      if hasElse {
        var elseChain;
        elseChain, fault := StackPop();
        if fault.Some? {
          return;
        }
        e := Some(elseChain);
      }
      t, fault := StackPop();
      if fault.Some? {
        return;
      }
      c, fault := StackPop();
    }

    method ApplyIfPost(n: Tree) returns (fault: Option<Fault>)
      requires n.IfStmt? || n.IfExpr?
      modifies this`chains
      ensures Reached(DumpOps(if n.IfStmt? then IfPost else IfExprPost, Some(n), old(State())), fault)
    {
      var c, t, e, f := PopParts(n.elseArm.Some?);
      if f.Some? {
        return f;
      }
      hide DumpOps;
      OnIfChains(n, State(), c, t, e);
      c := IndentAdd(c, 1);
      if e.Some? {
        var lines := IndentAdd(e.value, 1);
        e := Some(lines);
      }
      StackPush(IfText(depth, if n.IfStmt? then "stmt if" else "expr if", c, t, e));
      return None;
    }

    method ApplyAssign(n: Tree) returns (fault: Option<Fault>)
      requires n.Assign?
      modifies this`chains
      ensures Reached(DumpOps(Op.ApplyAssign, Some(n), old(State())), fault)
    {
      var lexpr, f := StackPop();
      if f.Some? {
        return f;
      }
      var expr;
      expr, f := StackPop();
      if f.Some? {
        return f;
      }
      assert old(chains)[|old(chains)| - 2..] == [expr, lexpr];
      StackPush([Line(depth, "stmt =")] + (lexpr + expr));
      return None;
    }

    /** The operations that put lines on top of one chain: unary minus, echo and definitions. */
    method ApplyWrapping(op: Op, n: Tree) returns (fault: Option<Fault>)
      requires (n.UExpr? && op == Unary) || (n.Echo? && op == ApplyEcho) || (n.Define? && n.id.Id? && op == ApplyDefine)
      modifies this`chains
      ensures Reached(DumpOps(op, Some(n), old(State())), fault)
    {
      if n.UExpr? && n.op != TokMinus {
        return Some(UnknownOperator);
      }
      var inner, f := StackPop();
      if f.Some? {
        return f;
      }
      assert old(chains)[|old(chains)| - 1..] == [inner];
      JoinTwo(inner, inner);
      var lines :=
        if n.UExpr? then [Line(depth, "uexpr -")]
        else if n.Echo? then [Line(depth, "stmt echo")]
        else [Line(depth, "stmt :="), Line(depth + 1, "id " + n.id.name)];
      StackPush(lines + inner);
      return None;
    }

    /** astdump_print: every line of every chain, from the bottom of the stack. */
    method Print() returns (lines: seq<Line>)
      modifies this`chains
      ensures lines == Joined(old(chains)) && chains == []
    {
      lines := [];
      for i := 0 to |chains|
        invariant lines + Joined(chains[i..]) == Joined(chains)
      {
        assert chains[i..][1..] == chains[i + 1..];
        lines := lines + chains[i];
      }
      chains := [];
    }

    /** A literal or a name is one line; a literal of another kind is an error. */
    method ApplyLeaf(op: Op, n: Tree) returns (fault: Option<Fault>)
      requires (op == ValueOf && n.Value?) || ((op == Identifier || op == IdentifierRef) && n.Id?)
      modifies this`chains
      ensures Reached(DumpOps(op, Some(n), old(State())), fault)
    {
      if n.Value? && n.kind !in {IntegerValue, BoolValue} {
        return Some(UnsupportedValue);
      }
      StackPush([Line(depth, if n.Value? then "val " + n.text else "id " + n.name)]);
      return None;
    }

    /** The table that astdump_new fills: the operations that are not listed do nothing, both decisions say yes. */
    method Apply(op: Op, node: Option<Tree>) returns (yes: bool, fault: Option<Fault>)
      modifies this
      ensures
        var r := DumpOps(op, node, old(State()));
        Reached(r, fault) && (r.Go? ==> yes == r.yes)
    {
      yes, fault := true, None;
      match op {
        case Enter => ApplyEnter();
        case Leave => ApplyLeave();
        case _ =>
          if node.Some? {
            fault := ApplyNode(op, node.value);
          }
      }
    }

    method ApplyNode(op: Op, n: Tree) returns (fault: Option<Fault>)
      requires op != Enter && op != Leave
      modifies this`chains
      ensures
        var r := DumpOps(op, Some(n), old(State()));
        Reached(r, fault) && (r.Go? ==> r.yes)
    {
      fault := None;
      OperationsSayYes(op, n, State());
      match op {
        case ValueOf => if n.Value? { fault := ApplyLeaf(op, n); }
        case Identifier => if n.Id? { fault := ApplyLeaf(op, n); }
        case IdentifierRef => if n.Id? { fault := ApplyLeaf(op, n); }
        case Binary => if n.Expr? { fault := ApplyExpr(n); }
        case Unary => if n.UExpr? { fault := ApplyWrapping(op, n); }
        case ApplyEcho => if n.Echo? { fault := ApplyWrapping(op, n); }
        case ApplyDefine => if n.Define? && n.id.Id? { fault := ApplyWrapping(op, n); }
        case ApplyAssign => if n.Assign? { fault := ApplyAssign(n); }
        case IfPost => if n.IfStmt? { fault := ApplyIfPost(n); }
        case IfExprPost => if n.IfExpr? { fault := ApplyIfPost(n); }
        case ScopePop => if n.Block? { ScopePop(n); }
        case _ =>
      }
    }
  }

  /** Only the decisions of the other tables ever say no. */
  lemma OperationsSayYes(op: Op, n: Tree, s: DumpState)
    ensures DumpOps(op, Some(n), s).Go? ==> DumpOps(op, Some(n), s).yes
  {
  }
}
