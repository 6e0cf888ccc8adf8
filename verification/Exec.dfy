/**
 The executor (bootstrap/exec.c): an operation table over an operand stack and a stack of scopes.

 The module gives a direct evaluator of the language (no operand stack, no `if` flag, no phases) and
 proves that the walker with the executor's table computes what the evaluator computes.
 */
module Exec {
  import opened Basics
  import opened Bits
  import opened Tokens
  import opened Ast
  import opened Walker
  import opened RegularTables

  // ----- 64-bit arithmetic -----

  predicate InRange(x: int) {
    -TWO_TO_THE_63 <= x < TWO_TO_THE_63
  }

  /** The int64 with the same 64 bits as the integer `x`. */
  function Wrap(x: int): int {
    (x + TWO_TO_THE_63) % TWO_TO_THE_64 - TWO_TO_THE_63
  }

  lemma WrapIsModular(x: int)
    ensures InRange(Wrap(x)) && (Wrap(x) - x) % TWO_TO_THE_64 == 0
    ensures InRange(x) ==> Wrap(x) == x
  {
  }

  function Arithmetic(op: TokenKind, a: int, b: int): Result<int, Fault> {
    match op
    case TokMinus => Ok(Wrap(a - b))
    case TokPlus => Ok(Wrap(a + b))
    case TokStar => Ok(Wrap(a * b))
    case TokSlash =>
      if b == 0 then Err(DivisionByZero)
      else if b == -1 then Ok(Wrap(-a))
      else Ok(TruncatedDiv(a, b))
    case _ => Err(UnknownOperator)
  }

  /** The number that the leading digits of a literal denote. */
  function Decimal(text: string, acc: nat): nat
    decreases |text|
  {
    if text == [] || !('0' <= text[0] <= '9') then acc
    else Decimal(text[1..], 10 * acc + (text[0] - '0') as nat)
  }

  function Literal(kind: ValueKind, text: string): Result<int, Fault> {
    match kind
    case IntegerValue =>
      var v := Decimal(text, 0);
      if v < TWO_TO_THE_63 then Ok(v) else Err(LiteralRange)
    case BoolValue => Ok(if text == "true" then 1 else 0)
    case _ => Err(UnsupportedValue)
  }

  // ----- scopes -----

  type Scopes = seq<map<string, int>>

  /** The innermost scope that defines `name`. */
  function Owner(scopes: Scopes, name: string): (o: Option<nat>)
    ensures o.Some? ==> o.value < |scopes| && name in scopes[o.value]
    ensures o.Some? ==> forall i :: o.value < i < |scopes| ==> name !in scopes[i]
    ensures o.None? ==> forall i :: 0 <= i < |scopes| ==> name !in scopes[i]
  {
    if scopes == [] then None
    else if name in scopes[|scopes| - 1] then Some(|scopes| - 1)
    else Owner(scopes[..|scopes| - 1], name)
  }

  // ----- the executor's state and operations -----

  /** An operand: a number, or the address of the variable `name` in the scope at `depth`. */
  datatype Slot = Num(v: int) | Ref(depth: nat, name: string)

  datatype ExecState = ExecState(stack: seq<Slot>, capacity: nat, scopes: Scopes, ifTaken: bool, out: seq<int>)

  function PushSlot(s: ExecState, x: Slot): Outcome<ExecState> {
    if |s.stack| >= s.capacity then Stop(s, StackOverflow) else Go(s.(stack := s.stack + [x]), true)
  }

  function PopSlot(s: ExecState): Outcome<ExecState> {
    if s.stack == [] then Stop(s, StackUnderflow) else Go(s.(stack := s.stack[..|s.stack| - 1]), true)
  }

  /** Using an address as a number is outside the language: it stands for C's undefined behaviour. */
  function PopNum(s: ExecState): (Outcome<ExecState>, int) {
    if s.stack == [] then (Stop(s, StackUnderflow), 0)
    else
      match s.stack[|s.stack| - 1]
      case Num(v) => (Go(s.(stack := s.stack[..|s.stack| - 1]), true), v)
      case Ref(_, _) => (Stop(s, BadReference), 0)
  }

  function PushResult(s: ExecState, r: Result<int, Fault>): Outcome<ExecState> {
    match r
    case Ok(v) => PushSlot(s, Num(v))
    case Err(f) => Stop(s, f)
  }

  /** Adds a name to the innermost scope; a redefinition replaces the value and then fails. */
  function AddName(s: ExecState, name: string, v: int): Outcome<ExecState> {
    if s.scopes == [] then Stop(s, NoScope)
    else
      var top := |s.scopes| - 1;
      var s' := s.(scopes := s.scopes[top := s.scopes[top][name := v]]);
      if name in s.scopes[top] then Stop(s', NameRedefinition) else Go(s', true)
  }

  function ExecOps(op: Op, node: Option<Tree>, s: ExecState): Outcome<ExecState> {
    match op
    case ScopePush => Go(s.(scopes := s.scopes + [map[]]), true)
    case ScopePop => Go(if s.scopes == [] then s else s.(scopes := s.scopes[..|s.scopes| - 1]), true)
    case IfCond =>
      var (r, c) := PopNum(s);
      var s1 :- r;
      PushSlot(s1, Num(if c != 0 then 1 else 0))
    case DecideThen =>
      var s0 := s.(ifTaken := false);
      var (r, c) := PopNum(s0);
      var s1 :- r;
      if c == 0 then
        var s2 :- PushSlot(s1, Num(c));
        Go(s2, false)
      else Go(s1.(ifTaken := true), true)
    case DecideElse =>
      if s.ifTaken then Go(s, false)
      else
        var (r, c) := PopNum(s);
        var s1 :- r;
        Go(s1, c == 0)
    case ApplyEcho =>
      var (r, v) := PopNum(s);
      var s1 :- r;
      Go(s1.(out := s1.out + [v]), true)
    case _ => if node.Some? then NodeOp(op, node.value, s) else Go(s, true)
  }

  /** The operations that read their node. */
  function NodeOp(op: Op, n: Tree, s: ExecState): Outcome<ExecState> {
    if op == IdentifierRef && n.Id? then
      var o := Owner(s.scopes, n.name);
      if o.Some? then PushSlot(s, Ref(o.value, n.name)) else Stop(s, UndefinedName)
    else if op == Identifier && n.Id? then
      var o := Owner(s.scopes, n.name);
      if o.Some? then PushSlot(s, Num(s.scopes[o.value][n.name])) else Stop(s, UndefinedName)
    else if op == Binary && n.Expr? then
      var (r1, b) := PopNum(s);
      var s1 :- r1;
      var (r2, a) := PopNum(s1);
      var s2 :- r2;
      PushResult(s2, Arithmetic(n.op, a, b))
    else if op == Unary && n.UExpr? then
      var (r, v) := PopNum(s);
      var s1 :- r;
      PushResult(s1, if n.op == TokMinus then Ok(Wrap(-v)) else Err(UnknownOperator))
    else if op == ValueOf && n.Value? then
      PushResult(s, Literal(n.kind, n.text))
    else if op == ApplyDefine && n.Define? && n.id.Id? then
      var (r, v) := PopNum(s);
      var s1 :- r;
      AddName(s1, n.id.name, v)
    else if op == ApplyAssign && n.Assign? then
      if s.stack == [] then Stop(s, StackUnderflow)
      else
        match s.stack[|s.stack| - 1]
        case Num(_) => Stop(s, BadReference)
        case Ref(depth, name) =>
          var (r, v) := PopNum(s.(stack := s.stack[..|s.stack| - 1]));
          var s1 :- r;
          if depth < |s1.scopes| && name in s1.scopes[depth] then
            Go(s1.(scopes := s1.scopes[depth := s1.scopes[depth][name := v]]), true)
          else Stop(s1, BadReference)
    else Go(s, true)  // apply_if_post, apply_ifexpr_post, apply_enter, apply_leave and the load do nothing
  }

  // ----- the direct evaluator -----

  /** The value of an expression; expressions change nothing. */
  function Evaluate(n: Tree, scopes: Scopes): Result<int, Fault>
    requires IsExpr(n)
  {
    match n
    case Value(_, kind, text) => Literal(kind, text)
    case Id(_, name) =>
      var o := Owner(scopes, name);
      if o.Some? then Ok(scopes[o.value][name]) else Err(UndefinedName)
    case Expr(_, op, l, r) =>
      var a :- Evaluate(l, scopes);
      var b :- Evaluate(r, scopes);
      Arithmetic(op, a, b)
    case UExpr(_, _, e) =>
      var v :- Evaluate(e, scopes);
      Ok(Wrap(-v))
    case IfExpr(_, c, t, e) =>
      var v :- Evaluate(c, scopes);
      if v != 0 then Evaluate(t, scopes) else Evaluate(e.value, scopes)
  }

  /** What a program can observe: its variables, innermost scope last, and its output. */
  datatype World = World(scopes: Scopes, out: seq<int>)

  datatype Ending = Finished(world: World) | Failed(world: World, fault: Fault) {
    predicate IsFailure() {
      Failed?
    }

    function PropagateFailure(): Ending
      requires Failed?
    {
      this
    }

    function Extract(): World
      requires Finished?
    {
      world
    }
  }

  function Execute(n: Tree, w: World): Ending
    requires IsStmt(n)
    requires n.Block? || w.scopes != []
    ensures |Execute(n, w).world.scopes| >= |w.scopes|
    ensures Execute(n, w).Finished? ==> |Execute(n, w).world.scopes| == |w.scopes|
    decreases n, 1
  {
    match n
    case Echo(_, e) =>
      (match Evaluate(e, w.scopes)
       case Err(f) => Failed(w, f)
       case Ok(v) => Finished(w.(out := w.out + [v])))
    case Define(_, id, e) =>
      (match Evaluate(e, w.scopes)
       case Err(f) => Failed(w, f)
       case Ok(v) =>
         var top := |w.scopes| - 1;
         var w' := w.(scopes := w.scopes[top := w.scopes[top][id.name := v]]);
         if id.name in w.scopes[top] then Failed(w', NameRedefinition) else Finished(w'))
    case Assign(_, l, e) =>
      (match Evaluate(e, w.scopes)
       case Err(f) => Failed(w, f)
       case Ok(v) =>
         var o := Owner(w.scopes, l.name);
         if o.None? then Failed(w, UndefinedName)
         else Finished(w.(scopes := w.scopes[o.value := w.scopes[o.value][l.name := v]])))
    case IfStmt(_, c, t, e) =>
      (match Evaluate(c, w.scopes)
       case Err(f) => Failed(w, f)
       case Ok(v) =>
         if v != 0 then Execute(t, w)
         else if e.Some? then Execute(e.value, w)
         else Finished(w))
    case Block(_, ss) =>
      var w' :- ExecuteAll(ss, w.(scopes := w.scopes + [map[]]));
      Finished(w'.(scopes := w'.scopes[..|w'.scopes| - 1]))
  }

  function ExecuteAll(ss: seq<Tree>, w: World): Ending
    requires AreStmts(ss) && w.scopes != []
    ensures |ExecuteAll(ss, w).world.scopes| >= |w.scopes|
    ensures ExecuteAll(ss, w).Finished? ==> |ExecuteAll(ss, w).world.scopes| == |w.scopes|
    decreases ss, 0
  {
    if ss == [] then Finished(w)
    else
      var w' :- Execute(ss[0], w);
      ExecuteAll(ss[1..], w')
  }

  lemma ExecIsRegular()
    ensures Regular(ExecOps, Same, Same)
    ensures forall op, node, s | op in {IfPost, IfExprPost} :: ExecOps(op, node, s) == Go(s, true)
  {
  }

  lemma ExecSingle(op: Op, n: Tree, e: Tree, s: ExecState)
    requires
      || (n.UExpr? && n.operand == e && op == Unary)
      || (n.Echo? && n.expr == e && op == ApplyEcho)
      || (n.Define? && n.expr == e && op == ApplyDefine)
    ensures Traverse(ExecOps, Some(n), Eval, s) == ThenOp(ExecOps, Same, Traverse(ExecOps, Some(e), Eval, s), op, n)
  {
    ExecIsRegular();
    TraverseSingle(ExecOps, Same, Same, op, n, e, s);
  }

  lemma ExecDouble(op: Op, n: Tree, first: Tree, second: Tree, mode: Mode, s: ExecState)
    requires
      || (n.Expr? && n.op1 == first && n.op2 == second && mode == Eval && op == Binary)
      || (n.Assign? && n.expr == first && n.lexpr == second && mode == Reference && op == ApplyAssign)
    ensures
      var r := Traverse(ExecOps, Some(first), Eval, s);
      Traverse(ExecOps, Some(n), Eval, s) ==
      if r.Stop? then r else ThenOp(ExecOps, Same, Traverse(ExecOps, Some(second), mode, r.ctx), op, n)
  {
    ExecIsRegular();
    TraverseDouble(ExecOps, Same, Same, op, n, first, second, mode, s);
  }

  lemma ExecIf(n: Tree, s: ExecState)
    requires n.IfStmt? || n.IfExpr?
    ensures
      var r := Traverse(ExecOps, Some(n.cond), Eval, s);
      Traverse(ExecOps, Some(n), Eval, s) ==
      if r.Stop? then r else Settled(ChosenArms(ExecOps, Same, n, r.ctx))
  {
    ExecIsRegular();
    TraverseIf(ExecOps, Same, Same, n, s);
  }

  lemma ExecBlock(n: Tree, s: ExecState)
    requires n.Block?
    ensures
      Traverse(ExecOps, Some(n), Eval, s) ==
      ThenOp(ExecOps, Same, Rest(ExecOps, n, n.stmts, s.(scopes := s.scopes + [map[]])), ScopePop, n)
  {
    ExecIsRegular();
    TraverseBlock(ExecOps, Same, Same, n, s);
  }

  lemma ExecRest(n: Tree, ss: seq<Tree>, s: ExecState)
    requires ss != []
    ensures
      var r := Traverse(ExecOps, Some(ss[0]), Eval, s);
      Rest(ExecOps, n, ss, s) == if r.Stop? then r else Rest(ExecOps, n, ss[1..], r.ctx)
  {
    ExecIsRegular();
    RestIsTraversals(ExecOps, Same, Same, n, ss, s);
  }

  lemma TraverseReference(id: Tree, s: ExecState)
    requires id.Id? && |s.stack| < s.capacity
    ensures
      var o := Owner(s.scopes, id.name);
      Traverse(ExecOps, Some(id), Reference, s) ==
      if o.Some? then Go(s.(stack := s.stack + [Ref(o.value, id.name)]), true) else Stop(s, UndefinedName)
  {
    ExecIsRegular();
    TraverseLeaf(ExecOps, Same, Same, IdentifierRef, id, Reference, s);
  }

  // ----- the operations on the operands that their children leave -----

  lemma PopPushed(s: ExecState, x: int)
    ensures PopNum(s.(stack := s.stack + [Num(x)])) == (Go(s, true), x)
  {
    SnocSplit(s.stack, Num(x));
  }

  lemma BinaryOnValues(n: Tree, s: ExecState, a: int, b: int)
    requires n.Expr?
    ensures
      ExecOps(Binary, Some(n), s.(stack := s.stack + [Num(a)] + [Num(b)])) == PushResult(s, Arithmetic(n.op, a, b))
  {
    PopPushed(s.(stack := s.stack + [Num(a)]), b);
    PopPushed(s, a);
  }

  lemma UnaryOnValue(n: Tree, s: ExecState, v: int)
    requires n.UExpr? && n.op == TokMinus
    ensures ExecOps(Unary, Some(n), s.(stack := s.stack + [Num(v)])) == PushSlot(s, Num(Wrap(-v)))
  {
    PopPushed(s, v);
  }

  lemma EchoOnValue(n: Tree, s: ExecState, v: int)
    ensures ExecOps(ApplyEcho, Some(n), s.(stack := s.stack + [Num(v)])) == Go(s.(out := s.out + [v]), true)
  {
    PopPushed(s, v);
  }

  lemma DefineOnValue(n: Tree, s: ExecState, v: int)
    requires n.Define? && n.id.Id?
    ensures ExecOps(ApplyDefine, Some(n), s.(stack := s.stack + [Num(v)])) == AddName(s, n.id.name, v)
  {
    PopPushed(s, v);
  }

  lemma AssignOnValue(n: Tree, s: ExecState, v: int, depth: nat, name: string)
    requires n.Assign? && depth < |s.scopes| && name in s.scopes[depth]
    ensures
      ThenOp(ExecOps, Same, Go(s.(stack := s.stack + [Num(v)] + [Ref(depth, name)]), true), ApplyAssign, n) ==
      Go(s.(scopes := s.scopes[depth := s.scopes[depth][name := v]]), true)
  {
    SnocSplit(s.stack + [Num(v)], Ref(depth, name));
    PopPushed(s, v);
  }

  lemma DecisionsOnValue(n: Tree, s: ExecState, c: int)
    requires n.IfExpr? || n.IfStmt?
    requires |s.stack| < s.capacity
    ensures
      var b := if c != 0 then 1 else 0;
      var s1 := s.(stack := s.stack + [Num(b)]);
      var taken := s.(ifTaken := true);
      var skipped := s1.(ifTaken := false);
      && ExecOps(IfCond, Some(n), s.(stack := s.stack + [Num(c)])) == Go(s1, true)
      && ExecOps(DecideThen, None, s1) == (if c != 0 then Go(taken, true) else Go(skipped, false))
      && (if c != 0 then ExecOps(DecideElse, None, taken) == Go(taken, false)
          else ExecOps(DecideElse, None, skipped) == Go(s.(ifTaken := false), true))
  {
    var b := if c != 0 then 1 else 0;
    PopPushed(s, c);
    PopPushed(s.(ifTaken := false), b);
  }

  /** The pair of decisions runs exactly one arm, or none where there is no else-arm. */
  lemma {:induction false} ChoiceRefines(n: Tree, s: ExecState, c: int)
    requires n.IfExpr? || n.IfStmt?
    requires |s.stack| < s.capacity
    ensures
      var s' := s.(ifTaken := c != 0);
      Settled(ChosenArms(ExecOps, Same, n, s.(stack := s.stack + [Num(c)]))) ==
      Settled(if c != 0 then Traverse(ExecOps, Some(n.thenArm), Eval, s')
              else if n.elseArm.Some? then Traverse(ExecOps, n.elseArm, Eval, s')
              else Go(s', true))
  {
    DecisionsOnValue(n, s, c);
    ExecIsRegular();
    TraverseNull(ExecOps, Same, Same, s.(ifTaken := false));
  }

  // ----- the walker with the executor's table computes what the evaluator computes -----

  predicate ExprMatches(r: Outcome<ExecState>, s: ExecState, v: Result<int, Fault>) {
    match v
    case Ok(x) => r.Go? && r.ctx == s.(stack := s.stack + [Num(x)], ifTaken := r.ctx.ifTaken)
    case Err(f) => r.Stop? && r.fault == f && r.ctx.scopes == s.scopes && r.ctx.out == s.out
  }

  /**
   An expression leaves exactly one value, the evaluator's, on the operand stack as it found it, and
   needs no more operand slots than its height.
   */
  lemma {:induction false} ExpressionRefines(n: Tree, s: ExecState)
    requires IsExpr(n)
    requires |s.stack| + Height(n) <= s.capacity
    ensures ExprMatches(Traverse(ExecOps, Some(n), Eval, s), s, Evaluate(n, s.scopes))
    decreases n
  {
    var rn := Traverse(ExecOps, Some(n), Eval, s);
    match n {
      case Value(_, _, _) => LeafRefines(n, s);
      case Id(_, _) => LeafRefines(n, s);
      case UExpr(_, _, e) =>
        ExpressionRefines(e, s);
        ExecSingle(Unary, n, e, s);
        UnaryRefines(n, s, Traverse(ExecOps, Some(e), Eval, s), rn);
      case Expr(_, op, l, r) =>
        ExpressionRefines(l, s);
        ExecDouble(Binary, n, l, r, Eval, s);
        var r1 := Traverse(ExecOps, Some(l), Eval, s);
        if r1.Go? {
          ExpressionRefines(r, r1.ctx);
          BinaryRefines(n, s, r1, Traverse(ExecOps, Some(r), Eval, r1.ctx), rn);
        }
      case IfExpr(_, c, t, e) =>
        ExpressionRefines(c, s);
        ExecIf(n, s);
        var r1 := Traverse(ExecOps, Some(c), Eval, s);
        if r1.Go? {
          var v := Evaluate(c, s.scopes).value;
          var s1 := r1.ctx.(stack := s.stack);
          ChoiceRefines(n, s1, v);
          var arm, sa := if v != 0 then t else e.value, s1.(ifTaken := v != 0);
          ExpressionRefines(arm, sa);
          IfExprRefines(n, s, sa, v, Traverse(ExecOps, Some(arm), Eval, sa), rn);
        }
    }
  }

  lemma LeafRefines(n: Tree, s: ExecState)
    requires IsExpr(n) && (n.Value? || n.Id?)
    requires |s.stack| < s.capacity
    ensures ExprMatches(Traverse(ExecOps, Some(n), Eval, s), s, Evaluate(n, s.scopes))
  {
    ExecIsRegular();
    TraverseLeaf(ExecOps, Same, Same, if n.Value? then ValueOf else Identifier, n, Eval, s);
  }

  lemma UnaryRefines(n: Tree, s: ExecState, r: Outcome<ExecState>, rn: Outcome<ExecState>)
    requires IsExpr(n) && n.UExpr?
    requires |s.stack| < s.capacity
    requires ExprMatches(r, s, Evaluate(n.operand, s.scopes))
    requires rn == ThenOp(ExecOps, Same, r, Unary, n)
    ensures ExprMatches(rn, s, Evaluate(n, s.scopes))
  {
    if r.Go? {
      UnaryOnValue(n, r.ctx.(stack := s.stack), Evaluate(n.operand, s.scopes).value);
    }
  }

  lemma BinaryRefines(n: Tree, s: ExecState, r1: Outcome<ExecState>, r2: Outcome<ExecState>, rn: Outcome<ExecState>)
    requires IsExpr(n) && n.Expr?
    requires |s.stack| < s.capacity
    requires r1.Go? && ExprMatches(r1, s, Evaluate(n.op1, s.scopes))
    requires ExprMatches(r2, r1.ctx, Evaluate(n.op2, s.scopes))
    requires rn == ThenOp(ExecOps, Same, r2, Binary, n)
    ensures ExprMatches(rn, s, Evaluate(n, s.scopes))
  {
    if r2.Go? {
      BinaryOnValues(n, r2.ctx.(stack := s.stack), Evaluate(n.op1, s.scopes).value, Evaluate(n.op2, s.scopes).value);
    }
  }

  lemma IfExprRefines(n: Tree, s: ExecState, sa: ExecState, v: int, r: Outcome<ExecState>, rn: Outcome<ExecState>)
    requires IsExpr(n) && n.IfExpr? && Evaluate(n.cond, s.scopes) == Ok(v)
    requires sa == s.(ifTaken := sa.ifTaken)
    requires ExprMatches(r, sa, Evaluate(if v != 0 then n.thenArm else n.elseArm.value, s.scopes))
    requires rn == Settled(r)
    ensures ExprMatches(rn, s, Evaluate(n, s.scopes))
  {
  }

  predicate StmtMatches(r: Outcome<ExecState>, s: ExecState, e: Ending) {
    && r.ctx.scopes == e.world.scopes
    && r.ctx.out == e.world.out
    && (if e.Finished? then r.Go? && r.ctx.stack == s.stack && r.ctx.capacity == s.capacity
        else r.Stop? && r.fault == e.fault)
  }

  /**
   A statement leaves the operand stack as it found it and has the evaluator's effect on variables
   and output, whether it succeeds or faults.
   */
  lemma {:induction false} StatementRefines(n: Tree, s: ExecState)
    requires IsStmt(n)
    requires n.Block? || s.scopes != []
    requires |s.stack| + Height(n) <= s.capacity
    ensures StmtMatches(Traverse(ExecOps, Some(n), Eval, s), s, Execute(n, World(s.scopes, s.out)))
    decreases n, 1
  {
    var rn := Traverse(ExecOps, Some(n), Eval, s);
    match n {
      case Echo(_, e) =>
        ExpressionRefines(e, s);
        ExecSingle(ApplyEcho, n, e, s);
        EchoRefines(n, s, Traverse(ExecOps, Some(e), Eval, s), rn);
      case Define(_, _, e) =>
        ExpressionRefines(e, s);
        ExecSingle(ApplyDefine, n, e, s);
        DefineRefines(n, s, Traverse(ExecOps, Some(e), Eval, s), rn);
      case Assign(_, l, e) =>
        ExpressionRefines(e, s);
        ExecDouble(ApplyAssign, n, e, l, Reference, s);
        var r := Traverse(ExecOps, Some(e), Eval, s);
        if r.Go? {
          TraverseReference(l, r.ctx);
          AssignRefines(n, s, r, Traverse(ExecOps, Some(l), Reference, r.ctx), rn);
        }
      case IfStmt(_, c, t, e) =>
        ExpressionRefines(c, s);
        ExecIf(n, s);
        var r := Traverse(ExecOps, Some(c), Eval, s);
        if r.Go? {
          var v := Evaluate(c, s.scopes).value;
          var s1 := r.ctx.(stack := s.stack);
          ChoiceRefines(n, s1, v);
          if v != 0 {
            StatementRefines(t, s1.(ifTaken := true));
          } else if e.Some? {
            StatementRefines(e.value, s1.(ifTaken := false));
          }
        }
      case Block(_, ss) =>
        BlockRefines(n, s);
    }
  }

  lemma EchoRefines(n: Tree, s: ExecState, r: Outcome<ExecState>, rn: Outcome<ExecState>)
    requires IsStmt(n) && n.Echo? && s.scopes != []
    requires ExprMatches(r, s, Evaluate(n.expr, s.scopes))
    requires rn == ThenOp(ExecOps, Same, r, ApplyEcho, n)
    ensures StmtMatches(rn, s, Execute(n, World(s.scopes, s.out)))
  {
    if r.Go? {
      EchoOnValue(n, r.ctx.(stack := s.stack), Evaluate(n.expr, s.scopes).value);
    }
  }

  lemma DefineRefines(n: Tree, s: ExecState, r: Outcome<ExecState>, rn: Outcome<ExecState>)
    requires IsStmt(n) && n.Define? && s.scopes != []
    requires ExprMatches(r, s, Evaluate(n.expr, s.scopes))
    requires rn == ThenOp(ExecOps, Same, r, ApplyDefine, n)
    ensures StmtMatches(rn, s, Execute(n, World(s.scopes, s.out)))
  {
    if r.Go? {
      DefineOnValue(n, r.ctx.(stack := s.stack), Evaluate(n.expr, s.scopes).value);
    }
  }

  lemma AssignRefines(n: Tree, s: ExecState, r: Outcome<ExecState>, rl: Outcome<ExecState>, rn: Outcome<ExecState>)
    requires IsStmt(n) && n.Assign? && s.scopes != []
    requires r.Go? && ExprMatches(r, s, Evaluate(n.expr, s.scopes))
    requires
      var o := Owner(s.scopes, n.lexpr.name);
      rl == if o.Some? then Go(r.ctx.(stack := r.ctx.stack + [Ref(o.value, n.lexpr.name)]), true)
            else Stop(r.ctx, UndefinedName)
    requires rn == ThenOp(ExecOps, Same, rl, ApplyAssign, n)
    ensures StmtMatches(rn, s, Execute(n, World(s.scopes, s.out)))
  {
    var o := Owner(s.scopes, n.lexpr.name);
    if o.Some? {
      AssignOnValue(n, r.ctx.(stack := s.stack), Evaluate(n.expr, s.scopes).value, o.value, n.lexpr.name);
    }
  }

  /** A block leaves the scope stack at its entry depth. */
  lemma {:induction false} BlockRefines(n: Tree, s: ExecState)
    requires n.Block? && IsStmt(n)
    requires |s.stack| + Height(n) <= s.capacity
    ensures StmtMatches(Traverse(ExecOps, Some(n), Eval, s), s, Execute(n, World(s.scopes, s.out)))
    decreases n, 0
  {
    ExecBlock(n, s);
    var s1 := s.(scopes := s.scopes + [map[]]);
    RestRefines(n, n.stmts, s1);
    BlockCloses(n, s, s1, Rest(ExecOps, n, n.stmts, s1), Traverse(ExecOps, Some(n), Eval, s));
  }

  lemma BlockCloses(n: Tree, s: ExecState, s1: ExecState, r: Outcome<ExecState>, rn: Outcome<ExecState>)
    requires n.Block? && IsStmt(n)
    requires s1 == s.(scopes := s.scopes + [map[]])
    requires StmtMatches(r, s1, ExecuteAll(n.stmts, World(s1.scopes, s1.out)))
    requires rn == ThenOp(ExecOps, Same, r, ScopePop, n)
    ensures StmtMatches(rn, s, Execute(n, World(s.scopes, s.out)))
  {
  }

  lemma {:induction false} RestRefines(n: Tree, ss: seq<Tree>, s: ExecState)
    requires AreStmts(ss) && s.scopes != []
    requires |s.stack| + ListHeight(ss) <= s.capacity
    ensures StmtMatches(Rest(ExecOps, n, ss, s), s, ExecuteAll(ss, World(s.scopes, s.out)))
    decreases ss, 0
  {
    if ss != [] {
      ExecRest(n, ss, s);
      StatementRefines(ss[0], s);
      var r := Traverse(ExecOps, Some(ss[0]), Eval, s);
      if r.Go? {
        RestRefines(n, ss[1..], r.ctx);
      }
    }
  }

  // ----- whole programs -----

  /**
   A run of the executor on a program agrees with the evaluator in success, fault, output and
   variables, on any machine with enough slots; run_exec makes empty stacks of 2 * height + 1 slots.
   */
  lemma ProgramRefines(root: Tree, slots: nat, s: ExecState)
    requires root.Block? && IsStmt(root)
    requires slots >= 2 * Height(root) - 1
    requires |s.stack| + Height(root) <= s.capacity
    ensures StmtMatches(WalkRoot(ExecOps, slots, root, s), s, Execute(root, World(s.scopes, s.out)))
  {
    WalkIsTraversal(ExecOps, slots, root, s);
    RootRefines(root, s);
  }

  lemma RootRefines(root: Tree, s: ExecState)
    requires root.Block? && IsStmt(root)
    requires |s.stack| + Height(root) <= s.capacity
    ensures StmtMatches(EnterAndTraverse(ExecOps, Some(root), Eval, s), s, Execute(root, World(s.scopes, s.out)))
  {
    ExecIsRegular();
    StatementRefines(root, s);
  }

  /** The only faults that a well-shaped program can run into. */
  predicate ProgramFault(f: Fault) {
    f in {UndefinedName, DivisionByZero, LiteralRange, NameRedefinition}
  }

  lemma {:induction false} EvaluateFaults(n: Tree, scopes: Scopes)
    requires IsExpr(n)
    ensures Evaluate(n, scopes).Err? ==> ProgramFault(Evaluate(n, scopes).error)
  {
    match n {
      case Expr(_, _, l, r) =>
        EvaluateFaults(l, scopes);
        EvaluateFaults(r, scopes);
      case UExpr(_, _, e) => EvaluateFaults(e, scopes);
      case IfExpr(_, c, t, e) =>
        EvaluateFaults(c, scopes);
        EvaluateFaults(t, scopes);
        EvaluateFaults(e.value, scopes);
      case _ =>
    }
  }

  lemma {:induction false} ExecuteFaults(n: Tree, w: World)
    requires IsStmt(n)
    requires n.Block? || w.scopes != []
    ensures Execute(n, w).Failed? ==> ProgramFault(Execute(n, w).fault)
    decreases n, 1
  {
    match n {
      case Echo(_, e) => EvaluateFaults(e, w.scopes);
      case Define(_, _, e) => EvaluateFaults(e, w.scopes);
      case Assign(_, _, e) => EvaluateFaults(e, w.scopes);
      case IfStmt(_, c, t, e) =>
        EvaluateFaults(c, w.scopes);
        ExecuteFaults(t, w);
        if e.Some? {
          ExecuteFaults(e.value, w);
        }
      case Block(_, ss) => ExecuteAllFaults(ss, w.(scopes := w.scopes + [map[]]));
    }
  }

  lemma {:induction false} ExecuteAllFaults(ss: seq<Tree>, w: World)
    requires AreStmts(ss) && w.scopes != []
    ensures ExecuteAll(ss, w).Failed? ==> ProgramFault(ExecuteAll(ss, w).fault)
    decreases ss, 0
  {
    if ss != [] {
      ExecuteFaults(ss[0], w);
      if Execute(ss[0], w).Finished? {
        ExecuteAllFaults(ss[1..], Execute(ss[0], w).world);
      }
    }
  }

  /**
   No run of a well-shaped program overflows or underflows a stack, meets an unknown operator or uses
   an address as a number: operand and task stacks of 2 * height + 1 slots always suffice.
   */
  lemma ProgramNeverMisusesStacks(root: Tree, slots: nat, s: ExecState)
    requires root.Block? && IsStmt(root)
    requires slots >= 2 * Height(root) - 1
    requires |s.stack| + Height(root) <= s.capacity
    ensures
      var r := WalkRoot(ExecOps, slots, root, s);
      if r.Go? then r.ctx.stack == s.stack && |r.ctx.scopes| == |s.scopes| else ProgramFault(r.fault)
  {
    ProgramRefines(root, slots, s);
    ExecuteFaults(root, World(s.scopes, s.out));
    NoMisuse(s, WalkRoot(ExecOps, slots, root, s), Execute(root, World(s.scopes, s.out)));
  }

  lemma NoMisuse(s: ExecState, r: Outcome<ExecState>, e: Ending)
    requires StmtMatches(r, s, e)
    requires e.Finished? ==> |e.world.scopes| == |s.scopes|
    requires e.Failed? ==> ProgramFault(e.fault)
    ensures if r.Go? then r.ctx.stack == s.stack && |r.ctx.scopes| == |s.scopes| else ProgramFault(r.fault)
  {
  }

  // ----- variables always hold 64-bit values -----

  predicate AllInRange(scopes: Scopes) {
    forall i, name :: 0 <= i < |scopes| && name in scopes[i] ==> InRange(scopes[i][name])
  }

  lemma {:induction false} ProductAtLeast(q: nat, y: nat, k: nat)
    requires k <= y
    ensures q * k <= q * y
    decreases y - k
  {
    if k < y {
      assert q * (k + 1) == q * k + q;
      ProductAtLeast(q, y, k + 1);
    }
  }

  lemma QuotientBound(x: nat, y: nat)
    requires y >= 1 && x <= TWO_TO_THE_63
    ensures 0 <= x / y <= x
    ensures y >= 2 ==> x / y < TWO_TO_THE_63
  {
    var q := x / y;
    ProductAtLeast(q, y, if y == 1 then 1 else 2);
  }

  lemma QuotientInRange(a: int, b: int)
    requires InRange(a) && InRange(b) && b != 0 && b != -1
    ensures InRange(TruncatedDiv(a, b))
  {
    QuotientBound(if a < 0 then -a else a, if b < 0 then -b else b);
  }

  lemma ArithmeticInRange(op: TokenKind, a: int, b: int)
    requires InRange(a) && InRange(b)
    ensures Arithmetic(op, a, b).Ok? ==> InRange(Arithmetic(op, a, b).value)
  {
    if op == TokSlash && b != 0 && b != -1 {
      QuotientInRange(a, b);
    }
  }

  lemma {:induction false} EvaluateInRange(n: Tree, scopes: Scopes)
    requires IsExpr(n) && AllInRange(scopes)
    ensures Evaluate(n, scopes).Ok? ==> InRange(Evaluate(n, scopes).value)
  {
    match n {
      case Expr(_, op, l, r) =>
        EvaluateInRange(l, scopes);
        EvaluateInRange(r, scopes);
        var a, b := Evaluate(l, scopes), Evaluate(r, scopes);
        if a.Ok? && b.Ok? {
          ArithmeticInRange(op, a.value, b.value);
        }
      case UExpr(_, _, e) => EvaluateInRange(e, scopes);
      case IfExpr(_, c, t, e) =>
        EvaluateInRange(t, scopes);
        EvaluateInRange(e.value, scopes);
      case _ =>
    }
  }

  lemma {:induction false} ExecuteInRange(n: Tree, w: World)
    requires IsStmt(n)
    requires n.Block? || w.scopes != []
    requires AllInRange(w.scopes) && (forall v :: v in w.out ==> InRange(v))
    ensures AllInRange(Execute(n, w).world.scopes)
    ensures forall v :: v in Execute(n, w).world.out ==> InRange(v)
    decreases n, 1
  {
    match n {
      case Echo(_, e) => EvaluateInRange(e, w.scopes);
      case Define(_, _, e) => EvaluateInRange(e, w.scopes);
      case Assign(_, _, e) => EvaluateInRange(e, w.scopes);
      case IfStmt(_, _, t, e) =>
        ExecuteInRange(t, w);
        if e.Some? {
          ExecuteInRange(e.value, w);
        }
      case Block(_, ss) => ExecuteAllInRange(ss, w.(scopes := w.scopes + [map[]]));
    }
  }

  lemma {:induction false} ExecuteAllInRange(ss: seq<Tree>, w: World)
    requires AreStmts(ss) && w.scopes != []
    requires AllInRange(w.scopes) && (forall v :: v in w.out ==> InRange(v))
    ensures AllInRange(ExecuteAll(ss, w).world.scopes)
    ensures forall v :: v in ExecuteAll(ss, w).world.out ==> InRange(v)
    decreases ss, 0
  {
    if ss != [] {
      ExecuteInRange(ss[0], w);
      if Execute(ss[0], w).Finished? {
        ExecuteAllInRange(ss[1..], Execute(ss[0], w).world);
      }
    }
  }

  /** The machine: an array of operand slots filled up to `sp`, and the scopes. */
  class ExecMachine {
    const stack: array<Slot>
    var sp: nat
    var scopes: Scopes
    var ifTaken: bool
    var printed: seq<int>

    ghost predicate Valid()
      reads this, stack
    {
      sp <= stack.Length
    }

    ghost function State(): ExecState
      reads this, stack
      requires Valid()
    {
      ExecState(stack[..sp], stack.Length, scopes, ifTaken, printed)
    }

    /** This machine's state is the one that `r` ended in, and `fault` is what `r` raised. */
    ghost predicate Reached(r: Outcome<ExecState>, fault: Option<Fault>)
      reads this, stack
      requires Valid()
    {
      State() == r.ctx && fault == if r.Stop? then Some(r.fault) else None
    }

    constructor (maxStackSize: nat)
      requires maxStackSize > 0
      ensures Valid() && fresh(stack)
      ensures State() == ExecState([], maxStackSize, [], false, [])
    {
      stack := new Slot[maxStackSize](_ => Num(0));
      sp, scopes, ifTaken, printed := 0, [], false, [];
    }

    method Push(x: Slot) returns (fault: Option<Fault>)
      requires Valid()
      modifies this`sp, stack
      ensures Valid()
      ensures Reached(PushSlot(old(State()), x), fault)
    {
      if sp >= stack.Length {
        return Some(StackOverflow);
      }
      stack[sp] := x;
      sp := sp + 1;
      assert stack[..sp] == old(stack[..sp]) + [x];
      return None;
    }

    method PopNumber() returns (v: int, fault: Option<Fault>)
      requires Valid()
      modifies this`sp
      ensures Valid()
      ensures Reached(PopNum(old(State())).0, fault)
      ensures fault.None? ==> v == PopNum(old(State())).1
    {
      if sp == 0 {
        return 0, Some(StackUnderflow);
      }
      match stack[sp - 1] {
        case Num(x) =>
          sp := sp - 1;
          return x, None;
        case Ref(_, _) =>
          return 0, Some(BadReference);
      }
    }

    method ScopePushNew()
      requires Valid()
      modifies this`scopes
      ensures Valid()
      ensures Reached(ExecOps(ScopePush, None, old(State())), None)
    {
      scopes := scopes + [map[]];
    }

    method ScopePop(n: Option<Tree>)
      requires Valid()
      modifies this`scopes
      ensures Valid()
      ensures Reached(ExecOps(Op.ScopePop, n, old(State())), None)
    {
      if scopes != [] {
        scopes := scopes[..|scopes| - 1];
      }
    }

    /** The search of scope_get_descriptor, innermost scope first. */
    method FindScope(name: string) returns (owner: Option<nat>)
      requires Valid()
      ensures owner == Owner(scopes, name)
    {
      var i := |scopes|;
      while i > 0
        invariant 0 <= i <= |scopes|
        invariant Owner(scopes[..i], name) == Owner(scopes, name)
      {
        i := i - 1;
        assert scopes[..i + 1][..i] == scopes[..i];
        if name in scopes[i] {
          return Some(i);
        }
      }
      return None;
    }

    method ApplyIdentifierRef(n: Tree) returns (fault: Option<Fault>)
      requires Valid() && n.Id?
      modifies this`sp, stack
      ensures Valid()
      ensures Reached(ExecOps(IdentifierRef, Some(n), old(State())), fault)
    {
      var o := FindScope(n.name);
      if o.None? {
        return Some(UndefinedName);
      }
      fault := Push(Ref(o.value, n.name));
    }

    method ApplyIdentifier(n: Tree) returns (fault: Option<Fault>)
      requires Valid() && n.Id?
      modifies this`sp, stack
      ensures Valid()
      ensures Reached(ExecOps(Identifier, Some(n), old(State())), fault)
    {
      var o := FindScope(n.name);
      if o.None? {
        return Some(UndefinedName);
      }
      fault := Push(Num(scopes[o.value][n.name]));
    }

    method ApplyExpr(n: Tree) returns (fault: Option<Fault>)
      requires Valid() && n.Expr?
      modifies this`sp, stack
      ensures Valid()
      ensures Reached(ExecOps(Binary, Some(n), old(State())), fault)
    {
      var b, f := PopNumber();
      if f.Some? {
        return f;
      }
      var a;
      a, f := PopNumber();
      if f.Some? {
        return f;
      }
      match Arithmetic(n.op, a, b) {
        case Ok(r) => fault := Push(Num(r));
        case Err(e) => fault := Some(e);
      }
    }

    method ApplyUExpr(n: Tree) returns (fault: Option<Fault>)
      requires Valid() && n.UExpr?
      modifies this`sp, stack
      ensures Valid()
      ensures Reached(ExecOps(Unary, Some(n), old(State())), fault)
    {
      var v, f := PopNumber();
      if f.Some? {
        return f;
      }
      if n.op != TokMinus {
        return Some(UnknownOperator);
      }
      fault := Push(Num(Wrap(-v)));
    }

    method ApplyIfCond(n: Option<Tree>) returns (fault: Option<Fault>)
      requires Valid()
      modifies this`sp, stack
      ensures Valid()
      ensures Reached(ExecOps(IfCond, n, old(State())), fault)
    {
      var c, f := PopNumber();
      if f.Some? {
        return f;
      }
      fault := Push(Num(if c != 0 then 1 else 0));
    }

    method ApplyIfThenDecision() returns (taken: bool, fault: Option<Fault>)
      requires Valid()
      modifies this`sp, this`ifTaken, stack
      ensures Valid()
      ensures Reached(ExecOps(DecideThen, None, old(State())), fault)
      ensures fault.None? ==> taken == ExecOps(DecideThen, None, old(State())).yes
    {
      ifTaken := false;
      var c, f := PopNumber();
      if f.Some? {
        return false, f;
      }
      if c == 0 {
        fault := Push(Num(c));
        return false, fault;
      }
      ifTaken := true;
      return true, None;
    }

    method ApplyIfElseDecision() returns (taken: bool, fault: Option<Fault>)
      requires Valid()
      modifies this`sp
      ensures Valid()
      ensures Reached(ExecOps(DecideElse, None, old(State())), fault)
      ensures fault.None? ==> taken == ExecOps(DecideElse, None, old(State())).yes
    {
      if ifTaken {
        return false, None;
      }
      var c, f := PopNumber();
      return c == 0, f;
    }

    method ApplyValueOf(n: Tree) returns (fault: Option<Fault>)
      requires Valid() && n.Value?
      modifies this`sp, stack
      ensures Valid()
      ensures Reached(ExecOps(ValueOf, Some(n), old(State())), fault)
    {
      match Literal(n.kind, n.text) {
        case Ok(v) => fault := Push(Num(v));
        case Err(e) => fault := Some(e);
      }
    }

    method Echo(n: Option<Tree>) returns (fault: Option<Fault>)
      requires Valid()
      modifies this`sp, this`printed
      ensures Valid()
      ensures Reached(ExecOps(ApplyEcho, n, old(State())), fault)
    {
      var v, f := PopNumber();
      if f.Some? {
        return f;
      }
      printed := printed + [v];
      return None;
    }

    method Define(n: Tree) returns (fault: Option<Fault>)
      requires Valid() && n.Define? && n.id.Id?
      modifies this`sp, this`scopes
      ensures Valid()
      ensures Reached(ExecOps(ApplyDefine, Some(n), old(State())), fault)
    {
      var v, f := PopNumber();
      if f.Some? {
        return f;
      }
      if scopes == [] {
        return Some(NoScope);
      }
      var top := |scopes| - 1;
      var redefined := n.id.name in scopes[top];
      scopes := scopes[top := scopes[top][n.id.name := v]];
      return if redefined then Some(NameRedefinition) else None;
    }

    method Assign(n: Tree) returns (fault: Option<Fault>)
      requires Valid() && n.Assign?
      modifies this`sp, this`scopes
      ensures Valid()
      ensures Reached(ExecOps(ApplyAssign, Some(n), old(State())), fault)
    {
      if sp == 0 {
        return Some(StackUnderflow);
      }
      if stack[sp - 1].Num? {
        return Some(BadReference);
      }
      var address := stack[sp - 1];
      sp := sp - 1;
      assert stack[..sp] == old(stack[..sp])[..sp];
      var v, f := PopNumber();
      if f.Some? {
        return f;
      }
      if address.depth >= |scopes| || address.name !in scopes[address.depth] {
        return Some(BadReference);
      }
      scopes := scopes[address.depth := scopes[address.depth][address.name := v]];
      return None;
    }

    /** The table that exec_new fills: the operations that are not listed do nothing. */
    method Apply(op: Op, node: Option<Tree>) returns (yes: bool, fault: Option<Fault>)
      requires Valid()
      modifies this, stack
      ensures Valid()
      ensures
        var r := ExecOps(op, node, old(State()));
        Reached(r, fault) && (r.Go? ==> yes == r.yes)
    {
      yes, fault := true, None;
      match op {
        case ScopePush => ScopePushNew();
        case ScopePop => ScopePop(node);
        case IfCond => fault := ApplyIfCond(node);
        case DecideThen => yes, fault := ApplyIfThenDecision();
        case DecideElse => yes, fault := ApplyIfElseDecision();
        case ApplyEcho => fault := Echo(node);
        case _ =>
          if node.Some? {
            fault := ApplyNode(op, node.value);
          }
      }
    }

    method ApplyNode(op: Op, n: Tree) returns (fault: Option<Fault>)
      requires Valid() && op !in {ScopePush, Op.ScopePop, IfCond, DecideThen, DecideElse, ApplyEcho}
      modifies this, stack
      ensures Valid()
      ensures
        var r := ExecOps(op, Some(n), old(State()));
        Reached(r, fault) && (r.Go? ==> r.yes)
    {
      fault := None;
      match op {
        case IdentifierRef => if n.Id? { fault := ApplyIdentifierRef(n); }
        case Identifier => if n.Id? { fault := ApplyIdentifier(n); }
        case Binary => if n.Expr? { fault := ApplyExpr(n); }
        case Unary => if n.UExpr? { fault := ApplyUExpr(n); }
        case ValueOf => if n.Value? { fault := ApplyValueOf(n); }
        case ApplyDefine => if n.Define? && n.id.Id? { fault := Define(n); }
        case ApplyAssign => if n.Assign? { fault := Assign(n); }
        case _ =>
      }
    }
  }
}
