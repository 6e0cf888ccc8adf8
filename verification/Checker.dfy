/**
 The type checker (bootstrap/checker.c, bootstrap/typetab.c): an operation table that writes a type
 into every node and keeps a stack of type scopes.

 The module gives the typing rules of the language as a recursive function, proves that the walker
 with the checker's table accepts exactly what the rules accept, and proves that an accepted program
 cannot fail in the executor in any way but the three that the checker does not look for.
 */
module Checker {
  import opened Basics
  import opened Tokens
  import opened Ast
  import opened Walker
  import opened RegularTables
  import opened Exec

  datatype TypeId =
    | NoneType | UnknownType
    | IntType | UintType | FloatType | BoolType | CharType | ByteType | StringType | BytesType | VoidType

  // ----- the function table -----

  datatype FuncType = FuncType(params: seq<TypeId>, result: TypeId)

  const INT_INT_INT := FuncType([IntType, IntType], IntType)
  const INT_INT_BOOL := FuncType([IntType, IntType], BoolType)
  const INT_INT := FuncType([IntType], IntType)

  /** The overloads of an operator, in the order in which init_func_table creates them. */
  function Overloads(name: string): seq<FuncType> {
    if name == "operator+" || name == "operator*" || name == "operator/" then [INT_INT_INT]
    else if name == "operator-" then [INT_INT_INT, INT_INT]
    else if name == "operator<" || name == "operator>" then [INT_INT_BOOL]
    else []
  }

  /** The first overload with the given parameter types. */
  function FirstMatch(overloads: seq<FuncType>, params: seq<TypeId>): (r: Option<FuncType>)
    ensures r.Some? ==> r.value in overloads && r.value.params == params
    ensures r.None? ==> forall f :: f in overloads ==> f.params != params
  {
    if overloads == [] then None
    else if overloads[0].params == params then Some(overloads[0])
    else FirstMatch(overloads[1..], params)
  }

  /** The search of env_find_func_type_name_ret_n_params, where any return type will do. */
  method FindFuncType(overloads: seq<FuncType>, params: seq<TypeId>) returns (r: Option<FuncType>)
    ensures r == FirstMatch(overloads, params)
  {
    for i := 0 to |overloads|
      invariant FirstMatch(overloads, params) == FirstMatch(overloads[i..], params)
    {
      assert overloads[i..][1..] == overloads[i + 1..];
      var f := overloads[i];
      if |f.params| == |params| {
        var j := 0;
        while j < |params| && f.params[j] == params[j]
          invariant 0 <= j <= |params|
          invariant f.params[..j] == params[..j]
        {
          j := j + 1;
        }
        if j == |params| {
          assert f.params[..j] == f.params && params[..j] == params;
          return Some(f);
        }
      }
    }
    return None;
  }

  function BinaryName(op: TokenKind): Option<string> {
    match op
    case TokPlus => Some("operator+")
    case TokMinus => Some("operator-")
    case TokStar => Some("operator*")
    case TokSlash => Some("operator/")
    case TokEq => Some("operator==")
    case TokNe => Some("operator!=")
    case TokLt => Some("operator<")
    case TokGt => Some("operator>")
    case TokAnd => Some("operator&&")
    case TokOr => Some("operator||")
    case _ => None
  }

  function UnaryName(op: TokenKind): Option<string> {
    match op
    case TokMinus => Some("operator-")
    case TokBang => Some("operator!")
    case _ => None
  }

  // ----- scopes of types -----

  type TypeScopes = seq<map<string, TypeId>>

  /** The type of a name in the innermost scope that has one. */
  function ScopeGet(ts: TypeScopes, name: string): (t: TypeId)
    ensures t != NoneType
  {
    if ts == [] then UnknownType
    else
      var top := ts[|ts| - 1];
      if name in top && top[name] != NoneType then top[name] else ScopeGet(ts[..|ts| - 1], name)
  }

  function ScopePut(ts: TypeScopes, name: string, t: TypeId): (r: TypeScopes)
    ensures r != []
  {
    var ts' := if ts == [] then [map[]] else ts;
    var top := |ts'| - 1;
    ts'[top := ts'[top][name := t]]
  }

  // ----- the checker's operations -----

  /** `types` holds the `type` field of every node that has been written, by the node's address. */
  datatype CheckState = CheckState(scopes: TypeScopes, types: map<nat, TypeId>)

  function SetType(s: CheckState, at: nat, t: TypeId): Outcome<CheckState> {
    Go(s.(types := s.types[at := t]), true)
  }

  predicate IsPrimitive(t: TypeId) {
    t in {IntType, UintType, FloatType, BoolType, CharType, ByteType, VoidType}
  }

  /** Applies a named operator to arguments; both sides of every transfer must be primitive. */
  function ApplyOperator(s: CheckState, at: nat, name: Option<string>, args: seq<TypeId>): Outcome<CheckState> {
    if name.None? then Stop(s, TypeError)
    else
      var f := FirstMatch(Overloads(name.value), args);
      if f.None? then Stop(s, TypeError)
      else if exists i :: 0 <= i < |args| && !(IsPrimitive(args[i]) && IsPrimitive(f.value.params[i]))
      then Stop(s, TypeError)
      else SetType(s, at, f.value.result)
  }

  function CheckOps(op: Op, node: Option<Tree>, s: CheckState): Outcome<CheckState> {
    match op
    case ScopePush => Go(s.(scopes := s.scopes + [map[]]), true)
    case ScopePop => Go(if s.scopes == [] then s else s.(scopes := s.scopes[..|s.scopes| - 1]), true)
    case _ => if node.Some? then CheckNode(op, node.value, s) else Go(s, true)  // both decisions say yes
  }

  /** The operations that read their node; reading a type that nobody wrote is a `BadReference`. */
  function CheckNode(op: Op, n: Tree, s: CheckState): Outcome<CheckState> {
    if op == ValueOf && n.Value? then
      SetType(s, n.at,
              match n.kind
              case IntegerValue => IntType
              case BoolValue => BoolType
              case StringValue => StringType
              case FloatValue => FloatType
              case CharValue => CharType)
    else if (op == Identifier || op == IdentifierRef) && n.Id? then
      var t := ScopeGet(s.scopes, n.name);
      if t == UnknownType then Stop(s, TypeError) else SetType(s, n.at, t)
    else if op == Binary && n.Expr? then
      if n.op1.at !in s.types || n.op2.at !in s.types then Stop(s, BadReference)
      else ApplyOperator(s, n.at, BinaryName(n.op), [s.types[n.op1.at], s.types[n.op2.at]])
    else if op == Unary && n.UExpr? then
      if n.operand.at !in s.types then Stop(s, BadReference)
      else ApplyOperator(s, n.at, UnaryName(n.op), [s.types[n.operand.at]])
    else if op == IfCond && (n.IfStmt? || n.IfExpr?) then
      if n.cond.at !in s.types then Stop(s, BadReference)
      else if s.types[n.cond.at] != BoolType then Stop(s, TypeError)
      else Go(s, true)
    else if op == IfPost && n.IfStmt? then SetType(s, n.at, VoidType)
    else if op == IfExprPost && n.IfExpr? then
      if n.elseArm.None? then Stop(s, TypeError)
      else if n.thenArm.at !in s.types || n.elseArm.value.at !in s.types then Stop(s, BadReference)
      else if s.types[n.thenArm.at] != s.types[n.elseArm.value.at] then Stop(s, TypeError)
      else SetType(s, n.at, s.types[n.thenArm.at])
    else if op == ApplyDefine && n.Define? && n.id.Id? then
      if n.expr.at !in s.types then Stop(s, BadReference)
      else
        var t := s.types[n.expr.at];
        if t == UnknownType then Stop(s, TypeError)
        else Go(CheckState(ScopePut(s.scopes, n.id.name, t), s.types[n.id.at := t][n.at := NoneType]), true)
    else if op == ApplyAssign && n.Assign? then SetType(s, n.at, VoidType)
    else Go(s, true)
  }

  // ----- the typing rules -----

  function TypeOf(n: Tree, ts: TypeScopes): (r: Option<TypeId>)
    requires IsExpr(n)
    ensures r.Some? ==> r.value != NoneType && r.value != UnknownType
  {
    match n
    case Value(_, k, _) => Some(if k == IntegerValue then IntType else BoolType)
    case Id(_, name) =>
      var t := ScopeGet(ts, name);
      if t == UnknownType then None else Some(t)
    case Expr(_, _, l, r) =>
      if TypeOf(l, ts) == Some(IntType) && TypeOf(r, ts) == Some(IntType) then Some(IntType) else None
    case UExpr(_, _, e) => if TypeOf(e, ts) == Some(IntType) then Some(IntType) else None
    case IfExpr(_, c, t, e) =>
      if TypeOf(c, ts) == Some(BoolType) && TypeOf(t, ts) == TypeOf(e.value, ts) then TypeOf(t, ts) else None
  }

  /** The scopes after a well-typed statement. Both arms of an `if` are checked, one after the other. */
  function CheckStmt(n: Tree, ts: TypeScopes): (r: Option<TypeScopes>)
    requires IsStmt(n)
    requires n.Block? || ts != []
    ensures r.Some? ==> |r.value| == |ts|
    decreases n, 1
  {
    match n
    case Echo(_, e) => if TypeOf(e, ts).Some? then Some(ts) else None
    case Define(_, id, e) =>
      var t := TypeOf(e, ts);
      if t.Some? then Some(ScopePut(ts, id.name, t.value)) else None
    case Assign(_, l, e) =>
      if TypeOf(e, ts).Some? && ScopeGet(ts, l.name) != UnknownType then Some(ts) else None
    case IfStmt(_, c, t, e) =>
      if TypeOf(c, ts) != Some(BoolType) then None
      else
        var ts1 := CheckStmt(t, ts);
        if ts1.None? || e.None? then ts1 else CheckStmt(e.value, ts1.value)
    case Block(_, ss) =>
      var ts1 := CheckStmts(ss, ts + [map[]]);
      if ts1.Some? then Some(ts1.value[..|ts|]) else None
  }

  function CheckStmts(ss: seq<Tree>, ts: TypeScopes): (r: Option<TypeScopes>)
    requires AreStmts(ss) && ts != []
    ensures r.Some? ==> |r.value| == |ts|
    decreases ss, 0
  {
    if ss == [] then Some(ts)
    else
      var ts1 := CheckStmt(ss[0], ts);
      if ts1.Some? then CheckStmts(ss[1..], ts1.value) else None
  }

  // ----- the walker with the checker's table accepts what the rules accept -----

  lemma CheckIsRegular()
    ensures Regular(CheckOps, Same, Same)
  {
  }

  lemma CheckSingle(op: Op, n: Tree, e: Tree, s: CheckState)
    requires
      || (n.UExpr? && n.operand == e && op == Unary)
      || (n.Echo? && n.expr == e && op == ApplyEcho)
      || (n.Define? && n.expr == e && op == ApplyDefine)
    ensures Traverse(CheckOps, Some(n), Eval, s) == ThenOp(CheckOps, Same, Traverse(CheckOps, Some(e), Eval, s), op, n)
  {
    CheckIsRegular();
    TraverseSingle(CheckOps, Same, Same, op, n, e, s);
  }

  lemma CheckDouble(op: Op, n: Tree, first: Tree, second: Tree, mode: Mode, s: CheckState)
    requires
      || (n.Expr? && n.op1 == first && n.op2 == second && mode == Eval && op == Binary)
      || (n.Assign? && n.expr == first && n.lexpr == second && mode == Reference && op == ApplyAssign)
    ensures
      var r := Traverse(CheckOps, Some(first), Eval, s);
      Traverse(CheckOps, Some(n), Eval, s) ==
      if r.Stop? then r else ThenOp(CheckOps, Same, Traverse(CheckOps, Some(second), mode, r.ctx), op, n)
  {
    CheckIsRegular();
    TraverseDouble(CheckOps, Same, Same, op, n, first, second, mode, s);
  }

  lemma CheckLeaf(op: Op, n: Tree, mode: Mode, s: CheckState)
    requires
      || (n.Value? && mode == Eval && op == ValueOf)
      || (n.Id? && mode == Eval && op == Identifier)
      || (n.Id? && mode == Reference && op == IdentifierRef)
    ensures Traverse(CheckOps, Some(n), mode, s) == Settled(CheckOps(op, Some(n), s))
  {
    CheckIsRegular();
    TraverseLeaf(CheckOps, Same, Same, op, n, mode, s);
  }

  /** Both arms are traversed, the then-arm first. */
  function BothArms(n: Tree, r: Outcome<CheckState>): Outcome<CheckState>
    requires n.IfStmt? || n.IfExpr?
  {
    var s1 :- r;
    var s2 :- CheckOps(IfCond, Some(n), s1);
    var s3 :- Traverse(CheckOps, Some(n.thenArm), Eval, s2);
    Traverse(CheckOps, n.elseArm, Eval, s3)
  }

  lemma CheckIf(n: Tree, s: CheckState)
    requires n.IfStmt? || n.IfExpr?
    ensures
      Traverse(CheckOps, Some(n), Eval, s) ==
      ThenOp(CheckOps, Same, BothArms(n, Traverse(CheckOps, Some(n.cond), Eval, s)),
             if n.IfStmt? then IfPost else IfExprPost, n)
  {
    CheckIsRegular();
    TraverseIf(CheckOps, Same, Same, n, s);
  }

  lemma CheckBlock(n: Tree, s: CheckState)
    requires n.Block?
    ensures
      Traverse(CheckOps, Some(n), Eval, s) ==
      ThenOp(CheckOps, Same, Rest(CheckOps, n, n.stmts, s.(scopes := s.scopes + [map[]])), ScopePop, n)
  {
    CheckIsRegular();
    TraverseBlock(CheckOps, Same, Same, n, s);
  }

  lemma CheckRest(n: Tree, ss: seq<Tree>, s: CheckState)
    requires ss != []
    ensures
      var r := Traverse(CheckOps, Some(ss[0]), Eval, s);
      Rest(CheckOps, n, ss, s) == if r.Stop? then r else Rest(CheckOps, n, ss[1..], r.ctx)
  {
    CheckIsRegular();
    RestIsTraversals(CheckOps, Same, Same, n, ss, s);
  }

  lemma CheckNull(s: CheckState)
    ensures Traverse(CheckOps, None, Eval, s) == Go(s, true)
  {
    CheckIsRegular();
    TraverseNull(CheckOps, Same, Same, s);
  }

  /** The outcome `r` of checking expression `n` from `s` gives it type `t`, or faults when there is none. */
  ghost predicate ExprChecks(r: Outcome<CheckState>, n: Tree, s: CheckState, t: Option<TypeId>) {
    if t.None? then r.Stop? && r.fault == TypeError
    else
      && r.Go?
      && r.ctx.scopes == s.scopes
      && n.at in r.ctx.types && r.ctx.types[n.at] == t.value
      && forall a :: a in s.types && a !in Addresses(n) ==> a in r.ctx.types && r.ctx.types[a] == s.types[a]
  }

  lemma {:induction false} ExpressionChecks(n: Tree, s: CheckState)
    requires IsExpr(n) && Separate(n)
    ensures ExprChecks(Traverse(CheckOps, Some(n), Eval, s), n, s, TypeOf(n, s.scopes))
    decreases n, 1
  {
    var rn := Traverse(CheckOps, Some(n), Eval, s);
    match n {
      case Value(_, _, _) => CheckLeaf(ValueOf, n, Eval, s);
      case Id(_, _) => CheckLeaf(Identifier, n, Eval, s);
      case UExpr(_, _, e) =>
        ExpressionChecks(e, s);
        CheckSingle(Unary, n, e, s);
        UnaryChecks(n, s, Traverse(CheckOps, Some(e), Eval, s), rn);
      case Expr(_, _, l, r) =>
        ExpressionChecks(l, s);
        CheckDouble(Binary, n, l, r, Eval, s);
        var r1 := Traverse(CheckOps, Some(l), Eval, s);
        if r1.Go? {
          ExpressionChecks(r, r1.ctx);
          BinaryChecks(n, s, r1, Traverse(CheckOps, Some(r), Eval, r1.ctx), rn);
        }
      case IfExpr(_, _, _, _) => IfExpressionChecks(n, s);
    }
  }

  /** The condition of an `if` must be a bool, and then both arms are checked. */
  lemma CondChecks(n: Tree, s: CheckState, r: Outcome<CheckState>)
    requires (n.IfExpr? || n.IfStmt?) && IsExpr(n.cond)
    requires ExprChecks(r, n.cond, s, TypeOf(n.cond, s.scopes))
    ensures
      if TypeOf(n.cond, s.scopes) == Some(BoolType) then
        BothArms(n, r) ==
          var r2 := Traverse(CheckOps, Some(n.thenArm), Eval, r.ctx);
          if r2.Stop? then r2 else Traverse(CheckOps, n.elseArm, Eval, r2.ctx)
      else BothArms(n, r).Stop? && BothArms(n, r).fault == TypeError
  {
    if r.Go? && r.ctx.types[n.cond.at] == BoolType {
      assert CheckOps(IfCond, Some(n), r.ctx) == Go(r.ctx, true);
    }
  }

  lemma {:induction false} IfExpressionChecks(n: Tree, s: CheckState)
    requires IsExpr(n) && Separate(n) && n.IfExpr?
    ensures ExprChecks(Traverse(CheckOps, Some(n), Eval, s), n, s, TypeOf(n, s.scopes))
    decreases n, 0
  {
    CheckIf(n, s);
    ExpressionChecks(n.cond, s);
    var r1 := Traverse(CheckOps, Some(n.cond), Eval, s);
    CondChecks(n, s, r1);
    if TypeOf(n.cond, s.scopes) == Some(BoolType) {
      ExpressionChecks(n.thenArm, r1.ctx);
      var r2 := Traverse(CheckOps, Some(n.thenArm), Eval, r1.ctx);
      if r2.Go? {
        ExpressionChecks(n.elseArm.value, r2.ctx);
        var r3 := Traverse(CheckOps, n.elseArm, Eval, r2.ctx);
        IfExprChecks(n, s, r1, r2, r3, Traverse(CheckOps, Some(n), Eval, s));
      }
    }
  }

  lemma OnlyIntsHaveOperators(name: string, args: seq<TypeId>)
    requires name in {"operator+", "operator-", "operator*", "operator/"} && 1 <= |args| <= 2
    ensures
      var f := FirstMatch(Overloads(name), args);
      if |args| == 2 then f == if args == [IntType, IntType] then Some(INT_INT_INT) else None
      else f == if args == [IntType] && name == "operator-" then Some(INT_INT) else None
  {
    assert Overloads(name)[1..] == if name == "operator-" then [INT_INT] else [];
  }

  lemma UnaryChecks(n: Tree, s: CheckState, r: Outcome<CheckState>, rn: Outcome<CheckState>)
    requires IsExpr(n) && Separate(n) && n.UExpr?
    requires ExprChecks(r, n.operand, s, TypeOf(n.operand, s.scopes))
    requires rn == ThenOp(CheckOps, Same, r, Unary, n)
    ensures ExprChecks(rn, n, s, TypeOf(n, s.scopes))
  {
    if r.Go? {
      OnlyIntsHaveOperators("operator-", [r.ctx.types[n.operand.at]]);
    }
  }

  /** The operation on two typed operands. */
  lemma BinaryOnTypes(n: Tree, s: CheckState)
    requires IsExpr(n) && n.Expr? && n.op1.at in s.types && n.op2.at in s.types
    ensures
      CheckOps(Binary, Some(n), s) ==
      if s.types[n.op1.at] == IntType && s.types[n.op2.at] == IntType then SetType(s, n.at, IntType)
      else Stop(s, TypeError)
  {
    OnlyIntsHaveOperators(BinaryName(n.op).value, [s.types[n.op1.at], s.types[n.op2.at]]);
  }

  lemma BinaryChecks(n: Tree, s: CheckState, r1: Outcome<CheckState>, r2: Outcome<CheckState>, rn: Outcome<CheckState>)
    requires IsExpr(n) && Separate(n) && n.Expr?
    requires r1.Go? && ExprChecks(r1, n.op1, s, TypeOf(n.op1, s.scopes))
    requires ExprChecks(r2, n.op2, r1.ctx, TypeOf(n.op2, s.scopes))
    requires rn == ThenOp(CheckOps, Same, r2, Binary, n)
    ensures ExprChecks(rn, n, s, TypeOf(n, s.scopes))
  {
    if r2.Go? {
      assert n.op1.at in Addresses(n.op1);
      BinaryOnTypes(n, r2.ctx);
    }
  }

  lemma IfExprChecks(n: Tree, s: CheckState, r1: Outcome<CheckState>, r2: Outcome<CheckState>, r3: Outcome<CheckState>,
                     rn: Outcome<CheckState>)
    requires IsExpr(n) && Separate(n) && n.IfExpr?
    requires r1.Go? && ExprChecks(r1, n.cond, s, TypeOf(n.cond, s.scopes))
    requires TypeOf(n.cond, s.scopes) == Some(BoolType)
    requires r2.Go? && ExprChecks(r2, n.thenArm, r1.ctx, TypeOf(n.thenArm, s.scopes))
    requires ExprChecks(r3, n.elseArm.value, r2.ctx, TypeOf(n.elseArm.value, s.scopes))
    requires rn == ThenOp(CheckOps, Same, r3, IfExprPost, n)
    ensures ExprChecks(rn, n, s, TypeOf(n, s.scopes))
  {
    assert n.thenArm.at in Addresses(n.thenArm);
  }

  predicate StmtChecks(r: Outcome<CheckState>, ts: Option<TypeScopes>) {
    if ts.None? then r.Stop? && r.fault == TypeError else r.Go? && r.ctx.scopes == ts.value
  }

  lemma {:induction false} StatementChecks(n: Tree, s: CheckState)
    requires IsStmt(n) && Separate(n)
    requires n.Block? || s.scopes != []
    ensures StmtChecks(Traverse(CheckOps, Some(n), Eval, s), CheckStmt(n, s.scopes))
    decreases n, 1
  {
    var rn := Traverse(CheckOps, Some(n), Eval, s);
    match n {
      case Echo(_, e) =>
        ExpressionChecks(e, s);
        CheckSingle(ApplyEcho, n, e, s);
        SingleChecks(ApplyEcho, n, s, Traverse(CheckOps, Some(e), Eval, s), rn);
      case Define(_, _, e) =>
        ExpressionChecks(e, s);
        CheckSingle(ApplyDefine, n, e, s);
        SingleChecks(ApplyDefine, n, s, Traverse(CheckOps, Some(e), Eval, s), rn);
      case Assign(_, l, e) =>
        ExpressionChecks(e, s);
        CheckDouble(ApplyAssign, n, e, l, Reference, s);
        var r := Traverse(CheckOps, Some(e), Eval, s);
        if r.Go? {
          CheckLeaf(IdentifierRef, l, Reference, r.ctx);
          AssignChecks(n, s, r, Traverse(CheckOps, Some(l), Reference, r.ctx), rn);
        }
      case IfStmt(_, _, _, _) => IfStatementChecks(n, s);
      case Block(_, ss) =>
        var s1 := s.(scopes := s.scopes + [map[]]);
        CheckBlock(n, s);
        StatementsCheck(n, ss, s1);
        BlockChecks(n, s.scopes, Rest(CheckOps, n, ss, s1), rn);
    }
  }

  lemma SingleChecks(op: Op, n: Tree, s: CheckState, r: Outcome<CheckState>, rn: Outcome<CheckState>)
    requires IsStmt(n) && s.scopes != []
    requires (n.Echo? && op == ApplyEcho) || (n.Define? && op == ApplyDefine)
    requires ExprChecks(r, n.expr, s, TypeOf(n.expr, s.scopes))
    requires rn == ThenOp(CheckOps, Same, r, op, n)
    ensures StmtChecks(rn, CheckStmt(n, s.scopes))
  {
  }

  lemma AssignChecks(n: Tree, s: CheckState, r: Outcome<CheckState>, rl: Outcome<CheckState>, rn: Outcome<CheckState>)
    requires IsStmt(n) && n.Assign? && s.scopes != []
    requires r.Go? && ExprChecks(r, n.expr, s, TypeOf(n.expr, s.scopes))
    requires rl == Settled(CheckOps(IdentifierRef, Some(n.lexpr), r.ctx))
    requires rn == ThenOp(CheckOps, Same, rl, ApplyAssign, n)
    ensures StmtChecks(rn, CheckStmt(n, s.scopes))
  {
  }

  lemma {:induction false} IfStatementChecks(n: Tree, s: CheckState)
    requires IsStmt(n) && Separate(n) && n.IfStmt? && s.scopes != []
    ensures StmtChecks(Traverse(CheckOps, Some(n), Eval, s), CheckStmt(n, s.scopes))
    decreases n, 0
  {
    CheckIf(n, s);
    ExpressionChecks(n.cond, s);
    var r1 := Traverse(CheckOps, Some(n.cond), Eval, s);
    CondChecks(n, s, r1);
    if TypeOf(n.cond, s.scopes) == Some(BoolType) {
      StatementChecks(n.thenArm, r1.ctx);
      var r2 := Traverse(CheckOps, Some(n.thenArm), Eval, r1.ctx);
      if r2.Go? {
        if n.elseArm.Some? {
          StatementChecks(n.elseArm.value, r2.ctx);
        } else {
          CheckNull(r2.ctx);
        }
        var r3 := Traverse(CheckOps, n.elseArm, Eval, r2.ctx);
        IfStmtChecks(n, s.scopes, r1, r2, r3, Traverse(CheckOps, Some(n), Eval, s));
      }
    }
  }

  lemma IfStmtChecks(n: Tree, ts: TypeScopes, r1: Outcome<CheckState>, r2: Outcome<CheckState>, r3: Outcome<CheckState>,
                     rn: Outcome<CheckState>)
    requires IsStmt(n) && n.IfStmt? && ts != []
    requires TypeOf(n.cond, ts) == Some(BoolType)
    requires r2.Go? && StmtChecks(r2, CheckStmt(n.thenArm, ts))
    requires
      if n.elseArm.Some? then StmtChecks(r3, CheckStmt(n.elseArm.value, r2.ctx.scopes))
      else r3 == Go(r2.ctx, true)
    requires rn == ThenOp(CheckOps, Same, r3, IfPost, n)
    ensures StmtChecks(rn, CheckStmt(n, ts))
  {
  }

  lemma BlockChecks(n: Tree, ts: TypeScopes, r: Outcome<CheckState>, rn: Outcome<CheckState>)
    requires IsStmt(n) && n.Block?
    requires StmtChecks(r, CheckStmts(n.stmts, ts + [map[]]))
    requires rn == ThenOp(CheckOps, Same, r, ScopePop, n)
    ensures StmtChecks(rn, CheckStmt(n, ts))
  {
  }

  lemma {:induction false} StatementsCheck(n: Tree, ss: seq<Tree>, s: CheckState)
    requires AreStmts(ss) && ListSeparate(ss)
    requires s.scopes != []
    ensures StmtChecks(Rest(CheckOps, n, ss, s), CheckStmts(ss, s.scopes))
    decreases ss, 0
  {
    if ss != [] {
      CheckRest(n, ss, s);
      StatementChecks(ss[0], s);
      var r := Traverse(CheckOps, Some(ss[0]), Eval, s);
      if r.Go? {
        StatementsCheck(n, ss[1..], r.ctx);
      }
    }
  }

  /** The checker accepts a program exactly when the typing rules do; otherwise it reports a type error. */
  lemma ProgramChecks(root: Tree, slots: nat, s: CheckState)
    requires root.Block? && IsStmt(root) && Separate(root)
    requires slots >= 2 * Height(root) - 1
    ensures StmtChecks(WalkRoot(CheckOps, slots, root, s), CheckStmt(root, s.scopes))
  {
    hide Traverse, Drive;
    WalkIsTraversal(CheckOps, slots, root, s);
    StatementChecks(root, s);
  }
}
