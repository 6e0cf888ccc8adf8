/**
 The checker as a machine (bootstrap/checker.c): it pushes and pops type scopes and writes a type into
 the nodes it visits. Every operation is proved to be the entry of the checker's table. To read a
 type that no operation has written is a `BadReference`.
 */
module CheckerMachine {
  import opened Basics
  import opened Tokens
  import opened Ast
  import opened Walker
  import opened Checker

  class TypeChecker {
    var scopes: TypeScopes
    var types: map<nat, TypeId>

    ghost function State(): CheckState
      reads this
    {
      CheckState(scopes, types)
    }

    /** This machine's state is the one that `r` ended in, and `fault` is what `r` raised. */
    ghost predicate Reached(r: Outcome<CheckState>, fault: Option<Fault>)
      reads this
    {
      State() == r.ctx && fault == if r.Stop? then Some(r.fault) else None
    }

    constructor ()
      ensures State() == CheckState([], map[])
    {
      scopes, types := [], map[];
    }

    method ScopePush()
      modifies this`scopes
      ensures Reached(CheckOps(Op.ScopePush, None, old(State())), None)
    {
      scopes := scopes + [map[]];
    }

    method ScopePop()
      modifies this`scopes
      ensures Reached(CheckOps(Op.ScopePop, None, old(State())), None)
    {
      if |scopes| == 0 {
        return;
      }
      scopes := scopes[..|scopes| - 1];
    }

    /** Names go to the innermost scope; where there is none, one is opened. */
    method Put(name: string, t: TypeId)
      modifies this`scopes
      ensures scopes == ScopePut(old(scopes), name, t)
    {
      if |scopes| == 0 {
        ScopePush();
      }
      var top := |scopes| - 1;
      scopes := scopes[top := scopes[top][name := t]];
    }

    /** The search from the innermost scope outwards; the globals are never written. */
    method Get(name: string) returns (t: TypeId)
      ensures t == ScopeGet(scopes, name)
    {
      var i := |scopes| - 1;
      assert scopes[..i + 1] == scopes;
      while i >= 0
        invariant -1 <= i < |scopes|
        invariant ScopeGet(scopes, name) == ScopeGet(scopes[..i + 1], name)
      {
        if name in scopes[i] && scopes[i][name] != NoneType {
          return scopes[i][name];
        }
        assert scopes[..i + 1][..i] == scopes[..i];
        i := i - 1;
      }
      return UnknownType;
    }

    /** Both sides of a transfer must be primitive. */
    static method CheckOwnershipTransfer(source: TypeId, target: TypeId) returns (fault: Option<Fault>)
      ensures fault == if IsPrimitive(source) && IsPrimitive(target) then None else Some(TypeError)
    {
      if !IsPrimitive(source) {
        return Some(TypeError);
      }
      if !IsPrimitive(target) {
        return Some(TypeError);
      }
      return None;
    }

    method ValueOf(n: Tree) returns (fault: Option<Fault>)
      modifies this`types
      ensures Reached(CheckOps(Op.ValueOf, Some(n), old(State())), fault)
    {
      if n.Value? {
        var t := match n.kind
          case IntegerValue => IntType
          case BoolValue => BoolType
          case StringValue => StringType
          case FloatValue => FloatType
          case CharValue => CharType;
        types := types[n.at := t];
      }
      return None;
    }

    /** Both modes of an identifier do the same. */
    method ApplyIdentifier(op: Op, n: Tree) returns (fault: Option<Fault>)
      requires n.Id? && (op == Identifier || op == IdentifierRef)
      modifies this`types
      ensures Reached(CheckOps(op, Some(n), old(State())), fault)
    {
      var t := Get(n.name);
      if t == UnknownType {
        return Some(TypeError);
      }
      types := types[n.at := t];
      return None;
    }

    method ApplyExpr(n: Tree) returns (fault: Option<Fault>)
      requires n.Expr?
      modifies this`types
      ensures Reached(CheckOps(Binary, Some(n), old(State())), fault)
    {
      if n.op1.at !in types || n.op2.at !in types {
        return Some(BadReference);
      }
      var name := BinaryName(n.op);
      if name.None? {
        return Some(TypeError);
      }
      var from1, from2 := types[n.op1.at], types[n.op2.at];
      var f := FindFuncType(Overloads(name.value), [from1, from2]);
      if f.None? {
        return Some(TypeError);
      }
      ghost var args := [from1, from2];
      assert args[0] == f.value.params[0] && args[1] == f.value.params[1];
      fault := CheckOwnershipTransfer(from1, f.value.params[0]);
      if fault.Some? {
        return;
      }
      fault := CheckOwnershipTransfer(from2, f.value.params[1]);
      if fault.Some? {
        return;
      }
      types := types[n.at := f.value.result];
    }

    method ApplyUExpr(n: Tree) returns (fault: Option<Fault>)
      requires n.UExpr?
      modifies this`types
      ensures Reached(CheckOps(Unary, Some(n), old(State())), fault)
    {
      if n.operand.at !in types {
        return Some(BadReference);
      }
      var name := UnaryName(n.op);
      if name.None? {
        return Some(TypeError);
      }
      var argument := types[n.operand.at];
      var f := FindFuncType(Overloads(name.value), [argument]);
      if f.None? {
        return Some(TypeError);
      }
      ghost var args := [argument];
      assert args[0] == f.value.params[0];
      fault := CheckOwnershipTransfer(argument, f.value.params[0]);
      if fault.Some? {
        return;
      }
      types := types[n.at := f.value.result];
    }

    method ApplyIfCond(n: Tree) returns (fault: Option<Fault>)
      requires n.IfStmt? || n.IfExpr?
      ensures Reached(CheckOps(IfCond, Some(n), State()), fault)
    {
      if n.cond.at !in types {
        return Some(BadReference);
      }
      return if types[n.cond.at] != BoolType then Some(TypeError) else None;
    }

    method ApplyIfPost(n: Tree)
      requires n.IfStmt?
      modifies this`types
      ensures Reached(CheckOps(IfPost, Some(n), old(State())), None)
    {
      types := types[n.at := VoidType];
    }

    method ApplyIfExprPost(n: Tree) returns (fault: Option<Fault>)
      requires n.IfExpr?
      modifies this`types
      ensures Reached(CheckOps(IfExprPost, Some(n), old(State())), fault)
    {
      if n.elseArm.None? {
        return Some(TypeError);
      }
      if n.thenArm.at !in types || n.elseArm.value.at !in types {
        return Some(BadReference);
      }
      if types[n.thenArm.at] != types[n.elseArm.value.at] {
        return Some(TypeError);
      }
      types := types[n.at := types[n.thenArm.at]];
      return None;
    }

    method Define(n: Tree) returns (fault: Option<Fault>)
      requires n.Define? && n.id.Id?
      modifies this
      ensures Reached(CheckOps(ApplyDefine, Some(n), old(State())), fault)
    {
      if n.expr.at !in types {
        return Some(BadReference);
      }
      var t := types[n.expr.at];
      if t == UnknownType {
        return Some(TypeError);
      }
      Put(n.id.name, t);
      types := types[n.id.at := t];
      types := types[n.at := NoneType];
      return None;
    }

    method Assign(n: Tree)
      requires n.Assign?
      modifies this`types
      ensures Reached(CheckOps(ApplyAssign, Some(n), old(State())), None)
    {
      types := types[n.at := VoidType];
    }

    /** The table that checker_new fills: the operations that are not listed do nothing, both decisions say yes. */
    method Apply(op: Op, node: Option<Tree>) returns (yes: bool, fault: Option<Fault>)
      modifies this
      ensures
        var r := CheckOps(op, node, old(State()));
        Reached(r, fault) && (r.Go? ==> yes == r.yes)
    {
      yes, fault := true, None;
      match op {
        case ScopePush => ScopePush();
        case ScopePop => ScopePop();
        case _ =>
          if node.Some? {
            fault := ApplyNode(op, node.value);
          }
      }
    }

    method ApplyNode(op: Op, n: Tree) returns (fault: Option<Fault>)
      requires op != Op.ScopePush && op != Op.ScopePop
      modifies this
      ensures
        var r := CheckOps(op, Some(n), old(State()));
        Reached(r, fault) && (r.Go? ==> r.yes)
    {
      hide ScopeGet, ScopePut, FirstMatch, Overloads;
      fault := None;
      match op {
        case ValueOf => fault := ValueOf(n);
        case Identifier => if n.Id? { fault := ApplyIdentifier(op, n); }
        case IdentifierRef => if n.Id? { fault := ApplyIdentifier(op, n); }
        case Binary => if n.Expr? { fault := ApplyExpr(n); }
        case Unary => if n.UExpr? { fault := ApplyUExpr(n); }
        case IfCond => if n.IfStmt? || n.IfExpr? { fault := ApplyIfCond(n); }
        case IfPost => if n.IfStmt? { ApplyIfPost(n); }
        case IfExprPost => if n.IfExpr? { fault := ApplyIfExprPost(n); }
        case ApplyDefine => if n.Define? && n.id.Id? { fault := Define(n); }
        case ApplyAssign => if n.Assign? { Assign(n); }
        case _ =>
      }
    }
  }
}
