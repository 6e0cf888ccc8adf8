/**
 The deallocator as a machine (bootstrap/ast-free.c): its operations release blocks of memory, in the
 order that the log keeps. Each is proved to be the entry of the deallocator's table, so that the order
 of every walk is the one that module Free proves things about.
 */
module FreeMachine {
  import opened Basics
  import opened Ast
  import opened Walker
  import opened Free

  class AstFree {
    var released: Released

    /** The log is the one that `r` ended in, and `fault` is what `r` raised. */
    ghost predicate Reached(r: Outcome<Released>, fault: Option<Fault>)
      reads this
    {
      released == r.ctx && fault == if r.Stop? then Some(r.fault) else None
    }

    constructor ()
      ensures released == []
    {
      released := [];
    }

    /** free(): a block that was released before is a fault. */
    method FreeBlock(m: Memory) returns (fault: Option<Fault>)
      modifies this
      ensures Reached(Release(old(released), m), fault)
    {
      if m in released {
        return Some(DoubleFree);
      }
      released := released + [m];
      return None;
    }

    method FreeTheBlock(n: Option<Tree>) returns (fault: Option<Fault>)
      requires n.Some? ==> n.value.Block?
      modifies this
      ensures Reached(FreeOps(ScopePop, n, old(released)), fault)
    {
      if n.Some? {
        fault := FreeBlock(ArrayOf(n.value.at));
      } else {
        fault := None;
      }
    }

    /** A definition's identifier is not walked: its text and its node go here. */
    method FreeTheDefine(n: Tree) returns (fault: Option<Fault>)
      requires n.Define?
      modifies this
      ensures Reached(FreeOps(ApplyDefine, Some(n), old(released)), fault)
    {
      if NodeOf(n.id.at) in released {
        return Some(UseAfterFree);
      }
      fault := FreeBlock(TextOf(n.id.at));
      if fault.None? {
        fault := FreeBlock(NodeOf(n.id.at));
      }
    }

    method FreeTheIdentifier(op: Op, n: Tree) returns (fault: Option<Fault>)
      requires n.Id? && (op == Identifier || op == IdentifierRef)
      modifies this
      ensures Reached(FreeOps(op, Some(n), old(released)), fault)
    {
      fault := FreeBlock(TextOf(n.at));
    }

    method FreeTheValue(n: Tree) returns (fault: Option<Fault>)
      requires n.Value?
      modifies this
      ensures Reached(FreeOps(ValueOf, Some(n), old(released)), fault)
    {
      fault := FreeBlock(TextOf(n.at));
    }

    method FreeTheNode(n: Option<Tree>) returns (fault: Option<Fault>)
      modifies this
      ensures Reached(FreeOps(Leave, n, old(released)), fault)
    {
      if n.Some? {
        fault := FreeBlock(NodeOf(n.value.at));
      } else {
        fault := None;
      }
    }

    /** The walker reads a node before it looks at its kind: a released one must not be read. */
    method ReadTheNode(n: Option<Tree>) returns (fault: Option<Fault>)
      ensures Reached(FreeOps(Load, n, released), fault)
    {
      return if n.Some? && NodeOf(n.value.at) in released then Some(UseAfterFree) else None;
    }

    /** The table that astfree_new fills: the operations that are not listed do nothing, both decisions say yes. */
    method Apply(op: Op, node: Option<Tree>) returns (yes: bool, fault: Option<Fault>)
      modifies this
      ensures
        var r := FreeOps(op, node, old(released));
        Reached(r, fault) && (r.Go? ==> yes == r.yes)
    {
      yes, fault := true, None;
      match op {
        case Load => fault := ReadTheNode(node);
        case Leave => fault := FreeTheNode(node);
        case ScopePop => if node.Some? && node.value.Block? { fault := FreeTheBlock(node); }
        case ValueOf => if node.Some? && node.value.Value? { fault := FreeTheValue(node.value); }
        case Identifier => if node.Some? && node.value.Id? { fault := FreeTheIdentifier(op, node.value); }
        case IdentifierRef => if node.Some? && node.value.Id? { fault := FreeTheIdentifier(op, node.value); }
        case ApplyDefine => if node.Some? && node.value.Define? { fault := FreeTheDefine(node.value); }
        case _ =>
      }
    }
  }
}
