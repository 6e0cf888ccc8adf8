/**
 The statement array of a block node (bootstrap/ast.c:126-172): grown by doubling, appended to, and
 prepended to by a shift in place or by copying one place further on.
 */
module BlockNode {
  import opened Basics
  import opened Ast

  class Block {
    var stmts: array<Option<Tree>>
    var len: nat
    var cap: nat
    var height: nat

    ghost predicate Valid()
      reads this, stmts
    {
      && cap == stmts.Length >= 2 && len <= cap
      && Full(stmts[..len])
      && height == 1 + ListHeight(Values(stmts[..len]))
    }

    ghost function Contents(): seq<Tree>
      reads this, stmts
      requires Valid()
    {
      Values(stmts[..len])
    }

    constructor ()
      ensures Valid() && Contents() == [] && fresh(stmts)
    {
      stmts := new Option<Tree>[2](_ => None);
      len, cap, height := 0, 2, 1;
    }

    /** Makes room for one more statement, at the front where asked. */
    method EnsureCapacity(expected: nat, shiftRight: bool)
      requires cap == stmts.Length >= 2 && expected == len + 1 <= cap + 1
      modifies this`stmts, this`cap, stmts
      ensures cap == stmts.Length >= 2 && len < cap && (stmts == old(stmts) || fresh(stmts))
      ensures old(stmts[..len]) == if shiftRight then stmts[1..len + 1] else stmts[..len]
    {
      if cap < expected {
        var newCap := cap * 2;
        var newStmts := new Option<Tree>[newCap](_ => None);
        var first := if shiftRight then 1 else 0;
        for i := 0 to len
          invariant newStmts[first..first + i] == stmts[..i]
          modifies newStmts
        {
          newStmts[first + i] := stmts[i];
          assert newStmts[first..first + i + 1] == newStmts[first..first + i] + [stmts[i]];
        }
        stmts := newStmts;
        cap := newCap;
      } else if shiftRight {
        ShiftRight();
      }
    }

    method ShiftRight()
      requires len < stmts.Length
      modifies stmts
      ensures stmts[1..len + 1] == old(stmts[..len])
    {
      var i := len;
      while 0 < i
        invariant 0 <= i <= len
        invariant forall k :: 0 <= k < i ==> stmts[k] == old(stmts[k])
        invariant forall k :: i <= k < len ==> stmts[k + 1] == old(stmts[k])
        modifies stmts
      {
        stmts[i] := stmts[i - 1];
        i := i - 1;
      }
      stmts[0] := None;
    }

    method Append(stmt: Tree)
      requires Valid()
      modifies this, stmts
      ensures Valid() && Contents() == old(Contents()) + [stmt] && (stmts == old(stmts) || fresh(stmts))
    {
      hide ListHeight, Height, Values;
      ghost var was := Contents();
      EnsureCapacity(len + 1, false);
      stmts[len] := Some(stmt);
      len := len + 1;
      height := Max(height, Height(stmt) + 1);
      HeightJoins(was, [stmt]);
      assert stmts[..len] == stmts[..len - 1] + [Some(stmt)];
      ValuesJoin(stmts[..len - 1], [Some(stmt)]);
    }

    method Prepend(stmt: Tree)
      requires Valid()
      modifies this, stmts
      ensures Valid() && Contents() == [stmt] + old(Contents()) && (stmts == old(stmts) || fresh(stmts))
    {
      hide ListHeight, Height, Values;
      ghost var was := Contents();
      EnsureCapacity(len + 1, true);
      stmts[0] := Some(stmt);
      len := len + 1;
      height := Max(height, Height(stmt) + 1);
      HeightJoins(was, [stmt]);
      HeightJoins([stmt], was);
      assert stmts[..len] == [Some(stmt)] + stmts[1..len];
      ValuesJoin([Some(stmt)], stmts[1..len]);
    }
  }

  /** The heights that the constructors cache do not depend on the order in which statements are added. */
  lemma {:induction false} HeightJoins(ss: seq<Tree>, ts: seq<Tree>)
    ensures ListHeight(ss + ts) == Max(ListHeight(ss), ListHeight(ts))
    ensures |ts| == 1 ==> ListHeight(ts) == Height(ts[0])
  {
    if ss == [] {
      assert ss + ts == ts;
    } else {
      assert (ss + ts)[1..] == ss[1..] + ts;
      HeightJoins(ss[1..], ts);
    }
    if |ts| == 1 {
      assert ListHeight(ts[1..]) == 0;
    }
  }

  lemma ValuesJoin<T>(s: seq<Option<T>>, t: seq<Option<T>>)
    requires Full(s) && Full(t)
    ensures Full(s + t) && Values(s + t) == Values(s) + Values(t)
    ensures |s| == 1 ==> Values(s) == [s[0].value]
    ensures |t| == 1 ==> Values(t) == [t[0].value]
  {
  }
}
