/**
 The table of the open-addressed hash map (HASH_MAP.md): a cyclic row of slots in which every entry
 can be reached from the home of its key without crossing a free slot.

 This module is about rows of slots as values: what keeps them well placed, and why moving an entry
 back into a hole does. The map object is in the module HashMap.
 */
module ProbeTable {
  import opened Basics

  /** How keys compare and hash; `hash` and `==` are resolved per key type. */
  datatype KeyOps<!K> = KeyOps(eq: (K, K) -> bool, hash: K -> nat)

  /** Equality is an equivalence, and equal keys hash equal (the congruence contract). */
  ghost predicate Lawful<K(!new)>(ks: KeyOps<K>) {
    && (forall a :: ks.eq(a, a))
    && (forall a, b :: ks.eq(a, b) ==> ks.eq(b, a))
    && (forall a, b, c :: ks.eq(a, b) && ks.eq(b, c) ==> ks.eq(a, c))
    && (forall a, b :: ks.eq(a, b) ==> ks.hash(a) == ks.hash(b))
  }

  datatype Entry<K, V> = Entry(key: K, val: V)

  /** A slot is free or holds an entry. */
  type Slot<K, V> = Option<Entry<K, V>>

  type Row<K, V> = seq<Slot<K, V>>

  // ----- cyclic positions -----

  /** The forward distance from `a` to `b` in a cycle of `len` positions. */
  function Dist(a: nat, b: nat, len: nat): (d: nat)
    requires a < len && b < len
    ensures d < len
    ensures d == 0 <==> a == b
  {
    if b >= a then b - a else b + len - a
  }

  /** The position after `a`. */
  function Next(a: nat, len: nat): (r: nat)
    requires a < len
    ensures r < len
    ensures r == (a + 1) % len
  {
    if a + 1 == len then
      assert (a + 1) % len == 0;
      0
    else a + 1
  }

  function Home<K>(ks: KeyOps<K>, key: K, len: nat): (h: nat)
    requires len > 0
    ensures h < len
  {
    ks.hash(key) % len
  }

  // ----- well-placed rows -----

  /** The entry at `p`, if any, is reached from its home over live slots only. */
  ghost predicate Reachable<K, V>(ks: KeyOps<K>, s: Row<K, V>, p: nat)
    requires p < |s|
  {
    s[p].Some? ==>
      var h := Home(ks, s[p].value.key, |s|);
      forall q :: 0 <= q < |s| && Dist(h, q, |s|) < Dist(h, p, |s|) ==> s[q].Some?
  }

  ghost predicate Unique<K, V>(ks: KeyOps<K>, s: Row<K, V>) {
    forall i, j :: 0 <= i < |s| && 0 <= j < |s| && i != j && s[i].Some? && s[j].Some? ==>
      !ks.eq(s[i].value.key, s[j].value.key)
  }

  ghost predicate Placed<K, V>(ks: KeyOps<K>, s: Row<K, V>) {
    && Unique(ks, s)
    && forall p :: 0 <= p < |s| ==> Reachable(ks, s, p)
  }

  /** The number of live slots. */
  function Live<K, V>(s: Row<K, V>): (c: nat)
    ensures c <= |s|
  {
    if s == [] then 0 else Live(s[..|s| - 1]) + if s[|s| - 1].Some? then 1 else 0
  }

  lemma {:induction false} LiveUpdate<K, V>(s: Row<K, V>, i: nat, x: Slot<K, V>)
    requires i < |s|
    ensures Live(s[i := x]) == Live(s) - (if s[i].Some? then 1 else 0) + if x.Some? then 1 else 0
  {
    var last := |s| - 1;
    if i == last {
      assert s[i := x][..last] == s[..last];
    } else {
      assert s[i := x][..last] == s[..last][i := x];
      LiveUpdate(s[..last], i, x);
    }
  }

  lemma {:induction false} FreeSlotExists<K, V>(s: Row<K, V>) returns (f: nat)
    requires Live(s) < |s|
    ensures f < |s| && s[f].None?
  {
    if s[|s| - 1].None? {
      f := |s| - 1;
    } else {
      f := FreeSlotExists(s[..|s| - 1]);
    }
  }

  lemma {:induction false} AllFree<K, V>(s: Row<K, V>)
    requires forall i :: 0 <= i < |s| ==> s[i].None?
    ensures Live(s) == 0
  {
    if s != [] {
      AllFree(s[..|s| - 1]);
    }
  }

  /** Where the probe from the home of `key` meets a free slot at `pos`, no entry has that key. */
  lemma NoKeyBeyondFreeSlot<K(!new), V>(ks: KeyOps<K>, s: Row<K, V>, key: K, pos: nat)
    requires Lawful(ks) && Placed(ks, s) && pos < |s| && s[pos].None?
    requires
      var h := Home(ks, key, |s|);
      forall q :: 0 <= q < |s| && Dist(h, q, |s|) < Dist(h, pos, |s|) ==> s[q].Some? && !ks.eq(s[q].value.key, key)
    ensures forall p :: 0 <= p < |s| && s[p].Some? ==> !ks.eq(s[p].value.key, key)
  {
    forall p | 0 <= p < |s| && s[p].Some?
      ensures !ks.eq(s[p].value.key, key)
    {
      assert Reachable(ks, s, p);
    }
  }

  /** A new key goes into the first free slot from its home. */
  lemma InsertStaysPlaced<K(!new), V>(ks: KeyOps<K>, s: Row<K, V>, e: Entry<K, V>, pos: nat)
    requires Lawful(ks) && Placed(ks, s) && pos < |s| && s[pos].None?
    requires
      var h := Home(ks, e.key, |s|);
      forall q :: 0 <= q < |s| && Dist(h, q, |s|) < Dist(h, pos, |s|) ==> s[q].Some?
    requires forall p :: 0 <= p < |s| && s[p].Some? ==> !ks.eq(s[p].value.key, e.key)
    ensures Placed(ks, s[pos := Some(e)])
  {
    var s' := s[pos := Some(e)];
    forall p | 0 <= p < |s'|
      ensures Reachable(ks, s', p)
    {
      assert Reachable(ks, s, p);
    }
  }

  /** An entry is replaced by one with an equal key. */
  lemma ReplaceStaysPlaced<K(!new), V>(ks: KeyOps<K>, s: Row<K, V>, e: Entry<K, V>, pos: nat)
    requires Lawful(ks) && Placed(ks, s) && pos < |s| && s[pos].Some? && ks.eq(s[pos].value.key, e.key)
    ensures Placed(ks, s[pos := Some(e)])
  {
    var s' := s[pos := Some(e)];
    forall p | 0 <= p < |s'|
      ensures Reachable(ks, s', p)
    {
      assert Reachable(ks, s, p);
    }
  }

  // ----- backward-shift deletion -----

  /**
   The state of the shift: everything but `hole` is as in a well-placed row, and only entries that
   the scan has not met yet, at `r` or beyond, may have the hole on their way from home.
   */
  ghost predicate Shifting<K, V>(ks: KeyOps<K>, s: Row<K, V>, hole: nat, r: nat) {
    && hole < |s| && r < |s| && hole != r
    && s[hole].None?
    && Unique(ks, s)
    && (forall q :: 0 <= q < |s| && 0 < Dist(hole, q, |s|) < Dist(hole, r, |s|) ==> s[q].Some?)
    && forall p :: 0 <= p < |s| && s[p].Some? ==> ReachableButHole(ks, s, hole, r, p)
  }

  ghost predicate ReachableButHole<K, V>(ks: KeyOps<K>, s: Row<K, V>, hole: nat, r: nat, p: nat)
    requires hole < |s| && r < |s| && p < |s| && s[p].Some?
  {
    var n := |s|;
    var h := Home(ks, s[p].value.key, n);
    forall q :: 0 <= q < n && Dist(h, q, n) < Dist(h, p, n) ==>
      s[q].Some? || (q == hole && Dist(hole, p, n) >= Dist(hole, r, n))
  }

  lemma ShiftBegins<K, V>(ks: KeyOps<K>, s: Row<K, V>, pos: nat)
    requires Placed(ks, s) && pos < |s| && |s| > 1
    ensures Shifting(ks, s[pos := None], pos, Next(pos, |s|))
  {
    var s' := s[pos := None];
    var r := Next(pos, |s|);
    forall p | 0 <= p < |s'| && s'[p].Some?
      ensures ReachableButHole(ks, s', pos, r, p)
    {
      assert Reachable(ks, s, p);
    }
  }

  /** The home of the entry at `r` lies in (hole, r]: the entry stays and the scan goes on. */
  lemma ShiftSkips<K, V>(ks: KeyOps<K>, s: Row<K, V>, hole: nat, r: nat)
    requires Shifting(ks, s, hole, r) && s[r].Some? && Next(r, |s|) != hole
    requires
      var home := Home(ks, s[r].value.key, |s|);
      0 < Dist(hole, home, |s|) <= Dist(hole, r, |s|)
    ensures Shifting(ks, s, hole, Next(r, |s|))
  {
    var n := |s|;
    var r' := Next(r, n);
    assert Dist(hole, r', n) == Dist(hole, r, n) + 1;
    forall p | 0 <= p < n && s[p].Some?
      ensures ReachableButHole(ks, s, hole, r', p)
    {
      assert ReachableButHole(ks, s, hole, r, p);
      if Dist(hole, p, n) == Dist(hole, r, n) {
        assert p == r;
      }
    }
  }

  /** Otherwise the entry at `r` moves into the hole, and `r` is the new hole. */
  lemma ShiftMoves<K, V>(ks: KeyOps<K>, s: Row<K, V>, hole: nat, r: nat)
    requires Shifting(ks, s, hole, r) && s[r].Some? && Next(r, |s|) != hole
    requires
      var home := Home(ks, s[r].value.key, |s|);
      Dist(hole, home, |s|) == 0 || Dist(hole, home, |s|) > Dist(hole, r, |s|)
    ensures Shifting(ks, s[hole := s[r]][r := None], r, Next(r, |s|))
  {
    var n := |s|;
    var s' := s[hole := s[r]][r := None];
    var r' := Next(r, n);
    assert Dist(r, r', n) == 1;
    forall p | 0 <= p < n && s'[p].Some?
      ensures ReachableButHole(ks, s', r, r', p)
    {
      if p == hole {
        MovedIsReachable(ks, s, hole, r);
      } else {
        OtherIsReachable(ks, s, hole, r, p);
      }
    }
  }

  lemma MovedIsReachable<K, V>(ks: KeyOps<K>, s: Row<K, V>, hole: nat, r: nat)
    requires Shifting(ks, s, hole, r) && s[r].Some?
    requires
      var home := Home(ks, s[r].value.key, |s|);
      Dist(hole, home, |s|) == 0 || Dist(hole, home, |s|) > Dist(hole, r, |s|)
    ensures ReachableButHole(ks, s[hole := s[r]][r := None], r, Next(r, |s|), hole)
  {
    assert ReachableButHole(ks, s, hole, r, r);
  }

  lemma OtherIsReachable<K, V>(ks: KeyOps<K>, s: Row<K, V>, hole: nat, r: nat, p: nat)
    requires Shifting(ks, s, hole, r) && s[r].Some? && p < |s| && s[p].Some? && p != r && p != hole
    ensures ReachableButHole(ks, s[hole := s[r]][r := None], r, Next(r, |s|), p)
  {
    assert ReachableButHole(ks, s, hole, r, p);
  }

  /** A free slot ends the cluster: nothing beyond it can have the hole on its way. */
  lemma ShiftEnds<K, V>(ks: KeyOps<K>, s: Row<K, V>, hole: nat, r: nat)
    requires Shifting(ks, s, hole, r) && s[r].None?
    ensures Placed(ks, s)
  {
    var n := |s|;
    forall p | 0 <= p < n
      ensures Reachable(ks, s, p)
    {
      if s[p].Some? {
        assert ReachableButHole(ks, s, hole, r, p);
      }
    }
  }
}
