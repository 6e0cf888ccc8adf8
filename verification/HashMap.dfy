/**
 The open-addressed hash map (HASH_MAP.md) against a finite map whose keys are compared by the key
 type's own equality.
 */
module HashMap {
  import opened Basics
  import opened ProbeTable

  // ----- finite maps up to key equality -----

  ghost predicate KeysApart<K, V>(ks: KeyOps<K>, m: map<K, V>) {
    forall a, b :: a in m && b in m && a != b ==> !ks.eq(a, b)
  }

  ghost function Without<K, V>(ks: KeyOps<K>, m: map<K, V>, key: K): map<K, V> {
    map k | k in m && !ks.eq(k, key) :: m[k]
  }

  ghost function With<K, V>(ks: KeyOps<K>, m: map<K, V>, key: K, val: V): map<K, V> {
    Without(ks, m, key)[key := val]
  }

  ghost predicate HasKey<K, V>(ks: KeyOps<K>, m: map<K, V>, key: K) {
    exists k :: k in m && ks.eq(k, key)
  }

  ghost function Lookup<K, V>(ks: KeyOps<K>, m: map<K, V>, key: K): Option<V> {
    if HasKey(ks, m, key) then
      var k :| k in m && ks.eq(k, key);
      Some(m[k])
    else None
  }

  lemma LookupIs<K(!new), V>(ks: KeyOps<K>, m: map<K, V>, key: K, k: K)
    requires Lawful(ks) && KeysApart(ks, m) && k in m && ks.eq(k, key)
    ensures Lookup(ks, m, key) == Some(m[k])
  {
    var k' :| k' in m && ks.eq(k', key) && Lookup(ks, m, key) == Some(m[k']);
    assert ks.eq(key, k) && ks.eq(k', k);
  }

  /** What a put changes for later lookups: the given key's value, for every equal key, and nothing else. */
  lemma LookupAfterWith<K(!new), V>(ks: KeyOps<K>, m: map<K, V>, key: K, val: V, other: K)
    requires Lawful(ks) && KeysApart(ks, m)
    ensures KeysApart(ks, With(ks, m, key, val))
    ensures Lookup(ks, With(ks, m, key, val), other) == if ks.eq(key, other) then Some(val) else Lookup(ks, m, other)
  {
    var m' := With(ks, m, key, val);
    forall a, b | a in m' && b in m' && a != b
      ensures !ks.eq(a, b)
    {
      assert b == key ==> !ks.eq(a, key);
      assert a == key ==> !ks.eq(b, key);
    }
    if ks.eq(key, other) {
      LookupIs(ks, m', other, key);
    } else if HasKey(ks, m, other) {
      var k :| k in m && ks.eq(k, other);
      assert ks.eq(k, key) ==> ks.eq(key, k);
      LookupIs(ks, m, other, k);
      LookupIs(ks, m', other, k);
    }
  }

  /** What a remove changes for later lookups. */
  lemma LookupAfterWithout<K(!new), V>(ks: KeyOps<K>, m: map<K, V>, key: K, other: K)
    requires Lawful(ks) && KeysApart(ks, m)
    ensures KeysApart(ks, Without(ks, m, key))
    ensures Lookup(ks, Without(ks, m, key), other) == if ks.eq(key, other) then None else Lookup(ks, m, other)
  {
    var m' := Without(ks, m, key);
    if ks.eq(key, other) {
      assert ks.eq(other, key);
    } else if HasKey(ks, m, other) {
      var k :| k in m && ks.eq(k, other);
      assert ks.eq(k, key) ==> ks.eq(key, k);
      LookupIs(ks, m, other, k);
      LookupIs(ks, m', other, k);
    }
  }

  // ----- the row of slots represents the map -----

  ghost predicate Represents<K, V>(s: Row<K, V>, m: map<K, V>) {
    && (forall i :: 0 <= i < |s| && s[i].Some? ==> s[i].value.key in m && m[s[i].value.key] == s[i].value.val)
    && (forall k :: k in m ==> exists i :: 0 <= i < |s| && s[i] == Some(Entry(k, m[k])))
  }

  lemma RepresentsPrefix<K(!new), V>(ks: KeyOps<K>, s: Row<K, V>, m: map<K, V>)
    requires Lawful(ks) && Unique(ks, s) && Represents(s, m) && s != []
    ensures
      var last := s[|s| - 1];
      Represents(s[..|s| - 1], if last.None? then m else map k | k in m && k != last.value.key :: m[k])
  {
    var s', last := s[..|s| - 1], s[|s| - 1];
    var m' := if last.None? then m else map k | k in m && k != last.value.key :: m[k];
    forall k | k in m'
      ensures exists i :: 0 <= i < |s'| && s'[i] == Some(Entry(k, m'[k]))
    {
      var i :| 0 <= i < |s| && s[i] == Some(Entry(k, m[k]));
      assert s'[i] == s[i];
    }
    forall i | 0 <= i < |s'| && s'[i].Some?
      ensures s'[i].value.key in m'
    {
      assert s[i] == s'[i];
      assert ks.eq(s[i].value.key, s[i].value.key);
    }
  }

  /** The live slots are the keys: `count` is the size of the map. */
  lemma {:induction false} LiveIsSize<K(!new), V>(ks: KeyOps<K>, s: Row<K, V>, m: map<K, V>)
    requires Lawful(ks) && Unique(ks, s) && Represents(s, m)
    ensures Live(s) == |m|
  {
    if s == [] {
      assert m.Keys == {};
    } else {
      var last := s[|s| - 1];
      RepresentsPrefix(ks, s, m);
      if last.None? {
        LiveIsSize(ks, s[..|s| - 1], m);
      } else {
        var m' := map k | k in m && k != last.value.key :: m[k];
        LiveIsSize(ks, s[..|s| - 1], m');
        assert m.Keys == m'.Keys + {last.value.key};
      }
    }
  }

  lemma RepresentsApart<K(!new), V>(ks: KeyOps<K>, s: Row<K, V>, m: map<K, V>)
    requires Lawful(ks) && Unique(ks, s) && Represents(s, m)
    ensures KeysApart(ks, m)
  {
    forall a, b | a in m && b in m && a != b
      ensures !ks.eq(a, b)
    {
      var i :| 0 <= i < |s| && s[i] == Some(Entry(a, m[a]));
      var j :| 0 <= j < |s| && s[j] == Some(Entry(b, m[b]));
      assert i != j;
    }
  }

  lemma RepresentsWith<K(!new), V>(ks: KeyOps<K>, s: Row<K, V>, m: map<K, V>, e: Entry<K, V>, pos: nat)
    requires Lawful(ks) && Unique(ks, s) && Represents(s, m) && pos < |s|
    requires
      if s[pos].Some? then ks.eq(s[pos].value.key, e.key)
      else forall p :: 0 <= p < |s| && s[p].Some? ==> !ks.eq(s[p].value.key, e.key)
    ensures Represents(s[pos := Some(e)], With(ks, m, e.key, e.val))
  {
    var s', m' := s[pos := Some(e)], With(ks, m, e.key, e.val);
    forall i | 0 <= i < |s'| && s'[i].Some?
      ensures s'[i].value.key in m' && m'[s'[i].value.key] == s'[i].value.val
    {
      if i != pos {
        var k := s[i].value.key;
        assert s[pos].Some? ==> ks.eq(e.key, s[pos].value.key);
        assert ks.eq(e.key, e.key);
      }
    }
    forall k | k in m'
      ensures exists i :: 0 <= i < |s'| && s'[i] == Some(Entry(k, m'[k]))
    {
      if k == e.key {
        assert s'[pos] == Some(Entry(k, m'[k]));
      } else {
        var i :| 0 <= i < |s| && s[i] == Some(Entry(k, m[k]));
        assert s'[i] == s[i];
      }
    }
  }

  lemma RepresentsWithout<K(!new), V>(ks: KeyOps<K>, s: Row<K, V>, m: map<K, V>, key: K, pos: nat)
    requires Lawful(ks) && Unique(ks, s) && Represents(s, m) && pos < |s|
    requires s[pos].Some? && ks.eq(s[pos].value.key, key)
    ensures Represents(s[pos := None], Without(ks, m, key))
  {
    var s', m' := s[pos := None], Without(ks, m, key);
    forall i | 0 <= i < |s'| && s'[i].Some?
      ensures s'[i].value.key in m' && m'[s'[i].value.key] == s'[i].value.val
    {
      var k := s[i].value.key;
      assert ks.eq(key, s[pos].value.key);
    }
    forall k | k in m'
      ensures exists i :: 0 <= i < |s'| && s'[i] == Some(Entry(k, m'[k]))
    {
      var i :| 0 <= i < |s| && s[i] == Some(Entry(k, m[k]));
      assert s'[i] == s[i];
    }
  }

  lemma RepresentsMoved<K, V>(s: Row<K, V>, m: map<K, V>, from: nat, to: nat)
    requires Represents(s, m) && from < |s| && to < |s| && from != to && s[to].None?
    ensures Represents(s[to := s[from]][from := None], m)
  {
    var s' := s[to := s[from]][from := None];
    forall k | k in m
      ensures exists i :: 0 <= i < |s'| && s'[i] == Some(Entry(k, m[k]))
    {
      var i :| 0 <= i < |s| && s[i] == Some(Entry(k, m[k]));
      assert s'[if i == from then to else i] == s[i];
    }
  }

  /** 16 doubled any number of times. */
  predicate IsCapacity(n: nat) {
    n == 16 || (n > 16 && n % 2 == 0 && IsCapacity(n / 2))
  }

  lemma {:induction false} CapacityIsMultipleOf16(n: nat)
    requires IsCapacity(n)
    ensures n >= 16 && n % 16 == 0
  {
    if n != 16 {
      CapacityIsMultipleOf16(n / 2);
    }
  }

  datatype ProbeResult = ProbeResult(pos: nat, found: bool)

  datatype TableFull = TableFull

  /** The first free slot from the home of `key`, and every slot before it: live, with another key. */
  ghost predicate ProbedPast<K, V>(ks: KeyOps<K>, s: Row<K, V>, key: K, distance: nat)
    requires s != []
  {
    var h := Home(ks, key, |s|);
    forall q :: 0 <= q < |s| && Dist(h, q, |s|) < distance ==> s[q].Some? && !ks.eq(s[q].value.key, key)
  }

  ghost predicate LivePast<K, V>(ks: KeyOps<K>, s: Row<K, V>, key: K, distance: nat)
    requires s != []
  {
    var h := Home(ks, key, |s|);
    forall q :: 0 <= q < |s| && Dist(h, q, |s|) < distance ==> s[q].Some?
  }

  /** The probe of a row with a free slot never fails. */
  lemma {:induction false} FreeSlotStopsProbe<K, V>(ks: KeyOps<K>, s: Row<K, V>, key: K)
    requires Live(s) < |s|
    ensures !ProbedPast(ks, s, key, |s|)
  {
    var f := FreeSlotExists(s);
    assert Dist(Home(ks, key, |s|), f, |s|) < |s|;
  }

  lemma RepresentsKeys<K(!new), V>(ks: KeyOps<K>, s: Row<K, V>, m: map<K, V>, key: K)
    requires Lawful(ks) && Represents(s, m)
    ensures HasKey(ks, m, key) <==> exists p :: 0 <= p < |s| && s[p].Some? && ks.eq(s[p].value.key, key)
  {
    if HasKey(ks, m, key) {
      var k :| k in m && ks.eq(k, key);
      var p :| 0 <= p < |s| && s[p] == Some(Entry(k, m[k]));
      assert s[p].Some? && ks.eq(s[p].value.key, key);
    }
  }

  /** Rows with the same entries represent the same map. */
  lemma RepresentsSame<K, V>(s: Row<K, V>, t: Row<K, V>, m: map<K, V>)
    requires Represents(s, m)
    requires forall j :: 0 <= j < |s| && s[j].Some? ==> s[j] in t
    requires forall p :: 0 <= p < |t| && t[p].Some? ==> t[p] in s
    ensures Represents(t, m)
  {
    forall k | k in m
      ensures exists i :: 0 <= i < |t| && t[i] == Some(Entry(k, m[k]))
    {
      var j :| 0 <= j < |s| && s[j] == Some(Entry(k, m[k]));
      assert s[j] in t;
    }
  }

  lemma MovedEntriesStay<K, V>(row: Row<K, V>, pos: nat, e: Entry<K, V>)
    requires pos < |row| && row[pos].None?
    ensures Some(e) in row[pos := Some(e)]
    ensures forall x :: x in row && x.Some? ==> x in row[pos := Some(e)]
  {
    var row' := row[pos := Some(e)];
    assert row'[pos] == Some(e);
    forall x | x in row && x.Some?
      ensures x in row'
    {
      var i :| 0 <= i < |row| && row[i] == x;
      assert row'[i] == x;
    }
  }

  /** The row `s` holds the map `m` in `c` live slots. */
  ghost predicate Holds<K(!new), V>(ks: KeyOps<K>, s: Row<K, V>, m: map<K, V>, c: nat) {
    Lawful(ks) && Placed(ks, s) && Represents(s, m) && c == Live(s)
  }

  lemma ReplaceHolds<K(!new), V>(ks: KeyOps<K>, s: Row<K, V>, m: map<K, V>, c: nat, e: Entry<K, V>, pos: nat)
    requires Holds(ks, s, m, c) && pos < |s| && s[pos].Some? && ks.eq(s[pos].value.key, e.key)
    ensures Holds(ks, s[pos := Some(e)], With(ks, m, e.key, e.val), c)
    ensures HasKey(ks, m, e.key)
  {
    ReplaceStaysPlaced(ks, s, e, pos);
    LiveUpdate(s, pos, Some(e));
    RepresentsWith(ks, s, m, e, pos);
    RepresentsKeys(ks, s, m, e.key);
  }

  lemma InsertHolds<K(!new), V>(ks: KeyOps<K>, s: Row<K, V>, m: map<K, V>, c: nat, e: Entry<K, V>, pos: nat)
    requires Holds(ks, s, m, c) && pos < |s| && s[pos].None? && !HasKey(ks, m, e.key)
    requires LivePast(ks, s, e.key, Dist(Home(ks, e.key, |s|), pos, |s|))
    ensures Holds(ks, s[pos := Some(e)], With(ks, m, e.key, e.val), c + 1)
  {
    RepresentsKeys(ks, s, m, e.key);
    InsertStaysPlaced(ks, s, e, pos);
    LiveUpdate(s, pos, Some(e));
    RepresentsWith(ks, s, m, e, pos);
  }

  lemma HasRoom<K(!new), V>(ks: KeyOps<K>, s: Row<K, V>, m: map<K, V>, c: nat)
    requires Holds(ks, s, m, c) && c < |s|
    ensures Live(s) < |s| && Lawful(ks)
    ensures forall key :: !ProbedPast(ks, s, key, |s|)
  {
    forall key
      ensures !ProbedPast(ks, s, key, |s|)
    {
      FreeSlotStopsProbe(ks, s, key);
    }
  }

  lemma EmptyRowHoldsNothing<K(!new), V>(ks: KeyOps<K>, s: Row<K, V>, m: map<K, V>, c: nat, key: K)
    requires Holds(ks, s, m, c) && s == []
    ensures m == map[] && Without(ks, m, key) == m && Lookup(ks, m, key) == None
  {
  }

  lemma NotFound<K(!new), V>(ks: KeyOps<K>, s: Row<K, V>, m: map<K, V>, c: nat, key: K, pos: nat)
    requires Holds(ks, s, m, c) && pos < |s| && s[pos].None?
    requires ProbedPast(ks, s, key, Dist(Home(ks, key, |s|), pos, |s|))
    ensures !HasKey(ks, m, key) && Lookup(ks, m, key) == None && Without(ks, m, key) == m
  {
    NoKeyBeyondFreeSlot(ks, s, key, pos);
    RepresentsKeys(ks, s, m, key);
  }

  lemma Found<K(!new), V>(ks: KeyOps<K>, s: Row<K, V>, m: map<K, V>, c: nat, key: K, pos: nat)
    requires Holds(ks, s, m, c) && pos < |s| && s[pos].Some? && ks.eq(s[pos].value.key, key)
    ensures Lookup(ks, m, key) == Some(s[pos].value.val)
  {
    RepresentsApart(ks, s, m);
    LookupIs(ks, m, key, s[pos].value.key);
  }

  // ----- growing -----

  /** `row` holds exactly the entries of the first `i` slots of `s`. */
  ghost predicate Growing<K(!new), V>(ks: KeyOps<K>, s: Row<K, V>, i: nat, row: Row<K, V>)
    requires i <= |s|
  {
    && Placed(ks, row)
    && Live(row) == Live(s[..i])
    && (forall j :: 0 <= j < i && s[j].Some? ==> s[j] in row)
    && (forall p :: 0 <= p < |row| && row[p].Some? ==> row[p] in s[..i])
  }

  lemma GrowingHasRoom<K(!new), V>(ks: KeyOps<K>, s: Row<K, V>, i: nat, row: Row<K, V>)
    requires i <= |s| && Growing(ks, s, i, row)
    ensures Live(row) <= i
  {
  }

  lemma GrowingStart<K(!new), V>(ks: KeyOps<K>, s: Row<K, V>, row: Row<K, V>)
    requires forall i :: 0 <= i < |row| ==> row[i].None?
    ensures Growing(ks, s, 0, row)
  {
    AllFree(row);
    assert s[..0] == [];
  }

  lemma GrowingSkips<K(!new), V>(ks: KeyOps<K>, s: Row<K, V>, i: nat, row: Row<K, V>)
    requires i < |s| && Growing(ks, s, i, row) && s[i].None?
    ensures Growing(ks, s, i + 1, row)
  {
    assert s[..i + 1][..i] == s[..i];
    forall p | 0 <= p < |row| && row[p].Some?
      ensures row[p] in s[..i + 1]
    {
      assert row[p] in s[..i];
    }
  }

  lemma GrowingMoves<K(!new), V>(ks: KeyOps<K>, s: Row<K, V>, m: map<K, V>, c: nat, i: nat, row: Row<K, V>, pos: nat)
    requires i < |s| && Growing(ks, s, i, row) && s[i].Some? && pos < |row| && row[pos].None?
    requires Holds(ks, s, m, c)
    requires LivePast(ks, row, s[i].value.key, Dist(Home(ks, s[i].value.key, |row|), pos, |row|))
    ensures Growing(ks, s, i + 1, row[pos := s[i]])
  {
    var e := s[i].value;
    var row' := row[pos := Some(e)];
    assert s[..i + 1][..i] == s[..i];
    forall p | 0 <= p < |row| && row[p].Some?
      ensures !ks.eq(row[p].value.key, e.key)
    {
      var j :| 0 <= j < i && s[j] == row[p];
    }
    InsertStaysPlaced(ks, row, e, pos);
    LiveUpdate(row, pos, Some(e));
    MovedEntriesStay(row, pos, e);
    forall p | 0 <= p < |row'| && row'[p].Some?
      ensures row'[p] in s[..i + 1]
    {
      if p == pos {
        assert s[..i + 1][i] == row'[p];
      } else {
        assert row[p] in s[..i];
      }
    }
  }

  lemma GrowingEnds<K(!new), V>(ks: KeyOps<K>, s: Row<K, V>, row: Row<K, V>, m: map<K, V>, c: nat)
    requires Growing(ks, s, |s|, row) && Holds(ks, s, m, c)
    ensures Holds(ks, row, m, c)
  {
    assert s[..|s|] == s;
    RepresentsSame(s, row, m);
  }

  // ----- removing -----

  /** The shift is under way: `row` holds `m` in `c` live slots but for the places of its entries. */
  ghost predicate Removing<K(!new), V>(ks: KeyOps<K>, row: Row<K, V>, m: map<K, V>, c: nat, hole: nat, r: nat) {
    Lawful(ks) && Shifting(ks, row, hole, r) && Represents(row, m) && c == Live(row)
  }

  lemma RemovingStarts<K(!new), V>(ks: KeyOps<K>, s: Row<K, V>, m: map<K, V>, c: nat, key: K, pos: nat)
    requires Holds(ks, s, m, c) && pos < |s| && |s| > 1 && s[pos].Some? && ks.eq(s[pos].value.key, key)
    ensures c > 0 && Removing(ks, s[pos := None], Without(ks, m, key), c - 1, pos, Next(pos, |s|))
  {
    ShiftBegins(ks, s, pos);
    RepresentsWithout(ks, s, m, key, pos);
    LiveUpdate(s, pos, None);
  }

  lemma RemovingMoves<K(!new), V>(ks: KeyOps<K>, row: Row<K, V>, m: map<K, V>, c: nat, hole: nat, r: nat)
    requires Removing(ks, row, m, c, hole, r) && row[r].Some? && Next(r, |row|) != hole
    requires
      var home := Home(ks, row[r].value.key, |row|);
      Dist(hole, home, |row|) == 0 || Dist(hole, home, |row|) > Dist(hole, r, |row|)
    ensures Removing(ks, row[hole := row[r]][r := None], m, c, r, Next(r, |row|))
  {
    ShiftMoves(ks, row, hole, r);
    RepresentsMoved(row, m, r, hole);
    LiveUpdate(row, hole, row[r]);
    LiveUpdate(row[hole := row[r]], r, None);
  }

  lemma RemovingSkips<K(!new), V>(ks: KeyOps<K>, row: Row<K, V>, m: map<K, V>, c: nat, hole: nat, r: nat)
    requires Removing(ks, row, m, c, hole, r) && row[r].Some? && Next(r, |row|) != hole
    requires
      var home := Home(ks, row[r].value.key, |row|);
      0 < Dist(hole, home, |row|) <= Dist(hole, r, |row|)
    ensures Removing(ks, row, m, c, hole, Next(r, |row|))
  {
    ShiftSkips(ks, row, hole, r);
  }

  lemma RemovingEnds<K(!new), V>(ks: KeyOps<K>, row: Row<K, V>, m: map<K, V>, c: nat, hole: nat, r: nat)
    requires Removing(ks, row, m, c, hole, r) && row[r].None?
    ensures Holds(ks, row, m, c) && row[hole].None?
  {
    ShiftEnds(ks, row, hole, r);
  }

  class HashMap<K(!new), V> {
    const keys: KeyOps<K>
    var buckets: array<Slot<K, V>>
    var count: nat
    ghost var contents: map<K, V>

    ghost predicate Valid()
      reads this, buckets
    {
      && Holds(keys, buckets[..], contents, count)
      && (buckets.Length == 0 || IsCapacity(buckets.Length))
      && count * 4 <= buckets.Length * 3
    }

    /** newHashMap: sixteen free slots. */
    constructor (keys: KeyOps<K>)
      requires Lawful(keys)
      ensures Valid() && fresh(buckets)
      ensures this.keys == keys && contents == map[] && count == 0 && buckets.Length == 16
    {
      this.keys := keys;
      buckets := new Slot<K, V>[0];
      count := 0;
      contents := map[];
      new;
      Grow();
    }

    /** The row of a key: its slot, or else the first free slot; fails only where no slot is free. */
    method Probe(key: K) returns (r: Result<ProbeResult, TableFull>)
      requires buckets.Length > 0
      ensures r.Err? <==> ProbedPast(keys, buckets[..], key, buckets.Length)
      ensures
        r.Ok? ==>
          && r.value.pos < buckets.Length
          && (if r.value.found then buckets[r.value.pos].Some? && keys.eq(buckets[r.value.pos].value.key, key)
              else buckets[r.value.pos].None?)
          && ProbedPast(keys, buckets[..], key, Dist(Home(keys, key, buckets.Length), r.value.pos, buckets.Length))
    {
      var len := buckets.Length;
      var pos := keys.hash(key) % len;
      ghost var home := pos;
      var scanned := 0;
      while scanned < len
        invariant 0 <= pos < len && 0 <= scanned <= len
        invariant scanned < len ==> scanned == Dist(home, pos, len)
        invariant ProbedPast(keys, buckets[..], key, scanned)
      {
        var slot := buckets[pos];
        if slot.None? {
          return Ok(ProbeResult(pos, false));
        }
        if keys.eq(slot.value.key, key) {
          return Ok(ProbeResult(pos, true));
        }
        pos := Next(pos, len);
        scanned := scanned + 1;
      }
      return Err(TableFull);
    }

    /** The first free slot for `key` in the row `b`. */
    static method ProbeEmpty(ks: KeyOps<K>, b: array<Slot<K, V>>, key: K) returns (pos: nat)
      requires Live(b[..]) < b.Length
      ensures pos < b.Length && b[pos].None?
      ensures LivePast(ks, b[..], key, Dist(Home(ks, key, b.Length), pos, b.Length))
    {
      var len := b.Length;
      pos := ks.hash(key) % len;
      ghost var home := pos;
      ghost var free := FreeSlotExists(b[..]);
      while b[pos].Some?
        invariant pos < len
        invariant LivePast(ks, b[..], key, Dist(home, pos, len))
        invariant Dist(home, pos, len) <= Dist(home, free, len)
        decreases len - Dist(home, pos, len)
      {
        pos := Next(pos, len);
      }
    }

    /** A fresh row of twice the size, filled by moves; the old row ends with every slot free. */
    method Grow()
      requires Valid()
      modifies this`buckets, buckets
      ensures Valid() && fresh(buckets)
      ensures buckets.Length == if old(buckets.Length) * 2 < 16 then 16 else old(buckets.Length) * 2
      ensures forall i :: 0 <= i < old(buckets.Length) ==> old(buckets)[i].None?
    {
      hide Holds, Growing, Removing, ProbedPast, LivePast, Live, With, HasKey, Lookup, Without;
      var newLen := buckets.Length * 2;
      if newLen < 16 {
        newLen := 16;
      }
      var nb := new Slot<K, V>[newLen](_ => None);
      ghost var s := buckets[..];
      var i := 0;
      GrowingStart(keys, s, nb[..]);
      while i < buckets.Length
        invariant i <= buckets.Length && buckets == old(buckets) && fresh(nb)
        invariant forall j :: 0 <= j < i ==> buckets[j].None?
        invariant buckets[i..] == s[i..]
        invariant Growing(keys, s, i, nb[..])
      {
        assert buckets[i] == buckets[i..][0] == s[i..][0] == s[i];
        MoveSlot(nb, i, s);
        i := i + 1;
      }
      GrowingEnds(keys, s, nb[..], contents, count);
      buckets := nb;
    }

    /** One slot of the old row: its entry, if there is one, moves to the new row. */
    method MoveSlot(nb: array<Slot<K, V>>, i: nat, ghost s: Row<K, V>)
      requires i < buckets.Length == |s| < nb.Length && nb != buckets && buckets[i] == s[i]
      requires Holds(keys, s, contents, count) && Growing(keys, s, i, nb[..])
      modifies buckets, nb
      ensures Growing(keys, s, i + 1, nb[..]) && buckets[i].None?
      ensures forall j :: 0 <= j < buckets.Length && j != i ==> buckets[j] == old(buckets[j])
    {
      hide Holds, Growing, ProbedPast, LivePast, Live;
      if buckets[i].Some? {
        var kv := buckets[i].value;
        GrowingHasRoom(keys, s, i, nb[..]);
        var pos := ProbeEmpty(keys, nb, kv.key);
        ghost var row := nb[..];
        GrowingMoves(keys, s, contents, count, i, row, pos);
        nb[pos] := Some(kv);
        buckets[i] := None;
        assert nb[..] == row[pos := Some(kv)];
      } else {
        GrowingSkips(keys, s, i, nb[..]);
      }
    }

    /** Moves the entry out of a live slot, which is free afterwards. */
    method TakeEntry(pos: nat) returns (e: Slot<K, V>)
      requires pos < buckets.Length
      modifies buckets
      ensures e == old(buckets[pos])
      ensures buckets[..] == old(buckets[..])[pos := None]
    {
      e := buckets[pos];
      buckets[pos] := None;
    }

    method Get(key: K) returns (r: Option<V>)
      requires Valid()
      ensures r == Lookup(keys, contents, key)
    {
      hide Holds, Growing, Removing, ProbedPast, LivePast, Live, With, HasKey, Lookup, Without;
      if buckets.Length == 0 {
        EmptyRowHoldsNothing(keys, buckets[..], contents, count, key);
        return None;
      }
      CapacityIsMultipleOf16(buckets.Length);
      HasRoom(keys, buckets[..], contents, count);
      var p := Probe(key);
      if p.Err? {
        return None;
      }
      if !p.value.found {
        NotFound(keys, buckets[..], contents, count, key, p.value.pos);
        return None;
      }
      Found(keys, buckets[..], contents, count, key, p.value.pos);
      return Some(buckets[p.value.pos].value.val);
    }

    method Put(key: K, val: V)
      requires Valid()
      modifies this, buckets
      ensures Valid() && (buckets == old(buckets) || fresh(buckets))
      ensures contents == With(keys, old(contents), key, val)
      ensures count == old(count) + if HasKey(keys, old(contents), key) then 0 else 1
    {
      hide Holds, Growing, Removing, ProbedPast, LivePast, Live, With, HasKey, Lookup, Without;
      if buckets.Length == 0 {
        Grow();
      }
      CapacityIsMultipleOf16(buckets.Length);
      HasRoom(keys, buckets[..], contents, count);
      var p := Probe(key);
      if p.Err? {
        return;
      }
      if p.value.found {
        ghost var s := buckets[..];
        var pos := p.value.pos;
        ReplaceHolds(keys, s, contents, count, Entry(key, val), pos);
        var _ := TakeEntry(pos);
        buckets[pos] := Some(Entry(key, val));
        assert buckets[..] == s[pos := Some(Entry(key, val))];
        contents := With(keys, contents, key, val);
      } else {
        NotFound(keys, buckets[..], contents, count, key, p.value.pos);
        PutNew(key, val);
      }
    }

    /** The part of put for a key that the table does not hold: grow at the load limit, then fill a slot. */
    method PutNew(key: K, val: V)
      requires Valid() && buckets.Length > 0 && !HasKey(keys, contents, key)
      modifies this, buckets
      ensures Valid() && (buckets == old(buckets) || fresh(buckets))
      ensures contents == With(keys, old(contents), key, val)
      ensures count == old(count) + 1
    {
      hide Holds, LivePast, Live, With, HasKey;
      CapacityIsMultipleOf16(buckets.Length);
      if count * 4 >= buckets.Length * 3 {
        Grow();
        CapacityIsMultipleOf16(buckets.Length);
      }
      Insert(key, val);
    }

    method Insert(key: K, val: V)
      requires Valid() && count * 4 < buckets.Length * 3 && !HasKey(keys, contents, key)
      modifies this`count, this`contents, buckets
      ensures Valid()
      ensures contents == With(keys, old(contents), key, val)
      ensures count == old(count) + 1
    {
      hide Holds, LivePast, Live, With, HasKey;
      CapacityIsMultipleOf16(buckets.Length);
      ghost var s := buckets[..];
      HasRoom(keys, s, contents, count);
      var pos := ProbeEmpty(keys, buckets, key);
      InsertHolds(keys, s, contents, count, Entry(key, val), pos);
      buckets[pos] := Some(Entry(key, val));
      assert buckets[..] == s[pos := Some(Entry(key, val))];
      count := count + 1;
      contents := With(keys, contents, key, val);
    }

    method Remove(key: K) returns (r: Option<V>)
      requires Valid()
      modifies this, buckets
      ensures Valid() && buckets == old(buckets)
      ensures contents == Without(keys, old(contents), key)
      ensures r == Lookup(keys, old(contents), key)
    {
      hide Holds, Growing, Removing, ProbedPast, LivePast, Live, With, HasKey, Lookup, Without;
      if buckets.Length == 0 {
        EmptyRowHoldsNothing(keys, buckets[..], contents, count, key);
        return None;
      }
      CapacityIsMultipleOf16(buckets.Length);
      HasRoom(keys, buckets[..], contents, count);
      var p := Probe(key);
      if p.Err? {
        return None;
      }
      if !p.value.found {
        NotFound(keys, buckets[..], contents, count, key, p.value.pos);
        return None;
      }
      var pos := p.value.pos;
      ghost var s := buckets[..];
      CapacityIsMultipleOf16(buckets.Length);
      Found(keys, s, contents, count, key, pos);
      RemovingStarts(keys, s, contents, count, key, pos);
      ghost var free := FreeSlotExists(s);
      var e := TakeEntry(pos);
      count := count - 1;
      contents := Without(keys, contents, key);
      ShiftBack(pos, free);
      return Some(e.value.val);
    }

    /** The decision about the entry at `r`: it moves into the hole unless its home lies between. */
    method ShiftOne(hole: nat, r: nat) returns (hole': nat)
      requires hole < buckets.Length && r < buckets.Length && hole != r && buckets[r].Some?
      requires Next(r, buckets.Length) != hole
      requires Removing(keys, buckets[..], contents, count, hole, r)
      modifies buckets
      ensures hole' == hole || hole' == r
      ensures Removing(keys, buckets[..], contents, count, hole', Next(r, buckets.Length))
      ensures forall i :: 0 <= i < buckets.Length && i != hole && i != r ==> buckets[i] == old(buckets[i])
    {
      hide Removing;
      ghost var row := buckets[..];
      var len := buckets.Length;
      var home := keys.hash(buckets[r].value.key) % len;
      var dh := Dist(hole, home, len);
      var dr := Dist(hole, r, len);
      if dh == 0 || dh > dr {
        RemovingMoves(keys, row, contents, count, hole, r);
        var shifted := TakeEntry(r);
        buckets[hole] := shifted;
        assert buckets[..] == row[hole := row[r]][r := None];
        return r;
      }
      RemovingSkips(keys, row, contents, count, hole, r);
      return hole;
    }

    /**
     The shift loop of remove, from the slot `start` that was just vacated: pulls every following
     entry that may move into the hole, up to the first free slot. `free` is a slot that was free
     before, so the scan never comes round to `start`.
     */
    method ShiftBack(start: nat, ghost free: nat)
      requires start < buckets.Length && free < buckets.Length && free != start && buckets.Length > 1
      requires buckets[free].None?
      requires Removing(keys, buckets[..], contents, count, start, Next(start, buckets.Length))
      modifies buckets
      ensures Holds(keys, buckets[..], contents, count)
    {
      hide Holds, Removing;
      var len := buckets.Length;
      var hole: nat := start;
      var r: nat := Next(start, len);
      while r != start
        invariant hole < len && r < len && r != start && free != hole
        invariant Removing(keys, buckets[..], contents, count, hole, r)
        invariant buckets[free].None?
        invariant Dist(start, hole, len) < Dist(start, r, len) <= Dist(start, free, len)
        decreases Dist(start, free, len) - Dist(start, r, len)
      {
        if buckets[r].None? {
          break;
        }
        hole := ShiftOne(hole, r);
        r := Next(r, len);
      }
      ghost var row := buckets[..];
      RemovingEnds(keys, row, contents, count, hole, r);
      buckets[hole] := None;
      assert buckets[..] == row;
    }
  }
}
