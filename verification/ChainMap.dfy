/**
 The chained hash map (bootstrap/hmap.h): an array of buckets, each a linked chain of nodes, doubled and
 rehashed as it fills. It agrees with a finite map over any run of its operations.
 */
module ChainMap {
  import opened Basics
  import opened Hashing

  const DEFAULT_CAPACITY: nat := 8

  class Node<V> {
    const key: string
    var value: V
    var next: Node?<V>

    constructor (key: string, value: V, next: Node?<V>)
      ensures this.key == key && this.value == value && this.next == next
    {
      this.key, this.value, this.next := key, value, next;
    }
  }

  /** The bucket a key belongs to. */
  function Home(cap: nat, key: string): (b: nat)
    requires cap > 0
    ensures b < cap
  {
    Index(cap, Hash(key))
  }

  lemma HomeIs(cap: nat, key: string)
    requires cap > 0
    ensures Home(cap, key) == Index(cap, Hash(key))
  {
    hide Index, Hash;
  }

  /** A capacity the map may have: 8, doubled any number of times. */
  predicate IsCapacity(cap: nat) {
    cap >= DEFAULT_CAPACITY && IsPowerOfTwo(cap)
  }

  lemma DefaultIsCapacity()
    ensures IsCapacity(DEFAULT_CAPACITY)
  {
    assert IsPowerOfTwo(1) && IsPowerOfTwo(2) && IsPowerOfTwo(4);
  }

  lemma CapacityDoubles(cap: nat)
    requires IsCapacity(cap)
    ensures IsCapacity(2 * cap) && cap >= 8
  {
    DoublingKeepsPower(cap);
  }

  // ----- chains -----

  ghost function At<V>(ns: seq<Node<V>>, k: nat): Node?<V> {
    if k < |ns| then ns[k] else null
  }

  /** `head` leads through `next` along exactly the nodes `ns`. */
  ghost predicate Linked<V>(head: Node?<V>, ns: seq<Node<V>>)
    reads ns`next
  {
    && head == At(ns, 0)
    && forall k :: 0 <= k < |ns| ==> ns[k].next == At(ns, k + 1)
  }

  /** Every node is filed once, in its key's bucket. */
  ghost predicate Filed<V>(chains: seq<seq<Node<V>>>, all: set<Node<V>>) {
    && |chains| > 0
    && (forall b, k :: 0 <= b < |chains| && 0 <= k < |chains[b]| ==>
          chains[b][k] in all && Home(|chains|, chains[b][k].key) == b)
    && (forall b, j, k :: 0 <= b < |chains| && 0 <= j < k < |chains[b]| ==> chains[b][j] != chains[b][k])
    && (forall n :: n in all ==> n in chains[Home(|chains|, n.key)])
  }

  ghost predicate KeysApart<V>(all: set<Node<V>>) {
    forall m, n :: m in all && n in all && m.key == n.key ==> m == n
  }

  ghost predicate Agrees<V>(all: set<Node<V>>, contents: map<string, V>)
    reads all`value
  {
    && (forall n :: n in all ==> n.key in contents && contents[n.key] == n.value)
    && (forall key :: key in contents ==> exists n :: n in all && n.key == key)
  }

  ghost predicate Absent<V>(all: set<Node<V>>, key: string) {
    forall n :: n in all ==> n.key != key
  }

  lemma FiledIn<V>(chains: seq<seq<Node<V>>>, all: set<Node<V>>, b: nat)
    requires Filed(chains, all) && b < |chains|
    ensures forall k :: 0 <= k < |chains[b]| ==> chains[b][k] in all && Home(|chains|, chains[b][k].key) == b
    ensures forall n :: n in chains[b] ==> n in all && Home(|chains|, n.key) == b
  {
    hide Home;
  }

  /** A node not met on its key's chain is nowhere. */
  lemma NotMet<V>(chains: seq<seq<Node<V>>>, all: set<Node<V>>, key: string)
    requires Filed(chains, all)
    requires forall k :: 0 <= k < |chains[Home(|chains|, key)]| ==> chains[Home(|chains|, key)][k].key != key
    ensures Absent(all, key)
  {
    hide Home;
  }

  lemma AbsentKey<V>(all: set<Node<V>>, contents: map<string, V>, key: string)
    requires Agrees(all, contents) && Absent(all, key)
    ensures key !in contents
  {
  }

  /** Three quarters of the capacity may be used. */
  predicate Fits(size: nat, cap: nat) {
    size <= cap * 3 / 4
  }

  class ChainMap<V> {
    var nodes: array<Node?<V>>
    var size: nat
    var cap: nat
    ghost var chains: seq<seq<Node<V>>>
    ghost var all: set<Node<V>>
    ghost var contents: map<string, V>

    ghost predicate Valid()
      reads this, nodes, all
    {
      && nodes.Length == cap == |chains|
      && Filed(chains, all) && KeysApart(all)
      && AllLinked()
      && Agrees(all, contents)
      && size == |all| == |contents|
      && IsCapacity(cap) && Fits(size, cap)
    }

    ghost predicate AllLinked()
      requires nodes.Length == |chains| && Filed(chains, all)
      reads this, nodes, all`next
    {
      forall b :: 0 <= b < |chains| ==> Linked(nodes[b], chains[b])
    }

    /** A new map: eight empty buckets. */
    constructor ()
      ensures Valid() && fresh(nodes)
      ensures contents == map[] && size == 0 && cap == DEFAULT_CAPACITY
    {
      size, cap := 0, DEFAULT_CAPACITY;
      nodes := new Node?<V>[DEFAULT_CAPACITY](_ => null);
      chains := seq(DEFAULT_CAPACITY, _ => []);
      all, contents := {}, map[];
      new;
      NoneFiled(nodes, chains);
      LinksAll(nodes, chains, all);
      DefaultIsCapacity();
    }

    method Locate(key: string) returns (i: nat)
      requires Valid()
      ensures i == Home(cap, key)
    {
      hide Filed, KeysApart, Agrees, Linked, Index, Hash, IsPowerOfTwo;
      var h := HashOf(key);
      HomeIs(cap, key);
      i := Index(cap, h);
    }

    /** The node that holds a key, found along its bucket's chain. */
    method Seek(i: nat, key: string) returns (cur: Node?<V>)
      requires Valid() && i == Home(cap, key)
      ensures cur == null ==> Absent(all, key)
      ensures cur != null ==> cur in all && cur.key == key
    {
      hide Home, Filed, KeysApart, Agrees, IsCapacity, Absent;
      ghost var ns, k: nat := chains[i], 0;
      assert Linked(nodes[i], ns);
      FiledIn(chains, all, i);
      cur := nodes[i];
      while cur != null
        invariant k <= |ns| && cur == At(ns, k)
        invariant forall j :: 0 <= j < k ==> ns[j].key != key
        decreases |ns| - k
      {
        if cur.key == key {
          return;
        }
        cur := cur.next;
        k := k + 1;
      }
      NotMet(chains, all, key);
    }

    method Get(key: string) returns (val: Option<V>)
      requires Valid()
      ensures val == if key in contents then Some(contents[key]) else None
    {
      hide Home, Filed, KeysApart, Index, Hash, IsPowerOfTwo;
      var i := Locate(key);
      var cur := Seek(i, key);
      val := if cur == null then None else Some(cur.value);
    }

    method Put(key: string, val: V) returns (was: Option<V>)
      requires Valid()
      modifies this, nodes, all
      ensures Valid() && contents == old(contents)[key := val]
      ensures was == if key in old(contents) then Some(old(contents)[key]) else None
      ensures fresh(all - old(all)) && (nodes == old(nodes) || fresh(nodes))
    {
      hide Home, Filed, KeysApart, Index, Hash, IsPowerOfTwo;
      if size + 1 > cap * 3 / 4 {
        Grow();
      }
      var i := Locate(key);
      var cur := Seek(i, key);
      if cur != null {
        was := Some(cur.value);
        Overwrite(cur, val);
      } else {
        was := None;
        Insert(i, key, val);
      }
    }

    method Overwrite(cur: Node<V>, val: V)
      requires Valid() && cur in all
      modifies this`contents, cur`value
      ensures Valid() && contents == old(contents)[cur.key := val]
    {
      hide Home, Filed, IsCapacity, Linked, At;
      cur.value := val;
      contents := contents[cur.key := val];
    }

    /** A new key: the first node of an empty bucket, or behind the head of a chain. */
    method Insert(i: nat, key: string, val: V)
      requires Valid() && i == Home(cap, key) && Fits(size + 1, cap) && Absent(all, key)
      modifies this, nodes, all
      ensures Valid() && contents == old(contents)[key := val] && nodes == old(nodes)
      ensures fresh(all - old(all))
    {
      hide Home, Filed, KeysApart, Agrees, IsCapacity, Absent, Linked, Fits, Behind;
      AbsentKey(all, contents, key);
      ghost var was := chains;
      var node := InsertNode(i, key, val);
      FiledInsert(was, all, i, node);
      KeysApartInsert(all, node);
      AgreesInsert(all, contents, node);
      Count(node);
    }

    /** `size` and the ghost state after a node was linked in. */
    method Count(node: Node<V>)
      requires nodes.Length == cap == |chains| && Filed(chains, all + {node}) && KeysApart(all + {node})
      requires forall b :: 0 <= b < |chains| ==> Linked(nodes[b], chains[b])
      requires Agrees(all + {node}, contents[node.key := node.value]) && node.key !in contents && node !in all
      requires size == |all| == |contents| && IsCapacity(cap) && Fits(size + 1, cap)
      modifies this`all, this`size, this`contents
      ensures Valid() && all == old(all) + {node} && contents == old(contents)[node.key := node.value]
    {
      hide Home, Filed, KeysApart, Agrees, IsCapacity, Linked, Fits;
      all := all + {node};
      size := size + 1;
      contents := contents[node.key := node.value];
    }

    method InsertNode(i: nat, key: string, val: V) returns (node: Node<V>)
      requires nodes.Length == |chains| && Filed(chains, all) && AllLinked() && i < |chains|
      modifies this`chains, nodes, all`next
      ensures fresh(node) && node.key == key && node.value == val
      ensures chains == old(chains)[i := Behind(old(chains)[i], node)]
      ensures forall b :: 0 <= b < |chains| ==> Linked(nodes[b], chains[b])
    {
      hide Home, Filed, KeysApart, Agrees, IsCapacity, Absent, Linked;
      var n := nodes[i];
      assert Linked(n, chains[i]);
      FiledIn(chains, all, i);
      if n == null {
        LinkedEmpty(n, chains[i]);
        node := new Node(key, val, null);
        nodes[i] := node;
        chains := chains[i := [node]];
        LinkedOne(node);
      } else {
        ghost var ns := chains[i];
        LinkedFirst(n, ns);
        node := new Node(key, val, n.next);
        OthersApart(chains, all, i, n);
        n.next := node;
        LinkedSecond(n, ns, node);
        chains := chains[i := [n, node] + ns[1..]];
      }
    }

    /** The value of a key, made and put where there is none. */
    method ComputeIfAbsent(key: string, make: string -> V) returns (val: V)
      requires Valid()
      modifies this, nodes, all
      ensures Valid()
      ensures val == if key in old(contents) then old(contents)[key] else make(key)
      ensures contents == if key in old(contents) then old(contents) else old(contents)[key := val]
      ensures fresh(all - old(all)) && (nodes == old(nodes) || fresh(nodes))
    {
      hide Home, Filed, KeysApart, Index, Hash, IsPowerOfTwo, Linked;
      var i := Locate(key);
      var cur := Seek(i, key);
      if cur != null {
        return cur.value;
      }
      val := make(key);
      var _ := Put(key, val);
    }

    method Remove(key: string) returns (was: Option<V>)
      requires Valid()
      modifies this, nodes, all
      ensures Valid() && contents == old(contents) - {key} && nodes == old(nodes) && all <= old(all)
      ensures was == if key in old(contents) then Some(old(contents)[key]) else None
    {
      hide Home, Filed, KeysApart, Agrees, Index, Hash, IsPowerOfTwo, IsCapacity, Linked, Absent, Fits;
      var i := Locate(key);
      ghost var before := chains;
      var n;
      ghost var k: nat;
      n, k := Unlink(i, key);
      if n == null {
        AbsentKey(all, contents, key);
        return None;
      }
      was := Forget(n, before, i, k);
    }

    /** Counts out a node that is unlinked. */
    method Forget(n: Node<V>, ghost before: seq<seq<Node<V>>>, ghost i: nat, ghost k: nat) returns (was: Option<V>)
      requires nodes.Length == cap == |chains| && Filed(before, all) && KeysApart(all) && Agrees(all, contents)
      requires i < |before| && k < |before[i]| && n == before[i][k]
      requires chains == before[i := before[i][..k] + before[i][k + 1..]]
      requires forall b :: 0 <= b < |chains| ==> Linked(nodes[b], chains[b])
      requires size == |all| == |contents| && IsCapacity(cap) && Fits(size, cap)
      modifies this`all, this`size, this`contents
      ensures Valid() && all == old(all) - {n} && contents == old(contents) - {n.key}
      ensures n.key in old(contents) && was == Some(old(contents)[n.key])
    {
      hide Home, Filed, KeysApart, Agrees, IsCapacity, Linked;
      FiledRemove(before, all, i, k);
      AgreesRemove(all, contents, n);
      was := Some(n.value);
      all := all - {n};
      size := size - 1;
      contents := contents - {n.key};
    }

    /** Takes the node of a key out of its bucket's chain: `k` is where it was. */
    method Unlink(i: nat, key: string) returns (n: Node?<V>, ghost k: nat)
      requires Valid() && i == Home(cap, key)
      modifies this`chains, nodes, all`next
      ensures n == null ==> Absent(all, key) && chains == old(chains)
      ensures n != null ==> k < |old(chains)[i]| && n == old(chains)[i][k] && n.key == key &&
                            chains == old(chains)[i := old(chains)[i][..k] + old(chains)[i][k + 1..]]
      ensures forall b :: 0 <= b < |chains| ==> Linked(nodes[b], chains[b])
    {
      hide Home, Filed, KeysApart, Agrees, IsCapacity, Absent, Linked;
      ghost var ns := chains[i];
      FiledIn(chains, all, i);
      FiledMembers(chains, all);
      assert Linked(nodes[i], ns);
      LinkedFrom(nodes[i], ns);
      n, k := nodes[i], 0;
      if n == null {
        NotMet(chains, all, key);
        return;
      }
      if n.key == key {
        nodes[i] := n.next;
        chains := chains[i := ns[..k] + ns[k + 1..]];
        LinkedWithoutFirst(nodes[i], ns);
        return;
      }
      var prev := n;
      n, k := n.next, 1;
      while n != null
        invariant 1 <= k <= |ns| && prev == ns[k - 1] && n == At(ns, k)
        invariant forall j :: 0 <= j < k ==> ns[j].key != key
        decreases |ns| - k
        modifies {}
      {
        if n.key == key {
          break;
        }
        prev := n;
        n := n.next;
        k := k + 1;
      }
      if n == null {
        NotMet(chains, all, key);
        return;
      }
      prev.next := n.next;
      chains := chains[i := ns[..k] + ns[k + 1..]];
      LinkedWithout(nodes[i], ns, k);
    }

    /** Doubles the buckets and moves every node to the tail of its new chain; no lookup changes. */
    method Grow()
      requires Valid()
      modifies this, nodes, all
      ensures Valid() && contents == old(contents) && all == old(all) && cap == 2 * old(cap) && size == old(size)
      ensures fresh(nodes)
    {
      hide Home, Filed, KeysApart, Agrees, IsCapacity, Linked, IsPowerOfTwo, Links, Recorded;
      CapacityDoubles(cap);
      var oldNodes := nodes;
      var table := new Node?<V>[2 * cap](_ => null);
      ghost var empty: seq<seq<Node<V>>> := seq(2 * cap, _ => []);
      ghost var nextOf := NextOf(all);
      RecordsNext(oldNodes, chains, all);
      NoneFiled(table, empty);
      var count;
      ghost var built;
      count, built := MoveAll(oldNodes, chains, all, nextOf, table, empty);
      LinksAll(table, built, all);
      nodes := table;
      cap := 2 * cap;
      chains := built;
      size := count;
    }
  }

  // ----- what a removal keeps -----

  lemma LinkedWithoutFirst<V>(head: Node?<V>, ns: seq<Node<V>>)
    requires ns != [] && head == At(ns, 1) && forall j :: 1 <= j < |ns| ==> ns[j].next == At(ns, j + 1)
    ensures Linked(head, ns[..0] + ns[1..])
  {
    assert ns[..0] + ns[1..] == ns[1..];
  }

  lemma LinkedWithout<V>(head: Node?<V>, ns: seq<Node<V>>, k: nat)
    requires 1 <= k < |ns| && head == ns[0] && ns[k - 1].next == At(ns, k + 1)
    requires forall j :: 0 <= j < |ns| && j != k - 1 && j != k ==> ns[j].next == At(ns, j + 1)
    ensures Linked(head, ns[..k] + ns[k + 1..])
  {
  }

  lemma FiledRemove<V>(chains: seq<seq<Node<V>>>, all: set<Node<V>>, i: nat, k: nat)
    requires Filed(chains, all) && KeysApart(all) && i < |chains| && k < |chains[i]|
    ensures
      var n := chains[i][k];
      Filed(chains[i := chains[i][..k] + chains[i][k + 1..]], all - {n}) && KeysApart(all - {n}) && n in all
  {
    hide Home;
    var gone, chain := chains[i][k], chains[i][..k] + chains[i][k + 1..];
    var chains' := chains[i := chain];
    forall n | n in all - {gone}
      ensures n in chains'[Home(|chains|, n.key)]
    {
      if Home(|chains|, n.key) == i {
        var j :| 0 <= j < |chains[i]| && chains[i][j] == n;
        assert n == chain[if j < k then j else j - 1];
      }
    }
  }

  lemma AgreesRemove<V>(all: set<Node<V>>, contents: map<string, V>, n: Node<V>)
    requires Agrees(all, contents) && KeysApart(all) && n in all
    ensures Agrees(all - {n}, contents - {n.key}) && |contents - {n.key}| == |contents| - 1
    ensures n.key in contents && contents[n.key] == n.value
  {
    assert (contents - {n.key}).Keys == contents.Keys - {n.key};
    forall key | key in contents && key != n.key
      ensures exists m :: m in all - {n} && m.key == key
    {
      var m :| m in all && m.key == key;
    }
  }

  // ----- rehashing -----

  /** The nodes moved so far are those of the buckets before `i`. */
  ghost predicate Moved<V>(chains: seq<seq<Node<V>>>, all: set<Node<V>>, i: nat, done: set<Node<V>>) {
    && |chains| > 0 && done <= all
    && forall n :: n in all ==> (n in done <==> Home(|chains|, n.key) < i)
  }

  /** The table's chains, all of them linked. */
  ghost predicate Links<V>(table: array<Node?<V>>, chains: seq<seq<Node<V>>>, all: set<Node<V>>)
    requires table.Length == |chains| && Filed(chains, all)
    reads table, all`next
  {
    forall b :: 0 <= b < |chains| ==> Linked(table[b], chains[b])
  }

  lemma LinksAll<V>(table: array<Node?<V>>, chains: seq<seq<Node<V>>>, all: set<Node<V>>)
    requires table.Length == |chains| && Filed(chains, all) && Links(table, chains, all)
    ensures forall b :: 0 <= b < |chains| ==> Linked(table[b], chains[b])
  {
    hide Filed, Linked;
  }

  lemma NoneMoved<V>(chains: seq<seq<Node<V>>>, all: set<Node<V>>)
    requires Filed(chains, all)
    ensures Moved(chains, all, 0, {})
  {
    hide Home;
  }

  lemma NoneFiled<V>(table: array<Node?<V>>, chains: seq<seq<Node<V>>>)
    requires |chains| == table.Length > 0 && (forall b :: 0 <= b < |chains| ==> chains[b] == [] && table[b] == null)
    ensures Filed(chains, {}) && Links(table, chains, {})
  {
    hide Home;
  }

  lemma LinkedFrom<V>(head: Node?<V>, ns: seq<Node<V>>)
    requires Linked(head, ns)
    ensures head == At(ns, 0) && forall j :: 0 <= j < |ns| ==> ns[j].next == At(ns, j + 1)
  {
  }

  ghost function NodeSet<V>(ns: seq<Node<V>>): set<Node<V>> {
    set n | n in ns
  }

  ghost predicate Distinct<V>(ns: seq<Node<V>>) {
    forall j, k :: 0 <= j < k < |ns| ==> ns[j] != ns[k]
  }

  /** Which node each node leads to. */
  ghost predicate Recorded<V>(nextOf: map<Node<V>, Node?<V>>, chains: seq<seq<Node<V>>>, all: set<Node<V>>) {
    && all <= nextOf.Keys
    && forall b, k :: 0 <= b < |chains| && 0 <= k < |chains[b]| ==>
         chains[b][k] in nextOf && nextOf[chains[b][k]] == At(chains[b], k + 1)
  }

  ghost function NextOf<V>(all: set<Node<V>>): map<Node<V>, Node?<V>>
    reads all`next
  {
    map n | n in all :: n.next
  }

  lemma RecordsNext<V>(table: array<Node?<V>>, chains: seq<seq<Node<V>>>, all: set<Node<V>>)
    requires table.Length == |chains| && Filed(chains, all)
    requires forall b :: 0 <= b < |chains| ==> Linked(table[b], chains[b])
    ensures Recorded(NextOf(all), chains, all) && forall b :: 0 <= b < |chains| ==> table[b] == At(chains[b], 0)
  {
    FiledMembers(chains, all);
    hide Filed;
    forall b, k | 0 <= b < |chains| && 0 <= k < |chains[b]|
      ensures chains[b][k].next == At(chains[b], k + 1)
    {
      assert Linked(table[b], chains[b]);
    }
  }

  lemma RecordedLinked<V>(nextOf: map<Node<V>, Node?<V>>, chains: seq<seq<Node<V>>>, all: set<Node<V>>, b: nat,
          head: Node?<V>)
    requires Recorded(nextOf, chains, all) && b < |chains| && head == At(chains[b], 0)
    requires forall k :: 0 <= k < |chains[b]| ==> chains[b][k] in nextOf && chains[b][k].next == nextOf[chains[b][k]]
    ensures Linked(head, chains[b])
  {
  }

  /** Moves every node of the old buckets, bucket by bucket. */
  method MoveAll<V>(oldNodes: array<Node?<V>>, ghost oldChains: seq<seq<Node<V>>>, ghost every: set<Node<V>>,
                    ghost nextOf: map<Node<V>, Node?<V>>, table: array<Node?<V>>, ghost chains: seq<seq<Node<V>>>)
    returns (count: nat, ghost built: seq<seq<Node<V>>>)
    requires oldNodes.Length == |oldChains| && oldNodes != table && Filed(oldChains, every)
    requires forall b :: 0 <= b < |oldChains| ==> oldNodes[b] == At(oldChains[b], 0)
    requires Recorded(nextOf, oldChains, every) && forall n :: n in every ==> n in nextOf && nextOf[n] == n.next
    requires table.Length == |chains| && Filed(chains, {}) && Links(table, chains, {})
    modifies table, every`next
    ensures count == |every| && |built| == |chains| && Filed(built, every) && Links(table, built, every)
  {
    hide Home, Filed, Linked, Moved, Links, Recorded, At, NodeSet, Distinct;
    ghost var done: set<Node<V>> := {};
    count, built := 0, chains;
    NoneMoved(oldChains, every);
    for i := 0 to oldNodes.Length
      invariant |built| == |chains| && count == |done|
      invariant Moved(oldChains, every, i, done)
      invariant Filed(built, done) && Links(table, built, done)
      invariant forall n :: n in every && n !in done ==> n.next == nextOf[n]
    {
      ChainToMove(oldChains, every, i, done);
      RecordedLinked(nextOf, oldChains, every, i, oldNodes[i]);
      var moved;
      ghost var after;
      moved, built, after := MoveChain(table, built, done, oldNodes[i], oldChains[i]);
      MovedChain(oldChains, every, i, done, after);
      count := count + moved;
      done := after;
    }
    AllMoved(oldChains, every, done);
  }

  /** The chain of the next bucket is not moved yet. */
  lemma ChainToMove<V>(chains: seq<seq<Node<V>>>, all: set<Node<V>>, i: nat, done: set<Node<V>>)
    requires Filed(chains, all) && Moved(chains, all, i, done) && i < |chains|
    ensures Distinct(chains[i]) && NodeSet(chains[i]) <= all && NodeSet(chains[i]) !! done && done <= all
    ensures forall k :: 0 <= k < |chains[i]| ==>
      chains[i][k] in all && chains[i][k] !in done && chains[i][k] in NodeSet(chains[i])
    ensures forall n :: n in NodeSet(chains[i]) ==> n in chains[i]
  {
    hide Home;
  }

  lemma MovedChain<V>(chains: seq<seq<Node<V>>>, all: set<Node<V>>, i: nat, done: set<Node<V>>, after: set<Node<V>>)
    requires Filed(chains, all) && Moved(chains, all, i, done) && i < |chains| && after == done + NodeSet(chains[i])
    ensures Moved(chains, all, i + 1, after)
  {
    hide Home;
    forall n | n in all
      ensures n in after <==> Home(|chains|, n.key) < i + 1
    {
      assert n in chains[Home(|chains|, n.key)];
      if n in chains[i] {
        var k :| 0 <= k < |chains[i]| && chains[i][k] == n;
      }
    }
  }

  lemma AllMoved<V>(chains: seq<seq<Node<V>>>, all: set<Node<V>>, done: set<Node<V>>)
    requires Moved(chains, all, |chains|, done)
    ensures done == all
  {
    hide Home;
  }

  lemma FiledAppend<V>(chains: seq<seq<Node<V>>>, all: set<Node<V>>, i: nat, node: Node<V>)
    requires Filed(chains, all) && i < |chains| && i == Home(|chains|, node.key) && node !in all
    ensures Filed(chains[i := chains[i] + [node]], all + {node})
  {
    hide Home;
    var chains', all' := chains[i := chains[i] + [node]], all + {node};
    forall n | n in all'
      ensures n in chains'[Home(|chains|, n.key)]
    {
      if n == node {
        assert n == chains'[i][|chains[i]|];
      } else if Home(|chains|, n.key) == i {
        var k :| 0 <= k < |chains[i]| && chains[i][k] == n;
        assert n == chains'[i][k];
      }
    }
  }

  /** Moves the nodes of one old chain, one after the other, to the tails of their new chains. */
  method MoveChain<V>(table: array<Node?<V>>, ghost chains: seq<seq<Node<V>>>, ghost done: set<Node<V>>,
                      head: Node?<V>, ghost ns: seq<Node<V>>)
    returns (count: nat, ghost built: seq<seq<Node<V>>>, ghost after: set<Node<V>>)
    requires table.Length == |chains| && Filed(chains, done) && Links(table, chains, done)
    requires Linked(head, ns) && Distinct(ns) && NodeSet(ns) !! done
    modifies table, ns`next, done`next
    ensures after == done + NodeSet(ns) && |built| == |chains| && |after| == |done| + count
    ensures Filed(built, after) && Links(table, built, after)
  {
    hide Home, Filed, Linked, Links, NodeSet, KeysApart, Agrees, Distinct, At;
    LinkedFrom(head, ns);
    NodeSetMembers(ns);
    ghost var k: nat := 0;
    var n := head;
    count, built, after := 0, chains, done;
    while n != null
      invariant k <= |ns| && n == At(ns, k) && |built| == |chains| && |after| == |done| + count
      invariant done <= after <= done + NodeSet(ns) && forall j :: 0 <= j < k ==> ns[j] in after
      invariant Filed(built, after) && Links(table, built, after)
      invariant forall j :: k <= j < |ns| ==> ns[j].next == At(ns, j + 1) && ns[j] !in after
      decreases |ns| - k
    {
      IsAt(ns, k, n);
      DistinctAfter(ns, k);
      var next := n.next;
      built := Refile(table, built, after, n);
      after := after + {n};
      count := count + 1;
      n := next;
      k := k + 1;
    }
    AtEnd(ns, k);
    assert after == done + NodeSet(ns);
  }

  lemma NodeSetMembers<V>(ns: seq<Node<V>>)
    ensures forall j :: 0 <= j < |ns| ==> ns[j] in NodeSet(ns)
    ensures forall m :: m in NodeSet(ns) ==> m in ns
  {
  }

  lemma IsAt<V>(ns: seq<Node<V>>, k: nat, n: Node<V>)
    requires n == At(ns, k)
    ensures k < |ns| && n == ns[k]
  {
  }

  lemma AtEnd<V>(ns: seq<Node<V>>, k: nat)
    requires null == At(ns, k)
    ensures k >= |ns|
  {
  }

  lemma DistinctAfter<V>(ns: seq<Node<V>>, k: nat)
    requires Distinct(ns) && k < |ns|
    ensures forall j :: k < j < |ns| ==> ns[j] != ns[k]
  {
  }

  method Refile<V>(table: array<Node?<V>>, ghost chains: seq<seq<Node<V>>>, ghost done: set<Node<V>>, n: Node<V>)
    returns (ghost built: seq<seq<Node<V>>>)
    requires table.Length == |chains| && Filed(chains, done) && Links(table, chains, done) && n !in done
    modifies table, n`next, done`next
    ensures |built| == |chains| && Filed(built, done + {n}) && Links(table, built, done + {n})
  {
    hide Home, Filed, Linked, Index, Hash;
    var h := HashOf(n.key);
    FiledNonEmpty(chains, done);
    var idx := Index(table.Length, h);
    HomeIs(table.Length, n.key);
    Append(table, chains, done, idx, n);
    FiledAppend(chains, done, idx, n);
    built := chains[idx := chains[idx] + [n]];
  }

  lemma FiledNonEmpty<V>(chains: seq<seq<Node<V>>>, all: set<Node<V>>)
    requires Filed(chains, all)
    ensures |chains| > 0
  {
    hide Home;
  }

  /** Links a node in at the tail of a bucket's chain. */
  method Append<V>(table: array<Node?<V>>, ghost chains: seq<seq<Node<V>>>, ghost done: set<Node<V>>, idx: nat,
          n: Node<V>)
    requires table.Length == |chains| && Filed(chains, done) && idx < |chains| && n !in done
    requires forall b :: 0 <= b < |chains| ==> Linked(table[b], chains[b])
    modifies table, n`next, done`next
    ensures
      var chains' := chains[idx := chains[idx] + [n]];
      forall b :: 0 <= b < |chains| ==> Linked(table[b], chains'[b])
  {
    hide Home, Filed, Linked;
    FiledMembers(chains, done);
    ghost var ns := chains[idx];
    assert Linked(table[idx], ns);
    LinkedFrom(table[idx], ns);
    var head := table[idx];
    n.next := null;
    if head == null {
      table[idx] := n;
      LinkedOne(n);
      assert ns + [n] == [n];
    } else {
      ghost var k: nat := 0;
      while head.next != null
        invariant k < |ns| && head == ns[k]
        decreases |ns| - k
      {
        head := head.next;
        k := k + 1;
      }
      head.next := n;
      LinkedTail(table[idx], ns, n);
    }
  }

  lemma FiledMembers<V>(chains: seq<seq<Node<V>>>, all: set<Node<V>>)
    requires Filed(chains, all)
    ensures forall b, k :: 0 <= b < |chains| && 0 <= k < |chains[b]| ==> chains[b][k] in all
    ensures forall b, c, j, k ::
      (0 <= b < |chains| && 0 <= c < |chains| && 0 <= j < |chains[b]| && 0 <= k < |chains[c]| &&
       chains[b][j] == chains[c][k]) ==> b == c && j == k
  {
    hide Home;
  }

  lemma LinkedTail<V>(head: Node?<V>, ns: seq<Node<V>>, n: Node<V>)
    requires ns != [] && head == ns[0] && n.next == null && ns[|ns| - 1].next == n
    requires forall k :: 0 <= k < |ns| - 1 ==> ns[k].next == ns[k + 1]
    ensures Linked(head, ns + [n])
  {
  }

  // ----- what an insertion keeps -----

  lemma LinkedEmpty<V>(head: Node?<V>, ns: seq<Node<V>>)
    requires Linked(head, ns) && head == null
    ensures ns == []
  {
  }

  lemma LinkedFirst<V>(head: Node<V>, ns: seq<Node<V>>)
    requires Linked(head, ns)
    ensures ns != [] && ns[0] == head && head.next == At(ns, 1)
    ensures forall k :: 1 <= k < |ns| ==> ns[k].next == At(ns, k + 1)
  {
  }

  lemma LinkedOne<V>(head: Node<V>)
    requires head.next == null
    ensures Linked(head, [head])
  {
  }

  /** Putting a node behind the head of a chain. */
  lemma LinkedSecond<V>(head: Node<V>, ns: seq<Node<V>>, node: Node<V>)
    requires ns != [] && ns[0] == head && head.next == node && node.next == At(ns, 1)
    requires forall k :: 1 <= k < |ns| ==> ns[k].next == At(ns, k + 1)
    ensures Linked(head, [head, node] + ns[1..])
  {
  }

  lemma OthersApart<V>(chains: seq<seq<Node<V>>>, all: set<Node<V>>, i: nat, n: Node<V>)
    requires Filed(chains, all) && i < |chains| && n in chains[i]
    ensures forall b :: 0 <= b < |chains| && b != i ==> n !in chains[b]
    ensures forall j, k :: 0 <= j < k < |chains[i]| ==> chains[i][j] != chains[i][k]
  {
    hide Home;
  }

  /** A node put behind the head of a chain it was not in. */
  function Behind<V>(ns: seq<Node<V>>, node: Node<V>): seq<Node<V>> {
    if ns == [] then [node] else [ns[0], node] + ns[1..]
  }

  lemma BehindMembers<V>(ns: seq<Node<V>>, node: Node<V>)
    requires Distinct(ns) && node !in ns
    ensures Distinct(Behind(ns, node))
    ensures forall n :: n in Behind(ns, node) <==> n == node || n in ns
  {
    var r := Behind(ns, node);
    assert r[if ns == [] then 0 else 1] == node;
    forall n | n in ns
      ensures n in r
    {
      var k :| 0 <= k < |ns| && ns[k] == n;
      assert r[if k == 0 then 0 else k + 1] == n;
    }
  }

  lemma FiledInsert<V>(chains: seq<seq<Node<V>>>, all: set<Node<V>>, i: nat, node: Node<V>)
    requires Filed(chains, all) && i < |chains| && i == Home(|chains|, node.key) && node !in all
    ensures Filed(chains[i := Behind(chains[i], node)], all + {node})
  {
    hide Home;
    FiledIn(chains, all, i);
    BehindMembers(chains[i], node);
    var chain := Behind(chains[i], node);
    forall k | 0 <= k < |chain|
      ensures chain[k] in all + {node} && Home(|chains|, chain[k].key) == i
    {
      assert chain[k] in chain;
      assert chain[k] != node ==> chain[k] in chains[i];
    }
  }

  lemma KeysApartInsert<V>(all: set<Node<V>>, node: Node<V>)
    requires KeysApart(all) && Absent(all, node.key)
    ensures KeysApart(all + {node})
  {
  }

  lemma AgreesInsert<V>(all: set<Node<V>>, contents: map<string, V>, node: Node<V>)
    requires Agrees(all, contents) && node.key !in contents
    ensures Agrees(all + {node}, contents[node.key := node.value])
  {
    forall key | key in contents
      ensures exists n :: n in all + {node} && n.key == key
    {
      var n :| n in all && n.key == key;
    }
  }
}
