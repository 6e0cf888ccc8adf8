/**
 The stable bottom-up merge sort (MERGE_SORT.md).

 An array slot is `None` while it is vacated: staging moves elements out of the array, merging moves
 them back, and a move-in is only allowed into a vacated slot.
 */
module MergeSort {
  import opened Basics

  /** A strict weak order: `less` is the only comparison that the sort makes. */
  ghost predicate StrictWeakOrder<T(!new)>(less: (T, T) -> bool) {
    && (forall a :: !less(a, a))
    && (forall a, b, c :: less(a, b) && less(b, c) ==> less(a, c))
    && (forall a, b, c :: Tied(less, a, b) && Tied(less, b, c) ==> Tied(less, a, c))
  }

  /** Neither is smaller: the elements whose order a stable sort keeps. */
  predicate Tied<T>(less: (T, T) -> bool, a: T, b: T) {
    !less(a, b) && !less(b, a)
  }

  ghost predicate Sorted<T>(less: (T, T) -> bool, s: seq<T>) {
    forall i, j :: 0 <= i < j < |s| ==> !less(s[j], s[i])
  }

  /** The elements of `s` that tie with `x`, in order. */
  function Ties<T>(less: (T, T) -> bool, x: T, s: seq<T>): seq<T> {
    if s == [] then [] else (if Tied(less, x, s[0]) then [s[0]] else []) + Ties(less, x, s[1..])
  }

  /** Every group of tied elements appears in `t` in the order of `s`. */
  ghost predicate KeepsTies<T(!new)>(less: (T, T) -> bool, s: seq<T>, t: seq<T>) {
    forall x :: Ties(less, x, t) == Ties(less, x, s)
  }

  lemma {:induction false} TiesJoin<T>(less: (T, T) -> bool, x: T, s: seq<T>, t: seq<T>)
    ensures Ties(less, x, s + t) == Ties(less, x, s) + Ties(less, x, t)
  {
    if s == [] {
      assert s + t == t;
    } else {
      assert (s + t)[1..] == s[1..] + t && (s + t)[0] == s[0];
      TiesJoin(less, x, s[1..], t);
      var first := if Tied(less, x, s[0]) then [s[0]] else [];
      assert Ties(less, x, s + t) == first + Ties(less, x, s[1..] + t);
      assert first + (Ties(less, x, s[1..]) + Ties(less, x, t)) == first + Ties(less, x, s[1..]) + Ties(less, x, t);
    }
  }

  lemma {:induction false} TiesCount<T(!new)>(less: (T, T) -> bool, x: T, s: seq<T>)
    requires StrictWeakOrder(less)
    ensures multiset(Ties(less, x, s))[x] == multiset(s)[x]
  {
    if s != [] {
      TiesCount(less, x, s[1..]);
      assert s == [s[0]] + s[1..];
    }
  }

  /** Keeping ties is being a permutation, too. */
  lemma KeepsTiesPermutes<T(!new)>(less: (T, T) -> bool, s: seq<T>, t: seq<T>)
    requires StrictWeakOrder(less) && KeepsTies(less, s, t)
    ensures multiset(t) == multiset(s)
  {
    forall x
      ensures multiset(t)[x] == multiset(s)[x]
    {
      TiesCount(less, x, s);
      TiesCount(less, x, t);
    }
  }

  // ----- merging two runs -----

  /** The left element goes first unless the right one is strictly smaller. */
  function Merge<T>(less: (T, T) -> bool, l: seq<T>, r: seq<T>): (m: seq<T>)
    ensures |m| == |l| + |r|
    decreases |l| + |r|
  {
    if l == [] then r
    else if r == [] then l
    else if less(r[0], l[0]) then [r[0]] + Merge(less, l, r[1..])
    else [l[0]] + Merge(less, l[1..], r)
  }

  lemma {:induction false} MergeElements<T>(less: (T, T) -> bool, l: seq<T>, r: seq<T>)
    ensures forall x :: x in Merge(less, l, r) ==> x in l || x in r
    decreases |l| + |r|
  {
    if l != [] && r != [] {
      if less(r[0], l[0]) {
        MergeElements(less, l, r[1..]);
      } else {
        MergeElements(less, l[1..], r);
      }
    }
  }

  lemma {:induction false} MergeSorts<T(!new)>(less: (T, T) -> bool, l: seq<T>, r: seq<T>)
    requires StrictWeakOrder(less) && Sorted(less, l) && Sorted(less, r)
    ensures Sorted(less, Merge(less, l, r))
    decreases |l| + |r|
  {
    if l != [] && r != [] {
      if less(r[0], l[0]) {
        MergeSorts(less, l, r[1..]);
        MergeElements(less, l, r[1..]);
        FirstIsLeast(less, r[0], l, r);
      } else {
        MergeSorts(less, l[1..], r);
        MergeElements(less, l[1..], r);
        FirstIsLeast(less, l[0], l, r);
      }
    }
  }

  lemma FirstIsLeast<T(!new)>(less: (T, T) -> bool, x: T, l: seq<T>, r: seq<T>)
    requires StrictWeakOrder(less) && Sorted(less, l) && Sorted(less, r) && l != [] && r != []
    requires x == if less(r[0], l[0]) then r[0] else l[0]
    ensures forall y :: y in l || y in r ==> !less(y, x)
  {
    forall y | y in l || y in r
      ensures !less(y, x)
    {
      if y in l {
        assert !less(y, l[0]);
        NegativelyTransitive(less, r[0], y, l[0]);
        Asymmetric(less, y, r[0]);
      } else {
        assert !less(y, r[0]);
        NegativelyTransitive(less, y, r[0], l[0]);
      }
    }
  }

  lemma Asymmetric<T(!new)>(less: (T, T) -> bool, a: T, b: T)
    requires StrictWeakOrder(less)
    ensures !(less(a, b) && less(b, a))
  {
    assert less(a, b) && less(b, a) ==> less(a, a);
  }

  lemma NegativelyTransitive<T(!new)>(less: (T, T) -> bool, a: T, b: T, c: T)
    requires StrictWeakOrder(less)
    ensures less(a, c) ==> less(a, b) || less(b, c)
  {
    assert less(b, a) && less(a, c) ==> less(b, c);
    assert less(a, c) && less(c, b) ==> less(a, b);
    assert Tied(less, a, b) && Tied(less, b, c) ==> Tied(less, a, c);
  }

  /** Merging a sorted left run keeps the order of ties, left before right. */
  lemma {:induction false} MergeKeepsTies<T(!new)>(less: (T, T) -> bool, l: seq<T>, r: seq<T>, x: T)
    requires StrictWeakOrder(less) && Sorted(less, l)
    ensures Ties(less, x, Merge(less, l, r)) == Ties(less, x, l) + Ties(less, x, r)
    decreases |l| + |r|
  {
    if l == [] {
      assert Ties(less, x, l) + Ties(less, x, r) == Ties(less, x, r);
    } else if r == [] {
      assert Ties(less, x, l) + Ties(less, x, r) == Ties(less, x, l);
    } else if less(r[0], l[0]) {
      hide Ties;
      MergeKeepsTies(less, l, r[1..], x);
      TiesJoin(less, x, [r[0]], Merge(less, l, r[1..]));
      RightFirst(less, l, r, x);
    } else {
      hide Ties;
      MergeKeepsTies(less, l[1..], r, x);
      TiesJoin(less, x, [l[0]], Merge(less, l[1..], r));
      LeftFirst(less, l, r, x);
    }
  }

  lemma LeftFirst<T>(less: (T, T) -> bool, l: seq<T>, r: seq<T>, x: T)
    requires l != []
    ensures Ties(less, x, [l[0]]) + (Ties(less, x, l[1..]) + Ties(less, x, r)) == Ties(less, x, l) + Ties(less, x, r)
  {
    TiesJoin(less, x, [l[0]], l[1..]);
    assert [l[0]] + l[1..] == l;
  }

  /** Where the right run's first element is strictly smaller, no element of the left run ties with it. */
  lemma RightFirst<T(!new)>(less: (T, T) -> bool, l: seq<T>, r: seq<T>, x: T)
    requires StrictWeakOrder(less) && Sorted(less, l) && l != [] && r != [] && less(r[0], l[0])
    ensures Ties(less, x, [r[0]]) + (Ties(less, x, l) + Ties(less, x, r[1..])) == Ties(less, x, l) + Ties(less, x, r)
  {
    hide Ties;
    LeftFirst(less, r, [], x);
    assert [r[0]] + r[1..] == r;
    TiesJoin(less, x, [r[0]], r[1..]);
    if Tied(less, x, r[0]) {
      SmallerHasNoTies(less, r[0], l, x);
    } else {
      AloneIsNoTie(less, r[0], x);
    }
  }

  lemma AloneIsNoTie<T>(less: (T, T) -> bool, y: T, x: T)
    requires !Tied(less, x, y)
    ensures Ties(less, x, [y]) == []
  {
  }

  lemma {:induction false} SmallerHasNoTies<T(!new)>(less: (T, T) -> bool, y: T, l: seq<T>, x: T)
    requires StrictWeakOrder(less) && Tied(less, x, y) && Sorted(less, l) && (l != [] ==> less(y, l[0]))
    ensures Ties(less, x, l) == []
  {
    if l != [] {
      assert Tied(less, y, x);
      assert Tied(less, x, l[0]) ==> Tied(less, y, l[0]);
      if |l| > 1 {
        assert !less(l[1], l[0]);
        NegativelyTransitive(less, y, l[1], l[0]);
      }
      SmallerHasNoTies(less, y, l[1..], x);
    }
  }

  // ----- arrays with vacated slots -----

  /** A move out of a slot vacates it. */
  method MoveOut<T>(a: array<Option<T>>, i: nat) returns (x: T)
    requires i < a.Length && a[i].Some?
    modifies a
    ensures Some(x) == old(a[i]) && a[..] == old(a[..])[i := None]
  {
    x := a[i].value;
    a[i] := None;
  }

  /** A move into a slot is allowed only while the slot is vacated. */
  method MoveIn<T>(a: array<Option<T>>, i: nat, x: T)
    requires i < a.Length && a[i].None?
    modifies a
    ensures a[..] == old(a[..])[i := Some(x)]
  {
    a[i] := Some(x);
  }

  /**
   Stages the sorted left run out of the array and merges it back with the sorted right run. Every move
   in the merge goes to a vacated slot, and no slot is left vacated.
   */
  method MergeBy<T>(a: array<Option<T>>, less: (T, T) -> bool, lo: nat, mid: nat, hi: nat)
    requires lo <= mid < hi < a.Length && Full(a[..])
    modifies a
    ensures Full(a[..])
    ensures Values(a[..]) == Merged(less, old(Values(a[..])), lo, mid + 1, hi + 1)
  {
    hide Merge, Staged, Merging, Pending, Values, Full;
    ghost var was := Values(a[..]);
    var buf := StageLeft(a, lo, mid + 1);
    ghost var right := was[mid + 1..hi + 1];
    StagedMerges(a[..], was, lo, mid + 1);
    PendingStarts(less, buf, right);
    var i, l, r, heads := MergeHeads(a, less, lo, mid, hi, buf, was);
    ghost var done := MoveLeftTail(a, less, lo, mid, hi, buf, was, i, l, r, heads);
    PendingEnds(less, buf, right, r - mid - 1, done);
    MergingEnds(a[..], was, lo, done, mid + 1, hi + 1, right);
  }

  /** Merges while both runs have elements: `i` is the write head, `l` and `r` are the heads of the runs. */
  method MergeHeads<T>(a: array<Option<T>>, less: (T, T) -> bool, lo: nat, mid: nat, hi: nat, buf: seq<T>,
                       ghost was: seq<T>)
    returns (i: nat, l: nat, r: nat, ghost done: seq<T>)
    requires lo <= mid < hi < a.Length == |was| && buf == was[lo..mid + 1] && Merging(a[..], was, lo, [], mid + 1)
    modifies a
    ensures l <= |buf| && mid + 1 <= r <= hi + 1 && (l == |buf| || r == hi + 1)
    ensures i == lo + |done| && |done| == l + (r - mid - 1)
    ensures Merging(a[..], was, lo, done, r)
    ensures Pending(less, buf, was[mid + 1..hi + 1], l, r - mid - 1, done)
  {
    hide Merge, Merging, Pending;
    ghost var right := was[mid + 1..hi + 1];
    done := [];
    PendingStarts(less, buf, right);
    i, l, r := lo, 0, mid + 1;
    while l < |buf| && r <= hi
      invariant l <= |buf| && mid + 1 <= r <= hi + 1
      invariant i == lo + |done| && |done| == l + (r - mid - 1)
      invariant Merging(a[..], was, lo, done, r)
      invariant Pending(less, buf, right, l, r - mid - 1, done)
    {
      Vacated(a[..], was, lo, done, r);
      PendingStep(less, buf, right, l, r - mid - 1, done);
      if less(a[r].value, buf[l]) {
        MergingMoves(a[..], was, lo, done, r, was[r], r + 1);
        var x := MoveOut(a, r);
        MoveIn(a, i, x);
        done := done + [x];
        r := r + 1;
      } else {
        MergingMoves(a[..], was, lo, done, r, buf[l], r);
        MoveIn(a, i, buf[l]);
        done := done + [buf[l]];
        l := l + 1;
      }
      i := i + 1;
    }
  }

  /** Moves the left tail, if any, into the vacated slots; the result is everything written. */
  method MoveLeftTail<T>(a: array<Option<T>>, less: (T, T) -> bool, lo: nat, mid: nat, hi: nat, buf: seq<T>,
                         ghost was: seq<T>, from: nat, head: nat, r: nat, ghost heads: seq<T>)
    returns (ghost done: seq<T>)
    requires lo <= mid < hi < a.Length == |was| && |buf| == mid + 1 - lo
    requires head <= |buf| && mid + 1 <= r <= hi + 1 && (head == |buf| || r == hi + 1)
    requires from == lo + |heads| && |heads| == head + (r - mid - 1)
    requires Merging(a[..], was, lo, heads, r)
    requires Pending(less, buf, was[mid + 1..hi + 1], head, r - mid - 1, heads)
    modifies a
    ensures |done| == r - lo && Merging(a[..], was, lo, done, r)
    ensures Pending(less, buf, was[mid + 1..hi + 1], |buf|, r - mid - 1, done)
  {
    hide Merge, Merging, Pending;
    ghost var right := was[mid + 1..hi + 1];
    done := heads;
    var i, l := from, head;
    while l < |buf|
      invariant l <= |buf|
      invariant i == lo + |done| && |done| == l + (r - mid - 1)
      invariant Merging(a[..], was, lo, done, r)
      invariant Pending(less, buf, right, l, r - mid - 1, done)
    {
      Vacated(a[..], was, lo, done, r);
      PendingStep(less, buf, right, l, r - mid - 1, done);
      MergingMoves(a[..], was, lo, done, r, buf[l], r);
      MoveIn(a, i, buf[l]);
      done := done + [buf[l]];
      l := l + 1;
      i := i + 1;
    }
  }

  /** Moves the elements of `[lo, upto)` out into a fresh buffer. */
  method StageLeft<T>(a: array<Option<T>>, lo: nat, upto: nat) returns (buf: seq<T>)
    requires lo <= upto <= a.Length && Full(a[..])
    modifies a
    ensures buf == old(Values(a[..]))[lo..upto]
    ensures Staged(a[..], old(Values(a[..])), lo, upto)
  {
    ghost var was := Values(a[..]);
    buf := [];
    for s := lo to upto
      invariant buf == was[lo..s]
      invariant Staged(a[..], was, lo, s)
    {
      var x := MoveOut(a, s);
      buf := buf + [x];
    }
  }

  lemma StagedMerges<T>(s: seq<Option<T>>, was: seq<T>, lo: nat, mid: nat)
    requires Staged(s, was, lo, mid)
    ensures Merging(s, was, lo, [], mid)
  {
  }

  lemma Vacated<T>(s: seq<Option<T>>, was: seq<T>, lo: nat, done: seq<T>, r: nat)
    requires Merging(s, was, lo, done, r)
    ensures |s| == |was| && lo + |done| <= r <= |s|
    ensures lo + |done| < r ==> s[lo + |done|] == None
    ensures r < |s| ==> s[r] == Some(was[r])
  {
  }

  /** One move-in at the write head; a right move vacates the slot at the right head first. */
  lemma MergingMoves<T>(s: seq<Option<T>>, was: seq<T>, lo: nat, done: seq<T>, r: nat, x: T, next: nat)
    requires Merging(s, was, lo, done, r) && lo + |done| < r
    requires next == r || (next == r + 1 && r < |s|)
    ensures Merging((if next == r then s else s[r := None])[lo + |done| := Some(x)], was, lo, done + [x], next)
  {
  }

  /** What is written plus the merge of what is left is the whole merge. */
  ghost predicate Pending<T>(less: (T, T) -> bool, left: seq<T>, right: seq<T>, l: nat, r: nat, done: seq<T>) {
    && l <= |left| && r <= |right|
    && done + Merge(less, left[l..], right[r..]) == Merge(less, left, right)
  }

  lemma PendingStarts<T>(less: (T, T) -> bool, left: seq<T>, right: seq<T>)
    ensures Pending(less, left, right, 0, 0, [])
  {
    assert left[0..] == left && right[0..] == right;
  }

  lemma PendingStep<T>(less: (T, T) -> bool, left: seq<T>, right: seq<T>, l: nat, r: nat, done: seq<T>)
    requires Pending(less, left, right, l, r, done) && l < |left|
    ensures r < |right| && less(right[r], left[l]) ==> Pending(less, left, right, l, r + 1, done + [right[r]])
    ensures r == |right| || !less(right[r], left[l]) ==> Pending(less, left, right, l + 1, r, done + [left[l]])
  {
    assert left[l..] == [left[l]] + left[l + 1..];
    if r < |right| && less(right[r], left[l]) {
      assert right[r..][1..] == right[r + 1..];
      assert done + ([right[r]] + Merge(less, left[l..], right[r + 1..])) ==
             done + [right[r]] + Merge(less, left[l..], right[r + 1..]);
    } else {
      assert Merge(less, left[l..], right[r..]) == [left[l]] + Merge(less, left[l + 1..], right[r..]);
      assert done + ([left[l]] + Merge(less, left[l + 1..], right[r..])) ==
             done + [left[l]] + Merge(less, left[l + 1..], right[r..]);
    }
  }

  /** Once the left run is used up, the rest of the right run is already in place. */
  lemma PendingEnds<T>(less: (T, T) -> bool, left: seq<T>, right: seq<T>, r: nat, done: seq<T>)
    requires Pending(less, left, right, |left|, r, done)
    ensures r <= |right| && done + right[r..] == Merge(less, left, right)
  {
  }

  lemma MergingEnds<T>(s: seq<Option<T>>, was: seq<T>, lo: nat, done: seq<T>, mid: nat, hi: nat, right: seq<T>)
    requires lo <= mid <= lo + |done| <= hi <= |was| == |s| && right == was[mid..hi]
    requires Merging(s, was, lo, done, lo + |done|)
    ensures Full(s)
    ensures Values(s) == was[..lo] + (done + right[lo + |done| - mid..]) + was[hi..]
  {
    assert right[lo + |done| - mid..] == was[lo + |done|..hi];
  }

  /** The values after the runs `[lo, mid)` and `[mid, hi)` are merged. */
  function Merged<T>(less: (T, T) -> bool, v: seq<T>, lo: nat, mid: nat, hi: nat): (m: seq<T>)
    requires lo <= mid <= hi <= |v|
    ensures |m| == |v|
  {
    v[..lo] + Merge(less, v[lo..mid], v[mid..hi]) + v[hi..]
  }

  /** While a run is staged, exactly its slots from `lo` up to `s` are vacated. */
  ghost predicate Staged<T>(s: seq<Option<T>>, was: seq<T>, lo: nat, upto: nat) {
    && |s| == |was| && lo <= upto <= |s|
    && forall k :: 0 <= k < |s| ==> s[k] == if lo <= k < upto then None else Some(was[k])
  }

  /** While runs are merged, exactly the slots between the write head and the right run's head are vacated. */
  ghost predicate Merging<T>(s: seq<Option<T>>, was: seq<T>, lo: nat, done: seq<T>, r: nat) {
    && |s| == |was| && lo + |done| <= r <= |s|
    && (forall k :: 0 <= k < lo ==> s[k] == Some(was[k]))
    && (forall k :: lo <= k < lo + |done| ==> s[k] == Some(done[k - lo]))
    && (forall k :: lo + |done| <= k < r ==> s[k] == None)
    && (forall k :: r <= k < |s| ==> s[k] == Some(was[k]))
  }

  // ----- runs of doubling width -----

  /** Cut into runs of width `w`, the last one perhaps shorter, every run is sorted. */
  ghost predicate RunsSorted<T>(less: (T, T) -> bool, s: seq<T>, w: nat)
    requires w > 0
  {
    if |s| <= w then Sorted(less, s) else Sorted(less, s[..w]) && RunsSorted(less, s[w..], w)
  }

  /** As `RunsSorted`, with no shorter run at the end. */
  ghost predicate WholeRuns<T>(less: (T, T) -> bool, s: seq<T>, w: nat)
    requires w > 0
  {
    s == [] || (|s| >= w && Sorted(less, s[..w]) && WholeRuns(less, s[w..], w))
  }

  lemma {:induction false} SinglesSorted<T>(less: (T, T) -> bool, s: seq<T>)
    ensures RunsSorted(less, s, 1)
  {
    if |s| > 1 {
      SinglesSorted(less, s[1..]);
    }
  }

  lemma {:induction false} AddRun<T>(less: (T, T) -> bool, s: seq<T>, run: seq<T>, w: nat)
    requires w > 0 && WholeRuns(less, s, w) && Sorted(less, run) && |run| <= w
    ensures RunsSorted(less, s + run, w)
    ensures |run| == w ==> WholeRuns(less, s + run, w)
  {
    if s == [] {
      assert s + run == run;
      assert |run| == w ==> run[..w] == run && run[w..] == [];
    } else {
      AddRun(less, s[w..], run, w);
      assert (s + run)[..w] == s[..w];
      assert (s + run)[w..] == s[w..] + run;
      assert |s + run| == w ==> (s + run)[..w] == s + run;
    }
  }

  lemma MergedKeepsTies<T(!new)>(less: (T, T) -> bool, v: seq<T>, lo: nat, mid: nat, hi: nat)
    requires StrictWeakOrder(less) && lo <= mid <= hi <= |v| && Sorted(less, v[lo..mid])
    ensures KeepsTies(less, v, Merged(less, v, lo, mid, hi))
  {
    var l, r := v[lo..mid], v[mid..hi];
    assert v == v[..lo] + (l + r) + v[hi..];
    forall x
      ensures Ties(less, x, Merged(less, v, lo, mid, hi)) == Ties(less, x, v)
    {
      hide Ties, Merge;
      MergeKeepsTies(less, l, r, x);
      TiesJoin(less, x, l, r);
      TiesJoin(less, x, v[..lo], l + r);
      TiesJoin(less, x, v[..lo], Merge(less, l, r));
      TiesJoin(less, x, v[..lo] + (l + r), v[hi..]);
      TiesJoin(less, x, v[..lo] + Merge(less, l, r), v[hi..]);
    }
  }

  /** In the middle of a level: whole doubled runs up to `lo`, runs of the level's width from there. */
  ghost predicate LevelAt<T>(less: (T, T) -> bool, v: seq<T>, w: nat, lo: nat) {
    && w > 0
    && if lo < |v| then WholeRuns(less, v[..lo], 2 * w) && RunsSorted(less, v[lo..], w) else RunsSorted(less, v, 2 * w)
  }

  lemma LastRunAlone<T>(less: (T, T) -> bool, v: seq<T>, w: nat, lo: nat)
    requires LevelAt(less, v, w, lo) && lo < |v| <= lo + w
    ensures RunsSorted(less, v, 2 * w)
  {
    AddRun(less, v[..lo], v[lo..], 2 * w);
    assert v[..lo] + v[lo..] == v;
  }

  lemma FirstRun<T>(less: (T, T) -> bool, s: seq<T>, w: nat)
    requires w > 0 && RunsSorted(less, s, w)
    ensures |s| <= w ==> Sorted(less, s)
    ensures |s| > w ==> Sorted(less, s[..w]) && RunsSorted(less, s[w..], w)
  {
  }

  /** Merging the next two runs moves the level on by twice its width. */
  lemma NextPair<T(!new)>(less: (T, T) -> bool, v: seq<T>, w: nat, lo: nat, hi: nat)
    requires StrictWeakOrder(less) && LevelAt(less, v, w, lo) && lo + w < |v|
    requires hi == if lo + 2 * w < |v| then lo + 2 * w else |v|
    ensures Sorted(less, v[lo..lo + w])
    ensures LevelAt(less, Merged(less, v, lo, lo + w, hi), w, lo + 2 * w)
  {
    hide Merge;
    var l, r := v[lo..lo + w], v[lo + w..hi];
    assert v[lo..][..w] == l && v[lo..][w..] == v[lo + w..];
    FirstRun(less, v[lo..], w);
    assert hi == |v| ==> r == v[lo + w..];
    assert hi < |v| ==> r == v[lo + w..][..w] && v[lo + w..][w..] == v[hi..];
    FirstRun(less, v[lo + w..], w);
    hide RunsSorted, WholeRuns, Sorted;
    MergeSorts(less, l, r);
    var m := Merge(less, l, r);
    var n := Merged(less, v, lo, lo + w, hi);
    AddRun(less, v[..lo], m, 2 * w);
    assert hi < |v| ==> n[..hi] == v[..lo] + m && n[hi..] == v[hi..];
    assert hi == |v| ==> n == v[..lo] + m;
  }

  /** The bottom-up sort: the result is sorted and keeps every group of tied elements in its order. */
  method Sort<T(!new)>(a: array<Option<T>>, less: (T, T) -> bool)
    requires StrictWeakOrder(less) && Full(a[..])
    modifies a
    ensures Full(a[..])
    ensures Sorted(less, Values(a[..]))
    ensures KeepsTies(less, old(Values(a[..])), Values(a[..]))
    ensures multiset(Values(a[..])) == multiset(old(Values(a[..])))
  {
    hide StrictWeakOrder, KeepsTies, RunsSorted, Merged, LevelAt;
    ghost var was := Values(a[..]);
    KeepsTiesSelf(less, was);
    if a.Length < 2 {
      return;
    }
    var n := a.Length;
    var width: nat := 1;
    SinglesSorted(less, was);
    while width < n
      invariant width >= 1
      invariant Full(a[..])
      invariant KeepsTies(less, was, Values(a[..]))
      invariant RunsSorted(less, Values(a[..]), width)
      decreases n - width
    {
      var lo: nat := 0;
      LevelStarts(less, Values(a[..]), width);
      while lo < n
        invariant Full(a[..])
        invariant KeepsTies(less, was, Values(a[..]))
        invariant LevelAt(less, Values(a[..]), width, lo)
      {
        ghost var v := Values(a[..]);
        var mid := lo + width - 1;
        if mid >= n - 1 {
          LastRunAlone(less, v, width, lo);
          lo := n;
          LevelEnds(less, v, width, lo);
          break;
        }
        var hi := lo + 2 * width - 1;
        if hi > n - 1 {
          hi := n - 1;
        }
        MergeBy(a, less, lo, mid, hi);
        NextPair(less, v, width, lo, hi + 1);
        MergedKeepsTies(less, v, lo, mid + 1, hi + 1);
        KeepsTiesJoin(less, was, v, Values(a[..]));
        lo := lo + 2 * width;
      }
      LevelEnds(less, Values(a[..]), width, lo);
      width := 2 * width;
    }
    AllOneRun(less, Values(a[..]), width);
    KeepsTiesPermutes(less, was, Values(a[..]));
  }

  lemma KeepsTiesSelf<T(!new)>(less: (T, T) -> bool, s: seq<T>)
    ensures KeepsTies(less, s, s)
  {
  }

  lemma KeepsTiesJoin<T(!new)>(less: (T, T) -> bool, s: seq<T>, t: seq<T>, u: seq<T>)
    requires KeepsTies(less, s, t) && KeepsTies(less, t, u)
    ensures KeepsTies(less, s, u)
  {
    hide Ties;
  }

  lemma LevelStarts<T>(less: (T, T) -> bool, v: seq<T>, w: nat)
    requires w > 0 && v != [] && RunsSorted(less, v, w)
    ensures LevelAt(less, v, w, 0)
  {
    assert v[0..] == v;
  }

  lemma LevelEnds<T>(less: (T, T) -> bool, v: seq<T>, w: nat, lo: nat)
    requires w > 0 && lo >= |v|
    ensures LevelAt(less, v, w, lo) <==> RunsSorted(less, v, 2 * w)
  {
  }

  lemma AllOneRun<T>(less: (T, T) -> bool, v: seq<T>, w: nat)
    requires w > 0 && |v| <= w && RunsSorted(less, v, w)
    ensures Sorted(less, v)
  {
  }
}
