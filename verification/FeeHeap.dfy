/** The fee-ordered heap of the mempool (feeHeap in internal/mempool/mempool.go, moved
    by the sift operations of Go's container/heap). */
module FeeHeaps {
  import opened Types
  import opened Bytes
  import Target

  /** A pooled transaction with its metadata. */
  datatype TxEntry = TxEntry(tx: Transaction, hash: Hash, fee: U64, feeRate: nat, size: nat, addedAt: int)

  /** a is evicted before b: lower fee rate, then lower hash. */
  predicate Before(a: TxEntry, b: TxEntry) {
    a.feeRate < b.feeRate || (a.feeRate == b.feeRate && LittleEndian(a.hash) < LittleEndian(b.hash))
  }

  /** a pays no higher fee rate than b, and at the same rate has no higher hash. */
  predicate PaysLeast(a: TxEntry, b: TxEntry) {
    a.feeRate <= b.feeRate && (a.feeRate == b.feeRate ==> LittleEndian(a.hash) <= LittleEndian(b.hash))
  }

  lemma NotBefore(a: TxEntry, b: TxEntry)
    ensures !Before(b, a) <==> PaysLeast(a, b)
  {
  }

  lemma BeforeTransitive(a: TxEntry, b: TxEntry, c: TxEntry)
    requires !Before(b, a) && !Before(c, b)
    ensures !Before(c, a)
  {
    hide LittleEndian;
  }

  // ---------- The heap order on a sequence ----------

  function Parent(i: nat): nat
    requires i > 0
  {
    (i - 1) / 2
  }

  /** Item i is not evicted before its parent. */
  ghost predicate EdgeOk(s: seq<TxEntry>, i: nat) {
    0 < i < |s| && !Before(s[i], s[Parent(i)])
  }

  ghost predicate Ordered(s: seq<TxEntry>) {
    forall i :: 0 < i < |s| ==> EdgeOk(s, i)
  }

  /** In order, the first item is evicted before all others. */
  lemma {:induction false} FirstIsLeast(s: seq<TxEntry>, i: nat)
    requires Ordered(s) && i < |s|
    ensures !Before(s[i], s[0]) && PaysLeast(s[0], s[i])
  {
    hide Before;
    hide PaysLeast;
    NotBefore(s[0], s[i]);
    if i > 0 {
      assert EdgeOk(s, i);
      FirstIsLeast(s, Parent(i));
      BeforeTransitive(s[0], s[Parent(i)], s[i]);
    } else {
      BeforeIrreflexive(s[0]);
    }
  }

  lemma BeforeIrreflexive(a: TxEntry)
    ensures !Before(a, a)
  {
  }

  lemma BeforeAsymmetric(a: TxEntry, b: TxEntry)
    requires Before(a, b)
    ensures !Before(b, a)
  {
    hide LittleEndian;
  }

  /** All edges among the first n items are in order, except possibly those at item j:
      to its parent if `up`, to its children if `down`. Around j the order skips it. */
  ghost predicate OrderedBut(s: seq<TxEntry>, n: nat, j: nat, up: bool, down: bool) {
    && n <= |s|
    && (forall i :: 0 < i < n && !(up && i == j) && !(down && Parent(i) == j) ==> EdgeOk(s, i))
    && (forall i :: 0 < i < n && 0 < j && Parent(i) == j ==> SkipOk(s, i, j))
  }

  ghost predicate SkipOk(s: seq<TxEntry>, i: nat, j: nat) {
    0 < j < |s| && i < |s| && !Before(s[i], s[Parent(j)])
  }

  function Swapped(s: seq<TxEntry>, i: nat, j: nat): seq<TxEntry>
    requires i < |s| && j < |s|
  {
    s[i := s[j]][j := s[i]]
  }

  /** The index map names the position of every item. */
  ghost predicate IndexOk(s: seq<TxEntry>, heapIdx: map<Hash, int>) {
    forall i :: 0 <= i < |s| ==> s[i].hash in heapIdx && heapIdx[s[i].hash] == i
  }

  ghost predicate SameItems(s: seq<TxEntry>, t: seq<TxEntry>) {
    |s| == |t| && forall e :: e in s <==> e in t
  }

  lemma SwapKeepsItems(s: seq<TxEntry>, i: nat, j: nat)
    requires i < |s| && j < |s|
    ensures SameItems(s, Swapped(s, i, j))
  {
    var t := Swapped(s, i, j);
    forall e | e in s ensures e in t {
      var k :| 0 <= k < |s| && s[k] == e;
      assert t[if k == i then j else if k == j then i else k] == e;
    }
  }

  /** Moving item j up past its parent. */
  lemma {:induction false} SwapUp(s: seq<TxEntry>, n: nat, j: nat)
    requires OrderedBut(s, n, j, true, false) && 0 < j < n && Before(s[j], s[Parent(j)])
    ensures OrderedBut(Swapped(s, Parent(j), j), n, Parent(j), true, false)
  {
    hide Before;
    var p, t := Parent(j), Swapped(s, Parent(j), j);
    BeforeAsymmetric(s[j], s[p]);
    forall i | 0 < i < n && i != p ensures EdgeOk(t, i) {
      if i == j {
      } else if Parent(i) == j {
        assert SkipOk(s, i, j);
      } else if Parent(i) == p {
        assert EdgeOk(s, i);
        BeforeTransitive(s[j], s[p], s[i]);
      } else {
        assert EdgeOk(s, i);
      }
    }
    forall i | 0 < i < n && 0 < p && Parent(i) == p ensures SkipOk(t, i, p) {
      assert EdgeOk(s, p);
      if i != j {
        assert EdgeOk(s, i);
        BeforeTransitive(s[Parent(p)], s[p], s[i]);
      }
    }
  }

  /** Moving item j down past its lesser child c; this also mends the edge to the parent. */
  lemma {:induction false} SwapDown(s: seq<TxEntry>, n: nat, j: nat, c: nat)
    requires OrderedBut(s, n, j, true, true) && 0 < c < n && Parent(c) == j && Before(s[c], s[j])
    requires forall i :: 0 < i < n && Parent(i) == j ==> !Before(s[i], s[c])
    ensures OrderedBut(Swapped(s, j, c), n, c, false, true)
  {
    hide Before;
    var t := Swapped(s, j, c);
    BeforeAsymmetric(s[c], s[j]);
    forall i | 0 < i < n && Parent(i) != c ensures EdgeOk(t, i) {
      if i == j {
        assert SkipOk(s, c, j);
      } else if Parent(i) != j {
        assert EdgeOk(s, i);
      }
    }
    forall i | 0 < i < n && Parent(i) == c ensures SkipOk(t, i, c) {
      assert EdgeOk(s, i);
    }
  }

  lemma {:induction false} StopDown(s: seq<TxEntry>, n: nat, j: nat, up: bool)
    requires OrderedBut(s, n, j, up, true)
    requires forall i :: 0 < i < n && Parent(i) == j ==> !Before(s[i], s[j])
    ensures OrderedBut(s, n, j, up, false)
  {
    hide Before;
    forall i | 0 < i < n && !(up && i == j) ensures EdgeOk(s, i) {
      if Parent(i) != j {
        assert EdgeOk(s, i);
      }
    }
  }

  class FeeHeap {
    var items: seq<TxEntry>
    var heapIdx: map<Hash, int>

    ghost predicate Valid()
      reads this
    {
      IndexOk(items, heapIdx) && Ordered(items)
    }

    constructor ()
      ensures items == [] && heapIdx == map[] && Valid()
    {
      items, heapIdx := [], map[];
    }

    method Less(i: nat, j: nat) returns (less: bool)
      requires i < |items| && j < |items|
      ensures less == Before(items[i], items[j])
      ensures items[i].feeRate != items[j].feeRate ==> less == (items[i].feeRate < items[j].feeRate)
      ensures items[i].feeRate == items[j].feeRate ==>
        less == (LittleEndian(items[i].hash) < LittleEndian(items[j].hash))
    {
      if items[i].feeRate != items[j].feeRate {
        return items[i].feeRate < items[j].feeRate;
      }
      less := Target.Less(items[i].hash, items[j].hash);
    }

    method Swap(i: nat, j: nat)
      requires i < |items| && j < |items| && IndexOk(items, heapIdx)
      modifies this
      ensures items == Swapped(old(items), i, j) && IndexOk(items, heapIdx) && SameItems(old(items), items)
      ensures heapIdx.Keys == old(heapIdx).Keys
    {
      SwapKeepsItems(items, i, j);
      var a, b := items[i], items[j];
      items := items[i := b][j := a];
      heapIdx := heapIdx[b.hash := i];
      heapIdx := heapIdx[a.hash := j];
    }

    /** Moves item `at` up to its place among the first n items. */
    method Up(at: nat, ghost n: nat)
      requires at < n <= |items| && IndexOk(items, heapIdx) && OrderedBut(items, n, at, true, false)
      modifies this
      ensures IndexOk(items, heapIdx) && SameItems(old(items), items) && heapIdx.Keys == old(heapIdx).Keys
      ensures items[n..] == old(items)[n..] && forall i :: 0 < i < n ==> EdgeOk(items, i)
    {
      hide Before;
      hide IndexOk;
      hide EdgeOk;
      var j := at;
      while true
        invariant 0 <= j < n <= |items| && IndexOk(items, heapIdx) && OrderedBut(items, n, j, true, false)
        invariant SameItems(old(items), items) && heapIdx.Keys == old(heapIdx).Keys && items[n..] == old(items)[n..]
        decreases j
      {
        var i := if j == 0 then 0 else (j - 1) / 2;
        if i == j {
          break;
        }
        var less := Less(j, i);
        if !less {
          InPlace(items, j);
          break;
        }
        SwapUp(items, n, j);
        Swap(i, j);
        j := i;
      }
    }

    /** Moves item `at` down among the first n items; reports whether it moved. */
    method Down(at: nat, n: nat) returns (moved: bool)
      requires at < |items| && n <= |items| && IndexOk(items, heapIdx) && OrderedBut(items, n, at, true, true)
      modifies this
      ensures IndexOk(items, heapIdx) && SameItems(old(items), items) && heapIdx.Keys == old(heapIdx).Keys
      ensures items[n..] == old(items)[n..]
      ensures moved ==> forall i :: 0 < i < n ==> EdgeOk(items, i)
      ensures !moved ==> items == old(items) && OrderedBut(items, n, at, true, false)
    {
      hide Before;
      hide IndexOk;
      var i := at;
      while true
        invariant at <= i < |items| && |items| == |old(items)| && IndexOk(items, heapIdx)
        invariant i > at ==> i < n
        invariant OrderedBut(items, n, i, i == at, true)
        invariant SameItems(old(items), items) && heapIdx.Keys == old(heapIdx).Keys
        invariant items[n..] == old(items)[n..] && (i == at ==> items == old(items))
        decreases |items| - i
      {
        var j1 := 2 * i + 1;
        if j1 >= n {
          break;
        }
        var j := LesserChild(j1, n);
        var less := Less(j, i);
        if !less {
          NotAboveChildren(items, n, i, j);
          break;
        }
        SwapDown(items, n, i, j);
        Swap(i, j);
        i := j;
      }
      StopDown(items, n, i, i == at);
      moved := i > at;
    }

    method LesserChild(j1: nat, n: nat) returns (j: nat)
      requires j1 % 2 == 1 && j1 < n <= |items|
      ensures 0 < j < n && Parent(j) == Parent(j1) && j >= j1
      ensures forall i :: 0 < i < n && Parent(i) == Parent(j1) ==> !Before(items[i], items[j])
    {
      hide Before;
      BeforeIrreflexive(items[j1]);
      j := j1;
      var j2 := j1 + 1;
      if j2 < n {
        BeforeIrreflexive(items[j2]);
        var less := Less(j2, j1);
        if less {
          BeforeAsymmetric(items[j2], items[j1]);
          j := j2;
        }
      }
      assert forall i :: 0 < i < n && Parent(i) == Parent(j1) ==> i == j1 || i == j2;
    }

    /** heap.Push. */
    method Push(e: TxEntry)
      requires Valid() && (forall i :: 0 <= i < |items| ==> items[i].hash != e.hash)
      modifies this
      ensures Valid() && |items| == |old(items)| + 1 && forall x :: x in items <==> x in old(items) || x == e
      ensures heapIdx.Keys == old(heapIdx).Keys + {e.hash}
    {
      hide Before;
      heapIdx := heapIdx[e.hash := |items|];
      items := items + [e];
      PushedEdges(old(items), e);
      Up(|items| - 1, |items|);
    }

    /** Removes the last item of the slice. */
    method DropLast() returns (e: TxEntry)
      requires |items| > 0 && IndexOk(items, heapIdx)
      modifies this
      ensures items == old(items)[..|old(items)| - 1] && e == old(items)[|old(items)| - 1]
      ensures IndexOk(items, heapIdx) && e.hash in heapIdx && heapIdx[e.hash] == -1
      ensures heapIdx.Keys == old(heapIdx).Keys
    {
      var n := |items|;
      e := items[n - 1];
      heapIdx := heapIdx[e.hash := -1];
      items := items[..n - 1];
    }

    /** heap.Pop: removes the item that is evicted before all others. */
    method Pop() returns (e: TxEntry)
      requires Valid() && |items| > 0
      modifies this
      ensures Valid() && |items| == |old(items)| - 1 && forall x :: x in items <==> x in old(items) && x != e
      ensures e in old(items) && forall x :: x in old(items) ==> PaysLeast(e, x)
      ensures e.hash in heapIdx && heapIdx[e.hash] == -1 && heapIdx.Keys == old(heapIdx).Keys
    {
      hide Before;
      hide PaysLeast;
      hide IndexOk;
      hide EdgeOk;
      hide OrderedBut;
      var n := |items| - 1;
      ghost var before := items;
      LeastFirst(items);
      LastSwapped(items, 0);
      Swap(0, n);
      ghost var parked := items[n];
      var moved := Down(0, n);
      assert items[n..][0] == parked;
      if !moved {
        RootHasNoParent(items, n);
      }
      DroppedItems(before, items, heapIdx);
      e := DropLast();
    }

    /** heap.Remove: removes the item at position i. */
    method RemoveAt(i: nat) returns (e: TxEntry)
      requires Valid() && i < |items|
      modifies this
      ensures Valid() && |items| == |old(items)| - 1 && e == old(items)[i]
      ensures forall x :: x in items <==> x in old(items) && x != e
      ensures e.hash in heapIdx && heapIdx[e.hash] == -1 && heapIdx.Keys == old(heapIdx).Keys
    {
      hide Before;
      hide IndexOk;
      hide EdgeOk;
      hide OrderedBut;
      var n := |items| - 1;
      ghost var before := items;
      if n != i {
        LastSwapped(items, i);
        Swap(i, n);
        ghost var parked := items[n];
        var moved := Down(i, n);
        if !moved {
          Up(i, n);
        }
        assert items[n..][0] == parked;
      }
      DroppedItems(before, items, heapIdx);
      e := DropLast();
    }
  }

  // ---------- Steps of the heap operations ----------

  lemma InPlace(s: seq<TxEntry>, j: nat)
    requires 0 < j < |s| && !Before(s[j], s[Parent(j)])
    ensures EdgeOk(s, j)
  {
  }

  lemma NotAboveChildren(s: seq<TxEntry>, n: nat, i: nat, j: nat)
    requires j < n <= |s| && i < |s| && !Before(s[j], s[i])
    requires forall k :: 0 < k < n && Parent(k) == i ==> !Before(s[k], s[j])
    ensures forall k :: 0 < k < n && Parent(k) == i ==> !Before(s[k], s[i])
  {
    hide Before;
    forall k | 0 < k < n && Parent(k) == i ensures !Before(s[k], s[i]) {
      BeforeTransitive(s[i], s[j], s[k]);
    }
  }

  lemma PushedEdges(s: seq<TxEntry>, e: TxEntry)
    requires Ordered(s)
    ensures OrderedBut(s + [e], |s| + 1, |s|, true, false)
  {
    hide Before;
    forall i | 0 < i < |s| ensures EdgeOk(s + [e], i) {
      assert EdgeOk(s, i);
    }
  }

  lemma {:induction false} LastSwapped(s: seq<TxEntry>, i: nat)
    requires Ordered(s) && i < |s|
    ensures OrderedBut(Swapped(s, i, |s| - 1), |s| - 1, i, true, true)
  {
    hide Before;
    var n, t := |s| - 1, Swapped(s, i, |s| - 1);
    forall k | 0 < k < n && k != i && Parent(k) != i ensures EdgeOk(t, k) {
      assert EdgeOk(s, k);
    }
    forall k | 0 < k < n && 0 < i && Parent(k) == i ensures SkipOk(t, k, i) {
      assert EdgeOk(s, k) && EdgeOk(s, i);
      BeforeTransitive(s[Parent(i)], s[i], s[k]);
    }
  }

  lemma RootHasNoParent(s: seq<TxEntry>, n: nat)
    requires OrderedBut(s, n, 0, true, false)
    ensures forall i :: 0 < i < n ==> EdgeOk(s, i)
  {
  }

  lemma LeastFirst(s: seq<TxEntry>)
    requires Ordered(s) && |s| > 0
    ensures forall x :: x in s ==> PaysLeast(s[0], x)
  {
    hide Before;
    hide PaysLeast;
    forall x | x in s ensures PaysLeast(s[0], x) {
      var i :| 0 <= i < |s| && s[i] == x;
      FirstIsLeast(s, i);
    }
  }

  /** Dropping the last item of a rearranged slice. */
  lemma {:induction false} DroppedItems(before: seq<TxEntry>, s: seq<TxEntry>, heapIdx: map<Hash, int>)
    requires SameItems(before, s) && IndexOk(s, heapIdx) && |s| > 0
    requires forall i :: 0 < i < |s| - 1 ==> EdgeOk(s, i)
    ensures Ordered(s[..|s| - 1])
    ensures forall x :: x in s[..|s| - 1] <==> x in before && x != s[|s| - 1]
  {
    hide Before;
    var n := |s| - 1;
    forall i | 0 < i < n ensures EdgeOk(s[..n], i) {
      assert EdgeOk(s, i);
    }
    forall x | x in s[..n] ensures x != s[n] {
      var i :| 0 <= i < n && s[i] == x;
    }
    forall x | x in s && x != s[n] ensures x in s[..n] {
      var i :| 0 <= i < |s| && s[i] == x;
      assert s[..n][i] == x;
    }
  }
}
