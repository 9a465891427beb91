/** The in-flight priority queue: a binary heap of messages, each of which stores its index. */
module InFlightQueue {

  class Message {
    const id: int
    var pri: int
    var index: int
    var clientId: int
    var deferredCnt: nat

    constructor (id: int, pri: int, clientId: int)
      ensures this.id == id && this.pri == pri && this.clientId == clientId && index == -1 && deferredCnt == 0
    {
      this.id, this.pri, this.clientId := id, pri, clientId;
      index, deferredCnt := -1, 0;
    }
  }

  /** Go's division truncates, so the parent of the root is the root. */
  function Parent(j: nat): (i: nat)
    ensures j > 0 ==> i < j && (j == 2 * i + 1 || j == 2 * i + 2)
    ensures j == 0 ==> i == 0
  {
    if j == 0 then 0 else (j - 1) / 2
  }

  /** Every message stores its own place, so no message is there twice. */
  ghost predicate Indexed(s: seq<Message>)
    reads s`index
  {
    forall i :: 0 <= i < |s| ==> s[i].index == i
  }

  ghost predicate Edge(s: seq<Message>, j: nat)
    requires j < |s|
    reads s`pri
  {
    s[Parent(j)].pri <= s[j].pri
  }

  /** The first n messages are in heap order, but perhaps not at `skip`. */
  ghost predicate HeapBut(s: seq<Message>, n: nat, skip: int)
    requires n <= |s|
    reads s`pri
  {
    forall j :: 0 < j < n && j != skip ==> Edge(s, j)
  }

  ghost predicate Heap(s: seq<Message>)
    reads s`pri
  {
    HeapBut(s, |s|, -1)
  }

  /** The children of i are not before the parent of i. */
  ghost predicate Grand(s: seq<Message>, n: nat, i: nat)
    requires n <= |s|
    reads s`pri
  {
    i > 0 ==> forall j :: 0 < j < n && Parent(j) == i ==> s[Parent(i)].pri <= s[j].pri
  }

  /** In heap order but for the edges at i, in and out. */
  ghost predicate HeapAround(s: seq<Message>, n: nat, skip: int, i: nat)
    requires n <= |s|
    reads s`pri
  {
    forall j :: 0 < j < n && j != skip && Parent(j) != i ==> Edge(s, j)
  }

  function Items(s: seq<Message>): (r: set<Message>) { set m | m in s }

  predicate SameItems(s: seq<Message>, t: seq<Message>) {
    |s| == |t| && (forall m :: m in s ==> m in t) && (forall m :: m in t ==> m in s)
  }

  class InFlightPqueue {
    var pq: seq<Message>

    constructor ()
      ensures pq == []
    {
      pq := [];
    }

    method Swap(i: nat, j: nat)
      requires i < |pq| && j < |pq| && Indexed(pq)
      modifies this`pq, {pq[i], pq[j]}`index
      ensures SameItems(pq, old(pq)) && Indexed(pq)
      ensures pq == old(pq)[i := old(pq)[j]][j := old(pq)[i]]
    {
      ghost var before := pq;
      pq := pq[i := pq[j]][j := pq[i]];
      pq[i].index := i;
      pq[j].index := j;
      SwapItems(before, i, j);
    }

    /** The message at j rises until its parent is not after it. */
    method Up(j0: nat, ghost n: nat, ghost repr: set<Message>)
      requires j0 < n <= |pq| && Indexed(pq) && HeapBut(pq, n, j0) && Grand(pq, n, j0)
      requires forall m :: m in pq ==> m in repr
      modifies this, repr`index
      ensures SameItems(pq, old(pq)) && Indexed(pq) && HeapBut(pq, n, -1) && pq[n..] == old(pq[n..])
    {
      var j := j0;
      while true
        invariant 0 <= j < n <= |pq| && SameItems(pq, old(pq)) && Indexed(pq)
        invariant HeapBut(pq, n, j) && Grand(pq, n, j) && pq[n..] == old(pq[n..])
        decreases j
      {
        var i := Parent(j);
        if i == j || pq[j].pri >= pq[i].pri {
          assert i != j ==> Edge(pq, j);
          break;
        }
        ghost var s := pq;
        assert pq[i] in repr && pq[j] in repr;
        Swap(i, j);
        UpSwap(s, pq, n, j);
        j := i;
      }
    }

    /** The child of i with the smaller priority. */
    method FirstChild(i: nat, n: nat) returns (j: nat)
      requires 2 * i + 1 < n <= |pq|
      ensures i < j < n && Parent(j) == i
      ensures forall k :: 0 < k < n && Parent(k) == i ==> pq[j].pri <= pq[k].pri
    {
      j := 2 * i + 1;
      if j + 1 < n && pq[j].pri >= pq[j + 1].pri {
        j := j + 1;
      }
    }

    /** The message at i sinks until its children are not before it. */
    method Down(i0: nat, n: nat, ghost repr: set<Message>)
      requires i0 <= n <= |pq| && Indexed(pq) && HeapAround(pq, n, i0, i0) && Grand(pq, n, i0)
      requires forall m :: m in pq ==> m in repr
      modifies this, repr`index
      ensures SameItems(pq, old(pq)) && Indexed(pq)
      ensures HeapBut(pq, n, i0) && Grand(pq, n, i0) && pq[n..] == old(pq[n..])
    {
      var i := i0;
      while true
        invariant i0 <= i <= n <= |pq| && SameItems(pq, old(pq)) && Indexed(pq)
        invariant HeapAround(pq, n, i0, i) && Grand(pq, n, i) && pq[n..] == old(pq[n..])
        invariant i != i0 ==> i < n && Edge(pq, i0)
        decreases n - i
      {
        if 2 * i + 1 >= n {
          break;
        }
        var j := FirstChild(i, n);
        if pq[j].pri >= pq[i].pri {
          break;
        }
        ghost var s := pq;
        assert pq[i] in repr && pq[j] in repr;
        Swap(i, j);
        DownSwap(s, pq, n, i0, i, j);
        i := j;
      }
      DownEnd(pq, n, i0, i);
    }

    ghost predicate Valid()
      reads this, pq`index, pq`pri
    {
      Indexed(pq) && Heap(pq)
    }

    method Push(x: Message, ghost repr: set<Message>)
      requires Valid() && x !in pq && x in repr && forall m :: m in pq ==> m in repr
      modifies this, repr`index
      ensures Valid() && SameItems(pq, old(pq) + [x])
    {
      var n := |pq|;
      x.index := n;
      pq := pq + [x];
      assert HeapBut(pq, n + 1, n) by {
        forall j | 0 < j < n ensures Edge(pq, j) {
          assert Edge(old(pq), j);
        }
      }
      Up(n, n + 1, repr);
    }

    /** Drops the last place. */
    method DropLast(ghost repr: set<Message>) returns (x: Message)
      requires |pq| > 0 && Indexed(pq) && HeapBut(pq, |pq| - 1, -1)
      requires forall m :: m in pq ==> m in repr
      modifies this, repr`index
      ensures Valid() && x == old(pq)[|old(pq)| - 1] && x.index == -1 && Lost(old(pq), x)
    {
      var n := |pq|;
      x := pq[n - 1];
      assert forall j :: 0 <= j < n - 1 ==> pq[j].index != x.index;
      x.index := -1;
      pq := pq[..n - 1];
      forall j | 0 < j < n - 1 ensures Edge(pq, j) {
        assert Edge(old(pq), j);
      }
    }

    /** What is left after x was taken out of `before`. */
    ghost predicate Lost(before: seq<Message>, x: Message)
      reads this
    {
      && |pq| == |before| - 1 && x in before && x !in pq
      && (forall m :: m in pq ==> m in before)
      && (forall m :: m in before && m != x ==> m in pq)
    }

    /** The message at i goes to the last place and the rest is put in order again. */
    method MoveToLast(i: nat)
      requires i < |pq| && Indexed(pq) && HeapAround(pq, |pq|, i, i) && Grand(pq, |pq|, i)
      modifies this, pq`index
      ensures SameItems(pq, old(pq)) && Indexed(pq) && HeapBut(pq, |pq| - 1, -1)
      ensures pq[|pq| - 1] == old(pq)[i]
    {
      var n := |pq|;
      if n - 1 != i {
        ghost var s, repr := pq, Items(pq);
        Swap(i, n - 1);
        MovedLast(s, pq, i);
        assert pq[n - 1..] == [s[i]];
        Down(i, n - 1, repr);
        Up(i, n - 1, repr);
        assert pq[n - 1..][0] == pq[n - 1];
      }
    }

    /** Takes out the message at i. Its own priority may have been changed already: only the
        order of the others counts. */
    method Remove(i: nat) returns (x: Message)
      requires i < |pq| && Indexed(pq) && HeapAround(pq, |pq|, i, i) && Grand(pq, |pq|, i)
      modifies this, pq`index
      ensures Valid() && x == old(pq)[i] && Lost(old(pq), x) && x.index == -1
    {
      ghost var repr := Items(pq);
      MoveToLast(i);
      x := DropLast(repr);
    }

    method Pop() returns (x: Message)
      requires Valid() && |pq| > 0
      modifies this, pq`index
      ensures Valid() && x == old(pq)[0] && Lost(old(pq), x) && x.index == -1
      ensures forall m :: m in old(pq) ==> old(x.pri) <= old(m.pri)
    {
      var n := |pq|;
      ghost var s, repr := pq, Items(pq);
      forall m | m in pq ensures pq[0].pri <= m.pri {
        RootFirst(pq, m.index);
      }
      Swap(0, n - 1);
      if n > 1 {
        MovedLast(s, pq, 0);
      }
      assert pq[n - 1..] == [s[0]];
      Down(0, n - 1, repr);
      assert pq[n - 1..][0] == pq[n - 1];
      x := DropLast(repr);
    }

    /** A message with the smallest priority, if that is not above the limit. */
    method PeekAndShift(max: int) returns (x: Message?, wait: int)
      requires Valid()
      modifies this, pq`index
      ensures Valid()
      ensures x == null ==> pq == old(pq) && forall m :: m in pq ==> m.pri > max
      ensures x != null ==> Lost(old(pq), x) && x.index == -1 && x.pri <= max
      ensures x != null ==> forall m :: m in old(pq) ==> x.pri <= m.pri
      ensures x == null && pq != [] ==> wait == pq[0].pri - max > 0
    {
      if |pq| == 0 {
        return null, 0;
      }
      if pq[0].pri > max {
        forall m | m in pq ensures m.pri > max {
          RootFirst(pq, m.index);
        }
        return null, pq[0].pri - max;
      }
      x := Pop();
      wait := 0;
    }

    /** How touching and deferring move a message: the priority is set first, while the message
        is still in the heap. */
    method Reschedule(x: Message, pri: int)
      requires Valid() && x in pq
      modifies this, pq`index, {x}`pri
      ensures Valid() && SameItems(pq, old(pq)) && x.pri == pri
    {
      ghost var repr := Items(pq);
      var i := x.index;
      assert x == pq[i];
      OrderAround(pq, i);
      x.pri := pri;
      forall j | 0 < j < |pq| && j != i && Parent(j) != i ensures Edge(pq, j) {
        assert old(Edge(pq, j));
      }
      var y := Remove(i);
      Push(x, repr);
    }
  }

  lemma {:induction false} RootFirst(s: seq<Message>, k: int)
    requires Heap(s) && 0 <= k < |s|
    ensures s[0].pri <= s[k].pri
    decreases k
  {
    if k > 0 {
      RootFirst(s, Parent(k));
      assert Edge(s, k);
    }
  }

  lemma OrderAround(s: seq<Message>, i: int)
    requires Heap(s) && 0 <= i < |s|
    ensures HeapAround(s, |s|, i, i) && Grand(s, |s|, i)
  {
    forall j | 0 < j < |s| && Parent(j) == i && i > 0 ensures s[Parent(i)].pri <= s[j].pri {
      assert Edge(s, j) && Edge(s, i);
    }
  }

  lemma MovedLast(s: seq<Message>, t: seq<Message>, i: nat)
    requires i < |s| - 1 && t == s[i := s[|s| - 1]][|s| - 1 := s[i]]
    requires HeapAround(s, |s|, i, i) && Grand(s, |s|, i)
    ensures HeapAround(t, |s| - 1, i, i) && Grand(t, |s| - 1, i)
  {
    forall j | 0 < j < |s| - 1 && j != i && Parent(j) != i ensures Edge(t, j) {
      assert Edge(s, j);
    }
  }

  /** Nothing below i is before it, so order is restored everywhere but perhaps above i0. */
  lemma DownEnd(s: seq<Message>, n: nat, i0: nat, i: nat)
    requires i0 <= i <= n <= |s| && HeapAround(s, n, i0, i) && Grand(s, n, i)
    requires forall j :: 0 < j < n && Parent(j) == i ==> s[i].pri <= s[j].pri
    requires i != i0 ==> i < n && Edge(s, i0)
    ensures HeapBut(s, n, i0) && Grand(s, n, i0)
  {
    forall j | 0 < j < n && j != i0 ensures Edge(s, j) {}
    forall j | 0 < j < n && Parent(j) == i0 ensures s[Parent(i0)].pri <= s[j].pri {
      assert Edge(s, j);
    }
  }

  /** Swapping a message with its later parent leaves disorder only at the parent. */
  lemma UpSwap(s: seq<Message>, t: seq<Message>, n: nat, j: nat)
    requires 0 < j < n <= |s| && t == s[Parent(j) := s[j]][j := s[Parent(j)]]
    requires HeapBut(s, n, j) && Grand(s, n, j) && s[j].pri < s[Parent(j)].pri
    ensures HeapBut(t, n, Parent(j)) && Grand(t, n, Parent(j))
  {
    var i := Parent(j);
    forall k | 0 < k < n && k != i ensures Edge(t, k) {
      assert k != j ==> Edge(s, k);
    }
    forall k | 0 < k < n && Parent(k) == i ensures t[Parent(i)].pri <= t[k].pri {
      assert i > 0 ==> Edge(s, i);
      assert k != j ==> Edge(s, k);
    }
  }

  /** Swapping a message with its first child leaves disorder only below that child. */
  lemma DownSwap(s: seq<Message>, t: seq<Message>, n: nat, i0: nat, i: nat, j: nat)
    requires i0 <= i < j < n <= |s| && Parent(j) == i && t == s[i := s[j]][j := s[i]]
    requires HeapAround(s, n, i0, i) && Grand(s, n, i) && s[j].pri < s[i].pri
    requires forall k :: 0 < k < n && Parent(k) == i ==> s[j].pri <= s[k].pri
    requires i != i0 ==> Edge(s, i0)
    ensures HeapAround(t, n, i0, j) && Grand(t, n, j) && Edge(t, i0)
  {
    forall k | 0 < k < n && k != i0 && Parent(k) != j ensures Edge(t, k) {
      if Parent(k) != i {
        assert Edge(s, k);
      }
    }
    forall k | 0 < k < n && Parent(k) == j ensures t[Parent(j)].pri <= t[k].pri {
      assert Edge(s, k);
    }
  }

  lemma SwapItems(s: seq<Message>, i: nat, j: nat)
    requires i < |s| && j < |s|
    ensures SameItems(s[i := s[j]][j := s[i]], s)
  {
    var t := s[i := s[j]][j := s[i]];
    forall m | m in s ensures m in t {
      var k :| 0 <= k < |s| && s[k] == m;
      assert t[if k == i then j else if k == j then i else k] == m;
    }
  }
}
