/** How a channel turns confirmations in any order into one confirmed offset. */
module ConfirmWindow {
  import opened Intervals

  ghost predicate Confirmed(done: set<Interval>, x: int) {
    exists m :: m in done && In(m, x)
  }

  predicate Disjoint(a: Interval, b: Interval) { a.end <= b.start || b.end <= a.start }

  /** Messages of a queue that starts at `base`: not empty, and no two share a byte. */
  ghost predicate Messages(base: int, done: set<Interval>) {
    && (forall m :: m in done ==> base <= m.start < m.end)
    && (forall m, n :: m in done && n in done && m != n ==> Disjoint(m, n))
  }

  /** `o` is the end of the longest confirmed prefix: every byte before it is confirmed and the
      byte at it is not. */
  ghost predicate IsPrefixEnd(base: int, done: set<Interval>, o: int) {
    && base <= o && (forall x :: base <= x < o ==> Confirmed(done, x)) && !Confirmed(done, o)
  }

  /** `cnt` is the count at the message that ends at `o`. */
  ghost predicate CountAt(done: set<Interval>, o: int, cnt: int) {
    exists m :: m in done && m.end == o && m.endCnt == cnt
  }

  /** The offset and the count depend on which messages were confirmed, not on the order. */
  lemma PrefixUnique(base: int, done: set<Interval>, o: int, p: int, c: int, d: int)
    requires Messages(base, done) && IsPrefixEnd(base, done, o) && IsPrefixEnd(base, done, p)
    ensures o == p
    ensures CountAt(done, o, c) && CountAt(done, p, d) ==> c == d
  {
    assert o < p ==> Confirmed(done, o);
    assert p < o ==> Confirmed(done, p);
    if CountAt(done, o, c) && CountAt(done, p, d) {
      var m :| m in done && m.end == o && m.endCnt == c;
      var n :| n in done && n.end == p && n.endCnt == d;
      assert m != n ==> Disjoint(m, n);
    }
  }

  /** Where the run of confirmed bytes that starts at `offset` ends. It is not empty only after
      the backend refused a confirmation. */
  function Front(e: Elems, offset: int): (o: int) {
    if offset in e && e[offset].start == offset then e[offset].end else offset
  }

  /** The confirmed offset and the endpoint map together are the confirmed messages. */
  ghost predicate Good(base: int, done: set<Interval>, e: Elems, offset: int, cnt: int) {
    && Messages(base, done) && Maximal(e) && base <= offset
    && (forall k :: k in e ==> offset <= e[k].start)
    && (forall x :: Confirmed(done, x) <==> base <= x < offset || Covers(e, x))
    && (offset == base || CountAt(done, offset, cnt))
    && (forall k :: k in e ==> CountAt(done, e[k].end, e[k].endCnt))
  }

  /** The front is the end of the longest fully confirmed prefix; so the offset is, if and
      only if no refused run starts at it. */
  lemma FrontIsPrefixEnd(base: int, done: set<Interval>, e: Elems, offset: int, cnt: int)
    requires Good(base, done, e, offset, cnt)
    ensures IsPrefixEnd(base, done, Front(e, offset))
    ensures IsPrefixEnd(base, done, offset) <==> Front(e, offset) == offset
  {
    var o := Front(e, offset);
    if o != offset {
      assert Stored(e, offset);
      Edges(e, offset);
      assert forall x :: offset <= x < o ==> In(e[offset], x);
    } else {
      assert !Covers(e, offset) by {
        forall k | k in e ensures !In(e[k], offset) {
          assert Stored(e, k);
        }
      }
    }
  }

  ghost predicate Next(done: set<Interval>, m: Interval) {
    m.start < m.end && forall d :: d in done ==> Disjoint(d, m)
  }

  lemma NextIsNew(base: int, done: set<Interval>, e: Elems, offset: int, cnt: int, m: Interval)
    requires Good(base, done, e, offset, cnt) && Next(done, m)
    ensures New(e, m)
  {
    forall x | In(m, x) ensures !Covers(e, x) {
      assert !Confirmed(done, x) by {
        forall d | d in done ensures !In(d, x) {}
      }
    }
  }

  lemma DoneGrows(base: int, done: set<Interval>, m: Interval)
    requires Messages(base, done) && Next(done, m) && base <= m.start
    ensures Messages(base, done + {m})
    ensures forall x :: Confirmed(done + {m}, x) <==> Confirmed(done, x) || In(m, x)
    ensures forall o, c :: CountAt(done, o, c) ==> CountAt(done + {m}, o, c)
    ensures CountAt(done + {m}, m.end, m.endCnt)
  {
    var more := done + {m};
    assert m in more;
    forall x ensures Confirmed(more, x) <==> Confirmed(done, x) || In(m, x) {
      if Confirmed(done, x) {
        var d :| d in done && In(d, x);
        assert d in more;
      }
    }
    forall o, c | CountAt(done, o, c) ensures CountAt(more, o, c) {
      var d :| d in done && d.end == o && d.endCnt == c;
      assert d in more;
    }
  }

  /** The counts of the merged map are counts of confirmed messages. */
  lemma MergedCounts(done: set<Interval>, e: Elems, m: Interval)
    requires Maximal(e) && New(e, m) && CountAt(done, m.end, m.endCnt)
    requires forall k :: k in e ==> CountAt(done, e[k].end, e[k].endCnt)
    ensures forall k :: k in Merged(e, m).0 ==> CountAt(done, Merged(e, m).0[k].end, Merged(e, m).0[k].endCnt)
    ensures forall k :: k in Merged(e, m).0 ==>
              Merged(e, m).0[k] == Merged(e, m).1 || (k in e && Merged(e, m).0[k] == e[k])
  {
    Merge(e, m);
  }

  /** A message is merged into the map, wherever it lies at or after the offset. */
  lemma ConfirmLater(base: int, done: set<Interval>, e: Elems, offset: int, cnt: int, m: Interval)
    requires Good(base, done, e, offset, cnt) && Next(done, m) && offset <= m.start
    ensures Good(base, done + {m}, Merged(e, m).0, offset, cnt)
  {
    NextIsNew(base, done, e, offset, cnt, m);
    DoneGrows(base, done, m);
    Merge(e, m);
    MergedCounts(done + {m}, e, m);
    MergedStart(e, m);
  }

  /** A run that starts at the offset can be moved from the map into the offset. */
  lemma ConfirmPrefix(base: int, done: set<Interval>, e: Elems, offset: int, cnt: int)
    requires Good(base, done, e, offset, cnt) && offset in e && e[offset].start == offset
    ensures Good(base, done, Without(e, e[offset]), e[offset].end, e[offset].endCnt)
    ensures Front(Without(e, e[offset]), e[offset].end) == e[offset].end && offset < e[offset].end
  {
    var i, f := e[offset], Without(e, e[offset]);
    assert Stored(e, offset);
    WithoutMaximal(e, offset);
    WithoutCovers(e, offset);
    forall k | k in f ensures i.end < f[k].start {
      assert Apart(i, e[k]) && Stored(e, k);
    }
  }

  /** The merged run starts at the offset if and only if the message starts at the front. */
  lemma ReachesFront(base: int, done: set<Interval>, e: Elems, offset: int, cnt: int, m: Interval)
    requires Good(base, done, e, offset, cnt) && Next(done, m) && offset <= m.start
    ensures Merged(e, m).1.start <= offset <==> m.start == Front(e, offset)
  {
    NextIsNew(base, done, e, offset, cnt, m);
    Merge(e, m);
    if m.start in e {
      Neighbour(e, m, m.start);
      assert Stored(e, m.start);
    }
    if offset in e && e[offset].start == offset {
      Beside(e, m, offset);
      assert Stored(e, offset);
    }
  }

  lemma MergedStart(e: Elems, m: Interval)
    requires Maximal(e) && New(e, m)
    ensures var n := Merged(e, m).1; n.start == m.start || (n.start in e && e[n.start].start == n.start)
  {
    Merge(e, m);
    if m.start in e {
      assert Stored(e, m.start);
    }
  }

  /** The history map holds each confirmed message that ends after `pruned`, and nothing else. */
  ghost predicate Recorded(done: set<Interval>, history: map<int, int>, pruned: int) {
    && (forall m :: m in done && m.end > pruned ==> m.start in history && history[m.start] == m.end)
    && (forall s :: s in history ==> IsMessage(done, s, history[s]) && history[s] > pruned)
  }

  ghost predicate IsMessage(done: set<Interval>, start: int, end: int) {
    exists m :: m in done && m.start == start && m.end == end
  }

  lemma RecordMore(done: set<Interval>, history: map<int, int>, pruned: int, m: Interval)
    requires Recorded(done, history, pruned) && Next(done, m) && (forall d :: d in done ==> d.start < d.end)
    requires pruned <= m.start
    ensures Recorded(done + {m}, history[m.start := m.end], pruned)
  {
    var h, more := history[m.start := m.end], done + {m};
    assert m in more;
    forall s | s in h ensures IsMessage(more, s, h[s]) {
      if s != m.start {
        var d :| d in done && d.start == s && d.end == history[s];
        assert d in more;
      }
    }
  }

  /** A confirmed message that ends after the offset lies in one of the runs. */
  lemma LaterIsCovered(base: int, done: set<Interval>, e: Elems, offset: int, cnt: int, m: Interval)
    requires Good(base, done, e, offset, cnt) && m in done && m.end > offset
    ensures Shares(e, m.start, m.end)
  {
    var x := m.end - 1;
    assert In(m, x) && Confirmed(done, x) && Covers(e, x);
    var k :| k in e && In(e[k], x);
  }

  /** What confirming `m` does to the map: it is merged, and the merged run starts at the offset
      if and only if `m` starts at the front. */
  lemma Confirming(base: int, done: set<Interval>, e: Elems, offset: int, cnt: int, m: Interval)
    requires Good(base, done, e, offset, cnt) && Next(done, m) && offset <= m.start
    ensures var (r, n) := Merged(e, m);
            && Good(base, done + {m}, r, offset, cnt)
            && (n.start <= offset <==> m.start == Front(e, offset))
            && (n.start > offset && Front(e, offset) == offset ==> Front(r, offset) == offset)
            && (n.start <= offset ==> n.start == offset && offset in r && r[offset] == n)
  {
    var (r, n) := Merged(e, m);
    NextIsNew(base, done, e, offset, cnt, m);
    Merge(e, m);
    ConfirmLater(base, done, e, offset, cnt, m);
    ReachesFront(base, done, e, offset, cnt, m);
    MergedCounts(done + {m}, e, m);
    assert n.start > offset && offset in r && r[offset].start == offset ==> offset in e && e[offset].start == offset;
  }

  /** What a scan leaves of the history is the messages after the offset, all of them in runs. */
  lemma Forgetting(base: int, done: set<Interval>, e: Elems, offset: int, cnt: int,
                   h: map<int, int>, pruned: int, g: map<int, int>)
    requires Good(base, done, e, offset, cnt) && Recorded(done, h, pruned) && pruned <= offset
    requires forall s :: s in g <==> s in h && !(h[s] <= offset && s < offset)
    requires forall s :: s in g ==> g[s] == h[s]
    ensures Recorded(done, g, offset) && forall s :: s in g ==> Shares(e, s, g[s])
  {
    forall s | s in g ensures IsMessage(done, s, g[s]) && g[s] > offset && Shares(e, s, g[s]) {
      var m :| m in done && m.start == s && m.end == h[s];
      LaterIsCovered(base, done, e, offset, cnt, m);
    }
  }

  lemma RunsAreLater(base: int, done: set<Interval>, e: Elems, offset: int, cnt: int)
    requires Good(base, done, e, offset, cnt)
    ensures AllAfter(e, offset)
  {
    assert forall k :: k in e ==> Stored(e, k);
  }

  class Window {
    const hash: IntervalHash
    var offset: int
    var cnt: int
    ghost const base: int
    ghost var done: set<Interval>
    ghost var pruned: int

    constructor (offset: int, cnt: int)
      ensures Valid() && fresh(hash) && done == {} && base == offset == this.offset && this.cnt == cnt
      ensures pruned == base && Front(hash.elems, offset) == offset
    {
      this.offset, this.cnt := offset, cnt;
      base := offset;
      done := {};
      pruned := offset;
      hash := new IntervalHash();
    }

    ghost predicate Valid()
      reads this, hash
    {
      && Good(base, done, hash.elems, offset, cnt) && Recorded(done, hash.historyMsg, pruned)
      && pruned <= offset
    }

    /** The backend accepted the end of the run at the offset. */
    method MoveOver(n: Interval)
      requires Valid() && n.start == offset && offset in hash.elems && hash.elems[offset] == n
      modifies this`offset, this`cnt, hash`elems
      ensures Valid() && offset == n.end > old(offset) && cnt == n.endCnt && Front(hash.elems, offset) == offset
    {
      ConfirmPrefix(base, done, hash.elems, offset, cnt);
      offset, cnt := n.end, n.endCnt;
      hash.DeleteInterval(n);
    }

    /** The message goes into the map. The run it becomes part of starts at the offset if and
        only if the message starts at the front. */
    method Record(m: Interval) returns (n: Interval)
      requires Valid() && offset <= m.start && Next(done, m)
      modifies this`done, hash
      ensures Valid() && done == old(done) + {m}
      ensures n.start <= offset <==> m.start == old(Front(hash.elems, offset))
      ensures n.start <= offset ==> n.start == offset && offset in hash.elems && hash.elems[offset] == n
      ensures n.start > offset && old(Front(hash.elems, offset)) == offset ==> Front(hash.elems, offset) == offset
    {
      RecordMore(done, hash.historyMsg, pruned, m);
      Confirming(base, done, hash.elems, offset, cnt, m);
      n := hash.AddOrMerge(m);
      done := done + {m};
    }

    /** ConfirmBackendQueue. `accepts` is the backend's answer, should it be asked: it is when
        the message starts at the front, and only then can the offset move. A refused run stays
        in the map and goes along with the next one that reaches the front. */
    method Confirm(m: Interval, accepts: bool) returns (changed: bool)
      requires Valid() && (offset <= m.start ==> Next(done, m))
      modifies this, hash
      ensures Valid() && pruned == old(pruned)
      ensures done == if old(offset) <= m.start then old(done) + {m} else old(done)
      ensures changed <==> m.start == old(Front(hash.elems, offset))
      ensures changed && accepts ==> offset > old(offset) && Front(hash.elems, offset) == offset
      ensures !(changed && accepts) ==> offset == old(offset) && cnt == old(cnt)
      ensures !changed && old(Front(hash.elems, offset)) == old(offset) ==> Front(hash.elems, offset) == offset
    {
      if m.start < offset {
        return false;
      }
      var n := Record(m);
      changed := n.start <= offset;
      if changed && accepts {
        MoveOver(n);
      }
    }

    /** The pass of processInFlightQueue over the confirmed messages: what lies below the
        offset is forgotten, and the rest is found consistent, so the reader is never reset. */
    method Scan() returns (fix: bool)
      requires Valid()
      modifies this`pruned, hash
      ensures Valid() && pruned == offset && !fix
      ensures hash.elems == old(hash.elems)
    {
      ghost var e, h := hash.elems, hash.historyMsg;
      RunsAreLater(base, done, e, offset, cnt);
      var n := hash.DeleteLower(offset);
      Forgetting(base, done, e, offset, cnt, h, pruned, hash.historyMsg);
      fix := hash.DropUncovered();
      pruned := offset;
    }

    /** IsConfirmed, which keeps a confirmed message from being delivered again: of the messages
        of the queue it knows those confirmed ones that end after what a scan has forgotten, so
        it is exact from the offset on. */
    lemma MembershipExact(m: Interval)
      requires Valid() && m.start < m.end && (m in done || Next(done, m))
      ensures hash.IsCompleteOverlap(m) <==> m in done && m.end > pruned
      ensures offset <= m.start ==> (hash.IsCompleteOverlap(m) <==> m in done)
    {
      if m in done && m.end <= pruned {
        assert forall k :: k in hash.elems ==> Stored(hash.elems, k);
        assert forall d :: d in done && d != m ==> Disjoint(d, m) && d.start != m.start;
      }
      if m !in done {
        NextIsNew(base, done, hash.elems, offset, cnt, m);
        if m.start in hash.elems {
          Neighbour(hash.elems, m, m.start);
        }
        if m.end in hash.elems {
          Neighbour(hash.elems, m, m.end);
        }
        assert forall d :: d in done ==> Disjoint(d, m) && d.start != m.start;
      }
    }

    /** A message not confirmed yet is never below the confirmed offset. */
    lemma NextIsLater(m: Interval)
      requires Valid() && base <= m.start && Next(done, m)
      ensures offset <= m.start
    {
      assert In(m, m.start);
      assert !Confirmed(done, m.start) by {
        forall d | d in done ensures !In(d, m.start) {}
      }
    }
  }

  function Elements(msgs: seq<Interval>): (s: set<Interval>) { set m | m in msgs }

  /** Messages of the queue that are not confirmed yet, in any order. */
  ghost predicate Batch(base: int, done: set<Interval>, msgs: seq<Interval>) {
    && (forall i :: 0 <= i < |msgs| ==> base <= msgs[i].start && Next(done, msgs[i]))
    && (forall i, j :: 0 <= i < j < |msgs| ==> Disjoint(msgs[i], msgs[j]))
  }

  lemma BatchNext(base: int, done: set<Interval>, msgs: seq<Interval>, i: nat)
    requires Batch(base, done, msgs) && i < |msgs|
    ensures base <= msgs[i].start && Next(done + Elements(msgs[..i]), msgs[i])
    ensures done + Elements(msgs[..i]) + {msgs[i]} == done + Elements(msgs[..i + 1])
  {
    assert Next(done, msgs[i]);
    assert msgs[..i + 1] == msgs[..i] + [msgs[i]];
  }

  /** Any order of confirming disjoint messages ends at the longest confirmed prefix, which by
      PrefixUnique does not depend on the order, and neither do the scans in between. */
  method ConfirmAll(w: Window, msgs: seq<Interval>, scans: seq<bool>)
    requires w.Valid() && Front(w.hash.elems, w.offset) == w.offset && Batch(w.base, w.done, msgs)
    requires |scans| == |msgs|
    modifies w, w.hash
    ensures w.Valid() && IsPrefixEnd(w.base, w.done, w.offset) && w.done == old(w.done) + Elements(msgs)
  {
    ghost var done := w.done;
    var i := 0;
    while i < |msgs|
      invariant 0 <= i <= |msgs| && w.Valid() && Front(w.hash.elems, w.offset) == w.offset
      invariant w.done == done + Elements(msgs[..i])
    {
      BatchNext(w.base, done, msgs, i);
      w.NextIsLater(msgs[i]);
      var changed := w.Confirm(msgs[i], true);
      if scans[i] {
        var fix := w.Scan();
      }
      i := i + 1;
    }
    assert msgs[..i] == msgs;
    FrontIsPrefixEnd(w.base, w.done, w.hash.elems, w.offset, w.cnt);
  }
}
