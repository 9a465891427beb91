/** Confirmed byte ranges as a hash of interval endpoints, and the same as a sorted list. */
module Intervals {

  /** A confirmed range of the queue and the message count at its end. */
  datatype Interval = Interval(start: int, end: int, endCnt: int)

  type Elems = map<int, Interval>

  /** Every interval is stored under both its endpoints, and no two overlap or touch. */
  ghost predicate Maximal(e: Elems) {
    && (forall k :: k in e ==> Stored(e, k))
    && (forall k, j :: k in e && j in e && e[k] != e[j] ==> Apart(e[k], e[j]))
  }

  ghost predicate Stored(e: Elems, k: int)
    requires k in e
  {
    var i := e[k];
    && i.start < i.end && (k == i.start || k == i.end)
    && i.start in e && i.end in e && e[i.start] == i && e[i.end] == i
  }

  predicate Apart(a: Interval, b: Interval) { a.end < b.start || b.end < a.start }

  predicate In(i: Interval, x: int) { i.start <= x < i.end }

  /** Byte x is confirmed. */
  ghost predicate Covers(e: Elems, x: int) {
    exists k :: k in e && In(e[k], x)
  }

  /** A new message shares no byte with what is confirmed. */
  ghost predicate New(e: Elems, m: Interval) {
    m.start < m.end && forall x :: In(m, x) ==> !Covers(e, x)
  }

  /** An interval is a maximal run: the bytes on either side are not confirmed. */
  lemma Edges(e: Elems, k: int)
    requires Maximal(e) && k in e
    ensures !Covers(e, e[k].start - 1) && !Covers(e, e[k].end)
  {
    forall o | o in e ensures !In(e[o], e[k].start - 1) && !In(e[o], e[k].end) {
      assert Stored(e, o) && Stored(e, k);
    }
  }

  /** One of the stored intervals has the bounds of `i`. */
  predicate IsRun(e: Elems, i: Interval) {
    i.start in e && e[i.start].start == i.start && e[i.start].end == i.end
  }

  ghost predicate AllAfter(e: Elems, low: int) {
    forall k :: k in e ==> e[k].end > low
  }

  /** QueryExist without borders: some interval shares a byte with [from, to). */
  predicate Shares(e: Elems, from: int, to: int) {
    exists k :: k in e && e[k].end > from && e[k].start < to
  }

  /** The endpoint map is determined by the bytes it covers: it is the set of their maximal
      runs. */
  lemma MaximalUnique(e: Elems, f: Elems, k: int)
    requires Maximal(e) && Maximal(f) && (forall x :: Covers(e, x) <==> Covers(f, x)) && k in e
    ensures k in f && f[k].start == e[k].start && f[k].end == e[k].end
  {
    var i := e[k];
    assert Stored(e, k);
    assert In(i, i.start) && Covers(e, i.start);
    var j :| j in f && In(f[j], i.start);
    assert Stored(f, j);
    Edges(e, k);
    Edges(f, j);
    assert !In(f[j], i.start - 1) && !In(f[j], i.end) && !In(i, f[j].end) by {
      assert !Covers(f, i.start - 1) && !Covers(f, i.end) && !Covers(e, f[j].end);
    }
  }

  // ---------------------------------------------------------------- merging

  /** What is stored at an endpoint of a new message ends or starts there. */
  lemma Neighbour(e: Elems, m: Interval, k: int)
    requires Maximal(e) && New(e, m) && k in e && (k == m.start || k == m.end)
    ensures k == m.start ==> e[k].end == k
    ensures k == m.end ==> e[k].start == k
  {
    assert Stored(e, k);
    assert In(m, m.start) && In(m, m.end - 1);
    assert !In(e[k], m.start) && !In(e[k], m.end - 1);
  }

  function Without(e: Elems, i: Interval): (f: Elems) { e - {i.start} - {i.end} }

  function With(e: Elems, i: Interval): (f: Elems) { e[i.start := i][i.end := i] }

  lemma WithoutMaximal(e: Elems, k: int)
    requires Maximal(e) && k in e
    ensures Maximal(Without(e, e[k]))
    ensures forall j :: j in Without(e, e[k]) ==> Apart(e[k], e[j])
  {
    var i, f := e[k], Without(e, e[k]);
    assert Stored(e, k);
    forall j | j in f ensures Stored(f, j) && Apart(i, f[j]) {
      assert Stored(e, j) && e[j] != i;
    }
  }

  lemma WithoutCovers(e: Elems, k: int)
    requires Maximal(e) && k in e
    ensures forall x :: Covers(Without(e, e[k]), x) <==> Covers(e, x) && !In(e[k], x)
  {
    var i, f := e[k], Without(e, e[k]);
    WithoutMaximal(e, k);
    forall x ensures Covers(f, x) <==> Covers(e, x) && !In(i, x) {
      if Covers(e, x) && !In(i, x) {
        var j :| j in e && In(e[j], x);
        assert Stored(e, j) && Stored(e, k);
        assert j in f && In(f[j], x);
      }
      if Covers(f, x) {
        var j :| j in f && In(f[j], x);
        assert j in e && In(e[j], x) && Apart(i, e[j]);
      }
    }
  }

  lemma WithMaximal(e: Elems, i: Interval)
    requires Maximal(e) && i.start < i.end && forall k :: k in e ==> Apart(e[k], i)
    ensures Maximal(With(e, i))
    ensures forall x :: Covers(With(e, i), x) <==> Covers(e, x) || In(i, x)
  {
    var f := With(e, i);
    assert i.start !in e && i.end !in e by {
      assert forall k :: k in e ==> Stored(e, k) && k != i.start && k != i.end;
    }
    forall j | j in f ensures Stored(f, j) {
      assert j in e ==> Stored(e, j);
    }
    forall x ensures Covers(f, x) <==> Covers(e, x) || In(i, x) {
      if Covers(e, x) {
        var j :| j in e && In(e[j], x);
        assert j in f && In(f[j], x);
      }
      if In(i, x) {
        assert i.start in f && In(f[i.start], x);
      }
    }
  }

  lemma Beside(e: Elems, m: Interval, k: int)
    requires Maximal(e) && New(e, m) && k in e
    ensures e[k].end <= m.start || m.end <= e[k].start
    ensures e[k].end == m.start ==> m.start in e && e[m.start] == e[k]
    ensures e[k].start == m.end ==> m.end in e && e[m.end] == e[k]
  {
    assert Stored(e, k);
    var x := if e[k].start < m.start then m.start else e[k].start;
    assert In(e[k], x) ==> Covers(e, x);
    assert In(m, x) ==> !Covers(e, x);
  }

  /** `m` grown by the neighbour at one of its endpoints, if there is one. */
  function Grown(e: Elems, m: Interval, k: int): (n: Interval) {
    if k !in e then m
    else Interval(if e[k].start < m.start then e[k].start else m.start,
                  if e[k].end > m.end then e[k].end else m.end,
                  if e[k].end > m.end then e[k].endCnt else m.endCnt)
  }

  function Dropped(e: Elems, k: int): (f: Elems) { if k in e then Without(e, e[k]) else e }

  /** One half of the merge: the neighbour at k is absorbed, the rest stays apart from it. */
  lemma Absorb(e: Elems, m: Interval, k: int)
    requires Maximal(e) && New(e, m) && (k == m.start || k == m.end)
    ensures var f, n := Dropped(e, k), Grown(e, m, k);
            && Maximal(f) && New(f, n) && k !in f
            && (forall x :: Covers(f, x) || In(n, x) <==> Covers(e, x) || In(m, x))
            && (if k == m.start then n.end == m.end && n.endCnt == m.endCnt && n.start <= m.start
                else n.start == m.start && n.end >= m.end)
  {
    var f, n := Dropped(e, k), Grown(e, m, k);
    if k in e {
      Neighbour(e, m, k);
      WithoutMaximal(e, k);
      WithoutCovers(e, k);
      assert Stored(e, k);
      forall x ensures In(n, x) <==> In(m, x) || In(e[k], x) {}
    }
  }

  /** What AddOrMerge makes of the map, and the interval it returns. */
  function Merged(e: Elems, m: Interval): (r: (Elems, Interval)) {
    var f, g := Dropped(e, m.start), Grown(e, m, m.start);
    var h, n := Dropped(f, g.end), Grown(f, g, g.end);
    (With(h, n), n)
  }

  /** A message that shares no byte with the confirmed ones is merged with both neighbours:
      the map stays the set of maximal runs, now of one message more. */
  lemma Merge(e: Elems, m: Interval)
    requires Maximal(e) && New(e, m)
    ensures var (r, n) := Merged(e, m);
            && Maximal(r) && n.start in r && r[n.start] == n && n.start <= m.start && m.end <= n.end
            && (forall x :: Covers(r, x) <==> Covers(e, x) || In(m, x))
            && (n.end == m.end ==> n.endCnt == m.endCnt)
            && (n.end != m.end ==> n.end in e && e[n.end].end == n.end && n.endCnt == e[n.end].endCnt)
  {
    var f, g := Dropped(e, m.start), Grown(e, m, m.start);
    Absorb(e, m, m.start);
    var h, n := Dropped(f, g.end), Grown(f, g, g.end);
    Absorb(f, g, g.end);
    assert n.start !in h && n.end !in h;
    forall k | k in h ensures Apart(h[k], n) {
      Beside(h, n, k);
    }
    WithMaximal(h, n);
    assert g.end in f ==> Stored(f, g.end);
  }

  /** A message added a second time leaves the map as it is exactly when it lies at an edge of
      its interval; inside one it is stored again, and the map overlaps itself. */
  lemma MergeAgain(e: Elems, m: Interval, k: int)
    requires Maximal(e) && k in e && e[k].start <= m.start < m.end <= e[k].end
    requires m.end == e[k].end ==> m.endCnt == e[k].endCnt
    ensures Maximal(Merged(e, m).0) <==> m.start == e[k].start || m.end == e[k].end
    ensures m.start == e[k].start || m.end == e[k].end ==> Merged(e, m) == (e, e[k])
  {
    var i, r := e[k], Merged(e, m).0;
    assert Stored(e, k);
    if m.start != i.start && m.end != i.end {
      InsideNoEndpoint(e, k, m.start);
      InsideNoEndpoint(e, k, m.end);
      assert r == With(e, m) && i.start in r && r[i.start] == i && r[m.start] == m;
      assert !Apart(i, m);
    } else if m.start == i.start {
      assert Without(e, i)[i.start := i][i.end := i] == e;
    } else {
      InsideNoEndpoint(e, k, m.start);
      assert Without(e, i)[i.start := i][i.end := i] == e;
    }
  }

  lemma InsideNoEndpoint(e: Elems, k: int, x: int)
    requires Maximal(e) && k in e && e[k].start < x < e[k].end
    ensures x !in e
  {
    assert x in e ==> Stored(e, x) && e[x] != e[k];
    assert Stored(e, k);
  }

  lemma NonEmpty(s: set<int>)
    ensures s == {} || exists x :: x in s
  {
    if forall x: int :: x !in s {
      assert s == {};
    }
  }

  /** `f` is `e` without some of the intervals that end at or before `low`; the ones still to
      go have their endpoints in `keys`. */
  ghost predicate Pruning(e: Elems, f: Elems, low: int, keys: set<int>) {
    && Maximal(f)
    && (forall k :: k in f ==> k in e && f[k] == e[k])
    && (forall k :: k in e && k !in f ==> e[k].end <= low)
    && (forall k :: k in f && f[k].end <= low ==> k in keys)
    && (AllAfter(e, low) ==> f == e)
  }

  lemma PruneStep(e: Elems, f: Elems, low: int, keys: set<int>, k: int)
    requires Pruning(e, f, low, keys)
    ensures Pruning(e, if k in f && f[k].end <= low then Without(f, f[k]) else f, low, keys - {k})
  {
    if k in f && f[k].end <= low {
      WithoutMaximal(f, k);
      assert Stored(f, k);
    }
  }

  class IntervalHash {
    var elems: Elems
    var historyMsg: map<int, int>

    constructor ()
      ensures elems == map[] && historyMsg == map[] && Maximal(elems)
    {
      elems, historyMsg := map[], map[];
    }

    method AddOrMerge(m: Interval) returns (n: Interval)
      modifies this
      ensures (elems, n) == Merged(old(elems), m)
      ensures historyMsg == old(historyMsg)[m.start := m.end]
    {
      var minStart, maxEnd, maxEndCnt := m.start, m.end, m.endCnt;
      historyMsg := historyMsg[m.start := m.end];
      if minStart in elems {
        var qi := elems[minStart];
        if qi.start < minStart {
          minStart := qi.start;
        }
        if qi.end > maxEnd {
          maxEnd, maxEndCnt := qi.end, qi.endCnt;
        }
        elems := elems - {qi.start} - {qi.end};
      }
      if maxEnd in elems {
        var qi := elems[maxEnd];
        if qi.end > maxEnd {
          maxEnd, maxEndCnt := qi.end, qi.endCnt;
        }
        if qi.start < minStart {
          minStart := qi.start;
        }
        elems := elems - {qi.start} - {qi.end};
      }
      n := Interval(minStart, maxEnd, maxEndCnt);
      elems := elems[minStart := n];
      elems := elems[maxEnd := n];
    }

    /** DeleteInterval: exactly the bytes of `i` are no longer confirmed if it is one of the
        maximal runs, and nothing happens if it is not. */
    method DeleteInterval(i: Interval)
      modifies this`elems
      ensures Maximal(old(elems)) ==> Maximal(elems)
      ensures Maximal(old(elems)) ==>
                forall x :: Covers(elems, x) <==> Covers(old(elems), x) && !(IsRun(old(elems), i) && In(i, x))
      ensures elems == if IsRun(old(elems), i) then Without(old(elems), i) else old(elems)
    {
      if i.start in elems && elems[i.start].start == i.start && elems[i.start].end == i.end {
        ghost var e := elems;
        if Maximal(e) {
          WithoutMaximal(e, i.start);
          WithoutCovers(e, i.start);
        }
        elems := elems - {i.start} - {i.end};
      }
    }

    method DeleteElems(low: int) returns (cnt: nat)
      requires Maximal(elems)
      modifies this`elems
      ensures Pruning(old(elems), elems, low, {})
    {
      cnt := 0;
      ghost var e := elems;
      var keys := elems.Keys;
      while keys != {}
        invariant Pruning(e, elems, low, keys)
        decreases |keys|
      {
        NonEmpty(keys);
        var k :| k in keys;
        PruneStep(e, elems, low, keys, k);
        keys := keys - {k};
        if k in elems {
          var v := elems[k];
          if v.end <= low {
            elems := elems - {v.start} - {v.end};
            cnt := cnt + 1;
          }
        }
      }
    }

    method DeleteHistory(low: int)
      modifies this`historyMsg
      ensures forall s :: s in historyMsg <==> s in old(historyMsg) && !(old(historyMsg)[s] <= low && s < low)
      ensures forall s :: s in historyMsg ==> historyMsg[s] == old(historyMsg)[s]
    {
      var starts := historyMsg.Keys;
      while starts != {}
        invariant starts <= historyMsg.Keys
        invariant forall s :: s in historyMsg <==>
                    s in old(historyMsg) && (s in starts || !(old(historyMsg)[s] <= low && s < low))
        invariant forall s :: s in historyMsg ==> historyMsg[s] == old(historyMsg)[s]
        decreases |starts|
      {
        NonEmpty(starts);
        var s :| s in starts;
        starts := starts - {s};
        if historyMsg[s] <= low && s < low {
          historyMsg := historyMsg - {s};
        }
      }
    }

    /** DeleteLower: the intervals and messages that end at or before `low` go. */
    method DeleteLower(low: int) returns (cnt: nat)
      requires Maximal(elems)
      modifies this
      ensures Maximal(elems)
      ensures forall k :: k in elems <==> k in old(elems) && old(elems)[k].end > low
      ensures forall k :: k in elems ==> elems[k] == old(elems)[k]
      ensures AllAfter(old(elems), low) ==> elems == old(elems)
      ensures forall s :: s in historyMsg <==> s in old(historyMsg) && !(old(historyMsg)[s] <= low && s < low)
      ensures forall s :: s in historyMsg ==> historyMsg[s] == old(historyMsg)[s]
    {
      cnt := DeleteElems(low);
      DeleteHistory(low);
    }

    /** The consistency pass of processInFlightQueue: messages of the history that no interval
        shares a byte with are forgotten, and the caller is told to reset the reader. */
    method DropUncovered() returns (fix: bool)
      modifies this`historyMsg
      ensures fix <==> exists s :: s in old(historyMsg) && !Shares(elems, s, old(historyMsg)[s])
      ensures !fix ==> historyMsg == old(historyMsg)
      ensures forall s :: s in historyMsg <==> s in old(historyMsg) && Shares(elems, s, old(historyMsg)[s])
      ensures forall s :: s in historyMsg ==> historyMsg[s] == old(historyMsg)[s]
    {
      fix := false;
      var starts := historyMsg.Keys;
      while starts != {}
        invariant starts <= historyMsg.Keys
        invariant forall s :: s in historyMsg <==>
                    s in old(historyMsg) && (s in starts || Shares(elems, s, old(historyMsg)[s]))
        invariant forall s :: s in historyMsg ==> historyMsg[s] == old(historyMsg)[s]
        invariant !fix ==> historyMsg == old(historyMsg)
        invariant fix <==> exists s :: s in old(historyMsg) && s !in starts && !Shares(elems, s, old(historyMsg)[s])
        decreases |starts|
      {
        NonEmpty(starts);
        var s :| s in starts;
        starts := starts - {s};
        if !Shares(elems, s, historyMsg[s]) {
          fix := true;
          historyMsg := historyMsg - {s};
        }
      }
    }

    /** IsCompleteOverlap. */
    predicate IsCompleteOverlap(m: Interval)
      reads this
    {
      || (m.start in elems && elems[m.start].end >= m.end)
      || (m.end in elems && elems[m.end].start <= m.start)
      || (m.start in historyMsg && historyMsg[m.start] >= m.end)
    }
  }
}
