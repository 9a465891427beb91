/** IntervalSkipList: the same intervals kept in order of their start. The skip list itself is a
    library; it appears as the sorted sequence of its values. */
module IntervalList {
  import opened Intervals

  ghost predicate Sorted(s: seq<Interval>) {
    && (forall i :: 0 <= i < |s| ==> s[i].start < s[i].end)
    && (forall i, j :: 0 <= i < j < |s| ==> s[i].end < s[j].start)
  }

  /** The list and the hash hold the same intervals. */
  ghost predicate Same(s: seq<Interval>, e: Elems) {
    && (forall i :: i in s ==> i.start in e && e[i.start] == i)
    && (forall k :: k in e ==> e[k] in s)
  }

  /** Overlapping, or with the boundaries also touching. */
  predicate Meets(i: Interval, m: Interval, excludeBoard: bool) {
    if excludeBoard then i.end > m.start && i.start < m.end else i.end >= m.start && i.start <= m.end
  }

  /** Seek: the first interval that starts at or after the key. */
  method Seek(s: seq<Interval>, key: int) returns (k: nat)
    requires Sorted(s)
    ensures k <= |s| && (forall i :: 0 <= i < k ==> s[i].start < key)
    ensures forall i :: k <= i < |s| ==> key <= s[i].start
  {
    k := 0;
    while k < |s| && s[k].start < key
      invariant 0 <= k <= |s| && forall i :: 0 <= i < k ==> s[i].start < key
    {
      k := k + 1;
    }
    if k < |s| {
      StartsRise(s, k, key);
    }
  }

  /** The last loop of Query: the intervals from j on that start before the end of the range. */
  method Collect(s: seq<Interval>, j: nat, queryEnd: int) returns (rets: seq<Interval>, ghost b: nat)
    requires Sorted(s) && j <= |s|
    ensures j <= b <= |s| && rets == s[j..b]
    ensures (forall i :: j <= i < b ==> s[i].start < queryEnd) && (forall i :: b <= i < |s| ==> queryEnd <= s[i].start)
  {
    rets := [];
    var k := j;
    while k < |s| && s[k].start < queryEnd
      invariant j <= k <= |s| && rets == s[j..k] && forall i :: j <= i < k ==> s[i].start < queryEnd
    {
      assert s[j..k + 1] == s[j..k] + [s[k]];
      rets := rets + [s[k]];
      k := k + 1;
    }
    b := k;
    if k < |s| {
      StartsRise(s, k, queryEnd);
    }
  }

  lemma StartsRise(s: seq<Interval>, k: nat, key: int)
    requires Sorted(s) && k < |s| && key <= s[k].start
    ensures forall i :: k <= i < |s| ==> key <= s[i].start
  {
    assert forall i :: k < i < |s| ==> s[k].start < s[k].end < s[i].start;
  }

  /** The interval before the place sought, if it reaches into the range. */
  function Reaching(s: seq<Interval>, k: nat, m: Interval, excludeBoard: bool): (r: seq<Interval>)
    requires k <= |s|
  {
    if k == 0 || s[k - 1].end < m.start || (excludeBoard && s[k - 1].end == m.start) then [] else [s[k - 1]]
  }

  /** Query returns exactly the intervals that meet the range, in order: the slice from a to b. */
  method Query(s: seq<Interval>, m: Interval, excludeBoard: bool)
    returns (rets: seq<Interval>, ghost a: nat, ghost b: nat)
    requires Sorted(s) && m.start < m.end
    ensures a <= b <= |s| && rets == s[a..b]
    ensures forall i :: 0 <= i < |s| ==> (a <= i < b <==> Meets(s[i], m, excludeBoard))
  {
    var queryEnd := if excludeBoard then m.end else m.end + 1;
    var queryStart := if excludeBoard then m.start + 1 else m.start;
    var k := Seek(s, queryStart);
    var first, rest := Reaching(s, k, m, excludeBoard), [];
    a, b := k - |first|, k;
    if k == |s| {
      rets := first;
    } else if k == 0 {
      if s[0].start < queryEnd {
        first := [s[0]];
      }
      rest, b := Collect(s, 1, queryEnd);
      FromSecond(s, queryEnd, b);
      b := if first == [] then 0 else b;
      rets := first + rest;
    } else {
      rest, b := Collect(s, k, queryEnd);
      assert s[a..b] == s[a..k] + s[k..b];
      rets := first + rest;
    }
    SliceMeets(s, m, excludeBoard, k, a, b);
  }

  /** With the first interval out of range, so is the second. */
  lemma FromSecond(s: seq<Interval>, queryEnd: int, b: nat)
    requires Sorted(s) && s != [] && 1 <= b <= |s| && forall i :: 1 <= i < b ==> s[i].start < queryEnd
    ensures s[0].start >= queryEnd ==> b == 1
    ensures [s[0]] + s[1..b] == s[0..b]
  {
    if b > 1 {
      assert s[0].end < s[1].start;
    }
  }

  lemma SliceMeets(s: seq<Interval>, m: Interval, excludeBoard: bool, k: nat, a: nat, b: nat)
    requires Sorted(s) && m.start < m.end && k <= |s|
    requires a == k - |Reaching(s, k, m, excludeBoard)| && a <= b <= |s| && k <= b
    requires forall i :: 0 <= i < k ==> s[i].start < if excludeBoard then m.start + 1 else m.start
    requires forall i :: k <= i < |s| ==> (if excludeBoard then m.start + 1 else m.start) <= s[i].start
    requires forall i :: k <= i < b ==> s[i].start < if excludeBoard then m.end else m.end + 1
    requires forall i :: b <= i < |s| ==> (if excludeBoard then m.end else m.end + 1) <= s[i].start
    ensures forall i :: 0 <= i < |s| ==> (a <= i < b <==> Meets(s[i], m, excludeBoard))
  {
    forall i | 0 <= i < |s| ensures a <= i < b <==> Meets(s[i], m, excludeBoard) {
      if i < k - 1 {
        assert s[i].end < s[k - 1].start;
      }
    }
  }

  lemma MeetsNeighbours(s: seq<Interval>, e: Elems, m: Interval, i: int)
    requires Sorted(s) && Same(s, e) && Maximal(e) && New(e, m) && 0 <= i < |s|
    ensures Meets(s[i], m, false) <==> s[i].end == m.start || s[i].start == m.end
    ensures !Meets(s[i], m, true)
  {
    assert s[i] in s;
    Beside(e, m, s[i].start);
  }

  /** Positions a to b of the list are the intervals that meet m; the rest lie to either side. */
  ghost predicate IsSlice(s: seq<Interval>, m: Interval, a: int, b: int) {
    && 0 <= a <= b <= |s|
    && (forall i :: 0 <= i < a ==> s[i].end < m.start)
    && (forall i :: a <= i < b ==> Meets(s[i], m, false))
    && (forall i :: b <= i < |s| ==> m.end < s[i].start)
  }

  /** AddOrMerge on the list. */
  method AddOrMerge(s: seq<Interval>, m: Interval) returns (t: seq<Interval>, n: Interval)
    requires Sorted(s) && m.start < m.end
    ensures exists a, b :: IsSlice(s, m, a, b) && n == Spanning(s[a..b], m) && t == s[..a] + [n] + s[b..]
  {
    ghost var a, b;
    var removings;
    removings, a, b := Query(s, m, false);
    n := Spanning(removings, m);
    var k := Seek(s, n.start);
    if removings != [] {
      assert removings[0] == s[a] && Meets(s[a], m, false);
      assert a > 0 ==> !Meets(s[a - 1], m, false) && s[a - 1].end < s[a].start;
      assert k == a && k + |removings| == b;
    }
    assert IsSlice(s, m, k, k + |removings|);
    t := s[..k] + [n] + s[k + |removings|..];
    assert s[k..k + |removings|] == removings;
  }

  /** The range together with the intervals it meets. */
  function Spanning(rs: seq<Interval>, m: Interval): (n: Interval) {
    if rs == [] then m
    else
      var last := rs[|rs| - 1];
      Interval(if rs[0].start < m.start then rs[0].start else m.start,
               if last.end > m.end then last.end else m.end,
               if last.end > m.end then last.endCnt else m.endCnt)
  }

  // ---------------------------------------------------------------- agreement with the hash

  /** The first interval met reaches in from the left exactly when the hash has a left
      neighbour, and then it is that neighbour. */
  lemma LeftNeighbour(s: seq<Interval>, e: Elems, m: Interval, a: int, b: int)
    requires Sorted(s) && Same(s, e) && Maximal(e) && New(e, m) && IsSlice(s, m, a, b)
    ensures m.start in e <==> a < b && s[a].start < m.start
    ensures m.start in e ==> e[m.start] == s[a]
  {
    if m.start in e {
      Neighbour(e, m, m.start);
      assert Stored(e, m.start) && e[m.start] in s;
      var i :| 0 <= i < |s| && s[i] == e[m.start];
      assert Meets(s[i], m, false);
    }
    if a < b && s[a].start < m.start {
      assert s[a] in s;
      MeetsNeighbours(s, e, m, a);
      Beside(e, m, s[a].start);
    }
  }

  lemma RightNeighbour(s: seq<Interval>, e: Elems, m: Interval, a: int, b: int)
    requires Sorted(s) && Same(s, e) && Maximal(e) && New(e, m) && IsSlice(s, m, a, b)
    ensures m.end in e <==> a < b && s[b - 1].end > m.end
    ensures m.end in e ==> e[m.end] == s[b - 1]
  {
    if m.end in e {
      Neighbour(e, m, m.end);
      assert Stored(e, m.end) && e[m.end] in s;
      var i :| 0 <= i < |s| && s[i] == e[m.end];
      assert Meets(s[i], m, false);
    }
    if a < b && s[b - 1].end > m.end {
      assert s[b - 1] in s;
      MeetsNeighbours(s, e, m, b - 1);
      Beside(e, m, s[b - 1].start);
    }
  }

  /** Both forms return the same merged interval. */
  lemma SameInterval(s: seq<Interval>, e: Elems, m: Interval, a: int, b: int)
    requires Sorted(s) && Same(s, e) && Maximal(e) && New(e, m) && IsSlice(s, m, a, b)
    ensures Merged(e, m).1 == Spanning(s[a..b], m)
  {
    LeftNeighbour(s, e, m, a, b);
    RightNeighbour(s, e, m, a, b);
    MergedSpan(e, m);
    SpanOfSlice(s, e, m, a, b);
  }

  lemma SpanOfSlice(s: seq<Interval>, e: Elems, m: Interval, a: int, b: int)
    requires 0 <= a <= b <= |s|
    requires (m.start in e <==> a < b && s[a].start < m.start) && (m.start in e ==> e[m.start] == s[a])
    requires (m.end in e <==> a < b && s[b - 1].end > m.end) && (m.end in e ==> e[m.end] == s[b - 1])
    ensures Spanning(s[a..b], m) ==
            Interval(if m.start in e then e[m.start].start else m.start,
                     if m.end in e then e[m.end].end else m.end,
                     if m.end in e then e[m.end].endCnt else m.endCnt)
  {
    if a < b {
      assert s[a..b][0] == s[a] && s[a..b][b - a - 1] == s[b - 1];
    }
  }

  /** The merged interval reaches from the start of the left neighbour to the end of the right. */
  lemma MergedSpan(e: Elems, m: Interval)
    requires Maximal(e) && New(e, m)
    ensures Merged(e, m).1 ==
            Interval(if m.start in e then e[m.start].start else m.start,
                     if m.end in e then e[m.end].end else m.end,
                     if m.end in e then e[m.end].endCnt else m.endCnt)
    ensures m.start in e ==> e[m.start].start < m.start
    ensures m.end in e ==> m.end < e[m.end].end
  {
    if m.start in e {
      Neighbour(e, m, m.start);
      assert Stored(e, m.start);
    }
    if m.end in e {
      Neighbour(e, m, m.end);
      assert Stored(e, m.end);
    }
    assert Grown(e, m, m.start).end == m.end;
  }

  lemma SortedInsert(p: seq<Interval>, n: Interval, q: seq<Interval>)
    requires Sorted(p) && Sorted(q) && n.start < n.end
    requires (forall i :: 0 <= i < |p| ==> p[i].end < n.start) && (forall i :: 0 <= i < |q| ==> n.end < q[i].start)
    ensures Sorted(p + [n] + q)
  {}

  /** The list stays sorted. */
  lemma SortedAfter(s: seq<Interval>, m: Interval, a: int, b: int)
    requires Sorted(s) && m.start < m.end && IsSlice(s, m, a, b)
    ensures Sorted(s[..a] + [Spanning(s[a..b], m)] + s[b..])
  {
    var n := Spanning(s[a..b], m);
    if a < b {
      assert s[a..b][0] == s[a] && s[a..b][b - a - 1] == s[b - 1];
    }
    SortedInsert(s[..a], n, s[b..]);
  }

  /** An interval of the hash that is no neighbour of m. */
  ghost predicate Bystander(e: Elems, m: Interval, k: int) {
    k in e && (m.start in e ==> e[k] != e[m.start]) && (m.end in e ==> e[k] != e[m.end])
  }

  lemma Bystanders(e: Elems, m: Interval, k: int)
    requires Maximal(e) && New(e, m)
    ensures Bystander(e, m, k) ==> k in Merged(e, m).0 && Merged(e, m).0[k] == e[k]
    ensures k in Merged(e, m).0 ==>
              Merged(e, m).0[k] == Merged(e, m).1 || (Bystander(e, m, k) && Merged(e, m).0[k] == e[k])
  {
    if m.start in e {
      Neighbour(e, m, m.start);
      assert Stored(e, m.start);
    }
    if m.end in e {
      Neighbour(e, m, m.end);
      assert Stored(e, m.end);
    }
    if k in e {
      assert Stored(e, k);
      Beside(e, m, k);
    }
  }

  /** The intervals met are the neighbours. */
  lemma MetAreNeighbours(s: seq<Interval>, e: Elems, m: Interval, a: int, b: int, i: int)
    requires Sorted(s) && Same(s, e) && Maximal(e) && New(e, m) && IsSlice(s, m, a, b) && 0 <= i < |s|
    ensures Bystander(e, m, s[i].start) <==> !(a <= i < b)
  {
    assert s[i] in s;
    Beside(e, m, s[i].start);
    if m.start in e {
      Neighbour(e, m, m.start);
    }
    if m.end in e {
      Neighbour(e, m, m.end);
    }
  }

  /** On messages that share no byte with the confirmed ones the list and the hash agree: the
      same merged interval comes back, and the same intervals are left. */
  lemma Agreement(s: seq<Interval>, e: Elems, m: Interval, a: int, b: int)
    requires Sorted(s) && Same(s, e) && Maximal(e) && New(e, m) && IsSlice(s, m, a, b)
    ensures var n := Spanning(s[a..b], m);
            Merged(e, m).1 == n && Same(s[..a] + [n] + s[b..], Merged(e, m).0)
  {
    var r, n := Merged(e, m).0, Spanning(s[a..b], m);
    var t := s[..a] + [n] + s[b..];
    SameInterval(s, e, m, a, b);
    Merge(e, m);
    forall i | i in t ensures i.start in r && r[i.start] == i {
      if i != n {
        var j := FromRest(s, a, b, n, i);
        ListInHash(s, e, m, a, b, j);
      }
    }
    forall k | k in r ensures r[k] in t {
      HashInList(s, e, m, a, b, k);
    }
  }

  lemma ListInHash(s: seq<Interval>, e: Elems, m: Interval, a: int, b: int, j: int)
    requires Sorted(s) && Same(s, e) && Maximal(e) && New(e, m) && IsSlice(s, m, a, b)
    requires 0 <= j < |s| && !(a <= j < b)
    ensures s[j].start in Merged(e, m).0 && Merged(e, m).0[s[j].start] == s[j]
  {
    assert s[j] in s;
    MetAreNeighbours(s, e, m, a, b, j);
    Bystanders(e, m, s[j].start);
  }

  lemma HashInList(s: seq<Interval>, e: Elems, m: Interval, a: int, b: int, k: int)
    requires Sorted(s) && Same(s, e) && Maximal(e) && New(e, m) && IsSlice(s, m, a, b) && k in Merged(e, m).0
    ensures Merged(e, m).0[k] == Merged(e, m).1 || Merged(e, m).0[k] in s[..a] + [Spanning(s[a..b], m)] + s[b..]
  {
    Bystanders(e, m, k);
    if Merged(e, m).0[k] != Merged(e, m).1 {
      var j :| 0 <= j < |s| && s[j] == e[k];
      assert Stored(e, k) && Bystander(e, m, s[j].start);
      MetAreNeighbours(s, e, m, a, b, j);
      InRest(s, a, b, Spanning(s[a..b], m), j);
    }
  }

  lemma FromRest(s: seq<Interval>, a: int, b: int, n: Interval, i: Interval) returns (j: int)
    requires 0 <= a <= b <= |s| && i in s[..a] + [n] + s[b..] && i != n
    ensures 0 <= j < |s| && s[j] == i && !(a <= j < b)
  {
    var t := s[..a] + [n] + s[b..];
    var k :| 0 <= k < |t| && t[k] == i;
    j := if k < a then k else k - 1 - a + b;
  }

  lemma InRest(s: seq<Interval>, a: int, b: int, n: Interval, j: int)
    requires 0 <= a <= b <= |s| && 0 <= j < |s| && !(a <= j < b)
    ensures s[j] in s[..a] + [n] + s[b..]
  {
    var t := s[..a] + [n] + s[b..];
    assert if j < a then t[j] == s[j] else t[j - b + a + 1] == s[j];
  }
}
