/** The two-level binary search: first for a segment, then for an entry inside it. */
module CommitLogSearch {
  import opened CommitLogLayout
  import opened Wrappers

  /** The three ICommitLogComparator implementations, with the value searched for. */
  datatype Comparator = ByCount(x: int) | ById(x: int) | ByOffset(x: int)

  /** Every entry covers a range of counts, of ids and of byte offsets. */
  function Lo(c: Comparator, l: LogData): (r: int) {
    match c
    case ByCount(_) => l.msgCnt
    case ById(_) => l.logId
    case ByOffset(_) => l.msgOffset
  }

  function Hi(c: Comparator, l: LogData): (r: int) {
    match c
    case ByCount(_) => l.msgCnt + l.msgNum - 1
    case ById(_) => l.lastMsgLogId
    case ByOffset(_) => l.msgOffset + l.msgSize - 1
  }

  predicate LessThanLeft(c: Comparator, l: LogData) { Lo(c, l) > c.x }

  predicate GreaterThanRight(c: Comparator, l: LogData) { Hi(c, l) < c.x }

  /** Integer division that truncates towards zero. */
  function Quotient(x: int, n: int): (q: int)
    requires n > 0
  {
    if x >= 0 then x / n else -((-x) / n)
  }

  function EndBoundary(c: Comparator): (i: int) { Quotient(c.x, LOGROTATE_NUM) + 1 }

  /** The ranges of the entries follow each other without overlap. */
  ghost predicate Ordered(c: Comparator, s: seq<LogData>) {
    && (forall i :: 0 <= i < |s| ==> Lo(c, s[i]) <= Hi(c, s[i]))
    && (forall i, j :: 0 <= i < j < |s| ==> Hi(c, s[i]) < Lo(c, s[j]))
  }

  /** They leave no gap either, and everything dropped before the start took up its share. */
  ghost predicate Tiles(c: Comparator, s: seq<LogData>) {
    && (forall i :: 0 <= i < |s| ==> Lo(c, s[i]) <= Hi(c, s[i]))
    && (forall i :: 0 < i < |s| ==> Lo(c, s[i]) == Hi(c, s[i - 1]) + 1)
  }

  ghost predicate Grounded(c: Comparator, d: Layout)
    requires Sound(d)
  {
    Live(d) != [] ==> d.start.count <= Lo(c, Live(d)[0])
  }

  /** The reference: a linear scan for the first entry that covers the value. */
  function Scan(c: Comparator, s: seq<LogData>): (k: int)
    ensures -1 <= k < |s|
    ensures k >= 0 ==> Lo(c, s[k]) <= c.x <= Hi(c, s[k])
    ensures forall i :: 0 <= i < (if k < 0 then |s| else k) ==> !(Lo(c, s[i]) <= c.x <= Hi(c, s[i]))
  {
    if s == [] then -1
    else if !LessThanLeft(c, s[0]) && !GreaterThanRight(c, s[0]) then 0
    else
      var k := Scan(c, s[1..]);
      assert forall i :: 0 < i < |s| ==> s[i] == s[1..][i - 1];
      if k < 0 then -1 else k + 1
  }

  lemma {:induction false} TilesOrdered(c: Comparator, s: seq<LogData>)
    requires Tiles(c, s)
    ensures Ordered(c, s)
  {
    if s != [] {
      var p := s[..|s| - 1];
      TilesOrdered(c, p);
      forall i, j | 0 <= i < j < |s| ensures Hi(c, s[i]) < Lo(c, s[j]) {
        if i < |p| - 1 {
          assert Hi(c, p[i]) < Lo(c, p[|p| - 1]);
        }
        if j < |p| {
          assert Hi(c, p[i]) < Lo(c, p[j]);
        }
      }
    }
  }

  /** In a log that tiles the queue exactly the values in range are found. */
  lemma {:induction false} ScanTiles(c: Comparator, s: seq<LogData>)
    requires Tiles(c, s) && s != []
    ensures Scan(c, s) >= 0 <==> Lo(c, s[0]) <= c.x <= Hi(c, s[|s| - 1])
  {
    TilesOrdered(c, s);
    if Lo(c, s[0]) <= c.x <= Hi(c, s[|s| - 1]) && Scan(c, s) < 0 {
      TilesCover(c, s);
    }
  }

  lemma {:induction false} TilesCover(c: Comparator, s: seq<LogData>)
    requires Tiles(c, s) && s != [] && Lo(c, s[0]) <= c.x <= Hi(c, s[|s| - 1])
    ensures exists i :: 0 <= i < |s| && Lo(c, s[i]) <= c.x <= Hi(c, s[i])
  {
    var n := |s| - 1;
    if c.x < Lo(c, s[n]) {
      TilesCover(c, s[..n]);
      var i :| 0 <= i < n && Lo(c, s[..n][i]) <= c.x <= Hi(c, s[..n][i]);
      assert Lo(c, s[i]) <= c.x <= Hi(c, s[i]);
    }
  }

  lemma {:induction false} LoGrows(c: Comparator, s: seq<LogData>, k: nat)
    requires Ordered(c, s) && k < |s|
    ensures Lo(c, s[k]) >= Lo(c, s[0]) + k
  {
    if k > 0 {
      LoGrows(c, s, k - 1);
    }
  }

  // ---------------------------------------------------------------- where entries are

  /** Record r of segment i is a live entry, and which one. */
  lemma RecordIsLive(d: Layout, i: int, r: nat)
    requires Sound(d) && d.start.index <= i <= d.current && r < |Segment(d, i)|
    requires i == d.start.index ==> d.start.offset <= RECORD * r
    ensures 0 <= IndexOf(d, i, RECORD * r) < |Live(d)|
    ensures Live(d)[IndexOf(d, i, RECORD * r)] == Segment(d, i)[r]
  {
    SegmentSlice(d, i, RECORD * r, 1);
    var p := IndexOf(d, i, RECORD * r);
    assert Live(d)[p] == Live(d)[p..p + 1][0];
    assert Segment(d, i)[r] == Segment(d, i)[r..r + 1][0];
  }

  /** Every live entry is some record of some live segment. */
  lemma {:induction false} RecordOf(d: Layout, k: int, j: int) returns (i: int, r: nat)
    requires Sound(d) && d.start.index <= j <= d.current && 0 <= k < |Live(d)|
    requires k >= IndexOf(d, j, if j == d.start.index then d.start.offset else 0)
    ensures d.start.index <= i <= d.current && r < |Segment(d, i)|
    ensures i == d.start.index ==> d.start.offset <= RECORD * r
    ensures IndexOf(d, i, RECORD * r) == k
    decreases d.current - j
  {
    LiveLength(d);
    r := k - IndexOf(d, j, 0);
    if r < |Segment(d, j)| {
      i := j;
    } else {
      i, r := RecordOf(d, k, j + 1);
    }
  }

  // ---------------------------------------------------------------- the search

  function FirstRecord(d: Layout, i: int): (r: int) {
    if i == d.start.index then d.start.offset / RECORD else 0
  }

  /** `k` is the live entry that covers the value, and record `r` of segment `i`. */
  ghost predicate IsTarget(d: Layout, c: Comparator, k: int, i: int, r: nat)
    requires Sound(d)
  {
    && Ordered(c, Live(d)) && 0 <= k < |Live(d)| && Lo(c, Live(d)[k]) <= c.x <= Hi(c, Live(d)[k])
    && d.start.index <= i <= d.current && FirstRecord(d, i) <= r < |Segment(d, i)|
    && IndexOf(d, i, RECORD * r) == k
  }

  /** How any live record compares with the value. */
  lemma CompareRecord(d: Layout, c: Comparator, k: int, i: int, r: nat, j: int, q: nat)
    requires Sound(d) && IsTarget(d, c, k, i, r)
    requires d.start.index <= j <= d.current && FirstRecord(d, j) <= q < |Segment(d, j)|
    ensures GreaterThanRight(c, Segment(d, j)[q]) <==> j < i || (j == i && q < r)
    ensures LessThanLeft(c, Segment(d, j)[q]) <==> j > i || (j == i && q > r)
  {
    RecordIsLive(d, j, q);
    var p := IndexOf(d, j, RECORD * q);
    if j < i {
      IndexOrdered(d, j, RECORD * q, i, RECORD * r);
      assert p < k;
    } else if i < j {
      IndexOrdered(d, i, RECORD * r, j, RECORD * q);
      assert k < p;
    }
    assert p < k ==> Hi(c, Live(d)[p]) < Lo(c, Live(d)[k]);
    assert p > k ==> Hi(c, Live(d)[k]) < Lo(c, Live(d)[p]);
  }

  /** The cut at SearchEndBoundary never excludes the target segment. */
  lemma BoundaryKeepsTarget(d: Layout, c: Comparator, k: int, i: int, r: nat)
    requires Sound(d) && Full(d) && Grounded(c, d) && IsTarget(d, c, k, i, r)
    ensures i <= EndBoundary(c)
  {
    LoGrows(c, Live(d), k);
    SegmentCount(d, i);
    assert c.x >= i * LOGROTATE_NUM;
  }

  /** The first loop of SearchLogDataByComparator. */
  method FindSegment(d: Layout, c: Comparator, ghost k: int, ghost i: int, ghost r: nat) returns (lo: int, hi: int)
    requires Sound(d) && Full(d) && Grounded(c, d)
    ensures hi <= d.current && d.start.index <= lo
    ensures IsTarget(d, c, k, i, r) ==> lo == i <= hi
  {
    lo, hi := d.start.index, EndBoundary(c);
    if hi > d.current {
      hi := d.current;
    }
    if IsTarget(d, c, k, i, r) {
      BoundaryKeepsTarget(d, c, k, i, r);
    }
    while lo < hi
      invariant d.start.index <= lo && hi <= d.current
      invariant IsTarget(d, c, k, i, r) ==> lo <= i <= hi
    {
      var mid := lo + (hi - lo) / 2;
      var seg := d.files[mid];
      if IsTarget(d, c, k, i, r) {
        CompareRecord(d, c, k, i, r, mid, |seg| - 1);
        CompareRecord(d, c, k, i, r, mid, FirstRecord(d, mid));
      }
      if GreaterThanRight(c, seg[|seg| - 1]) {
        lo := mid + 1;
      } else if LessThanLeft(c, seg[FirstRecord(d, mid)]) {
        hi := mid - 1;
      } else {
        lo := mid;
        break;
      }
    }
  }

  /** The second loop: the record the search ends on, if it looked at any. */
  method FindRecord(d: Layout, c: Comparator, index: int, ghost k: int, ghost r: nat) returns (cur: int)
    requires Sound(d) && d.start.index <= index <= d.current && Segment(d, index) != []
    ensures cur == -1 || FirstRecord(d, index) <= cur < |Segment(d, index)|
    ensures IsTarget(d, c, k, index, r) ==> cur == r
  {
    var seg := if index == d.current then d.tail else d.files[index];
    var a, b := FirstRecord(d, index), |seg| - 1;
    cur := -1;
    while a <= b
      invariant FirstRecord(d, index) <= a && b < |seg| && (cur == -1 || FirstRecord(d, index) <= cur < |seg|)
      invariant IsTarget(d, c, k, index, r) ==> a <= r <= b
    {
      cur := a + (b - a) / 2;
      if IsTarget(d, c, k, index, r) {
        CompareRecord(d, c, k, index, r, index, cur);
      }
      if LessThanLeft(c, seg[cur]) {
        b := cur - 1;
      } else if GreaterThanRight(c, seg[cur]) {
        a := cur + 1;
      } else {
        break;
      }
    }
  }

  /** What the search returns: a position, and the entry it last looked at. */
  datatype Found = Found(index: int, offset: int, entry: Option<LogData>)

  /** The entry `k` of the log, at its canonical position. */
  ghost predicate IsEntry(d: Layout, found: Found, k: int)
    requires Sound(d)
  {
    && 0 <= k < |Live(d)| && found.entry == Some(Live(d)[k])
    && Canonical(d, found.index, found.offset) && IndexOf(d, found.index, found.offset) == k
  }

  lemma TargetOf(d: Layout, c: Comparator) returns (i: int, r: nat)
    requires Sound(d) && Ordered(c, Live(d))
    ensures Scan(c, Live(d)) >= 0 ==>
              && IsTarget(d, c, Scan(c, Live(d)), i, r)
              && IsEntry(d, Found(i, r * RECORD, Some(Segment(d, i)[r])), Scan(c, Live(d)))
  {
    i, r := 0, 0;
    var k := Scan(c, Live(d));
    if k >= 0 {
      i, r := RecordOf(d, k, d.start.index);
      RecordIsEntry(d, i, r);
    }
  }

  /** A live record is the entry with its index. */
  lemma RecordIsEntry(d: Layout, i: int, r: nat)
    requires Sound(d) && d.start.index <= i <= d.current && r < |Segment(d, i)|
    requires i == d.start.index ==> d.start.offset <= RECORD * r
    ensures IsEntry(d, Found(i, r * RECORD, Some(Segment(d, i)[r])), IndexOf(d, i, RECORD * r))
  {
    RecordIsLive(d, i, r);
  }

  /** SearchLogDataByComparator finds what the linear scan finds, at its canonical position. For
      a value no entry covers, what it returns is still an entry of the log, or none. */
  method Search(d: Layout, c: Comparator) returns (found: Found, status: Status)
    requires Sound(d) && Full(d) && Ordered(c, Live(d)) && Grounded(c, d)
    ensures Scan(c, Live(d)) >= 0 ==> status == Ok && IsEntry(d, found, Scan(c, Live(d)))
    ensures found.entry.Some? ==> status == Ok && IsEntry(d, found, IndexOf(d, found.index, found.offset))
  {
    ghost var i, r := TargetOf(d, c);
    ghost var k := Scan(c, Live(d));
    var lo, hi := FindSegment(d, c, k, i, r);
    if lo > hi {
      return Found(hi, 0, None), SearchNotFound;
    }
    var seg := if lo == d.current then d.tail else d.files[lo];
    if seg == [] {
      return Found(0, 0, None), Eof;
    }
    var cur := FindRecord(d, c, lo, k, r);
    if cur < 0 {
      return Found(lo, d.start.offset, None), Ok;
    }
    RecordIsEntry(d, lo, cur);
    return Found(lo, cur * RECORD, Some(seg[cur])), Ok;
  }
}
