/** How the commit log lies on disk: closed segment files, a current file, a start position
    inside the first live segment, and what the whole means as one sequence. */
module CommitLogLayout {

  /** CommitLogData. `msgCnt` is the 1-based count of the first message of the entry. */
  datatype LogData = LogData(
    logId: int,
    epoch: int,
    lastMsgLogId: int,
    msgOffset: int,
    msgSize: int,
    msgCnt: int,
    msgNum: int)

  /** LogStartInfo: count index of the first live entry, its segment, its byte offset there. */
  datatype LogStart = LogStart(count: int, index: int, offset: int)

  datatype Status =
    | Ok | WrongId | WrongLastId | OutOfBound | OffsetInvalid | LessThanStart | Eof | IdNotFound
    | KeepMin | SearchNotFound | NotExist

  /** The encoded size of one entry, in bytes. */
  const RECORD := 48
  const LOGROTATE_NUM := 2_000_000
  const MIN_KEEP_LOG_ITEM := 1000

  type Files = map<int, seq<LogData>>

  /** Everything on disk and in the buffer: `tail` is the current file and what is buffered
      behind it. */
  datatype Layout = Layout(files: Files, start: LogStart, current: int, tail: seq<LogData>)

  function File(files: Files, i: int): (s: seq<LogData>) {
    if i in files then files[i] else []
  }

  function Join(files: Files, i: int, j: int): (s: seq<LogData>)
    decreases j - i
  {
    if i >= j then [] else Join(files, i, j - 1) + File(files, j - 1)
  }

  function Segment(d: Layout, i: int): (s: seq<LogData>) {
    if i == d.current then d.tail else File(d.files, i)
  }

  /** Live segments are there and not empty, and the start is the position of an entry, or
      the end of the current segment. */
  ghost predicate Sound(d: Layout) {
    && 0 <= d.start.index <= d.current
    && 0 <= d.start.offset && d.start.offset % RECORD == 0
    && (forall i :: d.start.index <= i < d.current ==> i in d.files && d.files[i] != [])
    && Canonical(d, d.start.index, d.start.offset)
  }

  /** Segments are closed exactly when full, so segment i starts at count i * LOGROTATE_NUM
      or later. */
  ghost predicate Full(d: Layout) {
    && (forall i :: d.start.index <= i < d.current ==> i in d.files && |d.files[i]| == LOGROTATE_NUM)
    && |d.tail| <= LOGROTATE_NUM
    && d.start.count - d.start.offset / RECORD >= d.start.index * LOGROTATE_NUM
    && d.start.offset < RECORD * LOGROTATE_NUM
  }

  function All(d: Layout): (s: seq<LogData>) {
    Join(d.files, d.start.index, d.current) + d.tail
  }

  /** The log as one sequence. */
  ghost function Live(d: Layout): (s: seq<LogData>)
    requires Sound(d)
  {
    FirstInside(d);
    All(d)[d.start.offset / RECORD..]
  }

  lemma FirstInside(d: Layout)
    requires Sound(d)
    ensures d.start.offset / RECORD <= |All(d)|
  {
    if d.start.index < d.current {
      JoinSplit(d.files, d.start.index, d.start.index + 1, d.current);
    }
  }

  // ---------------------------------------------------------------- positions

  /** (i, off) is the byte position of an entry, or of the end of a segment. */
  ghost predicate IsPosition(d: Layout, i: int, off: int) {
    && d.start.index <= i <= d.current
    && 0 <= off <= RECORD * |Segment(d, i)| && off % RECORD == 0
    && (i == d.start.index ==> d.start.offset <= off)
  }

  /** The end of a closed segment is better named as the start of the next. */
  ghost predicate Canonical(d: Layout, i: int, off: int) {
    && d.start.index <= i <= d.current
    && 0 <= off <= RECORD * |Segment(d, i)| && off % RECORD == 0
    && (i == d.start.index ==> d.start.offset <= off)
    && (i < d.current ==> off < RECORD * |Segment(d, i)|)
  }

  /** How many live entries lie before the position. */
  function IndexOf(d: Layout, i: int, off: int): (k: int) {
    |Join(d.files, d.start.index, i)| + off / RECORD - d.start.offset / RECORD
  }

  lemma {:induction false} JoinSplit(files: Files, i: int, k: int, j: int)
    requires i <= k <= j
    ensures Join(files, i, j) == Join(files, i, k) + Join(files, k, j)
    decreases j - k
  {
    if k < j {
      JoinSplit(files, i, k, j - 1);
    }
  }

  /** A file that is not between the bounds does not matter. */
  lemma {:induction false} JoinFrame(f: Files, g: Files, i: int, j: int)
    requires forall k :: i <= k < j ==> File(f, k) == File(g, k)
    ensures Join(f, i, j) == Join(g, i, j)
    decreases j - i
  {
    if i < j {
      JoinFrame(f, g, i, j - 1);
    }
  }

  lemma SegmentInAll(d: Layout, i: int)
    requires d.start.index <= i <= d.current
    ensures var k := |Join(d.files, d.start.index, i)|;
            k + |Segment(d, i)| <= |All(d)| && All(d)[k..k + |Segment(d, i)|] == Segment(d, i)
  {
    if i < d.current {
      JoinSplit(d.files, d.start.index, i + 1, d.current);
    }
  }

  lemma SliceShift(s: seq<LogData>, drop: nat, k: nat, n: nat, x: nat, m: nat)
    requires x + m <= n && k + n <= |s| && drop <= k + x
    ensures s[drop..][k + x - drop..k + x - drop + m] == s[k..k + n][x..x + m]
  {
    var l, r := s[drop..][k + x - drop..k + x - drop + m], s[k..k + n][x..x + m];
    assert |l| == |r|;
    assert forall i :: 0 <= i < m ==> l[i] == s[k + x + i] && r[i] == s[k + x + i];
  }

  /** Within one segment, live entries and file records run in parallel. */
  lemma SegmentSlice(d: Layout, i: int, off: int, m: nat)
    requires Sound(d) && IsPosition(d, i, off) && off / RECORD + m <= |Segment(d, i)|
    ensures 0 <= IndexOf(d, i, off) && IndexOf(d, i, off) + m <= |Live(d)|
    ensures Live(d)[IndexOf(d, i, off)..IndexOf(d, i, off) + m] == Segment(d, i)[off / RECORD..off / RECORD + m]
  {
    FirstInside(d);
    SegmentInAll(d, i);
    StartBefore(d, i, off);
    SliceShift(All(d), d.start.offset / RECORD, |Join(d.files, d.start.index, i)|, |Segment(d, i)|, off / RECORD, m);
  }

  lemma StartBefore(d: Layout, i: int, off: int)
    requires Sound(d) && IsPosition(d, i, off)
    ensures 0 <= IndexOf(d, i, off)
  {
    if d.start.index < i {
      JoinSplit(d.files, d.start.index, d.start.index + 1, i);
    }
  }

  /** The end of a closed segment and the start of the next are one place. */
  lemma SegmentEnd(d: Layout, i: int)
    requires Sound(d) && d.start.index <= i < d.current
    ensures IndexOf(d, i, RECORD * |Segment(d, i)|) == IndexOf(d, i + 1, 0)
    ensures IsPosition(d, i + 1, 0)
  {}

  /** Canonical positions are ordered by the number of entries before them. */
  lemma IndexOrdered(d: Layout, i: int, off: int, j: int, off': int)
    requires Sound(d) && Canonical(d, i, off) && Canonical(d, j, off') && i < j
    ensures IndexOf(d, i, off) < IndexOf(d, j, off')
  {
    JoinSplit(d.files, d.start.index, i + 1, j);
  }

  /** A canonical position is determined by the number of live entries before it. */
  lemma PositionUnique(d: Layout, i: int, off: int, j: int, off': int)
    requires Sound(d) && Canonical(d, i, off) && Canonical(d, j, off')
    requires IndexOf(d, i, off) == IndexOf(d, j, off')
    ensures i == j && off == off'
  {
    if i < j {
      IndexOrdered(d, i, off, j, off');
    } else if j < i {
      IndexOrdered(d, j, off', i, off);
    }
  }

  lemma LiveLength(d: Layout)
    requires Sound(d)
    ensures |Live(d)| == IndexOf(d, d.current, RECORD * |d.tail|)
  {
    FirstInside(d);
  }

  /** Segment i holds no entry with a count index below i * LOGROTATE_NUM. */
  lemma {:induction false} SegmentCount(d: Layout, i: int)
    requires Sound(d) && Full(d) && d.start.index <= i <= d.current
    ensures d.start.count + IndexOf(d, i, 0) >= i * LOGROTATE_NUM
    decreases i - d.start.index
  {
    if d.start.index < i {
      SegmentCount(d, i - 1);
    }
  }

  /** The live entries before a position. */
  ghost function Before(d: Layout, i: int, off: int): (s: seq<LogData>)
    requires Sound(d) && IsPosition(d, i, off)
  {
    SegmentSlice(d, i, off, 0);
    Live(d)[..IndexOf(d, i, off)]
  }

  /** The live entries from a position on. */
  ghost function From(d: Layout, i: int, off: int): (s: seq<LogData>)
    requires Sound(d) && IsPosition(d, i, off)
  {
    SegmentSlice(d, i, off, 0);
    Live(d)[IndexOf(d, i, off)..]
  }

  lemma BeforeStart(d: Layout)
    requires Sound(d)
    ensures IsPosition(d, d.start.index, d.start.offset) && Before(d, d.start.index, d.start.offset) == []
  {
    assert IndexOf(d, d.start.index, d.start.offset) == 0;
  }

  /** Reading on from a position inside one segment. */
  lemma FromSegment(d: Layout, i: int, off: int, m: nat)
    requires Sound(d) && IsPosition(d, i, off) && off / RECORD + m <= |Segment(d, i)|
    ensures m <= |From(d, i, off)| && From(d, i, off)[..m] == Segment(d, i)[off / RECORD..off / RECORD + m]
    ensures IsPosition(d, i, off + m * RECORD) && From(d, i, off)[m..] == From(d, i, off + m * RECORD)
  {
    SegmentSlice(d, i, off, m);
  }

  /** Reading past the end of a closed segment goes on with the next. */
  lemma FromSegmentEnd(d: Layout, i: int, off: int)
    requires Sound(d) && IsPosition(d, i, off)
    ensures i < d.current ==>
              IsPosition(d, i + 1, 0) && From(d, i, off) == Segment(d, i)[off / RECORD..] + From(d, i + 1, 0)
    ensures i == d.current ==> From(d, i, off) == Segment(d, i)[off / RECORD..]
  {
    var m := |Segment(d, i)| - off / RECORD;
    FromSegment(d, i, off, m);
    assert off + m * RECORD == RECORD * |Segment(d, i)|;
    assert Segment(d, i)[off / RECORD..off / RECORD + m] == Segment(d, i)[off / RECORD..];
    if i < d.current {
      SegmentEnd(d, i);
    } else {
      LiveLength(d);
    }
  }

  // ---------------------------------------------------------------- changes of the layout

  lemma AppendLive(d: Layout, l: LogData)
    requires Sound(d)
    ensures var t := d.(tail := d.tail + [l]);
            && Sound(t) && (Full(d) && |d.tail| < LOGROTATE_NUM ==> Full(t))
            && Live(t) == Live(d) + [l]
  {
    FirstInside(d);
    var t := d.(tail := d.tail + [l]);
    assert All(t) == All(d) + [l];
  }

  /** Closing the current segment and opening an empty one changes nothing. */
  lemma RotateLive(d: Layout)
    requires Sound(d) && Full(d) && |d.tail| >= LOGROTATE_NUM
    ensures var t := d.(files := d.files[d.current := d.tail], current := d.current + 1, tail := []);
            Sound(t) && Full(t) && Live(t) == Live(d)
  {
    var t := d.(files := d.files[d.current := d.tail], current := d.current + 1, tail := []);
    JoinFrame(d.files, t.files, d.start.index, d.current);
    assert All(t) == All(d);
  }

  function Cut(d: Layout, files: Files, i: int, off: int): (t: Layout)
    requires 0 <= off <= RECORD * |Segment(d, i)|
  {
    Layout(files, d.start, i, Segment(d, i)[..off / RECORD])
  }

  ghost predicate SameBelow(f: Files, g: Files, i: int, j: int) {
    forall k :: i <= k < j ==> k in f && k in g && f[k] == g[k]
  }

  lemma CutSound(d: Layout, files: Files, i: int, off: int)
    requires Sound(d) && IsPosition(d, i, off) && SameBelow(files, d.files, d.start.index, i)
    ensures Sound(Cut(d, files, i, off)) && (Full(d) ==> Full(Cut(d, files, i, off)))
  {}

  lemma CutAll(d: Layout, files: Files, i: int, off: int)
    requires IsPosition(d, i, off) && SameBelow(files, d.files, d.start.index, i)
    ensures var n := |Join(d.files, d.start.index, i)| + off / RECORD;
            n <= |All(d)| && All(Cut(d, files, i, off)) == All(d)[..n]
  {
    JoinFrame(d.files, files, d.start.index, i);
    SegmentInAll(d, i);
    CutPrefix(All(d), |Join(d.files, d.start.index, i)|, Segment(d, i), off / RECORD);
    if i < d.current {
      JoinSplit(d.files, d.start.index, i, d.current);
    }
    assert All(d)[..|Join(d.files, d.start.index, i)|] == Join(d.files, d.start.index, i);
  }

  /** Making segment i current again and cutting it off at a position keeps exactly the
      entries before that position. */
  lemma CutLive(d: Layout, files: Files, i: int, off: int)
    requires Sound(d) && IsPosition(d, i, off) && SameBelow(files, d.files, d.start.index, i)
    ensures var t := Cut(d, files, i, off);
            && Sound(t) && (Full(d) ==> Full(t))
            && Live(t) == Before(d, i, off)
  {
    CutSound(d, files, i, off);
    CutAll(d, files, i, off);
    StartBefore(d, i, off);
    DropTake(All(d), d.start.offset / RECORD, |All(Cut(d, files, i, off))|);
  }

  lemma CutPrefix(s: seq<LogData>, k: nat, seg: seq<LogData>, x: nat)
    requires k + |seg| <= |s| && s[k..k + |seg|] == seg && x <= |seg|
    ensures s[..k + x] == s[..k] + seg[..x]
  {
    assert s[..k + x] == s[..k] + s[k..k + |seg|][..x];
  }

  lemma DropTake(s: seq<LogData>, a: nat, b: nat)
    requires a <= b <= |s|
    ensures s[..b][a..] == s[a..][..b - a]
  {}

  function Moved(d: Layout, i: int, off: int): (t: Layout) {
    d.(start := LogStart(d.start.count + IndexOf(d, i, off), i, off))
  }

  lemma MovedSound(d: Layout, i: int, off: int)
    requires Sound(d) && Canonical(d, i, off)
    ensures Sound(Moved(d, i, off)) && (Full(d) && off < RECORD * LOGROTATE_NUM ==> Full(Moved(d, i, off)))
  {
    if Full(d) {
      SegmentCount(d, i);
    }
  }

  /** Moving the start to a canonical position drops exactly the entries before it, and the
      survivors keep their count index. */
  lemma MoveStartLive(d: Layout, i: int, off: int)
    requires Sound(d) && Canonical(d, i, off)
    ensures var t := Moved(d, i, off);
            Sound(t) && Live(t) == From(d, i, off)
  {
    MovedSound(d, i, off);
    var t, k, x, z := Moved(d, i, off), |Join(d.files, d.start.index, i)|, off / RECORD, d.start.offset / RECORD;
    assert z <= |All(d)| by { FirstInside(d); }
    assert x <= |All(t)| by { FirstInside(t); }
    assert k <= |All(d)| && All(d)[k..] == All(t) by { MovedAll(d, i, off); }
    assert z <= k + x by { StartBefore(d, i, off); }
    DropBoth(All(d), All(t), k, x, z);
  }

  lemma DropBoth(s: seq<LogData>, t: seq<LogData>, k: nat, x: nat, z: nat)
    requires k <= |s| && s[k..] == t && x <= |t| && z <= k + x
    ensures t[x..] == s[z..][k + x - z..]
  {
    assert t[x..] == s[k + x..];
  }

  lemma MovedAll(d: Layout, i: int, off: int)
    requires d.start.index <= i <= d.current
    ensures var k := |Join(d.files, d.start.index, i)|;
            k <= |All(d)| && All(d)[k..] == All(Moved(d, i, off))
  {
    JoinSplit(d.files, d.start.index, i, d.current);
  }

  /** Dropping files that are not live changes nothing. */
  lemma FilesLive(d: Layout, files: Files)
    requires Sound(d)
    requires SameBelow(files, d.files, d.start.index, d.current)
    ensures var t := d.(files := files);
            Sound(t) && (Full(d) ==> Full(t)) && Live(t) == Live(d)
  {
    JoinFrame(d.files, files, d.start.index, d.current);
  }

  /** Where the last live entry is found: in the current file, or at the end of the segment
      before it when the current one is empty. */
  lemma LastLive(d: Layout)
    requires Sound(d)
    ensures d.start.index == d.current && d.start.offset == RECORD * |d.tail| ==> Live(d) == []
    ensures d.tail != [] && (d.start.index < d.current || d.start.offset < RECORD * |d.tail|) ==>
              Live(d) != [] && Live(d)[|Live(d)| - 1] == d.tail[|d.tail| - 1]
    ensures d.tail == [] && d.start.index < d.current ==>
              Live(d) != [] && Live(d)[|Live(d)| - 1] == d.files[d.current - 1][|d.files[d.current - 1]| - 1]
  {
    FirstInside(d);
    LiveLength(d);
    if d.start.index < d.current {
      JoinSplit(d.files, d.start.index, d.start.index + 1, d.current);
    }
  }
}
