/** What CleanOldData makes of the start of the log, as a function of the position asked for. */
module CommitLogClean {
  import opened CommitLogLayout

  /** The checks made before anything is changed. */
  function Guard(d: Layout, i: int, off: int): (r: Status) {
    if i > d.current then KeepMin
    else if i == d.current then
      if off / RECORD + MIN_KEEP_LOG_ITEM >= |d.tail| then KeepMin else Ok
    else if i == d.current - 1 then
      if i !in d.files then NotExist
      else if RECORD * |d.files[i]| - off < 0 then OffsetInvalid
      else if (RECORD * |d.files[i]| - off) / RECORD + |d.tail| <= MIN_KEEP_LOG_ITEM then KeepMin
      else Ok
    else Ok
  }

  function Max(a: int, b: int): (m: int) { if a < b then b else a }

  /** The new start. A position in a segment before the start is not recognised as such: its
      offset is applied to the first live segment. An offset past the end of a closed segment
      is refused when the start has been moved there already, and past the end of the current
      one it is not noticed at all. */
  function Cleaned(d: Layout, i: int, off: int): (r: (LogStart, Status)) {
    var e := Max(i, d.start.index);
    if Guard(d, i, off) != Ok then (d.start, Guard(d, i, off))
    else if i <= d.start.index && off < d.start.offset then (d.start, OffsetInvalid)
    else
      var count := d.start.count + IndexOf(d, e, off);
      if e < d.current && off == RECORD * |Segment(d, e)| then (LogStart(count, e + 1, 0), Ok)
      else (LogStart(count, e, off), if e < d.current && off > RECORD * |Segment(d, e)| then OffsetInvalid else Ok)
  }

  /** The start goes to this place when the clean is let through. */
  predicate Lands(d: Layout, i: int, off: int) {
    Guard(d, i, off) == Ok && !(i <= d.start.index && off < d.start.offset)
  }

  /** The log is still sound after a clean, refused or not, if and only if the clean did not
      put the start past the end of its segment or between two entries. */
  lemma CleanSoundExact(d: Layout, i: int, off: int)
    requires Sound(d) && 0 <= off
    ensures Sound(d.(start := Cleaned(d, i, off).0)) <==>
            !(Lands(d, i, off) && (off > RECORD * |Segment(d, Max(i, d.start.index))| || off % RECORD != 0))
  {
    var e := Max(i, d.start.index);
    var t := d.(start := Cleaned(d, i, off).0);
    assert Guard(d, i, off) == Ok ==> i <= d.current;
    assert Lands(d, i, off) && e < d.current && off == RECORD * |Segment(d, e)| ==> t.start.index == e + 1;
    assert forall k :: Segment(t, k) == Segment(d, k);
  }

  lemma {:induction false} JoinLong(d: Layout, i: int)
    requires Full(d) && d.start.index <= i <= d.current
    ensures |Join(d.files, i, d.current)| >= (d.current - i) * LOGROTATE_NUM
    decreases d.current - i
  {
    if i < d.current {
      JoinLong(d, i + 1);
      JoinSplit(d.files, i, i + 1, d.current);
    }
  }

  lemma FromLength(d: Layout, i: int, off: int)
    requires Sound(d) && IsPosition(d, i, off)
    ensures |From(d, i, off)| == |Join(d.files, i, d.current)| + |d.tail| - off / RECORD
  {
    SegmentSlice(d, i, off, 0);
    FirstInside(d);
    JoinSplit(d.files, d.start.index, i, d.current);
  }

  /** Cleaning to a position at or after the start is allowed exactly when it leaves more than
      MIN_KEEP_LOG_ITEM entries. */
  lemma CleanAllowed(d: Layout, i: int, off: int)
    requires Sound(d) && Full(d) && IsPosition(d, i, off)
    ensures Cleaned(d, i, off).1 == Ok <==> |From(d, i, off)| > MIN_KEEP_LOG_ITEM
    ensures Cleaned(d, i, off).1 in {Ok, KeepMin}
  {
    FromLength(d, i, off);
    JoinLong(d, i);
    if i == d.current - 1 {
      assert Join(d.files, i, d.current) == Join(d.files, i, i) + File(d.files, i);
    }
  }

  /** It then drops exactly the entries before the position, raises the start count by their
      number, and the survivors keep their count index. */
  lemma CleanExact(d: Layout, i: int, off: int)
    requires Sound(d) && Full(d) && IsPosition(d, i, off) && Cleaned(d, i, off).1 == Ok
    ensures var t := d.(start := Cleaned(d, i, off).0);
            && Sound(t) && Full(t) && Live(t) == From(d, i, off)
            && t.start.count == d.start.count + |Live(d)| - |Live(t)|
  {
    CleanAllowed(d, i, off);
    SegmentSlice(d, i, off, 0);
    if i < d.current && off == RECORD * |Segment(d, i)| {
      SegmentEnd(d, i);
      MoveStartLive(d, i + 1, 0);
      MovedSound(d, i + 1, 0);
    } else {
      MoveStartLive(d, i, off);
      MovedSound(d, i, off);
    }
  }

  /** A clean of a segment before the start goes by the offset alone. */
  lemma CleanBeforeLive(d: Layout, i: int, off: int)
    requires Sound(d) && i < d.start.index && IsPosition(d, d.start.index, off)
    requires Cleaned(d, i, off).1 == Ok
    ensures var t := d.(start := Cleaned(d, i, off).0);
            Sound(t) && Live(t) == From(d, d.start.index, off)
  {
    var e := d.start.index;
    if e < d.current && off == RECORD * |Segment(d, e)| {
      SegmentEnd(d, e);
      MoveStartLive(d, e + 1, 0);
    } else {
      MoveStartLive(d, e, off);
    }
  }

  lemma DropNone(s: seq<LogData>, k: nat)
    requires k <= |s|
    ensures s[k..] == s <==> k == 0
  {
    assert |s[k..]| == |s| - k;
  }

  lemma FromStart(d: Layout, off: int)
    requires Sound(d) && IsPosition(d, d.start.index, off)
    ensures From(d, d.start.index, off) == Live(d) <==> off == d.start.offset
  {
    var k := IndexOf(d, d.start.index, off);
    SegmentSlice(d, d.start.index, off, 0);
    assert k == off / RECORD - d.start.offset / RECORD;
    DropNone(Live(d), k);
  }

  /** Asked for a position in a segment before the start, the clean should drop nothing. It
      drops nothing exactly when the offset happens to be the start offset, or is refused. */
  lemma CleanBeforeStart(d: Layout, i: int, off: int)
    requires Sound(d) && i < d.start.index && IsPosition(d, d.start.index, off)
    requires Cleaned(d, i, off).1 == Ok
    ensures var t := d.(start := Cleaned(d, i, off).0);
            Sound(t) && (Live(t) == Live(d) <==> off == d.start.offset)
  {
    CleanBeforeLive(d, i, off);
    FromStart(d, off);
  }

  /** Five entries are live in segment 2. Cleaning to offset 240 of segment 0, which is long
      gone, is allowed and drops all five. */
  lemma CleanBeforeStartLosesAll(l: LogData) returns (d: Layout)
    ensures Sound(d) && Full(d) && Live(d) == [l, l, l, l, l] && d.start.index == 2
    ensures Cleaned(d, 0, 240).1 == Ok
    ensures var t := d.(start := Cleaned(d, 0, 240).0); Sound(t) && Live(t) == []
  {
    d := Layout(map[], LogStart(2 * LOGROTATE_NUM, 2, 0), 2, [l, l, l, l, l]);
    assert Join(d.files, 2, 2) == [];
    assert IndexOf(d, 2, 240) == 5;
  }
}
