/** The commit log manager of one topic partition: buffered, rotated, truncated and cleaned,
    and at every moment one sequence of entries. */
module CommitLog {
  import opened CommitLogLayout
  import opened CommitLogClean
  import opened Wrappers

  ghost predicate Rising(s: seq<LogData>) {
    && (forall i :: 0 <= i < |s| ==> 0 < s[i].logId)
    && (forall i, j :: 0 <= i < j < |s| ==> s[i].logId < s[j].logId)
  }

  function LastId(s: seq<LogData>): (id: int) {
    if s == [] then 0 else s[|s| - 1].logId
  }

  lemma RisingSnoc(s: seq<LogData>, l: LogData)
    requires Rising(s) && LastId(s) < l.logId
    ensures Rising(s + [l])
  {
    if s != [] {
      assert forall i :: 0 <= i < |s| - 1 ==> s[i].logId < s[|s| - 1].logId;
    }
  }

  lemma RisingPrefix(s: seq<LogData>, k: int)
    requires Rising(s) && 0 <= k <= |s|
    ensures Rising(s[..k])
  {}

  lemma BeforeRising(d: Layout, i: int, off: int)
    requires Sound(d) && IsPosition(d, i, off) && Rising(Live(d))
    ensures Rising(Before(d, i, off))
  {
    SegmentSlice(d, i, off, 0);
    RisingPrefix(Live(d), IndexOf(d, i, off));
  }

  lemma FromRising(d: Layout, i: int, off: int)
    requires Sound(d) && IsPosition(d, i, off) && Rising(Live(d)) && From(d, i, off) != []
    ensures Rising(From(d, i, off)) && LastId(From(d, i, off)) == LastId(Live(d))
  {
    SegmentSlice(d, i, off, 0);
    assert Live(d) == Before(d, i, off) + From(d, i, off);
  }

  /** What a clean to a live position is for: it succeeds exactly when more than
      MIN_KEEP_LOG_ITEM entries remain, then drops exactly those before the position, and the
      start count rises by their number. */
  ghost predicate CleanedTo(d: Layout, i: int, off: int, t: Layout, status: Status)
    requires Sound(d) && Sound(t) && IsPosition(d, i, off)
  {
    && status == (if |From(d, i, off)| > MIN_KEEP_LOG_ITEM then Ok else KeepMin)
    && Live(t) == (if status == Ok then From(d, i, off) else Live(d))
    && t.start.count == d.start.count + |Live(d)| - |Live(t)|
  }

  /** After a clean the layout is sound and full, and holds the entries from the position on if
      more than MIN_KEEP_LOG_ITEM of them remain, and all entries if not. */
  lemma CleanResult(d: Layout, i: int, off: int, t: Layout, status: Status)
    requires Sound(d) && Full(d) && Rising(Live(d)) && IsPosition(d, i, off)
    requires t.start == Cleaned(d, i, off).0 && status == Cleaned(d, i, off).1
    requires t.current == d.current && t.tail == d.tail && SameBelow(t.files, d.files, t.start.index, d.current)
    ensures Sound(t) && Full(t) && Rising(Live(t)) && LastId(Live(t)) == LastId(Live(d))
    ensures CleanedTo(d, i, off, t, status)
  {
    CleanAllowed(d, i, off);
    if Cleaned(d, i, off).1 == Ok {
      CleanExact(d, i, off);
      FromRising(d, i, off);
    }
    FilesLive(d.(start := Cleaned(d, i, off).0), t.files);
    assert t == d.(start := Cleaned(d, i, off).0, files := t.files);
  }

  /** getCommitLogListFromFile. */
  function ReadList(file: seq<LogData>, offset: int, num: nat): (r: (seq<LogData>, Status))
    requires 0 <= offset
  {
    if offset == RECORD * |file| then ([], Eof)
    else if offset > RECORD * |file| - RECORD then ([], OutOfBound)
    else if offset % RECORD != 0 then ([], OffsetInvalid)
    else if offset + num * RECORD > RECORD * |file| then (file[offset / RECORD..], Eof)
    else (file[offset / RECORD..offset / RECORD + num], Ok)
  }

  function Take(s: seq<LogData>, num: nat): (r: seq<LogData>) {
    if |s| <= num then s else s[..num]
  }

  /** What a read at an offset no entry starts at runs into. */
  function BadOffset(size: nat, offset: int): (r: Status) {
    if offset > RECORD * size - RECORD then OutOfBound else OffsetInvalid
  }

  /** What one file read returns, in terms of the whole log. */
  ghost predicate ReadsOn(d: Layout, i: int, off: int, num: nat, l: seq<LogData>, status: Status)
    requires Sound(d) && IsPosition(d, i, off)
  {
    if status == Ok then |l| == num && l <= From(d, i, off)
    else
      && status == Eof && (|l| < num || l == [])
      && if i == d.current then From(d, i, off) == l
         else IsPosition(d, i + 1, 0) && From(d, i, off) == l + From(d, i + 1, 0)
  }

  method ReadFile(d: Layout, i: int, off: int, num: nat) returns (l: seq<LogData>, status: Status)
    requires Sound(d) && d.start.index <= i <= d.current && 0 <= off
    requires i == d.start.index ==> d.start.offset <= off
    ensures !IsPosition(d, i, off) ==> l == [] && status == BadOffset(|Segment(d, i)|, off)
    ensures IsPosition(d, i, off) ==> ReadsOn(d, i, off, num, l, status)
  {
    var seg := if i < d.current then d.files[i] else d.tail;
    var r := ReadList(seg, off, num);
    if IsPosition(d, i, off) {
      ReadsFrom(d, i, off, num);
    } else {
      ReadsNowhere(d, i, off, num);
    }
    return r.0, r.1;
  }

  lemma ReadsFrom(d: Layout, i: int, off: int, num: nat)
    requires Sound(d) && IsPosition(d, i, off)
    ensures var r := ReadList(Segment(d, i), off, num); ReadsOn(d, i, off, num, r.0, r.1)
  {
    FromSegmentEnd(d, i, off);
    if off / RECORD + num <= |Segment(d, i)| {
      FromSegment(d, i, off, num);
    }
  }

  lemma ReadsNowhere(d: Layout, i: int, off: int, num: nat)
    requires d.start.index <= i <= d.current && 0 <= off && (i == d.start.index ==> d.start.offset <= off)
    requires !IsPosition(d, i, off)
    ensures ReadList(Segment(d, i), off, num) == ([], BadOffset(|Segment(d, i)|, off))
  {}

  /** The loop of getCommitLogsV2, from a position of an entry. */
  method ReadSegments(d: Layout, index: int, offset: int, num: nat) returns (logs: seq<LogData>, status: Status)
    requires Sound(d) && IsPosition(d, index, offset)
    ensures logs == Take(From(d, index, offset), num)
    ensures num > 0 ==> status == if |From(d, index, offset)| < num then Eof else Ok
  {
    logs := [];
    ghost var whole := From(d, index, offset);
    var readIndex, readOffset := index, offset;
    while true
      invariant IsPosition(d, readIndex, readOffset) && whole == logs + From(d, readIndex, readOffset)
      invariant |logs| < num || logs == []
      decreases d.current - readIndex
    {
      var l;
      ghost var rest := From(d, readIndex, readOffset);
      l, status := ReadFile(d, readIndex, readOffset, num - |logs|);
      if status == Eof {
        if readIndex < d.current {
          ConcatAssoc(logs, l, From(d, readIndex + 1, 0));
        }
        logs := logs + l;
        readIndex, readOffset := readIndex + 1, 0;
        if readIndex > d.current {
          return;
        } else if |logs| == num {
          status := Ok;
          return;
        }
      } else {
        TakeConcat(logs, l, rest);
        logs := logs + l;
        return;
      }
    }
  }

  /** What a read from a position is to return, and what it runs into elsewhere. */
  ghost predicate Reads(d: Layout, index: int, offset: int, num: nat, logs: seq<LogData>, status: Status)
    requires Sound(d)
  {
    if index < d.start.index || (index == d.start.index && offset < d.start.offset)
    then status == LessThanStart && logs == []
    else if d.current < index then status == OutOfBound && logs == []
    else if !IsPosition(d, index, offset) then status == BadOffset(|Segment(d, index)|, offset) && logs == []
    else
      && logs == Take(From(d, index, offset), num)
      && (num > 0 ==> status == if |From(d, index, offset)| < num then Eof else Ok)
  }

  /** getCommitLogsV2 after the flush. A bad offset fails in the first round of the loop over
      segments. */
  method ReadLayout(d: Layout, index: int, offset: int, num: nat) returns (logs: seq<LogData>, status: Status)
    requires Sound(d) && d.start.index <= index <= d.current && 0 <= offset
    requires index == d.start.index ==> d.start.offset <= offset
    ensures Reads(d, index, offset, num, logs, status)
  {
    if index == d.current {
      logs, status := ReadFile(d, index, offset, num);
    } else if !(offset % RECORD == 0 && offset <= RECORD * |d.files[index]|) {
      logs, status := ReadFile(d, index, offset, num);
    } else {
      logs, status := ReadSegments(d, index, offset, num);
    }
  }

  lemma ConcatAssoc(a: seq<LogData>, b: seq<LogData>, c: seq<LogData>)
    ensures a + (b + c) == (a + b) + c
  {}

  lemma TakeConcat(a: seq<LogData>, l: seq<LogData>, rest: seq<LogData>)
    requires l <= rest
    ensures Take(a + rest, |a + l|) == a + l
  {}

  /** The canonical position (i, off) has `count` entries before it, counted from the beginning. */
  ghost predicate Names(d: Layout, count: int, i: int, off: int) {
    Canonical(d, i, off) && d.start.count + IndexOf(d, i, off) == count
  }

  lemma NamesOnce(d: Layout, count: int, i: int, off: int)
    requires Sound(d) && Names(d, count, i, off)
    ensures count <= d.start.count + |Live(d)|
    ensures forall j, off' :: Names(d, count, j, off') ==> j == i && off' == off
  {
    SegmentSlice(d, i, off, 0);
    forall j, off' | Names(d, count, j, off') ensures j == i && off' == off {
      PositionUnique(d, i, off, j, off');
    }
  }

  /** The loop of ConvertToOffsetIndex over the segments. */
  method Locate(d: Layout, count: int) returns (index: int, offset: int, status: Status)
    requires Sound(d) && d.start.count <= count
    ensures status == if count > d.start.count + |Live(d)| then OutOfBound else Ok
    ensures status == Ok ==> Names(d, count, index, offset)
    ensures status == Ok ==> forall i, off :: Names(d, count, i, off) ==> i == index && off == offset
  {
    index, offset := d.start.index, d.start.offset;
    var left := count - d.start.count;
    while left > 0 && index < d.current
      invariant d.start.index <= index <= d.current && 0 <= left
      invariant offset == if index == d.start.index then d.start.offset else 0
      invariant count == d.start.count + IndexOf(d, index, offset) + left
      decreases d.current - index
    {
      var cnt := |d.files[index]| - offset / RECORD;
      if left < cnt {
        offset := offset + left * RECORD;
        NamesOnce(d, count, index, offset);
        return index, offset, Ok;
      }
      left := left - cnt;
      index := index + 1;
      offset := 0;
    }
    if index == d.current && left > 0 {
      if left > |d.tail| - offset / RECORD {
        LiveLength(d);
        return 0, 0, OutOfBound;
      }
      offset := offset + left * RECORD;
    }
    NamesOnce(d, count, index, offset);
    status := Ok;
  }

  lemma LastRecord(d: Layout)
    requires Sound(d) && Live(d) != []
    ensures var i := if d.tail == [] then d.current - 1 else d.current;
            var r := |Segment(d, i)| - 1;
            && r >= 0 && Canonical(d, i, RECORD * r) && IndexOf(d, i, RECORD * r) == |Live(d)| - 1
            && Segment(d, i)[r] == Live(d)[|Live(d)| - 1]
  {
    LastLive(d);
    LiveLength(d);
    if d.tail == [] {
      SegmentEnd(d, d.current - 1);
    }
  }

  /** A clean removes the files before `limit`, except the one just before the segment asked for. */
  ghost predicate Removed(f: Files, g: Files, fileIndex: int, limit: int) {
    && (forall k :: k in g <==> k in f && !(0 <= k < limit && k < fileIndex - 1))
    && (forall k :: k in g ==> g[k] == f[k])
  }

  /** Where GetLastCommitLogOffsetV2 has to look: the end of the current file, or of the one
      before it when that is empty. */
  lemma LastFacts(d: Layout)
    requires Sound(d)
    ensures Live(d) == [] ==> d.current == d.start.index && d.start.offset == RECORD * |d.tail|
    ensures Live(d) != [] ==>
              var i := if d.tail == [] then d.current - 1 else d.current;
              && d.start.index <= i && IsLast(d, i, |Segment(d, i)| - 1)
  {
    if Live(d) != [] {
      LastRecord(d);
    } else {
      LastLive(d);
    }
  }

  /** Record r of segment i is the last live entry. */
  ghost predicate IsLast(d: Layout, i: int, r: int)
    requires Sound(d)
  {
    && 0 <= r < |Segment(d, i)| && Live(d) != [] && Segment(d, i)[r] == Live(d)[|Live(d)| - 1]
    && Canonical(d, i, RECORD * r) && IndexOf(d, i, RECORD * r) == |Live(d)| - 1
  }

  /** The records of the current file, live or not, carry ids. */
  ghost predicate Numbered(d: Layout) {
    forall i :: 0 <= i < |d.tail| ==> d.tail[i].logId > 0
  }

  /** Its loop over the current file, which gives up at the first smaller id. */
  method FindBack(tail: seq<LogData>, pLogId: int) returns (r: int)
    ensures -1 <= r < |tail| && (r >= 0 ==> tail[r].logId == pLogId)
    ensures tail != [] && tail[|tail| - 1].logId == pLogId ==> r == |tail| - 1
    ensures (forall i :: 0 <= i < |tail| ==> tail[i].logId > pLogId) ==> r == -1
  {
    r := |tail| - 1;
    while r >= 0
      invariant -1 <= r < |tail|
      invariant tail != [] && tail[|tail| - 1].logId == pLogId ==> r == |tail| - 1
    {
      if tail[r].logId == pLogId {
        return;
      } else if tail[r].logId < pLogId {
        return -1;
      }
      r := r - 1;
    }
  }

  /** The search of GetLastCommitLogOffsetV2 for the entry with the cached last id. */
  method FindLast(d: Layout, pLogId: int) returns (index: int, offset: int, last: Option<LogData>, status: Status)
    requires Sound(d)
    ensures Live(d) == [] && d.start.offset == 0 ==>
              status == Eof && last == None && index == d.start.index && offset == 0
    ensures Live(d) == [] && d.start.offset > 0 && pLogId == 0 && Numbered(d) ==> status == IdNotFound && last == None
    ensures Live(d) != [] && pLogId == LastId(Live(d)) ==>
              && status == Ok && last == Some(Live(d)[|Live(d)| - 1])
              && Canonical(d, index, offset) && IndexOf(d, index, offset) == |Live(d)| - 1
  {
    LastFacts(d);
    if d.tail == [] {
      if d.current == d.start.index {
        return d.current, 0, None, Eof;
      }
      var file := d.files[d.current - 1];
      if file[|file| - 1].logId == pLogId {
        return d.current - 1, RECORD * (|file| - 1), Some(file[|file| - 1]), Ok;
      }
      return d.current, 0, None, IdNotFound;
    }
    var r := FindBack(d.tail, pLogId);
    if r >= 0 {
      return d.current, RECORD * r, Some(d.tail[r]), Ok;
    }
    return d.current, 0, None, IdNotFound;
  }

  class TopicCommitLog {
    var files: Files
    var appender: seq<LogData>
    var committedLogs: seq<LogData>
    var capacity: nat
    var currentStart: int
    var currentCount: int
    var pLogId: int
    var nLogId: int
    var start: LogStart

    ghost function Disk(): (d: Layout)
      reads this
    {
      Layout(files, start, currentStart, appender + committedLogs)
    }

    ghost predicate Valid()
      reads this
    {
      && Sound(Disk()) && Full(Disk())
      && currentCount == |appender| + |committedLogs| && |committedLogs| <= capacity
      && Rising(Live(Disk())) && pLogId == LastId(Live(Disk()))
    }

    ghost function Contents(): (s: seq<LogData>)
      requires Valid()
      reads this
    {
      Live(Disk())
    }

    constructor (capacity: nat, firstId: int)
      ensures Valid() && Contents() == [] && start == LogStart(0, 0, 0) && nLogId == firstId
    {
      files, appender, committedLogs := map[], [], [];
      this.capacity := capacity;
      currentStart, currentCount, pLogId, nLogId := 0, 0, 0, firstId;
      start := LogStart(0, 0, 0);
    }

    /** flushCommitLogsNoLock. */
    method Flush()
      modifies this`appender, this`committedLogs
      ensures committedLogs == [] && appender == old(appender + committedLogs)
      ensures Disk() == old(Disk()) && (old(Valid()) ==> Valid())
    {
      ghost var before := Disk();
      var buf, i := [], 0;
      while i < |committedLogs|
        invariant 0 <= i <= |committedLogs| && buf == committedLogs[..i]
      {
        buf := buf + [committedLogs[i]];
        i := i + 1;
      }
      appender := appender + buf;
      committedLogs := [];
      assert appender + committedLogs == before.tail;
    }

    /** The part of AppendCommitLog that closes a full current file. */
    method Rotate()
      requires Valid() && currentCount >= LOGROTATE_NUM
      modifies this
      ensures Valid() && Contents() == old(Contents()) && currentCount == 0
      ensures start == old(start) && nLogId == old(nLogId) && capacity == old(capacity)
    {
      Flush();
      ghost var before := Disk();
      RotateLive(before);
      files := files[currentStart := appender];
      appender := [];
      currentStart := currentStart + 1;
      currentCount := 0;
      assert appender + committedLogs == [];
      assert Disk() == before.(files := before.files[before.current := before.tail],
                               current := before.current + 1, tail := []);
    }

    /** The last part of AppendCommitLog: into the buffer, or straight to the file when there
        is none. */
    method Store(l: LogData)
      requires |committedLogs| <= capacity
      modifies this`appender, this`committedLogs
      ensures Disk() == old(Disk()).(tail := old(Disk()).tail + [l]) && |committedLogs| <= capacity
      ensures |appender| + |committedLogs| == old(|appender| + |committedLogs|) + 1
    {
      ghost var before := Disk().tail;
      if capacity == 0 {
        appender := appender + [l];
      } else {
        if |committedLogs| >= capacity {
          Flush();
        }
        committedLogs := committedLogs + [l];
      }
      assert appender + committedLogs == before + [l];
    }

    method AppendCurrent(l: LogData)
      requires Valid() && currentCount < LOGROTATE_NUM && pLogId < l.logId
      modifies this
      ensures Valid() && start == old(start) && nLogId == old(nLogId)
      ensures Contents() == old(Contents()) + [l] && pLogId == l.logId
    {
      AppendLive(Disk(), l);
      RisingSnoc(Contents(), l);
      Store(l);
      currentCount := currentCount + 1;
      pLogId := l.logId;
    }

    method Append(l: LogData, slave: bool) returns (status: Status)
      requires Valid()
      modifies this
      ensures Valid() && start == old(start)
      ensures status == if l.logId <= old(pLogId) then WrongId
                        else if l.lastMsgLogId < l.logId then WrongLastId else Ok
      ensures Contents() == if status == Ok then old(Contents()) + [l] else old(Contents())
      ensures status == Ok ==> pLogId == l.logId
      ensures nLogId == if status == Ok && slave then l.lastMsgLogId + 1 else old(nLogId)
    {
      if l.logId <= pLogId {
        return WrongId;
      }
      if l.lastMsgLogId < l.logId {
        return WrongLastId;
      }
      if currentCount >= LOGROTATE_NUM {
        Rotate();
      }
      AppendCurrent(l);
      if slave {
        nLogId := l.lastMsgLogId + 1;
      }
      status := Ok;
    }

    // -------------------------------------------------------------- truncation

    /** The part of TruncateToOffsetV2 that reopens an earlier segment as the current file. */
    method MakeCurrent(index: int)
      requires Valid() && committedLogs == [] && start.index <= index <= currentStart
      modifies this`files, this`appender, this`currentStart
      ensures currentStart == index && appender == Segment(old(Disk()), index)
      ensures SameBelow(files, old(files), start.index, index)
    {
      if index < currentStart {
        var i := index + 1;
        while i < currentStart
          invariant index < i && SameBelow(files, old(files), start.index, index + 1)
          decreases currentStart - i
        {
          files := files - {i};
          i := i + 1;
        }
        appender := files[index];
        files := files - {index};
        currentStart := index;
      } else {
        assert appender + committedLogs == appender;
      }
    }

    /** The part of truncateToOffset that refreshes the cached ids from the last entry left. */
    method RefreshIds() returns (last: Option<LogData>)
      requires Sound(Disk()) && committedLogs == []
      modifies this`pLogId, this`nLogId
      ensures pLogId == LastId(Live(Disk()))
      ensures last == if Live(Disk()) == [] then None else Some(Live(Disk())[|Live(Disk())| - 1])
      ensures nLogId == if last.Some? && last.value.lastMsgLogId + 1 > old(nLogId)
                        then last.value.lastMsgLogId + 1 else old(nLogId)
    {
      LastLive(Disk());
      assert Disk().tail == appender;
      var startOffset := if currentStart == start.index then start.offset else 0;
      var l;
      if RECORD * |appender| == startOffset {
        if currentStart <= start.index {
          pLogId := 0;
          return None;
        }
        l := files[currentStart - 1][|files[currentStart - 1]| - 1];
      } else {
        l := appender[|appender| - 1];
      }
      pLogId := l.logId;
      if l.lastMsgLogId + 1 > nLogId {
        nLogId := l.lastMsgLogId + 1;
      }
      return Some(l);
    }

    method CutCurrent(index: int, offset: int)
      requires Valid() && committedLogs == [] && IsPosition(Disk(), index, offset)
      modifies this`files, this`appender, this`currentStart, this`currentCount
      ensures Sound(Disk()) && Full(Disk()) && Live(Disk()) == Before(old(Disk()), index, offset)
      ensures currentCount == |appender|
    {
      ghost var d := Disk();
      MakeCurrent(index);
      appender := appender[..offset / RECORD];
      currentCount := offset / RECORD;
      CutLive(d, files, index, offset);
      assert appender + committedLogs == appender;
      assert Disk() == Cut(d, files, index, offset);
    }

    method TruncateWithin(index: int, offset: int) returns (last: Option<LogData>)
      requires Valid() && committedLogs == [] && IsPosition(Disk(), index, offset)
      modifies this
      ensures Valid() && start == old(start) && Contents() == Before(old(Disk()), index, offset)
      ensures last == if Contents() == [] then None else Some(Contents()[|Contents()| - 1])
      ensures old(nLogId) <= nLogId && (last.Some? ==> last.value.lastMsgLogId < nLogId)
    {
      BeforeRising(Disk(), index, offset);
      CutCurrent(index, offset);
      ghost var t := Disk();
      last := RefreshIds();
      assert Disk() == t;
    }

    /** Truncation keeps exactly the entries before the position. */
    method Truncate(index: int, offset: int) returns (last: Option<LogData>, status: Status)
      requires Valid() && 0 <= offset && offset % RECORD == 0
      requires start.index <= index <= currentStart ==> offset <= RECORD * |Segment(Disk(), index)|
      modifies this
      ensures Valid() && start == old(start)
      ensures status == if index > old(currentStart) then OffsetInvalid
                        else if !IsPosition(old(Disk()), index, offset) then LessThanStart
                        else if Contents() == [] then Eof else Ok
      ensures Contents() == if IsPosition(old(Disk()), index, offset)
                            then Before(old(Disk()), index, offset) else old(Contents())
      ensures last == if status == Ok then Some(Contents()[|Contents()| - 1]) else None
      ensures old(nLogId) <= nLogId && (status == Ok ==> last.value.lastMsgLogId < nLogId)
    {
      Flush();
      if index > currentStart {
        return None, OffsetInvalid;
      }
      if Precedes(index, offset) {
        return None, LessThanStart;
      }
      last := TruncateWithin(index, offset);
      status := if last.None? then Eof else Ok;
    }

    /** Delete and Reopen: the log begins again, as a new one. */
    method Wipe(firstId: int)
      requires Valid()
      modifies this
      ensures Valid() && Contents() == [] && start == LogStart(0, 0, 0) && nLogId == firstId
    {
      Reset(LogStart(0, 0, 0));
      nLogId := firstId;
    }

    /** ResetLogWithStart: everything is dropped and the log goes on from another start. */
    method Reset(newStart: LogStart)
      requires Valid() && 0 <= newStart.index && newStart.count >= newStart.index * LOGROTATE_NUM
      modifies this
      ensures Valid() && Contents() == [] && start == newStart.(offset := 0) && nLogId == old(nLogId)
    {
      Flush();
      files, appender := map[], [];
      start := newStart.(offset := 0);
      pLogId, currentStart, currentCount := 0, newStart.index, 0;
    }

    // -------------------------------------------------------------- reading

    predicate Precedes(index: int, offset: int)
      reads this
    {
      index < start.index || (index == start.index && offset < start.offset)
    }

    /** A read over any number of segments returns exactly the requested slice. */
    method Read(index: int, offset: int, num: nat) returns (logs: seq<LogData>, status: Status)
      requires Valid() && 0 <= offset
      modifies this`appender, this`committedLogs
      ensures Valid() && Disk() == old(Disk())
      ensures Reads(Disk(), index, offset, num, logs, status)
    {
      if Precedes(index, offset) {
        return [], LessThanStart;
      }
      if index > currentStart {
        return [], OutOfBound;
      }
      Flush();
      assert appender + committedLogs == appender;
      logs, status := ReadLayout(Layout(files, start, currentStart, appender), index, offset, num);
    }

    // -------------------------------------------------------------- count indexes

    /** ConvertToCountIndex: the start count plus the entries between the start and the position. */
    method ToCount(index: int, offset: int) returns (count: int, status: Status)
      requires Valid()
      ensures status == if index > currentStart then OutOfBound
                        else if offset % RECORD != 0 then OffsetInvalid
                        else if Precedes(index, offset) then LessThanStart
                        else if offset < 0 then OffsetInvalid else Ok
      ensures status == Ok ==> count == start.count + IndexOf(Disk(), index, offset)
    {
      if index > currentStart {
        return 0, OutOfBound;
      }
      if offset % RECORD != 0 {
        return 0, OffsetInvalid;
      }
      count := start.count;
      var startOffset := start.offset;
      if Precedes(index, offset) {
        return 0, LessThanStart;
      }
      var i := start.index;
      while i < index
        invariant start.index <= i <= index && startOffset == if i == start.index then start.offset else 0
        invariant count == start.count + IndexOf(Disk(), i, startOffset)
      {
        count := count + |files[i]| - startOffset / RECORD;
        startOffset := 0;
        i := i + 1;
      }
      if offset < startOffset {
        return 0, OffsetInvalid;
      }
      count := count + (offset - startOffset) / RECORD;
      status := Ok;
    }

    /** ConvertToOffsetIndex: the canonical position of a count index, and the only one. */
    method ToOffset(countIndex: int) returns (index: int, offset: int, status: Status)
      requires Valid()
      modifies this`appender, this`committedLogs
      ensures Valid() && Disk() == old(Disk())
      ensures status == if countIndex < start.count then LessThanStart
                        else if countIndex > start.count + |Contents()| then OutOfBound else Ok
      ensures status == Ok ==> Names(Disk(), countIndex, index, offset)
      ensures status == Ok ==> forall i, off :: Names(Disk(), countIndex, i, off) ==> i == index && off == offset
    {
      if countIndex < start.count {
        return 0, 0, LessThanStart;
      }
      index, offset, status := Locate(Layout(files, start, currentStart, appender + committedLogs), countIndex);
      if status == Ok && index == currentStart && offset > 0 {
        Flush();
      }
    }

    // -------------------------------------------------------------- cleaning

    /** The part of CleanOldData that removes files: all before `limit` except the one just
        before the segment asked for. */
    method RemoveFiles(fileIndex: int, limit: int)
      requires limit <= fileIndex || limit <= start.index
      modifies this`files
      ensures Removed(old(files), files, fileIndex, limit)
    {
      var i := 0;
      while i < limit
        invariant 0 <= i && (i <= limit || i == 0)
        invariant forall k :: k in files <==> k in old(files) && !(0 <= k < i && k < fileIndex - 1)
        invariant forall k :: k in files ==> files[k] == old(files)[k]
      {
        if i < fileIndex - 1 {
          files := files - {i};
        }
        i := i + 1;
      }
    }

    /** The loop of CleanOldData that steps over whole segments. */
    method SkipSegments(fileIndex: int) returns (cleanStartOffset: int)
      requires Valid() && start.index <= fileIndex <= currentStart
      modifies this`start
      ensures cleanStartOffset == if fileIndex == old(start.index) then start.offset else 0
      ensures start.count == old(start.count) + IndexOf(old(Disk()), fileIndex, cleanStartOffset)
      ensures start.index == fileIndex && start.offset == cleanStartOffset
    {
      ghost var d := Disk();
      cleanStartOffset := start.offset;
      var i := start.index;
      while i < fileIndex
        invariant d.start.index <= i <= fileIndex
        invariant cleanStartOffset == if i == d.start.index then d.start.offset else 0
        invariant start == LogStart(d.start.count + IndexOf(d, i, cleanStartOffset), i, cleanStartOffset)
      {
        start := start.(count := start.count + (RECORD * |files[i]| - cleanStartOffset) / RECORD);
        cleanStartOffset := 0;
        start := start.(index := start.index + 1, offset := cleanStartOffset);
        i := i + 1;
      }
    }

    /** The checks of CleanOldData. */
    method CheckClean(fileIndex: int, fileOffset: int) returns (status: Status)
      requires currentCount == |appender| + |committedLogs|
      ensures status == Guard(Disk(), fileIndex, fileOffset)
    {
      if fileIndex > currentStart {
        return KeepMin;
      }
      if fileIndex == currentStart {
        if fileOffset / RECORD + MIN_KEEP_LOG_ITEM >= currentCount {
          return KeepMin;
        }
      } else if fileIndex == currentStart - 1 {
        if fileIndex !in files {
          return NotExist;
        }
        var leftSize := RECORD * |files[fileIndex]| - fileOffset;
        if leftSize < 0 {
          return OffsetInvalid;
        }
        if leftSize / RECORD + currentCount <= MIN_KEEP_LOG_ITEM {
          return KeepMin;
        }
      }
      return Ok;
    }

    /** The part of CleanOldData that moves the start. */
    method MoveStart(fileIndex: int, fileOffset: int) returns (status: Status)
      requires Valid() && 0 <= fileOffset && fileIndex <= currentStart && Guard(Disk(), fileIndex, fileOffset) == Ok
      modifies this`start
      ensures (start, status) == Cleaned(old(Disk()), fileIndex, fileOffset)
    {
      var cleanStartOffset := start.offset;
      if start.index < fileIndex {
        cleanStartOffset := SkipSegments(fileIndex);
      }
      if fileOffset < cleanStartOffset {
        return OffsetInvalid;
      }
      start := start.(count := start.count + (fileOffset - cleanStartOffset) / RECORD, offset := fileOffset);
      if start.index < currentStart {
        if fileOffset > RECORD * |files[start.index]| {
          return OffsetInvalid;
        }
        if fileOffset == RECORD * |files[start.index]| {
          start := start.(index := start.index + 1, offset := 0);
        }
      }
      return Ok;
    }

    /** CleanOldData, for any position. Only files before the new start are removed, and they
        are whenever the checks are passed, even if the offset is refused afterwards. */
    method CleanOldData(fileIndex: int, fileOffset: int) returns (status: Status)
      requires Valid() && 0 <= fileOffset
      modifies this`start, this`files
      ensures start == Cleaned(old(Disk()), fileIndex, fileOffset).0
      ensures status == Cleaned(old(Disk()), fileIndex, fileOffset).1
      ensures SameBelow(files, old(files), start.index, currentStart)
      ensures if Guard(old(Disk()), fileIndex, fileOffset) == Ok
              then Removed(old(files), files, fileIndex, Max(fileIndex, old(start.index))) else files == old(files)
    {
      status := CheckClean(fileIndex, fileOffset);
      if status != Ok {
        return;
      }
      var limit := Max(fileIndex, start.index);
      status := MoveStart(fileIndex, fileOffset);
      RemoveFiles(fileIndex, limit);
    }

    /** For a position that is not before the start the clean succeeds exactly when more than
        MIN_KEEP_LOG_ITEM entries remain, and drops exactly what lies before it. */
    method Clean(fileIndex: int, fileOffset: int) returns (status: Status)
      requires Valid() && IsPosition(Disk(), fileIndex, fileOffset)
      modifies this`start, this`files
      ensures Valid() && CleanedTo(old(Disk()), fileIndex, fileOffset, Disk(), status)
    {
      ghost var d := Disk();
      status := CleanOldData(fileIndex, fileOffset);
      CleanResult(d, fileIndex, fileOffset, Disk(), status);
    }

    // -------------------------------------------------------------- the ends of the log

    /** GetLastCommitLogOffsetV2: the position and the value of the last entry. An empty log
        that starts in the middle of its segment is found damaged: the dead records before its
        start are searched for the id 0. */
    method LastPosition() returns (index: int, offset: int, last: Option<LogData>, status: Status)
      requires Valid() && (Contents() == [] ==> Numbered(Disk()))
      modifies this`appender, this`committedLogs
      ensures Valid() && Disk() == old(Disk()) && committedLogs == []
      ensures Contents() == [] ==> last == None && status == if start.offset == 0 then Eof else IdNotFound
      ensures status == Eof ==> index == start.index && offset == 0
      ensures Contents() != [] ==>
                && status == Ok && last == Some(Contents()[|Contents()| - 1])
                && Canonical(Disk(), index, offset) && IndexOf(Disk(), index, offset) == |Contents()| - 1
    {
      Flush();
      assert appender + committedLogs == appender;
      index, offset, last, status := FindLast(Layout(files, start, currentStart, appender), pLogId);
    }

    /** GetCurrentEnd. */
    method CurrentEnd() returns (index: int, offset: int)
      requires Valid()
      ensures Canonical(Disk(), index, offset) && IndexOf(Disk(), index, offset) == |Contents()|
    {
      LiveLength(Disk());
      return currentStart, RECORD * currentCount;
    }
  }
}
