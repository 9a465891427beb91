/** The disk queue reader: three positions over the files, kept in order by every operation. */
module DiskQueueReader {
  import opened DiskQueueAddress

  const MAX_POSSIBLE_MSG_SIZE := 268435456

  datatype Result =
    | Done | ConfirmSizeInvalid | ConfirmCntInvalid | MoveOffsetInvalid | CannotStep(error: StepError)
    | CountMissing | ReadableInvalid | BadMessageSize | Unchanged

  /** Confirmed, read and end each denote their virtual offset and come in this order, and
      neither of the first two is past the end in files either. */
  ghost predicate InOrder(q: Queue, confirmed: Info, read: Info, end: Info) {
    && Sound(q) && Denotes(q, confirmed) && Denotes(q, read) && Denotes(q, end)
    && confirmed.offset <= read.offset <= end.offset
    && !GreatThan(read.at, end.at) && !GreatThan(confirmed.at, end.at)
  }

  /** `a`, or `b` when `a` is past it. */
  function AtMost(a: Info, b: Info): (r: Info) {
    if GreatThan(a.at, b.at) || a.offset > b.offset then b else a
  }

  class Reader {
    var readInfo: Info
    var confirmed: Info
    var endInfo: Info
    var depth: int
    var depthSize: int

    /** The three positions are in order, and depthSize is what is left. */
    ghost predicate Valid(q: Queue)
      reads this
    {
      InOrder(q, confirmed, readInfo, endInfo) && depthSize == endInfo.offset - confirmed.offset
    }

    /** newDiskQueueReader: a reader without saved state starts at the end. */
    constructor (q: Queue, end: Info)
      requires Sound(q) && Denotes(q, end)
      ensures Valid(q) && confirmed == readInfo == endInfo == end
    {
      readInfo, confirmed, endInfo := end, end, end;
      depth, depthSize := 0, 0;
    }

    /** updateDepth. When nothing is left but the counts disagree, confirmed jumps to the end. */
    method UpdateDepth()
      modifies this`depth, this`depthSize, this`confirmed
      ensures old(confirmed.at.file) <= endInfo.at.file ==> depthSize == endInfo.offset - confirmed.offset
      ensures confirmed == if old(confirmed.at.file) <= endInfo.at.file then Settled(old(confirmed), endInfo)
                           else old(confirmed)
    {
      if confirmed.at.file > endInfo.at.file {
        depth, depthSize := 0, 0;
      } else {
        depthSize := endInfo.offset - confirmed.offset;
        depth := endInfo.cnt - confirmed.cnt;
        if depthSize == 0 && depth != 0 {
          confirmed := endInfo;
        }
      }
    }

    /** Confirmed up to the end means at the end: a count that disagrees is taken from there. */
    static function Settled(c: Info, end: Info): (r: Info) {
      if c.offset == end.offset && c.cnt != end.cnt then end else c
    }

    /** internalConfirm. */
    method Confirm(q: Queue, offset: int, cnt: int) returns (r: Result)
      requires Valid(q)
      modifies this`confirmed, this`depth, this`depthSize
      ensures Valid(q) && old(confirmed.offset) <= confirmed.offset
      ensures r == if offset == -1 || offset <= old(confirmed.offset) then Done
                   else if offset > readInfo.offset then ConfirmSizeInvalid
                   else if offset == readInfo.offset && cnt != 0 && cnt != readInfo.cnt then ConfirmCntInvalid
                   else if cnt == 0 && offset != 0 && !(offset == readInfo.offset && readInfo.cnt != 0)
                   then ConfirmCntInvalid else Done
      ensures confirmed.offset == if offset == -1 then readInfo.offset
                                  else if r == Done && offset > old(confirmed.offset) then offset
                                  else old(confirmed.offset)
      ensures r == Done && old(confirmed.offset) < offset < endInfo.offset ==>
                confirmed.cnt == if offset == readInfo.offset then readInfo.cnt else cnt
    {
      if offset == -1 {
        confirmed := readInfo;
        UpdateDepth();
        return Done;
      }
      if offset <= confirmed.offset {
        return Done;
      }
      if offset > readInfo.offset {
        return ConfirmSizeInvalid;
      }
      var n := cnt;
      if offset == readInfo.offset {
        if n == 0 {
          n := readInfo.cnt;
        }
        if n != readInfo.cnt {
          return ConfirmCntInvalid;
        }
      }
      if n == 0 && offset != 0 {
        return ConfirmCntInvalid;
      }
      OrderedFiles(q, confirmed, readInfo);
      var p, error := StepOffset(q, confirmed, offset - confirmed.offset, readInfo);
      confirmed := Info(p, offset, n);
      UpdateDepth();
      return Done;
    }

    /** internalSkipTo, which ResetReadToConfirmed, ResetReadToOffset and the skips go through. */
    method SkipTo(q: Queue, offset: int, cnt: int, back: bool) returns (r: Result)
      requires Valid(q)
      modifies this`readInfo, this`confirmed, this`depth, this`depthSize
      ensures Valid(q)
      ensures r == Done <==>
                || offset == old(readInfo.offset) || offset == old(confirmed.offset)
                || (&& (old(confirmed.offset) < offset || back)
                    && q.base <= offset <= endInfo.offset && cnt <= endInfo.cnt
                    && if offset == endInfo.offset then cnt == 0 || cnt == endInfo.cnt else cnt != 0 || offset == 0)
      ensures r == Done && cnt != 0 ==> readInfo.cnt == cnt
      ensures if r == Done then readInfo.offset == confirmed.offset == offset
              else readInfo == old(readInfo) && confirmed == old(confirmed)
    {
      if offset == readInfo.offset {
        if cnt != 0 && readInfo.cnt != cnt {
          readInfo := readInfo.(cnt := cnt);
        }
        confirmed := readInfo;
        UpdateDepth();
        return Done;
      }
      if offset == confirmed.offset {
        if cnt != 0 && confirmed.cnt != cnt {
          confirmed := confirmed.(cnt := cnt);
        }
        readInfo := confirmed;
        UpdateDepth();
        return Done;
      }
      var p, n := endInfo.at, cnt;
      if offset < confirmed.offset && !back {
        return MoveOffsetInvalid;
      }
      if offset > endInfo.offset || cnt > endInfo.cnt {
        return MoveOffsetInvalid;
      } else if offset == endInfo.offset {
        if cnt == 0 {
          n := endInfo.cnt;
        } else if cnt != endInfo.cnt {
          return MoveOffsetInvalid;
        }
      } else {
        if cnt == 0 && offset != 0 {
          return MoveOffsetInvalid;
        }
        var error;
        p, error := StepOffset(q, readInfo, offset - readInfo.offset, endInfo);
        if error.Some? {
          return CannotStep(error.value);
        }
      }
      readInfo := Info(p, offset, n);
      confirmed := readInfo;
      UpdateDepth();
      return Done;
    }

    /** internalUpdateEnd. The files change from q to q' meanwhile: they grow, which leaves the
        old end where it is, or a rollback cuts them, which leaves the new end where it is. */
    method UpdateEnd(ghost q: Queue, ghost q': Queue, end: Info, force: bool) returns (r: Result)
      requires Valid(q) && Sound(q') && Denotes(q', end)
      requires KeptUpTo(q, q', if GreatThan(endInfo.at, end.at) then end.at else endInfo.at)
      modifies this
      ensures r == if (end.offset == old(endInfo.offset) && end.cnt == old(endInfo.cnt))
                      || ((GreatThan(old(readInfo.at), end.at) || old(readInfo.offset) > end.offset) && !force)
                   then Unchanged else Done
      ensures r == Unchanged ==>
                endInfo == old(endInfo) && readInfo == old(readInfo) && confirmed == old(confirmed)
      ensures r == Unchanged ==> Valid(q) && (KeptUpTo(q, q', endInfo.at) ==> Valid(q'))
      ensures r == Done ==> Valid(q') && endInfo == end
      ensures r == Done ==> readInfo == AtMost(old(readInfo), end)
      ensures r == Done ==> confirmed == Settled(AtMost(old(confirmed), readInfo), end)
    {
      GrownInOrder(q, q', confirmed, readInfo, endInfo);
      CutInOrder(q, q', confirmed, readInfo, endInfo, end);
      if end.offset == endInfo.offset && end.cnt == endInfo.cnt {
        return Unchanged;
      }
      if GreatThan(readInfo.at, end.at) || readInfo.offset > end.offset {
        if !force {
          return Unchanged;
        }
        readInfo := end;
      }
      if GreatThan(confirmed.at, readInfo.at) || confirmed.offset > readInfo.offset {
        confirmed := readInfo;
      }
      endInfo := end;
      UpdateDepth();
      return Done;
    }

    /** The part of readOne that goes on to the next file. */
    method NextFile(q: Queue)
      requires Valid(q)
      modifies this`readInfo
      ensures Valid(q) && readInfo == old(readInfo).(at := Opened(q, old(readInfo.at), endInfo.at))
    {
      while readInfo.at.file < endInfo.at.file && readInfo.at.pos >= Size(q, readInfo.at.file)
        invariant Valid(q) && readInfo == old(readInfo).(at := readInfo.at)
        invariant Opened(q, readInfo.at, endInfo.at) == Opened(q, old(readInfo.at), endInfo.at)
        decreases endInfo.at.file - readInfo.at.file
      {
        readInfo := readInfo.(at := Pos(readInfo.at.file + 1, 0));
      }
    }

    /** How many bytes can be read from a position before its file, or the queue, ends. */
    function Room(q: Queue, p: Pos): (n: int)
      reads this`endInfo
    {
      (if p.file == endInfo.at.file then endInfo.at.pos else Size(q, p.file)) - p.pos
    }

    /** The part of readOne that moves the position over one message. */
    method Advance(q: Queue, total: int)
      requires Valid(q) && 0 < total <= Room(q, readInfo.at)
      modifies this`readInfo
      ensures Valid(q) && readInfo.offset == old(readInfo.offset) + total
      ensures readInfo.cnt == if readInfo.offset == endInfo.offset then endInfo.cnt else old(readInfo.cnt) + 1
    {
      var p := Pos(readInfo.at.file, readInfo.at.pos + total);
      var isEnd := p.file < endInfo.at.file && p.pos >= Size(q, p.file);
      VirtualMonotone(q, p, endInfo.at);
      readInfo := Info(p, readInfo.offset + total, readInfo.cnt + 1);
      if readInfo.offset == endInfo.offset {
        readInfo := readInfo.(cnt := endInfo.cnt);
      }
      if isEnd {
        readInfo := readInfo.(at := Pos(p.file + 1, 0));
      }
    }

    /** readOne: `sizeField` is the length stored in front of the message. */
    method ReadOne(q: Queue, sizeField: int) returns (r: Result)
      requires Valid(q)
      modifies this`readInfo
      ensures Valid(q)
      ensures readInfo.offset == if r == Done then old(readInfo.offset) + 4 + sizeField else old(readInfo.offset)
      ensures readInfo.cnt == if r != Done then old(readInfo.cnt)
                              else if readInfo.offset == endInfo.offset then endInfo.cnt else old(readInfo.cnt) + 1
      ensures var room := Room(q, Opened(q, old(readInfo.at), endInfo.at));
              r == if old(readInfo.cnt) <= 0 && old(readInfo.offset) > 0 then CountMissing
                   else if room < 4 then ReadableInvalid
                   else if !(0 < sizeField <= MAX_POSSIBLE_MSG_SIZE) then BadMessageSize
                   else if room < 4 + sizeField then ReadableInvalid else Done
    {
      if readInfo.cnt <= 0 && readInfo.offset > 0 {
        return CountMissing;
      }
      NextFile(q);
      if Room(q, readInfo.at) < 4 {
        return ReadableInvalid;
      }
      if sizeField <= 0 || sizeField > MAX_POSSIBLE_MSG_SIZE {
        return BadMessageSize;
      }
      if Room(q, readInfo.at) - 4 < sizeField {
        return ReadableInvalid;
      }
      Advance(q, 4 + sizeField);
      return Done;
    }

    /** ResetLastReadOne: undoes the last read, unless it was the last of its file. The caller's
        numbers are taken as they are, and only the right ones leave a valid reader. */
    method ResetLastReadOne(ghost q: Queue, offset: int, cnt: int, lastMoved: int)
      requires Valid(q)
      modifies this`readInfo
      ensures old(readInfo.at.pos) < lastMoved ==> readInfo == old(readInfo)
      ensures old(readInfo.at.pos) >= lastMoved ==> readInfo.offset == offset
      ensures 0 <= lastMoved <= old(readInfo.at.pos) ==>
                (Valid(q) <==> offset == old(readInfo.offset) - lastMoved && confirmed.offset <= offset)
    {
      if readInfo.at.pos < lastMoved {
        return;
      }
      readInfo := readInfo.(at := readInfo.at.(pos := readInfo.at.pos - lastMoved), offset := offset);
      if cnt > 0 || (offset == 0 && cnt == 0) {
        readInfo := readInfo.(cnt := cnt);
      }
    }
  }

  /** Where reading goes on from p when finished files before the last one are left behind. */
  function Opened(q: Queue, p: Pos, end: Pos): (r: Pos)
    decreases end.file - p.file
  {
    if p.file < end.file && p.pos >= Size(q, p.file) then Opened(q, Pos(p.file + 1, 0), end) else p
  }

  lemma {:induction false} SameBytes(q: Queue, q': Queue, i: int, j: int)
    requires forall k :: i <= k < j ==> Size(q, k) == Size(q', k)
    ensures Bytes(q, i, j) == Bytes(q', i, j)
    decreases j - i
  {
    if i < j {
      SameBytes(q, q', i, j - 1);
    }
  }

  lemma StillDenotes(q: Queue, q': Queue, e: Info, p: Pos)
    requires Denotes(q, e) && KeptUpTo(q, q', p) && !GreatThan(e.at, p)
    ensures Denotes(q', e)
  {
    SameBytes(q, q', q.first, e.at.file);
  }

  lemma GrownInOrder(q: Queue, q': Queue, confirmed: Info, read: Info, end: Info)
    requires InOrder(q, confirmed, read, end) && Sound(q')
    ensures KeptUpTo(q, q', end.at) ==> InOrder(q', confirmed, read, end)
  {
    if KeptUpTo(q, q', end.at) {
      StillDenotes(q, q', end, end.at);
      StillDenotes(q, q', read, end.at);
      StillDenotes(q, q', confirmed, end.at);
    }
  }

  /** Cut back to the new end where they are past it, the positions are in order over the
      new files. */
  lemma CutInOrder(q: Queue, q': Queue, confirmed: Info, read: Info, was: Info, end: Info)
    requires InOrder(q, confirmed, read, was) && Sound(q') && Denotes(q', end)
    requires KeptUpTo(q, q', if GreatThan(was.at, end.at) then end.at else was.at)
    ensures var r := AtMost(read, end); InOrder(q', AtMost(confirmed, r), r, end)
  {
    var low := if GreatThan(was.at, end.at) then end.at else was.at;
    var r := AtMost(read, end);
    var c := AtMost(confirmed, r);
    if r != end {
      StillDenotes(q, q', r, low);
    }
    if c != end && c != r {
      StillDenotes(q, q', c, low);
    }
  }

  lemma OrderedFiles(q: Queue, a: Info, b: Info)
    requires Denotes(q, a) && Denotes(q, b) && a.offset < b.offset
    ensures !GreatThan(a.at, b.at)
  {
    if GreatThan(a.at, b.at) {
      VirtualMonotone(q, b.at, a.at);
    }
  }
}
