/** A reader told of what its writer does: whatever the writer does to the files, the reader
    stays in order over them. */
module DiskQueuePair {
  import opened DiskQueueAddress
  import opened DiskQueueReader
  import opened DiskQueueWriter

  /** The reader's positions are in order over the writer's files, and its end is not past
      the write end. */
  ghost predicate Follows(files: Files, start: Info, end: Info, confirmed: Info, read: Info, readEnd: Info) {
    && InOrder(QueueOf(files, start), confirmed, read, readEnd)
    && !GreatThan(readEnd.at, end.at) && readEnd.offset <= end.offset
  }

  lemma StillFollows(files: Files, start: Info, end: Info, more: seq<Byte>, metas: map<int, OffsetMeta>, end': Info,
                     confirmed: Info, read: Info, readEnd: Info)
    requires Follows(files, start, end, confirmed, read, readEnd)
    requires Holds(Appended(files, end, more), metas, start, end')
    requires !GreatThan(end.at, end'.at) && end.offset <= end'.offset
    ensures var q' := QueueOf(Appended(files, end, more), start);
            && Sound(q') && Denotes(q', end') && KeptUpTo(QueueOf(files, start), q', readEnd.at)
            && Follows(Appended(files, end, more), start, end', confirmed, read, readEnd)
  {
    var f := Appended(files, end, more);
    EndDenotes(f, metas, start, end');
    AppendKeeps(files, start, end, more, readEnd.at);
    GrownInOrder(QueueOf(files, start), QueueOf(f, start), confirmed, read, readEnd);
  }

  /** A put, which may finish the file, and the reader learning the new end: nothing the
      reader holds moves, and what it can read grows by the message. */
  method PutAndTell(w: Writer, r: Reader, data: seq<Byte>) returns (ok: bool)
    requires w.Valid() && Follows(w.files, w.start, w.writeEnd, r.confirmed, r.readInfo, r.endInfo)
    requires r.Valid(QueueOf(w.files, w.start)) && |data| < 0x8000_0000
    modifies w, r
    ensures w.Valid() && Follows(w.files, w.start, w.writeEnd, r.confirmed, r.readInfo, r.endInfo)
    ensures r.Valid(QueueOf(w.files, w.start)) && (ok <==> w.minMsgSize <= |data| <= w.maxMsgSize)
    ensures r.readInfo == old(r.readInfo) && r.confirmed.offset == old(r.confirmed.offset)
    ensures ok ==> r.endInfo == w.writeEnd && r.endInfo.offset == old(w.writeEnd.offset) + 4 + |data|
    ensures !ok ==> r.endInfo == old(r.endInfo)
  {
    ghost var files, end := w.files, w.writeEnd;
    ghost var more := if w.minMsgSize <= |data| <= w.maxMsgSize then w.Payload(data, false) else [];
    var offset;
    ok, offset := w.Put(data, false, 0);
    StillFollows(files, w.start, end, more, w.metas, w.writeEnd, r.confirmed, r.readInfo, r.endInfo);
    if ok {
      Tell(r, QueueOf(files, w.start), QueueOf(w.files, w.start), w.writeEnd);
    }
  }

  /** The reader learns that the queue has grown. */
  method Tell(r: Reader, ghost q: Queue, ghost q': Queue, end: Info)
    requires r.Valid(q) && Sound(q') && Denotes(q', end) && KeptUpTo(q, q', r.endInfo.at)
    requires !GreatThan(r.endInfo.at, end.at) && r.endInfo.offset < end.offset
    modifies r
    ensures r.Valid(q') && r.endInfo == end
    ensures r.readInfo == old(r.readInfo) && r.confirmed.offset == old(r.confirmed.offset)
  {
    if r.confirmed.offset < r.readInfo.offset {
      OrderedFiles(q, r.confirmed, r.readInfo);
    }
    var done := r.UpdateEnd(q, q', end, false);
  }

  /** A position at or before one that stayed where it is stayed there too. */
  lemma KeptBelow(q: Queue, q': Queue, p: Pos, r: Pos)
    requires KeptUpTo(q, q', p) && Inside(q, r) && !GreatThan(r, p)
    ensures KeptUpTo(q, q', r)
  {}

  lemma CutFollows(files: Files, start: Info, end: Info, f: Files, metas: map<int, OffsetMeta>, end': Info, p: Pos)
    requires Denotes(QueueOf(files, start), end) && IsCut(files, f, end'.at) && Holds(f, metas, start, end')
    requires !GreatThan(end'.at, end.at) && Inside(QueueOf(files, start), p)
    ensures Sound(QueueOf(f, start)) && Denotes(QueueOf(f, start), end')
    ensures KeptUpTo(QueueOf(files, start), QueueOf(f, start), if GreatThan(p, end'.at) then end'.at else p)
  {
    EndDenotes(f, metas, start, end');
    CutKeeps(files, f, start, end'.at);
    if !GreatThan(p, end'.at) {
      KeptBelow(QueueOf(files, start), QueueOf(f, start), end'.at, p);
    }
  }

  /** The write end goes back and the reader is told to reload, wherever its own end was: it is
      cut back to the new end where it was past it, keeps its position otherwise, and learns the
      new end. Only a reader whose end has the same offset in a later file is not told. */
  method ResetAndTell(w: Writer, r: Reader, offset: int, totalCnt: int) returns (ok: bool)
    requires w.Valid() && r.Valid(QueueOf(w.files, w.start))
    requires Follows(w.files, w.start, w.writeEnd, r.confirmed, r.readInfo, r.endInfo)
    modifies w, r
    ensures w.Valid() && (!ok || !NamedLater(old(r.endInfo), w.writeEnd) ==> r.Valid(QueueOf(w.files, w.start)))
    ensures ok <==> w.start.offset <= offset <= old(w.writeEnd.offset) && w.start.cnt <= totalCnt
    ensures ok && w.writeEnd.offset < old(w.writeEnd.offset)
            && (w.writeEnd.offset != old(r.endInfo.offset) || w.writeEnd.cnt != old(r.endInfo.cnt)) ==>
              r.endInfo == w.writeEnd && r.readInfo == AtMost(old(r.readInfo), w.writeEnd)
    ensures !ok ==> r.readInfo == old(r.readInfo) && r.confirmed == old(r.confirmed) && r.endInfo == old(r.endInfo)
  {
    if w.writeEnd.offset == offset && w.writeEnd.cnt == totalCnt {
      return true;
    }
    ghost var files, end := w.files, w.writeEnd;
    EndDenotes(w.files, w.metas, w.start, w.writeEnd);
    ok := w.ResetWriteEnd(offset, totalCnt);
    if ok {
      CutFollows(files, w.start, end, w.files, w.metas, w.writeEnd, r.endInfo.at);
      var done := r.UpdateEnd(QueueOf(files, w.start), QueueOf(w.files, w.start), w.writeEnd, true);
    }
  }

  /** The two ends have one offset, the first in a later file. */
  predicate NamedLater(e: Info, end: Info) { e.offset == end.offset && GreatThan(e.at, end.at) }
}
