/** The disk queue writer: appends, rolls, rolls back and resets over a set of files, and at
    every moment one sequence of bytes from the queue start to the write end. */
module DiskQueueWriter {
  import opened DiskQueueAddress

  type Byte = x: int | 0 <= x < 256
  type Files = map<int, seq<Byte>>

  /** The offset meta of a finished file: messages up to its end, and its virtual bounds. */
  datatype OffsetMeta = OffsetMeta(cnt: int, start: int, end: int)

  function File(files: Files, i: int): (s: seq<Byte>) {
    if i in files then files[i] else []
  }

  function Cat(files: Files, i: int, j: int): (s: seq<Byte>)
    decreases j - i
  {
    if i >= j then [] else Cat(files, i, j - 1) + File(files, j - 1)
  }

  ghost function QueueOf(files: Files, start: Info): (q: Queue) {
    Queue(map i | i in files :: |files[i]|, start.at.file, start.offset)
  }

  lemma {:induction false} CatSplit(files: Files, i: int, k: int, j: int)
    requires i <= k <= j
    ensures Cat(files, i, j) == Cat(files, i, k) + Cat(files, k, j)
    decreases j - k
  {
    if k < j {
      CatSplit(files, i, k, j - 1);
    }
  }

  lemma {:induction false} CatFrame(f: Files, g: Files, i: int, j: int)
    requires forall k :: i <= k < j ==> File(f, k) == File(g, k)
    ensures Cat(f, i, j) == Cat(g, i, j)
    decreases j - i
  {
    if i < j {
      CatFrame(f, g, i, j - 1);
    }
  }

  lemma {:induction false} CatBytes(files: Files, start: Info, i: int, j: int)
    ensures |Cat(files, i, j)| == Bytes(QueueOf(files, start), i, j)
    decreases j - i
  {
    if i < j {
      CatBytes(files, start, i, j - 1);
    }
  }

  /** The files, the write end and the offset metas fit together: the live files hold exactly
      the bytes between the start and the write end, and each finished file's meta has its
      true bounds. */
  ghost predicate Holds(files: Files, metas: map<int, OffsetMeta>, start: Info, end: Info) {
    && 0 <= start.at.file <= end.at.file && start.at.pos == 0 && 0 <= start.offset && start.cnt <= end.cnt
    && (forall i :: i in files ==> start.at.file <= i <= end.at.file)
    && (forall i :: start.at.file <= i < end.at.file ==> i in files)
    && end.at.pos == |File(files, end.at.file)|
    && end.offset == start.offset + |Cat(files, start.at.file, end.at.file)| + end.at.pos
    && (forall i :: start.at.file <= i < end.at.file ==> Bounded(files, metas, start, i))
  }

  /** The meta of file i has its true bounds. */
  ghost predicate Bounded(files: Files, metas: map<int, OffsetMeta>, start: Info, i: int) {
    && i in metas && metas[i].start == start.offset + |Cat(files, start.at.file, i)|
    && metas[i].end == start.offset + |Cat(files, start.at.file, i + 1)|
  }

  lemma SameBounds(f: Files, g: Files, metas: map<int, OffsetMeta>, start: Info, j: int)
    requires forall i :: start.at.file <= i < j ==> Bounded(f, metas, start, i)
    requires forall k :: start.at.file <= k < j ==> File(f, k) == File(g, k)
    ensures forall i :: start.at.file <= i < j ==> Bounded(g, metas, start, i)
  {
    forall i | start.at.file <= i < j ensures Bounded(g, metas, start, i) {
      assert Bounded(f, metas, start, i);
      CatFrame(f, g, start.at.file, i);
      CatFrame(f, g, start.at.file, i + 1);
    }
  }

  /** In terms of the reader's addressing: the write end denotes its offset. */
  lemma EndDenotes(files: Files, metas: map<int, OffsetMeta>, start: Info, end: Info)
    requires Holds(files, metas, start, end)
    ensures Sound(QueueOf(files, start)) && Denotes(QueueOf(files, start), end)
  {
    CatBytes(files, start, start.at.file, end.at.file);
  }

  /** All bytes from the queue start to the write end. */
  function Content(files: Files, start: Info, end: Info): (s: seq<Byte>) {
    Cat(files, start.at.file, end.at.file + 1)
  }

  // ---------------------------------------------------------------- changes of the files

  function Appended(files: Files, end: Info, more: seq<Byte>): (f: Files) {
    files[end.at.file := File(files, end.at.file) + more]
  }

  /** Appending to the current file. */
  lemma AppendHolds(files: Files, metas: map<int, OffsetMeta>, start: Info, end: Info, more: seq<Byte>, cnt: int)
    requires Holds(files, metas, start, end) && cnt >= 0
    ensures var f := Appended(files, end, more);
            var e := Info(Pos(end.at.file, end.at.pos + |more|), end.offset + |more|, end.cnt + cnt);
            Holds(f, metas, start, e) && Content(f, start, e) == Content(files, start, end) + more
  {
    var f := Appended(files, end, more);
    CatFrame(files, f, start.at.file, end.at.file);
    SameBounds(files, f, metas, start, end.at.file);
  }

  function MetaOf(end: Info): (m: OffsetMeta) { OffsetMeta(end.cnt, end.offset - end.at.pos, end.offset) }

  /** Appending leaves every position up to the write end where it is. */
  lemma AppendKeeps(files: Files, start: Info, end: Info, more: seq<Byte>, p: Pos)
    requires Inside(QueueOf(files, start), p) && !GreatThan(p, end.at)
    ensures KeptUpTo(QueueOf(files, start), QueueOf(Appended(files, end, more), start), p)
  {}

  /** Finishing the current file: its meta is saved and the write end moves to the next. */
  lemma RollHolds(files: Files, metas: map<int, OffsetMeta>, start: Info, end: Info)
    requires Holds(files, metas, start, end) && end.at.file in files
    ensures var e := end.(at := Pos(end.at.file + 1, 0));
            && Holds(files, metas[end.at.file := MetaOf(end)], start, e)
            && Content(files, start, e) == Content(files, start, end)
  {
    var more := metas[end.at.file := MetaOf(end)];
    forall i | start.at.file <= i <= end.at.file ensures Bounded(files, more, start, i) {
      assert i < end.at.file ==> Bounded(files, metas, start, i);
    }
  }

  /** The files cut off at position `p`: later files are gone. */
  ghost predicate IsCut(files: Files, f: Files, p: Pos) {
    && 0 <= p.pos <= |File(files, p.file)|
    && (forall i :: i in f <==> (i in files && i <= p.file) || i == p.file)
    && (forall i :: i in f && i != p.file ==> f[i] == files[i])
    && f[p.file] == File(files, p.file)[..p.pos]
  }

  /** Cutting leaves every position up to the cut where it is. */
  lemma CutKeeps(files: Files, f: Files, start: Info, p: Pos)
    requires IsCut(files, f, p) && Inside(QueueOf(files, start), p)
    ensures KeptUpTo(QueueOf(files, start), QueueOf(f, start), p)
  {}

  /** Position p is in one of the files, which go on without a gap up to `last`. */
  ghost predicate CanCut(files: Files, p: Pos, last: int) {
    && 0 <= p.pos <= |File(files, p.file)| && p.file <= last
    && (forall i :: i in files ==> i <= last) && (forall i :: p.file < i < last ==> i in files)
  }

  lemma CutReady(files: Files, metas: map<int, OffsetMeta>, start: Info, end: Info, e: Info)
    requires Holds(files, metas, start, end) && Marks(files, start, end, e)
    ensures CanCut(files, e.at, end.at.file) && !GreatThan(e.at, end.at)
  {}

  lemma CutHolds(files: Files, metas: map<int, OffsetMeta>, start: Info, end: Info, f: Files, e: Info)
    requires Holds(files, metas, start, end) && start.at.file <= e.at.file <= end.at.file && start.cnt <= e.cnt
    requires IsCut(files, f, e.at)
    requires e.offset == start.offset + |Cat(files, start.at.file, e.at.file)| + e.at.pos
    ensures Holds(f, metas, start, e)
  {
    CatFrame(files, f, start.at.file, e.at.file);
    SameBounds(files, f, metas, start, e.at.file);
  }

  lemma CutBytes(files: Files, f: Files, start: Info, end: Info, p: Pos)
    requires start.at.file <= p.file <= end.at.file && IsCut(files, f, p)
    ensures var n := |Cat(files, start.at.file, p.file)| + p.pos;
            && n <= |Content(files, start, end)|
            && Cat(f, start.at.file, p.file + 1) == Content(files, start, end)[..n]
  {
    CatFrame(files, f, start.at.file, p.file);
    CatSplit(files, start.at.file, p.file + 1, end.at.file + 1);
    CutPrefix(Cat(files, start.at.file, p.file), File(files, p.file), Cat(files, p.file + 1, end.at.file + 1), p.pos);
  }

  lemma CutPrefix(a: seq<Byte>, b: seq<Byte>, c: seq<Byte>, k: nat)
    requires k <= |b|
    ensures (a + b + c)[..|a| + k] == a + b[..k]
  {}

  /** A position somewhere in the queue, with its virtual offset. */
  ghost predicate Marks(files: Files, start: Info, end: Info, e: Info) {
    && start.at.file <= e.at.file <= end.at.file && 0 <= e.at.pos <= |File(files, e.at.file)|
    && e.offset == start.offset + |Cat(files, start.at.file, e.at.file)| + e.at.pos
    && e.offset <= end.offset
  }

  lemma AppendMarks(files: Files, start: Info, end: Info, more: seq<Byte>, r: Info)
    requires Marks(files, start, end, r)
    ensures var f := Appended(files, end, more);
            Marks(f, start, end.(offset := end.offset + |more|), r)
  {
    CatFrame(files, Appended(files, end, more), start.at.file, r.at.file);
  }

  lemma BackMarks(files: Files, metas: map<int, OffsetMeta>, start: Info, end: Info, e: Info)
    requires Holds(files, metas, start, end)
    requires e.at.file == end.at.file && 0 <= e.at.pos <= end.at.pos && end.offset - e.offset == end.at.pos - e.at.pos
    ensures Marks(files, start, end, e)
  {}

  lemma CutMarks(files: Files, start: Info, end: Info, f: Files, e: Info, r: Info)
    requires Marks(files, start, end, e) && IsCut(files, f, e.at)
    requires Marks(files, start, end, r) && r.at.file <= e.at.file && r.offset <= e.offset
    ensures Marks(f, start, e, r)
  {
    CatFrame(files, f, start.at.file, r.at.file);
  }

  lemma CutAll(files: Files, metas: map<int, OffsetMeta>, start: Info, end: Info, f: Files, e: Info, r: Info)
    requires Holds(files, metas, start, end) && Marks(files, start, end, e) && start.cnt <= e.cnt
    requires IsCut(files, f, e.at)
    requires Marks(files, start, end, r) && r.at.file <= e.at.file && r.offset <= e.offset
    ensures Holds(f, metas, start, e) && Marks(f, start, e, r)
    ensures 0 <= e.offset - start.offset <= |Content(files, start, end)|
    ensures Content(f, start, e) == Content(files, start, end)[..e.offset - start.offset]
  {
    CutHolds(files, metas, start, end, f, e);
    CutBytes(files, f, start, end, e.at);
    CutMarks(files, start, end, f, e, r);
  }

  /** The length prefix: four bytes, big endian. */
  function Header(n: int): (h: seq<Byte>)
    requires 0 <= n < 0x8000_0000
    ensures |h| == 4
  {
    [n / 0x100_0000, n / 0x1_0000 % 256, n / 0x100 % 256, n % 256]
  }

  /** What RollbackWriteV2 checks: not before the queue start in bytes or messages, not past the
      end, and not before the current file. */
  predicate CanGoBack(start: Info, end: Info, offset: int, diffCnt: nat) {
    && start.offset <= offset <= end.offset && start.cnt <= end.cnt - diffCnt
    && end.offset - end.at.pos <= offset
  }

  /** The write end it goes back to. */
  function Back(end: Info, offset: int, diffCnt: nat): (e: Info) {
    Info(Pos(end.at.file, offset - (end.offset - end.at.pos)), offset, end.cnt - diffCnt)
  }

  class Writer {
    const maxBytesPerFile: int
    const minMsgSize: int
    const maxMsgSize: int
    var files: Files
    var metas: map<int, OffsetMeta>
    var start: Info
    var writeEnd: Info
    var readEnd: Info

    ghost predicate Valid()
      reads this
    {
      Holds(files, metas, start, writeEnd) && Marks(files, start, writeEnd, readEnd)
    }

    /** The bytes on disk. The write end is the queue start plus their number. */
    ghost function Data(): (s: seq<Byte>)
      reads this
      ensures Valid() ==> start.offset + |s| == writeEnd.offset
    {
      Content(files, start, writeEnd)
    }

    constructor (maxBytesPerFile: int, minMsgSize: int, maxMsgSize: int)
      ensures Valid() && Data() == [] && start == writeEnd == Info(Pos(0, 0), 0, 0)
      ensures this.maxBytesPerFile == maxBytesPerFile
      ensures this.minMsgSize == minMsgSize && this.maxMsgSize == maxMsgSize
    {
      this.maxBytesPerFile, this.minMsgSize, this.maxMsgSize := maxBytesPerFile, minMsgSize, maxMsgSize;
      files, metas := map[], map[];
      start, writeEnd, readEnd := Info(Pos(0, 0), 0, 0), Info(Pos(0, 0), 0, 0), Info(Pos(0, 0), 0, 0);
    }

    /** What a message becomes on disk. */
    function Payload(data: seq<Byte>, isRaw: bool): (p: seq<Byte>)
      requires |data| < 0x8000_0000
    {
      if isRaw then data else Header(|data|) + data
    }

    /** The part of writeOne that finishes a full file. */
    method RollIfFull()
      requires Valid() && writeEnd.at.file in files
      modifies this`metas, this`writeEnd, this`readEnd
      ensures Valid() && Data() == old(Data())
      ensures writeEnd.offset == old(writeEnd.offset) && writeEnd.cnt == old(writeEnd.cnt)
      ensures writeEnd.at == if old(writeEnd.at.pos) >= maxBytesPerFile
                             then Pos(old(writeEnd.at.file) + 1, 0) else old(writeEnd.at)
      ensures metas == if old(writeEnd.at.pos) >= maxBytesPerFile
                       then old(metas)[old(writeEnd.at.file) := MetaOf(old(writeEnd))]
                       else old(metas)
    {
      if writeEnd.at.pos >= maxBytesPerFile {
        RollHolds(files, metas, start, writeEnd);
        metas := metas[writeEnd.at.file := MetaOf(writeEnd)];
        writeEnd := writeEnd.(at := Pos(writeEnd.at.file + 1, 0));
        readEnd := writeEnd;
      }
    }

    /** Bytes at the end of the current file, which is created when it is not there. */
    method Write(more: seq<Byte>, cnt: nat)
      requires Valid()
      modifies this`files, this`writeEnd
      ensures Valid() && writeEnd.at.file in files && Data() == old(Data()) + more
      ensures files == Appended(old(files), old(writeEnd), more)
      ensures writeEnd == Info(Pos(old(writeEnd.at.file), old(writeEnd.at.pos) + |more|),
                               old(writeEnd.offset) + |more|, old(writeEnd.cnt) + cnt)
    {
      AppendHolds(files, metas, start, writeEnd, more, cnt);
      AppendMarks(files, start, writeEnd, more, readEnd);
      files := Appended(files, writeEnd, more);
      writeEnd := Info(Pos(writeEnd.at.file, writeEnd.at.pos + |more|), writeEnd.offset + |more|, writeEnd.cnt + cnt);
    }

    /** writeOne, under Put and PutRaw. */
    method Put(data: seq<Byte>, isRaw: bool, msgCnt: nat) returns (ok: bool, offset: int)
      requires Valid() && |data| < 0x8000_0000
      modifies this
      ensures Valid() && start == old(start) && offset == old(writeEnd.offset)
      ensures ok <==> isRaw || minMsgSize <= |data| <= maxMsgSize
      ensures Data() == if ok then old(Data()) + Payload(data, isRaw) else old(Data())
      ensures files == Appended(old(files), old(writeEnd), if ok then Payload(data, isRaw) else [])
      ensures writeEnd.offset == old(writeEnd.offset) + if ok then |Payload(data, isRaw)| else 0
      ensures !ok ==> writeEnd == old(writeEnd)
      ensures ok ==> writeEnd.cnt == old(writeEnd.cnt) + if isRaw then msgCnt else 1
      ensures ok ==> var pos := old(writeEnd.at.pos) + |Payload(data, isRaw)|;
                     writeEnd.at == if pos >= maxBytesPerFile then Pos(old(writeEnd.at.file) + 1, 0)
                                    else Pos(old(writeEnd.at.file), pos)
      ensures ok && writeEnd.at.file != old(writeEnd.at.file) ==>
                old(writeEnd.at.file) in metas && metas[old(writeEnd.at.file)].cnt == writeEnd.cnt
    {
      offset := writeEnd.offset;
      ok := isRaw || minMsgSize <= |data| <= maxMsgSize;
      if !ok {
        Write([], 0);
        return;
      }
      Write(Payload(data, isRaw), if isRaw then msgCnt else 1);
      RollIfFull();
    }

    // -------------------------------------------------------------- going back

    /** truncateDiskQueueToWriteEnd: the current file is cut, later ones are moved away one
        after the other until there is none. */
    method TruncateFiles(ghost last: int)
      requires CanCut(files, writeEnd.at, last)
      modifies this`files
      ensures IsCut(old(files), files, writeEnd.at)
    {
      var f := writeEnd.at.file;
      files := files[f := File(files, f)[..writeEnd.at.pos]];
      var i := f + 1;
      while i in files
        invariant f < i && (i <= last + 1 || i == f + 1)
        invariant forall k :: k in files <==> (k in old(files) && !(f < k < i)) || k == f
        invariant forall k :: k in files && k != f ==> files[k] == old(files)[k]
        invariant f in files && files[f] == File(old(files), f)[..writeEnd.at.pos]
        decreases last - i
      {
        files := files - {i};
        i := i + 1;
      }
    }

    /** The write end goes back to `e`, and the files with it. */
    method CutTo(e: Info, r: Info)
      requires Valid() && Marks(files, start, writeEnd, e) && start.cnt <= e.cnt
      requires Marks(files, start, writeEnd, r) && r.at.file <= e.at.file && r.offset <= e.offset
      modifies this`files, this`writeEnd, this`readEnd
      ensures Valid() && writeEnd == e && readEnd == r
      ensures IsCut(old(files), files, e.at) && !GreatThan(e.at, old(writeEnd.at))
      ensures start.offset <= e.offset <= old(writeEnd.offset) && Data() == old(Data())[..e.offset - start.offset]
    {
      ghost var before, end := files, writeEnd;
      CutReady(files, metas, start, writeEnd, e);
      writeEnd := e;
      readEnd := r;
      TruncateFiles(end.at.file);
      CutAll(before, metas, start, end, files, e, r);
    }

    /** Where RollbackWriteV2 puts the read end. */
    method RollbackReadEnd(e: Info) returns (r: Info)
      requires Valid() && Marks(files, start, writeEnd, e) && e.at.file == writeEnd.at.file
      ensures Marks(files, start, writeEnd, r) && r.at.file <= e.at.file && r.offset <= e.offset
    {
      r := if readEnd.at.pos > e.at.pos || readEnd.offset > e.offset then e else readEnd;
    }

    /** RollbackWriteV2: within the current file only. */
    method Rollback(offset: int, diffCnt: nat) returns (ok: bool)
      requires Valid()
      modifies this`files, this`writeEnd, this`readEnd
      ensures Valid() && if ok then IsCut(old(files), files, writeEnd.at) else files == old(files)
      ensures ok <==> CanGoBack(start, old(writeEnd), offset, diffCnt)
      ensures Data() == if ok then old(Data())[..offset - start.offset] else old(Data())
      ensures writeEnd == if ok then Back(old(writeEnd), offset, diffCnt) else old(writeEnd)
    {
      ok := CanGoBack(start, writeEnd, offset, diffCnt);
      if ok {
        var e := Back(writeEnd, offset, diffCnt);
        BackMarks(files, metas, start, writeEnd, e);
        var r := RollbackReadEnd(e);
        CutTo(e, r);
      }
    }

    /** The walk back over the files in ResetWriteEndV2. */
    method WalkBack(offset: int) returns (p: Pos)
      requires Valid() && start.offset <= offset <= writeEnd.offset
      ensures forall cnt :: Marks(files, start, writeEnd, Info(p, offset, cnt))
      ensures offset == writeEnd.offset ==> p == writeEnd.at
    {
      var newEnd := writeEnd.offset;
      p := writeEnd.at;
      while offset < newEnd - p.pos
        invariant start.at.file <= p.file <= writeEnd.at.file && p.pos == |File(files, p.file)|
        invariant newEnd == start.offset + |Cat(files, start.at.file, p.file)| + p.pos && offset <= newEnd
        invariant p == writeEnd.at || offset < writeEnd.offset
        decreases p.file
      {
        newEnd := newEnd - p.pos;
        p := Pos(p.file - 1, |files[p.file - 1]|);
      }
      p := p.(pos := p.pos - (newEnd - offset));
    }

    method ResetTarget(offset: int, totalCnt: int) returns (e: Info)
      requires Valid() && start.offset <= offset <= writeEnd.offset && start.cnt <= totalCnt
      ensures Marks(files, start, writeEnd, e) && e.offset == offset
      ensures start.cnt <= e.cnt == if offset == 0 then start.cnt else totalCnt
      ensures offset == writeEnd.offset > 0 ==> e.at == writeEnd.at
    {
      e := start;
      if offset != 0 {
        var p := WalkBack(offset);
        e := Info(p, offset, totalCnt);
      }
    }

    /** ResetWriteEndV2: any offset between the queue start and the write end, whatever files
        lie in between; files before the start are not touched. */
    method ResetWriteEnd(offset: int, totalCnt: int) returns (ok: bool)
      requires Valid()
      modifies this`files, this`writeEnd, this`readEnd
      ensures Valid() && if ok then IsCut(old(files), files, writeEnd.at) else files == old(files)
      ensures !GreatThan(writeEnd.at, old(writeEnd.at))
      ensures ok && offset == old(writeEnd.offset) > 0 ==> writeEnd.at == old(writeEnd.at)
      ensures ok <==> start.offset <= offset <= old(writeEnd.offset) && start.cnt <= totalCnt
      ensures Data() == if ok then old(Data())[..offset - start.offset] else old(Data())
      ensures if ok then writeEnd.offset == offset && writeEnd.cnt == (if offset == 0 then start.cnt else totalCnt)
              else writeEnd == old(writeEnd)
    {
      if offset < start.offset || totalCnt < start.cnt {
        return false;
      }
      if offset > writeEnd.offset {
        return false;
      }
      var e := ResetTarget(offset, totalCnt);
      CutTo(e, e);
      ok := true;
    }

    /** ResetWriteWithQueueStart: all files go, and the queue begins again at a given offset. */
    method ResetWithStart(offset: nat, cnt: int)
      requires Valid()
      modifies this
      ensures Valid() && Data() == [] && start == writeEnd == readEnd
      ensures start.offset == offset && start.cnt == cnt
    {
      metas := metas[writeEnd.at.file := MetaOf(writeEnd)];
      var i := 0;
      while i <= writeEnd.at.file
        invariant 0 <= i <= writeEnd.at.file + 1
        invariant forall k :: k in files ==> i <= k <= writeEnd.at.file
      {
        files := files - {i};
        i := i + 1;
      }
      start := Info(Pos(writeEnd.at.file + 2, 0), offset, cnt);
      writeEnd := start;
      readEnd := start;
    }
  }

  lemma TakeBack(a: seq<Byte>, b: seq<Byte>)
    ensures (a + b)[..|a|] == a
  {}

  /** Put then rollback is the identity exactly when the put did not finish the file; otherwise
      the rollback is refused and the message stays. */
  method PutThenRollback(w: Writer, data: seq<Byte>) returns (ok: bool, undone: bool)
    requires w.Valid() && |data| < 0x8000_0000
    modifies w
    ensures w.Valid() && (ok <==> w.minMsgSize <= |data| <= w.maxMsgSize)
    ensures ok ==> (undone <==> old(w.writeEnd.at.pos) + 4 + |data| < w.maxBytesPerFile)
    ensures !ok || undone ==> w.Data() == old(w.Data()) && w.writeEnd == old(w.writeEnd)
    ensures ok && !undone ==> w.Data() == old(w.Data()) + Header(|data|) + data
  {
    ghost var before := w.Data();
    var offset;
    ok, offset := w.Put(data, false, 0);
    undone := false;
    if ok {
      assert w.Data() == before + (Header(|data|) + data);
      TakeBack(before, Header(|data|) + data);
      undone := w.Rollback(offset, 1);
    }
  }
}
