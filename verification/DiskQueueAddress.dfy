/** Disk queue addressing: virtual byte offsets and (file, position) pairs over rolled files. */
module DiskQueueAddress {
  import opened Wrappers

  datatype Pos = Pos(file: int, pos: int)

  /** diskQueueEndInfo: a position, its virtual offset, and the messages before it. */
  datatype Info = Info(at: Pos, offset: int, cnt: int)

  /** The data files on disk: the first live file and the virtual offset it starts at. */
  datatype Queue = Queue(sizes: map<int, nat>, first: int, base: int)

  predicate GreatThan(p: Pos, r: Pos) {
    p.file > r.file || (p.file == r.file && p.pos > r.pos)
  }

  function Size(q: Queue, i: int): (n: nat) {
    if i in q.sizes then q.sizes[i] else 0
  }

  /** The bytes in files i up to j. */
  function Bytes(q: Queue, i: int, j: int): (n: nat)
    decreases j - i
  {
    if i >= j then 0 else Bytes(q, i, j - 1) + Size(q, j - 1)
  }

  function Virtual(q: Queue, p: Pos): (v: int) {
    q.base + Bytes(q, q.first, p.file) + p.pos
  }

  ghost predicate Sound(q: Queue) {
    0 <= q.first && 0 <= q.base && forall i :: i in q.sizes ==> q.first <= i
  }

  /** Position p is inside the queue. The file it is in may not have been created yet. */
  ghost predicate Inside(q: Queue, p: Pos) {
    && q.first <= p.file && 0 <= p.pos <= Size(q, p.file)
    && forall i :: q.first <= i < p.file ==> i in q.sizes
  }

  ghost predicate Denotes(q: Queue, e: Info) {
    Inside(q, e.at) && e.offset == Virtual(q, e.at)
  }

  /** Nothing before p differs between the two states of the files. */
  ghost predicate SameUpTo(q: Queue, q': Queue, p: Pos) {
    && q.first == q'.first && q.base == q'.base
    && forall i :: q.first <= i < p.file ==> Size(q, i) == Size(q', i) && (i in q.sizes ==> i in q'.sizes)
  }

  /** Position p is where it was. */
  ghost predicate KeptUpTo(q: Queue, q': Queue, p: Pos) {
    SameUpTo(q, q', p) && Inside(q', p)
  }

  lemma {:induction false} BytesSplit(q: Queue, i: int, k: int, j: int)
    requires i <= k <= j
    ensures Bytes(q, i, j) == Bytes(q, i, k) + Bytes(q, k, j)
    decreases j - k
  {
    if k < j {
      BytesSplit(q, i, k, j - 1);
    }
  }

  /** Later positions have larger offsets, or equal ones across a file boundary. */
  lemma VirtualMonotone(q: Queue, p: Pos, r: Pos)
    requires Inside(q, p) && Inside(q, r) && !GreatThan(p, r)
    ensures Virtual(q, p) <= Virtual(q, r)
    ensures p.file == r.file ==> Virtual(q, r) - Virtual(q, p) == r.pos - p.pos
  {
    if p.file < r.file {
      BytesSplit(q, q.first, p.file + 1, r.file);
    }
  }

  /** getVirtualOffsetDistance. */
  function Distance(q: Queue, prev: Pos, next: Pos): (d: Option<int>)
    decreases next.file - prev.file
  {
    if GreatThan(prev, next) then None
    else if prev.file == next.file then Some(next.pos - prev.pos)
    else if prev.file !in q.sizes then None
    else
      var rest := Distance(q, Pos(prev.file + 1, 0), next);
      if rest.None? then None else Some(rest.value + q.sizes[prev.file] - prev.pos)
  }

  /** The distance is the difference of the virtual offsets, exactly for positions in order. */
  lemma {:induction false} DistanceIsDifference(q: Queue, prev: Pos, next: Pos)
    requires Inside(q, prev) && Inside(q, next)
    ensures Distance(q, prev, next) ==
            if GreatThan(prev, next) then None else Some(Virtual(q, next) - Virtual(q, prev))
    decreases next.file - prev.file
  {
    if prev.file < next.file {
      DistanceIsDifference(q, Pos(prev.file + 1, 0), next);
    }
  }

  datatype StepError = BadOffset | MoveInvalid | AlreadyCleaned

  /** The backward loop of stepOffset: `step` bytes back from `at`. */
  method StepBack(q: Queue, at: Pos, step: int) returns (p: Pos, error: Option<StepError>)
    requires Sound(q) && Inside(q, at) && step > 0
    ensures error == None <==> q.base <= Virtual(q, at) - step
    ensures error == None ==> Inside(q, p) && Virtual(q, p) == Virtual(q, at) - step && p.file <= at.file
    ensures error.Some? ==> error.value == if q.first == 0 then MoveInvalid else AlreadyCleaned
  {
    p := at;
    var left := step;
    while left > p.pos
      invariant Inside(q, p) && p.file <= at.file && 0 < left
      invariant Virtual(q, p) - left == Virtual(q, at) - step
      decreases p.file
    {
      left := left - p.pos;
      p := p.(file := p.file - 1);
      if p.file < 0 {
        return p, Some(MoveInvalid);
      }
      if p.file !in q.sizes {
        return p, Some(AlreadyCleaned);
      }
      p := p.(pos := q.sizes[p.file]);
    }
    p := p.(pos := p.pos - left);
    error := None;
  }

  /** The forward loop. Whether a file's end is its size or the maximum is decided once, from
      the file the step starts in. */
  method StepForward(q: Queue, at: Pos, step: int, max: Pos) returns (p: Pos, error: Option<StepError>)
    requires Inside(q, at) && Inside(q, max) && at.file <= max.file
    requires 0 < step <= Virtual(q, max) - Virtual(q, at)
    ensures error == None && Inside(q, p) && Virtual(q, p) == Virtual(q, at) + step
    ensures !GreatThan(p, max) && !GreatThan(at, p)
  {
    p := at;
    var left := step;
    while true
      invariant Inside(q, p) && at.file <= p.file <= max.file && 0 < left && !GreatThan(at, p)
      invariant Virtual(q, p) + left == Virtual(q, at) + step
      decreases max.file - p.file
    {
      var end := if at.file < max.file then Size(q, p.file) else max.pos;
      if p.file < max.file {
        BytesSplit(q, q.first, p.file + 1, max.file);
      }
      var diff := end - p.pos;
      if left > diff {
        p := Pos(p.file + 1, 0);
        left := left - diff;
      } else {
        p := p.(pos := p.pos + left);
        return p, None;
      }
    }
  }

  /** stepOffset: exactly the current offset plus the step, for any file sizes, whenever that
      lies between the queue start and the maximum; and only then. */
  method StepOffset(q: Queue, cur: Info, step: int, max: Info) returns (p: Pos, error: Option<StepError>)
    requires Sound(q) && Denotes(q, cur) && Denotes(q, max)
    ensures error == None <==>
              cur.at.file <= max.at.file && (step == 0 || q.base <= cur.offset + step <= max.offset)
    ensures error == None ==> Inside(q, p) && Virtual(q, p) == cur.offset + step
    ensures error == None && step != 0 ==> !GreatThan(p, max.at)
    ensures error == None && step > 0 ==> Distance(q, cur.at, p) == Some(step)
  {
    p := cur.at;
    if cur.at.file > max.at.file {
      return p, Some(BadOffset);
    }
    if step == 0 {
      return p, None;
    }
    if cur.offset + step < 0 || cur.offset + step > max.offset {
      return p, Some(BadOffset);
    }
    if step < 0 {
      p, error := StepBack(q, cur.at, -step);
      if error == None && p.file == max.at.file && p.pos > max.at.pos {
        VirtualMonotone(q, max.at, p);
      }
      return;
    }
    p, error := StepForward(q, cur.at, step, max.at);
    DistanceIsDifference(q, cur.at, p);
  }
}
