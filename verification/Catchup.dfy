/** A replica catching up: deciding from where, then pulling the leader's entries. The leader's
    log is fixed meanwhile and is addressed by count index. */
module Catchup {
  import opened CommitLogLayout
  import opened CommitLog
  import opened Wrappers

  const MAX_LOG_PULL := 10000
  const MAX_LOG_PULL_BYTES := 33554432

  /** What the leader serves: its start, and its entries from there on. */
  datatype Served = Served(start: LogStart, entries: seq<LogData>)

  function End(m: Served): (c: int) { m.start.count + |m.entries| }

  // ---------------------------------------------------------------- the leader's answers

  /** GetCommitLogFromOffset: the entry, or how far the log goes, or that it was cleaned. */
  datatype Answer = Got(entry: LogData) | Missing(last: int) | Gone

  function Ask(m: Served, c: int): (a: Answer) {
    if c < m.start.count then Gone
    else if c < End(m) then Got(m.entries[c - m.start.count])
    else if m.entries == [] then Missing(m.start.count)
    else Missing(End(m) - 1)
  }

  /** How many entries fit into one answer of PullCommitLogsAndData. */
  function Fitting(logs: seq<LogData>, total: int): (n: nat)
    ensures n <= |logs|
    ensures logs != [] && total + logs[0].msgSize <= MAX_LOG_PULL_BYTES ==> n > 0
  {
    if logs == [] || total + logs[0].msgSize > MAX_LOG_PULL_BYTES then 0
    else 1 + Fitting(logs[1..], total + logs[0].msgSize)
  }

  function Pulled(m: Served, c: int): (r: Option<seq<LogData>>)
    ensures r.Some? <==> m.start.count <= c <= End(m)
    ensures r.Some? ==> r.value <= m.entries[c - m.start.count..]
    ensures r.Some? && c < End(m) && m.entries[c - m.start.count].msgSize <= MAX_LOG_PULL_BYTES ==> r.value != []
  {
    if c < m.start.count || c > End(m) then None
    else
      var rest := Take(m.entries[c - m.start.count..], MAX_LOG_PULL);
      Some(rest[..Fitting(rest, 0)])
  }

  /** The byte sum of the server's loop, which cuts the list at the entry that exceeds it. */
  method CutToBytes(logs: seq<LogData>) returns (n: nat)
    ensures n == Fitting(logs, 0)
  {
    var total := 0;
    n := 0;
    while n < |logs|
      invariant n <= |logs| && n + Fitting(logs[n..], total) == Fitting(logs, 0)
    {
      assert logs[n..][1..] == logs[n + 1..];
      total := total + logs[n].msgSize;
      if total > MAX_LOG_PULL_BYTES {
        return;
      }
      n := n + 1;
    }
  }

  // ---------------------------------------------------------------- agreement

  /** Both logs retain count index c. */
  predicate Both(ls: int, l: seq<LogData>, m: Served, c: int) {
    ls <= c < ls + |l| && m.start.count <= c < End(m)
  }

  predicate Same(ls: int, l: seq<LogData>, m: Served, c: int)
    requires Both(ls, l, m, c)
  {
    l[c - ls] == m.entries[c - m.start.count]
  }

  ghost predicate Agrees(ls: int, l: seq<LogData>, m: Served) {
    forall c | Both(ls, l, m, c) :: Same(ls, l, m, c)
  }

  /** Log matching: where the logs agree, they agree on all that comes before. */
  ghost predicate Matching(ls: int, l: seq<LogData>, m: Served) {
    forall b, c | b < c && Both(ls, l, m, b) && Both(ls, l, m, c) :: Same(ls, l, m, c) ==> Same(ls, l, m, b)
  }

  lemma PrefixAgrees(ls: int, l: seq<LogData>, m: Served, c: int)
    requires Matching(ls, l, m) && Both(ls, l, m, c) && Same(ls, l, m, c)
    ensures Agrees(ls, l[..c - ls + 1], m)
  {
    var p := l[..c - ls + 1];
    forall b | Both(ls, p, m, b) ensures Same(ls, p, m, b) {
      assert Both(ls, l, m, b) && Same(ls, l, m, b);
    }
  }

  // ---------------------------------------------------------------- one round of the decision

  /** What one round of the decision loop does at count index c of the local log. */
  datatype Round = Match | FullSync | Back(c: int)

  function Decide(ls: int, l: seq<LogData>, m: Served, c: int): (r: Round)
    requires ls < c < ls + |l|
  {
    match Ask(m, c)
    case Got(e) => if e == l[c - ls] then Match else Back(c - 1)
    case Missing(last) => if last < ls then FullSync else Back(last)
    case Gone => FullSync
  }

  /** Every round that does not end the loop moves back, except against an empty leader whose
      start count is the very index compared: then it repeats for ever. */
  lemma RoundProgress(ls: int, l: seq<LogData>, m: Served, c: int)
    requires ls < c < ls + |l| && Decide(ls, l, m, c).Back?
    ensures Decide(ls, l, m, c).c <= c
    ensures Decide(ls, l, m, c).c == c <==> m.entries == [] && c == m.start.count
  {}

  /** The loop reaches that index exactly when it lies inside the local log, after its start. */
  ghost predicate Stuck(ls: int, l: seq<LogData>, m: Served) {
    m.entries == [] && ls < m.start.count < ls + |l|
  }

  lemma StuckForever(ls: int, l: seq<LogData>, m: Served, c: int)
    requires Stuck(ls, l, m) && m.start.count <= c < ls + |l|
    ensures Decide(ls, l, m, c) == Back(m.start.count)
  {}

  // ---------------------------------------------------------------- the decision on a log

  /** A canonical position of an entry, not only of the end of the log. */
  ghost predicate AtEntry(d: Layout, index: int, offset: int) {
    Canonical(d, index, offset) && offset < RECORD * |Segment(d, index)|
  }

  /** One entry back, across a segment boundary if need be. */
  method StepBack(d: Layout, index: int, offset: int) returns (index': int, offset': int)
    requires Sound(d) && AtEntry(d, index, offset) && IndexOf(d, index, offset) > 0
    ensures AtEntry(d, index', offset') && IndexOf(d, index', offset') == IndexOf(d, index, offset) - 1
  {
    index', offset' := index, offset - RECORD;
    if offset' < 0 && index' > d.start.index {
      index' := index' - 1;
      offset' := RECORD * (|d.files[index']| - 1);
      SegmentEnd(d, index');
    }
  }

  lemma StartPosition(d: Layout, index: int, offset: int)
    requires Sound(d) && Canonical(d, index, offset)
    ensures 0 <= IndexOf(d, index, offset) <= |Live(d)|
    ensures IndexOf(d, index, offset) == 0 <==> index == d.start.index && offset == d.start.offset
    ensures offset < RECORD * |Segment(d, index)| ==> IndexOf(d, index, offset) < |Live(d)|
    ensures IndexOf(d, index, offset) < |Live(d)| ==> offset < RECORD * |Segment(d, index)|
  {
    SegmentSlice(d, index, offset, 0);
    if offset < RECORD * |Segment(d, index)| {
      SegmentSlice(d, index, offset, 1);
    } else {
      LiveLength(d);
    }
    if IndexOf(d, index, offset) == 0 {
      PositionUnique(d, index, offset, d.start.index, d.start.offset);
    }
  }

  /** Every entry after the first that agrees with the leader lies before count index `end`. */
  ghost predicate AgreeingBefore(ls: int, l: seq<LogData>, m: Served, end: int) {
    forall c | ls < c && Both(ls, l, m, c) && Same(ls, l, m, c) :: c < end
  }

  /** How the search for a common entry ended. */
  datatype Verdict = MatchAt(index: int, offset: int) | AtStart | Behind | Beyond

  /** No retained entry after count index c agrees with the leader. */
  ghost predicate NoneAbove(d: Layout, m: Served, c: int)
    requires Sound(d)
  {
    forall b | c < b && Both(d.start.count, Live(d), m, b) :: !Same(d.start.count, Live(d), m, b)
  }

  /** The match is the last agreeing entry; otherwise only the first local entry can agree. */
  ghost predicate Meaning(d: Layout, m: Served, v: Verdict)
    requires Sound(d)
  {
    if v.MatchAt? then
      && AtEntry(d, v.index, v.offset) && IndexOf(d, v.index, v.offset) > 0
      && var c := d.start.count + IndexOf(d, v.index, v.offset);
         Both(d.start.count, Live(d), m, c) && Same(d.start.count, Live(d), m, c) && NoneAbove(d, m, c)
    else
      && NoneAbove(d, m, d.start.count)
      && (v.Behind? ==> d.start.count < m.start.count)
      && (v.Beyond? ==> End(m) <= d.start.count)
  }

  method EntryAt(d: Layout, index: int, offset: int) returns (l: LogData)
    requires Sound(d) && AtEntry(d, index, offset)
    ensures 0 <= IndexOf(d, index, offset) < |Live(d)| && l == Live(d)[IndexOf(d, index, offset)]
  {
    SegmentSlice(d, index, offset, 1);
    l := Segment(d, index)[offset / RECORD];
    var p := IndexOf(d, index, offset);
    assert Live(d)[p] == Live(d)[p..p + 1][0];
    assert l == Segment(d, index)[offset / RECORD..offset / RECORD + 1][0];
  }

  /** The loop of decideCatchupCommitLogInfo, from the last position of a log with entries. */
  method FindMatch(d: Layout, m: Served, index0: int, offset0: int) returns (v: Verdict)
    requires Sound(d) && !Stuck(d.start.count, Live(d), m)
    requires AtEntry(d, index0, offset0) && IndexOf(d, index0, offset0) == |Live(d)| - 1
    ensures Meaning(d, m, v)
  {
    var index, offset := index0, offset0;
    StartPosition(d, index, offset);
    while offset > d.start.offset || index > d.start.index
      invariant AtEntry(d, index, offset) && NoneAbove(d, m, d.start.count + IndexOf(d, index, offset))
      decreases IndexOf(d, index, offset)
    {
      StartPosition(d, index, offset);
      var c := d.start.count + IndexOf(d, index, offset);
      var l := EntryAt(d, index, offset);
      match Ask(m, c) {
        case Got(e) =>
          if e == l {
            return MatchAt(index, offset);
          }
          index, offset := StepBack(d, index, offset);
        case Missing(last) =>
          if last < d.start.count {
            return Beyond;
          }
          var status;
          index, offset, status := Locate(d, last);
          StartPosition(d, index, offset);
        case Gone =>
          return Behind;
      }
    }
    StartPosition(d, index, offset);
    return AtStart;
  }

  // ---------------------------------------------------------------- catching up

  /** What a served log satisfies. */
  ghost predicate Serves(m: Served) {
    && 0 <= m.start.index && m.start.index * LOGROTATE_NUM <= m.start.count
    && Rising(m.entries)
    && forall i :: 0 <= i < |m.entries| ==>
         m.entries[i].logId <= m.entries[i].lastMsgLogId && m.entries[i].msgSize <= MAX_LOG_PULL_BYTES
  }

  /** The local log starts at segment 0, so the old way of a full sync keeps its start, but
      that start is past everything the leader has. */
  ghost predicate OutOfReach(start: LogStart, m: Served) {
    start.index == 0 && start.offset == 0 && m.start.count == 0 && End(m) < start.count
  }

  /** An empty log whose start lies inside its segment, as a truncation to that start leaves it. */
  ghost predicate Damaged(l: seq<LogData>, start: LogStart) {
    l == [] && start.offset > 0
  }

  lemma MatchedPrefix(d: Layout, m: Served, index: int, offset: int)
    requires Sound(d) && Matching(d.start.count, Live(d), m) && Meaning(d, m, MatchAt(index, offset))
    ensures IsPosition(d, index, offset + RECORD)
    ensures var p := Before(d, index, offset + RECORD);
            && p != [] && p <= Live(d) && Agrees(d.start.count, p, m)
            && m.start.count < d.start.count + |p| <= End(m)
            && AgreeingBefore(d.start.count, Live(d), m, d.start.count + |p|)
  {
    var k := IndexOf(d, index, offset);
    PrefixAgrees(d.start.count, Live(d), m, d.start.count + k);
    assert Before(d, index, offset + RECORD) == Live(d)[..k + 1];
  }

  /** The local log keeps its entries up to the match. */
  method KeepMatched(local: TopicCommitLog, m: Served, index: int, offset: int)
    requires local.Valid() && local.committedLogs == [] && Matching(local.start.count, local.Contents(), m)
    requires Meaning(local.Disk(), m, MatchAt(index, offset))
    modifies local
    ensures local.Valid() && local.start == old(local.start) && local.Contents() != []
    ensures local.Contents() <= old(local.Contents()) && Agrees(local.start.count, local.Contents(), m)
    ensures m.start.count < local.start.count + |local.Contents()| <= End(m)
    ensures AgreeingBefore(local.start.count, old(local.Contents()), m, local.start.count + |local.Contents()|)
  {
    MatchedPrefix(local.Disk(), m, index, offset);
    var last := local.TruncateWithin(index, offset + RECORD);
  }

  /** A full sync, either way: nothing is left, and the start is the leader's unless the local
      log started at segment 0 and the leader still has its first entry. */
  method StartOver(local: TopicCommitLog, m: Served, v: Verdict)
    requires local.Valid() && local.committedLogs == [] && Serves(m)
    modifies local
    ensures local.Valid() && local.Contents() == []
    ensures local.start == if !v.Behind? && old(local.start.index) == 0 && old(local.start.offset) == 0
                              && m.start.count == 0
                           then old(local.start) else m.start.(offset := 0)
  {
    if !v.Behind? && local.start.index == 0 && local.start.offset == 0 && Ask(m, 0) != Gone {
      BeforeStart(local.Disk());
      var last := local.TruncateWithin(0, 0);
    } else {
      local.Reset(m.start);
    }
  }

  /** decideCatchupCommitLogInfo: afterwards the local log is a part of the leader's, and the
      leader can serve the entry that comes next. A log that is damaged is wiped instead. */
  method Prepare(local: TopicCommitLog, m: Served, firstId: int) returns (ok: bool)
    requires local.Valid() && (local.Contents() == [] ==> Numbered(local.Disk())) && Serves(m)
    requires !Stuck(local.start.count, local.Contents(), m)
    requires Matching(local.start.count, local.Contents(), m)
    modifies local
    ensures ok <==> !Damaged(old(local.Contents()), old(local.start))
    ensures local.Valid() && Agrees(local.start.count, local.Contents(), m)
    ensures !ok ==> local.Contents() == [] && local.start == LogStart(0, 0, 0)
    ensures ok ==> m.start.count <= local.start.count + |local.Contents()|
    ensures local.Contents() != [] ==> m.start.count < local.start.count + |local.Contents()|
    ensures ok ==> (OutOfReach(old(local.start), m) <==> local.start.count + |local.Contents()| > End(m))
    ensures local.Contents() != [] ==> local.start == old(local.start) && local.Contents() <= old(local.Contents())
    ensures AgreeingBefore(old(local.start.count), old(local.Contents()), m,
                           old(local.start.count) + |local.Contents()|)
  {
    var index, offset, last, status := local.LastPosition();
    var d := Layout(local.files, local.start, local.currentStart, local.appender);
    assert local.appender + local.committedLogs == local.appender;
    if status != Ok && status != Eof {
      local.Wipe(firstId);
      return false;
    }
    ok := true;
    var v := AtStart;
    if status == Ok {
      StartPosition(d, index, offset);
      v := FindMatch(d, m, index, offset);
    }
    if v.MatchAt? {
      KeepMatched(local, m, v.index, v.offset);
    } else {
      StartOver(local, m, v);
    }
  }

  /** The appends of one round of pullCatchupDataFromLeader. */
  method AppendAll(local: TopicCommitLog, logs: seq<LogData>)
    requires local.Valid() && Rising(logs) && (logs != [] ==> local.pLogId < logs[0].logId)
    requires forall i :: 0 <= i < |logs| ==> logs[i].logId <= logs[i].lastMsgLogId
    modifies local
    ensures local.Valid() && local.start == old(local.start)
    ensures local.Contents() == old(local.Contents()) + logs
  {
    ghost var base := local.Contents();
    ghost var now := base;
    var i := 0;
    while i < |logs|
      invariant 0 <= i <= |logs| && local.Valid() && local.start == old(local.start)
      invariant local.Contents() == now && now == base + logs[..i]
      invariant i < |logs| ==> local.pLogId < logs[i].logId
    {
      var status := local.Append(logs[i], true);
      TakeNext(base, logs, i);
      now := now + [logs[i]];
      i := i + 1;
    }
    assert logs[..i] == logs;
    local.Flush();
  }

  lemma TakeNext(base: seq<LogData>, logs: seq<LogData>, i: nat)
    requires i < |logs|
    ensures base + logs[..i] + [logs[i]] == base + logs[..i + 1]
  {}

  /** The next entry's id is above everything the local log holds. */
  lemma NextRises(ls: int, l: seq<LogData>, m: Served)
    requires Agrees(ls, l, m) && Rising(m.entries) && m.start.count <= ls + |l| < End(m)
    requires l != [] ==> m.start.count < ls + |l|
    ensures LastId(l) < m.entries[ls + |l| - m.start.count].logId
  {
    if l != [] {
      assert Both(ls, l, m, ls + |l| - 1) && Same(ls, l, m, ls + |l| - 1);
    }
  }

  lemma AgreesMore(ls: int, l: seq<LogData>, m: Served, more: seq<LogData>)
    requires Agrees(ls, l, m) && m.start.count <= ls + |l| <= End(m)
    requires more <= m.entries[ls + |l| - m.start.count..]
    ensures Agrees(ls, l + more, m)
  {
    forall c | Both(ls, l + more, m, c) ensures Same(ls, l + more, m, c) {
      if c < ls + |l| {
        assert Both(ls, l, m, c) && Same(ls, l, m, c);
      } else {
        assert more[c - ls - |l|] == m.entries[ls + |l| - m.start.count..][c - ls - |l|];
      }
    }
  }

  /** pullCatchupDataFromLeader: pulls until the leader has no more, or fails when the leader
      does not have the position asked for. */
  method Pull(local: TopicCommitLog, m: Served) returns (ok: bool)
    requires local.Valid() && Serves(m) && Agrees(local.start.count, local.Contents(), m)
    requires m.start.count <= local.start.count + |local.Contents()|
    requires local.Contents() != [] ==> m.start.count < local.start.count + |local.Contents()|
    modifies local
    ensures local.Valid() && local.start == old(local.start) && Agrees(local.start.count, local.Contents(), m)
    ensures ok <==> old(local.start.count + |local.Contents()|) <= End(m)
    ensures ok ==> local.start.count + |local.Contents()| == End(m)
  {
    while true
      invariant local.Valid() && local.start == old(local.start) && Agrees(local.start.count, local.Contents(), m)
      invariant m.start.count <= local.start.count + |local.Contents()|
      invariant local.Contents() != [] ==> m.start.count < local.start.count + |local.Contents()|
      invariant old(local.start.count + |local.Contents()|) <= End(m) <==>
                  local.start.count + |local.Contents()| <= End(m)
      decreases End(m) - local.start.count - |local.Contents()|
    {
      var r := PullRound(local, m);
      if r != More {
        return r == Synced;
      }
    }
  }

  datatype Pulling = More | Synced | Refused

  /** The count index to ask for. */
  method NextCount(local: TopicCommitLog) returns (c: int)
    requires local.Valid()
    ensures c == local.start.count + |local.Contents()|
  {
    var index, offset := local.CurrentEnd();
    var status;
    c, status := local.ToCount(index, offset);
  }

  /** One round: the leader's answer is appended. */
  method PullRound(local: TopicCommitLog, m: Served) returns (r: Pulling)
    requires local.Valid() && Serves(m) && Agrees(local.start.count, local.Contents(), m)
    requires m.start.count <= local.start.count + |local.Contents()|
    requires local.Contents() != [] ==> m.start.count < local.start.count + |local.Contents()|
    modifies local
    ensures local.Valid() && local.start == old(local.start)
    ensures RoundDone(local.start.count, old(local.Contents()), local.Contents(), m, r)
  {
    ghost var ls, l := local.start.count, local.Contents();
    var c := NextCount(local);
    var logs := Pulled(m, c);
    PullOutcome(ls, l, m);
    if logs.None? {
      return Refused;
    }
    if logs.value == [] {
      return Synced;
    }
    AppendAll(local, logs.value);
    return More;
  }

  /** What one round makes of the local log `l`: refused exactly past the leader's end, synced
      at it, and closer to it otherwise. */
  ghost predicate RoundDone(ls: int, l: seq<LogData>, next: seq<LogData>, m: Served, r: Pulling) {
    && Agrees(ls, next, m)
    && (r == Refused <==> ls + |l| > End(m))
    && (r == Refused ==> next == l)
    && (r != Refused ==> |l| <= |next| && ls + |next| <= End(m))
    && (r == Synced ==> ls + |next| == End(m))
    && (r == More ==> |l| < |next|)
  }

  /** The three answers: refused past the end, empty at the end, and otherwise what fits. */
  lemma PullOutcome(ls: int, l: seq<LogData>, m: Served)
    requires Serves(m) && Agrees(ls, l, m) && m.start.count <= ls + |l|
    requires l != [] ==> m.start.count < ls + |l|
    ensures var logs := Pulled(m, ls + |l|);
            && (logs.None? ==> RoundDone(ls, l, l, m, Refused))
            && (logs.Some? && logs.value == [] ==> RoundDone(ls, l, l, m, Synced))
            && (logs.Some? && logs.value != [] ==>
                  Fit(ls, l, m, logs.value) && RoundDone(ls, l, l + logs.value, m, More))
  {
    var logs := Pulled(m, ls + |l|);
    if logs.Some? && logs.value != [] {
      PulledFits(ls, l, m);
    }
  }

  /** What can be appended to the local log so that it agrees with the leader. */
  ghost predicate Fit(ls: int, l: seq<LogData>, m: Served, more: seq<LogData>)
    requires more != []
  {
    && Rising(more) && LastId(l) < more[0].logId
    && (forall i :: 0 <= i < |more| ==> more[i].logId <= more[i].lastMsgLogId)
    && Agrees(ls, l + more, m) && ls + |l + more| <= End(m)
  }

  /** What was pulled can be appended, and the result agrees with the leader. */
  lemma PulledFits(ls: int, l: seq<LogData>, m: Served)
    requires Serves(m) && Agrees(ls, l, m) && m.start.count <= ls + |l| <= End(m)
    requires l != [] ==> m.start.count < ls + |l|
    requires Pulled(m, ls + |l|).Some? && Pulled(m, ls + |l|).value != []
    ensures Fit(ls, l, m, Pulled(m, ls + |l|).value)
  {
    PulledRises(m, ls + |l|);
    NextRises(ls, l, m);
    AgreesMore(ls, l, m, Pulled(m, ls + |l|).value);
  }

  lemma PulledRises(m: Served, c: int)
    requires Serves(m) && Pulled(m, c).Some?
    ensures var l := Pulled(m, c).value;
            && Rising(l) && (forall i :: 0 <= i < |l| ==> l[i].logId <= l[i].lastMsgLogId)
            && (l != [] ==> c < End(m) && l[0] == m.entries[c - m.start.count])
  {
    var l := Pulled(m, c).value;
    assert forall i :: 0 <= i < |l| ==> l[i] == m.entries[c - m.start.count..][i];
  }

  /** Catchup converges: unless the local log is damaged or its start is out of the leader's
      reach, it ends with both logs at the same count index and equal wherever both retain an
      entry. */
  method CatchUp(local: TopicCommitLog, m: Served, firstId: int) returns (ok: bool)
    requires local.Valid() && (local.Contents() == [] ==> Numbered(local.Disk())) && Serves(m)
    requires !Stuck(local.start.count, local.Contents(), m)
    requires Matching(local.start.count, local.Contents(), m)
    modifies local
    ensures local.Valid() && Agrees(local.start.count, local.Contents(), m)
    ensures ok <==> !OutOfReach(old(local.start), m) && !Damaged(old(local.Contents()), old(local.start))
    ensures ok ==> local.start.count + |local.Contents()| == End(m)
  {
    ok := Prepare(local, m, firstId);
    if ok {
      ok := Pull(local, m);
    }
  }
}
