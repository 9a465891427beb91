/** What every benign step of the replication state machine keeps. */
module ReplicationInvariant {
  import opened Metadata
  import opened Replication

  // ---------------------------------------------------------------- logs

  /** Ids rise, sizes are positive and entries do not overlap. */
  ghost predicate WellLog(log: seq<Entry>) {
    && (forall i :: 0 <= i < |log| ==> log[i].id > 0 && log[i].size > 0)
    && (forall i, j :: 0 <= i < j < |log| ==>
          log[i].id < log[j].id && log[i].offset + log[i].size <= log[j].offset)
  }

  ghost predicate Known(s: State, e: Entry) {
    e.id in s.born && s.born[e.id] == e
  }

  ghost predicate AllKnown(s: State, log: seq<Entry>) {
    forall i :: 0 <= i < |log| ==> Known(s, log[i])
  }

  lemma PrefixEnd(a: seq<Entry>, b: seq<Entry>)
    requires WellLog(b) && a <= b
    ensures End(a) <= End(b)
    ensures End(a) == End(b) ==> a == b
  {
    if |a| < |b| {
      assert |a| == |b| - 1 || b[|a|].offset + b[|a|].size <= b[|b| - 1].offset;
    }
  }

  lemma PrefixLastId(a: seq<Entry>, b: seq<Entry>)
    requires WellLog(b) && a <= b
    ensures LastId(a) <= LastId(b)
    ensures LastId(a) == LastId(b) ==> a == b
  {}

  lemma AppendWell(log: seq<Entry>, e: Entry)
    requires WellLog(log) && e.id > LastId(log) && e.size > 0 && e.offset >= End(log)
    ensures WellLog(log + [e])
  {}

  lemma AgreeAtLeast(a: seq<Entry>, b: seq<Entry>, c: seq<Entry>)
    requires c <= a && c <= b
    ensures |c| <= Agree(a, b)
  {
  }

  // ---------------------------------------------------------------- metadata

  /** Metadata a node or a publish holds: blank, or a value that was stored. */
  ghost predicate MetaOk(s: State, m: Meta) {
    if m.writeEpoch == 0 then m == BLANK else
      && m.writeEpoch <= s.store.writeEpoch && m.epoch <= s.store.epoch
      && m.leader in m.isr
      && m.writeEpoch in s.leaderOf && s.leaderOf[m.writeEpoch] == m.leader
      && (m.writeEpoch == s.store.writeEpoch ==> Members(s.store.isr) <= Members(m.isr))
  }

  ghost predicate MetaInv(s: State) {
    && WellFormed(s.store) && s.store.writeEpoch >= 1 && s.replica >= 2
    && (forall w :: w in s.leaderOf ==> w <= s.store.writeEpoch)
    && MetaOk(s, s.store)
    && (forall n :: MetaOk(s, At(s, n).meta))
  }

  // ---------------------------------------------------------------- logs of the members

  ghost predicate LogInv(s: State) {
    && WellLog(s.committed) && AllKnown(s, s.committed)
    && (forall n :: WellLog(At(s, n).log) && AllKnown(s, At(s, n).log))
  }

  /** The committed log, or the committed log and one entry more. */
  ghost predicate OneAhead(s: State, n: NodeId) {
    s.committed <= At(s, n).log && |At(s, n).log| <= |s.committed| + 1
  }

  /** A member that joined since the last agreement. */
  ghost predicate Joining(s: State, n: NodeId) {
    At(s, n).disabled && (At(s, n).log <= s.committed || OneAhead(s, n))
  }

  ghost predicate MemberInv(s: State) {
    && s.synced <= Members(s.store.isr)
    && s.store.leader in s.synced
    && (forall n :: n in s.synced ==> OneAhead(s, n))
    && (forall n :: n in s.store.isr && n !in s.synced ==>
          Joining(s, n) && At(s, s.store.leader).disabled)
    && (!At(s, s.store.leader).disabled ==>
          && s.phase.Quiet?
          && At(s, s.store.leader).log == s.committed
          && At(s, s.store.leader).meta.writeEpoch == s.store.writeEpoch)
  }

  // ---------------------------------------------------------------- writers and publishes

  /** `t` cannot take part in a write of epoch `w` any more. */
  ghost predicate LockedOut(s: State, t: NodeId, w: nat) {
    At(s, t).meta.writeEpoch != w || At(s, t).disabled
  }

  /** A deposed leader that still has writes enabled holds an old log, and some member it
      must hear from is locked out. */
  ghost predicate Deposed(s: State, n: NodeId) {
    && At(s, n).meta.writeEpoch < s.store.writeEpoch
    && At(s, n).log <= s.committed
    && exists t :: t in Others(At(s, n).meta, n) && LockedOut(s, t, At(s, n).meta.writeEpoch)
  }

  ghost predicate LeadsItself(s: State, n: NodeId) {
    At(s, n).meta.writeEpoch > 0 && At(s, n).meta.leader == n
  }

  ghost predicate WriterInv(s: State) {
    forall n | n != s.store.leader && !At(s, n).disabled && LeadsItself(s, n) :: Deposed(s, n)
  }

  /** The members whose answer the publish on `n` cannot do without, however often it
      refreshes its view. */
  function Core(s: State, n: NodeId): (r: set<NodeId>)
    requires At(s, n).pub.Writing?
  {
    var r := At(s, n);
    (if r.meta.writeEpoch == r.pub.entry.epoch then Members(r.meta.isr) else Members(r.pub.view.isr)) - {n}
  }

  ghost predicate Owes(s: State, n: NodeId, t: NodeId)
    requires At(s, n).pub.Writing?
  {
    t in Core(s, n) && t !in At(s, n).pub.acks
  }

  ghost predicate Holds(s: State, n: NodeId, t: NodeId)
    requires At(s, n).pub.Writing?
  {
    At(s, t).log == s.committed + [At(s, n).pub.entry]
  }

  /** The publish extends the committed log, and every synced member holds the entry or
      still owes its answer. */
  ghost predicate Live(s: State, n: NodeId)
    requires At(s, n).pub.Writing?
  {
    && At(s, n).log == s.committed
    && (forall t :: t in s.synced && t != n ==> Owes(s, n, t) || Holds(s, n, t))
    && (forall t :: t in s.store.isr && t !in s.synced ==> At(s, t).log <= s.committed || Holds(s, n, t))
  }

  /** The entry became part of the committed log behind the publisher's back. */
  ghost predicate Settled(s: State, n: NodeId)
    requires At(s, n).pub.Writing?
  {
    At(s, n).log + [At(s, n).pub.entry] <= s.committed
  }

  /** Some member owes an answer it can never give. */
  ghost predicate Blocks(s: State, n: NodeId, t: NodeId)
    requires At(s, n).pub.Writing?
  {
    && Owes(s, n, t)
    && (At(s, t).meta.writeEpoch != At(s, n).pub.entry.epoch
        || (At(s, t).disabled && LastId(At(s, t).log) != At(s, n).pub.entry.id))
  }

  ghost predicate Doomed(s: State, n: NodeId)
    requires At(s, n).pub.Writing?
  {
    exists t :: Blocks(s, n, t)
  }

  ghost predicate ViewOk(s: State, n: NodeId)
    requires At(s, n).pub.Writing?
  {
    var r := At(s, n);
    && !r.disabled
    && r.pub.view.writeEpoch == r.pub.entry.epoch && r.pub.view.writeEpoch > 0
    && r.pub.view.leader == n && MetaOk(s, r.pub.view)
    && r.pub.view.writeEpoch <= r.meta.writeEpoch
    && (r.meta.writeEpoch == r.pub.view.writeEpoch ==> Members(r.meta.isr) <= Members(r.pub.view.isr))
    && Known(s, r.pub.entry)
    && r.pub.entry.id > LastId(r.log) && r.pub.entry.size > 0 && r.pub.entry.offset == End(r.log)
    && r.log <= s.committed
  }

  ghost predicate Outcome(s: State, n: NodeId)
    requires At(s, n).pub.Writing?
  {
    if n == s.store.leader then At(s, n).pub.entry.epoch == s.store.writeEpoch && Live(s, n)
    else At(s, n).pub.entry.epoch < s.store.writeEpoch && (Live(s, n) || Settled(s, n) || Doomed(s, n))
  }

  ghost predicate PublishInv(s: State) {
    forall n :: At(s, n).pub.Writing? ==> ViewOk(s, n) && Outcome(s, n)
  }

  ghost predicate PutInv(s: State) {
    forall p :: p in s.puts ==>
      && p.target != p.leader && Known(s, p.entry) && p.entry.size > 0
      && p.entry.offset <= End(s.committed)
  }

  // ---------------------------------------------------------------- the coordinator

  /** `n` has adopted the current leader. */
  ghost predicate Follows(s: State, n: NodeId) {
    At(s, n).meta.leader == s.store.leader
  }

  ghost predicate PhaseInv(s: State) {
    match s.phase
    case Quiet => true
    case Session(reported) =>
      && AllDisabled(s, Members(s.store.isr))
      && s.store.leader in reported && Follows(s, s.store.leader)
      && forall n :: n in reported && n in s.store.isr ==> Follows(s, n)
    case Enabling(todo) =>
      && s.store.leader in todo && todo <= Members(s.store.isr)
      && AllDisabled(s, todo)
      && s.synced == Members(s.store.isr)
      && At(s, s.store.leader).log == s.committed
      && forall n :: n in todo ==> Follows(s, n)
  }

  ghost predicate Inv(s: State) {
    && MetaInv(s) && LogInv(s) && MemberInv(s) && WriterInv(s)
    && PublishInv(s) && PutInv(s) && PhaseInv(s)
    && forall e :: e in s.acked ==> e in s.committed
  }

  lemma InitInv(s: State)
    requires Init(s)
    ensures Inv(s)
  {}
}
