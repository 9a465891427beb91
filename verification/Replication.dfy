/** One topic partition as a state machine: publishing, elections, join sessions, ISR
    removals and catchup interleave freely, one step at a time. */
module Replication {
  import opened Metadata

  /** The part of CommitLogData the protocol depends on. */
  datatype Entry = Entry(id: nat, epoch: nat, offset: nat, size: nat)

  /** A publish in progress on a leader, which holds the write lock for its whole duration:
      the entry, the metadata snapshot it replicates with, and the members that answered. */
  datatype Publish = Idle | Writing(entry: Entry, view: Meta, acks: set<NodeId>)

  datatype Replica = Replica(meta: Meta, disabled: bool, log: seq<Entry>, pub: Publish)

  /** A put request on its way. Requests are never withdrawn, so they can arrive late or twice. */
  datatype Put = Put(entry: Entry, leader: NodeId, target: NodeId)

  /** What the lookup coordinator is doing under the join-state lock. */
  datatype Phase =
    | Quiet
    | Session(reported: set<NodeId>)
    | Enabling(todo: set<NodeId>)

  /** History variables. `acked` is what clients were told and `committed` the log they rely
      on. `agreed` are the stored ISR members that took part in the last agreement. `synced`
      are those among them that no sync has cut since, the members that pulled the leader's
      whole log in a session since, and a leader elected since; a sync cuts a member when it
      leaves it without a committed entry, or without part of a log that was the leader's.
      `born` is every entry ever numbered, `leaderOf` the leader of each write epoch. */
  datatype State = State(
    replica: nat,
    store: Meta,
    nodes: map<NodeId, Replica>,
    puts: set<Put>,
    phase: Phase,
    acked: set<Entry>,
    committed: seq<Entry>,
    agreed: set<NodeId>,
    synced: set<NodeId>,
    born: map<nat, Entry>,
    leaderOf: map<nat, NodeId>)

  const FRESH := Replica(BLANK, true, [], Idle)

  function At(s: State, n: NodeId): (r: Replica) {
    if n in s.nodes then s.nodes[n] else FRESH
  }

  function WithReplica(s: State, n: NodeId, r: Replica): (t: State)
    ensures At(t, n) == r
    ensures forall m :: m != n ==> At(t, m) == At(s, m)
  {
    s.(nodes := s.nodes[n := r])
  }

  function LastId(log: seq<Entry>): (id: nat) {
    if log == [] then 0 else log[|log| - 1].id
  }

  function End(log: seq<Entry>): (o: nat) {
    if log == [] then 0 else log[|log| - 1].offset + log[|log| - 1].size
  }

  /** The length of the longest common prefix. */
  function Agree(a: seq<Entry>, b: seq<Entry>): (k: nat)
    ensures k <= |a| && k <= |b| && a[..k] == b[..k]
    ensures k < |a| && k < |b| ==> a[k] != b[k]
  {
    if a == [] || b == [] || a[0] != b[0] then 0 else
      var k := 1 + Agree(a[1..], b[1..]);
      assert a[..k] == [a[0]] + a[1..][..k - 1] && b[..k] == [b[0]] + b[1..][..k - 1];
      k
  }

  /** decideCatchupCommitLogInfo empties the log before anything is pulled when the two logs
      share no entry after their first one, or when the local data needs a fix. */
  predicate StartsOver(local: seq<Entry>, leader: seq<Entry>, fix: bool) {
    fix || Agree(local, leader) <= 1
  }

  /** Where a pull from the leader may have got to: it starts from the shared entries, or
      from nothing. */
  predicate MayPull(local: seq<Entry>, leader: seq<Entry>, k: nat, fix: bool) {
    k <= |leader| && (Agree(local, leader) <= k || StartsOver(local, leader, fix))
  }

  ghost predicate AllDisabled(s: State, ns: set<NodeId>) {
    forall n :: n in ns ==> At(s, n).disabled
  }

  function Others(m: Meta, n: NodeId): (r: set<NodeId>) {
    Members(m.isr) - {n}
  }

  // ---------------------------------------------------------------- steps

  datatype Step =
    // lookup coordinator
    | DisableStep(node: NodeId)
    | ElectStep(winner: NodeId, answers: set<NodeId>, oldAlive: bool)
    | JoinStep(node: NodeId)
    | RevokeStep
    | ReportStep(node: NodeId)
    | AgreeStep
    | EnableStep(node: NodeId)
    | EnableLeaderStep
    | RollbackStep
    | AbandonStep
    | RemoveStep(failed: seq<NodeId>, leaveCatchup: bool)
    | CatchupListStep(change: Change)
    // nsqd nodes
    | AdoptStep(node: NodeId, ask: bool)
    | SyncStep(node: NodeId, upTo: nat, fix: bool)
    | CatchupStep(node: NodeId, upTo: nat, fix: bool)
    | PublishStep(node: NodeId, entry: Entry)
    | SendStep(node: NodeId, target: NodeId)
    | DeliverStep(put: Put, reply: bool)
    | RetryStep(node: NodeId)
    | CommitStep(node: NodeId)
    | FailStep(node: NodeId)

  /** What checkWriteForLeader and IsISRReadyForWrite ask of a node. */
  predicate IsWriter(s: State, n: NodeId, m: Meta) {
    m.leader == n && n in m.isr && |m.isr| > s.replica / 2
  }

  /** Serving a put: checkWriteForRpcCall, then doWriteOpOnSlave. The write lock of the
      target must be free, and the duplicate check comes before the disabled check. */
  predicate Reachable(s: State, p: Put) {
    var t := At(s, p.target);
    t.pub.Idle? && t.meta.writeEpoch == p.entry.epoch && t.meta.leader == p.leader
  }

  predicate IsDuplicate(s: State, p: Put) {
    LastId(At(s, p.target).log) == p.entry.id
  }

  predicate CanAppend(s: State, p: Put) {
    var t := At(s, p.target);
    !t.disabled && p.target in t.meta.isr && End(t.log) == p.entry.offset && LastId(t.log) < p.entry.id
  }

  /** The coordinator may start a session: enough members, everyone write disabled, and a
      leader session held, which only a node that has adopted its own leadership acquires. */
  ghost predicate CanOpenSession(s: State) {
    && AllDisabled(s, Members(s.store.isr))
    && At(s, s.store.leader).meta.leader == s.store.leader
  }

  ghost predicate Enabled(s: State, a: Step) {
    match a
    case DisableStep(n) => At(s, n).pub.Idle?
    case ElectStep(w, answers, _) =>
      && s.phase.Quiet?
      && AllDisabled(s, Others(s.store, s.store.leader))
      && answers <= Others(s.store, s.store.leader)
      && w in answers
      && forall n :: n in answers ==> LastId(At(s, n).log) <= LastId(At(s, w).log)
    case JoinStep(n) =>
      && s.phase.Quiet?
      && n in s.store.catchup && |s.store.isr| <= s.replica
      && CanOpenSession(s) && At(s, n).disabled
    case RevokeStep =>
      && !s.phase.Enabling? && |s.store.isr| > s.replica / 2 && CanOpenSession(s)
    case ReportStep(n) =>
      && s.phase.Session? && n in s.store.isr
      && At(s, n).meta.leader == s.store.leader && n in At(s, n).meta.isr
    case AgreeStep =>
      && s.phase.Session? && Members(s.store.isr) <= s.phase.reported
      && |s.store.isr| > s.replica / 2
      && forall n :: n in s.store.isr ==> LastId(At(s, n).log) == LastId(At(s, s.store.leader).log)
    case EnableStep(n) => s.phase.Enabling? && n in s.phase.todo && n != s.store.leader
    case EnableLeaderStep => s.phase == Enabling({s.store.leader})
    case RollbackStep =>
      && s.phase.Session? && |Keep(s.store.isr, s.phase.reported)| > s.replica / 2
      && !(Members(s.store.isr) <= s.phase.reported)
    case AbandonStep => !s.phase.Quiet?
    case RemoveStep(f, lc) => s.phase.Quiet? && Allowed(s.store, Remove(f, lc))
    case CatchupListStep(c) => c.AddCatchup? || c.DropCatchup?
    case AdoptStep(n, ask) =>
      // disabling inside updateTopicInfo takes the write lock
      Adopted(n, At(s, n).meta, At(s, n).disabled, ask, s.store).1 != At(s, n).disabled ==> At(s, n).pub.Idle?
    case SyncStep(n, k, fix) =>
      // started by a session, and still going on when the session has been given up
      && !s.phase.Enabling? && AllDisabled(s, Members(s.store.isr))
      && n in s.store.isr && n != s.store.leader
      && At(s, n).meta.leader == s.store.leader && n in At(s, n).meta.isr
      && MayPull(At(s, n).log, At(s, s.store.leader).log, k, fix)
    case CatchupStep(n, k, fix) =>
      && n in s.store.catchup && At(s, n).pub.Idle?
      && At(s, n).meta.leader == s.store.leader
      && MayPull(At(s, n).log, At(s, s.store.leader).log, k, fix)
    case PublishStep(n, e) =>
      && At(s, n).pub.Idle? && !At(s, n).disabled && IsWriter(s, n, At(s, n).meta)
      && e.id !in s.born && e.id > LastId(At(s, n).log)
      && e.size > 0 && e.offset == End(At(s, n).log) && e.epoch == At(s, n).meta.writeEpoch
    case SendStep(n, t) =>
      At(s, n).pub.Writing? && t in Others(At(s, n).pub.view, n)
    case DeliverStep(p, _) => p in s.puts && Reachable(s, p) && (IsDuplicate(s, p) || CanAppend(s, p))
    case RetryStep(n) =>
      && At(s, n).pub.Writing? && IsWriter(s, n, At(s, n).meta)
      && At(s, n).meta.writeEpoch == At(s, n).pub.entry.epoch
    case CommitStep(n) =>
      && At(s, n).pub.Writing?
      && Others(At(s, n).pub.view, n) <= At(s, n).pub.acks
      && |At(s, n).pub.view.isr| > s.replica / 2
    case FailStep(n) => At(s, n).pub.Writing?
  }

  /** The target has the entry of a put it took. */
  function Landed(s: State, p: Put): (t: State) {
    var r := At(s, p.target);
    if IsDuplicate(s, p) then s else WithReplica(s, p.target, r.(log := r.log + [p.entry]))
  }

  /** The leader still waits for the answer to a put. */
  predicate Counts(s: State, p: Put) {
    var r := At(s, p.leader);
    r.pub.Writing? && r.pub.entry == p.entry && p.target in r.pub.view.isr
  }

  function Replied(s: State, p: Put): (t: State)
    requires Counts(s, p)
  {
    var r := At(s, p.leader);
    WithReplica(s, p.leader, r.(pub := r.pub.(acks := r.pub.acks + {p.target})))
  }

  function Stored(s: State, m: Meta): (t: State) {
    s.(store := m, leaderOf := s.leaderOf[m.writeEpoch := m.leader])
  }

  function Rev(s: State): (r: nat) { s.store.epoch + 1 }

  ghost function Next(s: State, a: Step): (t: State)
    requires Enabled(s, a)
  {
    match a
    case DisableStep(n) => WithReplica(s, n, At(s, n).(disabled := true))
    case ElectStep(w, _, alive) =>
      var m := ElectMeta(s.store, w, alive, Rev(s));
      Stored(s, m).(agreed := s.agreed * Members(m.isr), synced := s.synced * Members(m.isr) + {w})
    case JoinStep(n) => Stored(s, JoinMeta(s.store, n, Rev(s))).(phase := Session({s.store.leader}))
    case RevokeStep => s.(phase := Session({s.store.leader}))
    case ReportStep(n) => s.(phase := Session(s.phase.reported + {n}))
    case AgreeStep =>
      s.(phase := Enabling(Members(s.store.isr)),
         committed := At(s, s.store.leader).log,
         agreed := Members(s.store.isr),
         synced := Members(s.store.isr))
    case EnableStep(n) =>
      WithReplica(s, n, At(s, n).(disabled := false)).(phase := Enabling(s.phase.todo - {n}))
    case EnableLeaderStep =>
      WithReplica(s, s.store.leader, At(s, s.store.leader).(disabled := false)).(phase := Quiet)
    case RollbackStep =>
      var m := RollbackMeta(s.store, s.phase.reported, Rev(s));
      Stored(s, m).(agreed := s.agreed * Members(m.isr), synced := s.synced * Members(m.isr))
    case AbandonStep => s.(phase := Quiet)
    case RemoveStep(f, lc) =>
      var m := RemoveMeta(s.store, f, lc, s.replica, Rev(s));
      s.(store := m, agreed := s.agreed * Members(m.isr), synced := s.synced * Members(m.isr))
    case CatchupListStep(c) => s.(store := Apply(s.store, c, s.replica, Rev(s)))
    case AdoptStep(n, ask) =>
      var r := Adopted(n, At(s, n).meta, At(s, n).disabled, ask, s.store);
      WithReplica(s, n, At(s, n).(meta := r.0, disabled := r.1))
    case SyncStep(n, k, _) =>
      var l := At(s, s.store.leader).log;
      WithReplica(s, n, At(s, n).(log := l[..k])).(
        synced := if k == |l| then s.synced + {n}
                  else if s.committed <= l[..k] && At(s, n).log != l then s.synced else s.synced - {n})
    case CatchupStep(n, k, _) => WithReplica(s, n, At(s, n).(log := At(s, s.store.leader).log[..k]))
    case PublishStep(n, e) =>
      WithReplica(s, n, At(s, n).(pub := Writing(e, At(s, n).meta, {}))).(born := s.born[e.id := e])
    case SendStep(n, t) => s.(puts := s.puts + {Put(At(s, n).pub.entry, n, t)})
    case DeliverStep(p, reply) =>
      if reply && Counts(Landed(s, p), p) then Replied(Landed(s, p), p) else Landed(s, p)
    case RetryStep(n) =>
      WithReplica(s, n, At(s, n).(pub := Writing(At(s, n).pub.entry, At(s, n).meta, {})))
    case CommitStep(n) =>
      var r := At(s, n);
      var s1 := WithReplica(s, n, r.(log := r.log + [r.pub.entry], pub := Idle));
      s1.(acked := s.acked + {r.pub.entry},
          committed := if r.log == s.committed then s.committed + [r.pub.entry] else s.committed)
    case FailStep(n) => WithReplica(s, n, At(s, n).(disabled := true, pub := Idle))
  }

  /** The three facts the coordinator relies on without checking them: at least one synced
      member answers the election query, what a joining node pulled still is the start of the
      leader's log, and the leader that gets enabled has taken the metadata of the current
      write epoch. */
  ghost predicate Benign(s: State, a: Step) {
    match a
    case ElectStep(_, answers, _) => exists n :: n in answers && n in s.synced
    case JoinStep(n) => At(s, n).log <= At(s, s.store.leader).log
    case EnableLeaderStep => At(s, s.store.leader).meta.writeEpoch == s.store.writeEpoch
    case _ => true
  }

  /** A new partition: the first metadata is stored with write epoch 1, nothing is written. */
  ghost predicate Init(s: State) {
    && WellFormed(s.store) && s.store.writeEpoch == 1 && s.store.epoch > 0
    && s.replica >= 2
    && s.nodes == map[] && s.puts == {} && s.phase == Quiet && s.acked == {}
    && s.committed == [] && s.agreed == Members(s.store.isr) && s.synced == Members(s.store.isr)
    && s.born == map[] && s.leaderOf == map[1 := s.store.leader]
  }

  ghost predicate Took(states: seq<State>, steps: seq<Step>, i: nat)
    requires |states| == |steps| + 1 && i < |steps|
  {
    Enabled(states[i], steps[i]) && states[i + 1] == Next(states[i], steps[i])
  }

  ghost predicate IsRun(states: seq<State>, steps: seq<Step>) {
    && |states| == |steps| + 1
    && Init(states[0])
    && forall i | 0 <= i < |steps| :: Took(states, steps, i)
  }

  ghost predicate BenignRun(states: seq<State>, steps: seq<Step>) {
    && IsRun(states, steps)
    && forall i | 0 <= i < |steps| && Took(states, steps, i) :: Benign(states[i], steps[i])
  }
}
