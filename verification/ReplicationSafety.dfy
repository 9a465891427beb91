/** The guarantees of the replication protocol over whole runs. */
module ReplicationSafety {
  import opened Metadata
  import opened Replication
  import opened ReplicationInvariant
  import Steps = ReplicationSteps
  import Membership = ReplicationMembership
  import Writes = ReplicationWrites

  // ---------------------------------------------------------------- every step, every run

  predicate IsSessionStep(a: Step) {
    a.RevokeStep? || a.ReportStep? || a.AgreeStep? || a.EnableStep? || a.EnableLeaderStep?
    || a.AbandonStep? || a.DisableStep?
  }

  predicate IsStoreStep(a: Step) {
    a.ElectStep? || a.JoinStep? || a.RollbackStep? || a.RemoveStep? || a.CatchupListStep?
  }

  lemma SessionStepKeeps(s: State, a: Step)
    requires Inv(s) && Enabled(s, a) && Benign(s, a) && IsSessionStep(a)
    ensures Inv(Next(s, a))
  {
    match a
    case DisableStep(n) => Steps.DisableKeeps(s, n);
    case RevokeStep => Steps.RevokeKeeps(s);
    case ReportStep(n) => Steps.ReportKeeps(s, n);
    case AgreeStep => Membership.AgreeKeeps(s);
    case EnableStep(n) => Steps.EnableKeeps(s, n);
    case EnableLeaderStep => Steps.EnableLeaderKeeps(s);
    case AbandonStep => Steps.AbandonKeeps(s);
  }

  lemma StoreStepKeeps(s: State, a: Step)
    requires Inv(s) && Enabled(s, a) && Benign(s, a) && IsStoreStep(a)
    ensures Inv(Next(s, a))
  {
    match a
    case ElectStep(w, answers, alive) => Membership.ElectKeeps(s, w, answers, alive);
    case JoinStep(n) => Membership.JoinKeeps(s, n);
    case RollbackStep => Membership.RollbackKeeps(s);
    case RemoveStep(f, lc) => Membership.RemoveKeeps(s, f, lc);
    case CatchupListStep(c) => Membership.CatchupListKeeps(s, c);
  }

  lemma NodeStepKeeps(s: State, a: Step)
    requires Inv(s) && Enabled(s, a) && !IsSessionStep(a) && !IsStoreStep(a)
    ensures Inv(Next(s, a))
  {
    match a
    case AdoptStep(n, ask) => Writes.AdoptKeeps(s, n, ask);
    case SyncStep(n, k, fix) => Steps.SyncKeeps(s, n, k, fix);
    case CatchupStep(n, k, fix) => Steps.CatchupKeeps(s, n, k, fix);
    case PublishStep(n, e) => Writes.PublishKeeps(s, n, e);
    case SendStep(n, t) => Steps.SendKeeps(s, n, t);
    case DeliverStep(p, reply) => Writes.DeliverKeeps(s, p, reply);
    case RetryStep(n) => Steps.RetryKeeps(s, n);
    case CommitStep(n) => Writes.CommitKeeps(s, n);
    case FailStep(n) => Steps.FailKeeps(s, n);
  }

  lemma StepKeeps(s: State, a: Step)
    requires Inv(s) && Enabled(s, a) && Benign(s, a)
    ensures Inv(Next(s, a))
  {
    if IsSessionStep(a) {
      SessionStepKeeps(s, a);
    } else if IsStoreStep(a) {
      StoreStepKeeps(s, a);
    } else {
      NodeStepKeeps(s, a);
    }
  }

  lemma {:induction false} RunKeeps(states: seq<State>, steps: seq<Step>, i: nat)
    requires BenignRun(states, steps) && i < |states|
    ensures Inv(states[i])
  {
    if i == 0 {
      InitInv(states[0]);
    } else {
      RunKeeps(states, steps, i - 1);
      var s, a := states[i - 1], steps[i - 1];
      assert Took(states, steps, i - 1);
      StepKeeps(s, a);
    }
  }

  // ---------------------------------------------------------------- acknowledged entries

  /** Along a step the acknowledged set and the committed log only grow. */
  lemma HistoryGrows(s: State, a: Step)
    requires Inv(s) && Enabled(s, a)
    ensures s.acked <= Next(s, a).acked && s.committed <= Next(s, a).committed
  {
    if a.AgreeStep? {
      assert OneAhead(s, s.store.leader);
    } else if !a.CommitStep? {
      HistoryKept(s, a);
    }
  }

  lemma HistoryKept(s: State, a: Step)
    requires Enabled(s, a) && !a.AgreeStep? && !a.CommitStep?
    ensures Next(s, a).acked == s.acked && Next(s, a).committed == s.committed
  {
    if IsSessionStep(a) {
      SessionHistory(s, a);
    } else if IsStoreStep(a) {
      StoreHistory(s, a);
    } else {
      NodeHistory(s, a);
    }
  }

  lemma SessionHistory(s: State, a: Step)
    requires Enabled(s, a) && IsSessionStep(a) && !a.AgreeStep?
    ensures Next(s, a).acked == s.acked && Next(s, a).committed == s.committed
  {}

  lemma StoreHistory(s: State, a: Step)
    requires Enabled(s, a) && IsStoreStep(a)
    ensures Next(s, a).acked == s.acked && Next(s, a).committed == s.committed
  {}

  lemma NodeHistory(s: State, a: Step)
    requires Enabled(s, a) && !IsSessionStep(a) && !IsStoreStep(a) && !a.CommitStep?
    ensures Next(s, a).acked == s.acked && Next(s, a).committed == s.committed
  {}

  ghost predicate Grown(s: State, t: State) {
    s.acked <= t.acked && s.committed <= t.committed
  }

  lemma HistoryStep(states: seq<State>, steps: seq<Step>, i: nat)
    requires BenignRun(states, steps) && i < |steps|
    ensures Grown(states[i], states[i + 1])
  {
    RunKeeps(states, steps, i);
    assert Took(states, steps, i);
    HistoryGrows(states[i], steps[i]);
  }

  ghost predicate AlwaysGrown(states: seq<State>) {
    forall k :: 0 < k < |states| ==> Grown(states[k - 1], states[k])
  }

  lemma {:induction false} GrownChain(states: seq<State>, i: nat, j: nat)
    requires AlwaysGrown(states) && i <= j < |states|
    ensures Grown(states[i], states[j])
    decreases j - i
  {
    if i < j {
      GrownChain(states, i, j - 1);
      assert Grown(states[j - 1], states[j]);
    }
  }

  lemma RunGrows(states: seq<State>, steps: seq<Step>)
    requires BenignRun(states, steps)
    ensures AlwaysGrown(states)
  {
    forall k | 0 < k < |states| ensures Grown(states[k - 1], states[k]) {
      HistoryStep(states, steps, k - 1);
    }
  }

  lemma HistoryMonotone(states: seq<State>, steps: seq<Step>, i: nat, j: nat)
    requires BenignRun(states, steps) && i <= j < |states|
    ensures Grown(states[i], states[j])
  {
    RunGrows(states, steps);
    GrownChain(states, i, j);
  }

  /** Pulling `l` up to `k` leaves a log `r` without part of the committed log, or without part
      of what was all of `l`. */
  predicate CutAt(committed: seq<Entry>, r: seq<Entry>, l: seq<Entry>, k: nat) {
    k < |l| && (!(committed <= l[..k]) || r == l)
  }

  /** A session sync cuts `n`. */
  ghost predicate Cuts(s: State, a: Step, n: NodeId) {
    a.SyncStep? && a.node == n && CutAt(s.committed, At(s, n).log, At(s, s.store.leader).log, a.upTo)
  }

  /** What an election, an agreement or a pull of the whole log makes of a member. */
  ghost predicate Syncs(s: State, a: Step, n: NodeId) {
    || a.AgreeStep?
    || (a.ElectStep? && a.winner == n)
    || (a.SyncStep? && a.node == n && a.upTo == |At(s, s.store.leader).log|)
  }

  lemma SyncedBySync(s: State, a: Step, n: NodeId)
    requires MemberInv(s) && Enabled(s, a) && a.SyncStep?
    ensures n in Next(s, a).synced <==> (n in s.synced && !Cuts(s, a, n)) || Syncs(s, a, n)
  {
    var l := At(s, s.store.leader).log;
    assert l[..|l|] == l && OneAhead(s, s.store.leader);
  }

  lemma SyncedByStore(s: State, a: Step, n: NodeId)
    requires MetaInv(s) && MemberInv(s) && Enabled(s, a) && IsStoreStep(a)
    ensures n in Next(s, a).synced <==> n in Next(s, a).store.isr && (n in s.synced || Syncs(s, a, n))
  {
    var t := Next(s, a);
    assert n in t.store.isr <==> n in Members(t.store.isr);
    assert n in s.store.isr <==> n in Members(s.store.isr);
    if a.ElectStep? {
      Membership.ElectIsElected(s, a.winner, a.answers, a.oldAlive);
    }
  }

  lemma SyncedByRest(s: State, a: Step, n: NodeId)
    requires Enabled(s, a) && !a.SyncStep? && !IsStoreStep(a)
    ensures Next(s, a).store == s.store
    ensures n in Next(s, a).synced <==> if a.AgreeStep? then n in s.store.isr else n in s.synced
  {}

  /** Who counts as synced, exactly: a member that was synced stays so until it leaves the ISR
      or a sync cuts its log; an agreement, winning an election and pulling the leader's whole
      log in a session make a member synced, and nothing else does. */
  lemma SyncedExact(s: State, a: Step, n: NodeId)
    requires MetaInv(s) && MemberInv(s) && Enabled(s, a)
    ensures n in Next(s, a).synced <==>
            n in Next(s, a).store.isr && ((n in s.synced && !Cuts(s, a, n)) || Syncs(s, a, n))
  {
    assert n in s.synced ==> n in Members(s.store.isr);
    if IsStoreStep(a) {
      SyncedByStore(s, a, n);
    } else if a.SyncStep? {
      SyncedBySync(s, a, n);
    } else {
      SyncedByRest(s, a, n);
    }
  }

  /** Once a publish returned success, its entry is in the log of the stored leader and of
      every synced member of the ISR, in every later state, whoever got elected meanwhile. */
  lemma AckedNeverLost(states: seq<State>, steps: seq<Step>, i: nat, j: nat, e: Entry)
    requires BenignRun(states, steps) && i <= j < |states| && e in states[i].acked
    ensures e in At(states[j], states[j].store.leader).log
    ensures forall n :: n in states[j].synced ==> e in At(states[j], n).log
  {
    HistoryMonotone(states, steps, i, j);
    RunKeeps(states, steps, j);
    var s := states[j];
    var k :| 0 <= k < |s.committed| && s.committed[k] == e;
    forall n | n in s.synced ensures e in At(s, n).log {
      assert OneAhead(s, n);
      assert At(s, n).log[k] == e;
    }
  }

  /** Acknowledged entries never overlap and never share an id: all leaders together have
      acknowledged one log. */
  lemma AckedEntriesDisjoint(states: seq<State>, steps: seq<Step>, i: nat, e: Entry, f: Entry)
    requires BenignRun(states, steps) && i < |states|
    requires e in states[i].acked && f in states[i].acked && e != f
    ensures e.id != f.id
    ensures e.offset + e.size <= f.offset || f.offset + f.size <= e.offset
  {
    RunKeeps(states, steps, i);
    var c := states[i].committed;
    var k :| 0 <= k < |c| && c[k] == e;
    var l :| 0 <= l < |c| && c[l] == f;
    assert WellLog(c);
  }

  /** While the leader has writes enabled, every ISR replica's log is the leader's log, or the
      leader's log and one entry more that nobody was told about. */
  lemma EnabledLeaderAgreement(states: seq<State>, steps: seq<Step>, i: nat, n: NodeId)
    requires BenignRun(states, steps) && i < |states|
    requires !At(states[i], states[i].store.leader).disabled && n in states[i].store.isr
    ensures var l, r := At(states[i], states[i].store.leader).log, At(states[i], n).log;
            r == l || (|r| == |l| + 1 && r[..|l|] == l && r[|l|] !in states[i].acked)
  {
    RunKeeps(states, steps, i);
    var s := states[i];
    assert n in s.synced && OneAhead(s, n);
    var l, r := s.committed, At(s, n).log;
    assert WellLog(r);
    if r != l {
      assert |r| == |l| + 1 && r[..|l|] == l;
      assert forall k :: 0 <= k < |l| ==> l[k] == r[k] && r[k].id < r[|l|].id;
    }
  }

  // ---------------------------------------------------------------- elections against a live leader

  /** The steps of a publish, on whichever node, and of nodes taking metadata. */
  predicate IsWriteStep(a: Step) {
    a.PublishStep? || a.SendStep? || a.DeliverStep? || a.RetryStep? || a.CommitStep? || a.FailStep?
    || a.AdoptStep?
  }

  ghost predicate Frozen(s: State, t: State, n: NodeId) {
    && At(t, n).disabled && At(t, n).log == At(s, n).log
    && t.store == s.store && t.synced == s.synced
  }

  lemma DeliverFrozen(s: State, a: Step, n: NodeId)
    requires a.DeliverStep? && Enabled(s, a) && At(s, n).disabled && At(s, n).pub.Idle?
    ensures Frozen(s, Next(s, a), n)
  {
    if a.put.target == n {
      assert IsDuplicate(s, a.put);
    }
  }

  lemma AdoptFrozen(s: State, a: Step, n: NodeId)
    requires a.AdoptStep? && Enabled(s, a) && At(s, n).disabled
    ensures Frozen(s, Next(s, a), n)
  {
  }

  lemma PublisherFrozen(s: State, a: Step, n: NodeId)
    requires Enabled(s, a) && IsWriteStep(a) && !a.DeliverStep? && !a.AdoptStep?
    requires At(s, n).disabled && At(s, n).pub.Idle?
    ensures Frozen(s, Next(s, a), n)
  {
    if a.CommitStep? || a.FailStep? {
      EndFrozen(s, a, n);
    }
  }

  lemma EndFrozen(s: State, a: Step, n: NodeId)
    requires Enabled(s, a) && (a.CommitStep? || a.FailStep?) && At(s, n).disabled && At(s, n).pub.Idle?
    ensures Frozen(s, Next(s, a), n)
  {}

  lemma DisabledFrozen(s: State, a: Step, n: NodeId)
    requires PublishInv(s) && Enabled(s, a) && IsWriteStep(a) && At(s, n).disabled
    ensures Frozen(s, Next(s, a), n)
  {
    assert At(s, n).pub.Idle? by {
      assert At(s, n).pub.Writing? ==> ViewOk(s, n);
    }
    if a.DeliverStep? {
      DeliverFrozen(s, a, n);
    } else if a.AdoptStep? {
      AdoptFrozen(s, a, n);
    } else {
      PublisherFrozen(s, a, n);
    }
  }

  lemma DisabledStep(states: seq<State>, steps: seq<Step>, i: nat, n: NodeId)
    requires BenignRun(states, steps) && i < |steps| && At(states[i], n).disabled && IsWriteStep(steps[i])
    ensures Frozen(states[i], states[i + 1], n)
  {
    RunKeeps(states, steps, i);
    assert Took(states, steps, i);
    DisabledFrozen(states[i], steps[i], n);
  }

  /** No write changes the log of a write-disabled replica, for as long as only writes happen. */
  lemma {:induction false} DisabledLogsFixed(states: seq<State>, steps: seq<Step>, i: nat, j: nat, n: NodeId)
    requires BenignRun(states, steps) && i <= j < |states| && At(states[i], n).disabled
    requires forall k :: i <= k < j ==> IsWriteStep(steps[k])
    ensures Frozen(states[i], states[j], n)
    decreases j - i
  {
    if i < j {
      DisabledLogsFixed(states, steps, i, j - 1, n);
      DisabledStep(states, steps, j - 1, n);
    }
  }

  /** What any commit needs: each synced member other than the publisher has the entry in its
      log when the commit happens. */
  lemma CommitNeedsMembers(s: State, p: NodeId, n: NodeId)
    requires Inv(s) && Enabled(s, CommitStep(p)) && n in s.synced && n != p
    ensures At(s, p).pub.entry in At(s, n).log
  {
    Writes.CommitIsCommitting(s, p);
    var t := Next(s, CommitStep(p));
    Writes.CommittedGrows(s, t, p);
    var e := At(s, p).pub.entry;
    assert ViewOk(s, p) && OneAhead(s, n);
    if Live(s, p) {
      assert Holds(s, p, n);
      assert At(s, n).log[|s.committed|] == e;
    } else {
      assert s.committed[|At(s, p).log|] == e;
      assert At(s, n).log[|At(s, p).log|] == e;
    }
  }

  /** Once the non-leader members are write disabled, a publish that commits before the
      coordinator moves on has an entry that each synced member held already when it was
      disabled: the election's snapshot of last ids misses nothing that gets acknowledged. */
  lemma SnapshotMissesNothing(states: seq<State>, steps: seq<Step>, i: nat, j: nat, p: NodeId, n: NodeId)
    requires BenignRun(states, steps) && i <= j < |steps| && steps[j] == CommitStep(p)
    requires AllDisabled(states[i], Others(states[i].store, states[i].store.leader))
    requires forall k :: i <= k < j ==> IsWriteStep(steps[k])
    requires n in states[i].synced && n != p && n != states[i].store.leader
    ensures At(states[j], p).pub.Writing? && At(states[j], p).pub.entry in At(states[i], n).log
  {
    RunKeeps(states, steps, i);
    RunKeeps(states, steps, j);
    DisabledLogsFixed(states, steps, i, j, n);
    assert Took(states, steps, j);
    CommitNeedsMembers(states[j], p, n);
  }

  /** The winner of an election holds everything that was acknowledged before it. */
  lemma ElectedLeaderComplete(states: seq<State>, steps: seq<Step>, i: nat, e: Entry)
    requires BenignRun(states, steps) && i < |steps| && steps[i].ElectStep?
    requires e in states[i].acked
    ensures e in At(states[i], steps[i].winner).log
    ensures states[i + 1].store.leader == steps[i].winner
  {
    assert Took(states, steps, i);
    HistoryMonotone(states, steps, i, i + 1);
    AckedNeverLost(states, steps, i, i + 1, e);
  }

  /** Exactly when an election is safe, in every reachable state and for every winner the
      newest-log rule allows: the winner holds all that is committed if and only if one of
      the members that answered does. */
  lemma ElectionExact(states: seq<State>, steps: seq<Step>, i: nat, elect: Step)
    requires BenignRun(states, steps) && i < |states| && elect.ElectStep? && Enabled(states[i], elect)
    ensures states[i].committed <= At(states[i], elect.winner).log <==>
            exists n :: n in elect.answers && states[i].committed <= At(states[i], n).log
  {
    RunKeeps(states, steps, i);
    var s := states[i];
    assert elect.winner in elect.answers;
    forall n | n in elect.answers && s.committed <= At(s, n).log
      ensures s.committed <= At(s, elect.winner).log
    {
      NewestHolds(s, elect, n);
    }
  }

  lemma NewestHolds(s: State, elect: Step, n: NodeId)
    requires LogInv(s) && MemberInv(s) && elect.ElectStep? && Enabled(s, elect)
    requires n in elect.answers && s.committed <= At(s, n).log
    ensures s.committed <= At(s, elect.winner).log
  {
    var w := elect.winner;
    assert w in Members(s.store.isr) && WellLog(At(s, n).log);
    PrefixLastId(s.committed, At(s, n).log);
    assert w in s.synced ==> OneAhead(s, w);
    if w !in s.synced && At(s, w).log <= s.committed {
      PrefixLastId(At(s, w).log, s.committed);
    }
  }
}
