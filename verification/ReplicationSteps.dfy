/** One lemma per step kind: the invariant is kept. */
module ReplicationSteps {
  import opened Metadata
  import opened Replication
  import opened ReplicationInvariant

  // ---------------------------------------------------------------- frames

  /** Only write flags going up, publishes and puts differ. */
  ghost predicate Calm(s: State, t: State) {
    && t.store == s.store && t.committed == s.committed && t.synced == s.synced
    && t.leaderOf == s.leaderOf && t.phase == s.phase && t.acked == s.acked && t.replica == s.replica
    && t.born == s.born
    && forall n :: CalmNode(At(s, n), At(t, n))
  }

  ghost predicate CalmNode(a: Replica, b: Replica) {
    a.meta == b.meta && a.log == b.log && (a.disabled ==> b.disabled)
  }

  lemma CalmMeta(s: State, t: State)
    requires MetaInv(s) && Calm(s, t)
    ensures MetaInv(t)
  {
    forall n ensures MetaOk(t, At(t, n).meta) {
      assert CalmNode(At(s, n), At(t, n)) && MetaOk(s, At(s, n).meta);
    }
  }

  lemma CalmLog(s: State, t: State)
    requires LogInv(s) && Calm(s, t)
    ensures LogInv(t)
  {
    forall n ensures WellLog(At(t, n).log) && AllKnown(t, At(t, n).log) {
      assert CalmNode(At(s, n), At(t, n)) && WellLog(At(s, n).log) && AllKnown(s, At(s, n).log);
    }
  }

  lemma CalmMember(s: State, t: State)
    requires MemberInv(s) && Calm(s, t)
    ensures MemberInv(t)
  {
    assert CalmNode(At(s, s.store.leader), At(t, s.store.leader));
    forall n | n in t.synced ensures OneAhead(t, n) {
      assert CalmNode(At(s, n), At(t, n)) && OneAhead(s, n);
    }
    forall n | n in t.store.isr && n !in t.synced ensures Joining(t, n) && At(t, t.store.leader).disabled {
      assert CalmNode(At(s, n), At(t, n)) && Joining(s, n);
    }
  }

  lemma CalmWriter(s: State, t: State)
    requires WriterInv(s) && Calm(s, t)
    ensures WriterInv(t)
  {
    forall n | n != t.store.leader && !At(t, n).disabled && LeadsItself(t, n) ensures Deposed(t, n) {
      assert CalmNode(At(s, n), At(t, n)) && LeadsItself(s, n) && Deposed(s, n);
      var x :| x in Others(At(s, n).meta, n) && LockedOut(s, x, At(s, n).meta.writeEpoch);
      assert CalmNode(At(s, x), At(t, x));
      assert LockedOut(t, x, At(t, n).meta.writeEpoch);
    }
  }

  lemma CalmPhase(s: State, t: State)
    requires PhaseInv(s) && Calm(s, t)
    ensures PhaseInv(t)
  {
    assert forall n :: CalmNode(At(s, n), At(t, n));
    assert forall n :: Follows(s, n) ==> Follows(t, n);
  }

  lemma CalmKeeps(s: State, t: State)
    requires Inv(s) && Calm(s, t) && PublishInv(t) && PutInv(t)
    ensures Inv(t)
  {
    CalmMeta(s, t);
    CalmLog(s, t);
    CalmMember(s, t);
    CalmWriter(s, t);
    CalmPhase(s, t);
  }

  /** A publish that is itself untouched by a calm change keeps its outcome. */
  lemma CalmPublish(s: State, t: State, n: NodeId)
    requires Calm(s, t) && At(t, n) == At(s, n) && At(s, n).pub.Writing?
    requires ViewOk(s, n) && Outcome(s, n)
    ensures ViewOk(t, n) && Outcome(t, n)
  {
    assert MetaOk(t, At(t, n).pub.view);
    if Live(s, n) {
      forall x ensures Owes(s, n, x) ==> Owes(t, n, x)
               ensures Holds(s, n, x) ==> Holds(t, n, x)
               ensures At(s, x).log == At(t, x).log {
        assert CalmNode(At(s, x), At(t, x));
      }
      assert Live(t, n);
    }
    if Doomed(s, n) {
      var x :| Blocks(s, n, x);
      assert CalmNode(At(s, x), At(t, x));
      assert Blocks(t, n, x);
    }
  }

  // ---------------------------------------------------------------- calm steps

  lemma DisableKeeps(s: State, n: NodeId)
    requires Inv(s) && Enabled(s, DisableStep(n))
    ensures Inv(Next(s, DisableStep(n)))
  {
    var t := Next(s, DisableStep(n));
    assert Calm(s, t);
    forall m | At(t, m).pub.Writing? ensures ViewOk(t, m) && Outcome(t, m) {
      CalmPublish(s, t, m);
    }
    CalmKeeps(s, t);
  }

  lemma FailKeeps(s: State, n: NodeId)
    requires Inv(s) && Enabled(s, FailStep(n))
    ensures Inv(Next(s, FailStep(n)))
  {
    var t := Next(s, FailStep(n));
    assert Calm(s, t);
    forall m | At(t, m).pub.Writing? ensures ViewOk(t, m) && Outcome(t, m) {
      CalmPublish(s, t, m);
    }
    CalmKeeps(s, t);
  }

  lemma SendKeeps(s: State, n: NodeId, to: NodeId)
    requires Inv(s) && Enabled(s, SendStep(n, to))
    ensures Inv(Next(s, SendStep(n, to)))
  {
    SentKeeps(s, Next(s, SendStep(n, to)), n, to);
  }

  lemma SentKeeps(s: State, t: State, n: NodeId, to: NodeId)
    requires Inv(s) && At(s, n).pub.Writing? && to != n && t == s.(puts := s.puts + {Put(At(s, n).pub.entry, n, to)})
    ensures Inv(t)
  {
    assert forall m :: At(t, m) == At(s, m);
    assert Calm(s, t);
    assert PutInv(t) by {
      assert ViewOk(s, n);
      PrefixEnd(At(s, n).log, s.committed);
    }
    forall m | At(t, m).pub.Writing? ensures ViewOk(t, m) && Outcome(t, m) {
      CalmPublish(s, t, m);
    }
    CalmKeeps(s, t);
  }

  lemma RetryKeeps(s: State, n: NodeId)
    requires Inv(s) && Enabled(s, RetryStep(n))
    ensures Inv(Next(s, RetryStep(n)))
  {
    var t := Next(s, RetryStep(n));
    assert Calm(s, t);
    forall m | At(t, m).pub.Writing? ensures ViewOk(t, m) && Outcome(t, m) {
      if m == n {
        RetryPublish(s, n);
      } else {
        CalmPublish(s, t, m);
      }
    }
    CalmKeeps(s, t);
  }

  lemma RetryPublish(s: State, n: NodeId)
    requires MetaInv(s) && PublishInv(s) && Enabled(s, RetryStep(n))
    ensures var t := Next(s, RetryStep(n)); ViewOk(t, n) && Outcome(t, n)
  {
    var t := Next(s, RetryStep(n));
    assert ViewOk(s, n) && Outcome(s, n);
    assert MetaOk(s, At(s, n).meta) && MetaOk(t, At(t, n).pub.view);
    assert Core(t, n) == Core(s, n);
    if Live(s, n) {
      forall x ensures Owes(s, n, x) ==> Owes(t, n, x)
               ensures Holds(s, n, x) ==> Holds(t, n, x)
               ensures At(s, x).log == At(t, x).log {}
      assert Live(t, n);
    }
    if Doomed(s, n) {
      var x :| Blocks(s, n, x);
      assert Blocks(t, n, x);
    }
  }

  // ---------------------------------------------------------------- members and deposed publishers

  /** A node that follows the current leader is past the write epoch of a deposed publisher. */
  lemma FollowerMovedOn(s: State, n: NodeId, x: NodeId)
    requires MetaInv(s) && At(s, n).pub.Writing? && ViewOk(s, n)
    requires n != s.store.leader && Follows(s, x)
    ensures At(s, x).meta.writeEpoch != At(s, n).pub.entry.epoch
  {
    assert MetaOk(s, At(s, x).meta) && MetaOk(s, At(s, n).pub.view);
  }

  /** A synced member whose writes are disabled holds the entry of a live publish already, or
      can never acknowledge it. */
  lemma DisabledMemberDecides(s: State, n: NodeId, x: NodeId)
    requires LogInv(s) && MemberInv(s) && At(s, n).pub.Writing? && ViewOk(s, n) && Live(s, n)
    requires x in s.synced && x != n && At(s, x).disabled
    ensures Blocks(s, n, x) || Holds(s, n, x)
  {
    var e := At(s, n).pub.entry;
    assert OneAhead(s, x);
    if Owes(s, n, x) && LastId(At(s, x).log) == e.id {
      var l := At(s, x).log;
      assert l != s.committed;
      assert WellLog(l) && AllKnown(s, l) && Known(s, l[|l| - 1]);
      assert l == s.committed + [l[|l| - 1]];
    }
  }

  /** Once the leader's writes are disabled, a live publish on another node is doomed unless
      the leader holds its entry. */
  lemma LeaderDecides(s: State, n: NodeId)
    requires LogInv(s) && MemberInv(s) && At(s, n).pub.Writing? && ViewOk(s, n) && Live(s, n)
    requires n != s.store.leader && At(s, s.store.leader).disabled
    ensures Doomed(s, n) || Holds(s, n, s.store.leader)
  {
    DisabledMemberDecides(s, n, s.store.leader);
  }

  // ---------------------------------------------------------------- pulling the leader's log

  /** Both catchup and session sync replace one idle node's log by a prefix of the leader's. */
  ghost predicate Pulled(s: State, t: State, n: NodeId, k: nat) {
    && k <= |At(s, s.store.leader).log|
    && n != s.store.leader && At(s, n).pub.Idle? && Follows(s, n)
    && t == WithReplica(s, n, At(s, n).(log := At(s, s.store.leader).log[..k])).(synced := t.synced)
  }

  /** Who counts as synced after the pull: in a session, `n` only if it has the committed log
      and pulled everything, or was synced before with a log that was not the leader's. Nothing
      changes outside the ISR. */
  ghost predicate Counted(s: State, t: State, n: NodeId, k: nat) {
    && (forall x :: x != n ==> (x in t.synced <==> x in s.synced))
    && (n !in s.store.isr ==> t.synced == s.synced)
    && (n in s.store.isr ==> At(s, s.store.leader).disabled && At(s, n).disabled)
    && (n in t.synced ==>
          && s.committed <= At(t, n).log
          && (k == |At(s, s.store.leader).log| || (n in s.synced && At(s, n).log != At(s, s.store.leader).log)))
  }

  lemma PulledLog(s: State, t: State, n: NodeId, k: nat)
    requires LogInv(s) && Pulled(s, t, n, k)
    ensures LogInv(t)
  {
    var l := At(s, s.store.leader).log;
    assert WellLog(l) && AllKnown(s, l);
    assert forall i :: 0 <= i < k ==> l[..k][i] == l[i];
    forall m ensures WellLog(At(t, m).log) && AllKnown(t, At(t, m).log) {
      assert WellLog(At(s, m).log) && AllKnown(s, At(s, m).log);
    }
  }

  lemma PulledRest(s: State, t: State, n: NodeId, k: nat)
    requires MetaInv(s) && WriterInv(s) && PutInv(s) && Pulled(s, t, n, k)
    ensures MetaInv(t) && WriterInv(t) && PutInv(t)
  {
    forall m ensures MetaOk(t, At(t, m).meta) {
      assert MetaOk(s, At(s, m).meta);
    }
    forall m | m != t.store.leader && !At(t, m).disabled && LeadsItself(t, m) ensures Deposed(t, m) {
      assert LeadsItself(s, m) && Deposed(s, m) && m != n;
      var x :| x in Others(At(s, m).meta, m) && LockedOut(s, x, At(s, m).meta.writeEpoch);
      assert LockedOut(t, x, At(t, m).meta.writeEpoch);
    }
  }

  lemma PulledPhase(s: State, t: State, n: NodeId, k: nat)
    requires PhaseInv(s) && Pulled(s, t, n, k) && (t.synced == s.synced || !s.phase.Enabling?)
    ensures PhaseInv(t)
  {
    assert forall m :: Follows(s, m) ==> Follows(t, m);
  }

  /** A prefix of a log that holds the publish's entry last is part of the committed log, or
      holds the entry too. */
  lemma PullFromHolder(s: State, t: State, n: NodeId, k: nat, m: NodeId)
    requires Pulled(s, t, n, k) && At(s, m).pub.Writing? && m != n && Holds(s, m, s.store.leader)
    ensures At(t, n).log <= s.committed || Holds(t, m, n)
    ensures k == |At(s, s.store.leader).log| ==> Holds(t, m, n)
  {
    var l := At(s, s.store.leader).log;
    assert l[..k] == l || l[..k] <= s.committed;
  }

  lemma PulledPublish(s: State, t: State, n: NodeId, k: nat, m: NodeId)
    requires Inv(s) && Pulled(s, t, n, k) && Counted(s, t, n, k) && At(t, m).pub.Writing?
    ensures ViewOk(t, m) && Outcome(t, m)
  {
    assert ViewOk(s, m) && Outcome(s, m) && m != n;
    assert MetaOk(t, At(t, m).pub.view);
    if m != s.store.leader && Doomed(s, m) {
      var x :| Blocks(s, m, x);
      if x == n {
        FollowerMovedOn(s, m, n);
      }
      assert Blocks(t, m, x);
    } else if Live(s, m) {
      if n in s.store.isr {
        assert m != s.store.leader;
        LeaderDecides(s, m);
        assert Holds(s, m, s.store.leader);
        PullFromHolder(s, t, n, k, m);
      }
      PulledLive(s, t, n, k, m);
    }
  }

  lemma PulledLive(s: State, t: State, n: NodeId, k: nat, m: NodeId)
    requires MemberInv(s) && Pulled(s, t, n, k) && Counted(s, t, n, k)
    requires At(s, m).pub.Writing? && m != n && Live(s, m)
    requires n in s.store.isr ==>
               && Holds(s, m, s.store.leader)
               && (At(t, n).log <= s.committed || Holds(t, m, n))
               && (k == |At(s, s.store.leader).log| ==> Holds(t, m, n))
    ensures Live(t, m)
  {
    forall x | x != n
      ensures Owes(s, m, x) ==> Owes(t, m, x)
      ensures Holds(s, m, x) ==> Holds(t, m, x)
      ensures At(s, x).log == At(t, x).log {}
    forall x | x in t.synced && x != m ensures Owes(t, m, x) || Holds(t, m, x) {
      if x == n {
        assert n in s.store.isr by {
          assert n in s.synced ==> n in Members(s.store.isr);
        }
        if k != |At(s, s.store.leader).log| {
          assert !Holds(s, m, n);
          assert Owes(s, m, n);
        }
      }
    }
    forall x | x in t.store.isr && x !in t.synced ensures At(t, x).log <= t.committed || Holds(t, m, x) {
      assert x != n ==> x !in s.synced;
    }
  }

  lemma PulledMember(s: State, t: State, n: NodeId, k: nat)
    requires MetaInv(s) && MemberInv(s) && Pulled(s, t, n, k) && Counted(s, t, n, k)
    ensures MemberInv(t)
  {
    var l := At(s, s.store.leader).log;
    assert OneAhead(s, s.store.leader);
    forall x | x in t.synced ensures OneAhead(t, x) {
      assert x != n ==> OneAhead(s, x);
    }
    forall x | x in t.synced ensures x in Members(t.store.isr) {
      assert x == n ==> n in s.store.isr;
    }
    forall x | x in t.store.isr && x !in t.synced ensures Joining(t, x) && At(t, t.store.leader).disabled {
      if x != n {
        assert Joining(s, x);
      } else if |l[..k]| <= |s.committed| {
        assert l[..k] <= s.committed;
      }
    }
  }

  lemma SyncKeeps(s: State, n: NodeId, k: nat, fix: bool)
    requires Inv(s) && Enabled(s, SyncStep(n, k, fix))
    ensures Inv(Next(s, SyncStep(n, k, fix)))
  {
    var t := Next(s, SyncStep(n, k, fix));
    var l := At(s, s.store.leader).log;
    assert n in Members(s.store.isr) && s.store.leader in Members(s.store.isr);
    assert At(s, n).pub.Writing? ==> ViewOk(s, n);
    assert l[..|l|] == l && OneAhead(s, s.store.leader);
    PullKeeps(s, t, n, k);
  }

  lemma CatchupKeeps(s: State, n: NodeId, k: nat, fix: bool)
    requires Inv(s) && Enabled(s, CatchupStep(n, k, fix))
    ensures Inv(Next(s, CatchupStep(n, k, fix)))
  {
    var t := Next(s, CatchupStep(n, k, fix));
    assert n in Members(s.store.catchup) && s.store.leader in Members(s.store.isr);
    assert n !in Members(s.store.isr);
    PullKeeps(s, t, n, k);
  }

  lemma PullKeeps(s: State, t: State, n: NodeId, k: nat)
    requires Inv(s) && Pulled(s, t, n, k) && Counted(s, t, n, k) && (t.synced == s.synced || !s.phase.Enabling?)
    ensures Inv(t)
  {
    PulledLog(s, t, n, k);
    PulledRest(s, t, n, k);
    PulledPhase(s, t, n, k);
    PulledMember(s, t, n, k);
    forall m | At(t, m).pub.Writing? ensures ViewOk(t, m) && Outcome(t, m) {
      PulledPublish(s, t, n, k, m);
    }
  }

  // ---------------------------------------------------------------- enabling

  /** A member that follows the leader gets its writes enabled. */
  ghost predicate Opened(s: State, t: State, n: NodeId) {
    && s.phase.Enabling? && n in s.phase.todo && Follows(s, n)
    && (forall m :: At(t, m) == if m == n then At(s, n).(disabled := false) else At(s, m))
    && t.store == s.store && t.committed == s.committed && t.synced == s.synced
    && t.leaderOf == s.leaderOf && t.acked == s.acked && t.replica == s.replica
    && t.born == s.born && t.puts == s.puts
  }

  lemma OpenedRest(s: State, t: State, n: NodeId)
    requires MetaInv(s) && LogInv(s) && PutInv(s) && Opened(s, t, n)
    ensures MetaInv(t) && LogInv(t) && PutInv(t)
  {
    forall m ensures MetaOk(t, At(t, m).meta) {
      assert MetaOk(s, At(s, m).meta);
    }
    forall m ensures WellLog(At(t, m).log) && AllKnown(t, At(t, m).log) {
      assert WellLog(At(s, m).log) && AllKnown(s, At(s, m).log);
    }
  }

  lemma OpenedWriter(s: State, t: State, n: NodeId)
    requires MetaInv(s) && WriterInv(s) && Opened(s, t, n)
    ensures WriterInv(t)
  {
    forall m | m != t.store.leader && !At(t, m).disabled && LeadsItself(t, m) ensures Deposed(t, m) {
      assert m != n && LeadsItself(s, m) && Deposed(s, m);
      var x :| x in Others(At(s, m).meta, m) && LockedOut(s, x, At(s, m).meta.writeEpoch);
      if x == n {
        assert MetaOk(s, At(s, n).meta) && MetaOk(s, At(s, m).meta);
      }
      assert LockedOut(t, x, At(t, m).meta.writeEpoch);
    }
  }

  lemma OpenedPublish(s: State, t: State, n: NodeId, m: NodeId)
    requires Inv(s) && Opened(s, t, n) && At(t, m).pub.Writing?
    ensures ViewOk(t, m) && Outcome(t, m)
  {
    assert At(s, m).pub.Writing? && ViewOk(s, m) && Outcome(s, m);
    assert m != n && m != s.store.leader;
    assert MetaOk(t, At(t, m).pub.view);
    if Live(s, m) {
      forall x ensures Owes(s, m, x) ==> Owes(t, m, x)
               ensures Holds(s, m, x) ==> Holds(t, m, x)
               ensures At(s, x).log == At(t, x).log {}
      assert Live(t, m);
    } else if Doomed(s, m) {
      var x :| Blocks(s, m, x);
      if x == n {
        FollowerMovedOn(s, m, n);
      }
      assert Blocks(t, m, x);
    }
  }

  lemma OpenedMember(s: State, t: State, n: NodeId)
    requires MemberInv(s) && PhaseInv(s) && Opened(s, t, n)
    requires if n == s.store.leader then t.phase.Quiet? && At(s, n).meta.writeEpoch == s.store.writeEpoch
             else t.phase == Enabling(s.phase.todo - {n})
    ensures MemberInv(t) && PhaseInv(t)
  {
    forall x | x in t.synced ensures OneAhead(t, x) {
      assert OneAhead(s, x);
    }
    assert forall m :: Follows(s, m) ==> Follows(t, m);
  }

  lemma OpenedKeeps(s: State, t: State, n: NodeId)
    requires Inv(s) && Opened(s, t, n)
    requires if n == s.store.leader then t.phase.Quiet? && At(s, n).meta.writeEpoch == s.store.writeEpoch
             else t.phase == Enabling(s.phase.todo - {n})
    ensures Inv(t)
  {
    OpenedRest(s, t, n);
    OpenedWriter(s, t, n);
    OpenedMember(s, t, n);
    forall m | At(t, m).pub.Writing? ensures ViewOk(t, m) && Outcome(t, m) {
      OpenedPublish(s, t, n, m);
    }
  }

  lemma EnableKeeps(s: State, n: NodeId)
    requires Inv(s) && Enabled(s, EnableStep(n))
    ensures Inv(Next(s, EnableStep(n)))
  {
    OpenedKeeps(s, Next(s, EnableStep(n)), n);
  }

  lemma EnableLeaderKeeps(s: State)
    requires Inv(s) && Enabled(s, EnableLeaderStep) && Benign(s, EnableLeaderStep)
    ensures Inv(Next(s, EnableLeaderStep))
  {
    OpenedKeeps(s, Next(s, EnableLeaderStep), s.store.leader);
  }

  // ---------------------------------------------------------------- session steps

  /** Only the phase differs. */
  lemma PhaseKeeps(s: State, t: State)
    requires Inv(s) && t == s.(phase := t.phase) && PhaseInv(t)
    requires t.phase.Quiet? || At(s, s.store.leader).disabled
    ensures Inv(t)
  {
    assert forall m :: At(t, m) == At(s, m);
    assert MetaInv(t) by {
      forall m ensures MetaOk(t, At(t, m).meta) { assert MetaOk(s, At(s, m).meta); }
    }
    assert LogInv(t) by {
      forall m ensures WellLog(At(t, m).log) && AllKnown(t, At(t, m).log) {
        assert WellLog(At(s, m).log) && AllKnown(s, At(s, m).log);
      }
    }
    assert MemberInv(t) by {
      forall x | x in t.synced ensures OneAhead(t, x) { assert OneAhead(s, x); }
      forall x | x in t.store.isr && x !in t.synced ensures Joining(t, x) && At(t, t.store.leader).disabled {
        assert Joining(s, x);
      }
    }
    assert WriterInv(t) by {
      forall m | m != t.store.leader && !At(t, m).disabled && LeadsItself(t, m) ensures Deposed(t, m) {
        assert LeadsItself(s, m) && Deposed(s, m);
        var x :| x in Others(At(s, m).meta, m) && LockedOut(s, x, At(s, m).meta.writeEpoch);
        assert LockedOut(t, x, At(t, m).meta.writeEpoch);
      }
    }
    forall m | At(t, m).pub.Writing? ensures ViewOk(t, m) && Outcome(t, m) {
      SamePublish(s, t, m);
    }
  }

  lemma SamePublish(s: State, t: State, m: NodeId)
    requires At(s, m).pub.Writing? && ViewOk(s, m) && Outcome(s, m) && t == s.(phase := t.phase)
    ensures ViewOk(t, m) && Outcome(t, m)
  {
    assert forall x :: At(t, x) == At(s, x);
    assert MetaOk(t, At(t, m).pub.view);
    if Live(s, m) {
      forall x ensures Owes(s, m, x) ==> Owes(t, m, x)
               ensures Holds(s, m, x) ==> Holds(t, m, x) {}
      assert Live(t, m);
    }
    if Doomed(s, m) {
      var x :| Blocks(s, m, x);
      assert Blocks(t, m, x);
    }
  }

  lemma RevokeKeeps(s: State)
    requires Inv(s) && Enabled(s, RevokeStep)
    ensures Inv(Next(s, RevokeStep))
  {
    var t := Next(s, RevokeStep);
    assert s.store.leader in Members(s.store.isr);
    assert forall m :: At(t, m) == At(s, m);
    PhaseKeeps(s, t);
  }

  lemma ReportKeeps(s: State, n: NodeId)
    requires Inv(s) && Enabled(s, ReportStep(n))
    ensures Inv(Next(s, ReportStep(n)))
  {
    var t := Next(s, ReportStep(n));
    assert s.store.leader in Members(s.store.isr);
    assert forall m :: At(t, m) == At(s, m);
    assert forall m :: Follows(s, m) ==> Follows(t, m);
    PhaseKeeps(s, t);
  }

  lemma AbandonKeeps(s: State)
    requires Inv(s) && Enabled(s, AbandonStep)
    ensures Inv(Next(s, AbandonStep))
  {
    PhaseKeeps(s, Next(s, AbandonStep));
  }
}
