/** Publishing, delivering and committing, and nodes taking new metadata. */
module ReplicationWrites {
  import opened Metadata
  import opened Replication
  import opened ReplicationInvariant
  import opened ReplicationSteps

  // ---------------------------------------------------------------- starting a publish

  lemma StartOutcome(s: State, n: NodeId, e: Entry)
    requires Inv(s) && Enabled(s, PublishStep(n, e))
    ensures var t := Next(s, PublishStep(n, e)); ViewOk(t, n) && Outcome(t, n)
  {
    var t := Next(s, PublishStep(n, e));
    var m := At(s, n).meta;
    assert MetaOk(s, m) && MetaOk(t, m);
    assert Core(t, n) == Others(m, n);
    if n == s.store.leader {
      forall x | x in t.synced && x != n ensures Owes(t, n, x) {
        assert x in Members(s.store.isr);
      }
      assert Live(t, n);
    } else {
      assert LeadsItself(s, n) && Deposed(s, n);
      var x :| x in Others(m, n) && LockedOut(s, x, m.writeEpoch);
      var l := At(s, x).log;
      assert AllKnown(s, l);
      assert l != [] ==> Known(s, l[|l| - 1]);
      assert Blocks(t, n, x);
    }
  }

  lemma BornLog(s: State, t: State)
    requires LogInv(s) && t.committed == s.committed
    requires forall n :: At(t, n).log == At(s, n).log
    requires forall e :: Known(s, e) ==> Known(t, e)
    ensures LogInv(t)
  {
    forall m ensures WellLog(At(t, m).log) && AllKnown(t, At(t, m).log) {
      assert WellLog(At(s, m).log) && AllKnown(s, At(s, m).log);
    }
  }

  /** Only `born` and the publish of one node differ. */
  ghost predicate Begun(s: State, t: State, n: NodeId) {
    && At(s, n).pub.Idle?
    && t == s.(nodes := t.nodes, born := t.born)
    && (forall m :: m != n ==> At(t, m) == At(s, m))
    && At(t, n) == At(s, n).(pub := At(t, n).pub)
    && forall e :: Known(s, e) ==> Known(t, e)
  }

  lemma BegunRest(s: State, t: State, n: NodeId)
    requires Inv(s) && Begun(s, t, n)
    ensures MetaInv(t) && LogInv(t) && MemberInv(t) && WriterInv(t) && PutInv(t) && PhaseInv(t)
  {
    forall m ensures At(t, m).log == At(s, m).log && At(t, m).meta == At(s, m).meta
                     && At(t, m).disabled == At(s, m).disabled {}
    BornLog(s, t);
    BegunMeta(s, t, n);
    BegunMember(s, t, n);
    BegunWriter(s, t, n);
  }

  lemma BegunMeta(s: State, t: State, n: NodeId)
    requires MetaInv(s) && PhaseInv(s) && Begun(s, t, n)
    ensures MetaInv(t) && PhaseInv(t)
  {
    forall m ensures MetaOk(t, At(t, m).meta) { assert MetaOk(s, At(s, m).meta); }
    assert forall m :: Follows(s, m) ==> Follows(t, m);
  }

  lemma BegunMember(s: State, t: State, n: NodeId)
    requires MemberInv(s) && Begun(s, t, n)
    ensures MemberInv(t)
  {
    forall x | x in t.synced ensures OneAhead(t, x) { assert OneAhead(s, x); }
    forall x | x in t.store.isr && x !in t.synced ensures Joining(t, x) && At(t, t.store.leader).disabled {
      assert Joining(s, x);
    }
  }

  lemma BegunWriter(s: State, t: State, n: NodeId)
    requires WriterInv(s) && Begun(s, t, n)
    ensures WriterInv(t)
  {
    forall m | m != t.store.leader && !At(t, m).disabled && LeadsItself(t, m) ensures Deposed(t, m) {
      assert LeadsItself(s, m) && Deposed(s, m);
      var x :| x in Others(At(s, m).meta, m) && LockedOut(s, x, At(s, m).meta.writeEpoch);
      assert LockedOut(t, x, At(t, m).meta.writeEpoch);
    }
  }

  lemma BegunPublish(s: State, t: State, n: NodeId, m: NodeId)
    requires Begun(s, t, n) && m != n && At(s, m).pub.Writing? && ViewOk(s, m) && Outcome(s, m)
    ensures ViewOk(t, m) && Outcome(t, m)
  {
    assert MetaOk(t, At(t, m).pub.view);
    if Live(s, m) {
      forall x ensures Owes(s, m, x) ==> Owes(t, m, x)
               ensures Holds(s, m, x) ==> Holds(t, m, x)
               ensures At(s, x).log == At(t, x).log {}
      assert Live(t, m);
    }
    if Doomed(s, m) {
      var x :| Blocks(s, m, x);
      assert Blocks(t, m, x);
    }
  }

  lemma PublishKeeps(s: State, n: NodeId, e: Entry)
    requires Inv(s) && Enabled(s, PublishStep(n, e))
    ensures Inv(Next(s, PublishStep(n, e)))
  {
    var t := Next(s, PublishStep(n, e));
    assert Begun(s, t, n);
    BegunRest(s, t, n);
    forall m | At(t, m).pub.Writing? ensures ViewOk(t, m) && Outcome(t, m) {
      if m == n {
        StartOutcome(s, n, e);
      } else {
        BegunPublish(s, t, n, m);
      }
    }
  }

  // ---------------------------------------------------------------- delivering

  /** A synced member can only append at the end of the committed log. */
  lemma AppendAtCommitted(s: State, p: Put)
    requires LogInv(s) && MemberInv(s) && PutInv(s)
    requires p in s.puts && CanAppend(s, p) && p.target in s.synced
    ensures At(s, p.target).log == s.committed
  {
    assert OneAhead(s, p.target) && WellLog(At(s, p.target).log);
    PrefixEnd(s.committed, At(s, p.target).log);
  }

  /** The append half of a delivery. */
  ghost predicate Appended(s: State, t: State, p: Put) {
    && p in s.puts && Reachable(s, p) && CanAppend(s, p)
    && t == WithReplica(s, p.target, At(s, p.target).(log := At(s, p.target).log + [p.entry]))
  }

  lemma AppendedLog(s: State, t: State, p: Put)
    requires LogInv(s) && PutInv(s) && Appended(s, t, p)
    ensures LogInv(t) && PutInv(t)
  {
    var g := p.target;
    assert WellLog(At(s, g).log) && AllKnown(s, At(s, g).log);
    AppendWell(At(s, g).log, p.entry);
    forall m ensures WellLog(At(t, m).log) && AllKnown(t, At(t, m).log) {
      assert WellLog(At(s, m).log) && AllKnown(s, At(s, m).log);
    }
  }

  lemma AppendedRest(s: State, t: State, p: Put)
    requires MetaInv(s) && MemberInv(s) && PutInv(s) && PhaseInv(s) && Appended(s, t, p)
    ensures MetaInv(t) && PhaseInv(t)
  {
    AppendedLeader(s, p);
    forall m ensures MetaOk(t, At(t, m).meta) { assert MetaOk(s, At(s, m).meta); }
    assert forall m :: Follows(s, m) ==> Follows(t, m);
  }

  /** A node that leads itself never serves a put. */
  lemma AppendedLeader(s: State, p: Put)
    requires PutInv(s) && p in s.puts && Reachable(s, p)
    ensures !LeadsItself(s, p.target)
    ensures MetaInv(s) && MemberInv(s) && CanAppend(s, p) ==> p.target != s.store.leader
  {
    assert MetaInv(s) ==> MetaOk(s, At(s, p.target).meta);
  }

  lemma AppendedMember(s: State, t: State, p: Put)
    requires Inv(s) && Appended(s, t, p)
    ensures MemberInv(t) && WriterInv(t)
  {
    AppendedLeader(s, p);
    forall x | x in t.synced ensures OneAhead(t, x) {
      assert OneAhead(s, x);
      if x == p.target {
        AppendAtCommitted(s, p);
      }
    }
    forall x | x in t.store.isr && x !in t.synced ensures Joining(t, x) && At(t, t.store.leader).disabled {
      assert Joining(s, x) && x != p.target;
    }
    forall m | m != t.store.leader && !At(t, m).disabled && LeadsItself(t, m) ensures Deposed(t, m) {
      assert LeadsItself(s, m) && m != p.target && Deposed(s, m);
      var x :| x in Others(At(s, m).meta, m) && LockedOut(s, x, At(s, m).meta.writeEpoch);
      assert LockedOut(t, x, At(t, m).meta.writeEpoch);
    }
  }

  lemma AppendedPublish(s: State, t: State, p: Put, m: NodeId)
    requires Inv(s) && Appended(s, t, p) && At(s, m).pub.Writing?
    ensures ViewOk(t, m) && Outcome(t, m)
  {
    var g := p.target;
    assert ViewOk(s, m) && Outcome(s, m) && m != g;
    assert MetaOk(t, At(t, m).pub.view);
    if Live(s, m) {
      forall x | x in s.synced && x != m ensures Owes(t, m, x) || Holds(t, m, x) {
        assert Owes(s, m, x) || Holds(s, m, x);
        if x == g {
          AppendAtCommitted(s, p);
        }
      }
      forall x | x in s.store.isr && x !in s.synced ensures At(t, x).log <= s.committed || Holds(t, m, x) {
        assert Joining(s, x) && x != g;
        assert At(s, x).log <= s.committed || Holds(s, m, x);
      }
      assert Live(t, m);
    }
    if Doomed(s, m) {
      var x :| Blocks(s, m, x);
      assert Blocks(t, m, x);
    }
  }

  lemma AppendedKeeps(s: State, t: State, p: Put)
    requires Inv(s) && Appended(s, t, p)
    ensures Inv(t)
  {
    AppendedLog(s, t, p);
    AppendedRest(s, t, p);
    AppendedMember(s, t, p);
    forall m | At(t, m).pub.Writing? ensures ViewOk(t, m) && Outcome(t, m) {
      AppendedPublish(s, t, p, m);
    }
  }

  /** The answer: the target's last entry is the one being published. */
  ghost predicate Answered(s: State, t: State, p: Put) {
    && At(s, p.leader).pub.Writing? && At(s, p.leader).pub.entry == p.entry
    && At(s, p.target).meta.writeEpoch == p.entry.epoch
    && LastId(At(s, p.target).log) == p.entry.id && p.target != p.leader
    && t == WithReplica(s, p.leader,
                 At(s, p.leader).(pub := At(s, p.leader).pub.(acks := At(s, p.leader).pub.acks + {p.target})))
  }

  lemma AnsweredPublish(s: State, t: State, p: Put)
    requires Inv(s) && Answered(s, t, p)
    ensures ViewOk(t, p.leader) && Outcome(t, p.leader)
  {
    var n, g := p.leader, p.target;
    assert ViewOk(s, n) && Outcome(s, n);
    assert MetaOk(t, At(t, n).pub.view);
    assert Core(t, n) == Core(s, n);
    if Live(s, n) {
      forall x | x in s.synced && x != n ensures Owes(t, n, x) || Holds(t, n, x) {
        assert Owes(s, n, x) || Holds(s, n, x);
        if x == g {
          LastEntryHeld(s, n, g);
        }
      }
      forall x | x in s.store.isr && x !in s.synced ensures At(t, x).log <= s.committed || Holds(t, n, x) {
        assert At(s, x).log <= s.committed || Holds(s, n, x);
      }
      assert Live(t, n);
    }
    if Doomed(s, n) {
      var x :| Blocks(s, n, x);
      assert x != g && Blocks(t, n, x);
    }
  }

  lemma LastEntryHeld(s: State, n: NodeId, x: NodeId)
    requires LogInv(s) && MemberInv(s) && At(s, n).pub.Writing? && ViewOk(s, n) && Live(s, n)
    requires x in s.synced && LastId(At(s, x).log) == At(s, n).pub.entry.id
    ensures Holds(s, n, x)
  {
    var l := At(s, x).log;
    assert OneAhead(s, x) && WellLog(l) && AllKnown(s, l);
    assert l != s.committed;
    assert Known(s, l[|l| - 1]);
    assert l == s.committed + [l[|l| - 1]];
  }

  lemma AnsweredKeeps(s: State, t: State, p: Put)
    requires Inv(s) && Answered(s, t, p)
    ensures Inv(t)
  {
    assert Calm(s, t);
    forall m | At(t, m).pub.Writing? ensures ViewOk(t, m) && Outcome(t, m) {
      if m == p.leader {
        AnsweredPublish(s, t, p);
      } else {
        CalmPublish(s, t, m);
      }
    }
    CalmKeeps(s, t);
  }

  lemma LandedKeeps(s: State, p: Put)
    requires Inv(s) && p in s.puts && Reachable(s, p) && (IsDuplicate(s, p) || CanAppend(s, p))
    ensures Inv(Landed(s, p)) && Reachable(Landed(s, p), p) && IsDuplicate(Landed(s, p), p)
  {
    if !IsDuplicate(s, p) {
      AppendedKeeps(s, Landed(s, p), p);
    }
  }

  lemma RepliedKeeps(s: State, p: Put)
    requires Inv(s) && p in s.puts && Reachable(s, p) && IsDuplicate(s, p) && Counts(s, p)
    ensures Inv(Replied(s, p))
  {
    AnsweredKeeps(s, Replied(s, p), p);
  }

  lemma DeliverKeeps(s: State, p: Put, reply: bool)
    requires Inv(s) && Enabled(s, DeliverStep(p, reply))
    ensures Inv(Next(s, DeliverStep(p, reply)))
  {
    LandedKeeps(s, p);
    assert Landed(s, p).puts == s.puts;
    if reply && Counts(Landed(s, p), p) {
      RepliedKeeps(Landed(s, p), p);
    }
  }

  // ---------------------------------------------------------------- committing

  /** A publish that has all its answers is not doomed. */
  lemma AnsweredNotDoomed(s: State, n: NodeId)
    requires At(s, n).pub.Writing? && ViewOk(s, n) && Enabled(s, CommitStep(n))
    ensures !Doomed(s, n)
  {
    assert Core(s, n) <= Others(At(s, n).pub.view, n);
  }

  /** When a live publish has all its answers, every synced member holds its entry. */
  lemma CommitHeldByAll(s: State, n: NodeId, x: NodeId)
    requires At(s, n).pub.Writing? && ViewOk(s, n) && Enabled(s, CommitStep(n)) && Live(s, n)
    requires x in s.synced && x != n
    ensures Holds(s, n, x)
  {
    assert Core(s, n) <= Others(At(s, n).pub.view, n);
  }

  /** Committing extends the history by the entry of a live publish, and leaves it alone for
      a settled one. */
  ghost predicate Committing(s: State, t: State, n: NodeId) {
    && At(s, n).pub.Writing? && ViewOk(s, n) && (Live(s, n) || Settled(s, n))
    && (Live(s, n) ==> forall x :: x in s.synced && x != n ==> Holds(s, n, x))
    && t == s.(nodes := t.nodes, acked := t.acked, committed := t.committed)
    && t.acked == s.acked + {At(s, n).pub.entry}
    && (forall m :: m != n ==> At(t, m) == At(s, m))
    && At(t, n) == At(s, n).(log := At(s, n).log + [At(s, n).pub.entry], pub := Idle)
    && t.committed == if Live(s, n) then s.committed + [At(s, n).pub.entry] else s.committed
  }

  lemma CommitIsCommitting(s: State, n: NodeId)
    requires PublishInv(s) && Enabled(s, CommitStep(n))
    ensures Committing(s, Next(s, CommitStep(n)), n)
  {
    assert ViewOk(s, n) && Outcome(s, n);
    AnsweredNotDoomed(s, n);
    if Live(s, n) {
      forall x | x in s.synced && x != n ensures Holds(s, n, x) {
        CommitHeldByAll(s, n, x);
      }
    }
  }

  /** The committed log only grows, and covers the new log of the publisher. */
  lemma CommittedGrows(s: State, t: State, n: NodeId)
    requires LogInv(s) && Committing(s, t, n)
    ensures s.committed <= t.committed && At(t, n).log <= t.committed
    ensures WellLog(t.committed) && AllKnown(t, t.committed)
    ensures At(s, n).pub.entry in t.committed
  {
    var e := At(s, n).pub.entry;
    if Live(s, n) {
      KnownMore(s, t, s.committed, e);
    } else {
      assert s.committed[|At(s, n).log|] == e;
      PrefixWell(t, s.committed, s.committed);
    }
  }

  lemma KnownMore(s: State, t: State, log: seq<Entry>, e: Entry)
    requires WellLog(log) && AllKnown(s, log) && Known(s, e) && t.born == s.born
    requires e.id > LastId(log) && e.size > 0 && e.offset == End(log)
    ensures WellLog(log + [e]) && AllKnown(t, log + [e]) && e in log + [e]
  {
    AppendWell(log, e);
    assert (log + [e])[|log|] == e;
  }

  lemma PrefixWell(s: State, a: seq<Entry>, b: seq<Entry>)
    requires WellLog(b) && AllKnown(s, b) && a <= b
    ensures WellLog(a) && AllKnown(s, a)
  {
    assert forall i :: 0 <= i < |a| ==> a[i] == b[i];
  }

  lemma CommitLog(s: State, t: State, n: NodeId)
    requires LogInv(s) && Committing(s, t, n)
    ensures LogInv(t)
  {
    CommittedGrows(s, t, n);
    forall m ensures WellLog(At(t, m).log) && AllKnown(t, At(t, m).log) {
      if m == n {
        PrefixWell(t, At(t, n).log, t.committed);
      } else {
        assert WellLog(At(s, m).log) && AllKnown(s, At(s, m).log);
      }
    }
  }

  lemma CommitMeta(s: State, t: State, n: NodeId)
    requires MetaInv(s) && LogInv(s) && PutInv(s) && Committing(s, t, n)
    ensures MetaInv(t) && PutInv(t)
  {
    CommittedGrows(s, t, n);
    forall m ensures MetaOk(t, At(t, m).meta) { assert MetaOk(s, At(s, m).meta); }
    PrefixEnd(s.committed, t.committed);
  }

  lemma CommitMember(s: State, t: State, n: NodeId)
    requires MemberInv(s) && PhaseInv(s) && Committing(s, t, n)
    ensures MemberInv(t) && PhaseInv(t)
  {
    var l := s.store.leader;
    forall x | x in t.synced ensures OneAhead(t, x) {
      assert OneAhead(s, x);
    }
    forall x | x in t.store.isr && x !in t.synced ensures Joining(t, x) && At(t, l).disabled {
      assert Joining(s, x) && x != n;
      if Live(s, n) {
        assert At(s, x).log <= s.committed || Holds(s, n, x);
      }
    }
    assert l in Members(s.store.isr) && OneAhead(s, l);
    assert forall m :: Follows(s, m) ==> Follows(t, m);
  }

  lemma CommitWriter(s: State, t: State, n: NodeId)
    requires LogInv(s) && WriterInv(s) && Committing(s, t, n)
    ensures WriterInv(t)
  {
    CommittedGrows(s, t, n);
    forall m | m != t.store.leader && !At(t, m).disabled && LeadsItself(t, m) ensures Deposed(t, m) {
      assert LeadsItself(s, m) && Deposed(s, m);
      var x :| x in Others(At(s, m).meta, m) && LockedOut(s, x, At(s, m).meta.writeEpoch);
      assert LockedOut(t, x, At(t, m).meta.writeEpoch);
    }
  }

  /** Two publishes of different nodes never carry the same entry. */
  lemma EntriesDiffer(s: State, n: NodeId, m: NodeId)
    requires At(s, n).pub.Writing? && ViewOk(s, n) && At(s, m).pub.Writing? && ViewOk(s, m) && n != m
    ensures At(s, n).pub.entry != At(s, m).pub.entry
  {
    assert MetaOk(s, At(s, n).pub.view) && MetaOk(s, At(s, m).pub.view);
  }

  /** While one live publish commits, any other live publish is doomed. */
  lemma RivalDoomed(s: State, t: State, n: NodeId, m: NodeId)
    requires LogInv(s) && MemberInv(s) && PublishInv(s) && Committing(s, t, n) && Live(s, n)
    requires m != n && At(s, m).pub.Writing? && Live(s, m)
    ensures m != s.store.leader && Doomed(s, m)
  {
    var l := s.store.leader;
    assert ViewOk(s, m) && Outcome(s, n) && Outcome(s, m);
    if n == l {
      assert Owes(s, m, n);
      assert Blocks(s, m, n);
    } else {
      assert Holds(s, n, l);
      assert m != l && At(s, l).disabled;
      DisabledMemberDecides(s, m, l);
      EntriesDiffer(s, n, m);
      assert (s.committed + [At(s, n).pub.entry])[|s.committed|] == At(s, n).pub.entry;
      assert (s.committed + [At(s, m).pub.entry])[|s.committed|] == At(s, m).pub.entry;
    }
  }

  lemma CommitOtherView(s: State, t: State, n: NodeId, m: NodeId)
    requires LogInv(s) && Committing(s, t, n) && m != n && At(s, m).pub.Writing? && ViewOk(s, m)
    ensures ViewOk(t, m)
    ensures Settled(s, m) ==> Settled(t, m)
  {
    CommittedGrows(s, t, n);
    assert MetaOk(t, At(t, m).pub.view);
  }

  lemma CommitOtherDoomed(s: State, t: State, n: NodeId, m: NodeId)
    requires Committing(s, t, n) && m != n && At(s, m).pub.Writing? && Doomed(s, m)
    ensures Doomed(t, m)
  {
    var x :| Blocks(s, m, x);
    assert x == n ==> !At(s, n).disabled;
    assert Blocks(t, m, x);
  }

  lemma CommitOther(s: State, t: State, n: NodeId, m: NodeId)
    requires LogInv(s) && MemberInv(s) && PublishInv(s) && Committing(s, t, n)
    requires m != n && At(s, m).pub.Writing?
    ensures ViewOk(t, m) && Outcome(t, m)
  {
    assert ViewOk(s, m) && Outcome(s, m);
    CommitOtherView(s, t, n, m);
    if Live(s, n) && Live(s, m) {
      RivalDoomed(s, t, n, m);
    }
    if Doomed(s, m) {
      CommitOtherDoomed(s, t, n, m);
    } else if Live(s, m) {
      CommitOtherLive(s, t, n, m);
    }
  }

  /** The settled publisher is behind the committed log, so no live publish counts on it. */
  lemma CommitOtherLive(s: State, t: State, n: NodeId, m: NodeId)
    requires MemberInv(s) && Committing(s, t, n) && m != n && At(s, m).pub.Writing?
    requires Live(s, m) && !Live(s, n)
    ensures Live(t, m)
  {
    assert n in s.synced ==> OneAhead(s, n);
    assert n !in s.synced;
    assert n in s.store.isr ==> Joining(s, n);
    forall x ensures Owes(s, m, x) ==> Owes(t, m, x)
             ensures x != n ==> (Holds(s, m, x) ==> Holds(t, m, x))
             ensures x != n ==> At(s, x).log == At(t, x).log {}
  }

  lemma CommitKeeps(s: State, n: NodeId)
    requires Inv(s) && Enabled(s, CommitStep(n))
    ensures Inv(Next(s, CommitStep(n)))
  {
    var t := Next(s, CommitStep(n));
    CommitIsCommitting(s, n);
    CommittingKeeps(s, t, n);
  }

  lemma CommittingKeeps(s: State, t: State, n: NodeId)
    requires Inv(s) && Committing(s, t, n)
    ensures Inv(t)
  {
    CommittedGrows(s, t, n);
    CommitLog(s, t, n);
    CommitMeta(s, t, n);
    CommitMember(s, t, n);
    CommitWriter(s, t, n);
    forall m | At(t, m).pub.Writing? ensures ViewOk(t, m) && Outcome(t, m) {
      CommitOther(s, t, n, m);
    }
    CommitAcked(s, t, n);
  }

  lemma CommitAcked(s: State, t: State, n: NodeId)
    requires LogInv(s) && Committing(s, t, n) && forall e :: e in s.acked ==> e in s.committed
    ensures forall e :: e in t.acked ==> e in t.committed
  {
    CommittedGrows(s, t, n);
    forall e | e in t.acked ensures e in t.committed {
      if e in s.acked {
        var i :| 0 <= i < |s.committed| && s.committed[i] == e;
        assert t.committed[i] == e;
      }
    }
  }

  // ---------------------------------------------------------------- taking new metadata

  /** One node holds its old metadata or the stored one. With writes enabled afterwards it
      can only have moved to another write epoch by leaving the ISR, and it is not a new leader. */
  ghost predicate Adopting(s: State, t: State, n: NodeId) {
    var a, b := At(s, n), At(t, n);
    && t == s.(nodes := t.nodes) && (forall m :: m != n ==> At(t, m) == At(s, m))
    && b == a.(meta := b.meta, disabled := b.disabled)
    && (b.meta == a.meta || b.meta == s.store)
    && (a.disabled ==> b.disabled) && (b.disabled != a.disabled ==> a.pub.Idle?)
    && (!b.disabled && b.meta != a.meta && n == s.store.leader ==> a.meta.leader == n)
  }

  lemma AdoptIsAdopting(s: State, n: NodeId, ask: bool)
    requires Enabled(s, AdoptStep(n, ask))
    ensures Adopting(s, Next(s, AdoptStep(n, ask)), n)
  {
    var r := Adopted(n, At(s, n).meta, At(s, n).disabled, ask, s.store);
    assert r.0 == At(s, n).meta || r.0 == s.store;
  }

  lemma AdoptMeta(s: State, t: State, n: NodeId)
    requires MetaInv(s) && Adopting(s, t, n)
    ensures MetaInv(t)
  {
    forall m ensures MetaOk(t, At(t, m).meta) { assert MetaOk(s, At(s, m).meta); }
  }

  lemma AdoptLog(s: State, t: State, n: NodeId)
    requires LogInv(s) && PutInv(s) && Adopting(s, t, n)
    ensures LogInv(t) && PutInv(t)
  {
    forall m ensures WellLog(At(t, m).log) && AllKnown(t, At(t, m).log) {
      assert WellLog(At(s, m).log) && AllKnown(s, At(s, m).log);
    }
  }

  lemma AdoptPhase(s: State, t: State, n: NodeId)
    requires PhaseInv(s) && Adopting(s, t, n)
    ensures PhaseInv(t)
  {
    assert forall m :: Follows(s, m) ==> Follows(t, m);
  }

  lemma AdoptMember(s: State, t: State, n: NodeId)
    requires MetaInv(s) && MemberInv(s) && WriterInv(s) && Adopting(s, t, n)
    ensures MemberInv(t) && WriterInv(t)
  {
    forall x | x in t.synced ensures OneAhead(t, x) { assert OneAhead(s, x); }
    forall x | x in t.store.isr && x !in t.synced ensures Joining(t, x) && At(t, t.store.leader).disabled {
      assert Joining(s, x);
    }
    forall m | m != t.store.leader && !At(t, m).disabled && LeadsItself(t, m) ensures Deposed(t, m) {
      assert LeadsItself(s, m) && Deposed(s, m);
      var x :| x in Others(At(s, m).meta, m) && LockedOut(s, x, At(s, m).meta.writeEpoch);
      assert LockedOut(t, x, At(t, m).meta.writeEpoch);
    }
  }

  lemma AdoptOwnPublish(s: State, t: State, n: NodeId)
    requires MetaInv(s) && MemberInv(s) && PublishInv(s) && Adopting(s, t, n) && At(t, n).pub.Writing?
    ensures ViewOk(t, n) && Outcome(t, n)
  {
    assert ViewOk(s, n) && Outcome(s, n);
    assert MetaOk(s, At(s, n).pub.view) && MetaOk(t, At(t, n).pub.view);
    forall x | x in s.synced && Owes(s, n, x) ensures Owes(t, n, x) {
      assert x in Members(s.store.isr);
    }
    if Live(s, n) {
      forall x ensures Holds(s, n, x) ==> Holds(t, n, x)
               ensures At(s, x).log == At(t, x).log {}
      assert Live(t, n);
    }
    if n != s.store.leader && Doomed(s, n) {
      var x :| Blocks(s, n, x);
      assert Core(s, n) <= Core(t, n);
      assert Blocks(t, n, x);
    }
  }

  lemma AdoptOtherPublish(s: State, t: State, n: NodeId, m: NodeId)
    requires MetaInv(s) && PublishInv(s) && Adopting(s, t, n) && m != n && At(t, m).pub.Writing?
    ensures ViewOk(t, m) && Outcome(t, m)
  {
    assert ViewOk(s, m) && Outcome(s, m);
    assert MetaOk(t, At(t, m).pub.view);
    if Live(s, m) {
      forall x ensures Owes(s, m, x) ==> Owes(t, m, x)
               ensures Holds(s, m, x) ==> Holds(t, m, x)
               ensures At(s, x).log == At(t, x).log {}
      assert Live(t, m);
    }
    if m != s.store.leader && Doomed(s, m) {
      var x :| Blocks(s, m, x);
      assert Blocks(t, m, x);
    }
  }

  lemma AdoptKeeps(s: State, n: NodeId, ask: bool)
    requires Inv(s) && Enabled(s, AdoptStep(n, ask))
    ensures Inv(Next(s, AdoptStep(n, ask)))
  {
    var t := Next(s, AdoptStep(n, ask));
    AdoptIsAdopting(s, n, ask);
    AdoptMeta(s, t, n);
    AdoptLog(s, t, n);
    AdoptPhase(s, t, n);
    AdoptMember(s, t, n);
    forall m | At(t, m).pub.Writing? ensures ViewOk(t, m) && Outcome(t, m) {
      if m == n {
        AdoptOwnPublish(s, t, n);
      } else {
        AdoptOtherPublish(s, t, n, m);
      }
    }
  }
}
