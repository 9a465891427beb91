/** The steps that change the stored metadata, and the agreement that ends a join session. */
module ReplicationMembership {
  import opened Metadata
  import opened Replication
  import opened ReplicationInvariant
  import opened ReplicationSteps

  // ---------------------------------------------------------------- agreement

  lemma EqualLastIdEqualLog(s: State, a: NodeId, b: NodeId)
    requires LogInv(s) && OneAhead(s, a) && OneAhead(s, b)
    requires LastId(At(s, a).log) == LastId(At(s, b).log)
    ensures At(s, a).log == At(s, b).log
  {
    var x, y := At(s, a).log, At(s, b).log;
    assert WellLog(x) && WellLog(y) && AllKnown(s, x) && AllKnown(s, y);
    PrefixLastId(s.committed, x);
    PrefixLastId(s.committed, y);
    if |x| > |s.committed| && |y| > |s.committed| {
      assert Known(s, x[|x| - 1]) && Known(s, y[|y| - 1]);
      assert x == s.committed + [x[|x| - 1]] && y == s.committed + [y[|y| - 1]];
    }
  }

  /** The consistency check compares last ids only; for ISR members that is enough: equal
      last ids mean equal logs. */
  lemma MatchingLastIds(s: State, n: NodeId)
    requires LogInv(s) && MemberInv(s) && n in s.store.isr
    requires LastId(At(s, n).log) == LastId(At(s, s.store.leader).log)
    ensures At(s, n).log == At(s, s.store.leader).log
  {
    var l := s.store.leader;
    assert OneAhead(s, l);
    if n in s.synced {
      assert OneAhead(s, n);
      EqualLastIdEqualLog(s, n, l);
    } else {
      assert Joining(s, n);
      if At(s, n).log <= s.committed {
        assert WellLog(At(s, l).log);
        PrefixLastId(At(s, n).log, At(s, l).log);
      } else {
        EqualLastIdEqualLog(s, n, l);
      }
    }
  }

  /** The session ended with everyone on the leader's log. */
  ghost predicate Agreeing(s: State, t: State) {
    && s.phase.Session? && Members(s.store.isr) <= s.phase.reported
    && (forall n :: n in s.store.isr ==> LastId(At(s, n).log) == LastId(At(s, s.store.leader).log))
    && t == s.(phase := Enabling(Members(s.store.isr)), committed := At(s, s.store.leader).log,
               agreed := Members(s.store.isr), synced := Members(s.store.isr))
  }

  lemma AgreePublish(s: State, t: State, m: NodeId)
    requires Inv(s) && Agreeing(s, t) && At(s, m).pub.Writing?
    ensures ViewOk(t, m) && Outcome(t, m)
  {
    assert forall x :: At(t, x) == At(s, x);
    assert ViewOk(s, m) && Outcome(s, m) && OneAhead(s, s.store.leader);
    assert s.store.leader in Members(s.store.isr) && m != s.store.leader;
    assert MetaOk(t, At(t, m).pub.view);
    if Live(s, m) {
      LeaderDecides(s, m);
    }
    if Doomed(s, m) {
      var x :| Blocks(s, m, x);
      assert Blocks(t, m, x);
    } else {
      assert Settled(t, m);
    }
  }

  lemma AgreeLogs(s: State, t: State)
    requires MetaInv(s) && LogInv(s) && Agreeing(s, t)
    ensures MetaInv(t) && LogInv(t)
  {
    assert forall x :: At(t, x) == At(s, x);
    forall m ensures MetaOk(t, At(t, m).meta) { assert MetaOk(s, At(s, m).meta); }
    forall m ensures WellLog(At(t, m).log) && AllKnown(t, At(t, m).log) {
      assert WellLog(At(s, m).log) && AllKnown(s, At(s, m).log);
    }
  }

  lemma AgreeWriter(s: State, t: State)
    requires MemberInv(s) && WriterInv(s) && Agreeing(s, t)
    ensures WriterInv(t)
  {
    assert forall x :: At(t, x) == At(s, x);
    assert OneAhead(s, s.store.leader);
    forall m | m != t.store.leader && !At(t, m).disabled && LeadsItself(t, m) ensures Deposed(t, m) {
      assert LeadsItself(s, m) && Deposed(s, m);
      var x :| x in Others(At(s, m).meta, m) && LockedOut(s, x, At(s, m).meta.writeEpoch);
      assert LockedOut(t, x, At(t, m).meta.writeEpoch);
    }
  }

  lemma AgreeMember(s: State, t: State)
    requires MetaInv(s) && LogInv(s) && MemberInv(s) && PhaseInv(s) && Agreeing(s, t)
    ensures MemberInv(t) && PhaseInv(t)
  {
    assert forall x :: At(t, x) == At(s, x);
    assert s.store.leader in Members(s.store.isr);
    forall n | n in s.store.isr ensures At(s, n).log == At(s, s.store.leader).log {
      MatchingLastIds(s, n);
    }
    forall x | x in t.synced ensures OneAhead(t, x) {}
    assert forall x :: Follows(s, x) ==> Follows(t, x);
  }

  lemma AgreePuts(s: State, t: State)
    requires LogInv(s) && MemberInv(s) && PutInv(s) && Agreeing(s, t)
    ensures PutInv(t) && s.committed <= t.committed
  {
    var l := At(s, s.store.leader).log;
    assert OneAhead(s, s.store.leader) && WellLog(l);
    PrefixEnd(s.committed, l);
  }

  lemma AgreeKeeps(s: State)
    requires Inv(s) && Enabled(s, AgreeStep)
    ensures Inv(Next(s, AgreeStep))
  {
    AgreeingKeeps(s, Next(s, AgreeStep));
  }

  lemma AgreeingKeeps(s: State, t: State)
    requires Inv(s) && Agreeing(s, t)
    ensures Inv(t)
  {
    AgreeLogs(s, t);
    AgreeWriter(s, t);
    AgreeMember(s, t);
    AgreePuts(s, t);
    forall m | At(t, m).pub.Writing? ensures ViewOk(t, m) && Outcome(t, m) {
      AgreePublish(s, t, m);
    }
  }

  // ---------------------------------------------------------------- a new stored value

  /** Only the stored value and what hangs on it differ. */
  ghost predicate Restored(s: State, t: State) {
    && t.nodes == s.nodes && t.committed == s.committed && t.acked == s.acked
    && t.replica == s.replica && t.born == s.born && t.puts == s.puts
    && WellFormed(t.store) && s.store.epoch <= t.store.epoch
  }

  /** The write epoch went up by one. */
  ghost predicate Bumped(s: State, t: State) {
    && Restored(s, t)
    && t.store.writeEpoch == s.store.writeEpoch + 1
    && t.leaderOf == s.leaderOf[t.store.writeEpoch := t.store.leader]
  }

  /** The write epoch and the leader stayed, and the ISR lost members or none. */
  ghost predicate Shrunk(s: State, t: State) {
    && Restored(s, t)
    && t.store.writeEpoch == s.store.writeEpoch && t.store.leader == s.store.leader
    && t.leaderOf == s.leaderOf && t.phase == s.phase
    && Members(t.store.isr) <= Members(s.store.isr)
  }

  lemma RestoredMeta(s: State, t: State)
    requires MetaInv(s) && (Bumped(s, t) || Shrunk(s, t))
    ensures MetaInv(t)
    ensures forall m :: MetaOk(s, m) ==> MetaOk(t, m)
  {
    assert t.store.leader in Members(t.store.isr);
    forall m | MetaOk(s, m) ensures MetaOk(t, m) {}
    forall n ensures MetaOk(t, At(t, n).meta) {
      assert At(t, n) == At(s, n) && MetaOk(s, At(s, n).meta);
    }
  }

  lemma RestoredLog(s: State, t: State)
    requires LogInv(s) && PutInv(s) && Restored(s, t)
    ensures LogInv(t) && PutInv(t)
  {
    forall m ensures WellLog(At(t, m).log) && AllKnown(t, At(t, m).log) {
      assert At(t, m) == At(s, m) && WellLog(At(s, m).log) && AllKnown(s, At(s, m).log);
    }
  }

  lemma StillDeposed(s: State, t: State, n: NodeId)
    requires Restored(s, t) && s.store.writeEpoch <= t.store.writeEpoch && Deposed(s, n)
    ensures Deposed(t, n)
  {
    assert forall x :: At(t, x) == At(s, x);
    var x :| x in Others(At(s, n).meta, n) && LockedOut(s, x, At(s, n).meta.writeEpoch);
    assert LockedOut(t, x, At(t, n).meta.writeEpoch);
  }

  /** Whatever was settled or doomed stays so, and a live publish stays live for the members
      it already reckoned with. */
  lemma BumpedPublish(s: State, t: State, m: NodeId)
    requires MetaInv(s) && Bumped(s, t) && t.store.leader != m
    requires At(s, m).pub.Writing? && ViewOk(s, m) && Outcome(s, m)
    requires Live(s, m) && !Doomed(s, m) ==>
               && (forall x :: x in t.synced && x !in s.synced ==> Holds(s, m, x))
               && (forall x :: x in t.store.isr && x !in t.synced && !(x in s.store.isr && x !in s.synced) ==>
                     At(s, x).log <= s.committed || Holds(s, m, x))
    ensures ViewOk(t, m) && Outcome(t, m)
  {
    assert forall x :: At(t, x) == At(s, x);
    RestoredMeta(s, t);
    assert MetaOk(s, At(s, m).pub.view) && MetaOk(t, At(t, m).pub.view);
    if Doomed(s, m) {
      var x :| Blocks(s, m, x);
      assert Blocks(t, m, x);
    } else if Live(s, m) {
      RestoredLive(s, t, m);
    }
  }

  lemma RestoredLive(s: State, t: State, m: NodeId)
    requires Restored(s, t) && At(s, m).pub.Writing? && Live(s, m)
    requires forall x :: x in t.synced && x !in s.synced ==> Holds(s, m, x)
    requires forall x :: x in t.store.isr && x !in t.synced && !(x in s.store.isr && x !in s.synced) ==>
               At(s, x).log <= s.committed || Holds(s, m, x)
    ensures Live(t, m)
  {
    assert forall x :: At(t, x) == At(s, x);
    forall x ensures Owes(s, m, x) ==> Owes(t, m, x)
             ensures Holds(s, m, x) ==> Holds(t, m, x) {}
  }

  // ---------------------------------------------------------------- removals

  /** A removal, or an edit of the catchup list. */
  lemma ShrinkKeeps(s: State, t: State)
    requires Inv(s) && Shrunk(s, t) && t.synced == s.synced * Members(t.store.isr)
    requires s.phase.Quiet? || t.store.isr == s.store.isr
    ensures Inv(t)
  {
    assert forall x :: At(t, x) == At(s, x);
    assert forall x :: x in t.store.isr ==> x in Members(t.store.isr) && x in Members(s.store.isr);
    assert t.store.leader in Members(t.store.isr);
    RestoredMeta(s, t);
    RestoredLog(s, t);
    assert MemberInv(t) by {
      forall x | x in t.synced ensures OneAhead(t, x) { assert OneAhead(s, x); }
      forall x | x in t.store.isr && x !in t.synced ensures Joining(t, x) && At(t, t.store.leader).disabled {
        assert x in s.store.isr && x !in s.synced && Joining(s, x);
      }
    }
    assert WriterInv(t) by {
      forall m | m != t.store.leader && !At(t, m).disabled && LeadsItself(t, m) ensures Deposed(t, m) {
        assert LeadsItself(s, m) && Deposed(s, m);
        StillDeposed(s, t, m);
      }
    }
    assert PhaseInv(t) by {
      assert forall x :: Follows(s, x) ==> Follows(t, x);
      assert s.synced <= Members(s.store.isr);
      assert !s.phase.Quiet? ==> t.synced == s.synced;
    }
    forall m | At(t, m).pub.Writing? ensures ViewOk(t, m) && Outcome(t, m) {
      ShrinkPublish(s, t, m);
    }
  }

  lemma ShrinkPublish(s: State, t: State, m: NodeId)
    requires Inv(s) && Shrunk(s, t) && t.synced == s.synced * Members(t.store.isr)
    requires At(s, m).pub.Writing?
    ensures ViewOk(t, m) && Outcome(t, m)
  {
    assert forall x :: At(t, x) == At(s, x);
    assert forall x :: x in t.store.isr ==> x in Members(t.store.isr) && x in Members(s.store.isr);
    assert ViewOk(s, m) && Outcome(s, m);
    RestoredMeta(s, t);
    assert MetaOk(s, At(s, m).pub.view) && MetaOk(t, At(t, m).pub.view);
    if Live(s, m) {
      RestoredLive(s, t, m);
    }
    if Doomed(s, m) {
      var x :| Blocks(s, m, x);
      assert Blocks(t, m, x);
    }
  }

  lemma RemoveKeeps(s: State, f: seq<NodeId>, lc: bool)
    requires Inv(s) && Enabled(s, RemoveStep(f, lc))
    ensures Inv(Next(s, RemoveStep(f, lc)))
  {
    ChangeKeepsWellFormed(s.store, Remove(f, lc), s.replica, Rev(s));
    ShrinkKeeps(s, Next(s, RemoveStep(f, lc)));
  }

  lemma CatchupListKeeps(s: State, c: Change)
    requires Inv(s) && Enabled(s, CatchupListStep(c))
    ensures Inv(Next(s, CatchupListStep(c)))
  {
    var t := Next(s, CatchupListStep(c));
    ChangeKeepsWellFormed(s.store, c, s.replica, Rev(s));
    assert t.store.isr == s.store.isr;
    assert t.synced == s.synced * Members(t.store.isr);
    ShrinkKeeps(s, t);
  }

  /** What a bumped state has to show beyond the frame. */
  lemma BumpKeeps(s: State, t: State)
    requires Inv(s) && Bumped(s, t)
    requires MemberInv(t) && WriterInv(t) && PhaseInv(t)
    requires forall m :: At(s, m).pub.Writing? ==> ViewOk(t, m) && Outcome(t, m)
    ensures Inv(t)
  {
    assert forall x :: At(t, x) == At(s, x);
    RestoredMeta(s, t);
    RestoredLog(s, t);
  }

  lemma SameLeaderWriter(s: State, t: State)
    requires WriterInv(s) && Bumped(s, t) && t.store.leader == s.store.leader
    ensures WriterInv(t)
  {
    assert forall x :: At(t, x) == At(s, x);
    forall m | m != t.store.leader && !At(t, m).disabled && LeadsItself(t, m) ensures Deposed(t, m) {
      assert LeadsItself(s, m) && Deposed(s, m);
      StillDeposed(s, t, m);
    }
  }

  // ---------------------------------------------------------------- rollback

  /** A timed-out session stores the ISR without the members that never reported. */
  ghost predicate RolledBack(s: State, t: State) {
    && Bumped(s, t) && t.phase == s.phase && s.phase.Session? && s.store.leader in s.phase.reported
    && t.store.leader == s.store.leader
    && Members(t.store.isr) <= Members(s.store.isr)
    && t.synced == s.synced * Members(t.store.isr)
  }

  lemma RollbackMember(s: State, t: State)
    requires MemberInv(s) && PhaseInv(s) && RolledBack(s, t)
    ensures MemberInv(t) && PhaseInv(t)
  {
    assert forall x :: At(t, x) == At(s, x);
    assert forall x :: Follows(s, x) ==> Follows(t, x);
    assert forall x :: x in t.store.isr ==> x in Members(t.store.isr) && x in Members(s.store.isr);
    assert t.store.leader in Members(t.store.isr) && s.store.leader in Members(s.store.isr);
    forall x | x in t.synced ensures OneAhead(t, x) { assert OneAhead(s, x); }
    forall x | x in t.store.isr && x !in t.synced ensures Joining(t, x) && At(t, t.store.leader).disabled {
      assert x in s.store.isr && x !in s.synced && Joining(s, x);
    }
  }

  lemma RollbackKeeps(s: State)
    requires Inv(s) && Enabled(s, RollbackStep)
    ensures Inv(Next(s, RollbackStep))
  {
    var t := Next(s, RollbackStep);
    ChangeKeepsWellFormed(s.store, Rollback(s.phase.reported), s.replica, Rev(s));
    assert RolledBack(s, t);
    RollbackMember(s, t);
    SameLeaderWriter(s, t);
    forall m | At(s, m).pub.Writing? ensures ViewOk(t, m) && Outcome(t, m) {
      RollbackPublish(s, t, m);
    }
    BumpKeeps(s, t);
  }

  lemma RollbackPublish(s: State, t: State, m: NodeId)
    requires Inv(s) && RolledBack(s, t) && At(s, m).pub.Writing?
    ensures ViewOk(t, m) && Outcome(t, m)
  {
    assert ViewOk(s, m) && Outcome(s, m) && s.store.leader in Members(s.store.isr);
    assert forall x :: x in t.store.isr ==> x in Members(t.store.isr) && x in Members(s.store.isr);
    BumpedPublish(s, t, m);
  }

  // ---------------------------------------------------------------- joining

  /** `n`, caught up with the leader, entered the ISR while everybody is write disabled. */
  ghost predicate Joined(s: State, t: State, n: NodeId) {
    && Bumped(s, t) && t.phase == Session({s.store.leader}) && t.synced == s.synced
    && t.store.leader == s.store.leader
    && Members(t.store.isr) == Members(s.store.isr) + {n} && n !in s.store.isr
    && CanOpenSession(s) && At(s, n).disabled && At(s, n).log <= At(s, s.store.leader).log
  }

  lemma JoinMember(s: State, t: State, n: NodeId)
    requires MemberInv(s) && Joined(s, t, n)
    ensures MemberInv(t) && PhaseInv(t)
  {
    assert forall x :: At(t, x) == At(s, x);
    assert forall x :: x in t.store.isr ==> x in Members(t.store.isr);
    assert s.store.leader in Members(s.store.isr) && OneAhead(s, s.store.leader);
    forall x | x in t.synced ensures OneAhead(t, x) { assert OneAhead(s, x); }
    forall x | x in t.store.isr && x !in t.synced ensures Joining(t, x) && At(t, t.store.leader).disabled {
      if x == n {
        JoinerNear(s, n);
      } else {
        assert x in s.store.isr && Joining(s, x);
      }
    }
  }

  lemma JoinPublish(s: State, t: State, n: NodeId, m: NodeId)
    requires Inv(s) && Joined(s, t, n) && At(s, m).pub.Writing?
    ensures ViewOk(t, m) && Outcome(t, m)
  {
    assert ViewOk(s, m) && Outcome(s, m) && s.store.leader in Members(s.store.isr);
    assert forall x :: x in t.store.isr ==> x in Members(t.store.isr);
    if Live(s, m) && !Doomed(s, m) {
      LeaderDecides(s, m);
      assert At(s, n).log <= s.committed || Holds(s, m, n);
    }
    BumpedPublish(s, t, m);
  }

  lemma JoinKeeps(s: State, n: NodeId)
    requires Inv(s) && Enabled(s, JoinStep(n)) && Benign(s, JoinStep(n))
    ensures Inv(Next(s, JoinStep(n)))
  {
    var t := Next(s, JoinStep(n));
    ChangeKeepsWellFormed(s.store, Join(n), s.replica, Rev(s));
    assert n in Members(s.store.catchup) && n !in Members(s.store.isr);
    assert Joined(s, t, n);
    JoinMember(s, t, n);
    SameLeaderWriter(s, t);
    forall m | At(s, m).pub.Writing? ensures ViewOk(t, m) && Outcome(t, m) {
      JoinPublish(s, t, n, m);
    }
    BumpKeeps(s, t);
  }

  /** A node that has caught up with the leader is near the committed log. */
  lemma JoinerNear(s: State, n: NodeId)
    requires OneAhead(s, s.store.leader) && At(s, n).log <= At(s, s.store.leader).log
    ensures At(s, n).log <= s.committed || OneAhead(s, n)
  {}

  // ---------------------------------------------------------------- election

  /** The newest log among the answers carries everything committed, as soon as one synced
      member is among them. A winner that is not synced itself agrees with that member. */
  lemma NewestIsComplete(s: State, w: NodeId, answers: set<NodeId>, alive: bool, r: NodeId)
    requires LogInv(s) && MemberInv(s) && Enabled(s, ElectStep(w, answers, alive))
    requires r in answers && r in s.synced
    ensures OneAhead(s, w)
    ensures w !in s.synced && At(s, w).log == s.committed ==> At(s, r).log == s.committed
  {
    assert OneAhead(s, r) && w in Members(s.store.isr);
    assert WellLog(At(s, r).log);
    PrefixLastId(s.committed, At(s, r).log);
    if w in s.synced {
      assert OneAhead(s, w);
    } else {
      assert Joining(s, w);
      if At(s, w).log <= s.committed {
        PrefixLastId(At(s, w).log, s.committed);
      }
    }
  }

  lemma ElectPublish(s: State, w: NodeId, answers: set<NodeId>, alive: bool, r: NodeId, m: NodeId)
    requires Inv(s) && Enabled(s, ElectStep(w, answers, alive)) && r in answers && r in s.synced
    requires At(s, m).pub.Writing? && Live(s, m) && !Doomed(s, m) && w !in s.synced
    ensures Holds(s, m, w)
  {
    assert ViewOk(s, m);
    NewestIsComplete(s, w, answers, alive, r);
    assert r != m && At(s, r).disabled;
    DisabledMemberDecides(s, m, r);
    assert w in Members(s.store.isr);
    assert At(s, w).log <= s.committed || Holds(s, m, w);
  }

  lemma ElectMember(s: State, t: State, w: NodeId)
    requires MemberInv(s) && Bumped(s, t) && t.store.leader == w && t.phase.Quiet?
    requires Members(t.store.isr) <= Members(s.store.isr) && w in t.store.isr
    requires t.synced == s.synced * Members(t.store.isr) + {w}
    requires OneAhead(s, w) && At(s, w).disabled
    ensures MemberInv(t) && PhaseInv(t)
  {
    assert forall x :: At(t, x) == At(s, x);
    assert forall x :: x in t.store.isr ==> x in Members(t.store.isr) && x in Members(s.store.isr);
    forall x | x in t.synced ensures OneAhead(t, x) {
      assert x != w ==> OneAhead(s, x);
    }
    forall x | x in t.store.isr && x !in t.synced ensures Joining(t, x) && At(t, w).disabled {
      assert x in s.store.isr && x !in s.synced && Joining(s, x);
    }
  }

  lemma ElectWriter(s: State, t: State, w: NodeId)
    requires MetaInv(s) && MemberInv(s) && WriterInv(s) && Bumped(s, t) && t.store.leader == w
    requires w in s.store.isr && w != s.store.leader && At(s, w).disabled
    ensures WriterInv(t)
  {
    assert forall x :: At(t, x) == At(s, x);
    forall m | m != w && !At(t, m).disabled && LeadsItself(t, m) ensures Deposed(t, m) {
      if m == s.store.leader {
        assert MetaOk(s, At(s, m).meta);
        assert w in Members(s.store.isr) && w in Others(At(s, m).meta, m);
        assert LockedOut(t, w, At(t, m).meta.writeEpoch);
      } else {
        assert LeadsItself(s, m) && Deposed(s, m);
        StillDeposed(s, t, m);
      }
    }
  }

  ghost predicate Elected(s: State, t: State, w: NodeId) {
    && Bumped(s, t) && WellFormed(t.store) && t.store.leader == w && t.phase.Quiet?
    && Members(t.store.isr) <= Members(s.store.isr) && w in t.store.isr
    && t.synced == s.synced * Members(t.store.isr) + {w}
  }

  lemma ElectIsElected(s: State, w: NodeId, answers: set<NodeId>, alive: bool)
    requires WellFormed(s.store) && Enabled(s, ElectStep(w, answers, alive))
    ensures Elected(s, Next(s, ElectStep(w, answers, alive)), w)
  {
    var t := Next(s, ElectStep(w, answers, alive));
    assert w in Members(s.store.isr);
    Metadata.ElectKeeps(s.store, w, alive, Rev(s));
    assert w in Members(t.store.isr);
  }

  lemma ElectedKeeps(s: State, t: State, w: NodeId, answers: set<NodeId>, alive: bool, r: NodeId)
    requires Inv(s) && Enabled(s, ElectStep(w, answers, alive)) && r in answers && r in s.synced
    requires Elected(s, t, w)
    ensures Inv(t)
  {
    assert w in Members(s.store.isr);
    NewestIsComplete(s, w, answers, alive, r);
    ElectMember(s, t, w);
    ElectWriter(s, t, w);
    forall m | At(s, m).pub.Writing? ensures ViewOk(t, m) && Outcome(t, m) {
      ElectedPublish(s, t, w, answers, alive, r, m);
    }
    BumpKeeps(s, t);
  }

  lemma ElectKeeps(s: State, w: NodeId, answers: set<NodeId>, alive: bool)
    requires Inv(s) && Enabled(s, ElectStep(w, answers, alive)) && Benign(s, ElectStep(w, answers, alive))
    ensures Inv(Next(s, ElectStep(w, answers, alive)))
  {
    var r :| r in answers && r in s.synced;
    ElectIsElected(s, w, answers, alive);
    ElectedKeeps(s, Next(s, ElectStep(w, answers, alive)), w, answers, alive, r);
  }

  lemma ElectedPublish(s: State, t: State, w: NodeId, answers: set<NodeId>, alive: bool, r: NodeId, m: NodeId)
    requires Inv(s) && Enabled(s, ElectStep(w, answers, alive)) && r in answers && r in s.synced
    requires Bumped(s, t) && t.store.leader == w && Members(t.store.isr) <= Members(s.store.isr)
    requires t.synced == s.synced * Members(t.store.isr) + {w}
    requires At(s, m).pub.Writing?
    ensures ViewOk(t, m) && Outcome(t, m)
  {
    assert forall x :: x in t.store.isr ==> x in Members(t.store.isr) && x in Members(s.store.isr);
    assert ViewOk(s, m) && Outcome(s, m) && At(s, w).disabled && m != w;
    if Live(s, m) && !Doomed(s, m) && w !in s.synced {
      ElectPublish(s, w, answers, alive, r, m);
    }
    BumpedPublish(s, t, m);
  }
}
