/** Exactly when the facts the coordinator does not check matter. */
module ReplicationProvisos {
  import opened Metadata
  import opened Replication
  import opened ReplicationInvariant
  import opened ReplicationSafety
  import Steps = ReplicationSteps
  import Membership = ReplicationMembership

  // ---------------------------------------------------------------- session syncs that start over

  /** `n` can be in catchupFromLeader: a session sent it there, on account of this log or of the
      delayed one. */
  ghost predicate MaySync(s: State, n: NodeId) {
    && !s.phase.Enabling? && AllDisabled(s, Members(s.store.isr))
    && n in s.store.isr && n != s.store.leader
    && At(s, n).meta.leader == s.store.leader && n in At(s, n).meta.isr
  }

  lemma SyncEnabled(s: State, n: NodeId, k: nat, fix: bool)
    ensures Enabled(s, SyncStep(n, k, fix)) <==>
            MaySync(s, n) && MayPull(At(s, n).log, At(s, s.store.leader).log, k, fix)
  {}

  /** Two logs at most one entry ahead of `c` share exactly `c`, or all of both. */
  lemma SharedLog(c: seq<Entry>, r: seq<Entry>, l: seq<Entry>)
    requires c <= r && c <= l && |r| <= |c| + 1 && |l| <= |c| + 1
    ensures Agree(r, l) == if r == l then |l| else |c|
  {
    var k := Agree(r, l);
    AgreeAtLeast(r, l, c);
    assert r[..k] == l[..k] && r == r[..|r|] && l == l[..|l|];
    if r == l {
      AgreeAtLeast(r, l, l);
    }
  }

  lemma CutExact(c: seq<Entry>, r: seq<Entry>, l: seq<Entry>, k: nat, fix: bool)
    requires c <= r && c <= l && |r| <= |c| + 1 && |l| <= |c| + 1
    ensures MayPull(r, l, k, fix) && CutAt(c, r, l, k) ==> Agree(r, l) > 0 && (fix || Agree(r, l) == 1)
    ensures MayPull(r, l, k, fix) && !(c <= l[..k]) ==> c != [] && (fix || Agree(r, l) == 1)
    ensures Agree(r, l) > 0 && (fix || Agree(r, l) == 1) ==>
              MayPull(r, l, 0, fix) && CutAt(c, r, l, 0) && (c != [] ==> !(c <= l[..0]))
  {
    SharedLog(c, r, l);
    assert k < |c| <= |l| ==> !(c <= l[..k]);
    assert |c| <= k <= |l| ==> c <= l[..k];
  }

  ghost predicate CutsAt(s: State, n: NodeId, k: nat, fix: bool) {
    Enabled(s, SyncStep(n, k, fix)) && Cuts(s, SyncStep(n, k, fix), n)
  }

  ghost predicate LosesAt(s: State, n: NodeId, k: nat, fix: bool) {
    Enabled(s, SyncStep(n, k, fix)) && !(s.committed <= At(Next(s, SyncStep(n, k, fix)), n).log)
  }

  /** A sync of a synced member can cut it if and only if it shares an entry with the leader,
      and just one or its data needs a fix; it can cost it a committed entry if and only if
      there is one besides. */
  lemma SyncCutExact(s: State, n: NodeId, fix: bool)
    requires MemberInv(s) && n in s.synced
    ensures var shared := Agree(At(s, n).log, At(s, s.store.leader).log);
            && ((exists k: nat :: CutsAt(s, n, k, fix)) <==> MaySync(s, n) && shared > 0 && (fix || shared == 1))
            && ((exists k: nat :: LosesAt(s, n, k, fix)) <==>
                MaySync(s, n) && s.committed != [] && (fix || shared == 1))
  {
    var r, l := At(s, n).log, At(s, s.store.leader).log;
    assert OneAhead(s, n) && OneAhead(s, s.store.leader);
    forall k: nat
      ensures CutsAt(s, n, k, fix) <==> MaySync(s, n) && MayPull(r, l, k, fix) && CutAt(s.committed, r, l, k)
      ensures LosesAt(s, n, k, fix) <==> MaySync(s, n) && MayPull(r, l, k, fix) && !(s.committed <= l[..k])
    {
      SyncEnabled(s, n, k, fix);
    }
    forall k: nat { CutExact(s.committed, r, l, k, fix); }
    SharedLog(s.committed, r, l);
    assert CutsAt(s, n, 0, fix) <==> MaySync(s, n) && MayPull(r, l, 0, fix) && CutAt(s.committed, r, l, 0);
    assert LosesAt(s, n, 0, fix) <==> MaySync(s, n) && MayPull(r, l, 0, fix) && !(s.committed <= l[..0]);
  }

  /** The members of the last agreement all stay synced over a step, unless the step is such
      a sync. */
  lemma AgreedStaySynced(s: State, a: Step)
    requires MetaInv(s) && MemberInv(s) && Enabled(s, a) && s.agreed <= s.synced
    ensures Next(s, a).agreed <= Next(s, a).synced <==> forall n :: n in s.agreed ==> !Cuts(s, a, n)
  {
    var t := Next(s, a);
    forall n ensures n in t.agreed <==> n in Members(t.store.isr) && (a.AgreeStep? || n in s.agreed) {
      AgreedStep(s, a, n);
    }
    forall n | n in t.agreed ensures n in t.synced <==> !Cuts(s, a, n) {
      SyncedExact(s, a, n);
    }
  }

  lemma AgreedStep(s: State, a: Step, n: NodeId)
    requires MetaInv(s) && MemberInv(s) && Enabled(s, a) && s.agreed <= s.synced
    ensures n in Next(s, a).agreed <==> n in Members(Next(s, a).store.isr) && (a.AgreeStep? || n in s.agreed)
  {
    assert n in s.agreed ==> n in Members(s.store.isr);
    if IsStoreStep(a) {
      AgreedByStore(s, a, n);
    } else {
      AgreedByRest(s, a);
    }
  }

  lemma AgreedByStore(s: State, a: Step, n: NodeId)
    requires Enabled(s, a) && IsStoreStep(a) && (n in s.agreed ==> n in Members(s.store.isr))
    ensures n in Next(s, a).agreed <==> n in Members(Next(s, a).store.isr) && n in s.agreed
  {}

  lemma AgreedByRest(s: State, a: Step)
    requires Enabled(s, a) && !IsStoreStep(a)
    ensures Next(s, a).store == s.store
    ensures Next(s, a).agreed == if a.AgreeStep? then Members(s.store.isr) else s.agreed
  {
    if IsSessionStep(a) {
      AgreedBySession(s, a);
    }
  }

  lemma AgreedBySession(s: State, a: Step)
    requires Enabled(s, a) && IsSessionStep(a)
    ensures Next(s, a).store == s.store
    ensures Next(s, a).agreed == if a.AgreeStep? then Members(s.store.isr) else s.agreed
  {}

  // ---------------------------------------------------------------- joins that come late

  /** Some election that a synced member answers can be won without the committed log. */
  ghost predicate CanLose(s: State) {
    exists e: Step :: e.ElectStep? && Enabled(s, e) && Benign(s, e) && !(s.committed <= At(s, e.winner).log)
  }

  /** `u` is `s` with `n` in the ISR, every other member being write disabled. */
  ghost predicate Wider(s: State, u: State, n: NodeId) {
    && n !in s.store.isr && s.phase.Quiet? && u.phase.Quiet?
    && AllDisabled(s, Members(s.store.isr)) && At(s, n).disabled
    && Members(u.store.isr) == Members(s.store.isr) + {n} && u.store.leader == s.store.leader
    && u.committed == s.committed && u.synced == s.synced && forall x :: At(u, x) == At(s, x)
  }

  /** Some synced member that can answer an election is not newer than `n`. */
  ghost predicate NotOlder(s: State, n: NodeId) {
    exists r :: r in s.synced && r != s.store.leader && LastId(At(s, r).log) <= LastId(At(s, n).log)
  }

  lemma JoinWidens(s: State, n: NodeId)
    requires WellFormed(s.store) && Enabled(s, JoinStep(n))
    ensures Wider(s, Next(Next(s, JoinStep(n)), AbandonStep), n)
  {
    assert n in Members(s.store.catchup) && n !in Members(s.store.isr);
  }

  lemma JoinerWins(s: State, u: State, n: NodeId)
    requires MemberInv(s) && Wider(s, u, n) && !(s.committed <= At(s, n).log) && NotOlder(s, n)
    ensures CanLose(u)
  {
    var r :| r in s.synced && r != s.store.leader && LastId(At(s, r).log) <= LastId(At(s, n).log);
    var e := ElectStep(n, {r, n}, false);
    assert n != s.store.leader by {
      assert s.store.leader in Members(s.store.isr);
    }
    assert Others(u.store, u.store.leader) == Members(s.store.isr) + {n} - {s.store.leader};
    assert Enabled(u, e) && Benign(u, e);
  }

  /** A winner other than the joined node would have won without it, and is complete. */
  lemma OnlyJoinerLoses(s: State, n: NodeId, u: State, e: Step, r: NodeId)
    requires LogInv(s) && MemberInv(s) && Wider(s, u, n)
    requires e.ElectStep? && Enabled(u, e) && r in e.answers && r in s.synced
    requires !(u.committed <= At(u, e.winner).log)
    ensures e.winner == n && r != s.store.leader
  {
    assert r in Members(s.store.isr);
    if e.winner != n {
      Membership.NewestIsComplete(s, e.winner, e.answers - {n}, e.oldAlive, r);
    }
  }

  /** After a join whose session is given up, an election can lose the committed log if and
      only if the joined node lacks it and is not older than some synced member. */
  lemma LateJoinExact(s: State, n: NodeId)
    requires Inv(s) && Enabled(s, JoinStep(n))
    ensures CanLose(Next(Next(s, JoinStep(n)), AbandonStep)) <==>
            !(s.committed <= At(s, n).log) && NotOlder(s, n)
  {
    var u := Next(Next(s, JoinStep(n)), AbandonStep);
    JoinWidens(s, n);
    if !(s.committed <= At(s, n).log) && NotOlder(s, n) {
      JoinerWins(s, u, n);
    }
    forall e: Step | e.ElectStep? && Enabled(u, e) && Benign(u, e) && !(u.committed <= At(u, e.winner).log)
      ensures !(s.committed <= At(s, n).log) && NotOlder(s, n)
    {
      var r :| r in e.answers && r in u.synced;
      OnlyJoinerLoses(s, n, u, e, r);
    }
  }

  // ---------------------------------------------------------------- a leader enabled with old metadata

  /** `x` takes the next put of `l`, whatever its id. */
  ghost predicate Willing(s: State, l: NodeId, x: NodeId) {
    var r := At(s, x);
    && r.pub.Idle? && r.meta.writeEpoch == At(s, l).meta.writeEpoch && r.meta.leader == l
    && !r.disabled && x in r.meta.isr && End(r.log) == End(At(s, l).log)
  }

  /** By its own metadata the leader to be enabled may write; its ISR misses a stored member, and
      all its other members still write with it. */
  ghost predicate StaleQuorum(s: State) {
    var l, m := s.store.leader, At(s, s.store.leader).meta;
    && IsWriter(s, l, m)
    && !(Members(s.store.isr) <= Members(m.isr))
    && forall x :: x in Others(m, l) ==> Willing(s, l, x)
  }

  /** The steps of the publish of `e` on `l`. */
  ghost predicate OwnStep(a: Step, l: NodeId, e: Entry) {
    match a
    case SendStep(n, _) => n == l
    case DeliverStep(p, _) => p.entry == e
    case RetryStep(n) => n == l
    case CommitStep(n) => n == l
    case FailStep(n) => n == l
    case _ => false
  }

  /** One publish, undisturbed, from its start. */
  ghost predicate PublishRun(states: seq<State>, steps: seq<Step>, l: NodeId, e: Entry) {
    && |states| == |steps| + 1 && |steps| > 0 && steps[0] == PublishStep(l, e)
    && (forall i | 0 <= i < |steps| :: Took(states, steps, i))
    && (forall i | 1 <= i < |steps| :: OwnStep(steps[i], l, e))
  }

  /** The publish was acknowledged, and a synced member does not have its entry. */
  ghost predicate Slipped(u: State, e: Entry) {
    e in u.acked && exists x :: x in u.synced && e !in At(u, x).log
  }

  ghost predicate RunTo(t: State, u: State, l: NodeId, e: Entry) {
    exists states, steps :: PublishRun(states, steps, l, e) && states[0] == t && states[|steps|] == u
  }

  /** The first publish from `t` on can be acknowledged behind a synced member's back. */
  ghost predicate CanSlip(t: State) {
    exists u, e :: RunTo(t, u, t.store.leader, e) && Slipped(u, e)
  }

  // What a state `u` of the publish run has to do with its first state `t`.

  ghost predicate Along(t: State, u: State, l: NodeId, e: Entry) {
    && u.store == t.store && u.synced == t.synced && u.replica == t.replica
    && e.id !in t.born && e.id in u.born && e.id > 0 && e.epoch == At(t, l).meta.writeEpoch
    && e.offset == End(At(t, l).log)
    && IsWriter(t, l, At(t, l).meta) && At(u, l).meta == At(t, l).meta
    && (forall x :: x != l ==> Offered(t, u, l, e, x))
    && (forall p :: p in u.puts && p.entry == e ==> p.leader == l && p.target in Others(At(t, l).meta, l))
    && if At(u, l).pub.Writing?
       then
         && At(u, l).log == At(t, l).log && At(u, l).pub.entry == e && At(u, l).pub.view == At(t, l).meta
         && (forall x :: x in At(u, l).pub.acks ==> x != l && Took1(t, u, l, e, x))
         && u.acked == t.acked
       else
         u.acked == t.acked || AllTook(t, u, l, e)
  }

  /** `x` appended the entry, as it was willing to. */
  ghost predicate Took1(t: State, u: State, l: NodeId, e: Entry, x: NodeId) {
    Willing(t, l, x) && At(u, x) == At(t, x).(log := At(t, x).log + [e])
  }

  ghost predicate Offered(t: State, u: State, l: NodeId, e: Entry, x: NodeId) {
    At(u, x) == At(t, x) || Took1(t, u, l, e, x)
  }

  ghost predicate AllTook(t: State, u: State, l: NodeId, e: Entry) {
    && u.acked == t.acked + {e} && At(u, l).log == At(t, l).log + [e]
    && forall x :: x in Others(At(t, l).meta, l) ==> Took1(t, u, l, e, x)
  }

  /** Nothing in `t` carries the id of a new entry. */
  lemma FreshEverywhere(t: State, e: Entry, x: NodeId)
    requires LogInv(t) && e.id !in t.born && e.id > 0
    ensures LastId(At(t, x).log) != e.id && e !in At(t, x).log
  {
    var l := At(t, x).log;
    assert AllKnown(t, l);
    if |l| > 0 {
      assert Known(t, l[|l| - 1]);
    }
    assert forall i :: 0 <= i < |l| ==> Known(t, l[i]);
  }

  lemma AlongStart(t: State, l: NodeId, e: Entry)
    requires PutInv(t) && Enabled(t, PublishStep(l, e))
    ensures Along(t, Next(t, PublishStep(l, e)), l, e)
  {
    assert forall p :: p in t.puts ==> Known(t, p.entry);
  }

  lemma AlongSend(t: State, u: State, l: NodeId, e: Entry, x: NodeId)
    requires Along(t, u, l, e) && Enabled(u, SendStep(l, x))
    ensures Along(t, Next(u, SendStep(l, x)), l, e)
  {
    var v := Next(u, SendStep(l, x));
    forall y | y != l ensures At(v, y) == At(u, y) && Offered(t, v, l, e, y) {
      assert Offered(t, u, l, e, y);
    }
    forall y | Took1(t, u, l, e, y) ensures Took1(t, v, l, e, y) {}
  }

  lemma AlongEnds(t: State, u: State, l: NodeId, e: Entry, a: Step)
    requires Along(t, u, l, e) && (a == RetryStep(l) || a == FailStep(l)) && Enabled(u, a)
    ensures Along(t, Next(u, a), l, e)
  {
    var v := Next(u, a);
    forall y | y != l ensures Offered(t, v, l, e, y) {
      assert At(v, y) == At(u, y) && Offered(t, u, l, e, y);
    }
  }

  lemma AlongCommit(t: State, u: State, l: NodeId, e: Entry)
    requires Along(t, u, l, e) && Enabled(u, CommitStep(l))
    ensures Along(t, Next(u, CommitStep(l)), l, e)
  {
    var v := Next(u, CommitStep(l));
    forall y | y != l ensures At(v, y) == At(u, y) && Offered(t, v, l, e, y) {
      assert Offered(t, u, l, e, y);
    }
    forall x | x in Others(At(t, l).meta, l) ensures Took1(t, v, l, e, x) {
      assert x in At(u, l).pub.acks && Took1(t, u, l, e, x);
    }
    assert AllTook(t, v, l, e);
  }

  /** A put that is taken was put to a willing member; a repeated one changes nothing. */
  lemma DeliveredWillingly(t: State, u: State, l: NodeId, e: Entry, p: Put)
    requires LogInv(t) && Along(t, u, l, e) && p.entry == e && p in u.puts
    requires Reachable(u, p) && (IsDuplicate(u, p) || CanAppend(u, p))
    ensures p.leader == l && p.target != l
    ensures if IsDuplicate(u, p) then Took1(t, u, l, e, p.target)
            else At(u, p.target) == At(t, p.target) && Willing(t, l, p.target)
  {
    var x := p.target;
    assert Offered(t, u, l, e, x);
    FreshEverywhere(t, e, x);
  }

  lemma AlongLanded(t: State, u: State, l: NodeId, e: Entry, p: Put)
    requires LogInv(t) && Along(t, u, l, e) && p.entry == e && p in u.puts
    requires Reachable(u, p) && (IsDuplicate(u, p) || CanAppend(u, p))
    ensures Along(t, Landed(u, p), l, e) && Took1(t, Landed(u, p), l, e, p.target)
    ensures p.leader == l && p.target != l
  {
    var v, x := Landed(u, p), p.target;
    DeliveredWillingly(t, u, l, e, p);
    assert Took1(t, v, l, e, x);
    forall y | y != l && y != x ensures At(v, y) == At(u, y) && Offered(t, v, l, e, y) {
      assert Offered(t, u, l, e, y);
    }
    forall y | y != l && Took1(t, u, l, e, y) ensures Took1(t, v, l, e, y) {}
  }

  lemma AlongReplied(t: State, u: State, l: NodeId, e: Entry, p: Put)
    requires Along(t, u, l, e) && Counts(u, p) && p.leader == l && p.target != l && Took1(t, u, l, e, p.target)
    ensures Along(t, Replied(u, p), l, e)
  {
    var v := Replied(u, p);
    forall y | y != l ensures At(v, y) == At(u, y) && Offered(t, v, l, e, y) {
      assert Offered(t, u, l, e, y);
    }
    forall y | y != l && Took1(t, u, l, e, y) ensures Took1(t, v, l, e, y) {}
  }

  lemma AlongDeliver(t: State, u: State, l: NodeId, e: Entry, p: Put, reply: bool)
    requires LogInv(t) && Along(t, u, l, e) && p.entry == e && Enabled(u, DeliverStep(p, reply))
    ensures Along(t, Next(u, DeliverStep(p, reply)), l, e)
  {
    AlongLanded(t, u, l, e, p);
    if reply && Counts(Landed(u, p), p) {
      AlongReplied(t, Landed(u, p), l, e, p);
    }
  }

  lemma AlongStep(t: State, u: State, l: NodeId, e: Entry, a: Step)
    requires LogInv(t) && Along(t, u, l, e) && Enabled(u, a) && OwnStep(a, l, e)
    ensures Along(t, Next(u, a), l, e)
  {
    match a
    case SendStep(_, x) => AlongSend(t, u, l, e, x);
    case DeliverStep(p, reply) => AlongDeliver(t, u, l, e, p, reply);
    case RetryStep(_) => AlongEnds(t, u, l, e, a);
    case CommitStep(_) => AlongCommit(t, u, l, e);
    case FailStep(_) => AlongEnds(t, u, l, e, a);
  }

  lemma {:induction false} AlongRun(states: seq<State>, steps: seq<Step>, l: NodeId, e: Entry, i: nat)
    requires PublishRun(states, steps, l, e) && 1 <= i <= |steps|
    requires LogInv(states[0]) && PutInv(states[0])
    ensures Along(states[0], states[i], l, e)
  {
    assert Took(states, steps, i - 1);
    if i == 1 {
      AlongStart(states[0], l, e);
    } else {
      AlongRun(states, steps, l, e, i - 1);
      AlongStep(states[0], states[i - 1], l, e, steps[i - 1]);
    }
  }

  lemma AlongTo(t: State, u: State, l: NodeId, e: Entry)
    requires RunTo(t, u, l, e) && LogInv(t) && PutInv(t)
    ensures Along(t, u, l, e)
  {
    var states, steps :| PublishRun(states, steps, l, e) && states[0] == t && states[|steps|] == u;
    AlongRun(states, steps, l, e, |steps|);
  }

  lemma TookHas(t: State, u: State, l: NodeId, e: Entry, x: NodeId)
    requires Took1(t, u, l, e, x)
    ensures e in At(u, x).log
  {
    assert At(u, x).log[|At(t, x).log|] == e;
  }

  /** An acknowledged publish of the run that a synced member lacks had a stale quorum. */
  lemma SlippedNeedsQuorum(t: State, u: State, e: Entry)
    requires Along(t, u, t.store.leader, e) && Slipped(u, e) && e !in t.acked
    requires t.synced <= Members(t.store.isr)
    ensures StaleQuorum(t)
  {
    var l := t.store.leader;
    assert AllTook(t, u, l, e);
    assert At(u, l).log[|At(t, l).log|] == e;
    forall y | y in Others(At(t, l).meta, l) ensures Took1(t, u, l, e, y) && e in At(u, y).log {
      TookHas(t, u, l, e, y);
    }
    var x :| x in u.synced && e !in At(u, x).log;
    assert x in Members(t.store.isr) && x !in Members(At(t, l).meta.isr);
  }

  // ---------------------------------------------------------------- the publish a stale quorum allows

  /** Some number is above every id used so far. */
  lemma {:induction false} Above(ids: set<nat>) returns (k: nat)
    ensures k > 0 && forall i :: i in ids ==> i < k
  {
    k := 1;
    if ids != {} {
      var i :| i in ids;
      var rest := ids - {i};
      k := Above(rest);
      assert forall j :: j in ids ==> j == i || j in rest;
      k := if i < k then k else i + 1;
    }
  }

  /** The publish of `e` was put to the members in `done`, and all of them answered. */
  ghost predicate Halfway(t: State, u: State, l: NodeId, e: Entry, done: set<NodeId>) {
    && u.store == t.store && u.synced == t.synced && u.replica == t.replica
    && At(u, l) == At(t, l).(pub := Writing(e, At(t, l).meta, done))
    && forall x :: x != l ==>
         At(u, x) == if x in done then At(t, x).(log := At(t, x).log + [e]) else At(t, x)
  }

  lemma RunOn(t: State, u: State, l: NodeId, e: Entry, a: Step) returns (v: State)
    requires RunTo(t, u, l, e) && Enabled(u, a) && OwnStep(a, l, e)
    ensures v == Next(u, a) && RunTo(t, v, l, e)
  {
    v := Next(u, a);
    var states, steps :| PublishRun(states, steps, l, e) && states[0] == t && states[|steps|] == u;
    var states', steps' := states + [v], steps + [a];
    forall i | 0 <= i < |steps'| ensures Took(states', steps', i) {
      if i < |steps| {
        assert Took(states, steps, i);
      }
    }
    assert PublishRun(states', steps', l, e);
  }

  /** `x` is going to take the put of `e`. */
  ghost predicate Takes(t: State, l: NodeId, e: Entry, x: NodeId) {
    && Willing(t, l, x) && x in Others(At(t, l).meta, l) && e.id > LastId(At(t, x).log)
    && e.epoch == At(t, l).meta.writeEpoch && e.offset == End(At(t, l).log)
  }

  /** One more member takes the put and answers. */
  lemma OneMore(t: State, u: State, l: NodeId, e: Entry, done: set<NodeId>, x: NodeId) returns (v: State)
    requires RunTo(t, u, l, e) && Halfway(t, u, l, e, done) && x !in done && Takes(t, l, e, x)
    ensures RunTo(t, v, l, e) && Halfway(t, v, l, e, done + {x})
  {
    var p := Put(e, l, x);
    v := RunOn(t, u, l, e, SendStep(l, x));
    assert p in v.puts && !IsDuplicate(v, p);
    v := RunOn(t, v, l, e, DeliverStep(p, true));
  }

  lemma {:induction false} AllAnswer(t: State, u: State, l: NodeId, e: Entry, done: set<NodeId>, rest: set<NodeId>)
    returns (v: State)
    requires RunTo(t, u, l, e) && Halfway(t, u, l, e, done) && done !! rest
    requires forall x :: x in rest ==> Takes(t, l, e, x)
    ensures RunTo(t, v, l, e) && Halfway(t, v, l, e, done + rest)
    decreases rest
  {
    v := u;
    if rest == {} {
      assert done + rest == done;
    } else {
      var x :| x in rest;
      v := OneMore(t, u, l, e, done, x);
      assert done + {x} + (rest - {x}) == done + rest;
      v := AllAnswer(t, v, l, e, done + {x}, rest - {x});
    }
  }

  lemma BelowFresh(t: State, k: nat, x: NodeId)
    requires LogInv(t) && k > 0 && forall i :: i in t.born.Keys ==> i < k
    ensures LastId(At(t, x).log) < k
  {
    var l := At(t, x).log;
    assert AllKnown(t, l);
    if |l| > 0 {
      assert Known(t, l[|l| - 1]);
    }
  }

  /** With a stale quorum the publish goes through. */
  lemma QuorumSlips(t: State)
    requires LogInv(t) && StaleQuorum(t) && Members(t.store.isr) <= t.synced
    requires !At(t, t.store.leader).disabled && At(t, t.store.leader).pub.Idle?
    ensures CanSlip(t)
  {
    var l, m := t.store.leader, At(t, t.store.leader).meta;
    var k := Above(t.born.Keys);
    var e := Entry(k, m.writeEpoch, End(At(t, l).log), 1);
    forall x ensures LastId(At(t, x).log) < k { BelowFresh(t, k, x); }
    var u := Next(t, PublishStep(l, e));
    var states, steps := [t, u], [PublishStep(l, e)];
    assert Took(states, steps, 0);
    assert PublishRun(states, steps, l, e);
    forall x | x in Others(m, l) ensures Takes(t, l, e, x) {}
    u := AllAnswer(t, u, l, e, {}, Others(m, l));
    assert {} + Others(m, l) == Others(m, l);
    QuorumCommits(t, u, e);
  }

  lemma QuorumCommits(t: State, u: State, e: Entry)
    requires LogInv(t) && StaleQuorum(t) && Members(t.store.isr) <= t.synced && e.id !in t.born && e.id > 0
    requires RunTo(t, u, t.store.leader, e)
    requires Halfway(t, u, t.store.leader, e, Others(At(t, t.store.leader).meta, t.store.leader))
    ensures CanSlip(t)
  {
    var l, m := t.store.leader, At(t, t.store.leader).meta;
    var v := RunOn(t, u, l, e, CommitStep(l));
    var x :| x in Members(t.store.isr) && x !in Members(m.isr);
    FreshEverywhere(t, e, x);
    assert At(v, x) == At(t, x);
    assert Slipped(v, e);
  }

  /** The leader that gets enabled in a reachable state can have its next publish acknowledged
      without some synced member holding the entry, if and only if it may write by its own
      metadata, its ISR misses a stored member and each other member of its ISR is still at its
      write epoch, has writes enabled and its log ends where the leader's does. */
  lemma StaleLeaderExact(s: State)
    requires Inv(s) && Enabled(s, EnableLeaderStep)
    ensures CanSlip(Next(s, EnableLeaderStep)) <==> StaleQuorum(s)
  {
    var t := Next(s, EnableLeaderStep);
    LeaderOpened(s);
    SlipExact(t);
    QuorumSame(s, t, s.store.leader);
  }

  /** The state right after a leader was enabled. */
  ghost predicate JustOpened(t: State) {
    && LogInv(t) && PutInv(t) && t.synced == Members(t.store.isr) && (forall e :: e in t.acked ==> Known(t, e))
    && !At(t, t.store.leader).disabled && At(t, t.store.leader).pub.Idle?
  }

  lemma LeaderOpened(s: State)
    requires Inv(s) && Enabled(s, EnableLeaderStep)
    ensures Steps.Opened(s, Next(s, EnableLeaderStep), s.store.leader)
    ensures JustOpened(Next(s, EnableLeaderStep))
  {
    var t, l := Next(s, EnableLeaderStep), s.store.leader;
    Steps.OpenedRest(s, t, l);
    assert At(s, l).pub.Writing? ==> ViewOk(s, l);
    forall e | e in t.acked ensures Known(t, e) {
      AckedKnown(s, e);
    }
  }

  lemma QuorumSame(s: State, t: State, l: NodeId)
    requires Steps.Opened(s, t, l) && l == s.store.leader
    ensures StaleQuorum(s) <==> StaleQuorum(t)
  {
    assert forall x :: x != l ==> (Willing(s, l, x) <==> Willing(t, l, x));
  }

  lemma SlipExact(t: State)
    requires JustOpened(t)
    ensures CanSlip(t) <==> StaleQuorum(t)
  {
    var l := t.store.leader;
    if StaleQuorum(t) {
      QuorumSlips(t);
    }
    if CanSlip(t) {
      var u, e :| RunTo(t, u, l, e) && Slipped(u, e);
      AlongTo(t, u, l, e);
      SlippedNeedsQuorum(t, u, e);
    }
  }

  lemma AckedKnown(s: State, e: Entry)
    requires Inv(s)
    ensures e in s.acked ==> Known(s, e)
  {
    if e in s.acked {
      var k :| 0 <= k < |s.committed| && s.committed[k] == e;
      assert AllKnown(s, s.committed);
    }
  }

  // ---------------------------------------------------------------- and whatever else happens

  /** What stays true of the write epoch `w` once the stored one is past it: nobody comes back
      to it, and only members that were at it can answer a publish of `l` in it. */
  ghost predicate Past(t: State, u: State, l: NodeId, w: nat) {
    && u.store.writeEpoch > w
    && (forall x :: At(u, x).meta.writeEpoch == w ==> At(t, x).meta == At(u, x).meta)
    && (At(u, l).pub.Writing? && At(u, l).pub.entry.epoch == w ==>
          && At(u, l).pub.view == At(t, l).meta
          && forall x :: x in At(u, l).pub.acks ==> At(t, x).meta.writeEpoch == w)
  }

  lemma PastAdopt(t: State, u: State, l: NodeId, w: nat, n: NodeId, ask: bool)
    requires Past(t, u, l, w) && Enabled(u, AdoptStep(n, ask))
    ensures Past(t, Next(u, AdoptStep(n, ask)), l, w)
  {
    var v := Next(u, AdoptStep(n, ask));
    assert At(v, n).meta == At(u, n).meta || At(v, n).meta == u.store;
    assert forall x :: x != n ==> At(v, x) == At(u, x);
  }

  lemma PastDeliver(t: State, u: State, l: NodeId, w: nat, p: Put, reply: bool)
    requires Past(t, u, l, w) && Enabled(u, DeliverStep(p, reply))
    ensures Past(t, Next(u, DeliverStep(p, reply)), l, w)
  {
    var v := Next(u, DeliverStep(p, reply));
    assert forall x :: At(v, x).meta == At(u, x).meta;
  }

  /** Metadata and publishes stay as they are, and the stored write epoch does not fall. */
  lemma PastFrame(t: State, u: State, v: State, l: NodeId, w: nat)
    requires Past(t, u, l, w) && v.store.writeEpoch >= u.store.writeEpoch
    requires forall x :: At(v, x).meta == At(u, x).meta && At(v, x).pub == At(u, x).pub
    ensures Past(t, v, l, w)
  {}

  lemma StoreFrame(u: State, a: Step)
    requires Enabled(u, a) && IsStoreStep(a)
    ensures Next(u, a).nodes == u.nodes && Next(u, a).store.writeEpoch >= u.store.writeEpoch
  {}

  lemma SessionFrame(u: State, a: Step, x: NodeId)
    requires Enabled(u, a) && IsSessionStep(a)
    ensures Next(u, a).store == u.store
    ensures At(Next(u, a), x).meta == At(u, x).meta && At(Next(u, a), x).pub == At(u, x).pub
  {}

  lemma PastStore(t: State, u: State, l: NodeId, w: nat, a: Step)
    requires Past(t, u, l, w) && Enabled(u, a) && (IsStoreStep(a) || IsSessionStep(a))
    ensures Past(t, Next(u, a), l, w)
  {
    var v := Next(u, a);
    if IsStoreStep(a) {
      StoreFrame(u, a);
    } else {
      SessionFrame(u, a, l);
      forall x ensures At(v, x).meta == At(u, x).meta && At(v, x).pub == At(u, x).pub {
        SessionFrame(u, a, x);
      }
    }
    PastFrame(t, u, v, l, w);
  }

  lemma PastRest(t: State, u: State, l: NodeId, w: nat, a: Step)
    requires Past(t, u, l, w) && Enabled(u, a) && !IsStoreStep(a) && !IsSessionStep(a)
    requires !a.AdoptStep? && !a.DeliverStep?
    ensures Past(t, Next(u, a), l, w)
  {
    var v := Next(u, a);
    assert v.store == u.store;
    assert forall x :: At(v, x).meta == At(u, x).meta;
  }

  lemma PastStep(t: State, u: State, l: NodeId, w: nat, a: Step)
    requires Past(t, u, l, w) && Enabled(u, a)
    ensures Past(t, Next(u, a), l, w)
  {
    if IsStoreStep(a) || IsSessionStep(a) {
      PastStore(t, u, l, w, a);
    } else if a.AdoptStep? {
      PastAdopt(t, u, l, w, a.node, a.ask);
    } else if a.DeliverStep? {
      PastDeliver(t, u, l, w, a.put, a.reply);
    } else {
      PastRest(t, u, l, w, a);
    }
  }

  lemma {:induction false} PastRun(states: seq<State>, steps: seq<Step>, l: NodeId, w: nat, i: nat)
    requires |states| == |steps| + 1 && i <= |steps|
    requires forall k | 0 <= k < |steps| :: Took(states, steps, k)
    requires Past(states[0], states[0], l, w)
    ensures Past(states[0], states[i], l, w)
  {
    if i > 0 {
      PastRun(states, steps, l, w, i - 1);
      assert Took(states, steps, i - 1);
      PastStep(states[0], states[i - 1], l, w, steps[i - 1]);
    }
  }

  /** However the run goes on after a leader with old metadata is enabled, it commits nothing in
      its old write epoch unless each other member of its old ISR held that epoch then. */
  lemma StaleCommitNeedsEpochs(s: State, states: seq<State>, steps: seq<Step>, i: nat, x: NodeId)
    requires Inv(s) && Enabled(s, EnableLeaderStep)
    requires |states| == |steps| + 1 && states[0] == Next(s, EnableLeaderStep)
    requires forall k | 0 <= k < |steps| :: Took(states, steps, k)
    requires i < |steps| && steps[i] == CommitStep(s.store.leader)
    requires var m := At(s, s.store.leader).meta;
             && m.writeEpoch < s.store.writeEpoch && x in Others(m, s.store.leader)
             && At(states[i], s.store.leader).pub.Writing?
             && At(states[i], s.store.leader).pub.entry.epoch == m.writeEpoch
    ensures At(s, x).meta.writeEpoch == At(s, s.store.leader).meta.writeEpoch
  {
    var l := s.store.leader;
    assert At(s, l).pub.Writing? ==> ViewOk(s, l);
    assert At(states[0], l).pub.Idle? && At(states[0], l).meta == At(s, l).meta;
    PastRun(states, steps, l, At(s, l).meta.writeEpoch, i);
    assert Took(states, steps, i);
  }
}
