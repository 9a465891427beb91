/** Why each proviso of a benign run is there: without it an acknowledged entry is lost. */
module ReplicationLimits {
  import opened Metadata
  import opened Replication

  /** Which proviso a run may ignore. */
  datatype Slack = Strict | AnyJoin | AnyLeader

  /** `s` is the end of a run whose steps are benign, apart from those the slack excuses. */
  ghost predicate Reaches(s: State, lax: Slack) {
    exists states, steps :: EndsIn(states, steps, s, lax)
  }

  ghost predicate EndsIn(states: seq<State>, steps: seq<Step>, s: State, lax: Slack) {
    && IsRun(states, steps) && states[|steps|] == s
    && forall i | 0 <= i < |steps| && Took(states, steps, i) :: Fine(states[i], steps[i], lax)
  }

  ghost predicate Fine(s: State, a: Step, lax: Slack) {
    Benign(s, a) || (lax.AnyJoin? && a.JoinStep?) || (lax.AnyLeader? && a.EnableLeaderStep?)
  }

  lemma OneLonger(states: seq<State>, steps: seq<Step>, t: State, a: Step, i: nat)
    requires |states| == |steps| + 1 && i < |steps| && Took(states, steps, i)
    ensures Took(states + [t], steps + [a], i)
  {}

  lemma LastTaken(states: seq<State>, steps: seq<Step>, t: State, a: Step)
    requires |states| == |steps| + 1 && Enabled(states[|steps|], a) && t == Next(states[|steps|], a)
    ensures Took(states + [t], steps + [a], |steps|)
  {}

  lemma RunLonger(states: seq<State>, steps: seq<Step>, t: State, a: Step)
    requires IsRun(states, steps) && Enabled(states[|steps|], a) && t == Next(states[|steps|], a)
    ensures IsRun(states + [t], steps + [a])
  {
    LastTaken(states, steps, t, a);
    forall i | 0 <= i < |steps| ensures Took(states + [t], steps + [a], i) {
      OneLonger(states, steps, t, a, i);
    }
  }

  lemma FineLonger(states: seq<State>, steps: seq<Step>, s: State, t: State, a: Step, lax: Slack)
    requires EndsIn(states, steps, s, lax) && Fine(s, a, lax) && IsRun(states + [t], steps + [a])
    ensures EndsIn(states + [t], steps + [a], t, lax)
  {
    var states', steps' := states + [t], steps + [a];
    forall i | 0 <= i < |steps'| && Took(states', steps', i) ensures Fine(states'[i], steps'[i], lax) {
      assert i < |steps| ==> Took(states, steps, i);
    }
  }

  lemma Go(s: State, a: Step, lax: Slack) returns (t: State)
    requires Reaches(s, lax) && Enabled(s, a) && Fine(s, a, lax)
    ensures t == Next(s, a) && Reaches(t, lax)
  {
    t := Next(s, a);
    var states, steps :| EndsIn(states, steps, s, lax);
    RunLonger(states, steps, t, a);
    FineLonger(states, steps, s, t, a, lax);
  }

  // ---------------------------------------------------------------- three nodes

  /** Where a run of the nodes a, b and c is, as far as its next steps depend on it. */
  datatype Stage = Stage(
    store: Meta, ra: Replica, rb: Replica, rc: Replica, phase: Phase,
    acked: set<Entry>, committed: seq<Entry>, agreed: set<NodeId>, synced: set<NodeId>, used: set<nat>)

  ghost predicate Is(s: State, a: NodeId, b: NodeId, c: NodeId, g: Stage) {
    && a != b && a != c && b != c && s.replica == 2
    && s.store == g.store && s.phase == g.phase && s.acked == g.acked && s.committed == g.committed
    && s.agreed == g.agreed && s.synced == g.synced && s.born.Keys == g.used
    && At(s, a) == g.ra && At(s, b) == g.rb && At(s, c) == g.rc
  }

  /** Replicas 2, ISR [a, b], and c catching up. */
  function First(a: NodeId, b: NodeId, c: NodeId): (m: Meta) { Meta(a, [a, b], [c], 1, 1) }

  /** A node that took metadata `m`, with log `l`. */
  function Off(m: Meta, l: seq<Entry>): (r: Replica) { Replica(m, true, l, Idle) }

  function On(m: Meta, l: seq<Entry>): (r: Replica) { Replica(m, false, l, Idle) }

  /** All three nodes took the first metadata, nothing is written. */
  function Told(a: NodeId, b: NodeId, c: NodeId): (g: Stage) {
    var m := First(a, b, c);
    Stage(m, Off(m, []), Off(m, []), Off(m, []), Quiet, {}, [], {a, b}, {a, b}, {})
  }

  lemma ToldReached(a: NodeId, b: NodeId, c: NodeId, lax: Slack) returns (s: State)
    requires a != b && a != c && b != c
    ensures Reaches(s, lax) && Is(s, a, b, c, Told(a, b, c))
  {
    var m := First(a, b, c);
    s := State(2, m, map[], {}, Quiet, {}, [], {a, b}, {a, b}, map[], map[1 := a]);
    assert Members(m.isr) == {a, b} && Init(s);
    assert EndsIn([s], [], s, lax);
    s := AllTook(s, a, b, c, Told(a, b, c).(ra := FRESH, rb := FRESH, rc := FRESH), lax);
  }

  /** An idle, write disabled node with metadata of an earlier write epoch. */
  predicate Outdated(r: Replica, m: Meta) {
    r.disabled && r.pub.Idle? && r.meta.writeEpoch < m.writeEpoch && r.meta.epoch < m.epoch
  }

  lemma OneTook(s: State, n: NodeId, lax: Slack) returns (t: State)
    requires Reaches(s, lax) && Outdated(At(s, n), s.store)
    ensures Reaches(t, lax) && t == WithReplica(s, n, At(s, n).(meta := s.store))
  {
    assert Adopted(n, At(s, n).meta, true, false, s.store) == (s.store, true);
    t := Go(s, AdoptStep(n, false), lax);
  }

  /** All three nodes take the stored metadata. */
  lemma AllTook(s: State, a: NodeId, b: NodeId, c: NodeId, g: Stage, lax: Slack) returns (t: State)
    requires Reaches(s, lax) && Is(s, a, b, c, g)
    requires Outdated(g.ra, g.store) && Outdated(g.rb, g.store) && Outdated(g.rc, g.store)
    ensures Reaches(t, lax)
    ensures Is(t, a, b, c, g.(ra := g.ra.(meta := g.store), rb := g.rb.(meta := g.store),
                              rc := g.rc.(meta := g.store)))
  {
    t := OneTook(s, a, lax);
    t := OneTook(t, b, lax);
    t := OneTook(t, c, lax);
  }

  /** A session in which a leads b, both with the stored metadata and equal logs, agrees. */
  lemma Agreed(s: State, a: NodeId, b: NodeId, c: NodeId, g: Stage, lax: Slack) returns (t: State)
    requires Reaches(s, lax) && Is(s, a, b, c, g) && !g.phase.Enabling?
    requires g.store.leader == a && g.store.isr == [a, b] && g.ra == Off(g.store, g.ra.log) && g.rb == g.ra
    ensures Reaches(t, lax)
    ensures Is(t, a, b, c, g.(phase := Enabling({a, b}), committed := g.ra.log, agreed := {a, b}, synced := {a, b}))
  {
    assert Members(g.store.isr) == {a, b};
    t := Go(s, RevokeStep, lax);
    t := Go(t, ReportStep(b), lax);
    t := Go(t, AgreeStep, lax);
  }

  lemma BothEnabled(s: State, a: NodeId, b: NodeId, c: NodeId, g: Stage, lax: Slack) returns (t: State)
    requires Reaches(s, lax) && Is(s, a, b, c, g) && g.phase == Enabling({a, b}) && g.store.leader == a
    requires g.ra.meta == g.store
    ensures Reaches(t, lax)
    ensures Is(t, a, b, c, g.(ra := g.ra.(disabled := false), rb := g.rb.(disabled := false), phase := Quiet))
  {
    t := MemberEnabled(s, a, b, c, g, lax);
    t := Go(t, EnableLeaderStep, lax);
  }

  lemma MemberEnabled(s: State, a: NodeId, b: NodeId, c: NodeId, g: Stage, lax: Slack) returns (t: State)
    requires Reaches(s, lax) && Is(s, a, b, c, g) && g.phase == Enabling({a, b}) && g.store.leader == a
    ensures Reaches(t, lax)
    ensures Is(t, a, b, c, g.(rb := g.rb.(disabled := false), phase := Enabling({a})))
  {
    t := Go(s, EnableStep(b), lax);
    assert {a, b} - {b} == {a};
  }

  /** A whole session of a and b. */
  lemma Resumed(s: State, a: NodeId, b: NodeId, c: NodeId, g: Stage, lax: Slack) returns (t: State)
    requires Reaches(s, lax) && Is(s, a, b, c, g) && !g.phase.Enabling?
    requires g.store.leader == a && g.store.isr == [a, b] && g.ra == Off(g.store, g.ra.log) && g.rb == g.ra
    ensures Reaches(t, lax)
    ensures Is(t, a, b, c, g.(ra := On(g.store, g.ra.log), rb := On(g.store, g.ra.log), phase := Quiet,
                              committed := g.ra.log, agreed := {a, b}, synced := {a, b}))
  {
    t := Agreed(s, a, b, c, g, lax);
    var g' := g.(phase := Enabling({a, b}), committed := g.ra.log, agreed := {a, b}, synced := {a, b});
    t := BothEnabled(t, a, b, c, g', lax);
  }

  lemma Disabled(s: State, a: NodeId, b: NodeId, c: NodeId, g: Stage, lax: Slack) returns (t: State)
    requires Reaches(s, lax) && Is(s, a, b, c, g) && g.ra.pub.Idle? && g.rb.pub.Idle?
    ensures Reaches(t, lax)
    ensures Is(t, a, b, c, g.(ra := g.ra.(disabled := true), rb := g.rb.(disabled := true)))
  {
    t := Go(s, DisableStep(a), lax);
    t := Go(t, DisableStep(b), lax);
  }

  // ---------------------------------------------------------------- one publish from a to b

  /** `e` is the next entry on `a`, which leads `b` with metadata `m`; both hold log `l`. */
  ghost predicate Fits(s: State, a: NodeId, b: NodeId, m: Meta, l: seq<Entry>, e: Entry) {
    && a != b && m.leader == a && m.isr == [a, b] && s.replica == 2
    && At(s, a) == On(m, l) && At(s, b) == On(m, l)
    && e.id !in s.born && e.id > LastId(l) && e.size > 0 && e.offset == End(l) && e.epoch == m.writeEpoch
  }

  lemma Sent(s: State, a: NodeId, b: NodeId, c: NodeId, g: Stage, e: Entry, lax: Slack) returns (t: State)
    requires Reaches(s, lax) && Is(s, a, b, c, g) && Fits(s, a, b, g.ra.meta, g.ra.log, e)
    ensures Reaches(t, lax) && Put(e, a, b) in t.puts
    ensures Is(t, a, b, c, g.(ra := g.ra.(pub := Writing(e, g.ra.meta, {})), used := g.used + {e.id}))
  {
    t := Go(s, PublishStep(a, e), lax);
    assert t.born.Keys == g.used + {e.id};
    assert b in Others(g.ra.meta, a);
    t := Go(t, SendStep(a, b), lax);
  }

  /** The publish has reached `b`, and `a` knows if `reply`. */
  lemma Offered(s: State, a: NodeId, b: NodeId, c: NodeId, g: Stage, e: Entry, reply: bool, lax: Slack)
    returns (t: State)
    requires Reaches(s, lax) && Is(s, a, b, c, g) && Fits(s, a, b, g.ra.meta, g.ra.log, e)
    ensures Reaches(t, lax)
    ensures Is(t, a, b, c, g.(ra := g.ra.(pub := Writing(e, g.ra.meta, if reply then {b} else {})),
                              rb := g.rb.(log := g.rb.log + [e]), used := g.used + {e.id}))
  {
    t := Sent(s, a, b, c, g, e, lax);
    assert !IsDuplicate(t, Put(e, a, b));
    t := Go(t, DeliverStep(Put(e, a, b), reply), lax);
    assert {} + {b} == {b};
  }

  lemma Committed(s: State, a: NodeId, b: NodeId, c: NodeId, g: Stage, e: Entry, lax: Slack) returns (t: State)
    requires Reaches(s, lax) && Is(s, a, b, c, g) && Fits(s, a, b, g.ra.meta, g.ra.log, e) && g.committed == g.ra.log
    ensures Reaches(t, lax)
    ensures Is(t, a, b, c, g.(ra := On(g.ra.meta, g.ra.log + [e]), rb := On(g.ra.meta, g.ra.log + [e]),
                              acked := g.acked + {e}, committed := g.ra.log + [e], used := g.used + {e.id}))
  {
    t := Offered(s, a, b, c, g, e, true, lax);
    assert Others(g.ra.meta, a) == {b};
    t := Go(t, CommitStep(a), lax);
  }

  /** The entry is on `b` when `a` gives up. */
  lemma Stranded(s: State, a: NodeId, b: NodeId, c: NodeId, g: Stage, e: Entry, lax: Slack) returns (t: State)
    requires Reaches(s, lax) && Is(s, a, b, c, g) && Fits(s, a, b, g.ra.meta, g.ra.log, e)
    ensures Reaches(t, lax)
    ensures Is(t, a, b, c, g.(ra := Off(g.ra.meta, g.ra.log), rb := Off(g.ra.meta, g.ra.log + [e]),
                              used := g.used + {e.id}))
  {
    t := Offered(s, a, b, c, g, e, false, lax);
    t := Go(t, FailStep(a), lax);
    t := Go(t, DisableStep(b), lax);
  }

  // ---------------------------------------------------------------- elections

  const ONE := Entry(1, 1, 0, 1)
  const TWO := Entry(2, 1, 1, 1)

  /** a and b are enabled and hold what a published, as `log`. */
  function Running(a: NodeId, b: NodeId, c: NodeId, log: seq<Entry>, used: set<nat>): (g: Stage) {
    var m := First(a, b, c);
    Told(a, b, c).(ra := On(m, log), rb := On(m, log), acked := (set e | e in log), committed := log, used := used)
  }

  lemma RunningReached(a: NodeId, b: NodeId, c: NodeId, lax: Slack) returns (s: State)
    requires a != b && a != c && b != c
    ensures Reaches(s, lax) && Is(s, a, b, c, Running(a, b, c, [], {}))
  {
    s := ToldReached(a, b, c, lax);
    s := Resumed(s, a, b, c, Told(a, b, c), lax);
  }

  lemma OneReached(a: NodeId, b: NodeId, c: NodeId, lax: Slack) returns (s: State)
    requires a != b && a != c && b != c
    ensures Reaches(s, lax) && Is(s, a, b, c, Running(a, b, c, [ONE], {1}))
  {
    s := RunningReached(a, b, c, lax);
    s := Committed(s, a, b, c, Running(a, b, c, [], {}), ONE, lax);
    assert [] + [ONE] == [ONE] && {} + {ONE} == {ONE} && {} + {1} == {1};
  }

  /** An election must be answered by a member that is synced: c joined, the session was given
      up, and c alone answers the next election. It wins with an empty log. */
  lemma ElectionNeedsSynced(a: NodeId, b: NodeId, c: NodeId) returns (s: State, elect: Step)
    requires a != b && a != c && b != c
    ensures Reaches(s, Strict) && elect.ElectStep? && Enabled(s, elect)
    ensures ONE in s.acked && ONE !in At(Next(s, elect), Next(s, elect).store.leader).log
  {
    s := OneReached(a, b, c, Strict);
    s := Disabled(s, a, b, c, Running(a, b, c, [ONE], {1}), Strict);
    assert Members(s.store.isr) == {a, b};
    s := Go(s, JoinStep(c), Strict);
    s := Go(s, AbandonStep, Strict);
    assert s.store.isr == [a, b, c];
    elect := ElectStep(c, {c}, false);
    assert Others(s.store, a) == {b, c};
  }

  /** b holds one entry more than was acknowledged, and both members are write disabled. */
  lemma AheadReached(a: NodeId, b: NodeId, c: NodeId) returns (s: State)
    requires a != b && a != c && b != c
    ensures
      var m := First(a, b, c);
      Reaches(s, Strict) &&
      Is(s, a, b, c, Running(a, b, c, [ONE], {1, 2}).(ra := Off(m, [ONE]), rb := Off(m, [ONE, TWO])))
  {
    s := OneReached(a, b, c, Strict);
    s := Stranded(s, a, b, c, Running(a, b, c, [ONE], {1}), TWO, Strict);
    assert [ONE] + [TWO] == [ONE, TWO] && {1} + {2} == {1, 2};
  }

  /** Having agreed is not enough: b took part in the last agreement and never left the ISR,
      but the session sync emptied its log before it was given up. It wins with nothing. */
  lemma AgreedNotEnough(a: NodeId, b: NodeId, c: NodeId) returns (s: State, elect: Step)
    requires a != b && a != c && b != c
    ensures Reaches(s, Strict) && elect.ElectStep? && Enabled(s, elect)
    ensures b in s.agreed && b in elect.answers
    ensures ONE in s.acked && ONE !in At(Next(s, elect), Next(s, elect).store.leader).log
  {
    s := AheadReached(a, b, c);
    assert Members(s.store.isr) == {a, b};
    s := Go(s, RevokeStep, Strict);
    assert [ONE][..0] == [];
    s := Go(s, SyncStep(b, 0, false), Strict);
    s := Go(s, AbandonStep, Strict);
    elect := ElectStep(b, {b}, false);
    assert Others(s.store, a) == {b};
  }

  // ---------------------------------------------------------------- a join request that comes late

  const LATE := Entry(5, 1, 0, 1)
  const NEW := Entry(3, 3, 0, 1)

  function Second(a: NodeId, b: NodeId, c: NodeId): (m: Meta) { Meta(b, [b, a], [c], 2, 2) }

  function Third(a: NodeId, b: NodeId, c: NodeId): (m: Meta) { Meta(a, [a, b], [c], 3, 3) }

  lemma WithoutHead(x: NodeId, y: NodeId)
    requires x != y
    ensures Without([x, y], x) == [y]
  {
    assert [x, y][1..] == [y];
    WithoutOther(y, x);
  }

  lemma WithoutOther(y: NodeId, x: NodeId)
    requires x != y
    ensures Without([y], x) == [y]
  {
    assert [y][1..] == [];
    assert Without([y], x) == [y] + Without([], x);
  }

  lemma ElectMetas(a: NodeId, b: NodeId, c: NodeId)
    requires a != b && a != c && b != c
    ensures ElectMeta(First(a, b, c), b, true, 2) == Second(a, b, c)
    ensures ElectMeta(Second(a, b, c), a, true, 3) == Third(a, b, c)
  {
    WithoutHead(a, b);
    WithoutHead(b, a);
    WithoutOther(c, a);
    WithoutOther(c, b);
  }

  /** The only other member of a two-node ISR wins an election, the old leader staying in it. */
  lemma Won(s: State, w: NodeId, lax: Slack) returns (t: State)
    requires Reaches(s, lax) && s.phase.Quiet? && At(s, w).disabled && w in s.synced
    requires Others(s.store, s.store.leader) == {w}
    ensures Reaches(t, lax)
    ensures
      var m := ElectMeta(s.store, w, true, s.store.epoch + 1);
      t == s.(store := m, leaderOf := t.leaderOf, agreed := s.agreed * Members(m.isr),
              synced := s.synced * Members(m.isr) + {w})
  {
    t := Go(s, ElectStep(w, {w}, true), lax);
  }

  /** b was elected with an entry nobody acknowledged, and c pulled it. */
  function Straying(a: NodeId, b: NodeId, c: NodeId): (g: Stage) {
    var m := First(a, b, c);
    Told(a, b, c).(store := Second(a, b, c), rb := Off(m, [LATE]), rc := Off(Second(a, b, c), [LATE]), used := {5})
  }

  lemma TurnedReached(a: NodeId, b: NodeId, c: NodeId) returns (s: State)
    requires a != b && a != c && b != c
    ensures Reaches(s, AnyJoin) && Is(s, a, b, c, Straying(a, b, c).(rc := Off(First(a, b, c), [])))
  {
    s := RunningReached(a, b, c, AnyJoin);
    s := Stranded(s, a, b, c, Running(a, b, c, [], {}), LATE, AnyJoin);
    assert [] + [LATE] == [LATE] && {} + {5} == {5};
    ElectMetas(a, b, c);
    assert Others(s.store, a) == {b};
    s := Won(s, b, AnyJoin);
    assert Members(s.store.isr) == {a, b} && {a, b} * {a, b} + {b} == {a, b};
  }

  lemma StrayingReached(a: NodeId, b: NodeId, c: NodeId) returns (s: State)
    requires a != b && a != c && b != c
    ensures Reaches(s, AnyJoin) && Is(s, a, b, c, Straying(a, b, c))
  {
    s := TurnedReached(a, b, c);
    s := OneTook(s, c, AnyJoin);
    assert [LATE][..1] == [LATE];
    s := Go(s, CatchupStep(c, 1, false), AnyJoin);
  }

  /** a leads again. */
  function Strayed(a: NodeId, b: NodeId, c: NodeId): (g: Stage) {
    Straying(a, b, c).(store := Third(a, b, c))
  }

  lemma StrayedReached(a: NodeId, b: NodeId, c: NodeId) returns (s: State)
    requires a != b && a != c && b != c
    ensures Reaches(s, AnyJoin) && Is(s, a, b, c, Strayed(a, b, c))
  {
    s := StrayingReached(a, b, c);
    ElectMetas(a, b, c);
    assert Others(s.store, b) == {a};
    s := Won(s, a, AnyJoin);
    assert Members(s.store.isr) == {a, b} && {a, b} * {a, b} + {a} == {a, b};
  }

  /** b drops the entry in a session with a. */
  lemma DroppedReached(a: NodeId, b: NodeId, c: NodeId) returns (s: State)
    requires a != b && a != c && b != c
    ensures
      var m := Third(a, b, c);
      Reaches(s, AnyJoin) &&
      Is(s, a, b, c, Strayed(a, b, c).(ra := Off(m, []), rb := Off(m, []), rc := Off(m, [LATE]), phase := Session({a})))
  {
    s := StrayedReached(a, b, c);
    s := AllTook(s, a, b, c, Strayed(a, b, c), AnyJoin);
    assert Members(s.store.isr) == {a, b};
    s := Go(s, RevokeStep, AnyJoin);
    assert At(s, a).log[..0] == [] && {a, b} + {b} == {a, b};
    s := Go(s, SyncStep(b, 0, false), AnyJoin);
  }

  /** a and b agreed on the empty log and committed an entry with a smaller id than c's. */
  lemma OutgrownReached(a: NodeId, b: NodeId, c: NodeId) returns (s: State)
    requires a != b && a != c && b != c
    ensures
      var m := Third(a, b, c);
      Reaches(s, AnyJoin) &&
      Is(s, a, b, c, Strayed(a, b, c).(ra := Off(m, [NEW]), rb := Off(m, [NEW]), rc := Off(m, [LATE]),
                                       acked := {NEW}, committed := [NEW], used := {3, 5}))
  {
    var m := Third(a, b, c);
    var g := Strayed(a, b, c).(ra := Off(m, []), rb := Off(m, []), rc := Off(m, [LATE]), phase := Session({a}));
    s := DroppedReached(a, b, c);
    s := Resumed(s, a, b, c, g, AnyJoin);
    g := g.(ra := On(m, []), rb := On(m, []), phase := Quiet);
    s := Committed(s, a, b, c, g, NEW, AnyJoin);
    assert [] + [NEW] == [NEW] && {} + {NEW} == {NEW} && {5} + {3} == {3, 5};
    g := g.(ra := On(m, [NEW]), rb := On(m, [NEW]), acked := {NEW}, committed := [NEW], used := {3, 5});
    s := Disabled(s, a, b, c, g, AnyJoin);
  }

  /** What a joining node holds must be the start of the leader's log: c pulled an entry from
      b that was given up later, and its join request comes when another entry has taken that
      place. Every member answers the election that follows, and c wins with the larger id. */
  lemma JoinNeedsPrefix(a: NodeId, b: NodeId, c: NodeId) returns (s: State, elect: Step)
    requires a != b && a != c && b != c
    ensures Reaches(s, AnyJoin) && elect.ElectStep? && Enabled(s, elect) && Benign(s, elect)
    ensures elect.answers == Others(s.store, s.store.leader)
    ensures NEW in s.acked && NEW !in At(Next(s, elect), Next(s, elect).store.leader).log
  {
    s := OutgrownReached(a, b, c);
    assert Members(s.store.isr) == {a, b};
    s := Go(s, JoinStep(c), AnyJoin);
    s := Go(s, AbandonStep, AnyJoin);
    assert s.store.isr == [a, b, c];
    elect := ElectStep(c, {b, c}, false);
    assert Others(s.store, a) == {b, c} && b in s.synced;
  }

  // ---------------------------------------------------------------- a leader with old metadata is enabled

  function Joined(a: NodeId, b: NodeId, c: NodeId): (m: Meta) { Meta(a, [a, b, c], [], 2, 2) }

  /** c joined and took the metadata that says so, a and b did not. */
  function Rejoined(a: NodeId, b: NodeId, c: NodeId): (g: Stage) {
    Told(a, b, c).(store := Joined(a, b, c), rc := Off(Joined(a, b, c), []), phase := Session({a}))
  }

  lemma RejoinedReached(a: NodeId, b: NodeId, c: NodeId) returns (s: State)
    requires a != b && a != c && b != c
    ensures Reaches(s, AnyLeader) && Is(s, a, b, c, Rejoined(a, b, c))
  {
    s := ToldReached(a, b, c, AnyLeader);
    assert Members(s.store.isr) == {a, b};
    s := Go(s, JoinStep(c), AnyLeader);
    assert [a, b] + [c] == [a, b, c] && Without([c], c) == [];
    s := Go(s, AdoptStep(c, false), AnyLeader);
  }

  /** The session agrees although a and b still hold the metadata from before the join. */
  lemma StaleAgreed(a: NodeId, b: NodeId, c: NodeId) returns (s: State)
    requires a != b && a != c && b != c
    ensures Reaches(s, AnyLeader)
    ensures Is(s, a, b, c, Rejoined(a, b, c).(phase := Enabling({a, b, c}), agreed := {a, b, c}, synced := {a, b, c}))
  {
    s := RejoinedReached(a, b, c);
    assert Members(s.store.isr) == {a, b, c};
    s := Go(s, ReportStep(b), AnyLeader);
    s := Go(s, ReportStep(c), AnyLeader);
    s := Go(s, AgreeStep, AnyLeader);
  }

  lemma StaleLeaderEnabled(a: NodeId, b: NodeId, c: NodeId) returns (s: State)
    requires a != b && a != c && b != c
    ensures Reaches(s, AnyLeader)
    ensures Is(s, a, b, c, Rejoined(a, b, c).(ra := On(First(a, b, c), []), rb := On(First(a, b, c), []),
                                              rc := On(Joined(a, b, c), []), phase := Quiet,
                                              agreed := {a, b, c}, synced := {a, b, c}))
  {
    s := StaleAgreed(a, b, c);
    s := Go(s, EnableStep(b), AnyLeader);
    s := Go(s, EnableStep(c), AnyLeader);
    assert {a, b, c} - {b} - {c} == {a};
    s := Go(s, EnableLeaderStep, AnyLeader);
  }

  /** The leader that is enabled must hold the current metadata: a never took the one that
      brought c into the ISR, is enabled all the same, and commits with b alone. */
  lemma EnablingNeedsCurrentLeader(a: NodeId, b: NodeId, c: NodeId) returns (s: State)
    requires a != b && a != c && b != c
    ensures Reaches(s, AnyLeader)
    ensures c in s.store.isr && c in s.synced && ONE in s.acked && ONE !in At(s, c).log
  {
    s := StaleLeaderEnabled(a, b, c);
    var g := Rejoined(a, b, c).(ra := On(First(a, b, c), []), rb := On(First(a, b, c), []),
                                rc := On(Joined(a, b, c), []), phase := Quiet,
                                agreed := {a, b, c}, synced := {a, b, c});
    s := Committed(s, a, b, c, g, ONE, AnyLeader);
  }
}
