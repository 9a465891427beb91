/** The replica metadata of one topic partition: the list helpers, the update guard
    every nsqd node applies, and the values the lookup coordinator stores. */
module Metadata {

  /** The id of an nsqd node; the source uses its string form. */
  datatype NodeId = NodeId(name: string)

  /** TopicPartitionReplicaInfo. `epoch` is the revision the store assigns. */
  datatype Meta = Meta(
    leader: NodeId,
    isr: seq<NodeId>,
    catchup: seq<NodeId>,
    writeEpoch: nat,
    epoch: nat)

  /** What a node holds before it has been told anything about the partition. */
  const BLANK := Meta(NodeId(""), [], [], 0, 0)

  ghost predicate NoDup(l: seq<NodeId>) {
    forall i, j :: 0 <= i < j < |l| ==> l[i] != l[j]
  }

  function Members(l: seq<NodeId>): (r: set<NodeId>) {
    set x | x in l
  }

  /** The stored value is well formed. */
  ghost predicate WellFormed(m: Meta) {
    && m.leader in m.isr
    && NoDup(m.isr)
    && NoDup(m.catchup)
    && Members(m.isr) !! Members(m.catchup)
  }

  // ---------------------------------------------------------------- list helpers

  method FindSlice(l: seq<NodeId>, e: NodeId) returns (k: int)
    ensures -1 <= k < |l|
    ensures k == -1 <==> e !in l
    ensures k >= 0 ==> l[k] == e && e !in l[..k]
  {
    for i := 0 to |l|
      invariant e !in l[..i]
    {
      if l[i] == e {
        return i;
      }
    }
    return -1;
  }

  /** `l` without the first occurrence of `e`. */
  function RemoveFirst(l: seq<NodeId>, e: NodeId): (r: seq<NodeId>) {
    if l == [] then [] else if l[0] == e then l[1..] else [l[0]] + RemoveFirst(l[1..], e)
  }

  /** What FilterList leaves: one occurrence removed for every element of `f`, in turn. */
  function Filter(l: seq<NodeId>, f: seq<NodeId>): (r: seq<NodeId>)
    decreases |f|
  {
    if f == [] then l else Filter(RemoveFirst(l, f[0]), f[1..])
  }

  function Merge(l: seq<NodeId>, f: seq<NodeId>): (r: seq<NodeId>)
    decreases |f|
  {
    if f == [] then l else Merge(if f[0] in l then l else l + [f[0]], f[1..])
  }

  lemma {:induction false} RemoveFirstAbsent(l: seq<NodeId>, e: NodeId)
    requires e !in l
    ensures RemoveFirst(l, e) == l
  {
    if l != [] {
      RemoveFirstAbsent(l[1..], e);
    }
  }

  lemma {:induction false} RemoveFirstAt(l: seq<NodeId>, e: NodeId, i: nat)
    requires i < |l| && l[i] == e && e !in l[..i]
    ensures RemoveFirst(l, e) == l[..i] + l[i + 1..]
  {
    if i > 0 {
      assert l[0] == l[..i][0];
      assert l[1..][..i - 1] == l[..i][1..];
      RemoveFirstAt(l[1..], e, i - 1);
    }
  }

  lemma FilterSnoc(l: seq<NodeId>, f: seq<NodeId>, k: nat)
    requires k < |f|
    ensures Filter(l, f[..k + 1]) == RemoveFirst(Filter(l, f[..k]), f[k])
    decreases k
  {
    if k == 0 {
      assert f[..1] == [f[0]] && f[..0] == [];
    } else {
      assert f[..k + 1][1..] == f[1..][..k] && f[..k][1..] == f[1..][..k - 1];
      FilterSnoc(RemoveFirst(l, f[0]), f[1..], k - 1);
    }
  }

  lemma MergeSnoc(l: seq<NodeId>, f: seq<NodeId>, k: nat)
    requires k < |f|
    ensures var m := Merge(l, f[..k]); Merge(l, f[..k + 1]) == if f[k] in m then m else m + [f[k]]
    decreases k
  {
    if k == 0 {
      assert f[..1] == [f[0]] && f[..0] == [] && f[..1][1..] == [];
    } else {
      assert f[..k + 1][1..] == f[1..][..k] && f[..k][1..] == f[1..][..k - 1];
      MergeSnoc(if f[0] in l then l else l + [f[0]], f[1..], k - 1);
    }
  }

  /** FilterList shifts the slice it is given: the result is a prefix of the same array. */
  method FilterList(l: array<NodeId>, filter: seq<NodeId>) returns (n: nat)
    modifies l
    ensures n <= l.Length
    ensures l[..n] == Filter(old(l[..]), filter)
  {
    n := l.Length;
    ghost var was := l[..];
    assert filter[..0] == [];
    for k := 0 to |filter|
      invariant n <= l.Length
      invariant l[..n] == Filter(was, filter[..k])
    {
      ghost var cur := l[..n];
      var e := filter[k];
      var i := 0;
      while i < n && l[i] != e
        invariant i <= n && l[..n] == cur
        invariant forall j :: 0 <= j < i ==> cur[j] != e
      {
        i := i + 1;
      }
      FilterSnoc(was, filter, k);
      if i < n {
        RemoveFirstAt(cur, e, i);
        n := CopyDown(l, i, n);
        assert l[..n] == RemoveFirst(cur, e);
      } else {
        assert e !in cur;
        RemoveFirstAbsent(cur, e);
      }
    }
    assert filter[..|filter|] == filter;
  }

  /** `copy(l[i:], l[i+1:])` followed by dropping the last element. */
  method CopyDown(l: array<NodeId>, i: nat, n: nat) returns (m: nat)
    requires i < n <= l.Length
    modifies l
    ensures m == n - 1
    ensures l[..m] == old(l[..i] + l[i + 1..n])
  {
    var j := i;
    while j + 1 < n
      invariant i <= j < n
      invariant forall t :: 0 <= t < i ==> l[t] == old(l[t])
      invariant forall t :: i <= t < j ==> l[t] == old(l[t + 1])
      invariant forall t :: j < t < n ==> l[t] == old(l[t])
    {
      l[j] := l[j + 1];
      j := j + 1;
    }
    m := n - 1;
  }

  method MergeList(l: seq<NodeId>, r: seq<NodeId>) returns (out: seq<NodeId>)
    ensures out == Merge(l, r)
  {
    out := l;
    assert r[..0] == [];
    for k := 0 to |r|
      invariant out == Merge(l, r[..k])
    {
      MergeSnoc(l, r, k);
      var at := FindSlice(out, r[k]);
      if at == -1 {
        out := out + [r[k]];
      }
    }
    assert r[..|r|] == r;
  }

  lemma {:induction false} RemoveFirstSpec(l: seq<NodeId>, e: NodeId)
    requires NoDup(l)
    ensures NoDup(RemoveFirst(l, e))
    ensures Members(RemoveFirst(l, e)) == Members(l) - {e}
  {
    if l != [] {
      RemoveFirstSpec(l[1..], e);
      assert Members(l) == {l[0]} + Members(l[1..]);
      assert l[0] !in Members(l[1..]);
      var t := RemoveFirst(l[1..], e);
      assert forall i :: 0 <= i < |t| ==> t[i] in Members(t);
      if l[0] != e {
        assert Members([l[0]] + t) == {l[0]} + Members(t);
      }
    }
  }

  /** On a duplicate-free list FilterList is set difference, and stays duplicate free. */
  lemma {:induction false} FilterSpec(l: seq<NodeId>, f: seq<NodeId>)
    requires NoDup(l)
    ensures NoDup(Filter(l, f))
    ensures Members(Filter(l, f)) == Members(l) - Members(f)
    decreases |f|
  {
    if f != [] {
      RemoveFirstSpec(l, f[0]);
      FilterSpec(RemoveFirst(l, f[0]), f[1..]);
      assert Members(f) == {f[0]} + Members(f[1..]);
    }
  }

  /** MergeList is set union on duplicate-free lists, keeps `l` as a prefix, and stays duplicate free. */
  lemma {:induction false} MergeSpec(l: seq<NodeId>, f: seq<NodeId>)
    requires NoDup(l)
    ensures NoDup(Merge(l, f)) && l <= Merge(l, f)
    ensures Members(Merge(l, f)) == Members(l) + Members(f)
    decreases |f|
  {
    if f != [] {
      var l' := if f[0] in l then l else l + [f[0]];
      assert Members(l') == Members(l) + {f[0]};
      MergeSpec(l', f[1..]);
      assert Members(f) == {f[0]} + Members(f[1..]);
    }
  }

  // ---------------------------------------------------------------- the update guard

  datatype Verdict = Accept | EpochLess | StateInvalid

  /** checkUpdateState on node `me` holding `cur`. */
  function CheckUpdate(me: NodeId, cur: Meta, disabled: bool, next: Meta): (v: Verdict) {
    if next.writeEpoch < cur.writeEpoch || next.epoch < cur.epoch then EpochLess
    else if next.writeEpoch == cur.writeEpoch
            && (next.leader != cur.leader
                || |next.isr| > |cur.isr|
                || exists n :: n in next.isr && n !in cur.isr) then StateInvalid
    else if disabled || me !in next.isr then Accept
    else if next.writeEpoch != cur.writeEpoch then StateInvalid
    else Accept
  }

  /** What updateTopicInfo leaves in the node: write is disabled first when the node is new
      in the ISR, a refused update changes nothing else, an update with the epoch already held
      keeps the local copy, and the leader ends up write disabled when it is new or when the
      update asks for it. */
  function Adopted(me: NodeId, cur: Meta, disabled: bool, ask: bool, next: Meta): (r: (Meta, bool))
    ensures disabled ==> r.1
    ensures !r.1 && next.writeEpoch != cur.writeEpoch ==> r.0 == cur || me !in next.isr
  {
    var d := disabled || (me !in cur.isr && me in next.isr);
    if CheckUpdate(me, cur, d, next) != Accept then (cur, d)
    else
      var m := if cur.epoch != next.epoch then next else cur;
      (m, d || (next.leader == me && (cur.leader != me || ask)))
  }

  /** One delivered update: the value, whether the node was write disabled when it came, and
      whether it asks the leader to be. */
  datatype Update = Update(value: Meta, disabled: bool, ask: bool)

  /** `run[i + 1]` is the metadata held after `ups[i]`. The disabled flag between updates is
      whatever enable and disable calls made of it. */
  ghost predicate UpdateRun(me: NodeId, run: seq<Meta>, ups: seq<Update>) {
    && |run| == |ups| + 1
    && forall i :: 0 <= i < |ups| ==> run[i + 1] == Adopted(me, run[i], ups[i].disabled, ups[i].ask, ups[i].value).0
  }

  /** Over any run of updates both epochs never decrease, and while the write epoch is
      unchanged the leader is fixed and the ISR only loses nodes. */
  lemma {:induction false} UpdatesMonotone(me: NodeId, run: seq<Meta>, ups: seq<Update>, i: nat, j: nat)
    requires UpdateRun(me, run, ups)
    requires i <= j < |run|
    ensures run[i].epoch <= run[j].epoch && run[i].writeEpoch <= run[j].writeEpoch
    ensures run[i].writeEpoch == run[j].writeEpoch ==>
              run[i].leader == run[j].leader
              && Members(run[j].isr) <= Members(run[i].isr)
              && |run[j].isr| <= |run[i].isr|
    decreases j - i
  {
    if i < j {
      UpdatesMonotone(me, run, ups, i, j - 1);
      var u := ups[j - 1];
      assert run[j - 1 + 1] == Adopted(me, run[j - 1], u.disabled, u.ask, u.value).0;
    }
  }

  /** A node that is in the ISR before and after an update it takes with writes enabled, and
      still has writes enabled afterwards, keeps its write epoch and its leader. */
  lemma EnabledMemberKeepsWriteEpoch(me: NodeId, cur: Meta, ask: bool, next: Meta)
    requires me in cur.isr
    requires var (m, d) := Adopted(me, cur, false, ask, next); !d && me in m.isr
    ensures Adopted(me, cur, false, ask, next).0.writeEpoch == cur.writeEpoch
    ensures Adopted(me, cur, false, ask, next).0.leader == cur.leader
  {
    var (m, d) := Adopted(me, cur, false, ask, next);
    if m != cur {
      assert m == next && CheckUpdate(me, cur, false, next) == Accept;
    }
  }

  // ---------------------------------------------------------------- stored values

  function Without(l: seq<NodeId>, x: NodeId): (r: seq<NodeId>)
  {
    if l == [] then [] else (if l[0] == x then [] else [l[0]]) + Without(l[1..], x)
  }

  function Keep(l: seq<NodeId>, s: set<NodeId>): (r: seq<NodeId>)
  {
    if l == [] then [] else (if l[0] in s then [l[0]] else []) + Keep(l[1..], s)
  }

  lemma {:induction false} KeepSpec(l: seq<NodeId>, s: set<NodeId>)
    requires NoDup(l)
    ensures NoDup(Keep(l, s)) && Members(Keep(l, s)) == Members(l) * s
    ensures |Keep(l, s)| <= |l|
  {
    if l != [] {
      KeepSpec(l[1..], s);
      assert Members(l) == {l[0]} + Members(l[1..]);
      var t := Keep(l[1..], s);
      assert l[0] !in Members(l[1..]);
      assert forall i :: 0 <= i < |t| ==> t[i] in Members(t);
      if l[0] in s {
        assert Keep(l, s) == [l[0]] + t;
        assert Members(Keep(l, s)) == {l[0]} + Members(t);
      } else {
        assert Keep(l, s) == t;
      }
    }
  }

  lemma {:induction false} WithoutSpec(l: seq<NodeId>, x: NodeId)
    requires NoDup(l)
    ensures NoDup(Without(l, x)) && Members(Without(l, x)) == Members(l) - {x}
  {
    if l != [] {
      WithoutSpec(l[1..], x);
      assert Members(l) == {l[0]} + Members(l[1..]);
      var t := Without(l[1..], x);
      assert l[0] !in Members(l[1..]);
      assert forall i :: 0 <= i < |t| ==> t[i] in Members(t);
      if l[0] == x {
        assert Without(l, x) == t;
      } else {
        assert Without(l, x) == [l[0]] + t;
        assert Members(Without(l, x)) == {l[0]} + Members(t);
      }
    }
  }

  /** makeNewTopicLeaderAcknowledged. `rev` is the revision the store assigns. */
  function ElectMeta(m: Meta, winner: NodeId, oldAlive: bool, rev: nat): (r: Meta) {
    var isr := Without(m.isr, m.leader);
    var cu := Without(m.catchup, m.leader);
    Meta(winner,
         if oldAlive then isr + [m.leader] else isr,
         if oldAlive then cu else cu + [m.leader],
         m.writeEpoch + 1, rev)
  }

  /** handleRequestJoinISR: the node moves from the catchup list to the ISR. */
  function JoinMeta(m: Meta, n: NodeId, rev: nat): (r: Meta) {
    Meta(m.leader, m.isr + [n], Without(m.catchup, n), m.writeEpoch + 1, rev)
  }

  /** resetJoinISRState: members that never reported ready go back to the catchup list.
      The code collects that list from a Go map, so its order is not part of the meaning. */
  function RollbackMeta(m: Meta, ready: set<NodeId>, rev: nat): (r: Meta) {
    Meta(m.leader, Keep(m.isr, ready), Merge(m.catchup, Keep(m.isr, Members(m.isr) - ready)),
         m.writeEpoch + 1, rev)
  }

  /** handleRemoveISRNodes: nothing is stored when the ISR would become empty, or when it
      would lose its majority on a removal that does not keep the node for catchup. */
  function RemoveMeta(m: Meta, failed: seq<NodeId>, leaveCatchup: bool, replica: nat, rev: nat): (r: Meta) {
    var isr := Filter(m.isr, failed);
    if failed == [] || isr == [] || (|isr| <= replica / 2 && !leaveCatchup) then m
    else
      Meta(m.leader, isr, if leaveCatchup then Merge(m.catchup, failed) else Filter(m.catchup, failed),
           m.writeEpoch, rev)
  }

  /** handleRequestJoinCatchup and addCatchupNode on a node outside the ISR. */
  function CatchupMeta(m: Meta, n: NodeId, rev: nat): (r: Meta) {
    if n in m.isr || n in m.catchup then m else m.(catchup := m.catchup + [n], epoch := rev)
  }

  /** The lookup drops catchup nodes once the ISR is large enough, or when they are removed. */
  function DropCatchupMeta(m: Meta, drop: seq<NodeId>, rev: nat): (r: Meta) {
    m.(catchup := Filter(m.catchup, drop), epoch := rev)
  }

  /** Every way the coordinator replaces the stored value. */
  datatype Change =
    | Elect(winner: NodeId, oldAlive: bool)
    | Join(node: NodeId)
    | Rollback(ready: set<NodeId>)
    | Remove(failed: seq<NodeId>, leaveCatchup: bool)
    | AddCatchup(node: NodeId)
    | DropCatchup(drop: seq<NodeId>)

  function Apply(m: Meta, c: Change, replica: nat, rev: nat): (r: Meta) {
    match c
    case Elect(w, alive) => ElectMeta(m, w, alive, rev)
    case Join(n) => JoinMeta(m, n, rev)
    case Rollback(ready) => RollbackMeta(m, ready, rev)
    case Remove(f, lc) => RemoveMeta(m, f, lc, replica, rev)
    case AddCatchup(n) => CatchupMeta(m, n, rev)
    case DropCatchup(d) => DropCatchupMeta(m, d, rev)
  }

  /** The checks the coordinator makes before each change. Leaders are never in `failed`:
      every caller skips them. */
  ghost predicate Allowed(m: Meta, c: Change) {
    match c
    case Elect(w, _) => w in m.isr && w != m.leader
    case Join(n) => n in m.catchup
    case Rollback(ready) => m.leader in ready
    case Remove(f, lc) => m.leader !in f && (lc ==> Members(f) <= Members(m.isr)) && NoDup(f)
    case AddCatchup(_) => true
    case DropCatchup(_) => true
  }

  lemma MembersConcat(a: seq<NodeId>, b: seq<NodeId>)
    ensures Members(a + b) == Members(a) + Members(b)
  {}

  lemma MembersSnoc(a: seq<NodeId>, x: NodeId)
    requires NoDup(a) && x !in a
    ensures NoDup(a + [x]) && Members(a + [x]) == Members(a) + {x}
  {}

  ghost function Nodes(m: Meta): (r: set<NodeId>) {
    Members(m.isr) + Members(m.catchup)
  }

  lemma ElectKeeps(m: Meta, w: NodeId, alive: bool, rev: nat)
    requires WellFormed(m) && w in m.isr && w != m.leader
    ensures var r := ElectMeta(m, w, alive, rev);
            && WellFormed(r) && Nodes(r) == Nodes(m)
            && Members(r.isr) == if alive then Members(m.isr) else Members(m.isr) - {m.leader}
  {
    WithoutSpec(m.isr, m.leader);
    WithoutSpec(m.catchup, m.leader);
    var a, b := Without(m.isr, m.leader), Without(m.catchup, m.leader);
    ghost var i, c := Members(m.isr), Members(m.catchup);
    assert m.leader in i && w in i && Members(a) == i - {m.leader} && Members(b) == c;
    assert m.leader !in Members(a) && m.leader !in Members(b) && w in Members(a);
    if alive {
      MembersSnoc(a, m.leader);
      assert i - {m.leader} + {m.leader} == i;
      assert w in Members(a + [m.leader]);
    } else {
      MembersSnoc(b, m.leader);
      assert i - {m.leader} + (c + {m.leader}) == i + c;
    }
  }

  lemma JoinKeeps(m: Meta, n: NodeId, rev: nat)
    requires WellFormed(m) && n in m.catchup
    ensures var r := JoinMeta(m, n, rev);
            WellFormed(r) && Nodes(r) == Nodes(m) && Members(r.isr) == Members(m.isr) + {n}
  {
    WithoutSpec(m.catchup, n);
    MembersConcat(m.isr, [n]);
    assert n in Members(m.catchup) && n !in Members(m.isr);
  }

  lemma RollbackKeeps(m: Meta, ready: set<NodeId>, rev: nat)
    requires WellFormed(m) && m.leader in ready
    ensures var r := RollbackMeta(m, ready, rev);
            WellFormed(r) && Nodes(r) == Nodes(m) && Members(r.isr) == Members(m.isr) * ready
  {
    KeepSpec(m.isr, ready);
    KeepSpec(m.isr, Members(m.isr) - ready);
    MergeSpec(m.catchup, Keep(m.isr, Members(m.isr) - ready));
    assert m.leader in Members(Keep(m.isr, ready));
  }

  lemma RemoveKeeps(m: Meta, f: seq<NodeId>, lc: bool, replica: nat, rev: nat)
    requires WellFormed(m) && Allowed(m, Remove(f, lc))
    ensures var r := RemoveMeta(m, f, lc, replica, rev);
            WellFormed(r) && (lc ==> Nodes(r) == Nodes(m)) && Members(r.isr) <= Members(m.isr)
  {
    FilterSpec(m.isr, f);
    FilterSpec(m.catchup, f);
    MergeSpec(m.catchup, f);
    assert m.leader in Members(m.isr);
    assert RemoveMeta(m, f, lc, replica, rev).leader in Members(RemoveMeta(m, f, lc, replica, rev).isr);
  }

  lemma CatchupKeeps(m: Meta, n: NodeId, d: seq<NodeId>, rev: nat)
    requires WellFormed(m)
    ensures WellFormed(CatchupMeta(m, n, rev)) && WellFormed(DropCatchupMeta(m, d, rev))
  {
    MembersConcat(m.catchup, [n]);
    FilterSpec(m.catchup, d);
  }

  /** Every stored change keeps the leader in the ISR and the ISR duplicate free and disjoint
      from the catchup list. Elections, joins, rollbacks and failure removals lose no node. */
  lemma ChangeKeepsWellFormed(m: Meta, c: Change, replica: nat, rev: nat)
    requires WellFormed(m) && Allowed(m, c)
    ensures WellFormed(Apply(m, c, replica, rev))
    ensures c.Elect? || c.Join? || c.Rollback? || (c.Remove? && c.leaveCatchup) ==>
              Nodes(Apply(m, c, replica, rev)) == Nodes(m)
    ensures c.Elect? ==>
              Members(Apply(m, c, replica, rev).isr) ==
              if c.oldAlive then Members(m.isr) else Members(m.isr) - {m.leader}
    ensures c.Join? ==> Members(Apply(m, c, replica, rev).isr) == Members(m.isr) + {c.node}
    ensures c.Rollback? ==> Members(Apply(m, c, replica, rev).isr) == Members(m.isr) * c.ready
    ensures c.Remove? || c.AddCatchup? || c.DropCatchup? ==> Members(Apply(m, c, replica, rev).isr) <= Members(m.isr)
  {
    match c
    case Elect(w, alive) => ElectKeeps(m, w, alive, rev);
    case Join(n) => JoinKeeps(m, n, rev);
    case Rollback(ready) => RollbackKeeps(m, ready, rev);
    case Remove(f, lc) => RemoveKeeps(m, f, lc, replica, rev);
    case AddCatchup(n) => CatchupKeeps(m, n, [], rev);
    case DropCatchup(d) => CatchupKeeps(m, m.leader, d, rev);
  }

  lemma {:induction false} FilterLength(l: seq<NodeId>, f: seq<NodeId>)
    ensures |Filter(l, f)| <= |l|
    decreases |f|
  {
    if f != [] {
      RemoveFirstLength(l, f[0]);
      FilterLength(RemoveFirst(l, f[0]), f[1..]);
    }
  }

  lemma {:induction false} RemoveFirstLength(l: seq<NodeId>, e: NodeId)
    ensures |RemoveFirst(l, e)| <= |l|
  {
    if l != [] {
      RemoveFirstLength(l[1..], e);
    }
  }

  /** The write epoch rises whenever the leader changes or the ISR gains a node, so a
      write-disabled node that holds the previous value accepts the next one. */
  lemma ChangePassesGuard(me: NodeId, m: Meta, c: Change, replica: nat, rev: nat)
    requires WellFormed(m) && Allowed(m, c) && m.epoch < rev
    ensures var r := Apply(m, c, replica, rev);
            && m.writeEpoch <= r.writeEpoch && m.epoch <= r.epoch
            && (r.leader != m.leader || !(Members(r.isr) <= Members(m.isr)) ==> m.writeEpoch < r.writeEpoch)
            && CheckUpdate(me, m, true, r) == Accept
  {
    ChangeKeepsWellFormed(m, c, replica, rev);
    var r := Apply(m, c, replica, rev);
    if c.Remove? {
      FilterLength(m.isr, c.failed);
    }
    if c.Remove? || c.AddCatchup? || c.DropCatchup? {
      forall n | n in r.isr ensures n in m.isr {
        assert n in Members(r.isr);
      }
    }
  }
}
