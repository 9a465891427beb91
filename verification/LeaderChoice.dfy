/** Which member of the ISR becomes the new leader, and why that is safe. */
module LeaderChoice {
  import opened Metadata
  import opened Replication
  import opened ReplicationInvariant
  import opened ReplicationSafety
  import opened Wrappers

  /** The members that are alive, are not the old leader, and reported a last id. */
  ghost function Answering(isr: seq<NodeId>, leader: NodeId, ids: map<NodeId, nat>): (r: set<NodeId>) {
    set n | n in isr && n != leader && n in ids
  }

  /** The first loop of chooseNewLeaderFromISR: the members with the greatest last id. */
  method NewestReplicas(isr: seq<NodeId>, leader: NodeId, ids: map<NodeId, nat>) returns (newest: seq<NodeId>, id: nat)
    ensures forall n :: n in newest <==> n in Answering(isr, leader, ids) && ids[n] == id
    ensures forall n :: n in Answering(isr, leader, ids) ==> ids[n] <= id
    ensures newest == [] <==> Answering(isr, leader, ids) == {}
  {
    newest, id := [], 0;
    var i := 0;
    while i < |isr|
      invariant 0 <= i <= |isr|
      invariant forall n :: n in newest <==> n in Answering(isr[..i], leader, ids) && ids[n] == id
      invariant forall n :: n in Answering(isr[..i], leader, ids) ==> ids[n] <= id
      invariant newest == [] ==> Answering(isr[..i], leader, ids) == {} && id == 0
    {
      var n := isr[i];
      assert isr[..i + 1] == isr[..i] + [n];
      if n in ids && n != leader {
        if ids[n] > id {
          newest, id := [n], ids[n];
        } else if ids[n] == id {
          newest := newest + [n];
        }
      }
      i := i + 1;
    }
    assert isr[..i] == isr;
    assert newest != [] ==> newest[0] in Answering(isr, leader, ids);
  }

  /** chooseNewLeaderFromISR. `ids` are the last ids of the members that answered, `loads` the
      members whose statistics could be read. The smallest load is never updated, so among
      several newest members the last one readable is taken. */
  method ChooseLeader(isr: seq<NodeId>, leader: NodeId, ids: map<NodeId, nat>, loads: set<NodeId>)
    returns (winner: Option<NodeId>, id: nat)
    ensures winner.Some? ==> winner.value in Answering(isr, leader, ids) && ids[winner.value] == id
    ensures forall n :: n in Answering(isr, leader, ids) ==> ids[n] <= id
    ensures Answering(isr, leader, ids) == {} ==> winner == None
    ensures Answering(isr, leader, ids) != {} && Answering(isr, leader, ids) <= loads ==> winner.Some?
    ensures winner == None ==> forall n :: n in Answering(isr, leader, ids) && ids[n] == id ==> n !in loads
  {
    var newest;
    newest, id := NewestReplicas(isr, leader, ids);
    winner := None;
    if |newest| == 1 {
      assert newest[0] in newest;
      return Some(newest[0]), id;
    }
    var i := 0;
    while i < |newest|
      invariant 0 <= i <= |newest|
      invariant winner.Some? ==> winner.value in newest
      invariant winner == None ==> forall k :: 0 <= k < i ==> newest[k] !in loads
    {
      if newest[i] in loads {
        winner := Some(newest[i]);
      }
      i := i + 1;
    }
    assert newest != [] ==> newest[0] in newest;
  }

  /** chooseNewLeaderFromISRForOrderedTopic: among several newest members the first of the
      balanced placement of the partition, when that could be computed. */
  method ChooseOrderedLeader(isr: seq<NodeId>, leader: NodeId, ids: map<NodeId, nat>, plan: Option<seq<NodeId>>)
    returns (winner: Option<NodeId>, id: nat)
    ensures winner.Some? ==> winner.value in Answering(isr, leader, ids) && ids[winner.value] == id
    ensures forall n :: n in Answering(isr, leader, ids) ==> ids[n] <= id
    ensures Answering(isr, leader, ids) == {} ==> winner == None
    ensures Answering(isr, leader, ids) != {} && plan.Some? ==> winner.Some?
    ensures winner.Some? && plan.Some? && winner.value !in plan.value ==>
              |set n | n in Answering(isr, leader, ids) && ids[n] == id| == 1
              || forall n :: n in plan.value ==> !(n in Answering(isr, leader, ids) && ids[n] == id)
  {
    var newest;
    newest, id := NewestReplicas(isr, leader, ids);
    winner := None;
    if |newest| == 1 {
      assert newest[0] in newest;
      assert (set n | n in Answering(isr, leader, ids) && ids[n] == id) == {newest[0]};
      return Some(newest[0]), id;
    }
    if newest == [] || plan == None {
      return;
    }
    assert newest[0] in newest;
    var i := 0;
    while i < |plan.value|
      invariant 0 <= i <= |plan.value|
      invariant forall k :: 0 <= k < i ==> plan.value[k] !in newest
    {
      if plan.value[i] != leader && plan.value[i] in newest {
        return Some(plan.value[i]), id;
      }
      i := i + 1;
    }
    winner := Some(newest[0]);
  }

  /** What either choice does for the protocol: electing an answering member with the greatest
      last id is a step of it, and when a synced member answered, the new leader has the whole
      committed log and every invariant is kept. */
  lemma ChosenLeaderSafe(s: State, ids: map<NodeId, nat>, w: NodeId, oldAlive: bool, r: NodeId)
    requires Inv(s) && s.phase.Quiet? && AllDisabled(s, Others(s.store, s.store.leader))
    requires var answers := Answering(s.store.isr, s.store.leader, ids);
             && w in answers && (forall n :: n in answers ==> ids[n] == LastId(At(s, n).log) && ids[n] <= ids[w])
             && r in answers && r in s.synced
    ensures var elect := ElectStep(w, Answering(s.store.isr, s.store.leader, ids), oldAlive);
            && Enabled(s, elect) && Inv(Next(s, elect)) && Next(s, elect).store.leader == w
            && s.committed <= At(s, w).log
  {
    var elect := ElectStep(w, Answering(s.store.isr, s.store.leader, ids), oldAlive);
    assert Enabled(s, elect) && OneAhead(s, r);
    NewestHolds(s, elect, r);
    StepKeeps(s, elect);
  }
}
