/** A channel's messages in flight and waiting to be delivered again: a map, a heap and two
    requeue maps that stay in step. */
module InFlightChannel {
  import opened InFlightQueue

  datatype Result =
    | Done | NotInFlight | AlreadyInFlight | NotOwner | IsDeferred | TooMuchDeferred | ConsumeDisabled | Exiting

  type Store = map<int, Message>

  /** Messages are filed under their own id. */
  ghost predicate Filed(s: Store) { forall id :: id in s ==> s[id].id == id }

  /** No id is in two places. */
  ghost predicate Apart(a: Store, b: Store, c: Store) {
    && (forall id :: id in a ==> id !in b && id !in c) && (forall id :: id in b ==> id !in c)
  }

  /** The map and the heap hold the same messages. */
  ghost predicate Matches(s: seq<Message>, f: Store) {
    && (forall id :: id in f ==> f[id].id == id && f[id] in s)
    && (forall m :: m in s ==> m.id in f && f[m.id] == m)
  }

  /** `t` is `s` without m. */
  ghost predicate Lacks(s: seq<Message>, t: seq<Message>, m: Message) {
    && m in s && m !in t && (forall x :: x in t ==> x in s) && (forall x :: x in s && x != m ==> x in t)
  }

  lemma MatchesMore(s: seq<Message>, f: Store, t: seq<Message>, m: Message)
    requires Matches(s, f) && m.id !in f && SameItems(t, s + [m])
    ensures Matches(t, f[m.id := m])
  {
    assert forall x :: x in s + [m] <==> x in s || x == m;
  }

  lemma StillApart(f: Store, w: Store, c: Store, m: Message)
    requires Apart(f, w, c)
    ensures Apart(f[m.id := m], w, c - {m.id}) <==> m.id !in w
  {
    assert m.id in f[m.id := m];
  }

  lemma MatchesLess(s: seq<Message>, f: Store, t: seq<Message>, m: Message)
    requires Matches(s, f) && Lacks(s, t, m)
    ensures Matches(t, f - {m.id})
  {}

  function Deferred(s: set<Message>): (r: set<Message>)
    reads s`deferredCnt
  {
    set m | m in s && m.deferredCnt > 0
  }

  ghost predicate Unowned(s: seq<Message>)
    reads s
  {
    forall m :: m in s && m.deferredCnt > 0 ==> m.clientId == 0
  }

  class Channel {
    const queue: InFlightPqueue
    var inFlight: Store
    var waiting: Store
    var inChan: Store
    var deferredCount: int
    var consumeDisabled: bool
    var exiting: bool

    constructor ()
      ensures Valid() && fresh(queue) && inFlight == waiting == inChan == map[] && !consumeDisabled && !exiting
    {
      queue := new InFlightPqueue();
      inFlight, waiting, inChan := map[], map[], map[];
      deferredCount, consumeDisabled, exiting := 0, false, false;
    }

    /** Map and heap hold the same messages, and every id is in one place only. */
    ghost predicate InStep()
      reads this, queue, queue.pq`index, queue.pq`pri
    {
      && queue.Valid() && Matches(queue.pq, inFlight) && Filed(waiting) && Filed(inChan)
      && Apart(inFlight, waiting, inChan)
    }

    /** The deferred messages are counted, and belong to no client. */
    ghost predicate Valid()
      reads this, queue, queue.pq
    {
      InStep() && deferredCount == |Deferred(Items(queue.pq))| && Unowned(queue.pq)
    }

    /** Map and heap get the message together. */
    method Enter(m: Message)
      requires queue.Valid() && Matches(queue.pq, inFlight) && m.id !in inFlight
      modifies this`inFlight, queue, queue.pq`index, {m}`index
      ensures queue.Valid() && Matches(queue.pq, inFlight) && inFlight == old(inFlight)[m.id := m]
      ensures SameItems(queue.pq, old(queue.pq) + [m])
    {
      ghost var before, f := queue.pq, inFlight;
      inFlight := inFlight[m.id := m];
      queue.Push(m, Items(queue.pq) + {m});
      MatchesMore(before, f, queue.pq, m);
    }

    /** pushInFlightMessage: a message that was read, or that comes out of the requeue channel.
        One that waits for room in that channel, or counts as deferred, must not come here. */
    method Push(m: Message) returns (r: Result)
      requires Valid()
      modifies this`inFlight, this`inChan, queue, queue.pq`index, {m}`index
      ensures Valid() <==> r != Done || (m.id !in waiting && m.deferredCnt <= 0)
      ensures r == if consumeDisabled then ConsumeDisabled else if m.id in old(inFlight) then AlreadyInFlight else Done
      ensures if r == Done then inFlight == old(inFlight)[m.id := m] && inChan == old(inChan) - {m.id}
              else inFlight == old(inFlight) && inChan == old(inChan)
    {
      if consumeDisabled {
        return ConsumeDisabled;
      }
      if m.id in inFlight {
        return AlreadyInFlight;
      }
      ghost var before := queue.pq;
      Enter(m);
      MoreDeferred(before, queue.pq, m);
      StillApart(old(inFlight), waiting, inChan, m);
      inChan := inChan - {m.id};
      assert InStep() <==> Apart(inFlight, waiting, inChan);
      assert m.deferredCnt <= 0 ==> Unowned(queue.pq);
      return Done;
    }

    /** popInFlightMessage. */
    method Pop(clientId: int, id: int, force: bool) returns (m: Message?, r: Result)
      requires InStep()
      modifies this`inFlight, queue, queue.pq`index
      ensures InStep()
      ensures r == if id !in old(inFlight) then NotInFlight
                   else if old(inFlight)[id].clientId != clientId then NotOwner
                   else if !force && old(inFlight)[id].deferredCnt > 0 then IsDeferred else Done
      ensures if r == Done
              then m == old(inFlight)[id] && inFlight == old(inFlight) - {id} && Lacks(old(queue.pq), queue.pq, m)
              else m == null && inFlight == old(inFlight) && queue.pq == old(queue.pq)
    {
      if id !in inFlight {
        return null, NotInFlight;
      }
      var x := inFlight[id];
      if x.clientId != clientId {
        return null, NotOwner;
      }
      if !force && x.deferredCnt > 0 {
        return null, IsDeferred;
      }
      ghost var before, f := queue.pq, inFlight;
      inFlight := inFlight - {id};
      assert x == queue.pq[x.index];
      if x.index != -1 {
        OrderAround(queue.pq, x.index);
        var y := queue.Remove(x.index);
      }
      MatchesLess(before, f, queue.pq, x);
      return x, Done;
    }

    /** What has left the heap belongs to no client and is not deferred any more. */
    method Release(m: Message, ghost before: seq<Message>)
      requires InStep() && Lacks(before, queue.pq, m) && deferredCount == |Deferred(Items(before))|
      requires Unowned(queue.pq)
      modifies this`deferredCount, {m}`deferredCnt, {m}`clientId
      ensures Valid() && m.deferredCnt <= 0 && m.clientId == 0
    {
      LessDeferred(before, queue.pq, m);
      m.clientId := 0;
      if m.deferredCnt > 0 {
        deferredCount := deferredCount - 1;
        m.deferredCnt := 0;
      }
      assert Deferred(Items(queue.pq)) == old(Deferred(Items(queue.pq)));
    }

    /** internalFinishMessage: the message leaves the channel, and only this one. */
    method Finish(clientId: int, id: int, force: bool) returns (m: Message?, r: Result)
      requires Valid()
      modifies this`inFlight, this`deferredCount, queue, queue.pq`index, queue.pq`deferredCnt, queue.pq`clientId
      ensures Valid()
      ensures r == if id !in old(inFlight) then NotInFlight
                   else if !force && old(inFlight[id].clientId) != clientId then NotOwner else Done
      ensures if r == Done then m == old(inFlight)[id] && inFlight == old(inFlight) - {id} && m.deferredCnt <= 0
              else m == null && inFlight == old(inFlight)
      ensures forall x :: x in queue.pq ==> x.deferredCnt == old(x.deferredCnt) && x.clientId == old(x.clientId)
    {
      var client := clientId;
      if force && id in inFlight {
        client := inFlight[id].clientId;
      }
      ghost var before := queue.pq;
      m, r := Pop(client, id, true);
      if r != Done {
        return;
      }
      Release(m, before);
    }

    /** doRequeue: into the requeue channel when it has room, or else to the waiting ones. A
        channel that is exiting drops the message. */
    method DoRequeue(m: Message, room: bool) returns (r: Result)
      requires Valid() && m.id !in inFlight && m.id !in waiting && m.id !in inChan
      modifies this`waiting, this`inChan
      ensures Valid() && r == if exiting then Exiting else Done
      ensures inChan == if r == Done && room then old(inChan)[m.id := m] else old(inChan)
      ensures waiting == if r == Done && !room then old(waiting)[m.id := m] else old(waiting)
    {
      if exiting {
        return Exiting;
      }
      r := Done;
      if room {
        inChan := inChan[m.id := m];
      } else {
        waiting := waiting[m.id := m];
      }
    }

    /** RequeueMessage without a delay: the message moves, and nothing else changes. */
    method Requeue(clientId: int, id: int, room: bool) returns (r: Result)
      requires Valid()
      modifies this`inFlight, this`waiting, this`inChan, queue, queue.pq`index, queue.pq`clientId
      ensures Valid()
      ensures r == if id !in old(inFlight) then NotInFlight
                   else if old(inFlight[id].clientId) != clientId then NotOwner
                   else if old(inFlight)[id].deferredCnt > 0 then IsDeferred
                   else if exiting then Exiting else Done
      ensures inFlight == if r == Done || r == Exiting then old(inFlight) - {id} else old(inFlight)
      ensures inChan == if r == Done && room then old(inChan)[id := old(inFlight)[id]] else old(inChan)
      ensures waiting == if r == Done && !room then old(waiting)[id := old(inFlight)[id]] else old(waiting)
    {
      ghost var before := queue.pq;
      var m;
      m, r := Pop(clientId, id, false);
      if r != Done {
        return;
      }
      LessDeferred(before, queue.pq, m);
      m.clientId := 0;
      r := DoRequeue(m, room);
    }

    /** TouchMessage: only the deadline changes. */
    method Touch(clientId: int, id: int, pri: int) returns (r: Result)
      requires Valid()
      modifies queue, queue.pq`index, queue.pq`pri
      ensures Valid() && SameItems(queue.pq, old(queue.pq))
      ensures r == if id !in inFlight then NotInFlight
                   else if inFlight[id].clientId != clientId then NotOwner else Done
      ensures forall m :: m in queue.pq ==> m.pri == if r == Done && m == inFlight[id] then pri else old(m.pri)
    {
      if id !in inFlight {
        return NotInFlight;
      }
      var m := inFlight[id];
      if m.clientId != clientId {
        return NotOwner;
      }
      ghost var before := queue.pq;
      queue.Reschedule(m, pri);
      SameMatches(before, inFlight, queue.pq);
      assert Items(queue.pq) == Items(before);
      return Done;
    }

    method MarkDeferred(m: Message)
      requires Valid() && m in queue.pq && m.deferredCnt == 0
      modifies this`deferredCount, {m}`deferredCnt, {m}`clientId
      ensures Valid() && m.deferredCnt == 1 && m.clientId == 0
    {
      ghost var was := Deferred(Items(queue.pq));
      deferredCount := deferredCount + 1;
      m.deferredCnt := m.deferredCnt + 1;
      m.clientId := 0;
      assert Deferred(Items(queue.pq)) == was + {m};
    }

    /** RequeueMessage with a delay: the message stays in flight with a later deadline, and no
        client owns it any more. */
    method Defer(clientId: int, id: int, pri: int, tooMuch: bool) returns (r: Result)
      requires Valid()
      modifies this`deferredCount, queue, queue.pq`index, queue.pq`pri, queue.pq`deferredCnt, queue.pq`clientId
      ensures Valid() && SameItems(queue.pq, old(queue.pq))
      ensures r == if id !in inFlight then NotInFlight
                   else if old(inFlight[id].deferredCnt) > 0 then IsDeferred
                   else if old(inFlight[id].clientId) != clientId then NotOwner
                   else if tooMuch then TooMuchDeferred else Done
      ensures forall m :: m in queue.pq ==>
                && m.pri == (if r == Done && m == inFlight[id] then pri else old(m.pri))
                && m.deferredCnt == (if r == Done && m == inFlight[id] then 1 else old(m.deferredCnt))
                && m.clientId == (if r == Done && m == inFlight[id] then 0 else old(m.clientId))
    {
      if id !in inFlight {
        return NotInFlight;
      }
      var m := inFlight[id];
      if m.deferredCnt > 0 {
        return IsDeferred;
      }
      if m.clientId != clientId {
        return NotOwner;
      }
      if tooMuch {
        return TooMuchDeferred;
      }
      MarkDeferred(m);
      ghost var before := queue.pq;
      queue.Reschedule(m, pri);
      SameMatches(before, inFlight, queue.pq);
      assert Items(queue.pq) == Items(before);
      return Done;
    }

    /** The part of a round of the timeout loop that takes a due message out of flight. */
    method TakeDue(now: int, ghost repr: set<Message>) returns (m: Message?)
      requires Valid() && forall x :: x in queue.pq ==> x in repr
      modifies this`inFlight, this`deferredCount, queue, repr`index, repr`deferredCnt, repr`clientId
      ensures Valid() && (forall x :: x in queue.pq ==> x in repr)
      ensures m == null ==> inFlight == old(inFlight) && forall x :: x in queue.pq ==> x.pri > now
      ensures m != null ==>
                m.id in old(inFlight) && m == old(inFlight)[m.id] && m.pri <= now && inFlight == old(inFlight) - {m.id}
      ensures m != null ==> |queue.pq| < old(|queue.pq|)
    {
      ghost var before, f := queue.pq, inFlight;
      var wait;
      m, wait := queue.PeekAndShift(now);
      if m == null {
        return;
      }
      MatchesLess(before, f, queue.pq, m);
      inFlight := inFlight - {m.id};
      Release(m, before);
    }

    /** Every id the channel answers for. */
    ghost function Outstanding(): (s: set<int>)
      reads this
    {
      inFlight.Keys + waiting.Keys + inChan.Keys
    }

    /** One round: the message moves from the map of messages in flight to one that waits. */
    method TimeoutOne(now: int, room: bool, ghost repr: set<Message>) returns (m: Message?)
      requires Valid() && forall x :: x in queue.pq ==> x in repr
      modifies this`inFlight, this`waiting, this`inChan, this`deferredCount
      modifies queue, repr`index, repr`deferredCnt, repr`clientId
      ensures Valid() && (forall x :: x in queue.pq ==> x in repr) && (exiting || Outstanding() == old(Outstanding()))
      ensures m == null ==> inFlight == old(inFlight) && forall x :: x in queue.pq ==> x.pri > now
      ensures m != null ==>
                && m.id in old(inFlight) && m == old(inFlight)[m.id] && m.pri <= now
                && inFlight == old(inFlight) - {m.id}
                && |queue.pq| < old(|queue.pq|)
    {
      m := TakeDue(now, repr);
      if m != null {
        var r := DoRequeue(m, room);
      }
    }

    /** The timeout loop of processInFlightQueue, with `free` places in the requeue channel: all
        messages whose time has come wait to be delivered again, nothing is lost unless the
        channel is exiting, and nothing else moves. */
    method Timeouts(now: int, free: nat) returns (left: nat)
      requires Valid()
      modifies this`inFlight, this`waiting, this`inChan, this`deferredCount
      modifies queue, queue.pq`index, queue.pq`deferredCnt, queue.pq`clientId
      ensures Valid() && (exiting || Outstanding() == old(Outstanding())) && Expired(old(inFlight), inFlight, now)
      ensures consumeDisabled || forall id :: id in inFlight ==> inFlight[id].pri > now
    {
      ghost var repr, f := Items(queue.pq), inFlight;
      left := free;
      while !consumeDisabled
        invariant Valid() && (exiting || Outstanding() == old(Outstanding())) && Expired(f, inFlight, now)
        invariant forall x :: x in queue.pq ==> x in repr
        decreases |queue.pq|
      {
        ghost var g := inFlight;
        var m := TimeoutOne(now, left > 0, repr);
        if m == null {
          break;
        }
        ExpiredMore(f, g, m.id, now);
        left := if left > 0 then left - 1 else 0;
      }
    }

    /** The last part of processInFlightQueue: waiting messages enter the requeue channel while
        it has room. */
    method RequeueWaiting(free: nat) returns (left: nat)
      requires Valid()
      modifies this`waiting, this`inChan
      ensures Valid() && Outstanding() == old(Outstanding())
      ensures consumeDisabled || waiting == map[] || left == 0
      ensures Moved(old(waiting), waiting, inChan)
    {
      left := free;
      if consumeDisabled {
        return;
      }
      while waiting != map[] && left > 0
        invariant Valid() && Outstanding() == old(Outstanding())
        invariant Moved(old(waiting), waiting, inChan)
        decreases left
      {
        HasKey(waiting);
        var id :| id in waiting;
        var m := waiting[id];
        MoveOne(inFlight, old(waiting), waiting, inChan, id);
        waiting := waiting - {id};
        inChan := inChan[id := m];
        left := left - 1;
      }
    }
  }

  /** `w` is `w0` without some messages, which are in `c`. */
  ghost predicate Moved(w0: Store, w: Store, c: Store) {
    && (forall id :: id in w ==> id in w0 && w[id] == w0[id])
    && (forall id :: id in w0 && id !in w ==> id in c && c[id] == w0[id])
  }

  lemma MoveOne(f: Store, w0: Store, w: Store, c: Store, id: int)
    requires Filed(w) && Filed(c) && Apart(f, w, c) && Moved(w0, w, c) && id in w
    ensures var w', c' := w - {id}, c[id := w[id]];
            && Filed(w') && Filed(c') && Apart(f, w', c') && Moved(w0, w', c')
            && f.Keys + w'.Keys + c'.Keys == f.Keys + w.Keys + c.Keys
  {
    var w', c' := w - {id}, c[id := w[id]];
    assert w'.Keys == w.Keys - {id} && c'.Keys == c.Keys + {id};
  }

  lemma HasKey(s: Store)
    ensures s == map[] || exists id :: id in s
  {
    if forall id :: id !in s {
      assert s == map[];
    }
  }

  /** `f` is `f0` without some messages whose time has come. */
  ghost predicate Expired(f0: Store, f: Store, now: int)
    reads f0.Values
  {
    && (forall id :: id in f ==> id in f0 && f[id] == f0[id])
    && (forall id :: id in f0 && id !in f ==> f0[id].pri <= now)
  }

  lemma ExpiredMore(f0: Store, f: Store, id: int, now: int)
    requires Expired(f0, f, now) && id in f && f[id].pri <= now
    ensures Expired(f0, f - {id}, now)
  {}

  lemma SameMatches(s: seq<Message>, f: Store, t: seq<Message>)
    requires Matches(s, f) && SameItems(t, s)
    ensures Matches(t, f)
  {}

  lemma MoreDeferred(s: seq<Message>, t: seq<Message>, m: Message)
    requires m !in s && SameItems(t, s + [m])
    ensures |Deferred(Items(t))| == |Deferred(Items(s))| + if m.deferredCnt > 0 then 1 else 0
  {
    var a, b := Deferred(Items(t)), Deferred(Items(s));
    assert forall x :: x in s + [m] <==> x in s || x == m;
    if m.deferredCnt > 0 {
      assert a == b + {m};
    } else {
      assert a == b;
    }
  }

  lemma LessDeferred(s: seq<Message>, t: seq<Message>, m: Message)
    requires Lacks(s, t, m)
    ensures |Deferred(Items(s))| == |Deferred(Items(t))| + if m.deferredCnt > 0 then 1 else 0
  {
    var a, b := Deferred(Items(s)), Deferred(Items(t));
    if m.deferredCnt > 0 {
      assert a == b + {m};
    } else {
      assert a == b;
    }
  }
}
