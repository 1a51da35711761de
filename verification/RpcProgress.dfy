/**
 Progress of the pending-call protocol without Close: when the reader is stuck for
 ever, which steps get it there, and that every reply it found a call for reaches
 that call.
 */
module RpcProgress {
  import opened Wrappers
  import opened RpcProtocol
  import opened RpcSafety

  // ----- The reader at done <- true, without Close

  predicate Closeless(acts: seq<Action>) { ClosePending !in acts }

  predicate NoneClosed(s: State) { forall r | 0 <= r < |s.calls| :: !s.calls[r].closed }

  predicate IsDeliver(a: Action) { a.Deliver? }

  /** The reader holds the object of call `id`: it was found, and the send has not happened. */
  predicate Holds(s: State, id: Id) {
    (s.reader.Found? || s.reader.Sending?) && s.reader.id == id
  }

  /** The reader holds the object of a call that has already left its select. */
  predicate Doomed(s: State) {
    (s.reader.Found? || s.reader.Sending?) && s.reader.id in s.callers && HasLeft(s.callers[s.reader.id])
  }

  lemma CloselessStep(s: State, a: Action)
    requires NoneClosed(s) && Enabled(s, a) && a != ClosePending
    ensures NoneClosed(Do(s, a))
  {
  }

  lemma {:induction false} CloselessKeepsOpen(s: State, acts: seq<Action>)
    requires NoneClosed(s) && Closeless(acts) && Run(s, acts).Some?
    ensures NoneClosed(Run(s, acts).value)
    decreases |acts|
  {
    if acts != [] {
      var front, a := acts[..|acts| - 1], acts[|acts| - 1];
      assert acts == front + [a];
      CloselessKeepsOpen(s, front);
      var t := Run(s, front).value;
      CloselessStep(t, a);
    }
  }

  lemma LeftStays(s: State, a: Action, id: Id)
    requires Enabled(s, a) && id in s.callers && HasLeft(s.callers[id])
    ensures id in Do(s, a).callers && HasLeft(Do(s, a).callers[id])
    ensures s.callers[id].Returned? ==> Do(s, a).callers[id] == s.callers[id]
  {
  }

  /** A reader that holds the open object of a call that has left can only store its data and then wait. */
  lemma HeldStays(s: State, a: Action)
    requires ObjectsInv(s) && Enabled(s, a) && a != ClosePending
    requires s.reader.Found? || s.reader.Sending?
    requires Owns(s, s.reader.id, s.reader.ref) && HasLeft(s.callers[s.reader.id])
    requires ValidRef(s, s.reader.ref) && !s.calls[s.reader.ref].closed
    ensures var t := Do(s, a);
            && (t.reader.Found? || t.reader.Sending?) && t.reader.id == s.reader.id && t.reader.ref == s.reader.ref
            && (s.reader.Sending? ==> t.reader == s.reader)
            && t.crash.None? && !a.Deliver?
            && ValidRef(t, t.reader.ref) && !t.calls[t.reader.ref].closed
  {
  }

  lemma DoomedStep(s: State, arrived: set<(Id, Reply)>, a: Action)
    requires Inv(s, arrived) && Enabled(s, a) && NoneClosed(s) && Doomed(s) && a != ClosePending
    ensures var t := Do(s, a);
            Doomed(t) && t.reader.id == s.reader.id && t.reader.ref == s.reader.ref && t.crash.None? && !a.Deliver?
            && (s.reader.Sending? ==> t.reader == s.reader)
  {
    assert Owns(s, s.reader.id, s.reader.ref);
    HeldStays(s, a);
    LeftStays(s, a, s.reader.id);
  }

  /** A doomed reader never handles another message, whatever else happens, until Close. */
  lemma {:induction false} DoomedForEver(s: State, arrived: set<(Id, Reply)>, acts: seq<Action>)
    requires Inv(s, arrived) && NoneClosed(s) && Doomed(s)
    requires Closeless(acts) && Run(s, acts).Some?
    ensures Inv(Run(s, acts).value, arrived + Arrived(acts))
    ensures var t := Run(s, acts).value;
            Doomed(t) && t.reader.id == s.reader.id && t.reader.ref == s.reader.ref && t.crash == s.crash
            && (s.reader.Sending? ==> t.reader == s.reader)
    ensures Count(acts, IsDeliver) == 0
    decreases |acts|
  {
    if acts != [] {
      var front, a := acts[..|acts| - 1], acts[|acts| - 1];
      assert acts == front + [a];
      DoomedForEver(s, arrived, front);
      CloselessKeepsOpen(s, front);
      var t := Run(s, front).value;
      DoomedStep(t, arrived + Arrived(front), a);
      InvStep(t, arrived + Arrived(front), a);
      assert arrived + Arrived(acts) == arrived + Arrived(front) + NewlyArrived(a);
    } else {
      assert arrived + Arrived(acts) == arrived;
    }
  }

  /** The reader holds the open object of a call that can still receive. */
  predicate Deliverable(s: State, id: Id) {
    && s.crash.None? && Holds(s, id)
    && id in s.callers && (s.callers[id].Registered? || s.callers[id].Waiting?) && s.callers[id].ref == s.reader.ref
    && s.reader.ref < |s.calls| && !s.calls[s.reader.ref].closed
  }

  /** The steps that complete a delivery when the caller is still there. */
  function Completion(s: State, id: Id): (r: seq<Action>)
    requires id in s.callers
    ensures Closeless(r)
  {
    var enter := if s.callers[id].Registered? then [EnterSelect(id), Rendezvous(id)] else [Rendezvous(id)];
    if s.reader.Found? then [SetData] + enter else enter
  }

  /** The call received, and the object holds what the reader was about to store or had stored. */
  predicate Delivered(s: State, t: State, id: Id)
    requires Deliverable(s, id)
  {
    && t.reader == AtTop && id in t.callers && t.callers[id] == Took(s.reader.ref)
    && t.crash.None? && t.cancelled == s.cancelled && s.reader.ref < |t.calls|
    && t.calls[s.reader.ref].data == (if s.reader.Found? then Some(s.reader.reply) else s.calls[s.reader.ref].data)
  }

  lemma CompleteSending(s: State, id: Id)
    requires Deliverable(s, id) && s.reader.Sending?
    ensures Run(s, Completion(s, id)).Some? && Delivered(s, Run(s, Completion(s, id)).value, id)
  {
    if s.callers[id].Registered? {
      var t := s.(callers := s.callers[id := Waiting(s.reader.ref)]);
      RunOne(s, EnterSelect(id));
      CompleteWaiting(t, id);
      RunConcat(s, [EnterSelect(id)], [Rendezvous(id)]);
      assert Completion(s, id) == [EnterSelect(id)] + [Rendezvous(id)];
    } else {
      CompleteWaiting(s, id);
    }
  }

  lemma CompleteWaiting(s: State, id: Id)
    requires Deliverable(s, id) && s.reader.Sending? && s.callers[id].Waiting?
    ensures Run(s, [Rendezvous(id)]) == Some(s.(callers := s.callers[id := Took(s.reader.ref)], reader := AtTop))
  {
    RunOne(s, Rendezvous(id));
  }

  lemma CompletionDelivers(s: State, id: Id)
    requires Deliverable(s, id)
    ensures Run(s, Completion(s, id)).Some? && Delivered(s, Run(s, Completion(s, id)).value, id)
  {
    if s.reader.Sending? {
      CompleteSending(s, id);
    } else {
      var t := Do(s, SetData);
      CompleteSending(t, id);
      RunOne(s, SetData);
      RunConcat(s, [SetData], Completion(t, id));
    }
  }

  /** In a state reached without Close, the reader blocked at its send stays there in every
      continuation without Close exactly when the call it found has left its select. */
  lemma ReaderStuckIffCallerLeft(acts: seq<Action>)
    requires Run(Init, acts).Some? && Closeless(acts) && Run(Init, acts).value.crash.None?
    requires Run(Init, acts).value.reader.Sending?
    ensures var s := Run(Init, acts).value;
            && s.reader.id in s.callers
            && ((forall more :: Closeless(more) && Run(s, more).Some? ==> Run(s, more).value.reader == s.reader)
                <==> HasLeft(s.callers[s.reader.id]))
  {
    var s := Run(Init, acts).value;
    InvAlways(acts);
    CloselessKeepsOpen(Init, acts);
    assert Owns(s, s.reader.id, s.reader.ref);
    if HasLeft(s.callers[s.reader.id]) {
      forall more | Closeless(more) && Run(s, more).Some? ensures Run(s, more).value.reader == s.reader {
        DoomedForEver(s, Arrived(acts), more);
      }
    } else {
      CompletionDelivers(s, s.reader.id);
      var more := Completion(s, s.reader.id);
      assert Run(s, more).value.reader != s.reader;
    }
  }

  // ----- Which steps doom the reader

  /** The two steps that put the reader at the mercy of a call that is gone: finding a call that
      has left its select but has not yet deleted its entry, and a timeout of the very call the
      reader holds. */
  predicate Careless(s: State, a: Action) {
    || (a.Lookup? && s.reader.Got? && s.reader.id in s.pending
        && s.reader.id in s.callers && HasLeft(s.callers[s.reader.id]))
    || (a.Timeout? && Holds(s, a.id))
  }

  lemma HeldStep(s: State, a: Action)
    requires Enabled(s, a) && NoneClosed(s) && a != ClosePending
    requires s.reader.Found? || s.reader.Sending?
    requires Owns(s, s.reader.id, s.reader.ref) && !HasLeft(s.callers[s.reader.id])
    ensures Doomed(Do(s, a)) <==> a == Timeout(s.reader.id)
  {
  }

  lemma CarelessStepExact(s: State, arrived: set<(Id, Reply)>, a: Action)
    requires Inv(s, arrived) && Enabled(s, a) && NoneClosed(s) && !Doomed(s) && a != ClosePending
    ensures Doomed(Do(s, a)) <==> Careless(s, a)
  {
    if s.reader.Found? || s.reader.Sending? {
      HeldStep(s, a);
    }
  }

  /** After its first `k` steps the run is in a state with a stuck reader. */
  predicate DoomedAt(acts: seq<Action>, k: nat) {
    k <= |acts| && Run(Init, acts[..k]).Some? && Doomed(Run(Init, acts[..k]).value)
  }

  /** The step after the first `k` is careless. */
  predicate CarelessAt(acts: seq<Action>, k: nat) {
    k < |acts| && Run(Init, acts[..k]).Some? && Careless(Run(Init, acts[..k]).value, acts[k])
  }

  lemma DoomedAtSnoc(front: seq<Action>, a: Action)
    ensures (exists k: nat :: DoomedAt(front + [a], k)) <==>
              (exists k: nat :: DoomedAt(front, k)) || DoomedAt(front + [a], |front| + 1)
  {
    forall k: nat | k <= |front| ensures DoomedAt(front + [a], k) <==> DoomedAt(front, k) {
      assert (front + [a])[..k] == front[..k];
    }
  }

  lemma CarelessAtSnoc(front: seq<Action>, a: Action)
    ensures (exists k: nat :: CarelessAt(front + [a], k)) <==>
              (exists k: nat :: CarelessAt(front, k)) || CarelessAt(front + [a], |front|)
  {
    forall k: nat | k < |front| ensures CarelessAt(front + [a], k) <==> CarelessAt(front, k) {
      assert (front + [a])[..k] == front[..k];
    }
  }

  lemma LastIsDoomed(acts: seq<Action>)
    requires Run(Init, acts).Some?
    ensures DoomedAt(acts, |acts|) <==> Doomed(Run(Init, acts).value)
  {
    assert acts[..|acts|] == acts;
  }

  /** A run without Close avoids a stuck reader exactly when none of its steps is careless; and once
      stuck, it ends stuck. */
  lemma {:induction false} NeverDoomedIffCareful(acts: seq<Action>)
    requires Run(Init, acts).Some? && Closeless(acts)
    ensures (exists k: nat :: DoomedAt(acts, k)) <==> (exists k: nat :: CarelessAt(acts, k))
    ensures (exists k: nat :: DoomedAt(acts, k)) <==> Doomed(Run(Init, acts).value)
    decreases |acts|
  {
    LastIsDoomed(acts);
    if acts != [] {
      var front, a := acts[..|acts| - 1], acts[|acts| - 1];
      assert acts == front + [a] && acts[..|front|] == front;
      NeverDoomedIffCareful(front);
      DoomedAtSnoc(front, a);
      CarelessAtSnoc(front, a);
      InvAlways(front);
      CloselessKeepsOpen(Init, front);
      var s := Run(Init, front).value;
      if Doomed(s) {
        DoomedStep(s, Arrived(front), a);
      } else {
        CarelessStepExact(s, Arrived(front), a);
      }
    }
  }

  // ----- Which call each reply goes to

  /** The call a successful lookup names, with the reply that was looked up. */
  function FoundBy(s: State, a: Action): seq<(Id, Reply)> {
    if a.Lookup? && s.reader.Got? && s.reader.id in s.pending then [(s.reader.id, s.reader.reply)] else []
  }

  /** The call that receives at a rendezvous, with what its own object holds at that moment. */
  function DeliveredBy(s: State, a: Action): seq<(Id, Reply)> {
    if a.Rendezvous? && a.id in s.callers && s.callers[a.id].Waiting? && ValidRef(s, s.callers[a.id].ref)
       && s.calls[s.callers[a.id].ref].data.Some?
    then [(a.id, s.calls[s.callers[a.id].ref].data.value)]
    else []
  }

  /** What the reader has found and not yet handed over. */
  function InHand(s: State): seq<(Id, Reply)> {
    match s.reader
    case Found(id, _, reply) => [(id, reply)]
    case Sending(id, ref) =>
      if ValidRef(s, ref) && s.calls[ref].data.Some? then [(id, s.calls[ref].data.value)] else []
    case _ => []
  }

  /** The successful lookups of a run, in order. */
  function FoundCalls(acts: seq<Action>): seq<(Id, Reply)>
    requires Run(Init, acts).Some?
  {
    if acts == [] then []
    else FoundCalls(acts[..|acts| - 1]) + FoundBy(Run(Init, acts[..|acts| - 1]).value, acts[|acts| - 1])
  }

  /** The deliveries of a run, in order. */
  function DeliveredCalls(acts: seq<Action>): seq<(Id, Reply)>
    requires Run(Init, acts).Some?
  {
    if acts == [] then []
    else DeliveredCalls(acts[..|acts| - 1]) + DeliveredBy(Run(Init, acts[..|acts| - 1]).value, acts[|acts| - 1])
  }

  lemma HandOver(s: State, arrived: set<(Id, Reply)>, a: Action)
    requires Inv(s, arrived) && Enabled(s, a)
    ensures InHand(s) + FoundBy(s, a) == DeliveredBy(s, a) + InHand(Do(s, a))
    ensures a.Rendezvous? ==> |DeliveredBy(s, a)| == 1
  {
    if a.Rendezvous? {
      HandOverNow(s, arrived, a);
    } else if a.Lookup? || a.SetData? {
      TakeInHand(s, arrived, a);
    } else {
      KeepInHand(s, arrived, a);
    }
  }

  lemma TakeInHand(s: State, arrived: set<(Id, Reply)>, a: Action)
    requires Inv(s, arrived) && Enabled(s, a) && (a.Lookup? || a.SetData?)
    ensures InHand(s) + FoundBy(s, a) == InHand(Do(s, a)) && DeliveredBy(s, a) == []
  {
  }

  /** Only a lookup, a store and a rendezvous change what the reader holds. */
  lemma ReaderKeeps(s: State, a: Action)
    requires Enabled(s, a) && !a.Lookup? && !a.SetData? && !a.Rendezvous?
    ensures if s.reader.Found? || s.reader.Sending? then Do(s, a).reader == s.reader
            else !Do(s, a).reader.Found? && !Do(s, a).reader.Sending?
  {
  }

  lemma SameInHand(s: State, t: State)
    requires if s.reader.Found? || s.reader.Sending? then t.reader == s.reader
             else !t.reader.Found? && !t.reader.Sending?
    requires s.reader.Sending? ==> ValidRef(s, s.reader.ref) && ValidRef(t, s.reader.ref)
                                   && t.calls[s.reader.ref].data == s.calls[s.reader.ref].data
    ensures InHand(s) == InHand(t)
  {
  }

  lemma KeepInHand(s: State, arrived: set<(Id, Reply)>, a: Action)
    requires Inv(s, arrived) && Enabled(s, a) && !a.Lookup? && !a.SetData? && !a.Rendezvous?
    ensures InHand(s) == InHand(Do(s, a)) && FoundBy(s, a) == [] && DeliveredBy(s, a) == []
  {
    ReaderKeeps(s, a);
    DataStep(s, a);
    CallsGrow(s, a);
    SameInHand(s, Do(s, a));
  }

  lemma HandOverNow(s: State, arrived: set<(Id, Reply)>, a: Action)
    requires Inv(s, arrived) && Enabled(s, a) && a.Rendezvous?
    ensures InHand(s) == DeliveredBy(s, a) && |DeliveredBy(s, a)| == 1
    ensures FoundBy(s, a) == [] && InHand(Do(s, a)) == []
  {
    assert Owns(s, s.reader.id, s.reader.ref) && Owns(s, a.id, s.reader.ref);
  }

  /** Every successful lookup is followed by the delivery of the very reply that was looked up to the
      very call that was found, in order; at most the last one is still in the reader's hands. */
  lemma {:induction false} FoundCallsAreDelivered(acts: seq<Action>)
    requires Run(Init, acts).Some?
    ensures FoundCalls(acts) == DeliveredCalls(acts) + InHand(Run(Init, acts).value)
    decreases |acts|
  {
    if acts != [] {
      var front, a := acts[..|acts| - 1], acts[|acts| - 1];
      var s := Run(Init, front).value;
      FoundCallsAreDelivered(front);
      InvAlways(front);
      HandOver(s, Arrived(front), a);
      AppendBoth(FoundCalls(front), DeliveredCalls(front), InHand(s),
                 FoundBy(s, a), DeliveredBy(s, a), InHand(Do(s, a)));
    }
  }

  lemma AppendBoth<T>(found: seq<T>, delivered: seq<T>, hand: seq<T>, f: seq<T>, d: seq<T>, hand': seq<T>)
    requires found == delivered + hand && hand + f == d + hand'
    ensures found + f == (delivered + d) + hand'
  {
    assert found + f == delivered + (hand + f);
    assert delivered + (d + hand') == (delivered + d) + hand';
  }

  /** The reader serving one reply to a call that waits: read, look up, store, rendezvous. */
  lemma ServeOne(s: State, c: Id, reply: Reply) returns (t: State)
    requires s.crash.None? && s.reader.AtTop? && !s.cancelled && c != ""
    requires c in s.callers && s.callers[c].Waiting? && c in s.pending && s.pending[c] == s.callers[c].ref
    requires s.callers[c].ref < |s.calls| && !s.calls[s.callers[c].ref].closed
    ensures Run(s, [TestContext, Deliver(c, reply), Lookup, SetData, Rendezvous(c)]) == Some(t)
    ensures t.crash.None? && t.reader.AtTop? && !t.cancelled && t.pending == s.pending
    ensures c in t.callers && t.callers[c].Took?
  {
    var s0 := s.(reader := Found(c, s.pending[c], reply));
    LookUpOne(s, c, reply);
    CompletionDelivers(s0, c);
    RunConcat(s, [TestContext, Deliver(c, reply), Lookup], [SetData, Rendezvous(c)]);
    assert [TestContext, Deliver(c, reply), Lookup] + [SetData, Rendezvous(c)]
        == [TestContext, Deliver(c, reply), Lookup, SetData, Rendezvous(c)];
    t := Run(s0, [SetData, Rendezvous(c)]).value;
    RunPrefix(s0, [SetData, Rendezvous(c)], 1);
    RunOne(s0, SetData);
    assert [SetData, Rendezvous(c)][..1] == [SetData];
    assert t == Do(Do(s0, SetData), Rendezvous(c));
  }

  lemma LookUpOne(s: State, c: Id, reply: Reply)
    requires s.crash.None? && s.reader.AtTop? && !s.cancelled && c != "" && c in s.pending
    ensures Run(s, [TestContext, Deliver(c, reply), Lookup]) == Some(s.(reader := Found(c, s.pending[c], reply)))
  {
    var s1, s2 := s.(reader := Reading), s.(reader := Got(c, reply));
    RunOne(s, TestContext);
    RunOne(s1, Deliver(c, reply));
    RunConcat(s, [TestContext], [Deliver(c, reply)]);
    RunOne(s2, Lookup);
    RunConcat(s, [TestContext] + [Deliver(c, reply)], [Lookup]);
    assert [TestContext] + [Deliver(c, reply)] + [Lookup] == [TestContext, Deliver(c, reply), Lookup];
  }

  /** Two replies under one id are enough to stop the reader for ever: no timeout, no Close, and
      no call leaves between a lookup and its send. */
  lemma DuplicateReplyStopsTheReader(s: State, c: Id, first: Reply, second: Reply)
    requires s.crash.None? && s.reader.AtTop? && !s.cancelled && c != ""
    requires c in s.callers && s.callers[c].Waiting? && c in s.pending && s.pending[c] == s.callers[c].ref
    requires s.callers[c].ref < |s.calls| && !s.calls[s.callers[c].ref].closed
    ensures var acts := [TestContext, Deliver(c, first), Lookup, SetData, Rendezvous(c)]
                        + [TestContext, Deliver(c, second), Lookup];
            Run(s, acts).Some? && Doomed(Run(s, acts).value) && Holds(Run(s, acts).value, c)
  {
    var t := ServeOne(s, c, first);
    LookUpOne(t, c, second);
    RunConcat(s, [TestContext, Deliver(c, first), Lookup, SetData, Rendezvous(c)],
              [TestContext, Deliver(c, second), Lookup]);
  }

  /** The state `DuplicateReplyStopsTheReader` starts from is reached by any first call. */
  lemma FirstCallWaits(c: Id)
    requires c != ""
    ensures Run(Init, [Publish(c, true), Register(c), EnterSelect(c)])
            == Some(Init.(callers := map[c := Waiting(0)], pending := map[c := 0], calls := [Call(false, None)]))
  {
    var s1 := Init.(callers := map[c := Published]);
    var s2 := Init.(callers := map[c := Registered(0)], pending := map[c := 0], calls := [Call(false, None)]);
    RunOne(Init, Publish(c, true));
    assert Do(Init, Publish(c, true)) == s1;
    RunOne(s1, Register(c));
    assert Do(s1, Register(c)) == s2;
    RunConcat(Init, [Publish(c, true)], [Register(c)]);
    RunOne(s2, EnterSelect(c));
    assert Do(s2, EnterSelect(c)).callers == map[c := Waiting(0)];
    RunConcat(Init, [Publish(c, true)] + [Register(c)], [EnterSelect(c)]);
    assert [Publish(c, true)] + [Register(c)] + [EnterSelect(c)] == [Publish(c, true), Register(c), EnterSelect(c)];
  }
}
