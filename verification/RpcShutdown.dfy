/**
 Shutdown of a gateway channel - what the reader still does after its context is
 cancelled, and when closing the pending calls panics - and termination of calls.
 */
module RpcShutdown {
  import opened Wrappers
  import opened RpcProtocol
  import opened RpcSafety
  import opened RpcProgress

  predicate IsRead(a: Action) { a.Deliver? || a.ReadBroken? }

  /** After the cancel the reader consumes at most one more envelope, and only one it was already waiting for. */
  lemma {:induction false} AtMostOneMoreEnvelope(s: State, acts: seq<Action>)
    requires s.cancelled && Run(s, acts).Some?
    ensures Run(s, acts).value.cancelled
    ensures Count(acts, IsRead) + (if Run(s, acts).value.reader.Reading? then 1 else 0)
            <= if s.reader.Reading? then 1 else 0
    decreases |acts|
  {
    if acts != [] {
      AtMostOneMoreEnvelope(s, acts[..|acts| - 1]);
      CancelledStep(Run(s, acts[..|acts| - 1]).value, acts[|acts| - 1]);
    }
  }

  lemma CancelledStep(s: State, a: Action)
    requires s.cancelled && Enabled(s, a)
    ensures Do(s, a).cancelled
    ensures (if IsRead(a) then 1 else 0) + (if Do(s, a).reader.Reading? then 1 else 0)
            <= if s.reader.Reading? then 1 else 0
  {
  }

  // ----- Send on a closed channel

  /** After a cancel, the reader positions from which a send on a closed channel can still happen:
      it passed its context check before the cancel, and if it already has an envelope in hand, the
      call that envelope names has not returned yet. */
  predicate CanStillPanic(s: State) {
    match s.reader
    case Reading => true
    case Got(id, _) => id !in s.callers || !s.callers[id].Returned?
    case Found(id, _, _) => id in s.callers && !s.callers[id].Returned?
    case Sending(id, _) => id in s.callers && !s.callers[id].Returned?
    case _ => false
  }

  /** The reader's object, once its call has returned, is out of the map and so never closed. */
  ghost predicate Harmless(s: State) {
    && s.cancelled && !CanStillPanic(s) && s.crash != Some(SendOnClosed)
    && (s.reader.Found? || s.reader.Sending? ==> ValidRef(s, s.reader.ref) && !s.calls[s.reader.ref].closed)
  }

  lemma HarmlessStep(s: State, arrived: set<(Id, Reply)>, a: Action)
    requires Inv(s, arrived) && Harmless(s) && Enabled(s, a)
    ensures Harmless(Do(s, a))
  {
    CancelledStep(s, a);
    if s.reader.Found? || s.reader.Sending? {
      assert Owns(s, s.reader.id, s.reader.ref);
      LeftStays(s, a, s.reader.id);
      if a == ClosePending {
        ReturnedStaysOpen(s, s.reader.id, s.reader.ref);
      } else {
        HeldStays(s, a);
      }
    } else if s.reader.Got? {
      LeftStays(s, a, s.reader.id);
    }
  }

  /** Close passes by the object of a call that has returned. */
  lemma ReturnedStaysOpen(s: State, id: Id, ref: Ref)
    requires ObjectsInv(s) && TableInv(s) && Owns(s, id, ref) && s.callers[id].Returned?
    ensures ref !in s.pending.Values
  {
    forall i | i in s.pending ensures s.pending[i] != ref {
      assert Owns(s, i, s.pending[i]);
    }
  }

  lemma {:induction false} HarmlessForEver(s: State, arrived: set<(Id, Reply)>, acts: seq<Action>)
    requires Inv(s, arrived) && Harmless(s) && Run(s, acts).Some?
    ensures Inv(Run(s, acts).value, arrived + Arrived(acts)) && Harmless(Run(s, acts).value)
    decreases |acts|
  {
    if acts == [] {
      assert arrived + Arrived(acts) == arrived;
    } else {
      var front, a := acts[..|acts| - 1], acts[|acts| - 1];
      assert acts == front + [a];
      HarmlessForEver(s, arrived, front);
      HarmlessStep(Run(s, front).value, arrived + Arrived(front), a);
      InvStep(Run(s, front).value, arrived + Arrived(front), a);
      assert arrived + Arrived(acts) == arrived + Arrived(front) + NewlyArrived(a);
    }
  }

  /** `acts` leads from `s` to the panic. */
  predicate Panics(s: State, acts: seq<Action>) {
    Run(s, acts).Some? && Run(s, acts).value.crash == Some(SendOnClosed)
  }

  lemma PanicsAfter(s: State, a: Action, acts: seq<Action>)
    requires Enabled(s, a) && Panics(Do(s, a), acts)
    ensures Panics(s, [a] + acts)
  {
    RunOne(s, a);
    RunConcat(s, [a], acts);
  }

  // ----- Clearing entries out of the pending map

  /** How many steps a call has left at most. */
  function Rank(p: Phase): nat {
    match p
    case Published => 5
    case Registered(_) => 4
    case Waiting(_) => 3
    case Took(_) => 2
    case Leaving(_, _) => 1
    case Returned(_, _) => 0
  }

  /** `t` is `s` after the calls in `gone` have run to their deletion. */
  ghost predicate AfterLeaving(s: State, gone: set<Id>, t: State) {
    && t == s.(callers := t.callers, pending := s.pending - gone)
    && t.callers.Keys == s.callers.Keys
    && (forall i <- s.callers :: i !in gone ==> t.callers[i] == s.callers[i])
  }

  /** The next step of a call on its way out: it enters its select, times out, reads, or deletes. */
  function WayOut(p: Phase, id: Id): Action {
    match p
    case Registered(_) => EnterSelect(id)
    case Waiting(_) => Timeout(id)
    case Took(_) => ReadData(id)
    case _ => Delete(id)
  }

  /** Only call `id` and its entry changed from `s` to `t`. */
  ghost predicate OnlyCall(s: State, t: State, id: Id) {
    && t == s.(callers := t.callers, pending := t.pending)
    && t.callers.Keys == s.callers.Keys
    && (forall i <- s.callers :: i != id ==> t.callers[i] == s.callers[i])
  }

  lemma WayOutStep(s: State, id: Id)
    requires s.crash.None? && id in s.callers && InTable(s.callers[id])
    requires s.callers[id].Took? ==> ValidRef(s, s.callers[id].ref)
    ensures var a := WayOut(s.callers[id], id);
            && Enabled(s, a) && OnlyCall(s, Do(s, a), id) && NewlyArrived(a) == {}
            && Rank(Do(s, a).callers[id]) < Rank(s.callers[id])
            && Do(s, a).pending == if s.callers[id].Leaving? then s.pending - {id} else s.pending
  {
  }

  /** A call in the map can always be run to its deletion, and nothing else changes. */
  lemma LeaveOne(s: State, arrived: set<(Id, Reply)>, id: Id) returns (acts: seq<Action>, t: State)
    requires Inv(s, arrived) && s.crash.None? && id in s.pending
    ensures Run(s, acts) == Some(t) && AfterLeaving(s, {id}, t) && Inv(t, arrived)
    decreases Rank(s.callers[id])
  {
    assert CallerOk(s, arrived, id, s.callers[id]);
    var a := WayOut(s.callers[id], id);
    WayOutStep(s, id);
    InvStep(s, arrived, a);
    assert arrived + NewlyArrived(a) == arrived;
    RunOne(s, a);
    if s.callers[id].Leaving? {
      acts, t := [a], Do(s, a);
    } else {
      var rest;
      rest, t := LeaveOne(Do(s, a), arrived, id);
      acts := [a] + rest;
      RunConcat(s, [a], rest);
    }
  }

  lemma LeavingComposes(s: State, id: Id, u: State, gone: set<Id>)
    requires AfterLeaving(s, {id}, u) && id in gone && gone <= s.pending.Keys
    ensures u.crash == s.crash && gone - {id} <= u.pending.Keys
    ensures forall t :: AfterLeaving(u, gone - {id}, t) ==> AfterLeaving(s, gone, t)
  {
    assert s.pending - {id} - (gone - {id}) == s.pending - gone;
  }

  lemma LeaveAll(s: State, arrived: set<(Id, Reply)>, gone: set<Id>) returns (acts: seq<Action>, t: State)
    requires Inv(s, arrived) && s.crash.None? && gone <= s.pending.Keys
    ensures Run(s, acts) == Some(t) && AfterLeaving(s, gone, t)
    decreases gone
  {
    if gone == {} {
      acts, t := [], s;
      assert s.pending - gone == s.pending;
    } else {
      var id :| id in gone;
      var first, u := LeaveOne(s, arrived, id);
      LeavingComposes(s, id, u, gone);
      var rest;
      rest, t := LeaveAll(u, arrived, gone - {id});
      acts := first + rest;
      RunConcat(s, first, rest);
    }
  }

  /** The entries a pass of Close would stop on. */
  ghost function ClosedEntries(s: State): set<Id>
    requires ValidPending(s)
  {
    set id <- s.pending | s.calls[s.pending[id]].closed
  }

  // ----- Runs to the panic

  /** The reader holds an object that is closed already. */
  predicate HoldsClosed(s: State) {
    (s.reader.Found? || s.reader.Sending?) && ValidRef(s, s.reader.ref) && s.calls[s.reader.ref].closed
  }

  lemma SendOnClosedNext(s: State) returns (acts: seq<Action>)
    requires s.crash.None? && HoldsClosed(s)
    ensures Panics(s, acts)
  {
    if s.reader.Found? {
      var t := Do(s, SetData);
      RunOne(t, SendPanics);
      PanicsAfter(s, SetData, [SendPanics]);
      acts := [SetData] + [SendPanics];
    } else {
      RunOne(s, SendPanics);
      acts := [SendPanics];
    }
  }

  /** Closing the pending calls under a reader that holds one of them. */
  lemma CloseUnderReader(s: State) returns (acts: seq<Action>)
    requires s.crash.None? && ValidPending(s) && !SomePendingClosed(s)
    requires s.reader.Found? || s.reader.Sending?
    requires s.reader.id in s.pending && s.pending[s.reader.id] == s.reader.ref
    ensures Panics(s, acts)
  {
    var s1 := Do(s, BeginClose);
    assert ValidPending(s1) && !SomePendingClosed(s1);
    var s2 := s1.(closing := s.closing, calls := RpcProtocol.CloseAll(s.calls, s.pending));
    assert Do(s1, ClosePending) == s2 && s.reader.ref in s.pending.Values;
    acts := SendOnClosedNext(s2);
    PanicsAfter(s1, ClosePending, acts);
    PanicsAfter(s, BeginClose, [ClosePending] + acts);
    acts := [BeginClose] + ([ClosePending] + acts);
  }

  /** From a held object: send on it if it is closed, otherwise clear the map of closed entries
      so that the next pass of Close goes through, and close it. */
  lemma PanicFromHeld(s: State, arrived: set<(Id, Reply)>) returns (acts: seq<Action>)
    requires Inv(s, arrived) && s.crash.None? && ValidPending(s)
    requires s.reader.Found? || s.reader.Sending?
    requires CanStillPanic(s) || HoldsClosed(s)
    ensures Panics(s, acts)
  {
    assert Owns(s, s.reader.id, s.reader.ref);
    if HoldsClosed(s) {
      acts := SendOnClosedNext(s);
    } else {
      assert s.reader.id in s.pending && Owns(s, s.reader.id, s.pending[s.reader.id]);
      var clear, t := LeaveAll(s, arrived, ClosedEntries(s));
      assert ValidPending(t) && !SomePendingClosed(t);
      var more := CloseUnderReader(t);
      RunConcat(s, clear, more);
      acts := clear + more;
    }
  }

  /** From an envelope in hand whose call is in the map, or can still get there. */
  lemma PanicFromGot(s: State, arrived: set<(Id, Reply)>) returns (acts: seq<Action>)
    requires Inv(s, arrived) && s.crash.None? && ValidPending(s)
    requires s.reader.Got? && CanStillPanic(s)
    ensures Panics(s, acts)
    decreases if s.reader.id !in s.callers then 2 else if s.callers[s.reader.id].Published? then 1 else 0
  {
    var id := s.reader.id;
    var a := if id !in s.callers then Publish(id, true) else if s.callers[id].Published? then Register(id) else Lookup;
    InvStep(s, arrived, a);
    assert arrived + NewlyArrived(a) == arrived;
    var t := Do(s, a);
    if a == Lookup {
      assert id in s.pending && Owns(s, id, s.pending[id]);
      acts := PanicFromHeld(t, arrived);
    } else {
      acts := PanicFromGot(t, arrived);
    }
    PanicsAfter(s, a, acts);
    acts := [a] + acts;
  }

  /** There is always a correlation id that no call has used. */
  lemma FreshId(used: set<Id>) returns (id: Id)
    ensures id != "" && id !in used
  {
    if used == {} {
      id := "x";
    } else {
      var longest := Longest(used);
      id := longest + "x";
      assert |id| > |longest|;
    }
  }

  lemma Longest(used: set<Id>) returns (m: Id)
    requires used != {}
    ensures m in used && forall u <- used :: |u| <= |m|
    decreases |used|
  {
    var u :| u in used;
    if used == {u} {
      m := u;
    } else {
      var rest := used - {u};
      assert used == rest + {u};
      var v := Longest(rest);
      m := if |u| <= |v| then v else u;
    }
  }

  lemma PanicFromReading(s: State, arrived: set<(Id, Reply)>) returns (acts: seq<Action>)
    requires Inv(s, arrived) && s.crash.None? && ValidPending(s) && s.reader.Reading?
    ensures Panics(s, acts)
  {
    var id := FreshId(s.callers.Keys);
    var a := Deliver(id, "");
    InvStep(s, arrived, a);
    acts := PanicFromGot(Do(s, a), arrived + NewlyArrived(a));
    PanicsAfter(s, a, acts);
    acts := [a] + acts;
  }

  /** After a cancel, a send on a closed channel is reachable exactly when the reader is past its
      context check with an envelope that can still name a live call, or holds a closed object. */
  lemma SendPanicReachableIff(acts: seq<Action>)
    requires Run(Init, acts).Some?
    requires Run(Init, acts).value.cancelled && Run(Init, acts).value.crash.None?
    ensures var s := Run(Init, acts).value;
            (exists more :: Panics(s, more)) <==> CanStillPanic(s) || HoldsClosed(s)
  {
    var s := Run(Init, acts).value;
    InvAlways(acts);
    NoDanglingReference(acts);
    if CanStillPanic(s) || HoldsClosed(s) {
      var more;
      if s.reader.Reading? {
        more := PanicFromReading(s, Arrived(acts));
      } else if s.reader.Got? {
        more := PanicFromGot(s, Arrived(acts));
      } else {
        more := PanicFromHeld(s, Arrived(acts));
      }
      assert Panics(s, more);
    } else {
      assert Harmless(s);
      forall more | Run(s, more).Some? ensures !Panics(s, more) {
        HarmlessForEver(s, Arrived(acts), more);
      }
    }
  }

  // ----- Close of a closed channel

  lemma {:induction false} OwnsStable(acts: seq<Action>, k: nat, id: Id, ref: Ref)
    requires Run(Init, acts).Some? && k <= |acts|
    requires Run(Init, acts[..k]).Some? && Owns(Run(Init, acts[..k]).value, id, ref)
    ensures Owns(Run(Init, acts).value, id, ref)
    decreases |acts|
  {
    if k == |acts| {
      assert acts[..k] == acts;
    } else {
      var front := acts[..|acts| - 1];
      assert front[..k] == acts[..k];
      OwnsStable(front, k, id, ref);
      OwnsStep(Run(Init, front).value, acts[|acts| - 1], id, ref);
    }
  }

  /** The pending entry `id -> ref` was closed by the k-th step. */
  ghost predicate ClosedAt(acts: seq<Action>, k: nat, id: Id, ref: Ref) {
    && k < |acts| && acts[k] == ClosePending && Run(Init, acts[..k]).Some?
    && id in Run(Init, acts[..k]).value.pending && Run(Init, acts[..k]).value.pending[id] == ref
  }

  lemma NewlyClosed(s: State, a: Action, ref: Ref)
    requires Enabled(s, a) && ref < |Do(s, a).calls| && Do(s, a).calls[ref].closed
    requires ref >= |s.calls| || !s.calls[ref].closed
    ensures a == ClosePending && ref in s.pending.Values
  {
  }

  /** A closed object was in the map when some Close went through it. */
  lemma {:induction false} ClosedByClose(acts: seq<Action>, ref: Ref) returns (k: nat, id: Id)
    requires Run(Init, acts).Some?
    requires ref < |Run(Init, acts).value.calls| && Run(Init, acts).value.calls[ref].closed
    ensures ClosedAt(acts, k, id, ref)
    decreases |acts|
  {
    var n := |acts| - 1;
    var front, a := acts[..n], acts[n];
    var s := Run(Init, front).value;
    if ref < |s.calls| && s.calls[ref].closed {
      k, id := ClosedByClose(front, ref);
      assert front[..k] == acts[..k];
    } else {
      NewlyClosed(s, a, ref);
      k := n;
      id :| id in s.pending && s.pending[id] == ref;
    }
  }

  /** A pending entry whose object is closed was in the map, as the same entry, at an earlier Close. */
  lemma PendingClosedBefore(acts: seq<Action>, id: Id) returns (j: nat)
    requires Run(Init, acts).Some? && id in Run(Init, acts).value.pending && ValidPending(Run(Init, acts).value)
    requires Run(Init, acts).value.calls[Run(Init, acts).value.pending[id]].closed
    ensures ClosedAt(acts, j, id, Run(Init, acts).value.pending[id])
  {
    var s := Run(Init, acts).value;
    var ref := s.pending[id];
    var owner;
    j, owner := ClosedByClose(acts, ref);
    InvAlways(acts);
    InvAlways(acts[..j]);
    assert Owns(Run(Init, acts[..j]).value, owner, ref);
    OwnsStable(acts, j, owner, ref);
    assert Owns(s, id, ref);
  }

  lemma CloseOfClosedCause(s: State, a: Action) returns (id: Id)
    requires Enabled(s, a) && Do(s, a).crash == Some(CloseOfClosed)
    ensures a == ClosePending && ValidPending(s) && id in s.pending && s.calls[s.pending[id]].closed
  {
    id :| id in s.pending && s.calls[s.pending[id]].closed;
  }

  /** A pass of Close closes every entry's object, or stops on one that was closed already. */
  lemma PassOverEntry(s: State, id: Id)
    requires Enabled(s, ClosePending) && id in s.pending
    ensures var t := Do(s, ClosePending);
            && (t.crash.None? ==> ValidRef(t, s.pending[id]) && t.calls[s.pending[id]].closed)
            && (s.calls[s.pending[id]].closed ==> t.crash == Some(CloseOfClosed))
  {
    assert s.pending[id] in s.pending.Values;
  }

  /** A pass of Close that the run survives leaves each entry's object closed from then on. */
  lemma {:induction false} PassCloses(acts: seq<Action>, j: nat, id: Id, ref: Ref)
    requires Run(Init, acts).Some? && Run(Init, acts).value.crash.None? && ClosedAt(acts, j, id, ref)
    ensures ValidRef(Run(Init, acts).value, ref) && Run(Init, acts).value.calls[ref].closed
    decreases |acts|
  {
    var n := |acts| - 1;
    var front := acts[..n];
    if j == n {
      PassOverEntry(Run(Init, front).value, id);
    } else {
      assert front[..j] == acts[..j];
      PassCloses(front, j, id, ref);
      CallsGrow(Run(Init, front).value, acts[n]);
    }
  }

  /** Two passes of Close over the map with one and the same entry in it. */
  ghost predicate ClosedTwice(acts: seq<Action>) {
    exists j: nat, id, ref :: j < |acts| - 1 && ClosedAt(acts, j, id, ref) && ClosedAt(acts, |acts| - 1, id, ref)
  }

  lemma DoubleCloseNeedsTwoCloses(acts: seq<Action>)
    requires Run(Init, acts).Some? && Run(Init, acts).value.crash == Some(CloseOfClosed)
    ensures ClosedTwice(acts)
  {
    var n := |acts| - 1;
    var front := acts[..n];
    var s := Run(Init, front).value;
    var id := CloseOfClosedCause(s, acts[n]);
    var j := PendingClosedBefore(front, id);
    assert front[..j] == acts[..j];
    assert ClosedAt(acts, j, id, s.pending[id]) && ClosedAt(acts, n, id, s.pending[id]);
  }

  lemma TwoClosesCrash(acts: seq<Action>, j: nat, id: Id, ref: Ref)
    requires Run(Init, acts).Some?
    requires j < |acts| - 1 && ClosedAt(acts, j, id, ref) && ClosedAt(acts, |acts| - 1, id, ref)
    ensures Run(Init, acts).value.crash == Some(CloseOfClosed)
  {
    var front := acts[..|acts| - 1];
    assert front[..j] == acts[..j] && ClosedAt(front, j, id, ref);
    PassCloses(front, j, id, ref);
    PassOverEntry(Run(Init, front).value, id);
  }

  /** A run ends in a double close exactly when its last step is a pass of Close over an entry that
      was already in the map, with the same object, at an earlier pass. */
  lemma DoubleCloseIff(acts: seq<Action>)
    requires Run(Init, acts).Some?
    ensures Run(Init, acts).value.crash == Some(CloseOfClosed) <==> ClosedTwice(acts)
  {
    if Run(Init, acts).value.crash == Some(CloseOfClosed) {
      DoubleCloseNeedsTwoCloses(acts);
    }
    forall j: nat, id, ref | j < |acts| - 1 && ClosedAt(acts, j, id, ref) && ClosedAt(acts, |acts| - 1, id, ref)
      ensures Run(Init, acts).value.crash == Some(CloseOfClosed)
    {
      TwoClosesCrash(acts, j, id, ref);
    }
  }

  // ----- The nil envelope: what ReadEnvelope returns once the broker has ended the delivery stream

  /** `acts` leads from `s` to the nil dereference. */
  predicate MeetsNil(s: State, acts: seq<Action>) {
    Run(s, acts).Some? && Run(s, acts).value.crash == Some(NilEnvelope)
  }

  lemma MeetsNilAfter(s: State, first: seq<Action>, acts: seq<Action>)
    requires Run(s, first).Some? && MeetsNil(Run(s, first).value, acts)
    ensures MeetsNil(s, first + acts)
  {
    RunConcat(s, first, acts);
  }

  /** Until the first cancel nothing is closed and the reader has not stopped. */
  predicate OpenUntilCancel(s: State) {
    s.cancelled || (s.closing == 0 && NoneClosed(s) && !s.reader.Stopped?)
  }

  lemma {:induction false} OpenUntilCancelAlways(acts: seq<Action>)
    requires Run(Init, acts).Some?
    ensures OpenUntilCancel(Run(Init, acts).value)
    decreases |acts|
  {
    if acts != [] {
      OpenUntilCancelAlways(acts[..|acts| - 1]);
      OpenUntilCancelStep(Run(Init, acts[..|acts| - 1]).value, acts[|acts| - 1]);
    }
  }

  lemma OpenUntilCancelStep(s: State, a: Action)
    requires OpenUntilCancel(s) && Enabled(s, a)
    ensures OpenUntilCancel(Do(s, a))
  {
    if !s.cancelled {
      CloselessStep(s, a);
    }
  }

  lemma NilFromReading(s: State) returns (acts: seq<Action>)
    requires s.crash.None? && s.reader.Reading?
    ensures MeetsNil(s, acts)
  {
    RunOne(s, EndStream);
    RunOne(Do(s, EndStream), ReadEnded);
    MeetsNilAfter(s, [EndStream], [ReadEnded]);
    acts := [EndStream] + [ReadEnded];
  }

  lemma NilFromTop(s: State) returns (acts: seq<Action>)
    requires s.crash.None? && s.reader.AtTop? && !s.cancelled
    ensures MeetsNil(s, acts)
  {
    RunOne(s, TestContext);
    acts := NilFromReading(Do(s, TestContext));
    MeetsNilAfter(s, [TestContext], acts);
    acts := [TestContext] + acts;
  }

  /** With an envelope in hand: if its call is in the map the call leaves first, so the lookup fails. */
  lemma NilFromGot(s: State, arrived: set<(Id, Reply)>) returns (acts: seq<Action>)
    requires Inv(s, arrived) && s.crash.None? && s.reader.Got? && !s.cancelled
    ensures MeetsNil(s, acts)
  {
    var first, t := [], s;
    if s.reader.id in s.pending {
      first, t := LeaveOne(s, arrived, s.reader.id);
    }
    RunOne(t, Lookup);
    acts := NilFromTop(Do(t, Lookup));
    MeetsNilAfter(t, [Lookup], acts);
    MeetsNilAfter(s, first, [Lookup] + acts);
    acts := first + ([Lookup] + acts);
  }

  /** With an object in hand whose call can still receive: the delivery completes first. */
  lemma NilFromHeld(s: State, arrived: set<(Id, Reply)>) returns (acts: seq<Action>)
    requires Inv(s, arrived) && OpenUntilCancel(s) && s.crash.None? && !s.cancelled && !Doomed(s)
    requires s.reader.Found? || s.reader.Sending?
    ensures MeetsNil(s, acts)
  {
    var id := s.reader.id;
    assert Owns(s, id, s.reader.ref);
    CompletionDelivers(s, id);
    acts := NilFromTop(Run(s, Completion(s, id)).value);
    MeetsNilAfter(s, Completion(s, id), acts);
    acts := Completion(s, id) + acts;
  }

  /** The reader is not reading and never will be again. */
  predicate ReadsNoMore(s: State) {
    && !s.reader.Reading? && s.crash != Some(NilEnvelope)
    && (s.cancelled || Doomed(s))
  }

  lemma ReadsNoMoreStep(s: State, arrived: set<(Id, Reply)>, a: Action)
    requires Inv(s, arrived) && OpenUntilCancel(s) && ReadsNoMore(s) && Enabled(s, a)
    ensures ReadsNoMore(Do(s, a))
  {
    if s.cancelled {
      CancelledStep(s, a);
    } else {
      DoomedStep(s, arrived, a);
    }
  }

  lemma {:induction false} ReadsNoMoreForEver(s: State, arrived: set<(Id, Reply)>, acts: seq<Action>)
    requires Inv(s, arrived) && OpenUntilCancel(s) && ReadsNoMore(s) && Run(s, acts).Some?
    ensures var t := Run(s, acts).value;
            Inv(t, arrived + Arrived(acts)) && OpenUntilCancel(t) && ReadsNoMore(t)
    decreases |acts|
  {
    if acts == [] {
      assert arrived + Arrived(acts) == arrived;
    } else {
      var front, a := acts[..|acts| - 1], acts[|acts| - 1];
      assert acts == front + [a];
      ReadsNoMoreForEver(s, arrived, front);
      var t := Run(s, front).value;
      ReadsNoMoreStep(t, arrived + Arrived(front), a);
      OpenUntilCancelStep(t, a);
      InvStep(t, arrived + Arrived(front), a);
      assert arrived + Arrived(acts) == arrived + Arrived(front) + NewlyArrived(a);
    }
  }

  /** The nil dereference is reachable exactly while the reader is reading, cancelled or not, or can
      still come back to reading: not cancelled, and not holding the object of a call that has left. */
  lemma NilEnvelopeReachableIff(acts: seq<Action>)
    requires Run(Init, acts).Some? && Run(Init, acts).value.crash.None?
    ensures var s := Run(Init, acts).value;
            (exists more :: MeetsNil(s, more)) <==> s.reader.Reading? || (!s.cancelled && !Doomed(s))
  {
    var s := Run(Init, acts).value;
    InvAlways(acts);
    OpenUntilCancelAlways(acts);
    if s.reader.Reading? || (!s.cancelled && !Doomed(s)) {
      var more;
      if s.reader.Reading? {
        more := NilFromReading(s);
      } else if s.reader.AtTop? {
        more := NilFromTop(s);
      } else if s.reader.Got? {
        more := NilFromGot(s, Arrived(acts));
      } else {
        more := NilFromHeld(s, Arrived(acts));
      }
      assert MeetsNil(s, more);
    } else {
      forall more | Run(s, more).Some? ensures !MeetsNil(s, more) {
        ReadsNoMoreForEver(s, Arrived(acts), more);
      }
    }
  }

  lemma EndStep(s: State, a: Action)
    requires Enabled(s, a) && a != EndStream && !s.streamEnded
    ensures !Do(s, a).streamEnded && Do(s, a).crash != Some(NilEnvelope)
  {
  }

  /** And it takes the broker to end the stream. */
  lemma {:induction false} NilEnvelopeNeedsEnd(acts: seq<Action>)
    requires Run(Init, acts).Some? && EndStream !in acts
    ensures !Run(Init, acts).value.streamEnded && Run(Init, acts).value.crash != Some(NilEnvelope)
    decreases |acts|
  {
    if acts != [] {
      var front := acts[..|acts| - 1];
      NilEnvelopeNeedsEnd(front);
      EndStep(Run(Init, front).value, acts[|acts| - 1]);
    }
  }

  // ----- Termination of DoRPC

  /** The call that takes a step, if the step belongs to one. */
  function Actor(a: Action): Option<Id> {
    match a
    case Publish(id, _) => Some(id)
    case Register(id) => Some(id)
    case EnterSelect(id) => Some(id)
    case Timeout(id) => Some(id)
    case TakeClosed(id) => Some(id)
    case ReadData(id) => Some(id)
    case Delete(id) => Some(id)
    case Rendezvous(id) => Some(id)
    case _ => None
  }

  function StepsOf(acts: seq<Action>, id: Id): nat {
    if acts == [] then 0
    else StepsOf(acts[..|acts| - 1], id) + if Actor(acts[|acts| - 1]) == Some(id) then 1 else 0
  }

  /** A published call makes at most five more steps in any run, however it is interleaved. */
  lemma {:induction false} CallMakesFewSteps(s: State, acts: seq<Action>, id: Id)
    requires id in s.callers && Run(s, acts).Some?
    ensures id in Run(s, acts).value.callers
    ensures StepsOf(acts, id) + Rank(Run(s, acts).value.callers[id]) <= Rank(s.callers[id]) <= 5
    decreases |acts|
  {
    if acts != [] {
      CallMakesFewSteps(s, acts[..|acts| - 1], id);
      CallStep(Run(s, acts[..|acts| - 1]).value, acts[|acts| - 1], id);
    }
  }

  lemma CallStep(s: State, a: Action, id: Id)
    requires Enabled(s, a) && id in s.callers
    ensures id in Do(s, a).callers
    ensures if Actor(a) == Some(id) then Rank(Do(s, a).callers[id]) < Rank(s.callers[id])
            else Do(s, a).callers[id] == s.callers[id]
  {
  }

  /** And while the process lives it always has a step of its own to make: no call waits for ever. */
  lemma CallIsNeverBlocked(acts: seq<Action>, id: Id)
    requires Run(Init, acts).Some? && Run(Init, acts).value.crash.None?
    requires id in Run(Init, acts).value.callers && !Run(Init, acts).value.callers[id].Returned?
    ensures exists a :: Actor(a) == Some(id) && !a.Rendezvous? && Enabled(Run(Init, acts).value, a)
  {
    InvAlways(acts);
    var s := Run(Init, acts).value;
    var a := match s.callers[id]
      case Published => Register(id)
      case Registered(_) => EnterSelect(id)
      case Waiting(_) => Timeout(id)
      case Took(_) => ReadData(id)
      case Leaving(_, _) => Delete(id)
      case Returned(_, _) => Stop;
    assert CallerOk(s, Arrived(acts), id, s.callers[id]);
    assert Actor(a) == Some(id) && Enabled(s, a);
  }
}
