/**
 What each call returns, as a function of the actions of the run alone: which of the
 four endings it had, and which reply had been stored for it when it read.
 */
module RpcOutcomes {
  import opened Wrappers
  import opened RpcProtocol
  import opened RpcSafety
  import opened RpcProgress
  import opened RpcShutdown

  // ----- Reading a run

  /** The envelope the reader received last. */
  function LastEnvelope(acts: seq<Action>): Option<(Id, Reply)> {
    if acts == [] then None
    else if acts[|acts| - 1].Deliver? then Some((acts[|acts| - 1].id, acts[|acts| - 1].reply))
    else LastEnvelope(acts[..|acts| - 1])
  }

  /** The reply stored last for call `id`: the one in the envelope at hand at the latest store that was for it. */
  function Stored(acts: seq<Action>, id: Id): Option<Reply> {
    if acts == [] then None
    else
      var front := acts[..|acts| - 1];
      if acts[|acts| - 1].SetData? && LastEnvelope(front).Some? && LastEnvelope(front).value.0 == id
      then Some(LastEnvelope(front).value.1)
      else Stored(front, id)
  }

  /** The steps that end the waiting of a call: its write failed, it timed out, it received, or it found done closed. */
  predicate IsEnding(a: Action, id: Id) {
    a == Publish(id, false) || a == Timeout(id) || a == Rendezvous(id) || a == TakeClosed(id)
  }

  function Endings(acts: seq<Action>, id: Id): seq<Action> {
    if acts == [] then []
    else Endings(acts[..|acts| - 1], id) + if IsEnding(acts[|acts| - 1], id) then [acts[|acts| - 1]] else []
  }

  /** What a call returns, by the run: the error of its ending, or what was stored for it when it read. */
  function ResultOf(acts: seq<Action>, id: Id): Option<Outcome> {
    if acts == [] then None
    else
      var front, a := acts[..|acts| - 1], acts[|acts| - 1];
      if a == Publish(id, false) then Some(Outcome(None, Some(WriteFailed)))
      else if a == Timeout(id) then Some(Outcome(None, Some(TimedOut)))
      else if a == ReadData(id) then Some(Outcome(Stored(front, id), None))
      else ResultOf(front, id)
  }

  // ----- The state shows the run

  /** The reader's envelope in hand is the last one received. */
  predicate ShowsEnvelope(acts: seq<Action>, s: State) {
    match s.reader
    case Got(id, reply) => LastEnvelope(acts) == Some((id, reply))
    case Found(id, _, reply) => LastEnvelope(acts) == Some((id, reply))
    case _ => true
  }

  /** A call's object holds what was stored for it; a call without object has nothing stored. */
  predicate ShowsStored(acts: seq<Action>, s: State, id: Id) {
    if id in s.callers && Object(s.callers[id]).Some? then
      var ref := Object(s.callers[id]).value;
      ref < |s.calls| && s.calls[ref].data == Stored(acts, id)
    else Stored(acts, id) == None
  }

  /** The result of a call fits its ending. */
  predicate Fits(ending: Action, r: Outcome) {
    match ending
    case Timeout(_) => r == Outcome(None, Some(TimedOut))
    case Rendezvous(_) => r.response.Some? && r.error.None?
    case TakeClosed(_) => r.error.None?
    case _ => false
  }

  predicate ShowsEnding(acts: seq<Action>, s: State, id: Id) {
    var e, r := Endings(acts, id), ResultOf(acts, id);
    if id !in s.callers then e == [] && r == None
    else
      match s.callers[id]
      case Took(ref) =>
        && r == None && |e| == 1 && (e[0] == Rendezvous(id) || e[0] == TakeClosed(id))
        && (e[0] == Rendezvous(id) ==> ValidRef(s, ref) && s.calls[ref].data.Some?)
      case Leaving(_, o) => |e| == 1 && Fits(e[0], o) && r == Some(o)
      case Returned(Some(_), o) => |e| == 1 && Fits(e[0], o) && r == Some(o)
      case Returned(None, o) => e == [Publish(id, false)] && r == Some(o) && o == Outcome(None, Some(WriteFailed))
      case _ => e == [] && r == None
  }

  lemma EnvelopeStep(acts: seq<Action>, s: State, a: Action)
    requires Enabled(s, a) && ShowsEnvelope(acts, s)
    ensures ShowsEnvelope(acts + [a], Do(s, a))
  {
    assert (acts + [a])[..|acts|] == acts;
  }

  lemma StoredStep(acts: seq<Action>, s: State, arrived: set<(Id, Reply)>, a: Action, id: Id)
    requires Inv(s, arrived) && Enabled(s, a) && ShowsEnvelope(acts, s) && ShowsStored(acts, s, id)
    ensures ShowsStored(acts + [a], Do(s, a), id)
  {
    assert (acts + [a])[..|acts|] == acts;
    DataStep(s, a);
    CallsGrow(s, a);
    if id in Do(s, a).callers {
      ObjectStep(s, a, id);
    }
    if a.SetData? {
      assert Owns(s, s.reader.id, s.reader.ref);
    }
  }

  /** A step of somebody else. */
  lemma EndingKept(acts: seq<Action>, s: State, a: Action, id: Id)
    requires Enabled(s, a) && ShowsEnding(acts, s, id) && Actor(a) != Some(id)
    ensures ShowsEnding(acts + [a], Do(s, a), id)
  {
    assert (acts + [a])[..|acts|] == acts;
    assert Endings(acts + [a], id) == Endings(acts, id) && ResultOf(acts + [a], id) == ResultOf(acts, id);
    if id in s.callers {
      CallStep(s, a, id);
    } else {
      NoNewCaller(s, a, id);
    }
    DataStep(s, a);
    CallsGrow(s, a);
  }

  lemma NoNewCaller(s: State, a: Action, id: Id)
    requires Enabled(s, a) && id !in s.callers && Actor(a) != Some(id)
    ensures id !in Do(s, a).callers
  {
  }

  /** A step of the call that ends its waiting. */
  lemma EndingNow(acts: seq<Action>, s: State, arrived: set<(Id, Reply)>, a: Action, id: Id)
    requires Inv(s, arrived) && Enabled(s, a) && ShowsEnding(acts, s, id) && IsEnding(a, id)
    ensures ShowsEnding(acts + [a], Do(s, a), id)
  {
    assert (acts + [a])[..|acts|] == acts;
    assert Endings(acts, id) == [];
    assert Endings(acts + [a], id) == [a];
  }

  /** Any other step of the call. */
  lemma EndingElse(acts: seq<Action>, s: State, a: Action, id: Id)
    requires Enabled(s, a) && ShowsStored(acts, s, id) && ShowsEnding(acts, s, id)
    requires Actor(a) == Some(id) && !IsEnding(a, id)
    ensures ShowsEnding(acts + [a], Do(s, a), id)
  {
    assert (acts + [a])[..|acts|] == acts;
    assert Endings(acts + [a], id) == Endings(acts, id);
  }

  lemma {:induction false} RunShows(acts: seq<Action>, id: Id)
    requires Run(Init, acts).Some?
    ensures var s := Run(Init, acts).value;
            ShowsEnvelope(acts, s) && ShowsStored(acts, s, id) && ShowsEnding(acts, s, id)
    decreases |acts|
  {
    if acts != [] {
      var front, a := acts[..|acts| - 1], acts[|acts| - 1];
      assert acts == front + [a];
      RunShows(front, id);
      InvAlways(front);
      var s := Run(Init, front).value;
      EnvelopeStep(front, s, a);
      StoredStep(front, s, Arrived(front), a, id);
      if Actor(a) != Some(id) {
        EndingKept(front, s, a, id);
      } else if IsEnding(a, id) {
        EndingNow(front, s, Arrived(front), a, id);
      } else {
        EndingElse(front, s, a, id);
      }
    }
  }

  lemma {:induction false} EndingsAreActions(acts: seq<Action>, id: Id, a: Action)
    ensures a in Endings(acts, id) <==> a in acts && IsEnding(a, id)
    decreases |acts|
  {
    if acts != [] {
      EndingsAreActions(acts[..|acts| - 1], id, a);
      assert acts == acts[..|acts| - 1] + [acts[|acts| - 1]];
    }
  }

  // ----- Main results

  /** The call read its object's data as the k-th step. */
  predicate ReadAt(acts: seq<Action>, k: nat, id: Id) {
    k < |acts| && acts[k] == ReadData(id)
  }

  lemma {:induction false} ResultWasRead(acts: seq<Action>, id: Id) returns (k: nat)
    requires ResultOf(acts, id).Some? && ResultOf(acts, id).value.error.None?
    ensures ReadAt(acts, k, id) && ResultOf(acts, id) == Some(Outcome(Stored(acts[..k], id), None))
    decreases |acts|
  {
    var n := |acts| - 1;
    if acts[n] == ReadData(id) {
      k := n;
    } else {
      k := ResultWasRead(acts[..n], id);
      assert acts[..n][..k] == acts[..k];
    }
  }

  lemma OnlyEnding(acts: seq<Action>, id: Id, e: Action)
    requires Endings(acts, id) == [e]
    ensures IsEnding(e, id) && forall a :: IsEnding(a, id) ==> (a in acts <==> a == e)
  {
    EndingsAreActions(acts, id, e);
    forall a | IsEnding(a, id) ensures a in acts <==> a == e {
      EndingsAreActions(acts, id, a);
    }
  }

  /** In every run, a call that has returned had exactly one ending. */
  lemma OneEnding(acts: seq<Action>, id: Id) returns (e: Action)
    requires Run(Init, acts).Some?
    requires id in Run(Init, acts).value.callers && Run(Init, acts).value.callers[id].Returned?
    ensures Endings(acts, id) == [e] && IsEnding(e, id)
    ensures forall a :: IsEnding(a, id) ==> (a in acts <==> a == e)
    ensures var r := Run(Init, acts).value.callers[id].result;
            && ResultOf(acts, id) == Some(r)
            && (Fits(e, r) || (e == Publish(id, false) && r == Outcome(None, Some(WriteFailed))))
  {
    RunShows(acts, id);
    e := Endings(acts, id)[0];
    OnlyEnding(acts, id, e);
  }

  /** And it returned by its ending: a failed write or a timeout yields that error alone; a call that
      received, or found its channel closed, returns without error what had been stored for it when it
      read - and one that received always had a reply stored. */
  lemma ReturnsByItsEnding(acts: seq<Action>, id: Id)
    requires Run(Init, acts).Some?
    requires id in Run(Init, acts).value.callers && Run(Init, acts).value.callers[id].Returned?
    ensures var r := Run(Init, acts).value.callers[id].result;
            && (Publish(id, false) in acts <==> r == Outcome(None, Some(WriteFailed)))
            && (Timeout(id) in acts <==> r == Outcome(None, Some(TimedOut)))
            && (Rendezvous(id) in acts || TakeClosed(id) in acts <==>
                  exists k: nat :: ReadAt(acts, k, id) && r == Outcome(Stored(acts[..k], id), None))
            && (Rendezvous(id) in acts ==> r.response.Some? && TakeClosed(id) !in acts)
  {
    var r := Run(Init, acts).value.callers[id].result;
    var e := OneEnding(acts, id);
    assert IsEnding(Publish(id, false), id) && IsEnding(Timeout(id), id);
    assert IsEnding(Rendezvous(id), id) && IsEnding(TakeClosed(id), id);
    if r.error.None? {
      var k := ResultWasRead(acts, id);
      assert r == Outcome(Stored(acts[..k], id), None);
    }
  }

  lemma {:induction false} ReadLeaves(acts: seq<Action>, k: nat, id: Id)
    requires Run(Init, acts).Some? && ReadAt(acts, k, id)
    ensures id in Run(Init, acts).value.callers && Rank(Run(Init, acts).value.callers[id]) <= 1
    decreases |acts|
  {
    var n := |acts| - 1;
    if k < n {
      ReadLeaves(acts[..n], k, id);
      CallStep(Run(Init, acts[..n]).value, acts[n], id);
    }
  }

  lemma ReadsOnce(acts: seq<Action>, j: nat, k: nat, id: Id)
    requires Run(Init, acts).Some? && ReadAt(acts, j, id) && ReadAt(acts, k, id)
    ensures j == k
  {
    var i, l := if j < k then j else k, if j < k then k else j;
    if i < l {
      RunPrefix(Init, acts, l);
      ReadLeaves(acts[..l], i, id);
    }
  }

  /** In particular a reply handed over is never lost, whatever Close does before the call reads: neither
      response nor error means that the call found its channel closed with nothing stored yet. */
  lemma NothingReturnedIff(acts: seq<Action>, id: Id)
    requires Run(Init, acts).Some?
    requires id in Run(Init, acts).value.callers && Run(Init, acts).value.callers[id].Returned?
    ensures Run(Init, acts).value.callers[id].result == Outcome(None, None)
            <==> TakeClosed(id) in acts && exists k: nat :: ReadAt(acts, k, id) && Stored(acts[..k], id).None?
  {
    var r := Run(Init, acts).value.callers[id].result;
    var e := OneEnding(acts, id);
    ReturnsByItsEnding(acts, id);
    assert e in acts;
    forall j: nat, k: nat | ReadAt(acts, j, id) && ReadAt(acts, k, id) ensures j == k {
      ReadsOnce(acts, j, k, id);
    }
  }

  // ----- Close wakes, and the reader stops

  /** A waiting call whose channel has been closed returns in three steps of its own, without a timeout,
      with what its object holds. */
  lemma CloseWakes(s: State, id: Id)
    requires s.crash.None? && id in s.callers && s.callers[id].Waiting?
    requires ValidRef(s, s.callers[id].ref) && s.calls[s.callers[id].ref].closed
    ensures var ref := s.callers[id].ref;
            Run(s, [TakeClosed(id), ReadData(id), Delete(id)])
            == Some(s.(callers := s.callers[id := Returned(Some(ref), Outcome(s.calls[ref].data, None))],
                       pending := s.pending - {id}))
  {
    var ref := s.callers[id].ref;
    var o := Outcome(s.calls[ref].data, None);
    var s1 := s.(callers := s.callers[id := Took(ref)]);
    var s2 := s.(callers := s.callers[id := Leaving(ref, o)]);
    RunOne(s, TakeClosed(id));
    RunOne(s1, ReadData(id));
    assert Do(s1, ReadData(id)) == s2;
    RunConcat(s, [TakeClosed(id)], [ReadData(id)]);
    RunOne(s2, Delete(id));
    assert Do(s2, Delete(id)).callers == s.callers[id := Returned(Some(ref), o)];
    RunConcat(s, [TakeClosed(id)] + [ReadData(id)], [Delete(id)]);
    assert [TakeClosed(id)] + [ReadData(id)] + [Delete(id)] == [TakeClosed(id), ReadData(id), Delete(id)];
  }

  /** `acts` leads from `s` to a state in which the reader goroutine has returned. */
  predicate Stops(s: State, acts: seq<Action>) {
    Run(s, acts).Some? && Run(s, acts).value.reader.Stopped?
  }

  lemma StopsAfter(s: State, first: seq<Action>, acts: seq<Action>)
    requires Run(s, first).Some? && Stops(Run(s, first).value, acts)
    ensures Stops(s, first + acts)
  {
    RunConcat(s, first, acts);
  }

  /** The reader holds an object at which no rendezvous can happen any more. */
  predicate Trapped(s: State) {
    Doomed(s) || HoldsClosed(s)
  }

  lemma StopFromTop(s: State) returns (acts: seq<Action>)
    requires s.crash.None? && s.reader.AtTop?
    ensures Stops(s, acts)
  {
    RunOne(s, Stop);
    RunOne(Do(s, Stop), TestContext);
    StopsAfter(s, [Stop], [TestContext]);
    acts := [Stop] + [TestContext];
  }

  lemma StopFrom(s: State, arrived: set<(Id, Reply)>) returns (acts: seq<Action>)
    requires Inv(s, arrived) && s.crash.None? && !Trapped(s)
    requires s.reader.Found? || s.reader.Sending? ==> ValidRef(s, s.reader.ref)
    ensures Stops(s, acts)
  {
    var first, t := [], s;
    if s.reader.Stopped? {
      acts := [];
      return;
    } else if s.reader.Reading? {
      first := [ReadBroken];
      RunOne(s, ReadBroken);
    } else if s.reader.Got? {
      if s.reader.id in s.pending {
        first, t := LeaveOne(s, arrived, s.reader.id);
      }
      RunOne(t, Lookup);
      RunConcat(s, first, [Lookup]);
      first := first + [Lookup];
    } else if s.reader.Found? || s.reader.Sending? {
      assert Owns(s, s.reader.id, s.reader.ref);
      CompletionDelivers(s, s.reader.id);
      first := Completion(s, s.reader.id);
    }
    acts := StopFromTop(Run(s, first).value);
    StopsAfter(s, first, acts);
    acts := first + acts;
  }

  lemma HoldsClosedStep(s: State, a: Action)
    requires HoldsClosed(s) && Enabled(s, a)
    ensures HoldsClosed(Do(s, a))
  {
    CallsGrow(s, a);
  }

  lemma PassKeepsReader(s: State)
    requires Enabled(s, ClosePending)
    ensures Do(s, ClosePending).reader == s.reader && Do(s, ClosePending).callers == s.callers
  {
  }

  lemma TrappedStep(s: State, arrived: set<(Id, Reply)>, a: Action)
    requires Inv(s, arrived) && Trapped(s) && Enabled(s, a)
    ensures Trapped(Do(s, a))
  {
    if HoldsClosed(s) {
      HoldsClosedStep(s, a);
    } else if a == ClosePending {
      PassKeepsReader(s);
    } else {
      assert Owns(s, s.reader.id, s.reader.ref);
      LeftStays(s, a, s.reader.id);
      HeldStays(s, a);
    }
  }

  lemma {:induction false} TrappedForEver(s: State, arrived: set<(Id, Reply)>, acts: seq<Action>)
    requires Inv(s, arrived) && Trapped(s) && Run(s, acts).Some?
    ensures Inv(Run(s, acts).value, arrived + Arrived(acts)) && Trapped(Run(s, acts).value)
    decreases |acts|
  {
    if acts == [] {
      assert arrived + Arrived(acts) == arrived;
    } else {
      var front, a := acts[..|acts| - 1], acts[|acts| - 1];
      assert acts == front + [a];
      TrappedForEver(s, arrived, front);
      var t := Run(s, front).value;
      TrappedStep(t, arrived + Arrived(front), a);
      InvStep(t, arrived + Arrived(front), a);
      assert arrived + Arrived(acts) == arrived + Arrived(front) + NewlyArrived(a);
    }
  }

  /** The reader goroutine can still come to its end exactly when it does not hold an object whose call
      has left or whose channel is closed: those two traps, and nothing else, keep it from stopping. */
  lemma ReaderStopsIff(acts: seq<Action>)
    requires Run(Init, acts).Some? && Run(Init, acts).value.crash.None?
    ensures var s := Run(Init, acts).value;
            (exists more :: Stops(s, more)) <==> !Doomed(s) && !HoldsClosed(s)
  {
    var s := Run(Init, acts).value;
    InvAlways(acts);
    NoDanglingReference(acts);
    if Trapped(s) {
      forall more | Run(s, more).Some? ensures !Stops(s, more) {
        TrappedForEver(s, Arrived(acts), more);
      }
    } else {
      var more := StopFrom(s, Arrived(acts));
    }
  }

  /** The reader stops at a test of its context after the cancel and nowhere else: no read error, close
      notice or failed lookup ends it. */
  lemma StopsOnlyAtTest(s: State, a: Action)
    requires Enabled(s, a)
    ensures Do(s, a).reader.Stopped? <==> s.reader.Stopped? || (a.TestContext? && s.cancelled)
  {
  }

  /** Over any run: the reader has stopped exactly if one of its tests came after a cancel. */
  lemma {:induction false} StoppedIffTested(acts: seq<Action>)
    requires Run(Init, acts).Some?
    ensures Run(Init, acts).value.reader.Stopped? <==> TestedAfterCancel(acts)
    decreases |acts|
  {
    if acts != [] {
      var front, a := acts[..|acts| - 1], acts[|acts| - 1];
      StoppedIffTested(front);
      FlagsFollowActions(front);
      StopsOnlyAtTest(Run(Init, front).value, a);
    }
  }

  predicate TestedAfterCancel(acts: seq<Action>) {
    acts != []
    && (var front := acts[..|acts| - 1];
        TestedAfterCancel(front) || (acts[|acts| - 1].TestContext? && (Stop in front || BeginClose in front)))
  }

  /** Cancel and stream end are what the run says, and closing counts the Close calls between their two parts. */
  lemma {:induction false} FlagsFollowActions(acts: seq<Action>)
    requires Run(Init, acts).Some?
    ensures var s := Run(Init, acts).value;
            && (s.cancelled <==> Stop in acts || BeginClose in acts)
            && (s.streamEnded <==> EndStream in acts)
            && s.closing + Count(acts, IsClosePending) == Count(acts, IsBeginClose)
    decreases |acts|
  {
    if acts != [] {
      var front, a := acts[..|acts| - 1], acts[|acts| - 1];
      assert acts == front + [a];
      FlagsFollowActions(front);
      FlagsStep(Run(Init, front).value, a);
    }
  }

  predicate IsBeginClose(a: Action) { a.BeginClose? }
  predicate IsClosePending(a: Action) { a.ClosePending? }

  lemma FlagsStep(s: State, a: Action)
    requires Enabled(s, a)
    ensures var t := Do(s, a);
            && (t.cancelled <==> s.cancelled || a == Stop || a == BeginClose)
            && (t.streamEnded <==> s.streamEnded || a == EndStream)
            && t.closing == s.closing + (if a == BeginClose then 1 else 0) - (if a == ClosePending then 1 else 0)
  {
  }
}
