/**
 The pending-call protocol of a gateway channel as a transition system.

 Any number of `DoRPC` callers, the channel's one reader goroutine, any number of
 `Close` calls and an unrestricted gateway take atomic steps in any order.  An
 `Action` names the step and everything the environment chose, so `Do` is a
 function; all nondeterminism is in the sequence of actions.

 Shared memory is explicit: `calls` holds every pending object ever allocated and
 a `Ref` is a position in it, so that "the caller's own object" is something to
 prove rather than something the model builds in.
 */
module RpcProtocol {
  import opened Wrappers

  type Id = string        // correlation id; the empty string means "no id"
  type Reply = string     // a decoded gateway message
  type Ref = nat          // address of a pending object

  /** A pending object: its unbuffered channel is open or closed, and its data field. */
  datatype Call = Call(closed: bool, data: Option<Reply>)

  datatype RpcError = WriteFailed | TimedOut

  /** What `DoRPC` returns: a response and an error, each possibly nil. */
  datatype Outcome = Outcome(response: Option<Reply>, error: Option<RpcError>)

  /** Program points of one `DoRPC` call. */
  datatype Phase =
    | Published                                        // request written, nothing registered yet
    | Registered(ref: Ref)                             // entry stored, not yet in the select
    | Waiting(ref: Ref)                                // blocked in the select
    | Took(ref: Ref)                                   // received from done, data not yet read
    | Leaving(ref: Ref, result: Outcome)               // result fixed, entry not yet deleted
    | Returned(held: Option<Ref>, result: Outcome)

  /** Program points of the reader goroutine. */
  datatype Reader =
    | AtTop                                            // about to test the context
    | Reading                                          // inside ReadEnvelope
    | Got(id: Id, reply: Reply)                        // envelope with a correlation id, before the lookup
    | Found(id: Id, ref: Ref, reply: Reply)            // lookup succeeded, data not yet stored
    | Sending(id: Id, ref: Ref)                        // blocked at done <- true
    | Stopped

  /** A panic in any goroutine ends the process. */
  datatype Panic = SendOnClosed | CloseOfClosed | NilEnvelope

  datatype State = State(
    callers: map<Id, Phase>,
    pending: map<Id, Ref>,       // rpcCalls
    calls: seq<Call>,
    reader: Reader,
    cancelled: bool,             // the channel's context
    streamEnded: bool,           // the broker closed the delivery channel
    closing: nat,                // Close calls that have cancelled but not yet closed the pending calls
    crash: Option<Panic>
  )

  const Init: State := State(map[], map[], [], AtTop, false, false, 0, None)

  datatype Action =
    // one DoRPC call
    | Publish(id: Id, ok: bool)
    | Register(id: Id)
    | EnterSelect(id: Id)
    | Timeout(id: Id)
    | TakeClosed(id: Id)
    | ReadData(id: Id)
    | Delete(id: Id)
    // the reader
    | TestContext
    | ReadCancelled
    | ReadBroken
    | ReadEnded
    | Deliver(id: Id, reply: Reply)
    | Lookup
    | SetData
    | SendPanics
    // reader and caller together: the rendezvous on the unbuffered channel
    | Rendezvous(id: Id)
    // Close, Stop and the broker
    | Stop
    | BeginClose
    | ClosePending
    | EndStream


  predicate ValidRef(s: State, r: Ref) { r < |s.calls| }

  predicate ValidPending(s: State) { forall id <- s.pending :: s.pending[id] < |s.calls| }

  predicate Enabled(s: State, a: Action) {
    && s.crash.None?
    && match a
       case Publish(id, _) => id != "" && id !in s.callers   // a UUID: non-empty and new
       case Register(id) => id in s.callers && s.callers[id].Published?
       case EnterSelect(id) => id in s.callers && s.callers[id].Registered?
       case Timeout(id) => id in s.callers && s.callers[id].Waiting?
       case TakeClosed(id) =>
         id in s.callers && s.callers[id].Waiting?
         && ValidRef(s, s.callers[id].ref) && s.calls[s.callers[id].ref].closed
       case ReadData(id) => id in s.callers && s.callers[id].Took? && ValidRef(s, s.callers[id].ref)
       case Delete(id) => id in s.callers && s.callers[id].Leaving?
       case TestContext => s.reader.AtTop?
       case ReadCancelled => s.reader.Reading? && s.cancelled
       case ReadBroken => s.reader.Reading?
       case ReadEnded => s.reader.Reading? && s.streamEnded
       case Deliver(_, _) => s.reader.Reading?
       case Lookup => s.reader.Got?
       case SetData => s.reader.Found? && ValidRef(s, s.reader.ref)
       case SendPanics => s.reader.Sending? && ValidRef(s, s.reader.ref) && s.calls[s.reader.ref].closed
       case Rendezvous(id) =>
         && s.reader.Sending? && ValidRef(s, s.reader.ref) && !s.calls[s.reader.ref].closed
         && id in s.callers && s.callers[id] == Waiting(s.reader.ref)
       case Stop => true
       case BeginClose => true
       case ClosePending => s.closing > 0 && ValidPending(s)
       case EndStream => true
  }

  /** Closing the channels of all entries of the pending map. */
  function CloseAll(calls: seq<Call>, pending: map<Id, Ref>): (r: seq<Call>)
    ensures |r| == |calls|
  {
    seq(|calls|, i requires 0 <= i < |calls| => calls[i].(closed := calls[i].closed || i in pending.Values))
  }

  /** Some entry of the pending map is closed already, so closing it again panics. */
  predicate SomePendingClosed(s: State)
    requires ValidPending(s)
  {
    exists id <- s.pending :: s.calls[s.pending[id]].closed
  }

  function Do(s: State, a: Action): State
    requires Enabled(s, a)
  {
    match a
    case Publish(id, ok) =>
      s.(callers := s.callers[id := if ok then Published else Returned(None, Outcome(None, Some(WriteFailed)))])
    case Register(id) =>
      var ref := |s.calls|;
      s.(callers := s.callers[id := Registered(ref)],
         pending := s.pending[id := ref],
         calls := s.calls + [Call(false, None)])
    case EnterSelect(id) => s.(callers := s.callers[id := Waiting(s.callers[id].ref)])
    case Timeout(id) =>
      s.(callers := s.callers[id := Leaving(s.callers[id].ref, Outcome(None, Some(TimedOut)))])
    case TakeClosed(id) => s.(callers := s.callers[id := Took(s.callers[id].ref)])
    case ReadData(id) =>
      var ref := s.callers[id].ref;
      s.(callers := s.callers[id := Leaving(ref, Outcome(s.calls[ref].data, None))])
    case Delete(id) =>
      s.(callers := s.callers[id := Returned(Some(s.callers[id].ref), s.callers[id].result)],
         pending := s.pending - {id})
    case TestContext => s.(reader := if s.cancelled then Stopped else Reading)
    case ReadCancelled => s.(reader := AtTop)
    case ReadBroken => s.(reader := AtTop)
    case ReadEnded => s.(crash := Some(NilEnvelope))
    case Deliver(id, reply) => s.(reader := if id == "" then AtTop else Got(id, reply))
    case Lookup =>
      s.(reader := if s.reader.id in s.pending then Found(s.reader.id, s.pending[s.reader.id], s.reader.reply)
                   else AtTop)
    case SetData =>
      s.(calls := s.calls[s.reader.ref := s.calls[s.reader.ref].(data := Some(s.reader.reply))],
         reader := Sending(s.reader.id, s.reader.ref))
    case SendPanics => s.(crash := Some(SendOnClosed))
    case Rendezvous(id) => s.(callers := s.callers[id := Took(s.callers[id].ref)], reader := AtTop)
    case Stop => s.(cancelled := true)
    case BeginClose => s.(cancelled := true, closing := s.closing + 1)
    case ClosePending =>
      if SomePendingClosed(s) then s.(closing := s.closing - 1, crash := Some(CloseOfClosed))
      else s.(closing := s.closing - 1, calls := CloseAll(s.calls, s.pending))
    case EndStream => s.(streamEnded := true)
  }

  /** The state after a sequence of actions, or None when one of them is not enabled. */
  function Run(s: State, acts: seq<Action>): Option<State> {
    if acts == [] then Some(s)
    else
      match Run(s, acts[..|acts| - 1])
      case None => None
      case Some(t) => if Enabled(t, acts[|acts| - 1]) then Some(Do(t, acts[|acts| - 1])) else None
  }

  /** Every prefix of a run is a run, and its last step was enabled. */
  lemma {:induction false} RunPrefix(s: State, acts: seq<Action>, k: nat)
    requires Run(s, acts).Some? && k <= |acts|
    ensures Run(s, acts[..k]).Some?
    ensures k < |acts| ==> Enabled(Run(s, acts[..k]).value, acts[k])
                           && Run(s, acts[..k + 1]) == Some(Do(Run(s, acts[..k]).value, acts[k]))
    decreases |acts|
  {
    if k == |acts| {
      assert acts[..k] == acts;
    } else if k == |acts| - 1 {
      assert acts[..k + 1] == acts;
    } else {
      var front := acts[..|acts| - 1];
      RunPrefix(s, front, k);
      assert front[..k] == acts[..k] && front[..k + 1] == acts[..k + 1];
    }
  }

  /** Runs compose. */
  lemma {:induction false} RunConcat(s: State, xs: seq<Action>, ys: seq<Action>)
    requires Run(s, xs).Some?
    ensures Run(s, xs + ys) == Run(Run(s, xs).value, ys)
    decreases |ys|
  {
    if ys == [] {
      assert xs + ys == xs;
    } else {
      var front := ys[..|ys| - 1];
      RunConcat(s, xs, front);
      assert (xs + ys)[..|xs + ys| - 1] == xs + front;
    }
  }

  /** A one-step run, the form in which explicit runs are built. */
  lemma RunOne(s: State, a: Action)
    ensures Run(s, [a]) == if Enabled(s, a) then Some(Do(s, a)) else None
  {
    assert [a][..0] == [];
    assert Run(s, [a][..0]) == Some(s);
  }
}
