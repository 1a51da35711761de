/**
 The channel object itself: the pending map and the pending objects it refers to,
 changed in place.  Each method is one critical section (or one access to a pending
 object) of `DoRPC`, the reader or `Close`; each is proved to take the concrete
 object through exactly the step of the protocol machine it stands for.
 */
module GatewayChannels {
  import opened Wrappers
  import opened RpcProtocol

  class PendingCall {
    ghost const ref: Ref
    var closed: bool             // the done channel
    var data: Option<Reply>

    constructor (ghost ref: Ref)
      ensures this.ref == ref && !closed && data == None
    {
      this.ref := ref;
      closed, data := false, None;
    }
  }

  class GatewayChannel {
    var rpcCalls: map<Id, PendingCall>
    var cancelled: bool
    ghost var heap: seq<PendingCall>   // every pending object ever made, in order of allocation

    ghost predicate Valid()
      reads this, heap
    {
      && (forall i | 0 <= i < |heap| :: heap[i].ref == i)
      && (forall id <- rpcCalls :: rpcCalls[id] in heap)
      && (forall i <- rpcCalls, j <- rpcCalls :: rpcCalls[i] == rpcCalls[j] ==> i == j)
    }

    ghost function Objects(): seq<Call>
      reads this, heap
    {
      seq(|heap|, i requires 0 <= i < |heap| reads this, heap => Call(heap[i].closed, heap[i].data))
    }

    ghost function Table(): map<Id, Ref>
      reads this
    {
      map id | id in rpcCalls :: rpcCalls[id].ref
    }

    /** The object is in the state the machine says. */
    ghost predicate Shows(s: State)
      reads this, heap
    {
      Valid() && s.pending == Table() && s.calls == Objects() && s.cancelled == cancelled
    }

    constructor ()
      ensures Shows(Init) && heap == []
    {
      rpcCalls, cancelled, heap := map[], false, [];
    }

    /** A call stores a new pending object under its correlation id. */
    method Register(id: Id, ghost s: State) returns (call: PendingCall)
      requires Shows(s) && id !in rpcCalls && Enabled(s, RpcProtocol.Register(id))
      modifies this
      ensures fresh(call) && heap == old(heap) + [call] && rpcCalls == old(rpcCalls)[id := call]
      ensures Shows(Do(s, RpcProtocol.Register(id)))
              && Do(s, RpcProtocol.Register(id)).callers[id] == Registered(call.ref)
    {
      call := new PendingCall(|heap|);
      rpcCalls := rpcCalls[id := call];
      heap := heap + [call];
      assert Objects() == old(Objects()) + [Call(false, None)];
      assert Table() == old(Table())[id := |old(heap)|];
    }

    /** A call that received reads its object's data field. */
    method Response(id: Id, call: PendingCall, ghost s: State) returns (response: Option<Reply>)
      requires Shows(s) && call in heap && Enabled(s, ReadData(id)) && s.callers[id] == Took(call.ref)
      ensures response == call.data
      ensures Do(s, ReadData(id)).callers[id] == Leaving(call.ref, Outcome(response, None))
    {
      response := call.data;
      assert s.calls[call.ref] == Objects()[call.ref];
    }

    /** A call deletes its entry. */
    method Release(id: Id, ghost s: State)
      requires Shows(s) && Enabled(s, Delete(id))
      modifies `rpcCalls
      ensures rpcCalls == old(rpcCalls) - {id} && Shows(Do(s, Delete(id)))
    {
      rpcCalls := rpcCalls - {id};
    }

    /** The reader looks up the call an envelope names; null when there is none. */
    method Lookup(id: Id, ghost s: State) returns (call: PendingCall?)
      requires Shows(s) && Enabled(s, RpcProtocol.Lookup) && s.reader.id == id
      ensures call == null <==> id !in rpcCalls
      ensures call != null ==> call in heap && call == rpcCalls[id]
      ensures Do(s, RpcProtocol.Lookup).reader == if call == null then AtTop else Found(id, call.ref, s.reader.reply)
      ensures Shows(Do(s, RpcProtocol.Lookup))
    {
      call := if id in rpcCalls then rpcCalls[id] else null;
    }

    /** The reader stores a reply in the object it found. */
    method Store(call: PendingCall, reply: Reply, ghost s: State)
      requires Shows(s) && call in heap && Enabled(s, SetData)
      requires s.reader.ref == call.ref && s.reader.reply == reply
      modifies call`data
      ensures call.data == Some(reply)
      ensures Shows(Do(s, SetData)) && Do(s, SetData).reader == Sending(s.reader.id, call.ref)
    {
      call.data := Some(reply);
      assert Objects() == old(Objects())[call.ref := Call(call.closed, Some(reply))];
    }

    /** `Stop` and the first part of `Close`: fire the cancel. */
    method Cancel(ghost s: State)
      requires Shows(s) && s.crash.None?
      modifies `cancelled
      ensures cancelled && Shows(Do(s, Stop)) && Shows(Do(s, BeginClose))
    {
      cancelled := true;
    }

    /** The loop of `Close` over the pending calls, in whatever order the map yields them.
        Closing a channel that is closed already panics. */
    method CloseEach() returns (panicked: bool)
      requires Valid()
      modifies heap
      ensures panicked <==> exists id <- rpcCalls :: old(rpcCalls[id].closed)
      ensures !panicked ==>
                forall c <- heap :: c.closed == (old(c.closed) || c in rpcCalls.Values) && c.data == old(c.data)
    {
      var todo := rpcCalls.Keys;
      while todo != {}
        invariant todo <= rpcCalls.Keys
        invariant forall id <- todo :: rpcCalls[id].closed == old(rpcCalls[id].closed)
        invariant forall id <- rpcCalls.Keys - todo :: rpcCalls[id].closed && !old(rpcCalls[id].closed)
        invariant forall c <- heap :: c.data == old(c.data)
        invariant forall c <- heap :: c !in rpcCalls.Values ==> c.closed == old(c.closed)
        decreases |todo|
      {
        var id :| id in todo;
        if rpcCalls[id].closed {
          return true;
        }
        rpcCalls[id].closed := true;
        todo := todo - {id};
      }
      return false;
    }

    /** The second part of `Close`, under the lock. */
    method ClosePendingCalls(ghost s: State) returns (panicked: bool)
      requires Shows(s) && Enabled(s, ClosePending)
      modifies heap
      ensures panicked <==> Do(s, ClosePending).crash == Some(CloseOfClosed)
      ensures !panicked ==> Shows(Do(s, ClosePending))
    {
      PendingEntries(s);
      panicked := CloseEach();
      if !panicked {
        forall i | 0 <= i < |heap| ensures Objects()[i] == CloseAll(s.calls, s.pending)[i] {
          assert s.calls[i] == old(Objects())[i];
          assert heap[i] in heap;
        }
        assert Objects() == CloseAll(s.calls, s.pending);
      }
    }

    /** The machine's entries are the object's entries. */
    lemma PendingEntries(s: State)
      requires Shows(s) && ValidPending(s)
      ensures SomePendingClosed(s) <==> exists id <- rpcCalls :: rpcCalls[id].closed
      ensures forall c <- heap :: c.ref in s.pending.Values <==> c in rpcCalls.Values
    {
      forall id | id in rpcCalls ensures s.calls[s.pending[id]].closed == rpcCalls[id].closed {
        assert s.calls[s.pending[id]] == Objects()[rpcCalls[id].ref];
      }
      forall c | c in heap && c.ref in s.pending.Values ensures c in rpcCalls.Values {
        var id :| id in s.pending && s.pending[id] == c.ref;
        assert heap[rpcCalls[id].ref] == rpcCalls[id];
      }
      forall c | c in heap && c in rpcCalls.Values ensures c.ref in s.pending.Values {
        var id :| id in rpcCalls && rpcCalls[id] == c;
        assert s.pending[id] == c.ref;
      }
    }
  }
}
