/**
 What every interleaving keeps: which caller owns which pending object, what is in
 the pending map, and whose reply a caller can return.
 */
module RpcSafety {
  import opened Wrappers
  import opened RpcProtocol

  // ----- Vocabulary

  /** The pending object a call allocated, once it has one. */
  function Object(p: Phase): Option<Ref> {
    match p
    case Published => None
    case Registered(r) => Some(r)
    case Waiting(r) => Some(r)
    case Took(r) => Some(r)
    case Leaving(r, _) => Some(r)
    case Returned(o, _) => o
  }

  /** Between registration and deletion. */
  predicate InTable(p: Phase) {
    p.Registered? || p.Waiting? || p.Took? || p.Leaving?
  }

  /** The call has left its select (or never enters it again). */
  predicate HasLeft(p: Phase) {
    p.Took? || p.Leaving? || p.Returned?
  }

  predicate Owns(s: State, id: Id, ref: Ref) {
    id in s.callers && Object(s.callers[id]) == Some(ref)
  }

  /** The replies handed to the reader during a run, each under the id it carried. */
  function Arrived(acts: seq<Action>): set<(Id, Reply)> {
    set a <- acts | a.Deliver? :: (a.id, a.reply)
  }

  predicate IsRegister(a: Action) { a.Register? }
  predicate IsDelete(a: Action) { a.Delete? }

  function Count(acts: seq<Action>, p: Action -> bool): nat {
    if acts == [] then 0
    else Count(acts[..|acts| - 1], p) + if p(acts[|acts| - 1]) then 1 else 0
  }

  // ----- The inductive invariant, in three layers

  /** Objects: every call's object is allocated and no two calls share one. */
  ghost predicate ObjectsInv(s: State) {
    && (forall id <- s.callers :: Object(s.callers[id]).Some? ==> Object(s.callers[id]).value < |s.calls|)
    && (forall i <- s.callers, j <- s.callers ::
          Object(s.callers[i]).Some? && Object(s.callers[i]) == Object(s.callers[j]) ==> i == j)
  }

  /** The pending map holds exactly the calls between registration and deletion, each with its own object. */
  ghost predicate TableInv(s: State) {
    && (forall id :: id in s.pending <==> id in s.callers && InTable(s.callers[id]))
    && (forall id <- s.pending :: Owns(s, id, s.pending[id]))
  }

  /** A result is legal for a call that owns `ref` when its response arrived for that call. */
  ghost predicate ResultOk(s: State, arrived: set<(Id, Reply)>, id: Id, ref: Ref, r: Outcome) {
    && (r.response.Some? ==> r.error.None? && (id, r.response.value) in arrived)
    && (r.response.None? && r.error.None? ==> ref < |s.calls| && s.calls[ref].closed)
    && r.error != Some(WriteFailed)
  }

  ghost predicate CallerOk(s: State, arrived: set<(Id, Reply)>, id: Id, p: Phase) {
    match p
    case Took(ref) => ref < |s.calls| && (s.calls[ref].data.Some? || s.calls[ref].closed)
    case Leaving(ref, r) => ResultOk(s, arrived, id, ref, r)
    case Returned(Some(ref), r) => ResultOk(s, arrived, id, ref, r)
    case Returned(None, r) => r == Outcome(None, Some(WriteFailed))
    case _ => true
  }

  ghost predicate ReaderOk(s: State, arrived: set<(Id, Reply)>) {
    match s.reader
    case Got(id, reply) => id != "" && (id, reply) in arrived
    case Found(id, ref, reply) => (id, reply) in arrived && Owns(s, id, ref)
    case Sending(id, ref) => Owns(s, id, ref) && ref < |s.calls| && s.calls[ref].data.Some?
    case _ => true
  }

  ghost predicate StoredOk(s: State, arrived: set<(Id, Reply)>, id: Id, p: Phase) {
    var o := Object(p);
    o.Some? && o.value < |s.calls| && s.calls[o.value].data.Some? ==> (id, s.calls[o.value].data.value) in arrived
  }

  /** Data: what is stored in an object, held by the reader or returned belongs to the owner. */
  ghost predicate DataInv(s: State, arrived: set<(Id, Reply)>) {
    && (forall id <- s.callers :: StoredOk(s, arrived, id, s.callers[id]))
    && (forall id <- s.callers :: CallerOk(s, arrived, id, s.callers[id]))
    && ReaderOk(s, arrived)
  }

  ghost predicate Inv(s: State, arrived: set<(Id, Reply)>) {
    ObjectsInv(s) && TableInv(s) && DataInv(s, arrived)
  }

  function NewlyArrived(a: Action): set<(Id, Reply)> {
    if a.Deliver? then {(a.id, a.reply)} else {}
  }

  /** A call keeps its object; only a registration gives one out, and it is new. */
  predicate ObjectKept(s: State, a: Action, t: State, id: Id)
    requires id in t.callers
  {
    && |s.calls| <= |t.calls|
    && if a == Register(id) then t.callers[id] == Registered(|s.calls|) && |t.calls| == |s.calls| + 1
       else Object(t.callers[id]) == if id in s.callers then Object(s.callers[id]) else None
  }

  lemma ObjectStep(s: State, a: Action, id: Id)
    requires Enabled(s, a) && id in Do(s, a).callers
    ensures ObjectKept(s, a, Do(s, a), id)
  {
  }

  lemma ObjectsStep(s: State, a: Action)
    requires ObjectsInv(s) && Enabled(s, a)
    ensures ObjectsInv(Do(s, a))
  {
    var t := Do(s, a);
    forall id | id in t.callers ensures ObjectKept(s, a, t, id) {
      ObjectStep(s, a, id);
    }
    ObjectsKept(s, a, t);
  }

  lemma ObjectsKept(s: State, a: Action, t: State)
    requires ObjectsInv(s) && forall id <- t.callers :: ObjectKept(s, a, t, id)
    ensures ObjectsInv(t)
  {
  }

  /** One entry of the map: present exactly for a call between registration and deletion, and its own object. */
  ghost predicate EntryOk(s: State, id: Id) {
    && (id in s.pending <==> id in s.callers && InTable(s.callers[id]))
    && (id in s.pending ==> Owns(s, id, s.pending[id]))
  }

  lemma EntryStep(s: State, a: Action, id: Id)
    requires EntryOk(s, id) && Enabled(s, a)
    ensures EntryOk(Do(s, a), id)
  {
    if !a.Register? && !a.Delete? {
      assert Do(s, a).pending == s.pending;
    }
  }

  lemma TableStep(s: State, a: Action)
    requires TableInv(s) && Enabled(s, a)
    ensures TableInv(Do(s, a))
  {
    var t := Do(s, a);
    forall id ensures EntryOk(t, id) {
      TableEntry(s, id);
      EntryStep(s, a, id);
    }
    TableFromEntries(t);
  }

  lemma TableEntry(s: State, id: Id)
    requires TableInv(s)
    ensures EntryOk(s, id)
  {
  }

  lemma TableFromEntries(t: State)
    requires forall id :: EntryOk(t, id)
    ensures TableInv(t)
  {
    forall id | id in t.pending ensures Owns(t, id, t.pending[id]) {
      assert EntryOk(t, id);
    }
    forall id ensures id in t.pending <==> id in t.callers && InTable(t.callers[id]) {
      assert EntryOk(t, id);
    }
  }

  lemma OwnsStep(s: State, a: Action, id: Id, ref: Ref)
    requires Enabled(s, a) && Owns(s, id, ref)
    ensures Owns(Do(s, a), id, ref)
  {
  }

  /** No step frees an object, reopens a channel or clears a data field. */
  lemma CallsGrow(s: State, a: Action)
    requires Enabled(s, a)
    ensures |s.calls| <= |Do(s, a).calls|
    ensures forall r | 0 <= r < |s.calls| ::
              && (s.calls[r].closed ==> Do(s, a).calls[r].closed)
              && (s.calls[r].data.Some? ==> Do(s, a).calls[r].data.Some?)
  {
  }

  lemma ReaderStep(s: State, arrived: set<(Id, Reply)>, a: Action)
    requires Inv(s, arrived) && Enabled(s, a)
    ensures ReaderOk(Do(s, a), arrived + NewlyArrived(a))
  {
    if s.reader.Found? || s.reader.Sending? {
      OwnsStep(s, a, s.reader.id, s.reader.ref);
    }
    if Do(s, a).reader == s.reader {
      CallsGrow(s, a);
    } else if a.Lookup? && s.reader.id in s.pending {
      assert Owns(s, s.reader.id, s.pending[s.reader.id]);
    }
  }

  lemma StoredStep(s: State, arrived: set<(Id, Reply)>, a: Action, id: Id)
    requires Inv(s, arrived) && Enabled(s, a) && id in Do(s, a).callers
    ensures StoredOk(Do(s, a), arrived + NewlyArrived(a), id, Do(s, a).callers[id])
  {
    ObjectStep(s, a, id);
    DataStep(s, a);
    assert id in s.callers ==> StoredOk(s, arrived, id, s.callers[id]);
    if a.SetData? && Owns(s, id, s.reader.ref) {
      assert Owns(s, s.reader.id, s.reader.ref) && id == s.reader.id;
    }
  }

  /** Only the reader's store changes a data field; a new object has none. */
  lemma DataStep(s: State, a: Action)
    requires Enabled(s, a)
    ensures forall r | 0 <= r < |s.calls| ::
              Do(s, a).calls[r].data == if a.SetData? && r == s.reader.ref then Some(s.reader.reply)
                                        else s.calls[r].data
    ensures forall r | |s.calls| <= r < |Do(s, a).calls| :: Do(s, a).calls[r].data == None
  {
  }

  lemma CallerStep(s: State, arrived: set<(Id, Reply)>, a: Action, id: Id)
    requires Inv(s, arrived) && Enabled(s, a) && id in Do(s, a).callers
    ensures CallerOk(Do(s, a), arrived + NewlyArrived(a), id, Do(s, a).callers[id])
  {
    CallsGrow(s, a);
    if id in s.callers && Do(s, a).callers[id] == s.callers[id] {
      CallerKept(s, Do(s, a), arrived, arrived + NewlyArrived(a), id);
    } else {
      assert !a.ClosePending? && !a.SetData?;
    }
  }

  lemma CallerKept(s: State, t: State, before: set<(Id, Reply)>, after: set<(Id, Reply)>, id: Id)
    requires id in s.callers && CallerOk(s, before, id, s.callers[id])
    requires before <= after && |s.calls| <= |t.calls|
    requires forall r | 0 <= r < |s.calls| ::
               && (s.calls[r].closed ==> t.calls[r].closed)
               && (s.calls[r].data.Some? ==> t.calls[r].data.Some?)
    ensures CallerOk(t, after, id, s.callers[id])
  {
  }

  lemma InvStep(s: State, arrived: set<(Id, Reply)>, a: Action)
    requires Inv(s, arrived) && Enabled(s, a)
    ensures Inv(Do(s, a), arrived + NewlyArrived(a))
  {
    ObjectsStep(s, a);
    TableStep(s, a);
    ReaderStep(s, arrived, a);
    forall id | id in Do(s, a).callers
      ensures StoredOk(Do(s, a), arrived + NewlyArrived(a), id, Do(s, a).callers[id])
      ensures CallerOk(Do(s, a), arrived + NewlyArrived(a), id, Do(s, a).callers[id])
    {
      StoredStep(s, arrived, a, id);
      CallerStep(s, arrived, a, id);
    }
  }

  /** Every state of every run satisfies the invariant. */
  lemma {:induction false} InvAlways(acts: seq<Action>)
    requires Run(Init, acts).Some?
    ensures Inv(Run(Init, acts).value, Arrived(acts))
    decreases |acts|
  {
    if acts != [] {
      var front, a := acts[..|acts| - 1], acts[|acts| - 1];
      assert acts == front + [a];
      InvAlways(front);
      InvStep(Run(Init, front).value, Arrived(front), a);
      assert Arrived(acts) == Arrived(front) + NewlyArrived(a);
    }
  }

  // ----- Main results

  /** A response returned by a call arrived under that call's own correlation id. */
  lemma NoStrangersReply(acts: seq<Action>, id: Id, reply: Reply)
    requires Run(Init, acts).Some?
    requires var s := Run(Init, acts).value;
             id in s.callers && s.callers[id].Returned? && s.callers[id].result.response == Some(reply)
    ensures Deliver(id, reply) in acts
  {
    InvAlways(acts);
    var s := Run(Init, acts).value;
    assert CallerOk(s, Arrived(acts), id, s.callers[id]);
    assert (id, reply) in Arrived(acts);
  }

  /** What `DoRPC` can return: a reply, a write error, a timeout, or - only after Close
      closed its object - neither response nor error. */
  lemma ReturnedOutcomes(acts: seq<Action>, id: Id)
    requires Run(Init, acts).Some?
    requires id in Run(Init, acts).value.callers && Run(Init, acts).value.callers[id].Returned?
    ensures var s := Run(Init, acts).value;
            var r := s.callers[id].result;
            && (r.response.None? || r.error.None?)
            && (r == Outcome(None, None) ==>
                  s.callers[id].held.Some? && s.callers[id].held.value < |s.calls|
                  && s.calls[s.callers[id].held.value].closed)
            && (r.error == Some(WriteFailed) <==> s.callers[id].held.None?)
  {
    InvAlways(acts);
    var s := Run(Init, acts).value;
    assert CallerOk(s, Arrived(acts), id, s.callers[id]);
  }

  /** The pending map: exactly the calls between registration and deletion, each mapped to
      its own object, and no object shared. */
  lemma PendingMapExact(acts: seq<Action>)
    requires Run(Init, acts).Some?
    ensures var s := Run(Init, acts).value;
            && s.pending.Keys == (set id <- s.callers | InTable(s.callers[id]))
            && (forall id <- s.pending :: Owns(s, id, s.pending[id]))
            && (forall i <- s.pending, j <- s.pending :: s.pending[i] == s.pending[j] ==> i == j)
            && ((forall id <- s.callers :: s.callers[id].Returned?) ==> s.pending == map[])
  {
    InvAlways(acts);
    var s := Run(Init, acts).value;
    forall i, j | i in s.pending && j in s.pending && s.pending[i] == s.pending[j] ensures i == j {
      assert Owns(s, i, s.pending[i]) && Owns(s, j, s.pending[j]);
    }
    if forall id <- s.callers :: s.callers[id].Returned? {
      forall id ensures id !in s.pending {}
      assert s.pending.Keys == {};
    }
  }

  lemma PendingSizeStep(s: State, a: Action)
    requires TableInv(s) && Enabled(s, a)
    ensures |Do(s, a).pending| == |s.pending| + (if a.Register? then 1 else 0) - (if a.Delete? then 1 else 0)
  {
    var t := Do(s, a);
    if a.Register? {
      assert t.pending.Keys == s.pending.Keys + {a.id} && a.id !in s.pending;
    } else if a.Delete? {
      assert t.pending.Keys == s.pending.Keys - {a.id} && a.id in s.pending;
    }
    assert |s.pending| == |s.pending.Keys| && |t.pending| == |t.pending.Keys|;
  }

  /** Registrations minus deletions is the size of the pending map. */
  lemma {:induction false} PendingMapSize(acts: seq<Action>)
    requires Run(Init, acts).Some?
    ensures Count(acts, IsRegister)
            == Count(acts, IsDelete) + |Run(Init, acts).value.pending|
    decreases |acts|
  {
    if acts != [] {
      var front, a := acts[..|acts| - 1], acts[|acts| - 1];
      PendingMapSize(front);
      InvAlways(front);
      var s := Run(Init, front).value;
      PendingSizeStep(s, a);
    }
  }

  /** The addresses the steps dereference are always allocated: the side conditions of
      `Enabled` that speak of `calls` never disable a step in a reachable state. */
  lemma NoDanglingReference(acts: seq<Action>)
    requires Run(Init, acts).Some?
    ensures var s := Run(Init, acts).value;
            && ValidPending(s)
            && (s.reader.Found? || s.reader.Sending? ==> ValidRef(s, s.reader.ref))
            && (forall id <- s.callers ::
                s.callers[id].Waiting? || s.callers[id].Took? ==> ValidRef(s, s.callers[id].ref))
  {
    InvAlways(acts);
    var s := Run(Init, acts).value;
    forall id | id in s.pending ensures s.pending[id] < |s.calls| {
      assert Owns(s, id, s.pending[id]);
    }
  }
}
