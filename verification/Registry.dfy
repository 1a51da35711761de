/**
 The registry of live gateway channels as a fold over queue events, and what the fold
 means: the last event of a gateway wins, no channel is lost from the books, and the
 server's own queues are invisible.
 */
module Registry {
  import opened Wrappers

  // ----- Queue names

  predicate DotFree(s: string) { '.' !in s }

  /** Splitting at every dot; never empty. */
  function Split(s: string): (r: seq<string>)
    ensures |r| >= 1 && forall i | 0 <= i < |r| :: DotFree(r[i])
  {
    if s == "" then [""]
    else if s[0] == '.' then [""] + Split(s[1..])
    else var r := Split(s[1..]); [[s[0]] + r[0]] + r[1..]
  }

  function Join(parts: seq<string>): string
    requires |parts| >= 1
  {
    if |parts| == 1 then parts[0] else parts[0] + "." + Join(parts[1..])
  }

  lemma {:induction false} SplitDotFree(p: string)
    requires DotFree(p)
    ensures Split(p) == [p]
  {
    if p != "" {
      SplitDotFree(p[1..]);
      assert p == [p[0]] + p[1..];
    }
  }

  /** Text up to the first dot is the first part. */
  lemma {:induction false} SplitAtDot(p: string, rest: string)
    requires DotFree(p)
    ensures Split(p + "." + rest) == [p] + Split(rest)
  {
    if p == "" {
      assert p + "." + rest == "." + rest;
      assert ("." + rest)[1..] == rest;
    } else {
      SplitAtDot(p[1..], rest);
      assert (p + "." + rest)[1..] == p[1..] + "." + rest;
      assert p == [p[0]] + p[1..];
    }
  }

  /** Splitting undoes joining, for parts without dots. */
  lemma {:induction false} SplitJoin(parts: seq<string>)
    requires |parts| >= 1 && forall p <- parts :: DotFree(p)
    ensures Split(Join(parts)) == parts
  {
    if |parts| == 1 {
      SplitDotFree(parts[0]);
    } else {
      SplitJoin(parts[1..]);
      SplitAtDot(parts[0], Join(parts[1..]));
    }
  }

  /** Joining undoes splitting, for every string. */
  lemma {:induction false} JoinSplit(s: string)
    ensures Join(Split(s)) == s
  {
    if s != "" {
      JoinSplit(s[1..]);
      var r := Split(s[1..]);
      if s[0] == '.' {
        assert ([""] + r)[1..] == r;
        assert s == "." + s[1..];
      } else {
        assert ([[s[0]] + r[0]] + r[1..])[1..] == r[1..];
        assert s == [s[0]] + s[1..];
      }
    }
  }

  // ----- Events

  datatype Event = Event(eventType: string, queueName: string)

  /** The gateway an event is about: that of an input queue, `<id>.in` and whatever follows. */
  function GatewayOf(e: Event): Option<string> {
    var parts := Split(e.queueName);
    if |parts| > 1 && parts[1] == "in" then Some(parts[0]) else None
  }

  /** The name of an input queue of gateway `g`: `<g>.in`, alone or with anything after a further dot. */
  predicate Inbox(name: string, g: string) {
    DotFree(g) && (name == g + ".in" || (g + ".in.") <= name)
  }

  /** An event is about a gateway exactly if it names one of the gateway's input queues. */
  lemma GatewayIffInbox(e: Event, g: string)
    ensures GatewayOf(e) == Some(g) <==> Inbox(e.queueName, g)
  {
    var name := e.queueName;
    if GatewayOf(e) == Some(g) {
      var parts := Split(name);
      JoinSplit(name);
      if |parts| == 2 {
        assert parts[1..] == ["in"];
      } else {
        assert name == g + "." + ("in" + "." + Join(parts[2..])) by {
          assert parts[1..][0] == "in" && parts[1..][1..] == parts[2..];
        }
        assert (g + ".in.") <= name;
      }
    }
    if Inbox(name, g) {
      SplitDotFree("in");
      if name == g + ".in" {
        assert name == g + "." + "in";
        SplitAtDot(g, "in");
      } else {
        var rest := name[|g| + 4..];
        assert name == g + "." + ("in" + "." + rest);
        SplitAtDot(g, "in" + "." + rest);
        SplitAtDot("in", rest);
      }
    }
  }

  predicate Creates(e: Event, g: string) { e.eventType == "queue.created" && GatewayOf(e) == Some(g) }

  predicate Deletes(e: Event, g: string) { e.eventType == "queue.deleted" && GatewayOf(e) == Some(g) }

  // ----- The registry

  /** The live channels by gateway, and how often each channel ever opened has been closed;
      a channel is named by its position in the order of opening. */
  datatype Registry = Registry(live: map<string, nat>, closes: seq<nat>)

  const Empty: Registry := Registry(map[], [])

  predicate Sound(r: Registry) {
    && (forall g <- r.live :: r.live[g] < |r.closes| && r.closes[r.live[g]] == 0)
    && (forall f <- r.live, g <- r.live :: r.live[f] == r.live[g] ==> f == g)
    && (forall g <- r.live :: DotFree(g))
    && (forall i | 0 <= i < |r.closes| :: r.closes[i] <= 1)
  }

  /** One event.  (A live channel is always among the opened ones, see Sound; the comparison with the
      number of opened channels only keeps the function total.) */
  function Handle(r: Registry, e: Event): Registry {
    match GatewayOf(e)
    case None => r
    case Some(g) =>
      if e.eventType == "queue.created" then Registry(r.live[g := |r.closes|], r.closes + [0])
      else if e.eventType == "queue.deleted" && g in r.live && r.live[g] < |r.closes| then
        Registry(r.live - {g}, r.closes[r.live[g] := r.closes[r.live[g]] + 1])
      else r
  }

  function Run(r: Registry, h: seq<Event>): Registry {
    if h == [] then r else Handle(Run(r, h[..|h| - 1]), h[|h| - 1])
  }

  /** `Manager.Close`: every channel still in the map is closed; the map is left as it is. */
  function CloseAll(r: Registry): (c: Registry)
    ensures c.live == r.live && |c.closes| == |r.closes|
  {
    r.(closes := seq(|r.closes|, i requires 0 <= i < |r.closes| => r.closes[i] + if i in r.live.Values then 1 else 0))
  }

  lemma SoundStep(r: Registry, e: Event)
    requires Sound(r)
    ensures Sound(Handle(r, e))
  {
    var g := GatewayOf(e);
    if g.Some? && e.eventType == "queue.deleted" && g.value in r.live {
      assert forall f <- Handle(r, e).live :: f in r.live && r.live[f] != r.live[g.value];
    }
  }

  lemma {:induction false} AlwaysSound(h: seq<Event>)
    ensures Sound(Run(Empty, h))
    decreases |h|
  {
    if h != [] {
      AlwaysSound(h[..|h| - 1]);
      SoundStep(Run(Empty, h[..|h| - 1]), h[|h| - 1]);
    }
  }

  // ----- Last event wins

  /** The k-th event is the last one that creates or deletes gateway `g`'s queue. */
  predicate LastEvent(h: seq<Event>, g: string, k: nat) {
    && k < |h| && (Creates(h[k], g) || Deletes(h[k], g))
    && forall j | k < j < |h| :: !Creates(h[j], g) && !Deletes(h[j], g)
  }

  /** The gateway's queue exists as far as the events tell: its last event is a creation. */
  ghost predicate Present(h: seq<Event>, g: string) {
    exists k: nat :: LastEvent(h, g, k) && Creates(h[k], g)
  }

  predicate IsCreation(e: Event) { e.eventType == "queue.created" && GatewayOf(e).Some? }

  function Creations(h: seq<Event>): nat {
    if h == [] then 0 else Creations(h[..|h| - 1]) + if IsCreation(h[|h| - 1]) then 1 else 0
  }

  /** Each creation opens exactly one channel. */
  lemma {:induction false} CreationsOpenChannels(h: seq<Event>)
    ensures |Run(Empty, h).closes| == Creations(h)
    decreases |h|
  {
    if h != [] {
      CreationsOpenChannels(h[..|h| - 1]);
    }
  }

  lemma LastEventKept(h: seq<Event>, g: string, k: nat)
    requires h != [] && !Creates(h[|h| - 1], g) && !Deletes(h[|h| - 1], g)
    ensures LastEvent(h, g, k) <==> LastEvent(h[..|h| - 1], g, k)
  {
    var front := h[..|h| - 1];
    if LastEvent(front, g, k) {
      forall j | k < j < |h| ensures !Creates(h[j], g) && !Deletes(h[j], g) {
        assert j < |front| ==> h[j] == front[j];
      }
    }
    if LastEvent(h, g, k) {
      forall j | k < j < |front| ensures !Creates(front[j], g) && !Deletes(front[j], g) {
        assert h[j] == front[j];
      }
    }
  }

  /** The map holds exactly the gateways whose last event is a creation, each with the channel
      that this very event opened. */
  lemma {:induction false} LastEventWins(h: seq<Event>, g: string)
    ensures g in Run(Empty, h).live <==> Present(h, g)
    ensures forall k: nat :: LastEvent(h, g, k) && Creates(h[k], g) ==>
              g in Run(Empty, h).live && Run(Empty, h).live[g] == Creations(h[..k])
    decreases |h|
  {
    if h != [] {
      var n := |h| - 1;
      var front, e := h[..n], h[n];
      LastEventWins(front, g);
      AlwaysSound(front);
      CreationsOpenChannels(front);
      if Creates(e, g) || Deletes(e, g) {
        assert LastEvent(h, g, n);
        forall k: nat | LastEvent(h, g, k) ensures k == n {}
      } else {
        forall k: nat ensures LastEvent(h, g, k) <==> LastEvent(front, g, k) {
          LastEventKept(h, g, k);
        }
        forall k: nat | LastEvent(front, g, k) ensures front[..k] == h[..k] && front[k] == h[k] {}
        assert Present(h, g) <==> Present(front, g);
      }
    }
  }

  // ----- Conservation of channels

  /** A creation for a gateway that is present already: its channel is overwritten in the map. */
  ghost predicate Overwrites(h: seq<Event>, k: nat)
    requires k < |h|
  {
    IsCreation(h[k]) && Present(h[..k], GatewayOf(h[k]).value)
  }

  ghost predicate ClosesOne(h: seq<Event>, k: nat)
    requires k < |h|
  {
    h[k].eventType == "queue.deleted" && GatewayOf(h[k]).Some? && Present(h[..k], GatewayOf(h[k]).value)
  }

  ghost function Overwritten(h: seq<Event>): nat {
    if h == [] then 0 else Overwritten(h[..|h| - 1]) + if Overwrites(h, |h| - 1) then 1 else 0
  }

  ghost function ClosedByDeletion(h: seq<Event>): nat {
    if h == [] then 0 else ClosedByDeletion(h[..|h| - 1]) + if ClosesOne(h, |h| - 1) then 1 else 0
  }

  /** Opened, not in the map and never closed. */
  function Lost(r: Registry): set<nat> {
    set i | 0 <= i < |r.closes| && r.closes[i] == 0 && i !in r.live.Values
  }

  function Closed(r: Registry): set<nat> {
    set i | 0 <= i < |r.closes| && r.closes[i] == 1
  }

  lemma HandleMoves(r: Registry, e: Event)
    requires Sound(r)
    ensures var t := Handle(r, e);
            var g := GatewayOf(e);
            && (Lost(t) == if IsCreation(e) && g.value in r.live then Lost(r) + {r.live[g.value]} else Lost(r))
            && (Closed(t) == if e.eventType == "queue.deleted" && g.Some? && g.value in r.live
                             then Closed(r) + {r.live[g.value]} else Closed(r))
  {
    var t := Handle(r, e);
    if IsCreation(e) {
      var g := GatewayOf(e).value;
      forall i
        ensures i in t.live.Values <==>
                i == |r.closes| || (i in r.live.Values && !(g in r.live && i == r.live[g]))
      {
        ValuesAfterUpdate(r.live, g, |r.closes|, i);
      }
    } else if e.eventType == "queue.deleted" && GatewayOf(e).Some? && GatewayOf(e).value in r.live {
      var g := GatewayOf(e).value;
      forall i ensures i in t.live.Values <==> i in r.live.Values && i != r.live[g] {
        ValuesAfterRemove(r.live, g, i);
      }
    }
  }

  predicate OneToOne(m: map<string, nat>) { forall f <- m, g <- m :: m[f] == m[g] ==> f == g }

  lemma ValuesAfterUpdate(m: map<string, nat>, g: string, v: nat, i: nat)
    requires OneToOne(m) && v !in m.Values
    ensures i in m[g := v].Values <==> i == v || (i in m.Values && !(g in m && i == m[g]))
  {
    if i == v {
      assert m[g := v][g] == i;
    } else if i in m.Values {
      var f :| f in m && m[f] == i;
      if f != g {
        assert m[g := v][f] == i;
      }
    }
  }

  lemma ValuesAfterRemove(m: map<string, nat>, g: string, i: nat)
    requires OneToOne(m) && g in m
    ensures i in (m - {g}).Values <==> i in m.Values && i != m[g]
  {
    if i in m.Values && i != m[g] {
      var f :| f in m && m[f] == i;
      assert f in m - {g} && (m - {g})[f] == i;
    }
  }

  /** The overwritten channels are the lost ones, the deletions of present gateways closed the others. */
  lemma {:induction false} Books(h: seq<Event>)
    ensures |Lost(Run(Empty, h))| == Overwritten(h) && |Closed(Run(Empty, h))| == ClosedByDeletion(h)
    decreases |h|
  {
    if h == [] {
      assert Lost(Empty) == {} && Closed(Empty) == {};
    } else {
      var front, e := h[..|h| - 1], h[|h| - 1];
      var r := Run(Empty, front);
      Books(front);
      AlwaysSound(front);
      HandleMoves(r, e);
      if GatewayOf(e).Some? {
        LastEventWins(front, GatewayOf(e).value);
      }
    }
  }

  /** A one-to-one map has as many values as keys. */
  lemma {:induction false} ValuesSize(m: map<string, nat>)
    requires OneToOne(m)
    ensures |m.Values| == |m|
    decreases |m|
  {
    if m == map[] {
      assert m.Values == {};
    } else {
      var g :| g in m;
      var rest := m - {g};
      ValuesSize(rest);
      forall i ensures i in rest.Values <==> i in m.Values && i != m[g] {
        ValuesAfterRemove(m, g, i);
      }
      assert m.Values == rest.Values + {m[g]};
      assert m.Keys == rest.Keys + {g} && |m| == |m.Keys| && |rest| == |rest.Keys|;
    }
  }

  lemma {:induction false} UpTo(n: nat) returns (s: set<nat>)
    ensures |s| == n && forall i :: i in s <==> 0 <= i < n
  {
    if n == 0 {
      s := {};
    } else {
      s := UpTo(n - 1);
      s := s + {n - 1};
    }
  }

  lemma LiveIsOpen(r: Registry, i: nat)
    requires Sound(r) && i in r.live.Values
    ensures i < |r.closes| && r.closes[i] == 0
  {
    var g :| g in r.live && r.live[g] == i;
  }

  /** Every opened channel is in the map, closed or lost, and in only one of the three. */
  lemma Partition(r: Registry)
    requires Sound(r)
    ensures |r.closes| == |r.live.Values| + |Closed(r)| + |Lost(r)|
  {
    var all := UpTo(|r.closes|);
    forall i | i in r.live.Values ensures i in all && i !in Closed(r) && i !in Lost(r) {
      LiveIsOpen(r, i);
    }
    assert r.live.Values !! Closed(r) && (r.live.Values + Closed(r)) !! Lost(r);
    assert all == r.live.Values + Closed(r) + Lost(r);
  }

  /** Channels opened = still in the map + closed by a deletion + overwritten by a repeated creation. */
  lemma ChannelConservation(h: seq<Event>)
    ensures Creations(h) == |Run(Empty, h).live| + ClosedByDeletion(h) + Overwritten(h)
  {
    AlwaysSound(h);
    CreationsOpenChannels(h);
    Books(h);
    ValuesSize(Run(Empty, h).live);
    Partition(Run(Empty, h));
  }

  lemma {:induction false} OverwrittenIff(h: seq<Event>)
    ensures Overwritten(h) > 0 <==> exists k | 0 <= k < |h| :: Overwrites(h, k)
    decreases |h|
  {
    if h != [] {
      var n := |h| - 1;
      var front := h[..n];
      OverwrittenIff(front);
      forall k | 0 <= k < n ensures Overwrites(h, k) <==> Overwrites(front, k) {
        assert h[..k] == front[..k];
      }
    }
  }

  /** After a final `Manager.Close` no channel was closed twice, and every opened channel was closed
      exactly once if and only if no creation arrived for a gateway that was present already. */
  lemma ClosedExactlyOnceIff(h: seq<Event>)
    ensures var r := CloseAll(Run(Empty, h));
            && (forall i | 0 <= i < |r.closes| :: r.closes[i] <= 1)
            && ((forall i | 0 <= i < |r.closes| :: r.closes[i] == 1)
                <==> (forall k | 0 <= k < |h| :: !Overwrites(h, k)))
  {
    var r := Run(Empty, h);
    AlwaysSound(h);
    Books(h);
    OverwrittenIff(h);
    forall i | 0 <= i < |r.closes|
      ensures CloseAll(r).closes[i] <= 1 && (CloseAll(r).closes[i] == 1 <==> i !in Lost(r))
    {
      if i in r.live.Values {
        LiveIsOpen(r, i);
      }
    }
    if Lost(r) != {} {
      var i :| i in Lost(r);
      assert CloseAll(r).closes[i] != 1;
    } else {
      assert |Lost(r)| == 0;
    }
  }

  // ----- The server's own queues

  /** An event about a queue the server itself declares for a gateway it reads from. */
  ghost predicate OwnQueue(e: Event) {
    exists id :: DotFree(id) && e.queueName == id + ".out"
  }

  ghost function WithoutOwn(h: seq<Event>): seq<Event> {
    if h == [] then []
    else WithoutOwn(h[..|h| - 1]) + if OwnQueue(h[|h| - 1]) then [] else [h[|h| - 1]]
  }

  /** An input queue names its gateway, an output queue none. */
  lemma QueueNames(id: string, eventType: string)
    requires DotFree(id)
    ensures GatewayOf(Event(eventType, id + ".in")) == Some(id)
    ensures GatewayOf(Event(eventType, id + ".out")) == None
  {
    SplitAtDot(id, "in");
    SplitAtDot(id, "out");
    SplitDotFree("in");
    SplitDotFree("out");
    assert id + "." + "in" == id + ".in" && id + "." + "out" == id + ".out";
  }

  /** Every gateway in the map is dot-free, so the queue the server declares for it is one of its own. */
  lemma RegisteredQueuesAreOwn(h: seq<Event>, g: string, eventType: string)
    requires g in Run(Empty, h).live
    ensures OwnQueue(Event(eventType, g + ".out"))
  {
    AlwaysSound(h);
  }

  /** Whatever events of the server's own queues are mixed into a trace, the run is unchanged. */
  lemma {:induction false} OwnQueuesAreInvisible(r: Registry, h: seq<Event>)
    ensures Run(r, h) == Run(r, WithoutOwn(h))
    decreases |h|
  {
    if h != [] {
      var front, e := h[..|h| - 1], h[|h| - 1];
      OwnQueuesAreInvisible(r, front);
      if OwnQueue(e) {
        var id :| DotFree(id) && e.queueName == id + ".out";
        QueueNames(id, e.eventType);
        assert e == Event(e.eventType, id + ".out");
        assert WithoutOwn(h) == WithoutOwn(front);
      } else {
        assert WithoutOwn(h)[..|WithoutOwn(h)| - 1] == WithoutOwn(front);
      }
    }
  }
}
