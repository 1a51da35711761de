/**
 The broker manager and its guarded map of gateway channels, changed in place, proved
 to do to their objects what the Registry functions do to values.
 */
module Managers {
  import opened Wrappers
  import opened Registry

  class Channel {
    const gatewayID: string
    ghost const serial: nat      // position in the order of opening
    var starts: nat              // how often Start was called: reader goroutines running
    var closes: nat              // how often Close was called

    constructor (gatewayID: string, ghost serial: nat)
      ensures this.gatewayID == gatewayID && this.serial == serial && starts == closes == 0
    {
      this.gatewayID, this.serial := gatewayID, serial;
      starts, closes := 0, 0;
    }

    method Start()
      modifies `starts
      ensures starts == old(starts) + 1
    {
      starts := starts + 1;
    }

    method Close()
      modifies `closes
      ensures closes == old(closes) + 1
    {
      closes := closes + 1;
    }
  }

  class GatewayChannelsMap {
    var channels: map<string, Channel>

    constructor ()
      ensures channels == map[]
    {
      channels := map[];
    }

    method Add(gatewayID: string, ch: Channel)
      modifies this
      ensures channels == old(channels)[gatewayID := ch]
    {
      channels := channels[gatewayID := ch];
    }

    method Get(gatewayID: string) returns (ch: Channel?)
      ensures if gatewayID in channels then ch == channels[gatewayID] else ch == null
    {
      ch := if gatewayID in channels then channels[gatewayID] else null;
    }

    method Remove(gatewayID: string)
      modifies this
      ensures channels == old(channels) - {gatewayID}
    {
      channels := channels - {gatewayID};
    }

    /** The channels as a slice: made with one nil per entry and then appended to, so that the
        channels come after as many nils; their order is that of the map iteration. */
    method GetChannels() returns (chans: seq<Channel?>, ghost keys: seq<string>)
      ensures |keys| == |channels| && (forall i, j | 0 <= i < j < |keys| :: keys[i] != keys[j])
      ensures forall g :: g in channels <==> g in keys
      ensures |chans| == 2 * |channels|
      ensures forall i | 0 <= i < |channels| :: chans[i] == null
      ensures forall i | 0 <= i < |channels| :: keys[i] in channels && chans[|channels| + i] == channels[keys[i]]
    {
      var n := |channels|;
      chans := seq(n, i => null);
      keys := [];
      var todo := channels.Keys;
      while todo != {}
        invariant todo <= channels.Keys && |keys| + |todo| == n == |channels.Keys|
        invariant forall i, j | 0 <= i < j < |keys| :: keys[i] != keys[j]
        invariant forall g :: g in channels <==> g in keys || g in todo
        invariant forall g <- keys :: g !in todo
        invariant |chans| == n + |keys|
        invariant forall i | 0 <= i < n :: chans[i] == null
        invariant forall i | 0 <= i < |keys| :: keys[i] in channels && chans[n + i] == channels[keys[i]]
        decreases |todo|
      {
        var g :| g in todo;
        chans := chans + [channels[g]];
        keys := keys + [g];
        todo := todo - {g};
      }
    }
  }

  class Manager {
    const gwChans: GatewayChannelsMap
    ghost var made: seq<Channel>     // every channel ever opened, in order

    /** Every channel ever opened was started exactly once; the map holds channels under their own gateway. */
    ghost predicate Valid()
      reads this, gwChans, made
    {
      && (forall i | 0 <= i < |made| :: made[i].serial == i && made[i].starts == 1)
      && (forall g <- gwChans.channels ::
            && gwChans.channels[g].gatewayID == g
            && gwChans.channels[g].serial < |made| && made[gwChans.channels[g].serial] == gwChans.channels[g])
    }

    ghost function Live(): map<string, nat>
      reads gwChans
    {
      map g | g in gwChans.channels :: gwChans.channels[g].serial
    }

    ghost function Closes(): seq<nat>
      reads this, made
    {
      seq(|made|, i requires 0 <= i < |made| reads this, made => made[i].closes)
    }

    ghost function View(): Registry
      reads this, gwChans, made
    {
      Registry(Live(), Closes())
    }

    constructor ()
      ensures Valid() && View() == Empty && fresh(gwChans) && made == []
    {
      gwChans := new GatewayChannelsMap();
      made := [];
    }

    /** A gateway's input queue appeared: open, start and store a channel for it. */
    method Create(gatewayID: string)
      requires Valid()
      modifies this, gwChans
      ensures |made| == |old(made)| + 1 && old(made) <= made && fresh(made[|old(made)|])
      ensures made[|old(made)|].starts == 1 && made[|old(made)|].gatewayID == gatewayID
      ensures Valid() && View() == Registry(old(Live())[gatewayID := |old(made)|], old(Closes()) + [0])
    {
      var ch := new Channel(gatewayID, |made|);
      ch.Start();
      gwChans.Add(gatewayID, ch);
      made := made + [ch];
      assert Live() == old(Live())[gatewayID := |old(made)|];
      assert Closes() == old(Closes()) + [0];
    }

    /** A gateway's input queue went away: close and forget its channel, if there is one. */
    method Delete(gatewayID: string)
      requires Valid()
      modifies gwChans, made
      ensures Valid() && View() == if gatewayID in old(Live())
                                   then Registry(old(Live()) - {gatewayID},
                                                 old(Closes())[old(Live())[gatewayID] :=
                                                   old(Closes())[old(Live())[gatewayID]] + 1])
                                   else old(View())
    {
      var ch := gwChans.Get(gatewayID);
      if ch != null {
        ch.Close();
        gwChans.Remove(gatewayID);
        assert Live() == old(Live()) - {gatewayID};
        assert Closes() == old(Closes())[ch.serial := old(Closes())[ch.serial] + 1];
      }
    }

    /** One event of the exchange. */
    method HandleEvent(e: Event)
      requires Valid()
      modifies this, gwChans, made
      ensures Valid() && View() == Handle(old(View()), e)
      ensures old(made) <= made && forall i | |old(made)| <= i < |made| :: fresh(made[i])
    {
      var parts := Split(e.queueName);
      var gatewayID := parts[0];
      if |parts| > 1 && parts[1] == "in" {
        if e.eventType == "queue.created" {
          Create(gatewayID);
        } else if e.eventType == "queue.deleted" {
          Delete(gatewayID);
        }
      }
    }

    /** One turn of the event loop: a read error (None) is skipped. */
    method HandleRead(r: Option<Event>)
      requires Valid()
      modifies this, gwChans, made
      ensures Valid() && View() == if r.None? then old(View()) else Handle(old(View()), r.value)
      ensures old(made) <= made && forall i | |old(made)| <= i < |made| :: fresh(made[i])
    {
      if r.Some? {
        HandleEvent(r.value);
      }
    }

    /** The event loop over any stretch of the stream. */
    method ProcessExchangeEvents(results: seq<Option<Event>>)
      requires Valid()
      modifies this, gwChans, made
      ensures Valid() && View() == Run(old(View()), EventsOf(results))
      ensures old(made) <= made
    {
      ghost var start := View();
      for n := 0 to |results|
        invariant Valid() && View() == Run(start, EventsOf(results[..n]))
        invariant old(made) <= made && forall i | |old(made)| <= i < |made| :: fresh(made[i])
      {
        HandleRead(results[n]);
        RunOneMore(start, results, n);
      }
      assert results[..|results|] == results;
    }

    /** No channel appears twice in the slice. */
    lemma SliceIsDistinct(chans: seq<Channel?>, keys: seq<string>)
      requires Valid()
      requires |keys| == |gwChans.channels| && |chans| == 2 * |keys|
      requires forall i, j | 0 <= i < j < |keys| :: keys[i] != keys[j]
      requires forall i | 0 <= i < |keys| :: chans[i] == null
      requires forall i | 0 <= i < |keys| ::
                 keys[i] in gwChans.channels && chans[|keys| + i] == gwChans.channels[keys[i]]
      ensures forall i, j | 0 <= i < j < |chans| && chans[j] != null :: chans[i] != chans[j]
    {
      forall i, j | 0 <= i < j < |chans| && chans[j] != null ensures chans[i] != chans[j] {
        if i >= |keys| {
          var f, g := keys[i - |keys|], keys[j - |keys|];
          assert gwChans.channels[f].gatewayID != gwChans.channels[g].gatewayID;
        }
      }
    }

    /** The loop of `Close`: skip the nils, close the others. */
    method CloseSlice(chans: seq<Channel?>)
      requires Valid()
      requires forall i, j | 0 <= i < j < |chans| && chans[j] != null :: chans[i] != chans[j]
      requires forall i | 0 <= i < |chans| && chans[i] != null ::
                 chans[i].serial < |made| && made[chans[i].serial] == chans[i]
      modifies made
      ensures Valid() && Live() == old(Live())
      ensures forall i | 0 <= i < |made| :: made[i].closes == old(made[i].closes) + if made[i] in chans then 1 else 0
    {
      for i := 0 to |chans|
        invariant forall k | 0 <= k < |made| :: made[k].starts == old(made[k].starts)
        invariant forall k | 0 <= k < |made| ::
                    made[k].closes == old(made[k].closes) + if made[k] in chans[..i] then 1 else 0
      {
        var ch := chans[i];
        assert chans[..i + 1] == chans[..i] + [ch];
        if ch != null {
          ch.Close();
        }
      }
      assert chans[..|chans|] == chans;
    }

    /** The slice `Close` ranges over: nils, and each mapped channel once. */
    method Slice() returns (chans: seq<Channel?>)
      requires Valid()
      ensures forall i, j | 0 <= i < j < |chans| && chans[j] != null :: chans[i] != chans[j]
      ensures forall i | 0 <= i < |chans| && chans[i] != null ::
                chans[i].serial < |made| && made[chans[i].serial] == chans[i]
      ensures forall i | 0 <= i < |made| :: made[i] in chans <==> i in Live().Values
    {
      ghost var keys;
      chans, keys := gwChans.GetChannels();
      SliceIsDistinct(chans, keys);
      forall i | 0 <= i < |chans| && chans[i] != null
        ensures chans[i].serial < |made| && made[chans[i].serial] == chans[i]
      {
        assert chans[i] == gwChans.channels[keys[i - |keys|]];
      }
      forall i | 0 <= i < |made| ensures made[i] in chans <==> i in Live().Values {
        InSliceIffLive(chans, keys, i);
      }
    }

    /** `Close` closes every channel in the map. */
    method Close()
      requires Valid()
      modifies made
      ensures Valid() && View() == CloseAll(old(View()))
    {
      var chans := Slice();
      CloseSlice(chans);
      assert Closes() == CloseAll(old(View())).closes;
    }

    lemma InSliceIffLive(chans: seq<Channel?>, keys: seq<string>, i: nat)
      requires Valid() && i < |made|
      requires |keys| == |gwChans.channels| && |chans| == 2 * |keys|
      requires forall g :: g in gwChans.channels <==> g in keys
      requires forall i | 0 <= i < |keys| :: chans[i] == null
      requires forall i | 0 <= i < |keys| ::
                 keys[i] in gwChans.channels && chans[|keys| + i] == gwChans.channels[keys[i]]
      ensures made[i] in chans <==> i in Live().Values
    {
      if made[i] in chans {
        var j :| 0 <= j < |chans| && chans[j] == made[i];
        assert Live()[keys[j - |keys|]] == i;
      }
      if i in Live().Values {
        var g :| g in Live() && Live()[g] == i;
        var j :| 0 <= j < |keys| && keys[j] == g;
        assert chans[|keys| + j] == made[i];
      }
    }
  }

  /** The events among the results of reading the exchange. */
  function EventsOf(rs: seq<Option<Event>>): seq<Event> {
    if rs == [] then []
    else EventsOf(rs[..|rs| - 1]) + if rs[|rs| - 1].Some? then [rs[|rs| - 1].value] else []
  }

  lemma RunOneMore(r: Registry, rs: seq<Option<Event>>, n: nat)
    requires n < |rs|
    ensures Run(r, EventsOf(rs[..n + 1]))
            == if rs[n].None? then Run(r, EventsOf(rs[..n])) else Handle(Run(r, EventsOf(rs[..n])), rs[n].value)
  {
    assert rs[..n + 1][..n] == rs[..n];
    if rs[n].Some? {
      assert EventsOf(rs[..n + 1])[..|EventsOf(rs[..n])|] == EventsOf(rs[..n]);
    } else {
      assert EventsOf(rs[..n + 1]) == EventsOf(rs[..n]);
    }
  }
}
