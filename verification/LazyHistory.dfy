/**
 `ApplyLogic` read off the run alone: which instance the channel shows, what each
 message ends with, and what a message does that is turned away or finds the logic set.
 */
module LazyHistory {
  import opened Wrappers
  import opened LazyLogic

  // ----- Reading a run

  predicate RowsRead(a: Action) { a.LoadRows? && a.ok }

  predicate NoticeSent(a: Action) { a.Announce? && a.ok }

  function Count(acts: seq<Action>, p: Action -> bool): nat {
    if acts == [] then 0 else Count(acts[..|acts| - 1], p) + if p(acts[|acts| - 1]) then 1 else 0
  }

  /** The instance goroutine `t` made: they are numbered in the order in which their parameters were read. */
  function MadeBy(acts: seq<Action>, t: Thread): Option<Instance> {
    if acts == [] then None
    else if acts[|acts| - 1] == LoadRows(t, true) then Some(Count(acts[..|acts| - 1], RowsRead))
    else MadeBy(acts[..|acts| - 1], t)
  }

  /** What the channel shows: the instance of the last goroutine that assigned, or nil if its load had failed. */
  function LogicAfter(acts: seq<Action>): Option<Instance> {
    if acts == [] then None
    else
      var front, a := acts[..|acts| - 1], acts[|acts| - 1];
      if a.Assign? then (if Announce(a.t, true) in front then MadeBy(front, a.t) else None)
      else LogicAfter(front)
  }

  /** The first test of goroutine `t` read nil. */
  predicate ReadNil(acts: seq<Action>, t: Thread) {
    acts != []
    && (if acts[|acts| - 1] == FirstTest(t) then LogicAfter(acts[..|acts| - 1]).None?
        else ReadNil(acts[..|acts| - 1], t))
  }

  /** What goroutine `t` ended with: the answer that turned it away, its second test reading nil, or its
      call on what the channel showed at that moment. */
  function VerdictOf(acts: seq<Action>, t: Thread): Option<Verdict> {
    if acts == [] then None
    else
      var front, a := acts[..|acts| - 1], acts[|acts| - 1];
      if a == CheckExistence(t, Missing) then Some(NotRegistered)
      else if a == CheckExistence(t, QueryError) then Some(CheckFailed)
      else if a == SecondTest(t) && LogicAfter(front).None? then Some(NoLogic)
      else if a == Use(t) && LogicAfter(front).Some? then Some(Processed(LogicAfter(front).value))
      else VerdictOf(front, t)
  }

  // ----- The state shows the run

  predicate ShowsChannel(acts: seq<Action>, s: State) {
    s.instances == Count(acts, RowsRead) && s.notices == Count(acts, NoticeSent) && s.bl == LogicAfter(acts)
  }

  /** Past the first test by way of the database: before or after its own load. */
  predicate Asking(p: Point) { p.Checking? || p.Creating? || p.Announcing? || p.Loaded? }

  /** A step of `t` that asks, makes, announces or assigns an instance. */
  predicate Loads(a: Action, t: Thread) {
    a.t == t && (a.CheckExistence? || a.LoadRows? || a.Announce? || a.Assign?)
  }

  /** A step of `t` that makes, announces or assigns an instance, or tests or uses the logic again. */
  predicate GoesOn(a: Action, t: Thread) {
    a.t == t && (a.LoadRows? || a.Announce? || a.Assign? || a.SecondTest? || a.Use?)
  }

  predicate ShowsLocal(acts: seq<Action>, l: Local, t: Thread) {
    && l.sawNil == ReadNil(acts, t) && l.made == MadeBy(acts, t) && l.announced == (Announce(t, true) in acts)
    && VerdictOf(acts, t) == (if l.at.Finished? then Some(l.at.verdict) else None)
    && (l.at.Start? || l.at.Checking? || l.at.Creating? || l.at.Announcing? ==> !l.announced)
    && (l.at.Loaded? ==> l.at.result == if l.announced then l.made else None)
    && (l.at.Announcing? ==> l.made == Some(l.at.instance))
    && (Asking(l.at) ==> l.sawNil)
  }

  predicate ShowsAnswers(acts: seq<Action>, l: Local, t: Thread) {
    && (CheckExistence(t, Missing) in acts <==> l.at == Finished(NotRegistered))
    && (CheckExistence(t, QueryError) in acts <==> l.at == Finished(CheckFailed))
    && (l.at.Start? || !l.sawNil ==> forall a <- acts :: !Loads(a, t))
    && (l.at.Start? || l.at.Checking? || l.at == Finished(NotRegistered) || l.at == Finished(CheckFailed) ==>
          forall a <- acts :: !GoesOn(a, t))
    && (l.at.Start? ==> !l.sawNil)
  }

  predicate ShowsThread(acts: seq<Action>, s: State, t: Thread) {
    if t in s.threads then ShowsLocal(acts, s.threads[t], t) && ShowsAnswers(acts, s.threads[t], t)
    else
      && (forall a <- acts :: a.t != t)
      && !ReadNil(acts, t) && MadeBy(acts, t) == None && VerdictOf(acts, t) == None
  }

  lemma OtherThread(acts: seq<Action>, s: State, a: Action, t: Thread)
    requires Enabled(s, a) && ShowsThread(acts, s, t) && a.t != t
    ensures ShowsThread(acts + [a], Do(s, a), t)
  {
    assert (acts + [a])[..|acts|] == acts;
    OthersKept(s, a, t);
  }

  lemma OthersKept(s: State, a: Action, t: Thread)
    requires Enabled(s, a) && a.t != t
    ensures t in Do(s, a).threads <==> t in s.threads
    ensures t in s.threads ==> Do(s, a).threads[t] == s.threads[t]
  {
  }

  lemma OwnThread(acts: seq<Action>, s: State, a: Action)
    requires Enabled(s, a) && ShowsChannel(acts, s) && ShowsThread(acts, s, a.t)
    ensures ShowsThread(acts + [a], Do(s, a), a.t)
  {
    assert (acts + [a])[..|acts|] == acts;
    var l := Do(s, a).threads[a.t];
    OwnLocal(acts, s, a);
    OwnAnswers(acts, s, a);
  }

  lemma OwnLocal(acts: seq<Action>, s: State, a: Action)
    requires Enabled(s, a) && ShowsChannel(acts, s) && ShowsThread(acts, s, a.t)
    ensures a.t in Do(s, a).threads && ShowsLocal(acts + [a], Do(s, a).threads[a.t], a.t)
  {
    assert (acts + [a])[..|acts|] == acts;
  }

  lemma OwnAnswers(acts: seq<Action>, s: State, a: Action)
    requires Enabled(s, a) && ShowsThread(acts, s, a.t)
    ensures a.t in Do(s, a).threads && ShowsAnswers(acts + [a], Do(s, a).threads[a.t], a.t)
  {
    assert (acts + [a])[..|acts|] == acts;
  }

  lemma ChannelStep(acts: seq<Action>, s: State, a: Action)
    requires Enabled(s, a) && ShowsChannel(acts, s) && ShowsThread(acts, s, a.t)
    ensures ShowsChannel(acts + [a], Do(s, a))
  {
    assert (acts + [a])[..|acts|] == acts;
  }

  lemma {:induction false} RunShows(acts: seq<Action>, t: Thread)
    requires Run(Init, acts).Some?
    ensures ShowsChannel(acts, Run(Init, acts).value) && ShowsThread(acts, Run(Init, acts).value, t)
    decreases |acts|
  {
    if acts != [] {
      var front, a := acts[..|acts| - 1], acts[|acts| - 1];
      assert acts == front + [a];
      RunShows(front, t);
      RunShows(front, a.t);
      var s := Run(Init, front).value;
      ChannelStep(front, s, a);
      if a.t == t {
        OwnThread(front, s, a);
      } else {
        OtherThread(front, s, a, t);
      }
    }
  }

  // ----- Main results

  /** After any run, the instances and notices are the successful loads and writes, the channel shows the
      instance of the last goroutine that assigned or nil, and each message has ended as the run says. */
  lemma RunDecides(acts: seq<Action>, t: Thread)
    requires Run(Init, acts).Some?
    ensures var s := Run(Init, acts).value;
            && s.instances == Count(acts, RowsRead) && s.notices == Count(acts, NoticeSent)
            && s.bl == LogicAfter(acts)
            && (t in s.threads <==> exists a <- acts :: a.t == t)
            && (forall v :: t in s.threads && s.threads[t].at == Finished(v) <==> VerdictOf(acts, t) == Some(v))
  {
    RunShows(acts, t);
    var s := Run(Init, acts).value;
    if t in s.threads {
      Arrived(acts, t);
    }
  }

  lemma {:induction false} Arrived(acts: seq<Action>, t: Thread)
    requires Run(Init, acts).Some? && t in Run(Init, acts).value.threads
    ensures Arrive(t) in acts
    decreases |acts|
  {
    var front, a := acts[..|acts| - 1], acts[|acts| - 1];
    assert acts == front + [a];
    if a != Arrive(t) {
      Arrived(front, t);
    }
  }

  /** A message is turned away exactly by its answer - "not registered" by a missing gateway, "check failed"
      by a failed query - and then makes, announces, assigns and uses nothing. */
  lemma TurnedAwayIff(acts: seq<Action>, t: Thread)
    requires Run(Init, acts).Some?
    ensures var s := Run(Init, acts).value;
            && (CheckExistence(t, Missing) in acts <==> At(s, t, Finished(NotRegistered)))
            && (CheckExistence(t, QueryError) in acts <==> At(s, t, Finished(CheckFailed)))
            && (CheckExistence(t, Missing) in acts || CheckExistence(t, QueryError) in acts ==>
                  s.threads[t].made.None? && !s.threads[t].announced && forall a <- acts :: !GoesOn(a, t))
  {
    RunShows(acts, t);
    var s := Run(Init, acts).value;
    if At(s, t, Finished(NotRegistered)) || At(s, t, Finished(CheckFailed)) {
      MadeByLoading(acts, t);
    }
  }

  lemma {:induction false} MadeByLoading(acts: seq<Action>, t: Thread)
    ensures MadeBy(acts, t).Some? ==> LoadRows(t, true) in acts
    decreases |acts|
  {
    if acts != [] {
      MadeByLoading(acts[..|acts| - 1], t);
      assert acts == acts[..|acts| - 1] + [acts[|acts| - 1]];
    }
  }

  /** Only a message whose first test read nil asks the database, makes, announces or assigns an instance. */
  lemma OnlyNilReadersLoad(acts: seq<Action>, t: Thread)
    requires Run(Init, acts).Some? && !ReadNil(acts, t)
    ensures forall a <- acts :: !Loads(a, t)
  {
    RunShows(acts, t);
  }
}
