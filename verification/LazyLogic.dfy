/**
 `ApplyLogic` statement by statement: any number of message goroutines test, create
 and use the channel's business logic without a lock.
 */
module LazyLogic {
  import opened Wrappers

  type Thread = nat
  type Instance = nat       // logic objects, in the order their parameters were read

  datatype Verdict = CheckFailed | NotRegistered | NoLogic | Processed(instance: Instance)

  /** Program points of one goroutine. */
  datatype Point =
    | Start                              // before the first test of c.bl
    | Checking                           // read nil, asking the database for the gateway
    | Creating                           // the gateway exists, reading the parameter rows
    | Announcing(instance: Instance)     // parameters read, about to write the "registered" notice
    | Loaded(result: Option<Instance>)   // about to assign c.bl; None when loading failed
    | Testing                            // before the second test of c.bl
    | Using                              // read non-nil there, about to read c.bl once more and call it
    | Finished(verdict: Verdict)

  /** A goroutine: where it is, whether its first test read nil, the instance it made, if any, and
      whether it sent the notice for it. */
  datatype Local = Local(at: Point, sawNil: bool, made: Option<Instance>, announced: bool)

  /** The channel: its logic pointer, the instances made and the "registered" notices sent so far. */
  datatype State = State(bl: Option<Instance>, instances: nat, notices: nat, threads: map<Thread, Local>, crashed: bool)

  const Init: State := State(None, 0, 0, map[], false)

  datatype Existence = Exists | Missing | QueryError

  datatype Action =
    | Arrive(t: Thread)
    | FirstTest(t: Thread)
    | CheckExistence(t: Thread, answer: Existence)
    | LoadRows(t: Thread, ok: bool)      // the queries of LoadParams
    | Announce(t: Thread, ok: bool)      // its last act, the write of the notice
    | Assign(t: Thread)                  // c.bl, err = ...: nil when loading failed
    | SecondTest(t: Thread)
    | Use(t: Thread)                     // c.bl.Process: a call through nil panics

  predicate At(s: State, t: Thread, p: Point) { t in s.threads && s.threads[t].at == p }

  predicate Enabled(s: State, a: Action) {
    && !s.crashed
    && match a
       case Arrive(t) => t !in s.threads
       case FirstTest(t) => At(s, t, Start)
       case CheckExistence(t, _) => At(s, t, Checking)
       case LoadRows(t, _) => At(s, t, Creating)
       case Announce(t, _) => t in s.threads && s.threads[t].at.Announcing?
       case Assign(t) => t in s.threads && s.threads[t].at.Loaded?
       case SecondTest(t) => At(s, t, Testing)
       case Use(t) => At(s, t, Using)
  }

  function Move(s: State, t: Thread, p: Point): map<Thread, Local>
    requires t in s.threads
  {
    s.threads[t := s.threads[t].(at := p)]
  }

  function Do(s: State, a: Action): State
    requires Enabled(s, a)
  {
    match a
    case Arrive(t) => s.(threads := s.threads[t := Local(Start, false, None, false)])
    case FirstTest(t) =>
      s.(threads := s.threads[t := s.threads[t].(at := if s.bl.None? then Checking else Testing, sawNil := s.bl.None?)])
    case CheckExistence(t, answer) =>
      s.(threads := Move(s, t, match answer
                               case Exists => Creating
                               case Missing => Finished(NotRegistered)
                               case QueryError => Finished(CheckFailed)))
    case LoadRows(t, ok) =>
      if ok then
        s.(instances := s.instances + 1,
           threads := s.threads[t := s.threads[t].(at := Announcing(s.instances), made := Some(s.instances))])
      else s.(threads := Move(s, t, Loaded(None)))
    case Announce(t, ok) =>
      if ok then
        s.(notices := s.notices + 1,
           threads := s.threads[t := s.threads[t].(at := Loaded(Some(s.threads[t].at.instance)), announced := true)])
      else s.(threads := Move(s, t, Loaded(None)))
    case Assign(t) => s.(bl := s.threads[t].at.result, threads := Move(s, t, Testing))
    case SecondTest(t) => s.(threads := Move(s, t, if s.bl.None? then Finished(NoLogic) else Using))
    case Use(t) =>
      if s.bl.None? then s.(crashed := true)
      else s.(threads := Move(s, t, Finished(Processed(s.bl.value))))
  }

  function Run(s: State, acts: seq<Action>): Option<State> {
    if acts == [] then Some(s)
    else
      match Run(s, acts[..|acts| - 1])
      case None => None
      case Some(t) => if Enabled(t, acts[|acts| - 1]) then Some(Do(t, acts[|acts| - 1])) else None
  }

  /** A step at which loading fails: reading the rows, or writing the notice. */
  predicate LoadFails(a: Action) { (a.LoadRows? || a.Announce?) && !a.ok }

  predicate NoLoadFails(acts: seq<Action>) { forall a <- acts :: !LoadFails(a) }

  // ----- Invariants

  function Makers(s: State): set<Thread> { set t <- s.threads | s.threads[t].made.Some? }

  function Announcers(s: State): set<Thread> { set t <- s.threads | s.threads[t].announced }

  function NilReaders(s: State): set<Thread> { set t <- s.threads | s.threads[t].sawNil }

  /** Some goroutine made instance `i` and sent its notice. */
  ghost predicate Announced(s: State, i: Instance) {
    exists t <- s.threads :: s.threads[t].made == Some(i) && s.threads[t].announced
  }

  /** One goroutine: it makes an instance after reading nil, and announces its own before handing it on. */
  ghost predicate LocalOk(s: State, l: Local) {
    && (l.announced ==> l.made.Some?)
    && (l.made.Some? ==> l.sawNil && l.made.value < s.instances)
    && match l.at
       case Start => l.made.None?
       case Checking => l.made.None? && l.sawNil
       case Creating => l.made.None? && l.sawNil
       case Announcing(i) => l.made == Some(i) && !l.announced
       case Loaded(Some(i)) => l.made == Some(i) && l.announced
       case Finished(Processed(i)) => Announced(s, i)
       case _ => true
  }

  /** Of every run: who made and who announced the instances, and that only announced ones are used. */
  ghost predicate MakersInv(s: State) {
    && s.instances == |Makers(s)| && s.notices == |Announcers(s)|
    && (s.bl.Some? ==> Announced(s, s.bl.value))
    && (forall t <- s.threads :: LocalOk(s, s.threads[t]))
  }

  /** Of runs without a failed load: past its creation or a non-nil read, a goroutine finds the logic there. */
  ghost predicate PresentInv(s: State) {
    && !s.crashed
    && (forall t <- s.threads ::
          && (s.threads[t].at.Loaded? ==> s.threads[t].at.result.Some?)
          && (s.threads[t].at.Testing? || s.threads[t].at.Using? ==> s.bl.Some?)
          && s.threads[t].at != Finished(NoLogic))
  }

  lemma AnnouncedStays(s: State, a: Action, i: Instance)
    requires Enabled(s, a) && Announced(s, i) && (forall t <- s.threads :: LocalOk(s, s.threads[t]))
    ensures Announced(Do(s, a), i)
  {
    var t :| t in s.threads && s.threads[t].made == Some(i) && s.threads[t].announced;
    assert LocalOk(s, s.threads[t]);
    assert t in Do(s, a).threads;
  }

  lemma LocalKept(s: State, t: State, l: Local)
    requires LocalOk(s, l) && s.instances <= t.instances
    requires l.at.Finished? && l.at.verdict.Processed? ==> Announced(t, l.at.verdict.instance)
    ensures LocalOk(t, l)
  {
  }

  lemma LocalStays(s: State, a: Action, u: Thread)
    requires MakersInv(s) && Enabled(s, a) && u in s.threads && u != a.t
    ensures u in Do(s, a).threads && LocalOk(Do(s, a), Do(s, a).threads[u])
  {
    assert LocalOk(s, s.threads[u]);
    if WasProcessed(s, u) {
      AnnouncedStays(s, a, s.threads[u].at.verdict.instance);
    }
    OthersStay(s, a, u);
    LocalKept(s, Do(s, a), s.threads[u]);
  }

  lemma OthersStay(s: State, a: Action, u: Thread)
    requires Enabled(s, a) && u in s.threads && u != a.t
    ensures u in Do(s, a).threads && Do(s, a).threads[u] == s.threads[u] && s.instances <= Do(s, a).instances
  {
  }

  lemma LocalStep(s: State, a: Action)
    requires MakersInv(s) && Enabled(s, a)
    ensures a.t in Do(s, a).threads && LocalOk(Do(s, a), Do(s, a).threads[a.t])
  {
    assert a.t in s.threads ==> LocalOk(s, s.threads[a.t]);
    if a.Use? && s.bl.Some? {
      AnnouncedStays(s, a, s.bl.value);
    }
  }

  lemma MakersStep(s: State, a: Action)
    requires MakersInv(s) && Enabled(s, a)
    ensures MakersInv(Do(s, a))
  {
    var t := Do(s, a);
    forall u | u in t.threads ensures LocalOk(t, t.threads[u]) {
      if u == a.t {
        LocalStep(s, a);
      } else {
        LocalStays(s, a, u);
      }
    }
    MakersGrow(s, a);
    AnnouncersGrow(s, a);
    if a.Assign? {
      assert LocalOk(s, s.threads[a.t]);
    }
    if t.bl.Some? {
      assert Announced(s, t.bl.value);
      AnnouncedStays(s, a, t.bl.value);
    }
  }

  lemma MakersGrow(s: State, a: Action)
    requires MakersInv(s) && Enabled(s, a)
    ensures |Makers(Do(s, a))| == |Makers(s)| + if a.LoadRows? && a.ok then 1 else 0
  {
    var t := Do(s, a);
    forall u | u in s.threads && u != a.t ensures u in t.threads && t.threads[u] == s.threads[u] {
      OthersStay(s, a, u);
    }
    if a.LoadRows? && a.ok {
      assert LocalOk(s, s.threads[a.t]);
      assert Makers(t) == Makers(s) + {a.t} && a.t !in Makers(s);
    } else {
      assert Makers(t) == Makers(s);
    }
  }

  lemma AnnouncersGrow(s: State, a: Action)
    requires MakersInv(s) && Enabled(s, a)
    ensures |Announcers(Do(s, a))| == |Announcers(s)| + if a.Announce? && a.ok then 1 else 0
  {
    var t := Do(s, a);
    if a.Announce? && a.ok {
      assert LocalOk(s, s.threads[a.t]);
      assert Announcers(t) == Announcers(s) + {a.t} && a.t !in Announcers(s);
    } else {
      assert Announcers(t) == Announcers(s);
    }
  }

  lemma PresentStep(s: State, a: Action)
    requires PresentInv(s) && Enabled(s, a) && !LoadFails(a)
    ensures PresentInv(Do(s, a)) && (s.bl.Some? ==> Do(s, a).bl.Some?)
  {
  }

  lemma {:induction false} MakersAlways(acts: seq<Action>)
    requires Run(Init, acts).Some?
    ensures MakersInv(Run(Init, acts).value)
    decreases |acts|
  {
    if acts == [] {
      assert Makers(Init) == {} && Announcers(Init) == {};
    } else {
      MakersAlways(acts[..|acts| - 1]);
      MakersStep(Run(Init, acts[..|acts| - 1]).value, acts[|acts| - 1]);
    }
  }

  lemma {:induction false} PresentAlways(s: State, acts: seq<Action>)
    requires PresentInv(s) && Run(s, acts).Some? && NoLoadFails(acts)
    ensures PresentInv(Run(s, acts).value) && (s.bl.Some? ==> Run(s, acts).value.bl.Some?)
    decreases |acts|
  {
    if acts != [] {
      var front, a := acts[..|acts| - 1], acts[|acts| - 1];
      assert acts == front + [a];
      assert a in acts;
      PresentAlways(s, front);
      PresentStep(Run(s, front).value, a);
    }
  }

  // ----- Main results

  /** Nobody's instance is without its notice: none is being written, none was lost. */
  predicate AllAnnounced(s: State) {
    forall t <- s.threads :: s.threads[t].made.Some? ==> s.threads[t].announced
  }

  /** Without a failed load, only the notice of an instance still in its maker's hands can be missing. */
  lemma {:induction false} OnlyPendingNotices(acts: seq<Action>)
    requires Run(Init, acts).Some? && NoLoadFails(acts)
    ensures var s := Run(Init, acts).value;
            forall t <- s.threads :: s.threads[t].made.Some? && !s.threads[t].announced ==> s.threads[t].at.Announcing?
    decreases |acts|
  {
    if acts != [] {
      var front, a := acts[..|acts| - 1], acts[|acts| - 1];
      assert acts == front + [a];
      assert a in acts;
      OnlyPendingNotices(front);
    }
  }

  /** In any run there are at most as many notices as instances, and at most as many instances as
      goroutines whose first test read nil; the numbers of notices and instances agree exactly when
      every instance has been announced, which is so when no load fails and none is under way; and
      the logic the channel shows has always been announced. */
  lemma NoticesAndInstances(acts: seq<Action>)
    requires Run(Init, acts).Some?
    ensures var s := Run(Init, acts).value;
            && s.notices <= s.instances <= |NilReaders(s)|
            && (s.notices == s.instances <==> AllAnnounced(s))
            && (NoLoadFails(acts) && (forall t <- s.threads :: !s.threads[t].at.Announcing?) ==> AllAnnounced(s))
            && (s.bl.Some? ==> Announced(s, s.bl.value))
  {
    MakersAlways(acts);
    var s := Run(Init, acts).value;
    forall t | t in s.threads ensures LocalOk(s, s.threads[t]) {}
    if NoLoadFails(acts) {
      OnlyPendingNotices(acts);
    }
    SubsetSize(Makers(s), NilReaders(s));
    SubsetSize(Announcers(s), Makers(s));
    assert forall t <- s.threads ::
           (t in Announcers(s) <==> s.threads[t].announced) && (t in Makers(s) <==> s.threads[t].made.Some?);
  }

  lemma SubsetSize(a: set<Thread>, b: set<Thread>)
    requires a <= b
    ensures |a| <= |b| && (|a| == |b| <==> a == b)
  {
    assert b == a + (b - a);
  }

  /** A run in which no load fails, continued by another: the logic, once there, never goes away. */
  lemma LogicNeverGoesAway(acts: seq<Action>, more: seq<Action>)
    requires Run(Init, acts).Some? && Run(Run(Init, acts).value, more).Some?
    requires NoLoadFails(acts) && NoLoadFails(more)
    ensures Run(Init, acts).value.bl.Some? ==> Run(Run(Init, acts).value, more).value.bl.Some?
    ensures !Run(Run(Init, acts).value, more).value.crashed
  {
    PresentAlways(Init, acts);
    PresentAlways(Run(Init, acts).value, more);
  }

  predicate PassedCheck(acts: seq<Action>, t: Thread) { CheckExistence(t, Exists) in acts }

  function UsesBy(acts: seq<Action>, t: Thread): nat {
    if acts == [] then 0 else UsesBy(acts[..|acts| - 1], t) + if acts[|acts| - 1] == Use(t) then 1 else 0
  }

  predicate IsPastCheck(p: Point) {
    p.Creating? || p.Announcing? || p.Loaded? || p.Testing? || p.Using?
    || (p.Finished? && !p.verdict.CheckFailed? && !p.verdict.NotRegistered?)
  }

  /** How a goroutine's history shows in its position. */
  lemma {:induction false} History(acts: seq<Action>, t: Thread)
    requires Run(Init, acts).Some? && !Run(Init, acts).value.crashed
    ensures var s := Run(Init, acts).value;
            && UsesBy(acts, t) == (if WasProcessed(s, t) then 1 else 0)
            && (PassedCheck(acts, t) ==> t in s.threads && IsPastCheck(s.threads[t].at))
    decreases |acts|
  {
    if acts != [] {
      var front, a := acts[..|acts| - 1], acts[|acts| - 1];
      assert acts == front + [a];
      History(front, t);
      HistoryStep(Run(Init, front).value, a, t);
    }
  }

  predicate WasProcessed(s: State, t: Thread) {
    t in s.threads && s.threads[t].at.Finished? && s.threads[t].at.verdict.Processed?
  }

  lemma HistoryStep(s: State, a: Action, t: Thread)
    requires Enabled(s, a) && !Do(s, a).crashed
    ensures a == Use(t) ==> !WasProcessed(s, t) && WasProcessed(Do(s, a), t)
    ensures a != Use(t) ==> WasProcessed(Do(s, a), t) == WasProcessed(s, t)
    ensures t in s.threads && IsPastCheck(s.threads[t].at)
            ==> t in Do(s, a).threads && IsPastCheck(Do(s, a).threads[t].at)
    ensures a == CheckExistence(t, Exists) ==> t in Do(s, a).threads && IsPastCheck(Do(s, a).threads[t].at)
  {
  }

  predicate Rejected(v: Verdict) { v.CheckFailed? || v.NotRegistered? }

  /** When no load fails, every message whose goroutine has finished without being rejected - in
      particular every one that passed the existence check - was processed, exactly once, by an
      instance that had been announced. */
  lemma ProcessedExactlyOnce(acts: seq<Action>, t: Thread)
    requires Run(Init, acts).Some? && NoLoadFails(acts)
    requires var s := Run(Init, acts).value; t in s.threads && s.threads[t].at.Finished?
    ensures var s, v := Run(Init, acts).value, Run(Init, acts).value.threads[t].at.verdict;
            && (PassedCheck(acts, t) ==> !Rejected(v))
            && (!Rejected(v) ==> v.Processed? && Announced(s, v.instance))
            && UsesBy(acts, t) == if Rejected(v) then 0 else 1
  {
    PresentAlways(Init, acts);
    MakersAlways(acts);
    History(acts, t);
    var s := Run(Init, acts).value;
    assert LocalOk(s, s.threads[t]);
  }

  // ----- When a call goes through nil

  predicate Crashes(s: State, acts: seq<Action>) {
    Run(s, acts).Some? && Run(s, acts).value.crashed
  }

  lemma {:induction false} RunAfter(s: State, a: Action, acts: seq<Action>)
    requires Enabled(s, a)
    ensures Run(s, [a] + acts) == Run(Do(s, a), acts)
    decreases |acts|
  {
    if acts == [] {
      assert ([a] + acts)[..0] == [];
      assert Run(s, ([a] + acts)[..0]) == Some(s);
    } else {
      RunAfter(s, a, acts[..|acts| - 1]);
      assert ([a] + acts)[..|acts|] == [a] + acts[..|acts| - 1];
    }
  }

  /** A goroutine that can still store nil in `c.bl`: its load has failed, or can still fail. */
  predicate MayStoreNil(p: Point) {
    p.Checking? || p.Creating? || p.Announcing? || p == Loaded(None)
  }

  ghost predicate SomeMayStoreNil(s: State) {
    exists t <- s.threads :: MayStoreNil(s.threads[t].at)
  }

  /** The next step of a goroutine on its way to assigning `c.bl`, with the outcome of its load. */
  function LoadStep(p: Point, t: Thread, ok: bool): Action {
    match p
    case Checking => CheckExistence(t, Exists)
    case Creating => LoadRows(t, ok)
    case Announcing(_) => Announce(t, ok)
    case _ => Assign(t)
  }

  function StepsToAssign(p: Point): nat {
    match p
    case Checking => 3
    case Creating => 2
    case Announcing(_) => 1
    case _ => 0
  }

  /** While one goroutine is about to call the logic, another whose load fails stores nil over it,
      and the call panics. */
  lemma FailedLoadUnderAnotherCall(s: State, user: Thread, loader: Thread) returns (acts: seq<Action>)
    requires !s.crashed && At(s, user, Using) && loader in s.threads && MayStoreNil(s.threads[loader].at)
    ensures Crashes(s, acts)
    decreases StepsToAssign(s.threads[loader].at)
  {
    var a := LoadStep(s.threads[loader].at, loader, false);
    var t := Do(s, a);
    if a.Assign? {
      acts := [Use(user)];
      RunAfter(t, Use(user), []);
      assert [Use(user)] + [] == [Use(user)];
    } else {
      acts := FailedLoadUnderAnotherCall(t, user, loader);
    }
    RunAfter(s, a, acts);
    acts := [a] + acts;
  }

  lemma Unused(used: set<Thread>) returns (t: Thread)
    ensures t !in used
  {
    if used == {} {
      t := 0;
    } else {
      var m := Largest(used);
      t := m + 1;
    }
  }

  lemma Largest(used: set<Thread>) returns (m: Thread)
    requires used != {}
    ensures m in used && forall u <- used :: u <= m
    decreases |used|
  {
    var u :| u in used;
    if used == {u} {
      m := u;
    } else {
      assert used == (used - {u}) + {u};
      var v := Largest(used - {u});
      m := if u <= v then v else u;
    }
  }

  /** With the logic set, a new message gets as far as its call; then the other goroutine's load fails. */
  lemma CrashFromLoader(s: State, loader: Thread) returns (acts: seq<Action>)
    requires !s.crashed && s.bl.Some? && loader in s.threads && MayStoreNil(s.threads[loader].at)
    ensures Crashes(s, acts)
  {
    var u := Unused(s.threads.Keys);
    var s1 := Do(s, Arrive(u));
    var s2 := Do(s1, FirstTest(u));
    acts := FailedLoadUnderAnotherCall(Do(s2, SecondTest(u)), u, loader);
    RunAfter(s2, SecondTest(u), acts);
    RunAfter(s1, FirstTest(u), [SecondTest(u)] + acts);
    RunAfter(s, Arrive(u), [FirstTest(u)] + ([SecondTest(u)] + acts));
    acts := [Arrive(u)] + ([FirstTest(u)] + ([SecondTest(u)] + acts));
  }

  /** A goroutine sets the logic while another one has read nil already. */
  lemma CrashBehindLoad(s: State, other: Thread, maker: Thread) returns (acts: seq<Action>)
    requires !s.crashed && maker != other && At(s, other, Checking) && maker in s.threads
    requires MayStoreNil(s.threads[maker].at) || s.threads[maker].at.Loaded?
    requires s.threads[maker].at != Loaded(None)
    ensures Crashes(s, acts)
    decreases StepsToAssign(s.threads[maker].at)
  {
    var a := LoadStep(s.threads[maker].at, maker, true);
    if a.Assign? {
      acts := CrashFromLoader(Do(s, a), other);
    } else {
      acts := CrashBehindLoad(Do(s, a), other, maker);
    }
    RunAfter(s, a, acts);
    acts := [a] + acts;
  }

  /** With no logic yet, two new messages both read nil. */
  lemma CrashFromNil(s: State) returns (acts: seq<Action>)
    requires !s.crashed && s.bl.None?
    ensures Crashes(s, acts)
  {
    var u := Unused(s.threads.Keys);
    var s1 := Do(s, Arrive(u));
    var s2 := Do(s1, FirstTest(u));
    var v := Unused(s2.threads.Keys);
    var s3 := Do(s2, Arrive(v));
    acts := CrashBehindLoad(Do(s3, FirstTest(v)), u, v);
    RunAfter(s3, FirstTest(v), acts);
    RunAfter(s2, Arrive(v), [FirstTest(v)] + acts);
    acts := [Arrive(v)] + ([FirstTest(v)] + acts);
    RunAfter(s1, FirstTest(u), acts);
    RunAfter(s, Arrive(u), [FirstTest(u)] + acts);
    acts := [Arrive(u)] + ([FirstTest(u)] + acts);
  }

  lemma {:induction false} SafeForEver(s: State, acts: seq<Action>)
    requires !s.crashed && s.bl.Some? && !SomeMayStoreNil(s) && Run(s, acts).Some?
    ensures var t := Run(s, acts).value; !t.crashed && t.bl.Some? && !SomeMayStoreNil(t)
    decreases |acts|
  {
    if acts != [] {
      SafeForEver(s, acts[..|acts| - 1]);
      SafeStep(Run(s, acts[..|acts| - 1]).value, acts[|acts| - 1]);
    }
  }

  lemma SafeStep(s: State, a: Action)
    requires s.bl.Some? && !SomeMayStoreNil(s) && Enabled(s, a)
    ensures var t := Do(s, a); !t.crashed && t.bl.Some? && !SomeMayStoreNil(t)
  {
    var t := Do(s, a);
    forall u | u in t.threads ensures !MayStoreNil(t.threads[u].at) {
      assert u in s.threads ==> !MayStoreNil(s.threads[u].at);
    }
  }

  /** A call through nil can still happen exactly when the logic is not set, or some goroutine that
      read nil has not finished loading successfully. */
  lemma CrashReachableIff(s: State)
    requires !s.crashed
    ensures (exists acts :: Crashes(s, acts)) <==> s.bl.None? || SomeMayStoreNil(s)
  {
    if s.bl.None? {
      var acts := CrashFromNil(s);
    } else if SomeMayStoreNil(s) {
      var t :| t in s.threads && MayStoreNil(s.threads[t].at);
      var acts := CrashFromLoader(s, t);
    } else {
      forall acts | Run(s, acts).Some? ensures !Crashes(s, acts) {
        SafeForEver(s, acts);
      }
    }
  }

  // ----- One message at a time

  predicate AllFinished(s: State) { forall t <- s.threads :: s.threads[t].at.Finished? }

  /** A goroutine starts only when all earlier ones have finished. */
  predicate OneAtATime(acts: seq<Action>)
    requires Run(Init, acts).Some?
  {
    acts == [] || (OneAtATime(acts[..|acts| - 1])
                   && (acts[|acts| - 1].Arrive? ==> AllFinished(Run(Init, acts[..|acts| - 1]).value)))
  }

  /** No two goroutines are under way. */
  ghost predicate Alone(s: State) {
    forall t <- s.threads, u <- s.threads :: !s.threads[t].at.Finished? && !s.threads[u].at.Finished? ==> t == u
  }

  /** Where a goroutine is, given how many instances there are and whether the logic is set. */
  predicate SerialPoint(s: State, p: Point) {
    match p
    case Checking => s.instances == 0
    case Creating => s.instances == 0
    case Announcing(_) => s.instances == 1 && s.bl.None?
    case Loaded(_) => s.instances == 1 && s.bl.None?
    case Finished(Processed(_)) => s.instances == 1
    case _ => s.instances == 0 || s.bl.Some? || p.Finished?
  }

  ghost predicate SerialInv(s: State) {
    && Alone(s) && s.instances <= 1 && (s.bl.Some? ==> s.instances == 1)
    && (forall t <- s.threads :: SerialPoint(s, s.threads[t].at))
    && (AllFinished(s) && s.instances == 1 ==> s.bl.Some?)
  }

  lemma SerialStep(s: State, a: Action)
    requires SerialInv(s) && PresentInv(s) && Enabled(s, a) && !LoadFails(a)
    requires a.Arrive? ==> AllFinished(s)
    ensures SerialInv(Do(s, a))
  {
    var t := Do(s, a);
    assert Alone(t);
    assert a.t in s.threads ==> SerialPoint(s, s.threads[a.t].at);
    forall u | u in t.threads ensures SerialPoint(t, t.threads[u].at) {
      assert u in s.threads ==> SerialPoint(s, s.threads[u].at);
    }
    assert AllFinished(t) ==> t.threads[a.t].at.Finished?;
  }

  lemma {:induction false} SerialAlways(acts: seq<Action>)
    requires Run(Init, acts).Some? && OneAtATime(acts) && NoLoadFails(acts)
    ensures SerialInv(Run(Init, acts).value)
    decreases |acts|
  {
    if acts != [] {
      var front, a := acts[..|acts| - 1], acts[|acts| - 1];
      assert acts == front + [a];
      assert a in acts;
      SerialAlways(front);
      PresentAlways(Init, front);
      SerialStep(Run(Init, front).value, a);
    }
  }

  /** Handled one at a time and without failed loads, any number of messages create exactly one
      instance as soon as one of them is processed. */
  lemma OneInstanceIfSerial(acts: seq<Action>)
    requires Run(Init, acts).Some? && OneAtATime(acts) && NoLoadFails(acts)
    ensures var s := Run(Init, acts).value;
            && s.instances <= 1
            && (AllFinished(s) ==> (s.instances == 1 <==> s.bl == Some(0)))
            && (forall t <- s.threads :: s.threads[t].at.Finished? && s.threads[t].at.verdict.Processed?
                  ==> s.instances == 1 && s.threads[t].at.verdict.instance == 0)
  {
    SerialAlways(acts);
    MakersAlways(acts);
    var s := Run(Init, acts).value;
    forall t | t in s.threads && s.threads[t].at.Finished? && s.threads[t].at.verdict.Processed?
      ensures s.instances == 1 && s.threads[t].at.verdict.instance == 0
    {
      assert LocalOk(s, s.threads[t]);
      assert SerialPoint(s, s.threads[t].at);
    }
  }

  // ----- The code itself, undisturbed

  predicate OnlyBy(acts: seq<Action>, t: Thread) { forall a <- acts :: a.t == t }

  lemma RunMore(s: State, acts: seq<Action>, g: State, a: Action) returns (acts': seq<Action>, g': State)
    requires Run(s, acts) == Some(g) && Enabled(g, a)
    ensures g' == Do(g, a) && Run(s, acts') == Some(g')
    ensures OnlyBy(acts, a.t) ==> OnlyBy(acts', a.t)
  {
    acts', g' := acts + [a], Do(g, a);
  }

  /** A goroutine's load and assignment with nobody in between. */
  lemma LoadAlone(s: State, acts: seq<Action>, g: State, t: Thread, rowsOk: bool, noticeOk: bool)
    returns (acts': seq<Action>, g': State)
    requires Run(s, acts) == Some(g) && !g.crashed && At(g, t, Creating) && OnlyBy(acts, t)
    ensures Run(s, acts') == Some(g') && OnlyBy(acts', t) && !g'.crashed && At(g', t, Testing)
    ensures g'.bl == (if rowsOk && noticeOk then Some(g.instances) else None)
    ensures g'.instances == g.instances + if rowsOk then 1 else 0
    ensures g'.notices == g.notices + if rowsOk && noticeOk then 1 else 0
  {
    acts', g' := RunMore(s, acts, g, LoadRows(t, rowsOk));
    if rowsOk {
      acts', g' := RunMore(s, acts', g', Announce(t, noticeOk));
    }
    acts', g' := RunMore(s, acts', g', Assign(t));
  }

  /** The part of a gateway channel that `ApplyLogic` works on. */
  class LogicHolder {
    var bl: Option<Instance>
    var instances: nat
    var notices: nat

    ghost predicate Shows(s: State)
      reads this
    {
      s.bl == bl && s.instances == instances && s.notices == notices && !s.crashed
    }

    constructor ()
      ensures Shows(Init)
    {
      bl, instances, notices := None, 0, 0;
    }

    /** `LoadParams` on a new logic object: an instance, its notice, and the pointer if both succeed. */
    method CreateLogic(rowsOk: bool, noticeOk: bool) returns (logic: Option<Instance>)
      modifies `instances, `notices
      ensures logic == if rowsOk && noticeOk then Some(old(instances)) else None
      ensures instances == old(instances) + if rowsOk then 1 else 0
      ensures notices == old(notices) + if rowsOk && noticeOk then 1 else 0
    {
      if !rowsOk {
        return None;
      }
      logic := Some(instances);
      instances := instances + 1;
      if !noticeOk {
        return None;
      }
      notices := notices + 1;
    }

    /** `ApplyLogic` with no other goroutine in between: what it leaves behind in each case, and that it is
        a run of the machine by thread `t` alone. */
    method ApplyLogic(ghost s: State, ghost t: Thread, answer: Existence, rowsOk: bool, noticeOk: bool)
      returns (verdict: Verdict, ghost acts: seq<Action>)
      requires Shows(s) && t !in s.threads
      modifies this
      ensures old(bl).Some? ==>
                verdict == Processed(old(bl).value) && bl == old(bl)
                && instances == old(instances) && notices == old(notices)
      ensures old(bl).None? && answer != Exists ==>
                verdict == (if answer == Missing then NotRegistered else CheckFailed) && bl.None?
                && instances == old(instances) && notices == old(notices)
      ensures old(bl).None? && answer == Exists && rowsOk && noticeOk ==>
                verdict == Processed(old(instances)) && bl == Some(old(instances))
                && instances == old(instances) + 1 && notices == old(notices) + 1
      ensures old(bl).None? && answer == Exists && !(rowsOk && noticeOk) ==>
                verdict == NoLogic && bl.None?
                && instances == old(instances) + (if rowsOk then 1 else 0) && notices == old(notices)
      ensures OnlyBy(acts, t)
      ensures Run(s, acts).Some? && Shows(Run(s, acts).value)
      ensures At(Run(s, acts).value, t, Finished(verdict))
    {
      ghost var g := s;
      acts := [];
      acts, g := RunMore(s, acts, g, Arrive(t));
      acts, g := RunMore(s, acts, g, FirstTest(t));
      if bl.None? {
        acts, g := RunMore(s, acts, g, CheckExistence(t, answer));
        match answer {
          case QueryError => return CheckFailed, acts;
          case Missing => return NotRegistered, acts;
          case Exists =>
        }
        acts, g := LoadAlone(s, acts, g, t, rowsOk, noticeOk);
        bl := CreateLogic(rowsOk, noticeOk);
      }
      acts, g := RunMore(s, acts, g, SecondTest(t));
      if bl.None? {
        return NoLogic, acts;
      }
      acts, g := RunMore(s, acts, g, Use(t));
      return Processed(bl.value), acts;
    }
  }
}
