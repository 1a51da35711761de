/**
 Status and camera tasks whose statements mix: how long an "off" task keeps its
 cameras off air, and for which task lists every interleaving ends consistent.
 */
module StatusOverlap {
  import opened Wrappers
  import opened StatusTables
  import Logic = DeviceLogic

  // ----- Traces

  lemma {:induction false} TraceLength(programs: seq<seq<Statement>>, t: Tables, schedule: seq<nat>)
    requires Run(programs, t, schedule).Some?
    ensures |Trace(programs, t, schedule)| == |schedule|
    decreases |schedule|
  {
    if schedule != [] {
      TraceLength(programs, t, schedule[..|schedule| - 1]);
    }
  }

  /** A prefix of a schedule is a schedule, and executes a prefix of the statements. */
  lemma {:induction false} TracePrefix(programs: seq<seq<Statement>>, t: Tables, first: seq<nat>, more: seq<nat>)
    requires Run(programs, t, first + more).Some?
    ensures Run(programs, t, first).Some?
    ensures Trace(programs, t, first) <= Trace(programs, t, first + more)
    decreases |more|
  {
    if more == [] {
      assert first + more == first;
    } else {
      assert (first + more)[..|first + more| - 1] == first + more[..|more| - 1];
      TracePrefix(programs, t, first, more[..|more| - 1]);
    }
  }

  lemma {:induction false} ExecAllConcat(t: Tables, xs: seq<Statement>, ys: seq<Statement>)
    ensures ExecAll(t, xs + ys) == ExecAll(ExecAll(t, xs), ys)
    decreases |ys|
  {
    if ys == [] {
      assert xs + ys == xs;
    } else {
      assert (xs + ys)[..|xs + ys| - 1] == xs + ys[..|ys| - 1];
      ExecAllConcat(t, xs, ys[..|ys| - 1]);
    }
  }

  ghost predicate InSome(programs: seq<seq<Statement>>, s: Statement) {
    exists i | 0 <= i < |programs| :: s in programs[i]
  }

  /** Every executed statement is one of the programs'. */
  lemma {:induction false} TraceFromPrograms(programs: seq<seq<Statement>>, t: Tables, schedule: seq<nat>)
    requires Run(programs, t, schedule).Some?
    ensures forall k | 0 <= k < |Trace(programs, t, schedule)| :: InSome(programs, Trace(programs, t, schedule)[k])
    decreases |schedule|
  {
    if schedule != [] {
      var front, i := schedule[..|schedule| - 1], schedule[|schedule| - 1];
      TraceFromPrograms(programs, t, front);
      var s := programs[i][Run(programs, t, front).value.done[i]];
      assert s in programs[i];
      assert Trace(programs, t, schedule) == Trace(programs, t, front) + [s];
    }
  }

  /** The statements executed by the second part of a schedule. */
  function Since(programs: seq<seq<Statement>>, t: Tables, first: seq<nat>, more: seq<nat>): (r: seq<Statement>)
    requires Run(programs, t, first + more).Some?
    ensures |r| == |more|
  {
    TraceLength(programs, t, first + more);
    Trace(programs, t, first + more)[|first|..]
  }

  /** They lead from the tables after the first part to those at the end. */
  lemma SinceLeads(programs: seq<seq<Statement>>, t: Tables, first: seq<nat>, more: seq<nat>)
    requires Run(programs, t, first).Some? && Run(programs, t, first + more).Some?
    ensures Run(programs, t, first + more).value.tables
            == ExecAll(Run(programs, t, first).value.tables, Since(programs, t, first, more))
    ensures SameRows(t, Run(programs, t, first).value.tables)
  {
    var before := Trace(programs, t, first);
    TraceLength(programs, t, first);
    TracePrefix(programs, t, first, more);
    InterleavingIsATrace(programs, t, first);
    InterleavingIsATrace(programs, t, first + more);
    assert Trace(programs, t, first + more) == before + Since(programs, t, first, more);
    ExecAllConcat(t, before, Since(programs, t, first, more));
    RowsStay(t, before);
  }

  lemma SinceFromPrograms(programs: seq<seq<Statement>>, t: Tables, first: seq<nat>, more: seq<nat>)
    requires Run(programs, t, first + more).Some?
    ensures forall k | 0 <= k < |more| :: InSome(programs, Since(programs, t, first, more)[k])
  {
    TraceLength(programs, t, first + more);
    TraceFromPrograms(programs, t, first + more);
    forall k | 0 <= k < |more| ensures InSome(programs, Since(programs, t, first, more)[k]) {
      assert Since(programs, t, first, more)[k] == Trace(programs, t, first + more)[|first| + k];
    }
  }

  // ----- How long an "off" task lasts

  ghost predicate IsStatusProgram(ss: seq<Statement>) {
    exists m :: ss == StatusProgram(m)
  }

  ghost predicate IsCameraProgram(ss: seq<Statement>) {
    exists task: Logic.Task, r :: task.UpdateCameraState? && ss == CameraProgram(task, r)
  }

  ghost predicate OnlyTasks(programs: seq<seq<Statement>>) {
    forall i | 0 <= i < |programs| :: IsStatusProgram(programs[i]) || IsCameraProgram(programs[i])
  }

  ghost predicate OnlyStatusTasks(programs: seq<seq<Statement>>) {
    forall i | 0 <= i < |programs| :: IsStatusProgram(programs[i])
  }

  /** What a task can do to a camera's on-air column: status tasks only clear it. */
  lemma TasksOnlyClear(programs: seq<seq<Statement>>, i: nat, s: Statement)
    requires OnlyTasks(programs) && i < |programs| && s in programs[i]
    ensures s.SetOnAir? ==> s.value == 0
    ensures s.SetCamera? ==> !IsStatusProgram(programs[i])
  {
  }

  /** The last step of `schedule` is the last statement of task `i`. */
  predicate JustCompleted(programs: seq<seq<Statement>>, t: Tables, schedule: seq<nat>, i: nat)
    requires Run(programs, t, schedule).Some?
  {
    && schedule != [] && schedule[|schedule| - 1] == i && i < |programs|
    && |Run(programs, t, schedule).value.done| == |programs|
    && Run(programs, t, schedule).value.done[i] == |programs[i]|
  }

  lemma OffStep(programs: seq<seq<Statement>>, t: Tables, schedule: seq<nat>, i: nat, m: StatusMessage)
    requires Run(programs, t, schedule).Some? && JustCompleted(programs, t, schedule, i)
    requires programs[i] == StatusProgram(m) && m.status == "off"
    ensures var u := Run(programs, t, schedule).value.tables;
            forall c <- u.cameras :: u.cameras[c].gateway == m.gateway ==> u.cameras[c].onAir == 0
  {
  }

  /** Among `ss`, the last statement that writes whether camera `c` is on air is a camera task's, and says yes. */
  ghost predicate TurnedOn(t: Tables, ss: seq<Statement>, c: string)
    requires c in t.cameras
  {
    exists k: nat :: LastWrite(t, ss, OnAir(c), k) && ss[k].SetCamera? && ss[k].value != 0
  }

  /** A task's write of a camera's on-air column is "on air" only if it is a camera task's. */
  lemma TaskWrite(programs: seq<seq<Statement>>, u: Tables, s: Statement, c: string)
    requires OnlyTasks(programs) && InSome(programs, s)
    requires c in u.cameras && Written(u, s, OnAir(c)).Some?
    ensures Written(u, s, OnAir(c)).value.Number?
    ensures Written(u, s, OnAir(c)).value.number != 0 <==> s.SetCamera? && s.value != 0
    ensures s.SetCamera? ==> !OnlyStatusTasks(programs)
  {
    var i :| 0 <= i < |programs| && s in programs[i];
    TasksOnlyClear(programs, i, s);
  }

  /** From a state in which a camera is off air, statements of tasks. */
  lemma OnAirAfter(programs: seq<seq<Statement>>, u: Tables, ss: seq<Statement>, c: string)
    requires OnlyTasks(programs) && forall k | 0 <= k < |ss| :: InSome(programs, ss[k])
    requires c in u.cameras && u.cameras[c].onAir == 0
    ensures c in ExecAll(u, ss).cameras
    ensures ExecAll(u, ss).cameras[c].onAir != 0 <==> TurnedOn(u, ss, c)
    ensures TurnedOn(u, ss, c) ==> !OnlyStatusTasks(programs)
  {
    ColumnsHoldLastWrite(u, ss, OnAir(c));
    if k: nat :| LastWrite(u, ss, OnAir(c), k) {
      TaskWrite(programs, u, ss[k], c);
      assert forall j: nat | LastWrite(u, ss, OnAir(c), j) :: j == k;
    }
  }

  /** An "off" task has just completed.  However status and camera tasks go on from there, each camera
      of its gateway is on air afterwards exactly if the last statement since then that wrote its
      column was a camera task switching it on; status tasks alone never do. */
  lemma OffTaskClearsCameras(programs: seq<seq<Statement>>, t: Tables, first: seq<nat>, more: seq<nat>,
                             i: nat, m: StatusMessage, c: string)
    requires OnlyTasks(programs)
    requires Run(programs, t, first).Some? && Run(programs, t, first + more).Some?
    requires JustCompleted(programs, t, first, i) && programs[i] == StatusProgram(m) && m.status == "off"
    requires c in t.cameras && t.cameras[c].gateway == m.gateway
    ensures var u, v := Run(programs, t, first).value.tables, Run(programs, t, first + more).value.tables;
            && c in u.cameras && c in v.cameras
            && (v.cameras[c].onAir != 0 <==> TurnedOn(u, Since(programs, t, first, more), c))
            && (OnlyStatusTasks(programs) ==> v.cameras[c].onAir == 0)
  {
    SinceLeads(programs, t, first, more);
    SinceFromPrograms(programs, t, first, more);
    OffStep(programs, t, first, i, m);
    OnAirAfter(programs, Run(programs, t, first).value.tables, Since(programs, t, first, more), c);
  }

  // ----- Which task lists end consistent in every interleaving

  /** A status message of gateway `g` whose task sends its statements. */
  predicate Valid(m: StatusMessage, g: string) {
    m.gateway == g && m.isUuid && (m.status == "on" || m.status == "off")
  }

  predicate SomeValid(ms: seq<StatusMessage>, g: string) {
    exists i | 0 <= i < |ms| :: Valid(ms[i], g)
  }

  predicate Agree(ms: seq<StatusMessage>, g: string) {
    forall i, j | 0 <= i < |ms| && 0 <= j < |ms| :: Valid(ms[i], g) && Valid(ms[j], g) ==> ms[i].status == ms[j].status
  }

  predicate AllDone(ms: seq<StatusMessage>, p: Progress) {
    |p.done| == |ms| && forall i | 0 <= i < |ms| :: p.done[i] == |StatusProgram(ms[i])|
  }

  /** `schedule` executes every statement of every task. */
  predicate Complete(ms: seq<StatusMessage>, t: Tables, schedule: seq<nat>) {
    Run(Programs(ms), t, schedule).Some? && AllDone(ms, Run(Programs(ms), t, schedule).value)
  }

  predicate DevicesAt(t: Tables, g: string, state: nat) {
    forall d <- t.devices :: t.devices[d].gateway == g ==> t.devices[d].state == state
  }

  /** Some task of the gateway has executed at least `n` statements. */
  ghost predicate SomeAt(ms: seq<StatusMessage>, p: Progress, g: string, n: nat)
    requires |p.done| == |ms|
  {
    exists i | 0 <= i < |ms| :: Valid(ms[i], g) && p.done[i] >= n
  }

  /** Once written, the gateway's status and its devices' state each come from some message of it. */
  ghost predicate FromMessages(ms: seq<StatusMessage>, p: Progress, g: string) {
    && |p.done| == |ms| && g in p.tables.gateways
    && (SomeAt(ms, p, g, 1) ==> exists k | 0 <= k < |ms| :: Valid(ms[k], g) && p.tables.gateways[g] == ms[k].status)
    && (SomeAt(ms, p, g, 2) ==>
          exists k | 0 <= k < |ms| :: Valid(ms[k], g) && DevicesAt(p.tables, g, StatusInt(ms[k].status)))
  }

  lemma SomeAtStep(ms: seq<StatusMessage>, p: Progress, g: string, n: nat, i: nat)
    requires |p.done| == |ms| && CanStep(Programs(ms), p, i) && SomeAt(ms, Step(Programs(ms), p, i), g, n)
    ensures SomeAt(ms, p, g, n) || (Valid(ms[i], g) && p.done[i] + 1 == n)
  {
    var q := Step(Programs(ms), p, i);
    var k :| 0 <= k < |ms| && Valid(ms[k], g) && q.done[k] >= n;
    assert k != i ==> p.done[k] >= n;
  }

  /** One statement, as the gateway sees it. */
  lemma StatementEffect(m: StatusMessage, t: Tables, g: string, n: nat)
    requires n < |StatusProgram(m)| && g in t.gateways
    ensures var u := Exec(t, StatusProgram(m)[n]);
            && g in u.gateways
            && u.gateways[g] == (if n == 0 && m.gateway == g then m.status else t.gateways[g])
            && (if n == 1 && m.gateway == g then DevicesAt(u, g, StatusInt(m.status))
                else forall v :: DevicesAt(t, g, v) <==> DevicesAt(u, g, v))
  {
    var u := Exec(t, StatusProgram(m)[n]);
    if n != 1 || m.gateway != g {
      forall d | d in t.devices && t.devices[d].gateway == g ensures u.devices[d] == t.devices[d] {}
    }
  }

  lemma FromMessagesStep(ms: seq<StatusMessage>, p: Progress, g: string, i: nat)
    requires FromMessages(ms, p, g) && CanStep(Programs(ms), p, i)
    ensures FromMessages(ms, Step(Programs(ms), p, i), g)
  {
    var q := Step(Programs(ms), p, i);
    StatementEffect(ms[i], p.tables, g, p.done[i]);
    if SomeAt(ms, q, g, 1) {
      SomeAtStep(ms, p, g, 1, i);
    }
    if SomeAt(ms, q, g, 2) {
      SomeAtStep(ms, p, g, 2, i);
    }
  }

  lemma {:induction false} FromMessagesAlways(ms: seq<StatusMessage>, t: Tables, g: string, schedule: seq<nat>)
    requires g in t.gateways && Run(Programs(ms), t, schedule).Some?
    ensures FromMessages(ms, Run(Programs(ms), t, schedule).value, g)
    decreases |schedule|
  {
    if schedule != [] {
      FromMessagesAlways(ms, t, g, schedule[..|schedule| - 1]);
      FromMessagesStep(ms, Run(Programs(ms), t, schedule[..|schedule| - 1]).value, g, schedule[|schedule| - 1]);
    }
  }

  /** If no message concerns the gateway, it keeps its status and its devices keep theirs. */
  lemma {:induction false} Untouched(ms: seq<StatusMessage>, t: Tables, g: string, schedule: seq<nat>)
    requires g in t.gateways && !SomeValid(ms, g) && Run(Programs(ms), t, schedule).Some?
    ensures Consistent(Run(Programs(ms), t, schedule).value.tables, g) <==> Consistent(t, g)
    decreases |schedule|
  {
    if schedule != [] {
      var front, i := schedule[..|schedule| - 1], schedule[|schedule| - 1];
      Untouched(ms, t, g, front);
      var p := Run(Programs(ms), t, front).value;
      ForeignStep(p.tables, g, StatusProgram(ms[i])[p.done[i]]);
    }
  }

  lemma CompleteIsConsistent(ms: seq<StatusMessage>, t: Tables, g: string, schedule: seq<nat>)
    requires g in t.gateways && SomeValid(ms, g) && (Agree(ms, g) || !HasDevice(t, g)) && Complete(ms, t, schedule)
    ensures Consistent(Run(Programs(ms), t, schedule).value.tables, g)
  {
    var p := Run(Programs(ms), t, schedule).value;
    FromMessagesAlways(ms, t, g, schedule);
    var i :| 0 <= i < |ms| && Valid(ms[i], g);
    assert p.done[i] >= 2;
    assert SomeAt(ms, p, g, 1) && SomeAt(ms, p, g, 2);
    if !HasDevice(t, g) {
      InterleavingIsATrace(Programs(ms), t, schedule);
      RowsStay(t, Trace(Programs(ms), t, schedule));
    }
  }

  // ----- Schedules

  lemma OneMore(ms: seq<StatusMessage>, t: Tables, schedule: seq<nat>, p: Progress, k: nat)
    returns (schedule': seq<nat>, q: Progress)
    requires Run(Programs(ms), t, schedule) == Some(p) && CanStep(Programs(ms), p, k)
    ensures Run(Programs(ms), t, schedule') == Some(q) && q == Step(Programs(ms), p, k)
  {
    schedule', q := schedule + [k], Step(Programs(ms), p, k);
    assert schedule'[..|schedule'| - 1] == schedule;
  }

  /** The rest of one task: what it still writes. */
  lemma Finish(ms: seq<StatusMessage>, t: Tables, g: string, schedule: seq<nat>, p: Progress, k: nat)
    returns (schedule': seq<nat>, q: Progress)
    requires Run(Programs(ms), t, schedule) == Some(p) && g in p.tables.gateways
    requires k < |ms| == |p.done| && p.done[k] <= |StatusProgram(ms[k])|
    ensures Run(Programs(ms), t, schedule') == Some(q) && q.done == p.done[k := |StatusProgram(ms[k])|]
    ensures g in q.tables.gateways
    ensures Valid(ms[k], g) ==>
              && q.tables.gateways[g] == (if p.done[k] == 0 then ms[k].status else p.tables.gateways[g])
              && (p.done[k] <= 1 ==> DevicesAt(q.tables, g, StatusInt(ms[k].status)))
              && (p.done[k] > 1 ==> forall v :: DevicesAt(p.tables, g, v) ==> DevicesAt(q.tables, g, v))
    decreases |StatusProgram(ms[k])| - p.done[k]
  {
    if p.done[k] == |StatusProgram(ms[k])| {
      schedule', q := schedule, p;
    } else {
      var r;
      schedule', r := OneMore(ms, t, schedule, p, k);
      StatementEffect(ms[k], p.tables, g, p.done[k]);
      schedule', q := Finish(ms, t, g, schedule', r, k);
    }
  }

  /** Exactly the tasks below `n` and not in `but` have run, each to its end. */
  predicate DoneBelow(ms: seq<StatusMessage>, p: Progress, n: nat, but: set<nat>) {
    && |p.done| == |ms|
    && forall k: nat | k < |ms| :: p.done[k] == if k < n && k !in but then |StatusProgram(ms[k])| else 0
  }

  lemma DoneOneMore(ms: seq<StatusMessage>, p: Progress, q: Progress, n: nat, but: set<nat>)
    requires DoneBelow(ms, p, n, but) && n < |ms|
    requires q.done == if n in but then p.done else p.done[n := |StatusProgram(ms[n])|]
    ensures DoneBelow(ms, q, n + 1, but)
  {
  }

  /** All tasks below `n` except those in `but`. */
  lemma FinishBelow(ms: seq<StatusMessage>, t: Tables, g: string, n: nat, but: set<nat>)
    returns (schedule: seq<nat>, p: Progress)
    requires g in t.gateways && n <= |ms|
    ensures Run(Programs(ms), t, schedule) == Some(p) && g in p.tables.gateways && DoneBelow(ms, p, n, but)
    decreases n
  {
    if n == 0 {
      schedule, p := [], Start(t, Programs(ms));
    } else {
      var q;
      schedule, q := FinishBelow(ms, t, g, n - 1, but);
      if n - 1 in but {
        p := q;
      } else {
        schedule, p := Finish(ms, t, g, schedule, q, n - 1);
      }
      DoneOneMore(ms, q, p, n - 1, but);
    }
  }

  lemma ThenAllDone(ms: seq<StatusMessage>, p: Progress, q: Progress, i: nat, j: nat)
    requires i < |ms| && j < |ms| && i != j && DoneBelow(ms, p, |ms|, {i, j})
    requires q.done == p.done[i := 1][j := |StatusProgram(ms[j])|][i := |StatusProgram(ms[i])|]
    ensures AllDone(ms, q)
  {
  }

  /** All other tasks first; then task `i` begins, task `j` runs, and task `i` goes on. */
  lemma OverlapTwo(ms: seq<StatusMessage>, t: Tables, g: string, i: nat, j: nat) returns (schedule: seq<nat>)
    requires g in t.gateways && i < |ms| && j < |ms| && i != j && Valid(ms[i], g) && Valid(ms[j], g)
    ensures Complete(ms, t, schedule)
    ensures var u := Run(Programs(ms), t, schedule).value.tables;
            g in u.gateways && u.gateways[g] == ms[j].status && DevicesAt(u, g, StatusInt(ms[i].status))
  {
    var p, p1, p2, q;
    schedule, p := FinishBelow(ms, t, g, |ms|, {i, j});
    StatementEffect(ms[i], p.tables, g, 0);
    schedule, p1 := OneMore(ms, t, schedule, p, i);
    assert p1.done == p.done[i := 1];
    schedule, p2 := Finish(ms, t, g, schedule, p1, j);
    assert p2.done[i] == 1;
    schedule, q := Finish(ms, t, g, schedule, p2, i);
    ThenAllDone(ms, p, q, i, j);
  }

  lemma DisagreementShows(ms: seq<StatusMessage>, t: Tables, g: string) returns (schedule: seq<nat>)
    requires g in t.gateways && !Agree(ms, g) && HasDevice(t, g)
    ensures Complete(ms, t, schedule) && !Consistent(Run(Programs(ms), t, schedule).value.tables, g)
  {
    var i, j :| 0 <= i < |ms| && 0 <= j < |ms| && Valid(ms[i], g) && Valid(ms[j], g) && ms[i].status != ms[j].status;
    schedule := OverlapTwo(ms, t, g, i, j);
    InterleavingIsATrace(Programs(ms), t, schedule);
    RowsStay(t, Trace(Programs(ms), t, schedule));
    var d :| d in t.devices && t.devices[d].gateway == g;
    assert Run(Programs(ms), t, schedule).value.tables.devices[d].state == StatusInt(ms[i].status);
  }

  /** A list of status tasks leaves gateway and devices consistent in every complete interleaving
      exactly if no two of the gateway's messages differ in status, or it has no device to differ from;
      where no message concerns the gateway, exactly if it was consistent before. */
  lemma ConsistentIffAgree(ms: seq<StatusMessage>, t: Tables, g: string)
    requires g in t.gateways
    ensures (forall schedule :: Complete(ms, t, schedule)
              ==> Consistent(Run(Programs(ms), t, schedule).value.tables, g))
            <==> if SomeValid(ms, g) then Agree(ms, g) || !HasDevice(t, g) else Consistent(t, g)
  {
    if SomeValid(ms, g) {
      if Agree(ms, g) || !HasDevice(t, g) {
        forall schedule | Complete(ms, t, schedule)
          ensures Consistent(Run(Programs(ms), t, schedule).value.tables, g)
        {
          CompleteIsConsistent(ms, t, g, schedule);
        }
      } else {
        var schedule := DisagreementShows(ms, t, g);
      }
    } else {
      forall schedule | Complete(ms, t, schedule)
        ensures Consistent(Run(Programs(ms), t, schedule).value.tables, g) <==> Consistent(t, g)
      {
        Untouched(ms, t, g, schedule);
      }
      var schedule, p := FinishBelow(ms, t, g, |ms|, {});
      assert Complete(ms, t, schedule);
    }
  }

  /** The smallest case: an "on" and an "off" update, both complete, can leave the gateway off and its
      devices on. */
  lemma OverlapBreaksStatus(t: Tables, g: string, d: string) returns (schedule: seq<nat>)
    requires g in t.gateways && d in t.devices && t.devices[d].gateway == g
    ensures var ms := [StatusMessage(g, true, "on"), StatusMessage(g, true, "off")];
            var r := Run(Programs(ms), t, schedule);
            && r.Some? && r.value.done == [|StatusProgram(ms[0])|, |StatusProgram(ms[1])|]
            && g in r.value.tables.gateways && r.value.tables.gateways[g] == "off"
            && d in r.value.tables.devices && r.value.tables.devices[d].state == 1
  {
    var ms := [StatusMessage(g, true, "on"), StatusMessage(g, true, "off")];
    schedule := OverlapTwo(ms, t, g, 0, 1);
    InterleavingIsATrace(Programs(ms), t, schedule);
    RowsStay(t, Trace(Programs(ms), t, schedule));
  }
}
