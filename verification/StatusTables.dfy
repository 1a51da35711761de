/**
 The status tasks as what they send to the database: single table updates, one after
 the other and without a transaction, so that the statements of different tasks mix.
 */
module StatusTables {
  import opened Wrappers
  import Logic = DeviceLogic

  // ----- Tables

  datatype Device = Device(gateway: string, state: nat)
  datatype Camera = Camera(gateway: string, onAir: nat, ip: string, serverIp: string, application: string)

  datatype Tables = Tables(
    gateways: map<string, string>,     // v3_gateways: status by gateway_id
    devices: map<string, Device>,      // v3_devices
    cameras: map<string, Camera>       // camers: by stream_id
  )

  datatype Server = Server(ip: string, serverIp: string, application: string)

  datatype Statement =
    | SetGateway(gateway: string, status: string)
    | SetDevices(gateway: string, state: nat)
    | SetOnAir(gateway: string, value: nat)
    | SetCamera(camera: string, value: nat, server: Option<Server>)

  function Exec(t: Tables, s: Statement): Tables {
    match s
    case SetGateway(g, status) =>
      if g in t.gateways then t.(gateways := t.gateways[g := status]) else t
    case SetDevices(g, state) =>
      t.(devices := map d | d in t.devices ::
                          if t.devices[d].gateway == g then t.devices[d].(state := state) else t.devices[d])
    case SetOnAir(g, v) =>
      t.(cameras := map c | c in t.cameras ::
                          if t.cameras[c].gateway == g then t.cameras[c].(onAir := v) else t.cameras[c])
    case SetCamera(c, v, server) =>
      if c !in t.cameras then t
      else
        var row := t.cameras[c].(onAir := v);
        t.(cameras := t.cameras[c := if server.None? then row
                                     else row.(ip := server.value.ip, serverIp := server.value.serverIp,
                                               application := server.value.application)])
  }

  function ExecAll(t: Tables, ss: seq<Statement>): Tables {
    if ss == [] then t else Exec(ExecAll(t, ss[..|ss| - 1]), ss[|ss| - 1])
  }

  // ----- Columns and their last writers

  datatype Column =
    | GatewayStatus(gateway: string)
    | DeviceState(device: string)
    | OnAir(camera: string)
    | ServerOf(camera: string)

  datatype Cell = Text(text: string) | Number(number: nat) | ServerCell(server: Server)

  predicate InTable(t: Tables, c: Column) {
    match c
    case GatewayStatus(g) => g in t.gateways
    case DeviceState(d) => d in t.devices
    case OnAir(x) => x in t.cameras
    case ServerOf(x) => x in t.cameras
  }

  function Read(t: Tables, c: Column): Cell
    requires InTable(t, c)
  {
    match c
    case GatewayStatus(g) => Text(t.gateways[g])
    case DeviceState(d) => Number(t.devices[d].state)
    case OnAir(x) => Number(t.cameras[x].onAir)
    case ServerOf(x) => ServerCell(Server(t.cameras[x].ip, t.cameras[x].serverIp, t.cameras[x].application))
  }

  /** What a statement writes to a column, if it writes to it; which gateway a row belongs to never changes. */
  function Written(t: Tables, s: Statement, c: Column): Option<Cell>
    requires InTable(t, c)
  {
    match (s, c)
    case (SetGateway(g, status), GatewayStatus(h)) => if g == h then Some(Text(status)) else None
    case (SetDevices(g, state), DeviceState(d)) => if t.devices[d].gateway == g then Some(Number(state)) else None
    case (SetOnAir(g, v), OnAir(x)) => if t.cameras[x].gateway == g then Some(Number(v)) else None
    case (SetCamera(y, v, _), OnAir(x)) => if x == y then Some(Number(v)) else None
    case (SetCamera(y, _, server), ServerOf(x)) =>
      if x == y && server.Some? then Some(ServerCell(server.value)) else None
    case _ => None
  }

  predicate LastWrite(t: Tables, ss: seq<Statement>, c: Column, k: nat)
    requires InTable(t, c)
  {
    && k < |ss| && Written(t, ss[k], c).Some?
    && forall j | k < j < |ss| :: Written(t, ss[j], c).None?
  }

  /** The same rows, each under the same gateway. */
  predicate SameRows(t: Tables, u: Tables) {
    && u.gateways.Keys == t.gateways.Keys && u.devices.Keys == t.devices.Keys && u.cameras.Keys == t.cameras.Keys
    && (forall d <- t.devices :: u.devices[d].gateway == t.devices[d].gateway)
    && (forall c <- t.cameras :: u.cameras[c].gateway == t.cameras[c].gateway)
  }

  lemma RowsStep(t: Tables, s: Statement)
    ensures SameRows(t, Exec(t, s))
  {
  }

  lemma {:induction false} RowsStay(t: Tables, ss: seq<Statement>)
    ensures SameRows(t, ExecAll(t, ss))
    decreases |ss|
  {
    if ss != [] {
      RowsStay(t, ss[..|ss| - 1]);
      RowsStep(ExecAll(t, ss[..|ss| - 1]), ss[|ss| - 1]);
    }
  }

  lemma ExecWrites(t: Tables, s: Statement, c: Column)
    requires InTable(t, c)
    ensures InTable(Exec(t, s), c)
    ensures Read(Exec(t, s), c) == if Written(t, s, c).Some? then Written(t, s, c).value else Read(t, c)
  {
  }

  /** After any sequence of statements, whichever tasks they come from, every column holds what its
      last writer wrote, or its first value if nobody wrote it. */
  lemma {:induction false} ColumnsHoldLastWrite(t: Tables, ss: seq<Statement>, c: Column)
    requires InTable(t, c)
    ensures InTable(ExecAll(t, ss), c)
    ensures forall k: nat :: LastWrite(t, ss, c, k) ==> Some(Read(ExecAll(t, ss), c)) == Written(t, ss[k], c)
    ensures (forall k: nat :: !LastWrite(t, ss, c, k)) ==> Read(ExecAll(t, ss), c) == Read(t, c)
    decreases |ss|
  {
    if ss != [] {
      var n := |ss| - 1;
      var front := ss[..n];
      ColumnsHoldLastWrite(t, front, c);
      RowsStay(t, front);
      ExecWrites(ExecAll(t, front), ss[n], c);
      assert Written(ExecAll(t, front), ss[n], c) == Written(t, ss[n], c);
      if Written(t, ss[n], c).Some? {
        assert LastWrite(t, ss, c, n);
      } else {
        forall k: nat ensures LastWrite(t, ss, c, k) <==> LastWrite(t, front, c, k) {
          LastWriteKept(t, ss, c, k);
        }
      }
    }
  }

  lemma LastWriteKept(t: Tables, ss: seq<Statement>, c: Column, k: nat)
    requires InTable(t, c) && ss != [] && Written(t, ss[|ss| - 1], c).None?
    ensures LastWrite(t, ss, c, k) <==> LastWrite(t, ss[..|ss| - 1], c, k)
  {
    var front := ss[..|ss| - 1];
    if LastWrite(t, front, c, k) {
      forall j | k < j < |ss| ensures Written(t, ss[j], c).None? {
        assert j < |front| ==> ss[j] == front[j];
      }
    }
    if LastWrite(t, ss, c, k) {
      forall j | k < j < |front| ensures Written(t, front[j], c).None? {
        assert ss[j] == front[j];
      }
    }
  }

  // ----- Tasks

  /** A status message as its handler sees it: whether its gateway id parses as a UUID is an input. */
  datatype StatusMessage = StatusMessage(gateway: string, isUuid: bool, status: string)

  function StatusInt(status: string): nat { if status == "on" then 1 else 0 }

  /** The statements of one gateway status task. */
  function StatusProgram(m: StatusMessage): seq<Statement> {
    if !m.isUuid || (m.status != "on" && m.status != "off") then []
    else
      [SetGateway(m.gateway, m.status), SetDevices(m.gateway, StatusInt(m.status))]
      + if StatusInt(m.status) == 0 then [SetOnAir(m.gateway, 0)] else []
  }

  predicate OccursAt(s: string, part: string, i: nat) {
    i + |part| <= |s| && s[i..i + |part|] == part
  }

  predicate Contains(s: string, part: string) { exists i: nat | i <= |s| :: OccursAt(s, part, i) }

  /** For each read of a field that the handler may be rewriting: whether it came after the rewrite. */
  datatype Reads = Reads(ip: bool, serverIp: bool, application: bool)

  /** The statement of one camera state task. */
  function CameraProgram(task: Logic.Task, r: Reads): seq<Statement>
    requires task.UpdateCameraState?
  {
    var m, n := task.before, task.after;
    if m.gatewayId == "" || m.deviceId == "" then []
    else
      var onAir := if m.deviceState == "on" || m.deviceState == "streamingOn" then 1 else 0;
      [SetCamera(m.deviceId, onAir,
                 if Contains(m.deviceState, "streaming")
                 then Some(Server(if r.ip then n.mediaserverIp else m.mediaserverIp,
                                  if r.serverIp then n.mediaserverIp else m.mediaserverIp,
                                  if r.application then n.applicationName else m.applicationName))
                 else None)]
  }

  lemma OnlyStateMessages(s: Logic.State, m: Logic.Message, task: Logic.Task)
    requires task in Logic.Process(s, m).tasks && task.UpdateCameraState?
    ensures task in Logic.CameraState(s, m).tasks
  {
  }

  /** The rewrite of the shared message can be seen in the database only for a streamingOff. */
  lemma OnlyStreamingOffRaces(s: Logic.State, m: Logic.Message, task: Logic.Task, q: Reads, r: Reads)
    requires task in Logic.Process(s, m).tasks && task.UpdateCameraState?
    ensures m.deviceState != "streamingOff" ==> CameraProgram(task, q) == CameraProgram(task, r)
    ensures m.deviceState == "streamingOff" ==>
              m.deviceId in s.cameras && task.before == m
              && task.after.mediaserverIp == s.cameras[m.deviceId].target.ip
              && task.after.applicationName == s.cameras[m.deviceId].target.application
  {
    OnlyStateMessages(s, m, task);
  }

  // ----- Any number of tasks, interleaved statement by statement

  /** The tables and, for every task, how many of its statements have been executed. */
  datatype Progress = Progress(tables: Tables, done: seq<nat>)

  function Start(t: Tables, programs: seq<seq<Statement>>): Progress {
    Progress(t, seq(|programs|, i => 0))
  }

  predicate CanStep(programs: seq<seq<Statement>>, p: Progress, i: nat) {
    i < |programs| && |p.done| == |programs| && p.done[i] < |programs[i]|
  }

  function Step(programs: seq<seq<Statement>>, p: Progress, i: nat): Progress
    requires CanStep(programs, p, i)
  {
    Progress(Exec(p.tables, programs[i][p.done[i]]), p.done[i := p.done[i] + 1])
  }

  /** A schedule names, step by step, which program executes its next statement. */
  function Run(programs: seq<seq<Statement>>, t: Tables, schedule: seq<nat>): Option<Progress> {
    if schedule == [] then Some(Start(t, programs))
    else
      match Run(programs, t, schedule[..|schedule| - 1])
      case None => None
      case Some(p) =>
        if CanStep(programs, p, schedule[|schedule| - 1]) then Some(Step(programs, p, schedule[|schedule| - 1]))
        else None
  }

  /** The statements in the order in which a schedule executes them. */
  function Trace(programs: seq<seq<Statement>>, t: Tables, schedule: seq<nat>): seq<Statement>
    requires Run(programs, t, schedule).Some?
  {
    if schedule == [] then []
    else
      var front, i := schedule[..|schedule| - 1], schedule[|schedule| - 1];
      Trace(programs, t, front) + [programs[i][Run(programs, t, front).value.done[i]]]
  }

  /** So what holds of statement sequences holds of every interleaving of tasks. */
  lemma {:induction false} InterleavingIsATrace(programs: seq<seq<Statement>>, t: Tables, schedule: seq<nat>)
    requires Run(programs, t, schedule).Some?
    ensures Run(programs, t, schedule).value.tables == ExecAll(t, Trace(programs, t, schedule))
    decreases |schedule|
  {
    if schedule != [] {
      InterleavingIsATrace(programs, t, schedule[..|schedule| - 1]);
      var front := Trace(programs, t, schedule[..|schedule| - 1]);
      assert Trace(programs, t, schedule)[..|front|] == front;
    }
  }

  // ----- Tasks on one gateway that do not overlap

  function Programs(ms: seq<StatusMessage>): seq<seq<Statement>> {
    seq(|ms|, i requires 0 <= i < |ms| => StatusProgram(ms[i]))
  }

  /** Task `i` is one of the gateway's and is between its first and its last statement. */
  predicate UnderWay(ms: seq<StatusMessage>, p: Progress, g: string, i: nat)
    requires i < |ms| && |p.done| == |ms|
  {
    ms[i].gateway == g && 0 < p.done[i] < |StatusProgram(ms[i])|
  }

  /** No task of the gateway makes a step while another of its tasks is under way. */
  predicate NoOverlap(ms: seq<StatusMessage>, t: Tables, g: string, schedule: seq<nat>)
    requires Run(Programs(ms), t, schedule).Some?
  {
    schedule == []
    || (var front, i := schedule[..|schedule| - 1], schedule[|schedule| - 1];
        var p := Run(Programs(ms), t, front).value;
        && NoOverlap(ms, t, g, front)
        && (ms[i].gateway == g ==> forall j | 0 <= j < |ms| && j != i :: |p.done| == |ms| && !UnderWay(ms, p, g, j)))
  }

  /** Gateway and devices tell the same story. */
  predicate Consistent(t: Tables, g: string) {
    && g in t.gateways && (t.gateways[g] == "on" || t.gateways[g] == "off")
    && forall d <- t.devices :: t.devices[d].gateway == g ==> t.devices[d].state == StatusInt(t.gateways[g])
  }

  /** Task `i` of the gateway has written the gateway's status but not yet the devices. */
  predicate HalfDone(ms: seq<StatusMessage>, p: Progress, g: string, i: nat)
    requires i < |ms| && |p.done| == |ms|
  {
    UnderWay(ms, p, g, i) && p.done[i] == 1
  }

  /** Some task of the gateway has executed a statement. */
  ghost predicate Begun(ms: seq<StatusMessage>, p: Progress, g: string)
    requires |p.done| == |ms|
  {
    exists i | 0 <= i < |ms| :: ms[i].gateway == g && p.done[i] > 0
  }

  /** Between two statements: while a task is half done its status is the gateway's; otherwise the
      gateway is consistent if it was so at the start or a task of it has run. */
  ghost predicate Between(ms: seq<StatusMessage>, p: Progress, g: string, initially: bool) {
    && |p.done| == |ms| && g in p.tables.gateways
    && (forall i | 0 <= i < |ms| :: HalfDone(ms, p, g, i) ==> p.tables.gateways[g] == ms[i].status)
    && ((forall i | 0 <= i < |ms| :: !HalfDone(ms, p, g, i)) && (initially || Begun(ms, p, g))
        ==> Consistent(p.tables, g))
  }

  lemma BetweenStep(ms: seq<StatusMessage>, p: Progress, g: string, initially: bool, i: nat)
    requires Between(ms, p, g, initially) && CanStep(Programs(ms), p, i)
    requires ms[i].gateway == g ==> forall j | 0 <= j < |ms| && j != i :: !UnderWay(ms, p, g, j)
    ensures Between(ms, Step(Programs(ms), p, i), g, initially)
  {
    var q := Step(Programs(ms), p, i);
    forall j | 0 <= j < |ms| && j != i ensures HalfDone(ms, q, g, j) <==> HalfDone(ms, p, g, j) {}
    if ms[i].gateway == g {
      OwnStep(ms, p, g, initially, i);
    } else {
      ForeignStep(p.tables, g, StatusProgram(ms[i])[p.done[i]]);
      assert !HalfDone(ms, p, g, i) && !HalfDone(ms, q, g, i);
      if Begun(ms, q, g) {
        var j :| 0 <= j < |ms| && ms[j].gateway == g && q.done[j] > 0;
        assert p.done[j] > 0;
      }
    }
  }

  /** A statement about another gateway. */
  lemma ForeignStep(t: Tables, g: string, s: Statement)
    requires !s.SetCamera? && s.gateway != g
    ensures g in Exec(t, s).gateways <==> g in t.gateways
    ensures g in t.gateways ==> Exec(t, s).gateways[g] == t.gateways[g]
    ensures Consistent(Exec(t, s), g) <==> Consistent(t, g)
  {
    var u := Exec(t, s);
    forall d | d in t.devices && t.devices[d].gateway == g ensures u.devices[d] == t.devices[d] {}
  }

  /** A step of the only task of the gateway that is under way, or of one that begins. */
  lemma OwnStep(ms: seq<StatusMessage>, p: Progress, g: string, initially: bool, i: nat)
    requires Between(ms, p, g, initially) && CanStep(Programs(ms), p, i) && ms[i].gateway == g
    requires forall j | 0 <= j < |ms| && j != i :: !UnderWay(ms, p, g, j)
    ensures var q := Step(Programs(ms), p, i);
            && g in q.tables.gateways
            && (HalfDone(ms, q, g, i) ==> q.tables.gateways[g] == ms[i].status)
            && (!HalfDone(ms, q, g, i) ==> Consistent(q.tables, g))
  {
    if p.done[i] == 1 {
      assert HalfDone(ms, p, g, i);
    } else if p.done[i] == 2 {
      assert Begun(ms, p, g) && forall j | 0 <= j < |ms| :: !HalfDone(ms, p, g, j);
    }
  }

  lemma {:induction false} BetweenAlways(ms: seq<StatusMessage>, t: Tables, g: string, schedule: seq<nat>)
    requires g in t.gateways && Run(Programs(ms), t, schedule).Some? && NoOverlap(ms, t, g, schedule)
    ensures Between(ms, Run(Programs(ms), t, schedule).value, g, Consistent(t, g))
    decreases |schedule|
  {
    if schedule != [] {
      BetweenAlways(ms, t, g, schedule[..|schedule| - 1]);
      BetweenStep(ms, Run(Programs(ms), t, schedule[..|schedule| - 1]).value,
                  g, Consistent(t, g), schedule[|schedule| - 1]);
    }
  }

  predicate AllOn(t: Tables, g: string) {
    forall d <- t.devices :: t.devices[d].gateway == g ==> t.devices[d].state == 1
  }

  predicate HasDevice(t: Tables, g: string) {
    exists d <- t.devices :: t.devices[d].gateway == g
  }

  /** If status updates of one gateway do not overlap, then whenever none of them is under way gateway
      and devices are consistent, provided they were at the start or one update has run.  Reading "on"
      off the devices - all of them have state 1 - is then right exactly if the gateway has a device
      or is on anyway. */
  lemma StatusMatchesDevices(ms: seq<StatusMessage>, t: Tables, g: string, schedule: seq<nat>)
    requires g in t.gateways && Run(Programs(ms), t, schedule).Some? && NoOverlap(ms, t, g, schedule)
    requires var p := Run(Programs(ms), t, schedule).value;
             && |p.done| == |ms| && (forall i | 0 <= i < |ms| :: !UnderWay(ms, p, g, i))
             && (Consistent(t, g) || Begun(ms, p, g))
    ensures var u := Run(Programs(ms), t, schedule).value.tables;
            && Consistent(u, g)
            && ((u.gateways[g] == "on" <==> AllOn(u, g)) <==> (u.gateways[g] == "on" || HasDevice(u, g)))
  {
    BetweenAlways(ms, t, g, schedule);
  }

  // ----- As code

  /** The database: each statement may fail, and then changes nothing. */
  class Database {
    var gateways: map<string, string>
    var devices: map<string, Device>
    var cameras: map<string, Camera>

    function View(): Tables
      reads this
    {
      Tables(gateways, devices, cameras)
    }

    method ExecContext(s: Statement, ok: bool) returns (err: bool)
      modifies this
      ensures err == !ok && View() == if ok then Exec(old(View()), s) else old(View())
    {
      if !ok {
        return true;
      }
      match s {
        case SetGateway(g, status) =>
          if g in gateways {
            gateways := gateways[g := status];
          }
        case SetDevices(g, state) =>
          devices := map d | d in devices ::
                       if devices[d].gateway == g then devices[d].(state := state) else devices[d];
        case SetOnAir(g, v) =>
          cameras := map c | c in cameras :: if cameras[c].gateway == g then cameras[c].(onAir := v) else cameras[c];
        case SetCamera(c, v, server) =>
          if c in cameras {
            cameras := cameras[c := cameras[c].(onAir := v)];
            if server.Some? {
              cameras := cameras[c := cameras[c].(ip := server.value.ip, serverIp := server.value.serverIp,
                                                  application := server.value.application)];
            }
          }
      }
      return false;
    }
  }

  /** The statements of a program that succeed: all of it if all do. */
  function Succeeding(ss: seq<Statement>, ok: seq<bool>): (r: seq<Statement>)
    requires |ss| <= |ok|
    ensures (forall k | 0 <= k < |ss| :: ok[k]) ==> r == ss
  {
    if ss == [] then []
    else Succeeding(ss[..|ss| - 1], ok) + if ok[|ss| - 1] then [ss[|ss| - 1]] else []
  }

  lemma ExecOneMore(t: Tables, ss: seq<Statement>, ok: seq<bool>, k: nat)
    requires k < |ss| <= |ok|
    ensures var u := ExecAll(t, Succeeding(ss[..k], ok));
            ExecAll(t, Succeeding(ss[..k + 1], ok)) == if ok[k] then Exec(u, ss[k]) else u
  {
    assert ss[..k + 1][..k] == ss[..k];
    var front := Succeeding(ss[..k], ok);
    if ok[k] {
      assert Succeeding(ss[..k + 1], ok)[..|front|] == front;
    } else {
      assert Succeeding(ss[..k + 1], ok) == front;
    }
  }

  function ExecIf(t: Tables, s: Statement, ok: bool): Tables { if ok then Exec(t, s) else t }

  /** What the statements of a status task that succeed amount to. */
  lemma StatusEffect(t: Tables, m: StatusMessage, ok: seq<bool>)
    requires |ok| == 3 && StatusProgram(m) != []
    ensures var u := ExecIf(ExecIf(t, SetGateway(m.gateway, m.status), ok[0]),
                            SetDevices(m.gateway, StatusInt(m.status)), ok[1]);
            ExecAll(t, Succeeding(StatusProgram(m), ok))
            == if m.status == "off" then ExecIf(u, SetOnAir(m.gateway, 0), ok[2]) else u
  {
    var program := StatusProgram(m);
    ExecOneMore(t, program, ok, 0);
    ExecOneMore(t, program, ok, 1);
    if m.status == "off" {
      ExecOneMore(t, program, ok, 2);
    }
    assert program[..|program|] == program;
  }

  /** `UpdateGatewayStatusTask.Run`: an error of one statement is logged and the next one is sent all the same. */
  method UpdateGatewayStatus(db: Database, m: StatusMessage, ok: seq<bool>)
    requires |ok| == 3
    modifies db
    ensures db.View() == ExecAll(old(db.View()), Succeeding(StatusProgram(m), ok))
    ensures ok == [true, true, true] ==> db.View() == ExecAll(old(db.View()), StatusProgram(m))
  {
    if !m.isUuid {
      return;
    }
    var statusInt;
    match m.status {
      case "off" => statusInt := 0;
      case "on" => statusInt := 1;
      case _ => return;
    }
    StatusEffect(db.View(), m, ok);
    var err := db.ExecContext(SetGateway(m.gateway, m.status), ok[0]);
    err := db.ExecContext(SetDevices(m.gateway, statusInt), ok[1]);
    if statusInt == 0 {
      err := db.ExecContext(SetOnAir(m.gateway, statusInt), ok[2]);
    }
  }

  /** `UpdateCameraStateTask.Run` on a message the handler may be rewriting meanwhile: each of the three
      reads of a rewritten field sees it before or after. */
  method UpdateCameraState(db: Database, task: Logic.Task, r: Reads, ok: bool)
    requires task.UpdateCameraState?
    modifies db
    ensures db.View() == if ok then ExecAll(old(db.View()), CameraProgram(task, r)) else old(db.View())
  {
    var m := task.before;
    if m.gatewayId == "" || m.deviceId == "" {
      return;
    }
    var onair := 0;
    if m.deviceState == "on" || m.deviceState == "streamingOn" {
      onair := 1;
    }
    var err;
    ghost var t0 := db.View();
    ghost var program := CameraProgram(task, r);
    if Contains(m.deviceState, "streaming") {
      var ip := if r.ip then task.after.mediaserverIp else m.mediaserverIp;
      var serverIp := if r.serverIp then task.after.mediaserverIp else m.mediaserverIp;
      var application := if r.application then task.after.applicationName else m.applicationName;
      err := db.ExecContext(SetCamera(m.deviceId, onair, Some(Server(ip, serverIp, application))), ok);
    } else {
      err := db.ExecContext(SetCamera(m.deviceId, onair, None), ok);
    }
    ExecOneMore(t0, program, [ok], 0);
    assert program[..|program|] == program;
  }
}
