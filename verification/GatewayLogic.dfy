/**
 The gateway logic as the object it is: camera parameters in a map of mutable
 objects, one shared user record, and handlers that update them in place, rewrite
 the message they were given and spawn tasks.  Every method is proved to have
 exactly the effect of the function of the same handler in DeviceLogic.
 */
module GatewayLogics {
  import opened Wrappers
  import opened DeviceLogic

  /** What a query returned: the rows read, and whether the query or the reading of a row failed then. */
  datatype Fetched<T> = Fetched(rows: seq<T>, failed: bool)

  /** One row of the cameras query; the two nullable columns are options. */
  datatype CameraRow = CameraRow(
    tableId: nat, userId: nat, deviceId: string, recording: Option<string>, schedule: Option<string>, title: string)

  /** One row of the sensors query with the rows of its inner query. */
  datatype SensorRow = SensorRow(
    tableId: nat, deviceId: string, userId: nat, title: string, inner: Fetched<InnerRow>)
  datatype InnerRow = InnerRow(sensorType: string, params: Inner)

  function CameraOf(r: CameraRow): Camera {
    Camera(r.tableId, r.userId, r.deviceId, r.title,
           if r.recording.Some? then ConvertRecordingMode(r.recording.value) else NoRecord,
           if r.schedule.Some? then r.schedule.value else "",
           NoTarget, false)
  }

  function LoadedCameras(rows: seq<CameraRow>): map<string, Camera> {
    if rows == [] then map[]
    else LoadedCameras(rows[..|rows| - 1])[rows[|rows| - 1].deviceId := CameraOf(rows[|rows| - 1])]
  }

  function LoadedInner(rows: seq<InnerRow>): map<string, Inner> {
    if rows == [] then map[]
    else LoadedInner(rows[..|rows| - 1])[rows[|rows| - 1].sensorType := rows[|rows| - 1].params]
  }

  function SensorOf(r: SensorRow): Sensor {
    Sensor(r.tableId, r.userId, r.title, LoadedInner(r.inner.rows))
  }

  function LoadedSensors(rows: seq<SensorRow>): map<string, Sensor> {
    if rows == [] then map[]
    else LoadedSensors(rows[..|rows| - 1])[rows[|rows| - 1].deviceId := SensorOf(rows[|rows| - 1])]
  }

  /** The sensor rows up to the first one whose inner query fails. */
  function Readable(rows: seq<SensorRow>): (r: seq<SensorRow>)
    ensures r <= rows && (forall k | 0 <= k < |r| :: !r[k].inner.failed)
    ensures r == rows || rows[|r|].inner.failed
  {
    if rows == [] || rows[0].inner.failed then [] else [rows[0]] + Readable(rows[1..])
  }

  /** Row `k` is the last one for device `d`. */
  ghost predicate LastRow(rows: seq<CameraRow>, d: string, k: nat) {
    k < |rows| && rows[k].deviceId == d && forall j | k < j < |rows| :: rows[j].deviceId != d
  }

  /** A camera is loaded exactly when it has a row, and from the last row it has. */
  lemma {:induction false} LoadedFromLastRow(rows: seq<CameraRow>, d: string)
    ensures d in LoadedCameras(rows) <==> exists k: nat :: LastRow(rows, d, k)
    ensures forall k: nat :: LastRow(rows, d, k) ==> LoadedCameras(rows)[d] == CameraOf(rows[k])
    decreases |rows|
  {
    if rows != [] {
      var n := |rows| - 1;
      LoadedFromLastRow(rows[..n], d);
      if rows[n].deviceId == d {
        assert LastRow(rows, d, n);
      } else {
        forall k: nat ensures LastRow(rows, d, k) <==> LastRow(rows[..n], d, k) {}
      }
    }
  }

  /** Loading leaves every camera under its own id, with no target and no motion. */
  lemma {:induction false} LoadedIsInitial(rows: seq<CameraRow>, sensors: map<string, Sensor>, user: User)
    ensures Loaded(State(LoadedCameras(rows), sensors, user))
    decreases |rows|
  {
    if rows != [] {
      LoadedIsInitial(rows[..|rows| - 1], sensors, user);
    }
  }

  class CameraLogicParams {
    const tableId: nat
    const userId: nat
    const deviceId: string
    const title: string
    var mode: RecordingMode
    var schedule: string
    var mediaserverParamsSet: bool
    var mediaserverIp: string
    var applicationName: string
    var motionInProcess: bool

    constructor (r: CameraRow)
      ensures View() == CameraOf(r)
    {
      tableId, userId, deviceId, title := r.tableId, r.userId, r.deviceId, r.title;
      mode, schedule := NoRecord, "";
      mediaserverParamsSet, mediaserverIp, applicationName, motionInProcess := false, "", "", false;
      new;
      if r.recording.Some? {
        mode := ConvertRecordingMode(r.recording.value);
      }
      if r.schedule.Some? {
        schedule := r.schedule.value;
      }
    }

    function View(): Camera
      reads this
    {
      Camera(tableId, userId, deviceId, title, mode, schedule,
             Target(mediaserverParamsSet, mediaserverIp, applicationName), motionInProcess)
    }
  }

  class GatewayLogic {
    var cameraParams: map<string, CameraLogicParams>
    var sensorParams: map<string, Sensor>
    var userParams: User

    ghost predicate Valid()
      reads `cameraParams
    {
      forall d <- cameraParams :: cameraParams[d].deviceId == d
    }

    ghost function Cameras(): map<string, Camera>
      reads `cameraParams, cameraParams.Values
    {
      map d | d in cameraParams :: cameraParams[d].View()
    }

    ghost function View(): State
      reads `cameraParams, `sensorParams, `userParams, cameraParams.Values
    {
      State(Cameras(), sensorParams, userParams)
    }

    /** `NewGatewayLogic`: no parameters yet. */
    constructor ()
      ensures Valid() && View() == State(map[], map[], User(0, 0, false, false, false, false))
    {
      cameraParams, sensorParams, userParams := map[], map[], User(0, 0, false, false, false, false);
    }

    /** Loads the parameters of a new object from what the queries return and writes the notice; the
        first failure ends it, with what was loaded so far still there. */
    method LoadParams(user: Option<User>, cameraRows: Fetched<CameraRow>, sensorRows: Fetched<SensorRow>,
                      noticeOk: bool)
      returns (ok: bool)
      requires cameraParams == map[] && sensorParams == map[]
      modifies this
      ensures Valid() && fresh(cameraParams.Values) && Loaded(View())
      ensures ok <==> user.Some? && !cameraRows.failed && !sensorRows.failed && noticeOk
                      && Readable(sensorRows.rows) == sensorRows.rows
      ensures userParams == if user.Some? then user.value else old(userParams)
      ensures Cameras() == if user.Some? then LoadedCameras(cameraRows.rows) else map[]
      ensures sensorParams == if user.Some? && !cameraRows.failed
                              then LoadedSensors(Readable(sensorRows.rows)) else map[]
    {
      if user.None? {
        return false;
      }
      userParams := user.value;
      LoadCameras(cameraRows.rows);
      ghost var sensors := if cameraRows.failed then map[] else LoadedSensors(Readable(sensorRows.rows));
      LoadedIsInitial(cameraRows.rows, sensors, user.value);
      if cameraRows.failed {
        return false;
      }
      var failed := LoadSensors(sensorRows.rows);
      return !failed && !sensorRows.failed && noticeOk;
    }

    method LoadCameras(rows: seq<CameraRow>)
      requires cameraParams == map[]
      modifies `cameraParams
      ensures Valid() && fresh(cameraParams.Values) && Cameras() == LoadedCameras(rows)
    {
      for n := 0 to |rows|
        invariant Valid() && fresh(cameraParams.Values) && Cameras() == LoadedCameras(rows[..n])
      {
        AddCamera(rows[n]);
        assert rows[..n + 1][..n] == rows[..n];
      }
      assert rows[..|rows|] == rows;
    }

    method AddCamera(r: CameraRow)
      requires Valid()
      modifies `cameraParams
      ensures Valid() && Cameras() == old(Cameras())[r.deviceId := CameraOf(r)]
      ensures fresh(cameraParams.Values - old(cameraParams.Values))
    {
      var p := new CameraLogicParams(r);
      cameraParams := cameraParams[r.deviceId := p];
    }

    method LoadSensors(rows: seq<SensorRow>) returns (failed: bool)
      requires sensorParams == map[]
      modifies `sensorParams
      ensures sensorParams == LoadedSensors(Readable(rows))
      ensures failed <==> Readable(rows) != rows
    {
      for n := 0 to |rows|
        invariant sensorParams == LoadedSensors(rows[..n])
        invariant forall k | 0 <= k < n :: !rows[k].inner.failed
      {
        var inner := LoadInner(rows[n].inner.rows);
        if rows[n].inner.failed {
          assert Readable(rows) == rows[..n];
          return true;
        }
        sensorParams := sensorParams[rows[n].deviceId := Sensor(rows[n].tableId, rows[n].userId, rows[n].title, inner)];
        assert rows[..n + 1][..n] == rows[..n];
      }
      assert rows[..|rows|] == rows == Readable(rows);
      return false;
    }

    static method LoadInner(rows: seq<InnerRow>) returns (inner: map<string, Inner>)
      ensures inner == LoadedInner(rows)
    {
      inner := map[];
      for n := 0 to |rows|
        invariant inner == LoadedInner(rows[..n])
      {
        inner := inner[rows[n].sensorType := rows[n].params];
        assert rows[..n + 1][..n] == rows[..n];
      }
      assert rows[..|rows|] == rows;
    }

    // ----- Updates of one camera's parameters

    method StoreTarget(d: string, ip: string, application: string, isSet: bool)
      requires Valid() && d in cameraParams
      modifies cameraParams[d]
      ensures Cameras() == old(Cameras())[d := old(Cameras())[d].(target := Target(isSet, ip, application))]
    {
      var p := cameraParams[d];
      p.mediaserverIp := ip;
      p.applicationName := application;
      p.mediaserverParamsSet := isSet;
    }

    method StoreMotion(d: string, motion: bool)
      requires Valid() && d in cameraParams
      modifies cameraParams[d]
      ensures Cameras() == old(Cameras())[d := old(Cameras())[d].(motionInProcess := motion)]
    {
      cameraParams[d].motionInProcess := motion;
    }

    // ----- The handlers

    method ProcessCameraState(m: Message) returns (err: Option<Error>, started: seq<Task>)
      requires Valid()
      modifies cameraParams.Values
      ensures Valid()
      ensures var e := CameraState(old(View()), m);
              View() == e.state && started == e.tasks && err == e.error
    {
      started := [];
      if m.deviceId !in cameraParams {
        return Some(NoCamera), started;
      }
      var p := cameraParams[m.deviceId];
      var message := m;
      if message.deviceState == "on" || message.deviceState == "off" {
        started := started + [UpdateCameraState(m, message)];
        return None, started;
      } else if message.deviceState == "streamingOn" {
        if !CanBeRecorded(userParams) {
          started := started + [UpdateCameraState(m, message)];
          return None, started;
        }
        message := message.(recording := "on");
        StoreTarget(m.deviceId, message.mediaserverIp, message.applicationName, true);
      } else if message.deviceState == "streamingOff" {
        message := message.(recording := "off", mediaserverIp := p.mediaserverIp, applicationName := p.applicationName);
        StoreTarget(m.deviceId, "", "", false);
      } else {
        started := started + [UpdateCameraState(m, message)];
        return Some(WrongDeviceState), started;
      }
      started := started + [UpdateCameraState(m, message)];
      var recording := StateRecording(p, message);
      return None, started + recording;
    }

    /** The recording mode decides whether a state message starts or stops a recording. */
    method StateRecording(p: CameraLogicParams, message: Message) returns (started: seq<Task>)
      ensures started == if RecordsState(p.View()) then [Record(message)] else []
    {
      started := [];
      match p.mode {
        case Continuous => started := started + [Record(message)];
        case Motion =>
          if p.motionInProcess {
            started := started + [Record(message)];
          }
        case _ =>
      }
    }

    method ProcessCameraData(m: Message) returns (err: Option<Error>, started: seq<Task>)
      requires Valid()
      modifies cameraParams.Values
      ensures Valid()
      ensures var e := CameraData(old(View()), m);
              View() == e.state && started == e.tasks && err == e.error
    {
      started := [];
      if m.deviceId !in cameraParams {
        return Some(NoCamera), started;
      }
      var p := cameraParams[m.deviceId];
      var message := m;
      if message.sensorLabel == "motionDetector" && p.mode == Motion {
        StoreMotion(m.deviceId, message.sensorData == "on");
        message := message.(recording := message.sensorData);
        started := started + [Record(message)];
      }
      started := started + [StoreInflux(message)];
      if message.sensorLabel == "motionDetector" && message.sensorData == "on" && userParams.push {
        started := started
                   + [SendPush(PushMessage("camera", p.title, "Обнаружено движение", p.tableId, p.userId))];
      }
      return None, started;
    }

    method ProcessCameraCommand(m: Message) returns (err: Option<Error>, started: seq<Task>)
      requires Valid()
      modifies `userParams
      ensures Valid()
      ensures var e := CameraCommand(old(View()), m);
              View() == e.state && started == e.tasks && err == e.error
    {
      started := [];
      if m.deviceId !in cameraParams {
        return Some(NoCamera), started;
      }
      var p := cameraParams[m.deviceId];
      if m.command == "setRecording" {
        var previous := userParams;
        UpdateTariff(m);
        started := CommandRecording(p, m, previous);
      }
      return None, started;
    }

    method UpdateTariff(m: Message)
      modifies `userParams
      ensures userParams == NewTariff(old(userParams), m)
    {
      userParams := userParams.(tarifId := m.tariffId);
      userParams := userParams.(money := m.money);
      userParams := userParams.(vip := m.vip);
      userParams := userParams.(legalEntity := m.legalEntity);
    }

    /** Compares the commanded mode and tariff with the stored mode and the previous tariff. */
    method CommandRecording(p: CameraLogicParams, m: Message, previous: User) returns (started: seq<Task>)
      ensures started == CommandTasks(p.View(), m, previous, userParams)
    {
      started := [];
      var newMode := ConvertRecordingMode(m.attribute);
      if p.mode == Motion && newMode == Continuous && CanBeRecorded(userParams) {
        started := started + [Record(ToMessage(p.View(), true))];
      } else if p.mode == Continuous && newMode == Motion {
        started := started + [Record(ToMessage(p.View(), false))];
      } else if p.mode == newMode {
        if previous.tarifId == UserTarifOnline && CanBeRecorded(userParams) {
          started := started + [Record(ToMessage(p.View(), true))];
        }
        if previous.tarifId > UserTarifOnline && m.tariffId == UserTarifOnline {
          started := started + [Record(ToMessage(p.View(), false))];
        }
      }
    }

    method ProcessSensorData(m: Message) returns (err: Option<Error>, started: seq<Task>)
      requires Valid()
      ensures Valid()
      ensures var e := SensorData(old(View()), m);
              View() == e.state && started == e.tasks && err == e.error
    {
      started := [];
      if m.deviceId !in sensorParams {
        return Some(NoSensor), started;
      }
      var p := sensorParams[m.deviceId];
      var key := GetLabel(m.sensorLabel);
      if key !in p.inner {
        return Some(NoInner), started;
      }
      var inner := p.inner[key];
      var message := m.(deviceTableId := p.tableId);
      started := started + [StoreMySql(message)];
      if inner.influx {
        started := started + [StoreInflux(message)];
      }
      if message.sensorData == "on" && inner.notify && userParams.push {
        started := started + [SendPush(PushMessage("sensor", p.title, inner.desc, p.tableId, p.userId))];
      }
      return None, started;
    }

    /** Dispatches one message. */
    method Process(m: Message) returns (err: Option<Error>, started: seq<Task>)
      requires Valid()
      modifies `userParams, cameraParams.Values
      ensures Valid()
      ensures var e := DeviceLogic.Process(old(View()), m);
              View() == e.state && started == e.tasks && err == e.error
    {
      err, started := None, [];
      if userParams.blocked {
        return;
      }
      match m.messageType {
        case "status" => started := [UpdateGatewayStatus(m)];
        case "sensorData" =>
          if m.deviceType == "camera" {
            err, started := ProcessCameraData(m);
          } else if m.deviceType == "sensor" {
            err, started := ProcessSensorData(m);
          }
        case "preview" => started := [StorePreview(m)];
        case "command" => err, started := ProcessCameraCommand(m);
        case "deviceState" =>
          if m.deviceType == "camera" {
            err, started := ProcessCameraState(m);
          }
        case "cloudStreaming" =>
          if m.deviceType == "camera" {
            started := [UpdateStreaming(m)];
          }
        case _ =>
      }
    }

    method SetPush(on: bool)
      requires Valid()
      modifies `userParams
      ensures Valid() && View() == Step(old(View()), Input.SetPush(on)).state
    {
      userParams := userParams.(push := on);
    }

    /** One input, whichever kind. */
    method Take(i: Input) returns (started: seq<Task>)
      requires Valid()
      modifies `userParams, cameraParams.Values
      ensures Valid() && View() == Step(old(View()), i).state && started == Step(old(View()), i).tasks
    {
      started := [];
      match i {
        case Msg(m) => var err; err, started := Process(m);
        case SetPush(on) => SetPush(on);
      }
    }

    /** Inputs taken one after another, each handler running to its end. */
    method TakeAll(h: seq<Input>) returns (started: seq<Task>)
      requires Valid()
      modifies `userParams, cameraParams.Values
      ensures Valid() && View() == Final(old(View()), h) && started == Log(old(View()), h)
    {
      started := [];
      for n := 0 to |h|
        invariant Valid() && View() == Final(old(View()), h[..n]) && started == Log(old(View()), h[..n])
      {
        var more := Take(h[n]);
        started := started + more;
        assert h[..n + 1][..n] == h[..n];
      }
      assert h[..|h|] == h;
    }
  }
}
