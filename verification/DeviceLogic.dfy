/**
 The business logic of one gateway on values: what a message does to the loaded
 parameters and which tasks it spawns.  The class in GatewayLogic.dfy is proved to
 do the same in place; the theorems about message sequences are about these functions.
 */
module DeviceLogic {
  import opened Wrappers

  // ----- Messages (the fields the logic and its tasks read)

  datatype Message = Message(
    messageType: string,
    gatewayId: string,
    deviceId: string,
    deviceType: string,
    deviceState: string,
    deviceTableId: nat,
    sensorData: string,
    preview: string,
    sensorLabel: string,
    mediaserverIp: string,
    applicationName: string,
    recording: string,
    command: string,
    attribute: string,
    tariffId: nat,
    money: nat,
    vip: bool,
    legalEntity: bool,
    userId: nat,
    title: string,
    content: string,
    status: string
  )

  const EmptyMessage: Message :=
    Message("", "", "", "", "", 0, "", "", "", "", "", "", "", "", 0, 0, false, false, 0, "", "", "")

  /** Labels are compared with their spaces replaced by underscores. */
  function GetLabel(s: string): (r: string)
    ensures |r| == |s| && forall i | 0 <= i < |s| :: r[i] == if s[i] == ' ' then '_' else s[i]
  {
    if s == "" then "" else [if s[0] == ' ' then '_' else s[0]] + GetLabel(s[1..])
  }

  // ----- Parameters

  datatype RecordingMode = NoRecord | Continuous | Motion | Schedule

  function ConvertRecordingMode(mode: string): RecordingMode {
    if mode == "continuous" then Continuous
    else if mode == "motion" then Motion
    else if mode == "schedule" then Schedule
    else NoRecord
  }

  /** The media server a camera streams to. */
  datatype Target = Target(isSet: bool, ip: string, application: string)

  const NoTarget: Target := Target(false, "", "")

  datatype Camera = Camera(
    tableId: nat, userId: nat, deviceId: string, title: string,
    mode: RecordingMode, schedule: string,
    target: Target, motionInProcess: bool)

  datatype Inner = Inner(influx: bool, notify: bool, desc: string)

  datatype Sensor = Sensor(tableId: nat, userId: nat, title: string, inner: map<string, Inner>)

  const UserTarifOnline: nat := 1

  datatype User = User(tarifId: nat, money: nat, vip: bool, legalEntity: bool, blocked: bool, push: bool)

  predicate CanBeRecorded(u: User) {
    (u.tarifId > UserTarifOnline && u.money > 0) || u.vip || u.legalEntity
  }

  datatype State = State(cameras: map<string, Camera>, sensors: map<string, Sensor>, user: User)

  /** What LoadParams can leave: every camera under its own id, no target and no motion yet. */
  predicate Loaded(s: State) {
    forall d <- s.cameras ::
      s.cameras[d].deviceId == d && s.cameras[d].target == NoTarget && !s.cameras[d].motionInProcess
  }

  // ----- Tasks, with the message each runs on

  datatype Task =
    | UpdateCameraState(before: Message, after: Message)  // the handler may rewrite the shared message
    | Record(message: Message)
    | StoreInflux(message: Message)
    | StoreMySql(message: Message)
    | SendPush(message: Message)
    | UpdateGatewayStatus(message: Message)
    | StorePreview(message: Message)
    | UpdateStreaming(message: Message)

  predicate IsStart(t: Task) { t.Record? && t.message.recording == "on" }

  predicate IsStop(t: Task) { t.Record? && t.message.recording != "on" }

  datatype Error = NoCamera | WrongDeviceState | NoSensor | NoInner

  datatype Effect = Effect(state: State, tasks: seq<Task>, error: Option<Error>)

  function PushMessage(deviceType: string, title: string, content: string, tableId: nat, userId: nat): Message {
    EmptyMessage.(deviceType := deviceType, title := title, content := content,
                  deviceTableId := tableId, userId := userId)
  }

  /** The recording command the cloud makes up for a camera. */
  function ToMessage(c: Camera, recording: bool): Message {
    EmptyMessage.(deviceId := c.deviceId, mediaserverIp := c.target.ip, applicationName := c.target.application,
                  recording := if recording then "on" else "off")
  }

  // ----- The handlers

  /** Whether a state message of this camera leads to a recording task. */
  predicate RecordsState(c: Camera) {
    c.mode == Continuous || (c.mode == Motion && c.motionInProcess)
  }

  function CameraState(s: State, m: Message): Effect {
    if m.deviceId !in s.cameras then Effect(s, [], Some(NoCamera))
    else
      var c := s.cameras[m.deviceId];
      if m.deviceState == "on" || m.deviceState == "off" then Effect(s, [UpdateCameraState(m, m)], None)
      else if m.deviceState == "streamingOn" then
        if !CanBeRecorded(s.user) then Effect(s, [UpdateCameraState(m, m)], None)
        else
          var m' := m.(recording := "on");
          var c' := c.(target := Target(true, m.mediaserverIp, m.applicationName));
          Effect(s.(cameras := s.cameras[m.deviceId := c']),
                 [UpdateCameraState(m, m')] + (if RecordsState(c) then [Record(m')] else []), None)
      else if m.deviceState == "streamingOff" then
        var m' := m.(recording := "off", mediaserverIp := c.target.ip, applicationName := c.target.application);
        var c' := c.(target := NoTarget);
        Effect(s.(cameras := s.cameras[m.deviceId := c']),
               [UpdateCameraState(m, m')] + (if RecordsState(c) then [Record(m')] else []), None)
      else Effect(s, [UpdateCameraState(m, m)], Some(WrongDeviceState))
  }

  function CameraData(s: State, m: Message): Effect {
    if m.deviceId !in s.cameras then Effect(s, [], Some(NoCamera))
    else
      var c := s.cameras[m.deviceId];
      var detects := m.sensorLabel == "motionDetector" && c.mode == Motion;
      var m' := if detects then m.(recording := m.sensorData) else m;
      var s' := if detects then s.(cameras := s.cameras[m.deviceId := c.(motionInProcess := m.sensorData == "on")])
                else s;
      Effect(s',
             (if detects then [Record(m')] else [])
             + [StoreInflux(m')]
             + (if m.sensorLabel == "motionDetector" && m.sensorData == "on" && s.user.push
                then [SendPush(PushMessage("camera", c.title, "Обнаружено движение", c.tableId, c.userId))]
                else []),
             None)
  }

  /** The recording tasks a setRecording command leads to, given the user before and after it. */
  function CommandTasks(c: Camera, m: Message, before: User, after: User): seq<Task> {
    var mode := ConvertRecordingMode(m.attribute);
    if c.mode == Motion && mode == Continuous && CanBeRecorded(after) then [Record(ToMessage(c, true))]
    else if c.mode == Continuous && mode == Motion then [Record(ToMessage(c, false))]
    else if c.mode == mode then
      (if before.tarifId == UserTarifOnline && CanBeRecorded(after) then [Record(ToMessage(c, true))] else [])
      + (if DowngradesToOnline(m, before) then [Record(ToMessage(c, false))] else [])
    else []
  }

  predicate DowngradesToOnline(m: Message, before: User) {
    before.tarifId > UserTarifOnline && m.tariffId == UserTarifOnline
  }

  function NewTariff(u: User, m: Message): User {
    u.(tarifId := m.tariffId, money := m.money, vip := m.vip, legalEntity := m.legalEntity)
  }

  function CameraCommand(s: State, m: Message): Effect {
    if m.deviceId !in s.cameras then Effect(s, [], Some(NoCamera))
    else if m.command != "setRecording" then Effect(s, [], None)
    else
      var u := NewTariff(s.user, m);
      Effect(s.(user := u), CommandTasks(s.cameras[m.deviceId], m, s.user, u), None)
  }

  function SensorData(s: State, m: Message): Effect {
    if m.deviceId !in s.sensors then Effect(s, [], Some(NoSensor))
    else
      var p := s.sensors[m.deviceId];
      if GetLabel(m.sensorLabel) !in p.inner then Effect(s, [], Some(NoInner))
      else
        var i := p.inner[GetLabel(m.sensorLabel)];
        var m' := m.(deviceTableId := p.tableId);
        Effect(s,
               [StoreMySql(m')]
               + (if i.influx then [StoreInflux(m')] else [])
               + (if m.sensorData == "on" && i.notify && s.user.push
                  then [SendPush(PushMessage("sensor", p.title, i.desc, p.tableId, p.userId))] else []),
               None)
  }

  function Process(s: State, m: Message): Effect {
    if s.user.blocked then Effect(s, [], None)
    else if m.messageType == "status" then Effect(s, [UpdateGatewayStatus(m)], None)
    else if m.messageType == "sensorData" then
      if m.deviceType == "camera" then CameraData(s, m)
      else if m.deviceType == "sensor" then SensorData(s, m)
      else Effect(s, [], None)
    else if m.messageType == "preview" then Effect(s, [StorePreview(m)], None)
    else if m.messageType == "command" then CameraCommand(s, m)
    else if m.messageType == "deviceState" then
      if m.deviceType == "camera" then CameraState(s, m) else Effect(s, [], None)
    else if m.messageType == "cloudStreaming" then
      if m.deviceType == "camera" then Effect(s, [UpdateStreaming(m)], None) else Effect(s, [], None)
    else Effect(s, [], None)
  }

  // ----- Histories

  /** What reaches the logic: gateway and REST messages, and the REST push switch. */
  datatype Input = Msg(m: Message) | SetPush(on: bool)

  function Step(s: State, i: Input): Effect {
    match i
    case Msg(m) => Process(s, m)
    case SetPush(b) => Effect(s.(user := s.user.(push := b)), [], None)
  }

  function Final(s: State, h: seq<Input>): State {
    if h == [] then s else Step(Final(s, h[..|h| - 1]), h[|h| - 1]).state
  }

  /** What the k-th input spawned. */
  function TasksAt(s: State, h: seq<Input>, k: nat): seq<Task>
    requires k < |h|
  {
    Step(Final(s, h[..k]), h[k]).tasks
  }

  function Log(s: State, h: seq<Input>): seq<Task> {
    if h == [] then [] else Log(s, h[..|h| - 1]) + Step(Final(s, h[..|h| - 1]), h[|h| - 1]).tasks
  }
}
