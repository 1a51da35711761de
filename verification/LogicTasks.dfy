/**
 Which tasks every message of every history starts, told from the side of the tasks:
 for each kind of task the messages that cause it, and what it carries.  The causes
 speak of the loaded parameters and of the history only.
 */
module LogicTasks {
  import opened Wrappers
  import opened DeviceLogic
  import opened LogicHistory

  // ----- Causes

  /** A message of the given type from a loaded camera whose user is not blocked. */
  predicate FromCamera(s0: State, i: Input, messageType: string) {
    !s0.user.blocked && i.Msg? && i.m.messageType == messageType && i.m.deviceType == "camera"
    && i.m.deviceId in s0.cameras
  }

  /** A reading of a loaded sensor under one of its loaded labels. */
  predicate FromSensor(s0: State, i: Input) {
    !s0.user.blocked && i.Msg? && i.m.messageType == "sensorData" && i.m.deviceType == "sensor"
    && i.m.deviceId in s0.sensors && GetLabel(i.m.sensorLabel) in s0.sensors[i.m.deviceId].inner
  }

  /** The media server the last streaming event of camera `d` left behind: that of an accepted streamingOn,
      none after a streamingOff, the loaded one without any event. */
  ghost predicate ServerIs(s0: State, h: seq<Input>, d: string, ip: string, application: string)
    requires d in s0.cameras
  {
    && (forall k: nat :: LastEvent(s0, h, d, k) ==>
          if Off(s0, h, d, k) then ip == "" && application == ""
          else ip == h[k].m.mediaserverIp && application == h[k].m.applicationName)
    && ((forall k: nat :: !LastEvent(s0, h, d, k)) ==>
          ip == s0.cameras[d].target.ip && application == s0.cameras[d].target.application)
  }

  /** What the handler of a state message makes of the message: only an accepted streamingOn and a
      streamingOff are rewritten, the latter to address the server the stream was on. */
  ghost predicate Rewritten(s0: State, h: seq<Input>, m: Message, after: Message)
    requires m.deviceId in s0.cameras
  {
    if m.deviceState == "streamingOn" && Recordable(UserAt(s0, h)) then after == m.(recording := "on")
    else if m.deviceState == "streamingOff" then
      && after == m.(recording := "off", mediaserverIp := after.mediaserverIp, applicationName := after.applicationName)
      && ServerIs(s0, h, m.deviceId, after.mediaserverIp, after.applicationName)
    else after == m
  }

  /** The state message switches the recording of a camera that is being recorded. */
  predicate SwitchesRecording(s0: State, h: seq<Input>, m: Message)
    requires m.deviceId in s0.cameras
  {
    && RecordsAt(s0, h, m.deviceId)
    && ((m.deviceState == "streamingOn" && Recordable(UserAt(s0, h))) || m.deviceState == "streamingOff")
  }

  /** The message is a report of the motion detector of a motion-mode camera. */
  predicate Detects(s0: State, m: Message)
    requires m.deviceId in s0.cameras
  {
    m.sensorLabel == "motionDetector" && s0.cameras[m.deviceId].mode == Motion
  }

  /** A setRecording command that starts a recording: from motion to continuous, or out of the online
      tariff in an unchanged mode, in both cases for a user who may record afterwards. */
  predicate CommandStarts(s0: State, h: seq<Input>, m: Message)
    requires m.deviceId in s0.cameras
  {
    var mode := s0.cameras[m.deviceId].mode;
    && AllowsRecording(m)
    && ((mode == Motion && m.attribute == "continuous") || (Names(m.attribute, mode) && UserAt(s0, h).tarifId == 1))
  }

  /** A setRecording command that stops one: from continuous to motion, or down to the online tariff in
      an unchanged mode. */
  predicate CommandStops(s0: State, h: seq<Input>, m: Message)
    requires m.deviceId in s0.cameras
  {
    var mode := s0.cameras[m.deviceId].mode;
    || (mode == Continuous && m.attribute == "motion")
    || (Names(m.attribute, mode) && UserAt(s0, h).tarifId > 1 && m.tariffId == 1)
  }

  /** The order the cloud makes up for a camera: its id, the server its stream is on, and the switch. */
  ghost predicate IsOrder(s0: State, h: seq<Input>, d: string, x: Message)
    requires d in s0.cameras
  {
    && x == EmptyMessage.(deviceId := s0.cameras[d].deviceId, mediaserverIp := x.mediaserverIp,
                          applicationName := x.applicationName, recording := x.recording)
    && ServerIs(s0, h, d, x.mediaserverIp, x.applicationName)
  }

  /** The recording task `x` is caused by input `i` after history `h`. */
  ghost predicate CausesRecord(s0: State, h: seq<Input>, i: Input, x: Message) {
    || (FromCamera(s0, i, "deviceState") && SwitchesRecording(s0, h, i.m) && Rewritten(s0, h, i.m, x))
    || (FromCamera(s0, i, "sensorData") && Detects(s0, i.m) && x == i.m.(recording := i.m.sensorData))
    || (IsTariffCommand(s0, i) && IsOrder(s0, h, i.m.deviceId, x)
        && ((CommandStarts(s0, h, i.m) && x.recording == "on") || (CommandStops(s0, h, i.m) && x.recording == "off")))
  }

  /** The push notification `x`: a report of "on" from a motion detector or a sensor set to notify, with
      the switch on. */
  ghost predicate CausesPush(s0: State, h: seq<Input>, i: Input, x: Message) {
    && i.Msg? && i.m.sensorData == "on" && UserAt(s0, h).push
    && (|| (FromCamera(s0, i, "sensorData") && i.m.sensorLabel == "motionDetector"
            && var c := s0.cameras[i.m.deviceId];
               x == EmptyMessage.(deviceType := "camera", deviceTableId := c.tableId, userId := c.userId,
                                  title := c.title, content := "Обнаружено движение"))
        || (FromSensor(s0, i) && s0.sensors[i.m.deviceId].inner[GetLabel(i.m.sensorLabel)].notify
            && var p := s0.sensors[i.m.deviceId];
               x == EmptyMessage.(deviceType := "sensor", deviceTableId := p.tableId, userId := p.userId,
                                  title := p.title, content := p.inner[GetLabel(i.m.sensorLabel)].desc)))
  }

  /** What input `i` must be for task `t` to be started by it after history `h`. */
  ghost predicate Causes(s0: State, h: seq<Input>, i: Input, t: Task) {
    match t
    case UpdateCameraState(before, after) =>
      FromCamera(s0, i, "deviceState") && before == i.m && Rewritten(s0, h, i.m, after)
    case Record(x) => CausesRecord(s0, h, i, x)
    case StoreInflux(x) =>
      || (FromCamera(s0, i, "sensorData") && x == if Detects(s0, i.m) then i.m.(recording := i.m.sensorData) else i.m)
      || (FromSensor(s0, i) && s0.sensors[i.m.deviceId].inner[GetLabel(i.m.sensorLabel)].influx
          && x == i.m.(deviceTableId := s0.sensors[i.m.deviceId].tableId))
    case StoreMySql(x) => FromSensor(s0, i) && x == i.m.(deviceTableId := s0.sensors[i.m.deviceId].tableId)
    case SendPush(x) => CausesPush(s0, h, i, x)
    case UpdateGatewayStatus(x) => !s0.user.blocked && i == Msg(x) && x.messageType == "status"
    case StorePreview(x) => !s0.user.blocked && i == Msg(x) && x.messageType == "preview"
    case UpdateStreaming(x) =>
      !s0.user.blocked && i == Msg(x) && x.messageType == "cloudStreaming" && x.deviceType == "camera"
  }

  // ----- The state after a history, as far as one device is concerned

  /** `s` is what the history makes of `s0`, for device `d`. */
  ghost predicate Reflects(s0: State, h: seq<Input>, s: State, d: string) {
    && s.user == UserAt(s0, h) && s.user.blocked == s0.user.blocked
    && s.sensors == s0.sensors && s.cameras.Keys == s0.cameras.Keys
    && (d in s0.cameras ==>
          && SameSetup(s0.cameras[d], s.cameras[d]) && s.cameras[d].motionInProcess == MotionAt(s0, h, d)
          && forall ip, app :: ServerIs(s0, h, d, ip, app) <==>
                                 ip == s.cameras[d].target.ip && app == s.cameras[d].target.application)
  }

  lemma ServerIsStored(s0: State, h: seq<Input>, d: string, ip: string, app: string)
    requires d in s0.cameras
    ensures d in Final(s0, h).cameras
    ensures var target := Final(s0, h).cameras[d].target;
            ServerIs(s0, h, d, ip, app) <==> ip == target.ip && app == target.application
  {
    TargetRefinement(s0, h, d);
    if k: nat :| LastEvent(s0, h, d, k) {
      forall j: nat | LastEvent(s0, h, d, j) ensures j == k {
        LastEventUnique(s0, h, d, j, k);
      }
    }
  }

  lemma FinalReflects(s0: State, h: seq<Input>, d: string)
    ensures Reflects(s0, h, Final(s0, h), d)
  {
    UserRefinement(s0, h);
    Constants(s0, h);
    if d in s0.cameras {
      assert SameSetup(s0.cameras[d], Final(s0, h).cameras[d]);
      MotionRefinement(s0, h, d);
      forall ip, app
        ensures ServerIs(s0, h, d, ip, app) <==>
                  ip == Final(s0, h).cameras[d].target.ip && app == Final(s0, h).cameras[d].target.application
      {
        ServerIsStored(s0, h, d, ip, app);
      }
    }
  }

  // ----- Handler by handler

  lemma StateCauses(s0: State, h: seq<Input>, s: State, m: Message, t: Task)
    requires Reflects(s0, h, s, m.deviceId) && !s0.user.blocked
    requires m.messageType == "deviceState" && m.deviceType == "camera"
    ensures t in CameraState(s, m).tasks <==> Causes(s0, h, Msg(m), t)
  {
  }

  lemma DataCauses(s0: State, h: seq<Input>, s: State, m: Message, t: Task)
    requires Reflects(s0, h, s, m.deviceId) && !s0.user.blocked
    requires m.messageType == "sensorData" && m.deviceType == "camera"
    ensures t in CameraData(s, m).tasks <==> Causes(s0, h, Msg(m), t)
  {
  }

  /** The tasks of a command, by its causes. */
  lemma CommandCases(s0: State, h: seq<Input>, s: State, m: Message)
    requires Reflects(s0, h, s, m.deviceId) && IsTariffCommand(s0, Msg(m))
    ensures !(CommandStarts(s0, h, m) && CommandStops(s0, h, m))
    ensures CameraCommand(s, m).tasks
            == if CommandStarts(s0, h, m) then [Record(ToMessage(s.cameras[m.deviceId], true))]
               else if CommandStops(s0, h, m) then [Record(ToMessage(s.cameras[m.deviceId], false))]
               else []
  {
  }

  lemma OrderIs(s0: State, h: seq<Input>, s: State, d: string, x: Message)
    requires Reflects(s0, h, s, d) && d in s0.cameras
    ensures IsOrder(s0, h, d, x) && x.recording == "on" <==> x == ToMessage(s.cameras[d], true)
    ensures IsOrder(s0, h, d, x) && x.recording == "off" <==> x == ToMessage(s.cameras[d], false)
  {
  }

  lemma CommandCauses(s0: State, h: seq<Input>, s: State, m: Message, t: Task)
    requires Reflects(s0, h, s, m.deviceId) && !s0.user.blocked && m.messageType == "command"
    ensures t in CameraCommand(s, m).tasks <==> Causes(s0, h, Msg(m), t)
  {
    if IsTariffCommand(s0, Msg(m)) {
      CommandCases(s0, h, s, m);
      if t.Record? {
        OrderIs(s0, h, s, m.deviceId, t.message);
      }
    }
  }

  lemma SensorCauses(s0: State, h: seq<Input>, s: State, m: Message, t: Task)
    requires Reflects(s0, h, s, m.deviceId) && !s0.user.blocked
    requires m.messageType == "sensorData" && m.deviceType == "sensor"
    ensures t in SensorData(s, m).tasks <==> Causes(s0, h, Msg(m), t)
  {
  }

  // ----- Main results

  /** In every history, an input starts exactly the tasks it is a cause of. */
  lemma TasksHaveCauses(s0: State, h: seq<Input>, k: nat, t: Task)
    requires k < |h|
    ensures t in TasksAt(s0, h, k) <==> Causes(s0, h[..k], h[k], t)
  {
    var g, i := h[..k], h[k];
    if i.Msg? {
      var m := i.m;
      var s := Final(s0, g);
      FinalReflects(s0, g, m.deviceId);
      if s0.user.blocked {
      } else if m.messageType == "deviceState" && m.deviceType == "camera" {
        StateCauses(s0, g, s, m, t);
      } else if m.messageType == "sensorData" && m.deviceType == "camera" {
        DataCauses(s0, g, s, m, t);
      } else if m.messageType == "sensorData" && m.deviceType == "sensor" {
        SensorCauses(s0, g, s, m, t);
      } else if m.messageType == "command" {
        CommandCauses(s0, g, s, m, t);
      }
    }
  }

  predicate SameKind(t: Task, u: Task) {
    (t.UpdateCameraState? && u.UpdateCameraState?) || (t.Record? && u.Record?) || (t.StoreInflux? && u.StoreInflux?)
    || (t.StoreMySql? && u.StoreMySql?) || (t.SendPush? && u.SendPush?)
    || (t.UpdateGatewayStatus? && u.UpdateGatewayStatus?) || (t.StorePreview? && u.StorePreview?)
    || (t.UpdateStreaming? && u.UpdateStreaming?)
  }

  predicate OneOfEach(ts: seq<Task>) {
    && (forall i, j | 0 <= i < j < |ts| :: !SameKind(ts[i], ts[j]))
    && (forall j | 0 < j < |ts| :: !ts[j].UpdateCameraState?)
  }

  lemma StateOnce(s: State, m: Message)
    ensures OneOfEach(CameraState(s, m).tasks)
  {
  }

  lemma DataOnce(s: State, m: Message)
    ensures OneOfEach(CameraData(s, m).tasks)
  {
  }

  lemma SensorOnce(s: State, m: Message)
    ensures OneOfEach(SensorData(s, m).tasks)
  {
  }

  lemma CommandOnce(s: State, m: Message)
    ensures OneOfEach(CameraCommand(s, m).tasks)
  {
  }

  /** And each kind of task at most once, the update of the camera's row before the recording task. */
  lemma EachKindOnce(s0: State, h: seq<Input>, k: nat)
    requires k < |h|
    ensures var ts := TasksAt(s0, h, k);
            && (forall i, j | 0 <= i < j < |ts| :: !SameKind(ts[i], ts[j]))
            && (forall j | 0 < j < |ts| :: !ts[j].UpdateCameraState?)
  {
    if h[k].Msg? {
      var s, m := Final(s0, h[..k]), h[k].m;
      if m.messageType == "deviceState" {
        StateOnce(s, m);
      } else if m.messageType == "sensorData" {
        DataOnce(s, m);
        SensorOnce(s, m);
      } else if m.messageType == "command" {
        CommandOnce(s, m);
      }
    }
  }

  /** Every state message of a loaded camera starts exactly one update of the camera's row, first and on the
      message as it came; nothing else starts one.  It starts a recording task besides exactly if it switches
      the recording of a camera being recorded: an accepted streamingOn on the message's own server. */
  lemma StateMessageTasks(s0: State, h: seq<Input>, k: nat)
    requires k < |h|
    ensures var ts, i := TasksAt(s0, h, k), h[k];
            if FromCamera(s0, i, "deviceState") then
              && 1 <= |ts| <= 2 && ts[0].UpdateCameraState? && ts[0].before == i.m
              && Rewritten(s0, h[..k], i.m, ts[0].after)
              && (|ts| == 2 <==> SwitchesRecording(s0, h[..k], i.m))
              && (|ts| == 2 ==> ts[1] == Record(ts[0].after) && (IsStart(ts[1]) <==> i.m.deviceState == "streamingOn"))
            else forall t <- ts :: !t.UpdateCameraState?
  {
    var ts, i := TasksAt(s0, h, k), h[k];
    if i.Msg? {
      FinalReflects(s0, h[..k], i.m.deviceId);
    }
    if FromCamera(s0, i, "deviceState") {
      TasksHaveCauses(s0, h, k, ts[0]);
    } else if t :| t in ts && t.UpdateCameraState? {
      TasksHaveCauses(s0, h, k, t);
    }
  }

  /** A setRecording command of a loaded camera starts a recording exactly if it moves the camera from motion
      to continuous recording or the user out of the online tariff, for a user who may record; it stops one
      exactly if it moves the camera from continuous to motion recording or the user down to the online
      tariff; and what it starts or stops is that camera, on the server its stream is on. */
  lemma CommandTasksIff(s0: State, h: seq<Input>, k: nat)
    requires k < |h| && IsTariffCommand(s0, h[k])
    ensures var ts, m := TasksAt(s0, h, k), h[k].m;
            && ((exists t <- ts :: IsStart(t)) <==> CommandStarts(s0, h[..k], m))
            && ((exists t <- ts :: IsStop(t)) <==> CommandStops(s0, h[..k], m))
            && |ts| == (if CommandStarts(s0, h[..k], m) then 1 else 0) + (if CommandStops(s0, h[..k], m) then 1 else 0)
            && forall t <- ts :: t.Record? && IsOrder(s0, h[..k], m.deviceId, t.message)
  {
    var s, m := Final(s0, h[..k]), h[k].m;
    FinalReflects(s0, h[..k], m.deviceId);
    CommandCases(s0, h[..k], s, m);
    var ts := TasksAt(s0, h, k);
    assert ts == CameraCommand(s, m).tasks;
    if |ts| == 1 {
      assert ts[0] in ts && forall t <- ts :: t == ts[0];
      OrderIs(s0, h[..k], s, m.deviceId, ts[0].message);
    }
  }

  /** Which messages fail: a camera or sensor that is not loaded, a label its sensor does not have, an
      unknown state of a loaded camera.  Nothing else does, and a blocked user's messages never do. */
  lemma ErrorsIff(s0: State, h: seq<Input>, k: nat)
    requires k < |h|
    ensures var e, i := Step(Final(s0, h[..k]), h[k]).error, h[k];
            var live := i.Msg? && !s0.user.blocked;
            && (e == Some(NoCamera) <==>
                  live && i.m.deviceId !in s0.cameras
                  && (i.m.messageType == "command"
                      || (i.m.deviceType == "camera" && i.m.messageType in {"sensorData", "deviceState"})))
            && (e == Some(WrongDeviceState) <==>
                  FromCamera(s0, i, "deviceState")
                  && i.m.deviceState !in {"on", "off", "streamingOn", "streamingOff"})
            && (e == Some(NoSensor) <==>
                  live && i.m.messageType == "sensorData" && i.m.deviceType == "sensor" && i.m.deviceId !in s0.sensors)
            && (e == Some(NoInner) <==>
                  live && i.m.messageType == "sensorData" && i.m.deviceType == "sensor" && i.m.deviceId in s0.sensors
                  && GetLabel(i.m.sensorLabel) !in s0.sensors[i.m.deviceId].inner)
  {
    if h[k].Msg? {
      FinalReflects(s0, h[..k], h[k].m.deviceId);
    }
  }
}
