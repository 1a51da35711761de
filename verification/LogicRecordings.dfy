/**
 Recording tasks over whole runs: starts and stops pair up, starts are covered by the
 tariff, and stops caused by a downgrade are paid for by an earlier upgrade.
 */
module LogicRecordings {
  import opened DeviceLogic
  import opened LogicHistory

  // ----- Start/stop pairing

  /** The streaming events of camera `d`, in order: true for an accepted streamingOn, false for a streamingOff. */
  function Events(s0: State, h: seq<Input>, d: string): seq<bool> {
    if h == [] then []
    else
      Events(s0, h[..|h| - 1], d)
      + (if AcceptedOn(s0, h, d, |h| - 1) then [true] else if Off(s0, h, d, |h| - 1) then [false] else [])
  }

  predicate Alternating(events: seq<bool>) {
    forall i | 0 <= i < |events| :: events[i] == (i % 2 == 0)
  }

  predicate IsCameraState(i: Input, d: string) {
    i.Msg? && i.m.messageType == "deviceState" && i.m.deviceType == "camera" && i.m.deviceId == d
  }

  /** The recording tasks that the state messages of camera `d` started, in order. */
  function StateRecords(s0: State, h: seq<Input>, d: string): seq<Task> {
    if h == [] then []
    else
      StateRecords(s0, h[..|h| - 1], d) + NewRecords(Final(s0, h[..|h| - 1]), h[|h| - 1], d)
  }

  predicate SameServer(t: Task, u: Task)
    requires t.Record? && u.Record?
  {
    t.message.mediaserverIp == u.message.mediaserverIp && t.message.applicationName == u.message.applicationName
  }

  /** A start, a stop of the same stream on the same server, a start, and so on. */
  predicate Paired(r: seq<Task>, d: string) {
    && (forall i | 0 <= i < |r| :: r[i].Record? && r[i].message.deviceId == d && (IsStart(r[i]) <==> i % 2 == 0))
    && (forall i | 0 < i < |r| :: i % 2 == 1 ==> SameServer(r[i - 1], r[i]))
  }

  lemma StateRecordStep(s: State, i: Input, d: string)
    requires d in s.cameras && s.cameras[d].mode == Continuous && IsCameraState(i, d)
    ensures var r := Records(Step(s, i).tasks);
            if IsStateMessage(s, i, d, "streamingOn") && CanBeRecorded(s.user) then
              r == [Record(i.m.(recording := "on"))]
            else if IsStateMessage(s, i, d, "streamingOff") then
              r == [Record(i.m.(recording := "off", mediaserverIp := s.cameras[d].target.ip,
                                applicationName := s.cameras[d].target.application))]
            else r == []
  {
    var ts := Step(s, i).tasks;
    if |ts| == 2 {
      assert ts == [ts[0], ts[1]];
      RecordsOfTwo(ts[0], ts[1]);
    } else if |ts| == 1 {
      assert ts == [ts[0]];
    }
  }

  lemma EventsStep(s0: State, h: seq<Input>, d: string)
    requires h != [] && Alternating(Events(s0, h, d))
    ensures var front := Events(s0, h[..|h| - 1], d);
            && Alternating(front)
            && (AcceptedOn(s0, h, d, |h| - 1) ==> |front| % 2 == 0)
            && (Off(s0, h, d, |h| - 1) ==> |front| % 2 == 1)
  {
    var front := Events(s0, h[..|h| - 1], d);
    var all := Events(s0, h, d);
    assert forall k | 0 <= k < |front| :: all[k] == front[k];
    if AcceptedOn(s0, h, d, |h| - 1) || Off(s0, h, d, |h| - 1) {
      assert |all| == |front| + 1 && all[|front|] == AcceptedOn(s0, h, d, |h| - 1);
    }
  }

  lemma PairedSnoc(r: seq<Task>, t: Task, d: string)
    requires Paired(r, d) && t.Record? && t.message.deviceId == d && (IsStart(t) <==> |r| % 2 == 0)
    requires |r| % 2 == 1 ==> SameServer(r[|r| - 1], t)
    ensures Paired(r + [t], d)
  {
  }

  /** The recordings so far are paired, and the stored target is that of an open start, if any. */
  predicate PairedUpTo(r: seq<Task>, target: Target, d: string) {
    && Paired(r, d)
    && target == if |r| % 2 == 1
                 then Target(true, r[|r| - 1].message.mediaserverIp, r[|r| - 1].message.applicationName)
                 else NoTarget
  }

  function NewRecords(s: State, i: Input, d: string): seq<Task> {
    if IsCameraState(i, d) then Records(Step(s, i).tasks) else []
  }

  lemma PairStep(s: State, i: Input, d: string, r: seq<Task>)
    requires d in s.cameras && s.cameras[d].mode == Continuous && PairedUpTo(r, s.cameras[d].target, d)
    requires IsStateMessage(s, i, d, "streamingOn") && CanBeRecorded(s.user) ==> |r| % 2 == 0
    requires IsStateMessage(s, i, d, "streamingOff") ==> |r| % 2 == 1
    ensures d in Step(s, i).state.cameras
    ensures PairedUpTo(r + NewRecords(s, i, d), Step(s, i).state.cameras[d].target, d)
    ensures |NewRecords(s, i, d)| == if (IsStateMessage(s, i, d, "streamingOn") && CanBeRecorded(s.user))
                                        || IsStateMessage(s, i, d, "streamingOff") then 1 else 0
  {
    TargetStep(s, i, d);
    if IsCameraState(i, d) {
      StateRecordStep(s, i, d);
    }
    var more := NewRecords(s, i, d);
    if more == [] {
      assert r + more == r;
    } else {
      PairedSnoc(r, more[0], d);
      assert more == [more[0]];
    }
  }

  /** For a continuously recorded camera, every accepted streamingOn and every streamingOff yields
      one recording task; when they alternate, these are start/stop pairs on one server each. */
  lemma {:induction false} StartsAndStopsPair(s0: State, h: seq<Input>, d: string)
    requires Loaded(s0) && d in s0.cameras && s0.cameras[d].mode == Continuous
    requires Alternating(Events(s0, h, d))
    ensures |StateRecords(s0, h, d)| == |Events(s0, h, d)| && Paired(StateRecords(s0, h, d), d)
    ensures d in Final(s0, h).cameras && PairedUpTo(StateRecords(s0, h, d), Final(s0, h).cameras[d].target, d)
    decreases |h|
  {
    if h != [] {
      var n := |h| - 1;
      var front := h[..n];
      EventsStep(s0, h, d);
      StartsAndStopsPair(s0, front, d);
      UserRefinement(s0, front);
      Constants(s0, front);
      assert SameSetup(s0.cameras[d], Final(s0, front).cameras[d]);
      PairStep(Final(s0, front), h[n], d, StateRecords(s0, front, d));
    }
  }

  // ----- Tariff gating

  predicate IsMotionReport(i: Input, d: string) {
    && i.Msg? && i.m.messageType == "sensorData" && i.m.deviceType == "camera" && i.m.deviceId == d
    && i.m.sensorLabel == "motionDetector" && i.m.sensorData == "on"
  }

  lemma StateStart(s: State, m: Message, t: Task)
    requires t in CameraState(s, m).tasks && IsStart(t)
    ensures t.message.deviceId == m.deviceId && m.deviceId in s.cameras && CanBeRecorded(s.user)
            && CameraState(s, m).state.user == s.user
  {
  }

  lemma DataStart(s: State, m: Message, t: Task)
    requires t in CameraData(s, m).tasks && IsStart(t)
    ensures t.message.deviceId == m.deviceId && m.deviceId in s.cameras && s.cameras[m.deviceId].mode == Motion
    ensures m.sensorLabel == "motionDetector" && m.sensorData == "on"
  {
  }

  lemma CommandStart(s: State, m: Message, t: Task)
    requires t in CameraCommand(s, m).tasks && IsStart(t)
    ensures m.deviceId in s.cameras && t.message.deviceId == s.cameras[m.deviceId].deviceId
    ensures CanBeRecorded(CameraCommand(s, m).state.user)
  {
  }

  lemma SensorNeverStarts(s: State, m: Message, t: Task)
    requires t in SensorData(s, m).tasks
    ensures !t.Record?
  {
  }

  /** What one input can start: a recording the user may have, or motion seen by a motion-mode camera. */
  lemma StartStep(s: State, i: Input, t: Task)
    requires forall d <- s.cameras :: s.cameras[d].deviceId == d
    requires t in Step(s, i).tasks && IsStart(t)
    ensures var d := t.message.deviceId;
            && d in s.cameras
            && (CanBeRecorded(Step(s, i).state.user) || (s.cameras[d].mode == Motion && IsMotionReport(i, d)))
  {
    var m := i.m;
    if m.messageType == "deviceState" {
      StateStart(s, m, t);
    } else if m.messageType == "command" {
      CommandStart(s, m, t);
    } else if m.messageType == "sensorData" && m.deviceType == "camera" {
      DataStart(s, m, t);
    } else if m.messageType == "sensorData" && m.deviceType == "sensor" {
      SensorNeverStarts(s, m, t);
    }
  }

  /** Every start-recording task, at any point of any run, is emitted while the tariff allows it; the
      only other cause is a motion report of a camera loaded in motion mode. */
  lemma StartsAreCovered(s0: State, h: seq<Input>, k: nat, t: Task)
    requires Loaded(s0) && k < |h|
    requires t in TasksAt(s0, h, k) && IsStart(t)
    ensures var d := t.message.deviceId;
            && d in s0.cameras
            && (Recordable(UserAt(s0, h[..k + 1])) || (s0.cameras[d].mode == Motion && IsMotionReport(h[k], d)))
  {
    var s := Final(s0, h[..k]);
    Constants(s0, h[..k]);
    forall d | d in s.cameras ensures s.cameras[d].deviceId == d {
      assert SameSetup(s0.cameras[d], s.cameras[d]);
    }
    StartStep(s, h[k], t);
    UserRefinement(s0, h[..k + 1]);
    assert h[..k + 1][..k] == h[..k];
    assert SameSetup(s0.cameras[t.message.deviceId], s.cameras[t.message.deviceId]);
  }

  // ----- Push notifications

  /** A push notification goes out only while the push switch is on, for a report of "on", and names
      the loaded device that sent it. */
  lemma PushesFollowTheSwitch(s0: State, h: seq<Input>, k: nat, t: Task)
    requires k < |h| && t in TasksAt(s0, h, k) && t.SendPush?
    ensures UserAt(s0, h[..k]).push && h[k].Msg? && h[k].m.messageType == "sensorData" && h[k].m.sensorData == "on"
    ensures var d := h[k].m.deviceId;
            if t.message.deviceType == "camera"
            then d in s0.cameras && t.message.deviceTableId == s0.cameras[d].tableId
                 && t.message.userId == s0.cameras[d].userId
                 && h[k].m.sensorLabel == "motionDetector"
            else t.message.deviceType == "sensor"
                 && d in s0.sensors && t.message.deviceTableId == s0.sensors[d].tableId
                 && t.message.userId == s0.sensors[d].userId
                 && GetLabel(h[k].m.sensorLabel) in s0.sensors[d].inner
                 && s0.sensors[d].inner[GetLabel(h[k].m.sensorLabel)].notify
  {
    var s := Final(s0, h[..k]);
    UserRefinement(s0, h[..k]);
    Constants(s0, h[..k]);
    PushStep(s, h[k].m, t);
    if h[k].m.deviceId in s0.cameras {
      assert SameSetup(s0.cameras[h[k].m.deviceId], s.cameras[h[k].m.deviceId]);
    }
  }

  lemma PushStep(s: State, m: Message, t: Task)
    requires t in Process(s, m).tasks && t.SendPush?
    ensures s.user.push && m.messageType == "sensorData" && m.sensorData == "on"
    ensures (m.deviceType == "camera" && t in CameraData(s, m).tasks)
            || (m.deviceType == "sensor" && t in SensorData(s, m).tasks)
  {
  }

  /** No input unblocks a user: a blocked user's gateway never starts a task. */
  lemma {:induction false} BlockedIsSilent(s0: State, h: seq<Input>)
    requires s0.user.blocked
    ensures Log(s0, h) == [] && Final(s0, h).cameras == s0.cameras
    decreases |h|
  {
    if h != [] {
      BlockedIsSilent(s0, h[..|h| - 1]);
      Constants(s0, h[..|h| - 1]);
    }
  }

  // ----- Downgrades

  /** A command that names the camera's own mode: only its tariff can change anything. */
  predicate IsTariffOnly(s: State, i: Input) {
    IsTariffCommand(s, i) && Names(i.m.attribute, s.cameras[i.m.deviceId].mode)
  }

  function Stops(ts: seq<Task>): nat {
    if ts == [] then 0 else (if IsStop(ts[0]) then 1 else 0) + Stops(ts[1..])
  }

  /** The stops emitted by tariff-only commands, of all cameras. */
  function DowngradeStops(s0: State, h: seq<Input>): nat {
    if h == [] then 0
    else
      var s := Final(s0, h[..|h| - 1]);
      DowngradeStops(s0, h[..|h| - 1])
        + if IsTariffOnly(s, h[|h| - 1]) then Stops(Step(s, h[|h| - 1]).tasks) else 0
  }

  /** The commands that raised the tariff above online. */
  function Raises(s0: State, h: seq<Input>): nat {
    if h == [] then 0
    else
      Raises(s0, h[..|h| - 1])
        + if IsTariffCommand(s0, h[|h| - 1]) && h[|h| - 1].m.tariffId > 1
             && UserAt(s0, h[..|h| - 1]).tarifId <= 1 then 1 else 0
  }

  function Above(u: User): nat { if u.tarifId > 1 then 1 else 0 }

  /** A command emits at most one recording task and nothing else; a tariff-only one stops a
      recording exactly when it lowers the tariff from above online to online. */
  lemma CommandStep(s: State, i: Input)
    requires IsTariffCommand(s, i)
    ensures var ts := Step(s, i).tasks;
            && |ts| <= 1 && (forall t <- ts :: t.Record? && t.message.deviceId == s.cameras[i.m.deviceId].deviceId)
            && (IsTariffOnly(s, i) ==> Stops(ts) == if s.user.tarifId > 1 && i.m.tariffId == 1 then 1 else 0)
  {
    var ts := Step(s, i).tasks;
    if |ts| == 1 {
      assert ts == [ts[0]] && ts[1..] == [];
    }
  }

  /** Over any run and all cameras of a gateway: at most one downgrade stop for each raise above
      online, and one more if the user started above online. */
  lemma {:induction false} DowngradeStopsAreBounded(s0: State, h: seq<Input>)
    ensures DowngradeStops(s0, h) + Above(UserAt(s0, h)) <= Raises(s0, h) + Above(s0.user)
    decreases |h|
  {
    if h != [] {
      var front, i := h[..|h| - 1], h[|h| - 1];
      var s := Final(s0, front);
      DowngradeStopsAreBounded(s0, front);
      UserRefinement(s0, front);
      Constants(s0, front);
      if IsTariffOnly(s, i) {
        CommandStep(s, i);
      }
    }
  }
}
