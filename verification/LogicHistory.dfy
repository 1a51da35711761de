/**
 What holds of every sequence of messages the gateway logic can receive.  The right-hand
 sides are computed from the history alone: which tariff command was last, which streaming
 event was last, and so on - never by running the handlers.
 */
module LogicHistory {
  import opened DeviceLogic

  // ----- Reading a history

  /** A setRecording command for a loaded camera: the only input that changes the tariff. */
  predicate IsTariffCommand(s0: State, i: Input) {
    !s0.user.blocked && i.Msg? && i.m.messageType == "command" && i.m.command == "setRecording"
    && i.m.deviceId in s0.cameras
  }

  /** Whether the tariff, money and status of a user allow recording, read off the record. */
  predicate Recordable(u: User) {
    u.vip || u.legalEntity || (u.tarifId >= 2 && u.money >= 1)
  }

  /** The same of the four fields a command carries. */
  predicate AllowsRecording(m: Message) {
    m.vip || m.legalEntity || (m.tariffId >= 2 && m.money >= 1)
  }

  /** The text that stands for a recording mode; any other text stands for no recording. */
  predicate Names(text: string, mode: RecordingMode) {
    match mode
    case Continuous => text == "continuous"
    case Motion => text == "motion"
    case Schedule => text == "schedule"
    case NoRecord => text != "continuous" && text != "motion" && text != "schedule"
  }

  /** The user record, folded from the history. */
  function UserAt(s0: State, h: seq<Input>): User {
    if h == [] then s0.user
    else
      var u := UserAt(s0, h[..|h| - 1]);
      var i := h[|h| - 1];
      if i.SetPush? then u.(push := i.on)
      else if IsTariffCommand(s0, i) then
        User(i.m.tariffId, i.m.money, i.m.vip, i.m.legalEntity, u.blocked, u.push)
      else u
  }

  predicate IsStateMessage(s0: State, i: Input, d: string, deviceState: string) {
    !s0.user.blocked && i.Msg? && i.m.messageType == "deviceState" && i.m.deviceType == "camera"
    && i.m.deviceId == d && i.m.deviceState == deviceState
  }

  /** The k-th input is a streamingOn of camera `d` that the tariff in force lets through. */
  predicate AcceptedOn(s0: State, h: seq<Input>, d: string, k: nat)
    requires k < |h|
  {
    IsStateMessage(s0, h[k], d, "streamingOn") && Recordable(UserAt(s0, h[..k]))
  }

  predicate Off(s0: State, h: seq<Input>, d: string, k: nat)
    requires k < |h|
  {
    IsStateMessage(s0, h[k], d, "streamingOff")
  }

  /** The k-th input is the last streaming event of camera `d` in the history. */
  predicate LastEvent(s0: State, h: seq<Input>, d: string, k: nat) {
    && k < |h| && (AcceptedOn(s0, h, d, k) || Off(s0, h, d, k))
    && forall j | k < j < |h| :: !AcceptedOn(s0, h, d, j) && !Off(s0, h, d, j)
  }

  // ----- What no input changes

  /** The two cameras differ at most in their target and motion flag. */
  predicate SameSetup(c: Camera, c': Camera) {
    c'.tableId == c.tableId && c'.userId == c.userId && c'.deviceId == c.deviceId && c'.title == c.title
    && c'.mode == c.mode && c'.schedule == c.schedule
  }

  predicate SameSetups(s: State, t: State) {
    && t.cameras.Keys == s.cameras.Keys && t.sensors == s.sensors && t.user.blocked == s.user.blocked
    && forall d <- s.cameras :: SameSetup(s.cameras[d], t.cameras[d])
  }

  lemma ConstantsStep(s: State, i: Input)
    ensures SameSetups(s, Step(s, i).state)
  {
  }

  lemma {:induction false} Constants(s0: State, h: seq<Input>)
    ensures SameSetups(s0, Final(s0, h))
    decreases |h|
  {
    if h != [] {
      var s := Final(s0, h[..|h| - 1]);
      Constants(s0, h[..|h| - 1]);
      ConstantsStep(s, h[|h| - 1]);
      forall d | d in s0.cameras ensures SameSetup(s0.cameras[d], Final(s0, h).cameras[d]) {
        assert SameSetup(s0.cameras[d], s.cameras[d]);
      }
    }
  }

  /** A setRecording command does not store the mode it names: every camera keeps the mode it was loaded with. */
  lemma {:induction false} RecordingModeNeverChanges(s0: State, h: seq<Input>, d: string)
    requires d in s0.cameras
    ensures d in Final(s0, h).cameras && Final(s0, h).cameras[d].mode == s0.cameras[d].mode
  {
    Constants(s0, h);
    assert SameSetup(s0.cameras[d], Final(s0, h).cameras[d]);
  }

  lemma UserStep(s: State, i: Input)
    ensures Step(s, i).state.user
            == if i.SetPush? then s.user.(push := i.on)
               else if IsTariffCommand(s, i) then NewTariff(s.user, i.m)
               else s.user
  {
  }

  /** The user record the logic holds is the one folded from the history. */
  lemma {:induction false} UserRefinement(s0: State, h: seq<Input>)
    ensures Final(s0, h).user == UserAt(s0, h)
    decreases |h|
  {
    if h != [] {
      UserRefinement(s0, h[..|h| - 1]);
      Constants(s0, h[..|h| - 1]);
      UserStep(Final(s0, h[..|h| - 1]), h[|h| - 1]);
    }
  }

  // ----- Media-server state

  lemma TargetStep(s: State, i: Input, d: string)
    requires d in s.cameras
    ensures d in Step(s, i).state.cameras
    ensures Step(s, i).state.cameras[d].target
            == if IsStateMessage(s, i, d, "streamingOn") && CanBeRecorded(s.user)
               then Target(true, i.m.mediaserverIp, i.m.applicationName)
               else if IsStateMessage(s, i, d, "streamingOff") then NoTarget
               else s.cameras[d].target
  {
  }

  lemma LastEventKept(s0: State, h: seq<Input>, d: string, k: nat)
    requires h != [] && !AcceptedOn(s0, h, d, |h| - 1) && !Off(s0, h, d, |h| - 1)
    ensures LastEvent(s0, h, d, k) <==> LastEvent(s0, h[..|h| - 1], d, k)
  {
    var front := h[..|h| - 1];
    forall j | 0 <= j < |h| - 1
      ensures AcceptedOn(s0, h, d, j) <==> AcceptedOn(s0, front, d, j)
      ensures Off(s0, h, d, j) <==> Off(s0, front, d, j)
    {
      assert h[..j] == front[..j];
    }
    assert k < |h| - 1 ==> (AcceptedOn(s0, h, d, k) <==> AcceptedOn(s0, front, d, k));
    if LastEvent(s0, h, d, k) {
      forall j | k < j < |front| ensures !AcceptedOn(s0, front, d, j) && !Off(s0, front, d, j) {
        assert !AcceptedOn(s0, h, d, j) && !Off(s0, h, d, j);
      }
    }
  }

  /** The media server stored for a camera is the one its last streaming event named, cleared by a
      streamingOff; without any event it is what was loaded. */
  lemma {:induction false} TargetRefinement(s0: State, h: seq<Input>, d: string)
    requires d in s0.cameras
    ensures d in Final(s0, h).cameras
    ensures (Final(s0, h).cameras[d].target == s0.cameras[d].target && forall k: nat :: !LastEvent(s0, h, d, k))
            || exists k: nat :: LastEvent(s0, h, d, k)
                 && Final(s0, h).cameras[d].target
                    == if Off(s0, h, d, k) then NoTarget else Target(true, h[k].m.mediaserverIp, h[k].m.applicationName)
    decreases |h|
  {
    if h != [] {
      var n := |h| - 1;
      var front := h[..n];
      TargetRefinement(s0, front, d);
      UserRefinement(s0, front);
      Constants(s0, front);
      TargetStep(Final(s0, front), h[n], d);
      if AcceptedOn(s0, h, d, n) || Off(s0, h, d, n) {
        assert LastEvent(s0, h, d, n);
      } else {
        forall k: nat ensures LastEvent(s0, h, d, k) <==> LastEvent(s0, front, d, k) {
          LastEventKept(s0, h, d, k);
        }
      }
    }
  }

  lemma LastEventUnique(s0: State, h: seq<Input>, d: string, j: nat, k: nat)
    requires LastEvent(s0, h, d, j) && LastEvent(s0, h, d, k)
    ensures j == k
  {
  }

  /** Not set means that both strings are empty. */
  lemma {:induction false} UnsetTargetIsEmpty(s0: State, h: seq<Input>, d: string)
    requires Loaded(s0) && d in s0.cameras
    ensures d in Final(s0, h).cameras
    ensures !Final(s0, h).cameras[d].target.isSet ==> Final(s0, h).cameras[d].target == NoTarget
  {
    TargetRefinement(s0, h, d);
  }

  // ----- Motion flag

  /** A motion-detector message of camera `d`. */
  predicate IsDetector(s0: State, i: Input, d: string) {
    !s0.user.blocked && i.Msg? && i.m.messageType == "sensorData" && i.m.deviceType == "camera" && i.m.deviceId == d
    && i.m.sensorLabel == "motionDetector"
  }

  /** Motion in process, read off the history: what the last detector message of a motion-mode camera said. */
  predicate MotionAt(s0: State, h: seq<Input>, d: string)
    requires d in s0.cameras
  {
    if h == [] then s0.cameras[d].motionInProcess
    else if IsDetector(s0, h[|h| - 1], d) && s0.cameras[d].mode == Motion then h[|h| - 1].m.sensorData == "on"
    else MotionAt(s0, h[..|h| - 1], d)
  }

  lemma MotionStep(s: State, i: Input, d: string)
    requires d in s.cameras
    ensures d in Step(s, i).state.cameras
    ensures Step(s, i).state.cameras[d].motionInProcess
            == if IsDetector(s, i, d) && s.cameras[d].mode == Motion then i.m.sensorData == "on"
               else s.cameras[d].motionInProcess
  {
  }

  lemma {:induction false} MotionRefinement(s0: State, h: seq<Input>, d: string)
    requires d in s0.cameras
    ensures d in Final(s0, h).cameras && Final(s0, h).cameras[d].motionInProcess == MotionAt(s0, h, d)
    decreases |h|
  {
    if h != [] {
      var front := h[..|h| - 1];
      MotionRefinement(s0, front, d);
      Constants(s0, front);
      assert SameSetup(s0.cameras[d], Final(s0, front).cameras[d]);
      MotionStep(Final(s0, front), h[|h| - 1], d);
    }
  }

  // ----- Recording tasks of state messages

  function Records(ts: seq<Task>): seq<Task> {
    if ts == [] then []
    else (if ts[0].Record? then [ts[0]] else []) + Records(ts[1..])
  }

  lemma RecordsOfTwo(t: Task, u: Task)
    ensures Records([t, u]) == (if t.Record? then [t] else []) + (if u.Record? then [u] else [])
  {
    assert [t, u][1..] == [u] && [u][1..] == [];
    assert Records([u]) == if u.Record? then [u] else [];
  }

  /** Whether state messages of camera `d` lead to recording tasks, as of the end of the history. */
  predicate RecordsAt(s0: State, h: seq<Input>, d: string)
    requires d in s0.cameras
  {
    s0.cameras[d].mode == Continuous || (s0.cameras[d].mode == Motion && MotionAt(s0, h, d))
  }

  /** A streamingOff leads to one recording task if the camera is being recorded and to none otherwise;
      that one is a stop that addresses the latest accepted streamingOn since the previous
      streamingOff, and nothing if there is none. */
  lemma StopAddressesLatestStart(s0: State, h: seq<Input>, d: string, k: nat)
    requires Loaded(s0) && d in s0.cameras
    requires k < |h| && Off(s0, h, d, k)
    ensures var r := Records(TasksAt(s0, h, k));
            && |r| == (if RecordsAt(s0, h[..k], d) then 1 else 0)
            && forall t <- r ::
                 && IsStop(t) && t.message.deviceId == d
                 && (forall j: nat :: LastEvent(s0, h[..k], d, j) && AcceptedOn(s0, h[..k], d, j) ==>
                       t.message.mediaserverIp == h[j].m.mediaserverIp
                       && t.message.applicationName == h[j].m.applicationName)
                 && ((forall j: nat :: LastEvent(s0, h[..k], d, j) ==> Off(s0, h[..k], d, j)) ==>
                       t.message.mediaserverIp == "" && t.message.applicationName == "")
  {
    var g := h[..k];
    TargetRefinement(s0, g, d);
    Constants(s0, g);
    RecordingModeNeverChanges(s0, g, d);
    MotionRefinement(s0, g, d);
    var s := Final(s0, g);
    var m' := h[k].m.(recording := "off", mediaserverIp := s.cameras[d].target.ip,
                          applicationName := s.cameras[d].target.application);
    var ts := TasksAt(s0, h, k);
    if RecordsAt(s0, g, d) {
      assert ts == [UpdateCameraState(h[k].m, m'), Record(m')];
      RecordsOfTwo(UpdateCameraState(h[k].m, m'), Record(m'));
    } else {
      assert ts == [UpdateCameraState(h[k].m, m')] && ts[1..] == [];
    }
    forall j: nat, i: nat | LastEvent(s0, g, d, j) && LastEvent(s0, g, d, i) ensures i == j {
      LastEventUnique(s0, g, d, i, j);
    }
  }
}
