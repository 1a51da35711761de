/**
 Each gateway message is handled in a goroutine of its own, so messages of different
 devices can be handled in any order.  With every handler taken as one atomic step,
 this module says when the order cannot be observed.
 */
module LogicInterleaving {
  import opened DeviceLogic
  import opened LogicHistory

  /** No push switch and no tariff command: the shared user record is only read. */
  predicate Quiet(s0: State, h: seq<Input>) {
    forall i <- h :: i.Msg? && !IsTariffCommand(s0, i)
  }

  predicate IsFor(i: Input, d: string) { i.Msg? && i.m.deviceId == d }

  /** The messages of device `d`, in order. */
  function Only(h: seq<Input>, d: string): seq<Input> {
    if h == [] then []
    else Only(h[..|h| - 1], d) + if IsFor(h[|h| - 1], d) then [h[|h| - 1]] else []
  }

  /** Everything started by the messages of device `d`, in order. */
  function LogOf(s0: State, h: seq<Input>, d: string): seq<Task> {
    if h == [] then []
    else
      LogOf(s0, h[..|h| - 1], d)
      + if IsFor(h[|h| - 1], d) then Step(Final(s0, h[..|h| - 1]), h[|h| - 1]).tasks else []
  }

  /** The two states look the same to a message of device `d`. */
  predicate Agree(s: State, t: State, d: string) {
    && s.user == t.user && s.sensors == t.sensors
    && (d in s.cameras <==> d in t.cameras)
    && (d in s.cameras ==> s.cameras[d] == t.cameras[d])
  }

  /** A message reads and writes nothing of another device. */
  lemma StepIsLocal(s: State, m: Message, d: string)
    requires m.deviceId != d && !IsTariffCommand(s, Msg(m))
    ensures Agree(s, Step(s, Msg(m)).state, d)
  {
  }

  lemma StateIsDetermined(s: State, t: State, m: Message)
    requires Agree(s, t, m.deviceId)
    ensures var e, f := CameraState(s, m), CameraState(t, m);
            e.tasks == f.tasks && e.error == f.error && Agree(e.state, f.state, m.deviceId)
  {
  }

  lemma DataIsDetermined(s: State, t: State, m: Message)
    requires Agree(s, t, m.deviceId)
    ensures var e, f := CameraData(s, m), CameraData(t, m);
            e.tasks == f.tasks && e.error == f.error && Agree(e.state, f.state, m.deviceId)
  {
  }

  lemma SensorIsDetermined(s: State, t: State, m: Message)
    requires Agree(s, t, m.deviceId)
    ensures var e, f := SensorData(s, m), SensorData(t, m);
            e.tasks == f.tasks && e.error == f.error && Agree(e.state, f.state, m.deviceId)
  {
  }

  /** A message does the same in two states that look the same to it. */
  lemma StepIsDetermined(s: State, t: State, m: Message)
    requires Agree(s, t, m.deviceId) && !IsTariffCommand(s, Msg(m))
    ensures Step(s, Msg(m)).tasks == Step(t, Msg(m)).tasks && Step(s, Msg(m)).error == Step(t, Msg(m)).error
    ensures Agree(Step(s, Msg(m)).state, Step(t, Msg(m)).state, m.deviceId)
  {
    if m.messageType == "deviceState" {
      StateIsDetermined(s, t, m);
    } else if m.messageType == "sensorData" && m.deviceType == "camera" {
      DataIsDetermined(s, t, m);
    } else if m.messageType == "sensorData" && m.deviceType == "sensor" {
      SensorIsDetermined(s, t, m);
    }
  }

  lemma TariffCommandsAreStable(s0: State, h: seq<Input>, i: Input)
    ensures IsTariffCommand(Final(s0, h), i) == IsTariffCommand(s0, i)
  {
    Constants(s0, h);
  }

  /** What device `d` sees of a quiet run is the run of its own messages. */
  lemma {:induction false} Projection(s0: State, h: seq<Input>, d: string)
    requires Quiet(s0, h)
    ensures Agree(Final(s0, h), Final(s0, Only(h, d)), d)
    ensures LogOf(s0, h, d) == Log(s0, Only(h, d))
    decreases |h|
  {
    if h != [] {
      var front, i := h[..|h| - 1], h[|h| - 1];
      Projection(s0, front, d);
      var s, t := Final(s0, front), Final(s0, Only(front, d));
      TariffCommandsAreStable(s0, front, i);
      assert i in h;
      if IsFor(i, d) {
        StepIsDetermined(s, t, i.m);
        assert Only(h, d)[..|Only(h, d)| - 1] == Only(front, d);
      } else {
        StepIsLocal(s, i.m, d);
        assert Only(h, d) == Only(front, d);
      }
    }
  }

  /** Two interleavings of the same per-device message sequences reach the same state and start the
      same tasks for every device. */
  lemma InterleavingsAgree(s0: State, g: seq<Input>, h: seq<Input>)
    requires Quiet(s0, g) && Quiet(s0, h)
    requires forall d :: Only(g, d) == Only(h, d)
    ensures Final(s0, g) == Final(s0, h)
    ensures forall d :: LogOf(s0, g, d) == LogOf(s0, h, d)
  {
    forall d ensures LogOf(s0, g, d) == LogOf(s0, h, d) && Agree(Final(s0, g), Final(s0, h), d) {
      Projection(s0, g, d);
      Projection(s0, h, d);
      assert Only(g, d) == Only(h, d);
    }
    var s, t := Final(s0, g), Final(s0, h);
    assert Agree(s, t, "");
    Constants(s0, g);
    Constants(s0, h);
    forall d | d in s.cameras ensures s.cameras[d] == t.cameras[d] {
      assert Agree(s, t, d);
    }
    assert s.cameras == t.cameras;
  }

  /** Handled in either order, two messages of different devices leave the same state and start the same tasks. */
  lemma DistinctDevicesCommute(s: State, m: Message, n: Message)
    requires m.deviceId != n.deviceId && Quiet(s, [Msg(m), Msg(n)])
    ensures Step(Step(s, Msg(m)).state, Msg(n)).state == Step(Step(s, Msg(n)).state, Msg(m)).state
    ensures Step(Step(s, Msg(m)).state, Msg(n)).tasks == Step(s, Msg(n)).tasks
    ensures Step(Step(s, Msg(n)).state, Msg(m)).tasks == Step(s, Msg(m)).tasks
  {
    assert Msg(m) in [Msg(m), Msg(n)] && Msg(n) in [Msg(m), Msg(n)];
    var sm, sn := Step(s, Msg(m)).state, Step(s, Msg(n)).state;
    ConstantsStep(s, Msg(m));
    ConstantsStep(s, Msg(n));
    StepIsLocal(s, m, n.deviceId);
    StepIsLocal(s, n, m.deviceId);
    StepIsDetermined(s, sm, n);
    StepIsDetermined(s, sn, m);
    var smn, snm := Step(sm, Msg(n)).state, Step(sn, Msg(m)).state;
    ConstantsStep(sm, Msg(n));
    ConstantsStep(sn, Msg(m));
    StepIsLocal(sm, n, m.deviceId);
    StepIsLocal(sn, m, n.deviceId);
    forall d | d in s.cameras ensures smn.cameras[d] == snm.cameras[d] {
      if d != m.deviceId && d != n.deviceId {
        StepIsLocal(s, m, d);
        StepIsLocal(s, n, d);
        StepIsLocal(sm, n, d);
        StepIsLocal(sn, m, d);
      }
    }
    assert smn.cameras == snm.cameras;
  }

  // ----- A tariff command against a message of another device

  /** The order of the two cannot be observed: same final state, same tasks of each. */
  predicate CommandCommutes(s: State, c: Message, m: Message) {
    && Step(Step(s, Msg(c)).state, Msg(m)).state == Step(Step(s, Msg(m)).state, Msg(c)).state
    && Step(Step(s, Msg(c)).state, Msg(m)).tasks == Step(s, Msg(m)).tasks
    && Step(Step(s, Msg(m)).state, Msg(c)).tasks == Step(s, Msg(c)).tasks
  }

  /** Accepting this streamingOn changes nothing that can be seen: already stored, already marked, not recorded. */
  predicate AcceptanceInvisible(camera: Camera, m: Message) {
    camera.target == Target(true, m.mediaserverIp, m.applicationName) && m.recording == "on" && !RecordsState(camera)
  }

  /** A tariff command commutes with a message of another device unless that message is a streamingOn
      whose acceptance the command decides. */
  lemma CommandCommutesIff(s: State, c: Message, m: Message)
    requires IsTariffCommand(s, Msg(c)) && !IsTariffCommand(s, Msg(m)) && m.deviceId != c.deviceId
    ensures CommandCommutes(s, c, m)
            <==> !(IsStateMessage(s, Msg(m), m.deviceId, "streamingOn") && m.deviceId in s.cameras
                   && Recordable(s.user) != AllowsRecording(c)
                   && !AcceptanceInvisible(s.cameras[m.deviceId], m))
  {
    var u := NewTariff(s.user, c);
    var sc := s.(user := u);
    assert Step(s, Msg(c)).state == sc;
    StepIsLocal(s, m, c.deviceId);
    ConstantsStep(s, Msg(m));
    UserStep(s, Msg(m));
    var sm := Step(s, Msg(m)).state;
    assert Step(sm, Msg(c)).state == sm.(user := u);
    assert Step(sm, Msg(c)).tasks == Step(s, Msg(c)).tasks;
    OtherUser(s, u, m);
  }

  /** How a message's effect depends on the tariff fields of the user record. */
  lemma OtherUser(s: State, u: User, m: Message)
    requires u.blocked == s.user.blocked && u.push == s.user.push && !IsTariffCommand(s, Msg(m))
    ensures var e, f := Step(s, Msg(m)), Step(s.(user := u), Msg(m));
            (f.state == e.state.(user := u) && f.tasks == e.tasks)
            <==> !(IsStateMessage(s, Msg(m), m.deviceId, "streamingOn") && m.deviceId in s.cameras
                   && CanBeRecorded(s.user) != CanBeRecorded(u)
                   && !AcceptanceInvisible(s.cameras[m.deviceId], m))
  {
    if s.user.blocked {
    } else if m.messageType == "deviceState" && m.deviceType == "camera" {
      if m.deviceState == "streamingOn" && m.deviceId in s.cameras && CanBeRecorded(s.user) != CanBeRecorded(u) {
        AcceptanceShows(s, u, m);
      } else {
        StateIgnoresUser(s, u, m);
      }
    } else {
      OthersIgnoreUser(s, u, m);
    }
  }

  lemma StateIgnoresUser(s: State, u: User, m: Message)
    requires m.deviceState != "streamingOn" || m.deviceId !in s.cameras || CanBeRecorded(s.user) == CanBeRecorded(u)
    ensures var e, f := CameraState(s, m), CameraState(s.(user := u), m);
            f.state == e.state.(user := u) && f.tasks == e.tasks
  {
  }

  lemma OthersIgnoreUser(s: State, u: User, m: Message)
    requires u.blocked == s.user.blocked && u.push == s.user.push && !IsTariffCommand(s, Msg(m))
    requires m.messageType != "deviceState" || m.deviceType != "camera"
    ensures var e, f := Step(s, Msg(m)), Step(s.(user := u), Msg(m));
            f.state == e.state.(user := u) && f.tasks == e.tasks
  {
  }

  /** Accepted under one user and refused under the other: what the difference is. */
  lemma AcceptanceShows(s: State, u: User, m: Message)
    requires m.deviceState == "streamingOn" && m.deviceId in s.cameras && CanBeRecorded(s.user) != CanBeRecorded(u)
    ensures var e, f := CameraState(s, m), CameraState(s.(user := u), m);
            (f.state == e.state.(user := u) && f.tasks == e.tasks) <==> AcceptanceInvisible(s.cameras[m.deviceId], m)
  {
    var c := s.cameras[m.deviceId];
    var accepted := if CanBeRecorded(u) then CameraState(s.(user := u), m) else CameraState(s, m);
    var refused := if CanBeRecorded(u) then CameraState(s, m) else CameraState(s.(user := u), m);
    assert refused.tasks == [UpdateCameraState(m, m)];
    assert accepted.tasks[0] == UpdateCameraState(m, m.(recording := "on"));
    assert accepted.tasks == refused.tasks <==> m.recording == "on" && !RecordsState(c);
    assert accepted.state.cameras[m.deviceId] == c.(target := Target(true, m.mediaserverIp, m.applicationName));
    assert refused.state.cameras == s.cameras;
    if c.target == Target(true, m.mediaserverIp, m.applicationName) {
      assert accepted.state.cameras == s.cameras;
    }
  }
}
