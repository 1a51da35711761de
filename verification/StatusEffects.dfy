/**
 What one status or camera task leaves in the tables, row by row, and what becomes of a
 camera's state message on its way from the gateway logic into the camera's row.
 */
module StatusEffects {
  import opened Wrappers
  import opened StatusTables
  import Logic = DeviceLogic
  import opened LogicTasks

  /** A status task on its own: the gateway's status, its devices' state, and for an "off" its cameras; a bad
      id or status writes nothing, and no task touches rows of another gateway. */
  lemma StatusTaskWrites(t: Tables, m: StatusMessage)
    ensures var u := ExecAll(t, StatusProgram(m));
            var valid := m.isUuid && m.status in {"on", "off"};
            && SameRows(t, u)
            && (forall g <- t.gateways :: u.gateways[g] == if valid && g == m.gateway then m.status else t.gateways[g])
            && (forall d <- t.devices ::
                  u.devices[d] == if valid && t.devices[d].gateway == m.gateway
                                  then t.devices[d].(state := if m.status == "on" then 1 else 0) else t.devices[d])
            && (forall c <- t.cameras ::
                  u.cameras[c] == if valid && m.status == "off" && t.cameras[c].gateway == m.gateway
                                  then t.cameras[c].(onAir := 0) else t.cameras[c])
  {
    var program := StatusProgram(m);
    RowsStay(t, program);
    if |program| > 0 {
      ExecAllStep(t, program, 0);
      ExecAllStep(t, program, 1);
      if |program| == 3 {
        ExecAllStep(t, program, 2);
      }
      assert program[..|program|] == program;
    }
  }

  lemma ExecAllStep(t: Tables, ss: seq<Statement>, k: nat)
    requires k < |ss|
    ensures ExecAll(t, ss[..k + 1]) == Exec(ExecAll(t, ss[..k]), ss[k])
  {
    assert ss[..k + 1][..k] == ss[..k];
  }

  /** What the camera task writes to its camera's row: on air or not, and for the streaming states the server. */
  predicate RowFollows(row: Camera, oldRow: Camera, m: Logic.Message, n: Logic.Message, r: Reads) {
    && row.gateway == oldRow.gateway
    && row.onAir == (if m.deviceState == "on" || m.deviceState == "streamingOn" then 1 else 0)
    && (if Contains(m.deviceState, "streaming") then
          && row.ip == (if r.ip then n.mediaserverIp else m.mediaserverIp)
          && row.serverIp == (if r.serverIp then n.mediaserverIp else m.mediaserverIp)
          && row.application == (if r.application then n.applicationName else m.applicationName)
        else row.ip == oldRow.ip && row.serverIp == oldRow.serverIp && row.application == oldRow.application)
  }

  lemma CameraTaskWrites(t: Tables, task: Logic.Task, r: Reads)
    requires task.UpdateCameraState?
    ensures var u, m := ExecAll(t, CameraProgram(task, r)), task.before;
            && u.gateways == t.gateways && u.devices == t.devices && u.cameras.Keys == t.cameras.Keys
            && forall c <- t.cameras ::
                 if c == m.deviceId && m.gatewayId != "" && m.deviceId != ""
                 then RowFollows(u.cameras[c], t.cameras[c], m, task.after, r)
                 else u.cameras[c] == t.cameras[c]
  {
    var program := CameraProgram(task, r);
    if program != [] {
      ExecAllStep(t, program, 0);
      assert program[..1] == program;
    }
  }

  /** Of the states a camera reports, exactly the streaming ones contain the word. */
  lemma StreamingStates()
    ensures Contains("streamingOn", "streaming") && Contains("streamingOff", "streaming")
    ensures !Contains("on", "streaming") && !Contains("off", "streaming")
  {
    assert OccursAt("streamingOn", "streaming", 0) && OccursAt("streamingOff", "streaming", 0);
  }

  /** From the message to the row: any state message of a loaded camera with a sender, at any point of any
      history, puts its camera on air exactly for "on" and "streamingOn" and off air otherwise, the tariff
      notwithstanding; a streamingOn writes its own server, "on" and "off" leave the server alone. */
  lemma StateMessageReachesTheRow(s0: Logic.State, h: seq<Logic.Input>, k: nat, t: Tables, r: Reads)
    requires k < |h| && FromCamera(s0, h[k], "deviceState")
    requires h[k].m.gatewayId != "" && h[k].m.deviceId != "" && h[k].m.deviceId in t.cameras
    ensures |Logic.TasksAt(s0, h, k)| > 0 && Logic.TasksAt(s0, h, k)[0].UpdateCameraState?
    ensures var m := h[k].m;
            var u := ExecAll(t, CameraProgram(Logic.TasksAt(s0, h, k)[0], r));
            && m.deviceId in u.cameras
            && (u.cameras[m.deviceId].onAir == 1 <==> m.deviceState in {"on", "streamingOn"})
            && (u.cameras[m.deviceId].onAir == 0 <==> m.deviceState !in {"on", "streamingOn"})
            && (m.deviceState == "streamingOn" ==>
                  u.cameras[m.deviceId].ip == u.cameras[m.deviceId].serverIp == m.mediaserverIp
                  && u.cameras[m.deviceId].application == m.applicationName)
            && (m.deviceState in {"on", "off"} ==>
                  u.cameras[m.deviceId] == t.cameras[m.deviceId].(onAir := u.cameras[m.deviceId].onAir))
  {
    StateMessageTasks(s0, h, k);
    StreamingStates();
    CameraTaskWrites(t, Logic.TasksAt(s0, h, k)[0], r);
  }
}
