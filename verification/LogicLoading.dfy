/**
 The loaded parameters in terms of the rows they were loaded from, field by field.
 */
module LogicLoading {
  import opened Wrappers
  import opened DeviceLogic
  import opened GatewayLogics
  import opened LogicHistory

  /** The camera a row describes: its mode is the one the recording column names, none for a null. */
  predicate Describes(r: CameraRow, c: Camera) {
    && c.tableId == r.tableId && c.userId == r.userId && c.deviceId == r.deviceId && c.title == r.title
    && (match r.recording
        case None => c.mode == NoRecord
        case Some(text) => Names(text, c.mode))
    && (match r.schedule
        case None => c.schedule == ""
        case Some(text) => c.schedule == text)
    && !c.target.isSet && c.target.ip == "" && c.target.application == "" && !c.motionInProcess
  }

  /** Each camera is loaded as its last row describes it. */
  lemma CameraAsDescribed(rows: seq<CameraRow>, d: string, k: nat)
    requires LastRow(rows, d, k)
    ensures d in LoadedCameras(rows) && Describes(rows[k], LoadedCameras(rows)[d])
  {
    LoadedFromLastRow(rows, d);
  }

  predicate LastSensorRow(rows: seq<SensorRow>, d: string, k: nat) {
    k < |rows| && rows[k].deviceId == d && forall j | k < j < |rows| :: rows[j].deviceId != d
  }

  predicate LastInnerRow(rows: seq<InnerRow>, key: string, k: nat) {
    k < |rows| && rows[k].sensorType == key && forall j | k < j < |rows| :: rows[j].sensorType != key
  }

  lemma {:induction false} InnerFromLastRow(rows: seq<InnerRow>, key: string)
    ensures key in LoadedInner(rows) <==> exists k: nat :: LastInnerRow(rows, key, k)
    ensures forall k: nat :: LastInnerRow(rows, key, k) ==> LoadedInner(rows)[key] == rows[k].params
    decreases |rows|
  {
    if rows != [] {
      var n := |rows| - 1;
      InnerFromLastRow(rows[..n], key);
      if rows[n].sensorType == key {
        assert LastInnerRow(rows, key, n);
      } else {
        forall k: nat ensures LastInnerRow(rows, key, k) <==> LastInnerRow(rows[..n], key, k) {}
      }
    }
  }

  lemma {:induction false} LoadedFromSensorRow(rows: seq<SensorRow>, d: string)
    ensures d in LoadedSensors(rows) <==> exists k: nat :: LastSensorRow(rows, d, k)
    ensures forall k: nat :: LastSensorRow(rows, d, k) ==> LoadedSensors(rows)[d] == SensorOf(rows[k])
    decreases |rows|
  {
    if rows != [] {
      var n := |rows| - 1;
      LoadedFromSensorRow(rows[..n], d);
      if rows[n].deviceId == d {
        assert LastSensorRow(rows, d, n);
      } else {
        forall k: nat ensures LastSensorRow(rows, d, k) <==> LastSensorRow(rows[..n], d, k) {}
      }
    }
  }

  /** A sensor is loaded exactly when it has a row, from its last one; and has a label exactly when its inner
      query returned one, with the parameters of the last such row. */
  lemma SensorAsDescribed(rows: seq<SensorRow>, d: string, k: nat, name: string)
    requires LastSensorRow(rows, d, k)
    ensures d in LoadedSensors(rows)
    ensures var p := LoadedSensors(rows)[d];
            && p.tableId == rows[k].tableId && p.userId == rows[k].userId && p.title == rows[k].title
            && (name in p.inner <==> exists j: nat :: LastInnerRow(rows[k].inner.rows, name, j))
            && (forall j: nat :: LastInnerRow(rows[k].inner.rows, name, j) ==>
                  p.inner[name] == rows[k].inner.rows[j].params)
  {
    LoadedFromSensorRow(rows, d);
    InnerFromLastRow(rows[k].inner.rows, name);
  }
}
