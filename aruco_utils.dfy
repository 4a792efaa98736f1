/**
 * Helpers shared by the trackers (aruco_utils.py): the camera parameters with
 * their fallback to the values in config.py, the trajectory record and its
 * CSV columns, and the outcome of saving a trajectory.
 *
 * The detector initialisation and the drawing helpers are foreign OpenCV
 * calls; annotate_marker_frame's one decision is `Common.AnnotateMarkers`.
 */
module ArucoUtils {
  import opened Common

  // ---------------------------------------------------------------------
  // Defaults from config.py
  // ---------------------------------------------------------------------

  const ARUCO_DICT_TYPE := "DICT_4X4_50"
  const MARKER_SIZE := 0.05
  const CAMERA_MATRIX: seq<seq<real>> := [
    [636.295497, 0.0, 322.817517],
    [0.0, 636.712497, 255.982381],
    [0.0, 0.0, 1.0]]
  const DIST_COEFFS: seq<real> := [0.02806658, -0.80382847, 0.00310489, -0.00080338, 1.75826186]

  /** The parameters every tracker works with. */
  datatype CameraParams = CameraParams(markerSize: real, cameraMatrix: seq<seq<real>>, distCoeffs: seq<real>)

  /** The values of config.py. */
  const CONFIG := CameraParams(MARKER_SIZE, CAMERA_MATRIX, DIST_COEFFS)

  /** load_camera_params: each argument that is given is kept, each one that is
      missing falls back to the configuration's value, independently of the
      others; without a configuration module, config.py is used. */
  function LoadCameraParams(markerSize: Option<real>, cameraMatrix: Option<seq<seq<real>>>,
                            distCoeffs: Option<seq<real>>, configModule: Option<CameraParams>): (r: CameraParams)
    ensures var defaults := if configModule.Some? then configModule.value else CONFIG;
      && (markerSize.Some? ==> r.markerSize == markerSize.value)
      && (markerSize.None? ==> r.markerSize == defaults.markerSize)
      && (cameraMatrix.Some? ==> r.cameraMatrix == cameraMatrix.value)
      && (cameraMatrix.None? ==> r.cameraMatrix == defaults.cameraMatrix)
      && (distCoeffs.Some? ==> r.distCoeffs == distCoeffs.value)
      && (distCoeffs.None? ==> r.distCoeffs == defaults.distCoeffs)
  {
    var defaults := if configModule.Some? then configModule.value else CONFIG;
    CameraParams(
      if markerSize.None? then defaults.markerSize else markerSize.value,
      if cameraMatrix.Some? then cameraMatrix.value else defaults.cameraMatrix,
      if distCoeffs.Some? then distCoeffs.value else defaults.distCoeffs)
  }

  /** With no argument given, the parameters are exactly the configuration's. */
  lemma LoadCameraParamsDefaults()
    ensures LoadCameraParams(None, None, None, None) == CONFIG
    ensures |CONFIG.cameraMatrix| == 3 && forall i :: 0 <= i < 3 ==> |CONFIG.cameraMatrix[i]| == 3
    ensures |CONFIG.distCoeffs| == 5 && 0.0 < CONFIG.markerSize
  {
  }

  // ---------------------------------------------------------------------
  // Trajectory records and their CSV columns
  // ---------------------------------------------------------------------

  /** The CSV header, in this order. */
  const FIELDNAMES: seq<string> := ["timestamp", "frame", "marker_id", "x", "y", "z", "rx", "ry", "rz"]

  /** The marker id as the detector hands it over: a one-element array, or a
      plain number. */
  datatype MarkerIdArg = Indexable(items: seq<int>) | Scalar(value: int)

  /** create_trajectory_point: x, y, z from the translation vector, rx, ry, rz from
      the rotation vector, and the marker id from the first element of an indexable
      id or from the number itself. */
  function CreateTrajectoryPoint(timestamp: real, frame: int, markerId: MarkerIdArg,
                                 tvec: seq<real>, rvec: seq<real>): (p: TrajectoryPoint)
    requires markerId.Indexable? ==> markerId.items != []
    requires |tvec| >= 3 && |rvec| >= 3
    ensures p.markerId == if markerId.Indexable? then markerId.items[0] else markerId.value
    ensures p.timestamp == timestamp && p.frame == frame
    ensures [p.x, p.y, p.z] == tvec[..3] && [p.rx, p.ry, p.rz] == rvec[..3]
  {
    TrajectoryPoint(timestamp, frame,
      if markerId.Indexable? then markerId.items[0] else markerId.value,
      tvec[0], tvec[1], tvec[2], rvec[0], rvec[1], rvec[2])
  }

  /** The trackers' own records agree with the shared constructor. */
  lemma RecordIsTrajectoryPoint(timestamp: real, frame: int, d: Detection)
    ensures RecordOf(timestamp, frame, d)
      == CreateTrajectoryPoint(timestamp, frame, Indexable([d.id]),
                               [d.tvec.x, d.tvec.y, d.tvec.z], [d.rvec.x, d.rvec.y, d.rvec.z])
  {
  }

  /** A record as the dictionary that DictWriter writes, keyed by FIELDNAMES. */
  function AsRow(p: TrajectoryPoint): (row: map<string, real>)
    ensures forall name :: name in row <==> name in FIELDNAMES
  {
    map["timestamp" := p.timestamp, "frame" := p.frame as real, "marker_id" := p.markerId as real,
        "x" := p.x, "y" := p.y, "z" := p.z, "rx" := p.rx, "ry" := p.ry, "rz" := p.rz]
  }

  /** A row read back: every column must be present, and frame and marker_id must
      hold whole numbers. */
  function FromRow(row: map<string, real>): Option<TrajectoryPoint>
  {
    if forall name :: name in FIELDNAMES ==> name in row then
      var frame, id := row["frame"], row["marker_id"];
      if frame != frame.Floor as real || id != id.Floor as real then None
      else Some(TrajectoryPoint(row["timestamp"], frame.Floor, id.Floor,
                                row["x"], row["y"], row["z"], row["rx"], row["ry"], row["rz"]))
    else None
  }

  /** Writing a record and reading it back loses nothing. */
  lemma RowRoundTrip(p: TrajectoryPoint)
    ensures FromRow(AsRow(p)) == Some(p)
  {
    var row := AsRow(p);
    assert forall name :: name in FIELDNAMES ==> name in row;
    assert row["timestamp"] == p.timestamp && row["frame"] == p.frame as real
      && row["marker_id"] == p.markerId as real;
    assert row["x"] == p.x && row["y"] == p.y && row["z"] == p.z;
    assert row["rx"] == p.rx && row["ry"] == p.ry && row["rz"] == p.rz;
    assert row["frame"].Floor == p.frame && row["marker_id"].Floor == p.markerId;
  }

  /** The header names nine distinct columns. */
  lemma FieldnamesDistinct()
    ensures |FIELDNAMES| == 9
    ensures forall i, j :: 0 <= i < j < |FIELDNAMES| ==> FIELDNAMES[i] != FIELDNAMES[j]
  {
  }

  // ---------------------------------------------------------------------
  // Saving a trajectory
  // ---------------------------------------------------------------------

  /** What save_trajectory does: nothing for an empty list, a failure when the file
      cannot be written (the exception is caught), otherwise the header and one row
      per record. */
  datatype SaveOutcome = NothingToSave | WriteFailed | Written(header: seq<string>, rows: seq<map<string, real>>)

  /** save_trajectory; `writable` says whether opening and writing the file succeeds. */
  function SaveTrajectory(data: seq<TrajectoryPoint>, writable: bool): (o: SaveOutcome)
    ensures o.NothingToSave? <==> data == []
    ensures o.WriteFailed? <==> data != [] && !writable
    ensures o.Written? ==> o.header == FIELDNAMES && |o.rows| == |data|
  {
    if data == [] then NothingToSave
    else if !writable then WriteFailed
    else Written(FIELDNAMES, seq(|data|, k requires 0 <= k < |data| => AsRow(data[k])))
  }

  /** The boolean save_trajectory returns: true exactly when the file was written. */
  function Saved(o: SaveOutcome): bool
  {
    o.Written?
  }

  /** Saving returns true exactly for a non-empty list and a writable file, and the
      rows written read back as the records, in order. */
  lemma SaveTrajectoryRows(data: seq<TrajectoryPoint>, writable: bool)
    ensures Saved(SaveTrajectory(data, writable)) <==> data != [] && writable
    ensures var o := SaveTrajectory(data, writable);
      o.Written? ==> forall k :: 0 <= k < |data| ==> FromRow(o.rows[k]) == Some(data[k])
  {
    var o := SaveTrajectory(data, writable);
    if o.Written? {
      forall k | 0 <= k < |data| ensures FromRow(o.rows[k]) == Some(data[k]) {
        RowRoundTrip(data[k]);
      }
    }
  }
}
