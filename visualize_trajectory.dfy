/**
 * Trajectory plots and the rotating 3D animation (visualize_trajectory.py).
 *
 * Rows of a trajectory file are grouped by marker id, in file order, into
 * seven parallel columns per marker.  The statistics printed beside the
 * static plot, the axis box of the animation and the part of each
 * trajectory shown at an animation frame are modelled; drawing, video
 * encoding and file reading are not.
 */
module VisualizeTrajectory {
  import opened Common

  /** The seven columns kept for one marker: frame numbers and the pose values. */
  datatype Columns = Columns(
    frames: seq<int>,
    x: seq<real>, y: seq<real>, z: seq<real>,
    rx: seq<real>, ry: seq<real>, rz: seq<real>)

  const NO_COLUMNS := Columns([], [], [], [], [], [], [])

  /** One row appended to each of the seven lists. */
  function Append(c: Columns, p: TrajectoryPoint): Columns
  {
    Columns(c.frames + [p.frame], c.x + [p.x], c.y + [p.y], c.z + [p.z],
            c.rx + [p.rx], c.ry + [p.ry], c.rz + [p.rz])
  }

  /** The columns of a sequence of rows, built by appending row after row. */
  function ColumnsOf(rows: seq<TrajectoryPoint>): (c: Columns)
    ensures |c.frames| == |c.x| == |c.y| == |c.z| == |c.rx| == |c.ry| == |c.rz| == |rows|
    ensures forall k :: 0 <= k < |rows| ==>
      && c.frames[k] == rows[k].frame
      && c.x[k] == rows[k].x && c.y[k] == rows[k].y && c.z[k] == rows[k].z
      && c.rx[k] == rows[k].rx && c.ry[k] == rows[k].ry && c.rz[k] == rows[k].rz
  {
    if rows == [] then NO_COLUMNS else Append(ColumnsOf(rows[..|rows| - 1]), rows[|rows| - 1])
  }

  /** All seven lists have the same, non-zero length. */
  ghost predicate WellFormed(c: Columns)
  {
    && |c.x| > 0
    && |c.frames| == |c.x| == |c.y| == |c.z| == |c.rx| == |c.ry| == |c.rz|
  }

  /** The dictionary load_trajectory_data builds from the rows read so far. */
  function Group(rows: seq<TrajectoryPoint>): map<int, Columns>
  {
    if rows == [] then map[]
    else
      var g := Group(rows[..|rows| - 1]);
      var p := rows[|rows| - 1];
      g[p.markerId := Append(if p.markerId in g then g[p.markerId] else NO_COLUMNS, p)]
  }

  /** Each marker's columns hold exactly that marker's rows, in file order and
      unsorted; the keys are the ids that occur. */
  lemma {:induction false} GroupIsPerMarker(rows: seq<TrajectoryPoint>)
    ensures forall id :: id in Group(rows) <==> id in IdSet(rows)
    ensures forall id :: id in Group(rows) ==> Group(rows)[id] == ColumnsOf(WithId(rows, id))
  {
    if rows != [] {
      var init := rows[..|rows| - 1];
      var p := rows[|rows| - 1];
      GroupIsPerMarker(init);
      IdSetSnoc(rows);
      forall id | id in Group(rows) ensures Group(rows)[id] == ColumnsOf(WithId(rows, id)) {
        if id == p.markerId {
          var w := WithId(rows, id);
          assert w == WithId(init, id) + [p];
          assert w[..|w| - 1] == WithId(init, id);
          if id !in Group(init) {
            WithIdAbsent(init, id);
          }
        }
      }
    }
  }

  /** Every group is well formed: seven lists of that marker's row count, never empty. */
  lemma GroupsWellFormed(rows: seq<TrajectoryPoint>)
    ensures forall id :: id in Group(rows) ==>
      WellFormed(Group(rows)[id]) && |Group(rows)[id].x| == |WithId(rows, id)|
  {
    GroupIsPerMarker(rows);
    forall id | id in Group(rows)
      ensures WellFormed(Group(rows)[id]) && |Group(rows)[id].x| == |WithId(rows, id)|
    {
      var k :| 0 <= k < |rows| && rows[k].markerId == id;
      WithIdContains(rows, id, k);
    }
  }

  lemma {:induction false} WithIdContains(rows: seq<TrajectoryPoint>, id: int, k: nat)
    requires k < |rows| && rows[k].markerId == id
    ensures WithId(rows, id) != []
  {
    if k < |rows| - 1 {
      WithIdContains(rows[..|rows| - 1], id, k);
    }
  }

  /** Total row count over a list of ids. */
  function SizeOver(ids: seq<int>, data: map<int, Columns>): nat
  {
    if ids == [] then 0
    else SizeOver(ids[..|ids| - 1], data) + (if ids[|ids| - 1] in data then |data[ids[|ids| - 1]].x| else 0)
  }

  /** The groups partition the rows: their sizes over the ids add up to the row count. */
  lemma GroupsPartitionRows(rows: seq<TrajectoryPoint>)
    ensures SizeOver(UniqueIds(rows), Group(rows)) == |rows|
  {
    GroupsWellFormed(rows);
    GroupIsPerMarker(rows);
    SizeOverIsCount(UniqueIds(rows), rows);
    GroupsPartition(UniqueIds(rows), rows);
  }

  lemma {:induction false} SizeOverIsCount(ids: seq<int>, rows: seq<TrajectoryPoint>)
    requires forall id :: id in Group(rows) <==> id in IdSet(rows)
    requires forall id :: id in Group(rows) ==> |Group(rows)[id].x| == |WithId(rows, id)|
    ensures SizeOver(ids, Group(rows)) == CountOver(ids, rows)
  {
    if ids != [] {
      SizeOverIsCount(ids[..|ids| - 1], rows);
      var id := ids[|ids| - 1];
      if id !in Group(rows) {
        WithIdAbsent(rows, id);
      }
    }
  }

  /** The ids grouped are the ids listed in order of first appearance. */
  lemma {:induction false} GroupKeys(rows: seq<TrajectoryPoint>, id: int)
    ensures id in Group(rows) <==> id in UniqueIds(rows)
  {
    if rows != [] {
      GroupKeys(rows[..|rows| - 1], id);
    }
  }

  /** load_trajectory_data: one pass over the rows, creating a marker's seven empty
      lists when its id is first seen and appending the row to them. */
  method LoadTrajectoryData(rows: seq<TrajectoryPoint>) returns (data: map<int, Columns>, order: seq<int>)
    ensures data == Group(rows)
    ensures order == UniqueIds(rows)
  {
    data, order := map[], [];
    var i := 0;
    while i < |rows|
      invariant 0 <= i <= |rows|
      invariant data == Group(rows[..i]) && order == UniqueIds(rows[..i])
    {
      var p := rows[i];
      assert rows[..i + 1][..i] == rows[..i];
      GroupKeys(rows[..i], p.markerId);
      if p.markerId !in data {
        data := data[p.markerId := NO_COLUMNS];
        order := order + [p.markerId];
      }
      data := data[p.markerId := Append(data[p.markerId], p)];
      i := i + 1;
    }
    assert rows[..i] == rows;
  }

  // ---------------------------------------------------------------------
  // Static plot statistics
  // ---------------------------------------------------------------------

  /** The length of step k of a path given by its coordinate columns. */
  function StepLength(x: seq<real>, y: seq<real>, z: seq<real>, k: nat, sqrt: real -> real): real
    requires k + 1 < |x| && |x| == |y| == |z|
  {
    Root(sqrt, Square(x[k + 1] - x[k]) + Square(y[k + 1] - y[k]) + Square(z[k + 1] - z[k]))
  }

  /** sum(sqrt(diff(x)**2 + diff(y)**2 + diff(z)**2)) over the first n points. */
  function PathLength(x: seq<real>, y: seq<real>, z: seq<real>, n: nat, sqrt: real -> real): real
    requires n <= |x| && |x| == |y| == |z|
  {
    if n <= 1 then 0.0 else PathLength(x, y, z, n - 1, sqrt) + StepLength(x, y, z, n - 2, sqrt)
  }

  /** The total distance is never negative, and is 0 for a single point. */
  lemma {:induction false} PathLengthNonNegative(x: seq<real>, y: seq<real>, z: seq<real>, n: nat, sqrt: real -> real)
    requires n <= |x| && |x| == |y| == |z| && NonNegativeRoot(sqrt)
    ensures 0.0 <= PathLength(x, y, z, n, sqrt)
    ensures n <= 1 ==> PathLength(x, y, z, n, sqrt) == 0.0
  {
    if n > 1 {
      PathLengthNonNegative(x, y, z, n - 1, sqrt);
      RootNonNegative(sqrt, Square(x[n - 1] - x[n - 2]) + Square(y[n - 1] - y[n - 2]) + Square(z[n - 1] - z[n - 2]));
    }
  }

  /** Adding a point never shortens the path. */
  lemma PathLengthGrows(x: seq<real>, y: seq<real>, z: seq<real>, n: nat, sqrt: real -> real)
    requires 1 < n <= |x| && |x| == |y| == |z| && NonNegativeRoot(sqrt)
    ensures PathLength(x, y, z, n - 1, sqrt) <= PathLength(x, y, z, n, sqrt)
  {
    RootNonNegative(sqrt, Square(x[n - 1] - x[n - 2]) + Square(y[n - 1] - y[n - 2]) + Square(z[n - 1] - z[n - 2]));
  }

  /** What plot_3d_trajectory prints for one marker. */
  datatype MarkerStats = MarkerStats(
    id: int, points: nat,
    xMin: real, xMax: real, yMin: real, yMax: real, zMin: real, zMax: real,
    totalDistance: real)

  function StatsOf(id: int, c: Columns, sqrt: real -> real): (s: MarkerStats)
    requires WellFormed(c)
    ensures s.points == |c.x| && s.xMin <= s.xMax && s.yMin <= s.yMax && s.zMin <= s.zMax
  {
    MarkerStats(id, |c.x|, Min(c.x), Max(c.x), Min(c.y), Max(c.y), Min(c.z), Max(c.z),
                PathLength(c.x, c.y, c.z, |c.x|, sqrt))
  }

  /** The ids the plots and the animation iterate over: the one requested, or every
      loaded id in first-seen order. */
  function Requested(markerId: Option<int>, order: seq<int>): seq<int>
  {
    if markerId.Some? then [markerId.value] else order
  }

  /** The printed statistics of the requested markers that are loaded; missing ids are skipped. */
  function StatsFor(ids: seq<int>, data: map<int, Columns>, sqrt: real -> real): (r: seq<MarkerStats>)
    requires forall id :: id in data ==> WellFormed(data[id])
    ensures |r| <= |ids|
    ensures forall k :: 0 <= k < |r| ==>
      r[k].id in ids && r[k].id in data && r[k] == StatsOf(r[k].id, data[r[k].id], sqrt)
  {
    if ids == [] then []
    else
      var prev := StatsFor(ids[..|ids| - 1], data, sqrt);
      var id := ids[|ids| - 1];
      prev + (if id in data then [StatsOf(id, data[id], sqrt)] else [])
  }

  // ---------------------------------------------------------------------
  // Axis boxes
  // ---------------------------------------------------------------------

  /** The concatenation of a list of columns (np.concatenate). */
  function Concat(cols: seq<seq<real>>): (r: seq<real>)
    ensures forall i, k :: 0 <= i < |cols| && 0 <= k < |cols[i]| ==> cols[i][k] in r
  {
    if cols == [] then []
    else
      var prev := Concat(cols[..|cols| - 1]);
      var r := prev + cols[|cols| - 1];
      assert forall i :: 0 <= i < |cols| - 1 ==> cols[..|cols| - 1][i] == cols[i];
      r
  }

  /** An interval on one axis: `lo` to `hi`. */
  datatype Interval = Interval(lo: real, hi: real)

  /** The limits `mid ± halfRange` for values centred on `mid`. */
  function Around(mid: real, halfRange: real): Interval
  {
    Interval(mid - halfRange, mid + halfRange)
  }

  /** The axis box of the animation: each axis centred on the midpoint of its
      extent, all three with the half-width of the largest extent. */
  datatype Box = Box(x: Interval, y: Interval, z: Interval)

  function Extent(v: seq<real>): real
    requires v != []
  {
    Max(v) - Min(v)
  }

  function Midpoint(v: seq<real>): real
    requires v != []
  {
    (Max(v) + Min(v)) * 0.5
  }

  /** The largest of three values. */
  function Largest(a: real, b: real, c: real): (m: real)
    ensures a <= m && b <= m && c <= m
    ensures m == a || m == b || m == c
  {
    if b <= a && c <= a then a else if c <= b then b else c
  }

  function CubeBox(xs: seq<real>, ys: seq<real>, zs: seq<real>): Box
    requires xs != [] && ys != [] && zs != []
  {
    var r := Largest(Extent(xs), Extent(ys), Extent(zs)) / 2.0;
    Box(Around(Midpoint(xs), r), Around(Midpoint(ys), r), Around(Midpoint(zs), r))
  }

  /** Every value lies within its midpoint plus or minus any half-width at least
      half its extent. */
  lemma WithinAround(v: seq<real>, r: real, k: nat)
    requires k < |v| && Extent(v) / 2.0 <= r
    ensures Around(Midpoint(v), r).lo <= v[k] <= Around(Midpoint(v), r).hi
  {
    assert Min(v) <= v[k] <= Max(v);
  }

  /** The animation box is a cube (all sides 2·half-width) that contains every
      value of every axis. */
  lemma CubeBoxContains(xs: seq<real>, ys: seq<real>, zs: seq<real>)
    requires xs != [] && ys != [] && zs != []
    ensures var b := CubeBox(xs, ys, zs);
      && b.x.hi - b.x.lo == b.y.hi - b.y.lo == b.z.hi - b.z.lo
      && (forall k :: 0 <= k < |xs| ==> b.x.lo <= xs[k] <= b.x.hi)
      && (forall k :: 0 <= k < |ys| ==> b.y.lo <= ys[k] <= b.y.hi)
      && (forall k :: 0 <= k < |zs| ==> b.z.lo <= zs[k] <= b.z.hi)
  {
    var r := Largest(Extent(xs), Extent(ys), Extent(zs)) / 2.0;
    forall k | 0 <= k < |xs| ensures Around(Midpoint(xs), r).lo <= xs[k] <= Around(Midpoint(xs), r).hi {
      WithinAround(xs, r, k);
    }
    forall k | 0 <= k < |ys| ensures Around(Midpoint(ys), r).lo <= ys[k] <= Around(Midpoint(ys), r).hi {
      WithinAround(ys, r, k);
    }
    forall k | 0 <= k < |zs| ensures Around(Midpoint(zs), r).lo <= zs[k] <= Around(Midpoint(zs), r).hi {
      WithinAround(zs, r, k);
    }
  }

  /** One of the three position axes. */
  datatype Axis = X | Y | Z

  /** The positions of one marker along one axis. */
  function Coordinates(c: Columns, a: Axis): (v: seq<real>)
    requires WellFormed(c)
    ensures |v| == |c.frames| > 0
  {
    match a
    case X => c.x
    case Y => c.y
    case Z => c.z
  }

  /** Each marker's extent along one axis, in marker order. */
  function Extents(cols: seq<Columns>, a: Axis): (r: seq<real>)
    requires forall i :: 0 <= i < |cols| ==> WellFormed(cols[i])
    ensures |r| == |cols|
  {
    if cols == [] then [] else [Extent(Coordinates(cols[0], a))] + Extents(cols[1..], a)
  }

  /** Each marker's mean position along one axis, in marker order. */
  function Means(cols: seq<Columns>, a: Axis): (r: seq<real>)
    requires forall i :: 0 <= i < |cols| ==> WellFormed(cols[i])
    ensures |r| == |cols|
  {
    if cols == [] then [] else [Mean(Coordinates(cols[0], a))] + Means(cols[1..], a)
  }

  /** The box of the static plot: each axis centred on the mean of the markers'
      means, with the half-width of the largest per-marker extent. */
  function MeanBox(cols: seq<Columns>): Box
    requires cols != [] && forall i :: 0 <= i < |cols| ==> WellFormed(cols[i])
  {
    var r := Largest(Max(Extents(cols, X)), Max(Extents(cols, Y)), Max(Extents(cols, Z))) / 2.0;
    Box(Around(Mean(Means(cols, X)), r),
        Around(Mean(Means(cols, Y)), r),
        Around(Mean(Means(cols, Z)), r))
  }

  /** Centring on the mean rather than the midpoint can leave points outside the
      static plot's box: one marker at x = 0, 0, 0, 4 has mean 1 and half-width 2,
      so x = 4 falls beyond the upper limit 3. */
  lemma MeanBoxMayExclude()
    ensures var c := Columns([0, 1, 2, 3], [0.0, 0.0, 0.0, 4.0], [0.0, 0.0, 0.0, 0.0], [0.0, 0.0, 0.0, 0.0],
                             [0.0, 0.0, 0.0, 0.0], [0.0, 0.0, 0.0, 0.0], [0.0, 0.0, 0.0, 0.0]);
      MeanBox([c]).x.hi < c.x[3]
  {
    var xs := [0.0, 0.0, 0.0, 4.0];
    var zs := [0.0, 0.0, 0.0, 0.0];
    var c := Columns([0, 1, 2, 3], xs, zs, zs, zs, zs, zs);
    MeanBoxSingle(c);
    SkewedAxis();
    FlatAxis();
    assert MeanBox([c]).x.hi == 1.0 + 4.0 / 2.0;
  }

  /** The x positions of the example: extent 4, mean 1. */
  lemma SkewedAxis()
    ensures Extent([0.0, 0.0, 0.0, 4.0]) == 4.0
    ensures Mean([0.0, 0.0, 0.0, 4.0]) == 1.0
  {
    var v := [0.0, 0.0, 0.0, 4.0];
    assert Max(v) == 4.0 && Min(v) == 0.0;
    assert Sum([0.0]) == 0.0 by { assert [0.0][..0] == []; }
    assert Sum([0.0, 0.0]) == 0.0 by { assert [0.0, 0.0][..1] == [0.0]; }
    assert Sum([0.0, 0.0, 0.0]) == 0.0 by { assert [0.0, 0.0, 0.0][..2] == [0.0, 0.0]; }
    assert Sum(v) == 4.0 by { assert v[..3] == [0.0, 0.0, 0.0]; }
  }

  /** The y and z positions of the example: extent 0. */
  lemma FlatAxis()
    ensures Extent([0.0, 0.0, 0.0, 0.0]) == 0.0
  {
    var v := [0.0, 0.0, 0.0, 0.0];
    assert Max(v) == 0.0 && Min(v) == 0.0;
  }

  /** With one marker the box is centred on that marker's means, with half the
      largest of its three extents as half-width. */
  lemma MeanBoxSingle(c: Columns)
    requires WellFormed(c)
    ensures var r := Largest(Extent(c.x), Extent(c.y), Extent(c.z)) / 2.0;
      MeanBox([c]) == Box(Around(Mean(c.x), r), Around(Mean(c.y), r), Around(Mean(c.z), r))
  {
    SingleAxis(c, X);
    SingleAxis(c, Y);
    SingleAxis(c, Z);
    assert Coordinates(c, X) == c.x && Coordinates(c, Y) == c.y && Coordinates(c, Z) == c.z;
  }

  lemma SingleAxis(c: Columns, a: Axis)
    requires WellFormed(c)
    ensures Max(Extents([c], a)) == Extent(Coordinates(c, a))
    ensures Mean(Means([c], a)) == Mean(Coordinates(c, a))
  {
    assert [c][1..] == [];
    assert Extents([c], a) == [Extent(Coordinates(c, a))];
    assert Means([c], a) == [Mean(Coordinates(c, a))];
    SingleMax(Extent(Coordinates(c, a)));
    SingleMean(Mean(Coordinates(c, a)));
  }

  lemma SingleMax(v: real)
    ensures Max([v]) == v
  {
  }

  lemma SingleMean(v: real)
    ensures Mean([v]) == v
  {
    assert [v][..0] == [];
    assert Sum([v]) == Sum([]) + v;
  }

  // ---------------------------------------------------------------------
  // Animation framing
  // ---------------------------------------------------------------------

  /** `int(progress * num_points)` with progress = frame / total_frames, on
      exact fractions. */
  function ShowPoints(frame: nat, totalFrames: nat, n: nat): nat
    requires 0 < totalFrames
  {
    (frame * n) / totalFrames
  }

  /** Before the last frame the count stays below n; it starts at 0 and never
      decreases. */
  lemma ShowPointsBounds(frame: nat, later: nat, totalFrames: nat, n: nat)
    requires 0 < totalFrames && frame <= later
    ensures ShowPoints(0, totalFrames, n) == 0
    ensures frame < totalFrames && 0 < n ==> ShowPoints(frame, totalFrames, n) < n
    ensures ShowPoints(frame, totalFrames, n) <= ShowPoints(later, totalFrames, n)
  {
    if frame < totalFrames && 0 < n {
      MulMonotone(frame + 1, totalFrames, n);
      QuotientBelow(frame * n, n, totalFrames);
    }
    MulMonotone(frame, later, n);
    QuotientMonotone(frame * n, later * n, totalFrames);
  }

  /** What one trajectory shows at a frame: the trail so far and the current marker. */
  datatype TrackView = TrackView(trail: seq<Vec3>, marker: Option<Vec3>)

  /** The path of a marker as points. */
  function PointsOf(c: Columns): (r: seq<Vec3>)
    requires |c.x| == |c.y| == |c.z|
    ensures |r| == |c.x| && forall k :: 0 <= k < |r| ==> r[k] == Vec3(c.x[k], c.y[k], c.z[k])
  {
    seq(|c.x|, k requires 0 <= k < |c.x| => Vec3(c.x[k], c.y[k], c.z[k]))
  }

  /** animate(frame) for one trajectory: a positive count shows that prefix and puts
      the marker on its last point; a zero count clears the trail and leaves the
      marker where the previous frame put it. */
  function AnimateTrack(c: Columns, frame: nat, totalFrames: nat, previous: Option<Vec3>): TrackView
    requires 0 < totalFrames && frame < totalFrames && |c.x| == |c.y| == |c.z|
  {
    var k := ShowPoints(frame, totalFrames, |c.x|);
    ShowPointsBounds(frame, frame, totalFrames, |c.x|);
    if k > 0 then TrackView(PointsOf(c)[..k], Some(PointsOf(c)[k - 1]))
    else TrackView([], previous)
  }

  /** The trail is a prefix of the path, strictly shorter than it, and the marker sits
      on its last point; later frames show at least as much. */
  lemma AnimateTrackPrefix(c: Columns, frame: nat, later: nat, totalFrames: nat, previous: Option<Vec3>)
    requires 0 < totalFrames && frame <= later < totalFrames && |c.x| == |c.y| == |c.z|
    ensures var v := AnimateTrack(c, frame, totalFrames, previous);
      && |v.trail| == ShowPoints(frame, totalFrames, |c.x|)
      && (|c.x| > 0 ==> |v.trail| < |c.x|)
      && v.trail == PointsOf(c)[..|v.trail|]
      && (v.trail != [] ==> v.marker == Some(v.trail[|v.trail| - 1]))
      && (v.trail == [] ==> v.marker == previous)
      && |v.trail| <= |AnimateTrack(c, later, totalFrames, previous).trail|
  {
    ShowPointsBounds(frame, later, totalFrames, |c.x|);
    ShowPointsBounds(later, later, totalFrames, |c.x|);
  }

  /** `int(fps * duration)` for the integer arguments the command line passes. */
  function TotalFrames(fps: int, duration: int): int
  {
    fps * duration
  }

  /** What create_3d_animation_video sets up before rendering: the trajectories, the
      axis box and the frame count. */
  datatype Animation = Animation(tracks: seq<(int, Columns)>, box: Box, totalFrames: int, maxPoints: nat)

  /** The loaded requested trajectories, in request order. */
  function Present(ids: seq<int>, data: map<int, Columns>): (r: seq<(int, Columns)>)
    ensures |r| <= |ids|
    ensures forall k :: 0 <= k < |r| ==> r[k].0 in ids && r[k].0 in data && r[k].1 == data[r[k].0]
    ensures r == [] <==> forall id :: id in ids ==> id !in data
  {
    if ids == [] then []
    else
      var prev := Present(ids[..|ids| - 1], data);
      var id := ids[|ids| - 1];
      assert forall j :: j in ids <==> j in ids[..|ids| - 1] || j == id by { assert ids == ids[..|ids| - 1] + [id]; }
      prev + (if id in data then [(id, data[id])] else [])
  }

  function XsOf(tracks: seq<(int, Columns)>): seq<seq<real>>
  {
    seq(|tracks|, i requires 0 <= i < |tracks| => tracks[i].1.x)
  }

  function YsOf(tracks: seq<(int, Columns)>): seq<seq<real>>
  {
    seq(|tracks|, i requires 0 <= i < |tracks| => tracks[i].1.y)
  }

  function ZsOf(tracks: seq<(int, Columns)>): seq<seq<real>>
  {
    seq(|tracks|, i requires 0 <= i < |tracks| => tracks[i].1.z)
  }

  function MaxLength(tracks: seq<(int, Columns)>): nat
  {
    if tracks == [] then 0
    else
      var m := MaxLength(tracks[..|tracks| - 1]);
      var n := |tracks[|tracks| - 1].1.x|;
      if m < n then n else m
  }

  class TrajectoryVisualizer {
    /** The loaded groups, and their ids in first-seen order (the dict's key order). */
    var data: map<int, Columns>
    var order: seq<int>

    ghost predicate Valid()
      reads this
    {
      && Distinct(order)
      && (forall id :: id in data <==> id in order)
      && (data == map[] <==> order == [])
      && (forall id :: id in data ==> WellFormed(data[id]))
    }

    /** __init__: load and group the rows. */
    constructor (rows: seq<TrajectoryPoint>)
      ensures Valid()
      ensures data == Group(rows) && order == UniqueIds(rows)
    {
      var d, o := LoadTrajectoryData(rows);
      GroupIsPerMarker(rows);
      GroupsWellFormed(rows);
      if rows != [] {
        var last := rows[|rows| - 1].markerId;
        assert last in d;
        assert last in IdSet(rows);
      }
      data, order := d, o;
    }

    /** plot_3d_trajectory's printed statistics: none without data; otherwise the
        statistics of each requested marker that is loaded, in request order. */
    function PlotStats(markerId: Option<int>, sqrt: real -> real): (r: Option<seq<MarkerStats>>)
      reads this
      requires Valid()
      ensures r.None? <==> data == map[]
      ensures r.Some? ==> forall k :: 0 <= k < |r.value| ==>
        r.value[k].id in data && r.value[k].points == |data[r.value[k].id].x|
      ensures r.Some? ==> forall id :: id in Requested(markerId, order) && id in data ==>
        StatsOf(id, data[id], sqrt) in r.value
      ensures r.Some? ==> (|r.value| == |Present(Requested(markerId, order), data)| &&
        forall k :: 0 <= k < |r.value| ==> r.value[k].id == Present(Requested(markerId, order), data)[k].0)
    {
      if data == map[] then None
      else
        var ids := Requested(markerId, order);
        StatsForPresent(ids, data, sqrt);
        StatsForComplete(ids, data, sqrt);
        Some(StatsFor(ids, data, sqrt))
    }

    /** The static plot's box as written: the limits look every requested id up, so a
        requested id that is not loaded raises KeyError (None here) after the
        plotting loop has skipped it. */
    function PlotBoxAsWritten(markerId: Option<int>): (r: Option<Box>)
      reads this
      requires Valid() && data != map[]
    {
      var ids := Requested(markerId, order);
      var d := data;
      if exists k :: 0 <= k < |ids| && ids[k] !in d then None
      else
        var cols := seq(|ids|, i requires 0 <= i < |ids| => d[ids[i]]);
        assert ids != [] && forall i :: 0 <= i < |cols| ==> WellFormed(cols[i]) by {
          if markerId.None? { assert order[0] in d; }
          forall i | 0 <= i < |cols| ensures WellFormed(cols[i]) {
            assert ids[i] in data && cols[i] == data[ids[i]];
            assert Valid();
            assert forall id :: id in data ==> WellFormed(data[id]);
            assert WellFormed(data[ids[i]]);
          }
        }
        Some(MeanBox(cols))
    }

    /** Asking the static plot for a marker that is not loaded fails. */
    lemma PlotBoxMissingIdFails(id: int)
      requires Valid() && data != map[] && id !in data
      ensures PlotBoxAsWritten(Some(id)).None?
    {
      assert Requested(Some(id), order)[0] == id;
    }

    /** The static plot's box with the missing ids skipped, as the plotting loop
        does: no box when none of the requested ids is loaded. */
    function PlotBox(markerId: Option<int>): (r: Option<Box>)
      reads this
      requires Valid() && data != map[]
      ensures r.None? <==> forall id :: id in Requested(markerId, order) ==> id !in data
    {
      var present := Present(Requested(markerId, order), data);
      if present == [] then None
      else Some(MeanBox(seq(|present|, i requires 0 <= i < |present| => present[i].1)))
    }

    /** With every requested id loaded, skipping changes nothing: the corrected box
        is the box as written. */
    lemma PlotBoxAgrees(markerId: Option<int>)
      requires Valid() && data != map[]
      requires forall id :: id in Requested(markerId, order) ==> id in data
      ensures PlotBox(markerId) == PlotBoxAsWritten(markerId)
    {
      var ids := Requested(markerId, order);
      var d := data;
      forall k | 0 <= k < |ids| ensures ids[k] in d {
        assert ids[k] in ids;
      }
      PresentAll(ids, d);
      var present := Present(ids, d);
      assert ids != [];
      assert seq(|present|, i requires 0 <= i < |present| => present[i].1)
          == seq(|ids|, i requires 0 <= i < |ids| => d[ids[i]]);
    }

    /** create_3d_animation_video up to rendering: nothing without data or without
        a loaded requested trajectory; otherwise the trajectories, a cube box around
        all their points and int(fps·duration) frames. */
    function AnimationSetup(markerId: Option<int>, fps: int, duration: int): (r: Option<Animation>)
      reads this
      requires Valid()
      ensures r.None? <==> data == map[] || forall id :: id in Requested(markerId, order) ==> id !in data
      ensures r.Some? ==> r.value.totalFrames == TotalFrames(fps, duration)
      ensures r.Some? ==> forall i :: 0 <= i < |r.value.tracks| ==> WellFormed(r.value.tracks[i].1)
      ensures r.Some? ==> r.value.tracks == Present(Requested(markerId, order), data)
      ensures r.Some? ==> forall id :: id in Requested(markerId, order) && id in data ==>
        (id, data[id]) in r.value.tracks
    {
      if data == map[] then None
      else
        var tracks := Present(Requested(markerId, order), data);
        if tracks == [] then None
        else
          assert WellFormed(tracks[0].1);
          ConcatHasFirst(tracks);
          PresentComplete(Requested(markerId, order), data);
          Some(Animation(tracks, CubeBox(Concat(XsOf(tracks)), Concat(YsOf(tracks)), Concat(ZsOf(tracks))),
                         TotalFrames(fps, duration), MaxLength(tracks)))
    }

    /** Every point of every animated trajectory lies inside the animation's box. */
    lemma AnimationBoxContains(markerId: Option<int>, fps: int, duration: int, i: nat, k: nat)
      requires Valid()
      requires AnimationSetup(markerId, fps, duration).Some?
      requires var a := AnimationSetup(markerId, fps, duration).value;
        i < |a.tracks| && k < |a.tracks[i].1.x|
      ensures var a := AnimationSetup(markerId, fps, duration).value;
        var c := a.tracks[i].1;
        && a.box.x.lo <= c.x[k] <= a.box.x.hi
        && a.box.y.lo <= c.y[k] <= a.box.y.hi
        && a.box.z.lo <= c.z[k] <= a.box.z.hi
    {
      var tracks := Present(Requested(markerId, order), data);
      assert WellFormed(tracks[0].1) && WellFormed(tracks[i].1);
      TracksInCube(tracks, i, k);
    }
  }

  /** Every point of a trajectory lies inside the cube box around the points of
      all the trajectories. */
  lemma TracksInCube(tracks: seq<(int, Columns)>, i: nat, k: nat)
    requires i < |tracks| && WellFormed(tracks[0].1) && WellFormed(tracks[i].1) && k < |tracks[i].1.x|
    ensures Concat(XsOf(tracks)) != [] && Concat(YsOf(tracks)) != [] && Concat(ZsOf(tracks)) != []
    ensures var b := CubeBox(Concat(XsOf(tracks)), Concat(YsOf(tracks)), Concat(ZsOf(tracks)));
      var c := tracks[i].1;
      && b.x.lo <= c.x[k] <= b.x.hi
      && b.y.lo <= c.y[k] <= b.y.hi
      && b.z.lo <= c.z[k] <= b.z.hi
  {
    var xs, ys, zs := Concat(XsOf(tracks)), Concat(YsOf(tracks)), Concat(ZsOf(tracks));
    var c := tracks[i].1;
    ConcatHasFirst(tracks);
    assert XsOf(tracks)[i] == c.x && YsOf(tracks)[i] == c.y && ZsOf(tracks)[i] == c.z;
    assert c.x[k] in xs && c.y[k] in ys && c.z[k] in zs;
    CubeBoxContains(xs, ys, zs);
    var kx :| 0 <= kx < |xs| && xs[kx] == c.x[k];
    var ky :| 0 <= ky < |ys| && ys[ky] == c.y[k];
    var kz :| 0 <= kz < |zs| && zs[kz] == c.z[k];
  }

  /** The first point of the first trajectory is among the concatenated values. */
  lemma ConcatHasFirst(tracks: seq<(int, Columns)>)
    requires tracks != [] && WellFormed(tracks[0].1)
    ensures Concat(XsOf(tracks)) != [] && Concat(YsOf(tracks)) != [] && Concat(ZsOf(tracks)) != []
  {
    var c := tracks[0].1;
    assert XsOf(tracks)[0] == c.x && YsOf(tracks)[0] == c.y && ZsOf(tracks)[0] == c.z;
    assert c.x[0] in Concat(XsOf(tracks));
    assert c.y[0] in Concat(YsOf(tracks));
    assert c.z[0] in Concat(ZsOf(tracks));
  }

  /** Every requested trajectory that is loaded is listed ("None = plot all"). */
  lemma {:induction false} PresentComplete(ids: seq<int>, data: map<int, Columns>)
    ensures forall id :: id in ids && id in data ==> (id, data[id]) in Present(ids, data)
  {
    if ids != [] {
      var init, last := ids[..|ids| - 1], ids[|ids| - 1];
      PresentComplete(init, data);
      assert ids == init + [last];
      assert Present(ids, data) == Present(init, data) + (if last in data then [(last, data[last])] else []);
    }
  }

  /** The loaded requested trajectories keep the order of the request: an entry's
      id is requested at some position, and every earlier entry's id before it. */
  lemma {:induction false} PresentInRequestOrder(ids: seq<int>, data: map<int, Columns>)
    ensures forall i, j :: 0 <= i < j < |Present(ids, data)| ==>
      exists b :: 0 <= b < |ids| && ids[b] == Present(ids, data)[j].0 && Present(ids, data)[i].0 in ids[..b]
  {
    if ids != [] {
      var init, id := ids[..|ids| - 1], ids[|ids| - 1];
      var prev, r := Present(init, data), Present(ids, data);
      PresentInRequestOrder(init, data);
      assert r[..|prev|] == prev;
      forall i, j | 0 <= i < j < |Present(ids, data)|
        ensures exists b :: 0 <= b < |ids| && ids[b] == Present(ids, data)[j].0 && Present(ids, data)[i].0 in ids[..b]
      {
        assert r[i] == prev[i];
        if j < |prev| {
          assert r[j] == prev[j];
          var b :| 0 <= b < |init| && init[b] == prev[j].0 && prev[i].0 in init[..b];
          assert ids[b] == init[b] && ids[..b] == init[..b];
        } else {
          assert r[j].0 == id && ids[..|ids| - 1] == init;
        }
      }
    } else {
      assert Present(ids, data) == [];
    }
  }

  /** Every requested trajectory that is loaded has its statistics printed. */
  lemma StatsForComplete(ids: seq<int>, data: map<int, Columns>, sqrt: real -> real)
    requires forall id :: id in data ==> WellFormed(data[id])
    ensures forall id :: id in ids && id in data ==> StatsOf(id, data[id], sqrt) in StatsFor(ids, data, sqrt)
  {
    StatsForPresent(ids, data, sqrt);
    PresentComplete(ids, data);
    forall id | id in ids && id in data
      ensures StatsOf(id, data[id], sqrt) in StatsFor(ids, data, sqrt)
    {
      var k :| 0 <= k < |Present(ids, data)| && Present(ids, data)[k] == (id, data[id]);
      assert StatsFor(ids, data, sqrt)[k] == StatsOf(id, data[id], sqrt);
    }
  }

  /** The printed statistics are those of the loaded requested trajectories, one
      per trajectory, in request order. */
  lemma {:induction false} StatsForPresent(ids: seq<int>, data: map<int, Columns>, sqrt: real -> real)
    requires forall id :: id in data ==> WellFormed(data[id])
    ensures |StatsFor(ids, data, sqrt)| == |Present(ids, data)|
    ensures forall k :: 0 <= k < |Present(ids, data)| ==>
      StatsFor(ids, data, sqrt)[k] == StatsOf(Present(ids, data)[k].0, Present(ids, data)[k].1, sqrt)
  {
    if ids != [] {
      StatsForPresent(ids[..|ids| - 1], data, sqrt);
    }
  }

  /** With every id loaded, nothing is skipped. */
  lemma {:induction false} PresentAll(ids: seq<int>, data: map<int, Columns>)
    requires forall k :: 0 <= k < |ids| ==> ids[k] in data
    ensures Present(ids, data) == seq(|ids|, i requires 0 <= i < |ids| => (ids[i], data[ids[i]]))
  {
    if ids != [] {
      PresentAll(ids[..|ids| - 1], data);
    }
  }
}
