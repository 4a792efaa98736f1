/**
 * The trajectory metrics pipeline of TrajectoryAnalyzer (trajectory_analysis.py):
 * per-marker tracks, forward-difference kinematics over each track, the
 * optional smoothing step, the printed summary statistics and the export
 * column selection.
 *
 * A dataframe column is a `Column`: one optional real per row, where `None`
 * stands for the NaN or +/-inf the dataframe would hold.  The square root
 * (np.sqrt) and the Savitzky-Golay filter (scipy) are parameters.
 */
module TrajectoryAnalysis {
  import opened Common

  type Column = seq<Option<real>>

  const REQUIRED_COLUMNS: seq<string> := ["timestamp", "marker_id", "x", "y", "z", "rx", "ry", "rz"]

  /** np.degrees multiplies by 180/pi; this is that factor as a double. */
  const DEGREES_PER_RADIAN: real := 57.29577951308232

  /** Defaults of print_summary's call to calculate_metrics. */
  const SUMMARY_SMOOTH: bool := true
  const SUMMARY_WINDOW: int := 5

  /** A trajectory CSV file as read: its header and its rows. */
  datatype Table = Table(columns: seq<string>, rows: seq<TrajectoryPoint>)

  // ---------------------------------------------------------------------
  // Column lists
  // ---------------------------------------------------------------------

  /** The entries of `wanted` that are absent from `present`, in the order of `wanted`. */
  function Absent<T(==,!new)>(wanted: seq<T>, present: seq<T>): seq<T>
  {
    if wanted == [] then []
    else Absent(wanted[..|wanted| - 1], present)
         + (if wanted[|wanted| - 1] in present then [] else [wanted[|wanted| - 1]])
  }

  /** An entry is listed as absent exactly when it is wanted and not present. */
  lemma {:induction false} AbsentHas<T(!new)>(wanted: seq<T>, present: seq<T>, c: T)
    ensures c in Absent(wanted, present) <==> c in wanted && c !in present
  {
    if wanted != [] {
      var init := wanted[..|wanted| - 1];
      AbsentHas(init, present, c);
      assert wanted == init + [wanted[|wanted| - 1]];
    }
  }

  /** Nothing is absent exactly when everything wanted is present. */
  lemma AbsentNone<T(!new)>(wanted: seq<T>, present: seq<T>)
    ensures Absent(wanted, present) == [] <==> forall c :: c in wanted ==> c in present
  {
    var r := Absent(wanted, present);
    if r != [] {
      AbsentHas(wanted, present, r[0]);
    } else {
      forall c | c in wanted ensures c in present {
        AbsentHas(wanted, present, c);
      }
    }
  }

  /** Extending `wanted` by one entry extends the absent entries by it when it is absent. */
  lemma AbsentSnoc<T(!new)>(wanted: seq<T>, x: T, present: seq<T>)
    ensures Absent(wanted + [x], present) == Absent(wanted, present) + (if x in present then [] else [x])
  {
    assert (wanted + [x])[..|wanted|] == wanted;
  }

  /** With nothing present, everything is absent. */
  lemma {:induction false} AbsentFromNothing<T(!new)>(wanted: seq<T>)
    ensures Absent(wanted, []) == wanted
  {
    if wanted != [] {
      AbsentFromNothing(wanted[..|wanted| - 1]);
      assert wanted[..|wanted| - 1] + [wanted[|wanted| - 1]] == wanted;
    }
  }

  /** The names of `wanted` that are present in `present`, in the order of `wanted`. */
  function Present(wanted: seq<string>, present: seq<string>): seq<string>
  {
    if wanted == [] then []
    else Present(wanted[..|wanted| - 1], present)
         + (if wanted[|wanted| - 1] in present then [wanted[|wanted| - 1]] else [])
  }

  /** A name is selected exactly when it is wanted and present. */
  lemma {:induction false} PresentHas(wanted: seq<string>, present: seq<string>, c: string)
    ensures c in Present(wanted, present) <==> c in wanted && c in present
  {
    if wanted != [] {
      var init := wanted[..|wanted| - 1];
      PresentHas(init, present, c);
      assert wanted == init + [wanted[|wanted| - 1]];
    }
  }

  /** Selecting names that are all present keeps the whole list, in order. */
  lemma {:induction false} PresentKeepsAll(wanted: seq<string>, present: seq<string>)
    requires forall c :: c in wanted ==> c in present
    ensures Present(wanted, present) == wanted
  {
    if wanted != [] {
      PresentKeepsAll(wanted[..|wanted| - 1], present);
      assert wanted[..|wanted| - 1] + [wanted[|wanted| - 1]] == wanted;
    }
  }

  /** The warning list of load_data. */
  function MissingColumns(columns: seq<string>): (r: seq<string>)
    ensures r == [] <==> forall c :: c in REQUIRED_COLUMNS ==> c in columns
  {
    AbsentNone(REQUIRED_COLUMNS, columns);
    Absent(REQUIRED_COLUMNS, columns)
  }

  // ---------------------------------------------------------------------
  // Sorting a track by timestamp
  // ---------------------------------------------------------------------

  predicate SortedByTime(s: seq<TrajectoryPoint>)
  {
    forall i, j :: 0 <= i < j < |s| ==> s[i].timestamp <= s[j].timestamp
  }

  /** Inserts `p` after every row whose timestamp is not later than its own. */
  function InsertByTime(s: seq<TrajectoryPoint>, p: TrajectoryPoint): (r: seq<TrajectoryPoint>)
    requires SortedByTime(s)
    ensures SortedByTime(r)
    ensures multiset(r) == multiset(s) + multiset{p}
  {
    if s == [] || p.timestamp < s[0].timestamp then
      PrependSorted(p, s);
      [p] + s
    else
      var rest := InsertByTime(s[1..], p);
      KeepFirst(s, p, rest);
      [s[0]] + rest
  }

  /** A row no later than the first of a sorted track can go in front of it. */
  lemma PrependSorted(p: TrajectoryPoint, s: seq<TrajectoryPoint>)
    requires SortedByTime(s) && (s == [] || p.timestamp < s[0].timestamp)
    ensures SortedByTime([p] + s) && multiset([p] + s) == multiset(s) + multiset{p}
  {
  }

  /** The first row of a sorted track stays in front when `p` is no earlier and went
      into the rest. */
  lemma KeepFirst(s: seq<TrajectoryPoint>, p: TrajectoryPoint, rest: seq<TrajectoryPoint>)
    requires SortedByTime(s) && s != [] && s[0].timestamp <= p.timestamp
    requires SortedByTime(rest) && multiset(rest) == multiset(s[1..]) + multiset{p}
    ensures SortedByTime([s[0]] + rest) && multiset([s[0]] + rest) == multiset(s) + multiset{p}
  {
    forall q | q in rest ensures s[0].timestamp <= q.timestamp {
      assert q in multiset(rest);
      if q != p {
        assert q in multiset(s[1..]);
        var k :| 0 <= k < |s[1..]| && s[1..][k] == q;
        assert s[k + 1] == q;
      }
    }
    var r := [s[0]] + rest;
    forall i, j | 0 <= i < j < |r| ensures r[i].timestamp <= r[j].timestamp {
      assert r[j] == rest[j - 1] && r[j] in rest;
      if i > 0 { assert r[i] == rest[i - 1]; }
    }
    assert s == [s[0]] + s[1..];
  }

  /** The track of one marker after sort_values('timestamp'). */
  function SortByTime(s: seq<TrajectoryPoint>): (r: seq<TrajectoryPoint>)
    ensures SortedByTime(r)
    ensures multiset(r) == multiset(s)
  {
    if s == [] then []
    else
      assert s == s[..|s| - 1] + [s[|s| - 1]];
      InsertByTime(SortByTime(s[..|s| - 1]), s[|s| - 1])
  }

  /** `t` holds exactly the rows of marker `id`, ordered by timestamp. */
  ghost predicate IsTrackOf(t: seq<TrajectoryPoint>, rows: seq<TrajectoryPoint>, id: int)
  {
    SortedByTime(t) && multiset(t) == multiset(WithId(rows, id))
  }

  /** A stored track: non-empty, ordered by timestamp, all rows of one marker. */
  ghost predicate IsTrack(t: seq<TrajectoryPoint>, id: int)
  {
    t != [] && SortedByTime(t) && forall k :: 0 <= k < |t| ==> t[k].markerId == id
  }

  lemma {:induction false} WithIdNonEmpty(rows: seq<TrajectoryPoint>, id: int)
    requires id in IdSet(rows)
    ensures WithId(rows, id) != []
  {
    var init := rows[..|rows| - 1];
    if rows[|rows| - 1].markerId != id {
      var k :| 0 <= k < |rows| && rows[k].markerId == id;
      assert init[k].markerId == id;
      WithIdNonEmpty(init, id);
    }
  }

  lemma TrackOfIsTrack(t: seq<TrajectoryPoint>, rows: seq<TrajectoryPoint>, id: int)
    requires id in IdSet(rows) && IsTrackOf(t, rows, id)
    ensures IsTrack(t, id)
  {
    WithIdNonEmpty(rows, id);
    var w := WithId(rows, id);
    assert w[0] in multiset(t);
    forall k | 0 <= k < |t| ensures t[k].markerId == id {
      assert t[k] in multiset(w);
    }
  }

  /** The analyzer's store: the key order lists every stored id once, and every
      stored track is a track of its id. */
  ghost predicate Stored(markers: map<int, seq<TrajectoryPoint>>, order: seq<int>)
  {
    && Distinct(order)
    && (forall id :: id in markers <==> id in order)
    && (forall id :: id in markers ==> IsTrack(markers[id], id))
  }

  /** The store after load_data has put the sorted rows of each of `ids`, in turn,
      under its id, appending ids not stored before to the key order. */
  function StoreTracks(markers: map<int, seq<TrajectoryPoint>>, order: seq<int>,
                       rows: seq<TrajectoryPoint>, ids: seq<int>): (map<int, seq<TrajectoryPoint>>, seq<int>)
  {
    if ids == [] then (markers, order)
    else
      var prev := StoreTracks(markers, order, rows, ids[..|ids| - 1]);
      var id := ids[|ids| - 1];
      (prev.0[id := SortByTime(WithId(rows, id))], if id in prev.0 then prev.1 else prev.1 + [id])
  }

  /** An id is stored afterwards exactly when it was stored before or was loaded. */
  lemma {:induction false} StoreTracksHas(markers: map<int, seq<TrajectoryPoint>>, order: seq<int>,
                                          rows: seq<TrajectoryPoint>, ids: seq<int>, j: int)
    ensures j in StoreTracks(markers, order, rows, ids).0 <==> j in markers || j in ids
  {
    if ids != [] {
      var init := ids[..|ids| - 1];
      StoreTracksHas(markers, order, rows, init, j);
      assert ids == init + [ids[|ids| - 1]];
    }
  }

  /** Storing the track of a new id and appending the id to the order keeps the store consistent. */
  lemma StoreNew(markers: map<int, seq<TrajectoryPoint>>, order: seq<int>, id: int, t: seq<TrajectoryPoint>)
    requires Stored(markers, order) && IsTrack(t, id) && id !in markers
    ensures Stored(markers[id := t], order + [id])
  {
    var o := order + [id];
    forall i, j | 0 <= i < j < |o| ensures o[i] != o[j] {
      if j == |order| {
        assert o[i] == order[i] && order[i] in order;
      }
    }
  }

  /** Loading the tracks of ids that occur in the rows keeps the store consistent. */
  lemma {:induction false} StoreTracksStored(markers: map<int, seq<TrajectoryPoint>>, order: seq<int>,
                                             rows: seq<TrajectoryPoint>, ids: seq<int>)
    requires Stored(markers, order)
    requires forall id :: id in ids ==> id in IdSet(rows)
    ensures var r := StoreTracks(markers, order, rows, ids); Stored(r.0, r.1)
  {
    if ids != [] {
      var init := ids[..|ids| - 1];
      var id := ids[|ids| - 1];
      assert forall j :: j in init ==> j in ids;
      StoreTracksStored(markers, order, rows, init);
      var prev := StoreTracks(markers, order, rows, init);
      var t := SortByTime(WithId(rows, id));
      assert id in ids;
      TrackOfIsTrack(t, rows, id);
      if id !in prev.0 {
        StoreNew(prev.0, prev.1, id, t);
      }
    }
  }

  /** The key order grows by the loaded ids that were not stored before, in load order. */
  lemma {:induction false} StoreTracksOrder(markers: map<int, seq<TrajectoryPoint>>, order: seq<int>,
                                            rows: seq<TrajectoryPoint>, ids: seq<int>)
    requires forall id :: id in markers <==> id in order
    requires Distinct(ids)
    ensures StoreTracks(markers, order, rows, ids).1 == order + Absent(ids, order)
  {
    if ids != [] {
      var init := ids[..|ids| - 1];
      var id := ids[|ids| - 1];
      DistinctInit(ids);
      StoreTracksOrder(markers, order, rows, init);
      var prev := StoreTracks(markers, order, rows, init);
      StoreTracksHas(markers, order, rows, init, id);
      assert init + [id] == ids;
      AbsentSnoc(init, id, order);
      SnocAssoc(order, Absent(init, order), id);
    }
  }

  lemma SnocAssoc<T>(a: seq<T>, b: seq<T>, x: T)
    ensures (a + b) + [x] == a + (b + [x]) && a + (b + []) == a + b
  {
  }

  /** Dropping the last entry of a list without repeats leaves a list without
      repeats that does not hold that entry. */
  lemma DistinctInit(ids: seq<int>)
    requires Distinct(ids) && ids != []
    ensures Distinct(ids[..|ids| - 1]) && ids[|ids| - 1] !in ids[..|ids| - 1]
  {
    var init := ids[..|ids| - 1];
    forall k | 0 <= k < |init| ensures init[k] != ids[|ids| - 1] {
      assert init[k] == ids[k];
    }
  }

  /** A loaded id holds its sorted rows. */
  lemma {:induction false} StoreTracksLoadedAt(markers: map<int, seq<TrajectoryPoint>>, order: seq<int>,
                                               rows: seq<TrajectoryPoint>, ids: seq<int>, j: int)
    requires j in ids
    ensures j in StoreTracks(markers, order, rows, ids).0
    ensures StoreTracks(markers, order, rows, ids).0[j] == SortByTime(WithId(rows, j))
  {
    var init, last := ids[..|ids| - 1], ids[|ids| - 1];
    var prev := StoreTracks(markers, order, rows, init).0;
    var t := SortByTime(WithId(rows, last));
    assert StoreTracks(markers, order, rows, ids).0 == prev[last := t];
    if j != last {
      assert j in init by { assert ids == init + [last]; }
      StoreTracksLoadedAt(markers, order, rows, init, j);
      assert prev[last := t][j] == prev[j];
    }
  }

  /** A stored id that is not loaded keeps its track. */
  lemma {:induction false} StoreTracksKeptAt(markers: map<int, seq<TrajectoryPoint>>, order: seq<int>,
                                             rows: seq<TrajectoryPoint>, ids: seq<int>, j: int)
    requires j in markers && j !in ids
    ensures j in StoreTracks(markers, order, rows, ids).0
    ensures StoreTracks(markers, order, rows, ids).0[j] == markers[j]
  {
    if ids != [] {
      var init, last := ids[..|ids| - 1], ids[|ids| - 1];
      assert j !in init by { assert ids == init + [last]; }
      StoreTracksKeptAt(markers, order, rows, init, j);
      var prev := StoreTracks(markers, order, rows, init).0;
      assert StoreTracks(markers, order, rows, ids).0 == prev[last := SortByTime(WithId(rows, last))];
    }
  }

  /** Loading every id of the rows: the store stays consistent, the key order grows
      by the new ids in order of first appearance, the keys grow by the ids of the
      rows, each of which holds exactly its rows sorted by timestamp, and every other
      stored track is kept. */
  lemma StoreTracksLoaded(markers: map<int, seq<TrajectoryPoint>>, order: seq<int>, rows: seq<TrajectoryPoint>)
    requires Stored(markers, order)
    ensures var r := StoreTracks(markers, order, rows, UniqueIds(rows));
      && Stored(r.0, r.1)
      && r.1 == order + Absent(UniqueIds(rows), order)
      && r.0.Keys == markers.Keys + IdSet(rows)
      && (forall id :: id in IdSet(rows) ==> IsTrackOf(r.0[id], rows, id))
      && (forall id :: id in markers && id !in IdSet(rows) ==> r.0[id] == markers[id])
  {
    var ids := UniqueIds(rows);
    var m := StoreTracks(markers, order, rows, ids).0;
    StoreTracksStored(markers, order, rows, ids);
    StoreTracksOrder(markers, order, rows, ids);
    forall j ensures j in m <==> j in markers.Keys + IdSet(rows) {
      StoreTracksHas(markers, order, rows, ids, j);
    }
    forall j | j in IdSet(rows) ensures IsTrackOf(m[j], rows, j) {
      StoreTracksLoadedAt(markers, order, rows, ids, j);
    }
    forall j | j in markers && j !in IdSet(rows) ensures m[j] == markers[j] {
      StoreTracksKeptAt(markers, order, rows, ids, j);
    }
  }

  /** Sum of the sizes of the tracks stored under the listed ids. */
  function TrackSizes(ids: seq<int>, tracks: map<int, seq<TrajectoryPoint>>): nat
    requires forall id :: id in ids ==> id in tracks
  {
    if ids == [] then 0
    else
      var id := ids[|ids| - 1];
      assert id in ids;
      TrackSizes(ids[..|ids| - 1], tracks) + |tracks[id]|
  }

  lemma {:induction false} TrackSizesAreCounts(ids: seq<int>, rows: seq<TrajectoryPoint>, tracks: map<int, seq<TrajectoryPoint>>)
    requires forall id :: id in ids ==> id in tracks && IsTrackOf(tracks[id], rows, id)
    ensures TrackSizes(ids, tracks) == CountOver(ids, rows)
  {
    if ids != [] {
      var id := ids[|ids| - 1];
      TrackSizesAreCounts(ids[..|ids| - 1], rows, tracks);
      assert |multiset(tracks[id])| == |multiset(WithId(rows, id))|;
    }
  }

  /** The tracks built by load_data partition the rows: their sizes add up to the row count. */
  lemma LoadedTracksPartition(rows: seq<TrajectoryPoint>, tracks: map<int, seq<TrajectoryPoint>>)
    requires forall id :: id in IdSet(rows) ==> id in tracks && IsTrackOf(tracks[id], rows, id)
    ensures TrackSizes(UniqueIds(rows), tracks) == |rows|
  {
    TrackSizesAreCounts(UniqueIds(rows), rows, tracks);
    GroupsPartition(UniqueIds(rows), rows);
  }

  // ---------------------------------------------------------------------
  // Column operations, one row at a time (pandas diff, division, np.sqrt of
  // a sum of squares, cumsum, np.degrees, fillna)
  // ---------------------------------------------------------------------

  datatype Field = Time | X | Y | Z | RX | RY | RZ

  function FieldOf(p: TrajectoryPoint, f: Field): real
  {
    match f
    case Time => p.timestamp
    case X => p.x
    case Y => p.y
    case Z => p.z
    case RX => p.rx
    case RY => p.ry
    case RZ => p.rz
  }

  /** One field of every row, in row order. */
  function ColumnOf(track: seq<TrajectoryPoint>, f: Field): (r: seq<real>)
    ensures |r| == |track|
    ensures forall k :: 0 <= k < |track| ==> r[k] == FieldOf(track[k], f)
  {
    if track == [] then [] else ColumnOf(track[..|track| - 1], f) + [FieldOf(track[|track| - 1], f)]
  }

  /** Series.diff() of a field at row k (dt, dx, dy, dz, drx, dry, drz): undefined at row 0. */
  function Step(track: seq<TrajectoryPoint>, f: Field, k: int): Option<real>
    requires 0 <= k < |track|
  {
    if k == 0 then None else Some(FieldOf(track[k], f) - FieldOf(track[k - 1], f))
  }

  /** Series.diff() at a row past the first of a column that may hold undefined entries. */
  function Change(current: Option<real>, previous: Option<real>): Option<real>
  {
    if current.Some? && previous.Some? then Some(current.value - previous.value) else None
  }

  /** Element-wise division; dividing by zero yields NaN or +/-inf, i.e. undefined. */
  function Ratio(a: Option<real>, b: Option<real>): Option<real>
  {
    if a.Some? && b.Some? && b.value != 0.0 then Some(a.value / b.value) else None
  }

  /** np.sqrt(a**2 + b**2 + c**2), undefined where any component is. */
  function Norm(sqrt: real -> real, a: Option<real>, b: Option<real>, c: Option<real>): Option<real>
  {
    if a.Some? && b.Some? && c.Some?
    then Some(Root(sqrt, Square(a.value) + Square(b.value) + Square(c.value)))
    else None
  }

  /** The defined entries of a column, in order (replace(inf, nan).dropna()). */
  function Defined(c: Column): (r: seq<real>)
    ensures |r| <= |c|
  {
    if c == [] then [] else Defined(c[..|c| - 1]) + (if c[|c| - 1].Some? then [c[|c| - 1].value] else [])
  }

  /** Exactly the defined entries survive the dropna. */
  lemma {:induction false} DefinedMembers(c: Column)
    ensures forall v :: v in Defined(c) <==> Some(v) in c
  {
    if c != [] {
      var init := c[..|c| - 1];
      DefinedMembers(init);
      assert c == init + [c[|c| - 1]];
    }
  }

  /** Something survives the dropna exactly when some entry is defined. */
  lemma DefinedNonEmpty(c: Column)
    ensures (forall v :: v in Defined(c) <==> Some(v) in c)
    ensures Defined(c) != [] <==> exists v :: Some(v) in c
  {
    DefinedMembers(c);
    if exists v :: Some(v) in c {
      var v :| Some(v) in c;
      assert v in Defined(c);
    }
    if Defined(c) != [] {
      var v := Defined(c)[0];
      assert v in Defined(c);
      assert Some(v) in c;
    }
  }

  /** Series.cumsum(): undefined entries stay undefined and are skipped by the running total. */
  function CumSum(c: Column): (r: Column)
    ensures |r| == |c|
  {
    seq(|c|, k requires 0 <= k < |c| => if c[k].None? then None else Some(Sum(Defined(c[..k + 1]))))
  }

  /** fillna(0) as applied before the filter: every undefined entry becomes 0. */
  function FillNa(c: Column): (r: seq<real>)
    ensures |r| == |c|
    ensures forall k :: 0 <= k < |c| ==> r[k] == if c[k].Some? then c[k].value else 0.0
  {
    if c == [] then [] else FillNa(c[..|c| - 1]) + [if c[|c| - 1].Some? then c[|c| - 1].value else 0.0]
  }

  /** A fully defined column. */
  function Lift(xs: seq<real>): (r: Column)
    ensures |r| == |xs|
    ensures forall k :: 0 <= k < |xs| ==> r[k] == Some(xs[k])
  {
    if xs == [] then [] else Lift(xs[..|xs| - 1]) + [Some(xs[|xs| - 1])]
  }

  /** The filter keeps the length of the column it smooths. */
  ghost predicate LengthPreserving(savgol: (seq<real>, int) -> seq<real>)
  {
    forall s, w :: |savgol(s, w)| == |s|
  }

  // ---------------------------------------------------------------------
  // calculate_metrics for one track
  // ---------------------------------------------------------------------

  /** vx, vy, vz (positions) or omega_x, omega_y, omega_z (orientations) at row k:
      the field's diff over dt. */
  function RateRow(track: seq<TrajectoryPoint>, f: Field, k: int): Option<real>
    requires 0 <= k < |track|
  {
    Ratio(Step(track, f, k), Step(track, Time, k))
  }

  /** ax, ay, az at row k: the diff of the velocity column over the same row's dt. */
  function RateChangeRow(track: seq<TrajectoryPoint>, f: Field, k: int): Option<real>
    requires 0 <= k < |track|
  {
    if k == 0 then None else Ratio(Change(RateRow(track, f, k), RateRow(track, f, k - 1)), Step(track, Time, k))
  }

  /** distance at row k: the length of the step from the previous row. */
  function DistanceRow(track: seq<TrajectoryPoint>, sqrt: real -> real, k: int): Option<real>
    requires 0 <= k < |track|
  {
    Norm(sqrt, Step(track, X, k), Step(track, Y, k), Step(track, Z, k))
  }

  function SpeedRow(track: seq<TrajectoryPoint>, sqrt: real -> real, k: int): Option<real>
    requires 0 <= k < |track|
  {
    Norm(sqrt, RateRow(track, X, k), RateRow(track, Y, k), RateRow(track, Z, k))
  }

  function AccelerationRow(track: seq<TrajectoryPoint>, sqrt: real -> real, k: int): Option<real>
    requires 0 <= k < |track|
  {
    Norm(sqrt, RateChangeRow(track, X, k), RateChangeRow(track, Y, k), RateChangeRow(track, Z, k))
  }

  function AngularSpeedRow(track: seq<TrajectoryPoint>, sqrt: real -> real, k: int): Option<real>
    requires 0 <= k < |track|
  {
    Norm(sqrt, RateRow(track, RX, k), RateRow(track, RY, k), RateRow(track, RZ, k))
  }

  /** np.degrees of an orientation field at row k. */
  function DegreesRow(track: seq<TrajectoryPoint>, f: Field, k: int): Option<real>
    requires 0 <= k < |track|
  {
    Some(FieldOf(track[k], f) * DEGREES_PER_RADIAN)
  }

  function TimeSteps(track: seq<TrajectoryPoint>): (r: Column)
    ensures |r| == |track|
  {
    seq(|track|, k requires 0 <= k < |track| => Step(track, Time, k))
  }

  function Rates(track: seq<TrajectoryPoint>, f: Field): (r: Column)
    ensures |r| == |track|
  {
    seq(|track|, k requires 0 <= k < |track| => RateRow(track, f, k))
  }

  function RateChanges(track: seq<TrajectoryPoint>, f: Field): (r: Column)
    ensures |r| == |track|
  {
    seq(|track|, k requires 0 <= k < |track| => RateChangeRow(track, f, k))
  }

  function Distances(track: seq<TrajectoryPoint>, sqrt: real -> real): (r: Column)
    ensures |r| == |track|
  {
    seq(|track|, k requires 0 <= k < |track| => DistanceRow(track, sqrt, k))
  }

  function Speeds(track: seq<TrajectoryPoint>, sqrt: real -> real): (r: Column)
    ensures |r| == |track|
  {
    seq(|track|, k requires 0 <= k < |track| => SpeedRow(track, sqrt, k))
  }

  function Accelerations(track: seq<TrajectoryPoint>, sqrt: real -> real): (r: Column)
    ensures |r| == |track|
  {
    seq(|track|, k requires 0 <= k < |track| => AccelerationRow(track, sqrt, k))
  }

  function AngularSpeeds(track: seq<TrajectoryPoint>, sqrt: real -> real): (r: Column)
    ensures |r| == |track|
  {
    seq(|track|, k requires 0 <= k < |track| => AngularSpeedRow(track, sqrt, k))
  }

  function DegreesOf(track: seq<TrajectoryPoint>, f: Field): (r: Column)
    ensures |r| == |track|
  {
    seq(|track|, k requires 0 <= k < |track| => DegreesRow(track, f, k))
  }

  /** The pre-smoothing copies kept as `<col>_raw` when smoothing ran. */
  datatype RawColumns = RawColumns(
    speed: Column, acceleration: Column, angularSpeed: Column,
    rxDeg: Column, ryDeg: Column, rzDeg: Column)

  /** The dataframe calculate_metrics returns for one marker. */
  datatype Metrics = Metrics(
    track: seq<TrajectoryPoint>,
    dt: Column, distance: Column, cumulativeDistance: Column,
    vx: Column, vy: Column, vz: Column, speed: Column,
    ax: Column, ay: Column, az: Column, acceleration: Column,
    omegaX: Column, omegaY: Column, omegaZ: Column, angularSpeed: Column,
    rxDeg: Column, ryDeg: Column, rzDeg: Column,
    raw: Option<RawColumns>)

  /** Every column assignment of calculate_metrics before the smoothing step
      (dx, dy, dz, drx, dry, drz are the Steps inside the rows). */
  function Unsmoothed(track: seq<TrajectoryPoint>, sqrt: real -> real): (m: Metrics)
    ensures m.track == track && m.raw.None?
    ensures |m.speed| == |m.acceleration| == |m.angularSpeed| == |track|
    ensures |m.rxDeg| == |m.ryDeg| == |m.rzDeg| == |track|
  {
    var distance := Distances(track, sqrt);
    Metrics(track, TimeSteps(track), distance, CumSum(distance),
            Rates(track, X), Rates(track, Y), Rates(track, Z), Speeds(track, sqrt),
            RateChanges(track, X), RateChanges(track, Y), RateChanges(track, Z), Accelerations(track, sqrt),
            Rates(track, RX), Rates(track, RY), Rates(track, RZ), AngularSpeeds(track, sqrt),
            DegreesOf(track, RX), DegreesOf(track, RY), DegreesOf(track, RZ),
            None)
  }

  /** savgol_filter over a column after fillna(0). */
  function Filtered(savgol: (seq<real>, int) -> seq<real>, c: Column, window: int): (r: Column)
    requires LengthPreserving(savgol)
    ensures |r| == |c|
    ensures forall k :: 0 <= k < |r| ==> r[k].Some?
  {
    Lift(savgol(FillNa(c), window))
  }

  /** calculate_metrics for one stored track: the columns, then smoothing of speed,
      acceleration, angular_speed and the degree columns when `smooth` holds and the
      track has more rows than `window`, keeping the unsmoothed copies. */
  function TrackMetrics(track: seq<TrajectoryPoint>, smooth: bool, window: int,
                        sqrt: real -> real, savgol: (seq<real>, int) -> seq<real>): (m: Metrics)
    requires LengthPreserving(savgol)
    ensures m.track == track
    ensures m.raw.Some? <==> smooth && |track| > window
  {
    var b := Unsmoothed(track, sqrt);
    if smooth && |track| > window then
      b.(raw := Some(RawColumns(b.speed, b.acceleration, b.angularSpeed, b.rxDeg, b.ryDeg, b.rzDeg)),
         speed := Filtered(savgol, b.speed, window),
         acceleration := Filtered(savgol, b.acceleration, window),
         angularSpeed := Filtered(savgol, b.angularSpeed, window),
         rxDeg := Filtered(savgol, b.rxDeg, window),
         ryDeg := Filtered(savgol, b.ryDeg, window),
         rzDeg := Filtered(savgol, b.rzDeg, window))
    else b
  }

  /** Smoothing replaces speed, acceleration, angular_speed and the degree columns by
      their filtered values, keeps the unfiltered ones as the raw copies, and leaves
      every other column as computed; without smoothing nothing changes. */
  lemma SmoothingStep(track: seq<TrajectoryPoint>, smooth: bool, window: int,
                      sqrt: real -> real, savgol: (seq<real>, int) -> seq<real>)
    requires LengthPreserving(savgol)
    ensures var m, b := TrackMetrics(track, smooth, window, sqrt, savgol), Unsmoothed(track, sqrt);
      && m.(speed := b.speed, acceleration := b.acceleration, angularSpeed := b.angularSpeed,
            rxDeg := b.rxDeg, ryDeg := b.ryDeg, rzDeg := b.rzDeg, raw := None) == b
      && (m.raw.None? ==> m == b)
      && (m.raw.Some? ==>
            && m.raw.value == RawColumns(b.speed, b.acceleration, b.angularSpeed, b.rxDeg, b.ryDeg, b.rzDeg)
            && m.speed == Filtered(savgol, b.speed, window)
            && m.acceleration == Filtered(savgol, b.acceleration, window)
            && m.angularSpeed == Filtered(savgol, b.angularSpeed, window)
            && m.rxDeg == Filtered(savgol, b.rxDeg, window)
            && m.ryDeg == Filtered(savgol, b.ryDeg, window)
            && m.rzDeg == Filtered(savgol, b.rzDeg, window)
            && |m.speed| == |m.acceleration| == |m.angularSpeed| == |track|
            && |m.rxDeg| == |m.ryDeg| == |m.rzDeg| == |track|
            && forall k :: 0 <= k < |track| ==>
                 m.speed[k].Some? && m.acceleration[k].Some? && m.angularSpeed[k].Some?)
  {
  }

  // ---------------------------------------------------------------------
  // Properties of the per-row formulas
  // ---------------------------------------------------------------------

  /** Row 0 has no previous row: every derived quantity except the degree columns is
      undefined there. */
  lemma FirstRowUndefined(track: seq<TrajectoryPoint>, sqrt: real -> real)
    requires track != []
    ensures var m := Unsmoothed(track, sqrt);
      && m.dt[0].None? && m.distance[0].None? && m.cumulativeDistance[0].None?
      && m.vx[0].None? && m.vy[0].None? && m.vz[0].None? && m.speed[0].None?
      && m.ax[0].None? && m.ay[0].None? && m.az[0].None? && m.acceleration[0].None?
      && m.omegaX[0].None? && m.omegaY[0].None? && m.omegaZ[0].None? && m.angularSpeed[0].None?
      && m.rxDeg[0].Some? && m.ryDeg[0].Some? && m.rzDeg[0].Some?
  {
  }

  /** A rate (velocity, angular velocity) is the forward difference of the field over
      the current row's dt, with no wrap-around: undefined at row 0 and wherever dt is 0. */
  lemma RateAt(track: seq<TrajectoryPoint>, f: Field, k: int)
    requires 0 <= k < |track|
    ensures Rates(track, f)[k].Some? <==> k >= 1 && track[k].timestamp != track[k - 1].timestamp
    ensures Rates(track, f)[k].Some? ==>
      Rates(track, f)[k].value
        == (FieldOf(track[k], f) - FieldOf(track[k - 1], f)) / (track[k].timestamp - track[k - 1].timestamp)
  {
  }

  /** Acceleration divides the change of velocity by the CURRENT row's dt; it is
      defined only from row 2 on, when both velocities exist and dt is non-zero. */
  lemma RateChangeAt(track: seq<TrajectoryPoint>, f: Field, k: int)
    requires 0 <= k < |track|
    ensures RateChanges(track, f)[k].Some? <==>
      k >= 2 && track[k].timestamp != track[k - 1].timestamp
             && track[k - 1].timestamp != track[k - 2].timestamp
    ensures RateChanges(track, f)[k].Some? ==>
      RateChanges(track, f)[k].value
        == (Rates(track, f)[k].value - Rates(track, f)[k - 1].value) / (track[k].timestamp - track[k - 1].timestamp)
  {
  }

  /** A magnitude is never negative when the root is not. */
  lemma NormNonNegative(sqrt: real -> real, a: Option<real>, b: Option<real>, c: Option<real>)
    requires NonNegativeRoot(sqrt)
    ensures Norm(sqrt, a, b, c).Some? ==> 0.0 <= Norm(sqrt, a, b, c).value
  {
    if a.Some? && b.Some? && c.Some? {
      RootNonNegative(sqrt, Square(a.value) + Square(b.value) + Square(c.value));
    }
  }

  /** speed and angular_speed exist exactly from row 1 where dt is non-zero, and
      acceleration exactly from row 2 where both dt are non-zero; none of them is
      ever negative. */
  lemma MagnitudeAt(track: seq<TrajectoryPoint>, sqrt: real -> real, k: int)
    requires 0 <= k < |track|
    ensures Speeds(track, sqrt)[k].Some? <==> k >= 1 && track[k].timestamp != track[k - 1].timestamp
    ensures AngularSpeeds(track, sqrt)[k].Some? <==> k >= 1 && track[k].timestamp != track[k - 1].timestamp
    ensures Accelerations(track, sqrt)[k].Some? <==>
      k >= 2 && track[k].timestamp != track[k - 1].timestamp
             && track[k - 1].timestamp != track[k - 2].timestamp
    ensures NonNegativeRoot(sqrt) ==>
      && (Speeds(track, sqrt)[k].Some? ==> 0.0 <= Speeds(track, sqrt)[k].value)
      && (AngularSpeeds(track, sqrt)[k].Some? ==> 0.0 <= AngularSpeeds(track, sqrt)[k].value)
      && (Accelerations(track, sqrt)[k].Some? ==> 0.0 <= Accelerations(track, sqrt)[k].value)
  {
    RateAt(track, X, k);
    RateAt(track, RX, k);
    RateChangeAt(track, X, k);
    RateAt(track, Y, k);
    RateAt(track, Z, k);
    RateAt(track, RY, k);
    RateAt(track, RZ, k);
    RateChangeAt(track, Y, k);
    RateChangeAt(track, Z, k);
    if NonNegativeRoot(sqrt) {
      NormNonNegative(sqrt, Rates(track, X)[k], Rates(track, Y)[k], Rates(track, Z)[k]);
      NormNonNegative(sqrt, Rates(track, RX)[k], Rates(track, RY)[k], Rates(track, RZ)[k]);
      NormNonNegative(sqrt, RateChanges(track, X)[k], RateChanges(track, Y)[k], RateChanges(track, Z)[k]);
    }
  }

  /** The degree columns are defined at every row, convert back to the radians, and
      order the rows as the radians do (a plain scaling, no wrapping). */
  lemma DegreesAt(track: seq<TrajectoryPoint>, f: Field, i: int, j: int)
    requires 0 <= i < |track| && 0 <= j < |track|
    ensures DegreesOf(track, f)[i].Some?
    ensures DegreesOf(track, f)[i].value / DEGREES_PER_RADIAN == FieldOf(track[i], f)
    ensures FieldOf(track[i], f) <= FieldOf(track[j], f)
      <==> DegreesOf(track, f)[i].value <= DegreesOf(track, f)[j].value
  {
  }

  /** A turn from 3.1 rad to -3.1 rad in one second reads as -6.2 rad/s, not as the
      0.08 rad/s short way round, and 3.2 rad reads as more than 180 degrees. */
  lemma NoAngleWrap()
    ensures var track := [TrajectoryPoint(0.0, 0, 0, 0.0, 0.0, 0.0, 3.1, 0.0, 0.0),
                          TrajectoryPoint(1.0, 1, 0, 0.0, 0.0, 0.0, -3.1, 0.0, 3.2)];
      Rates(track, RX)[1] == Some(-6.2) && DegreesOf(track, RZ)[1].value > 180.0
  {
  }

  /** Uniform motion: when a field changes in proportion to time, its rate is that
      proportion wherever dt is non-zero, and its rate of change is 0 wherever defined. */
  lemma {:induction false} UniformMotion(track: seq<TrajectoryPoint>, f: Field, v: real, c: real)
    requires forall k :: 0 <= k < |track| ==> FieldOf(track[k], f) == c + v * track[k].timestamp
    ensures forall k :: 0 <= k < |track| && Rates(track, f)[k].Some? ==> Rates(track, f)[k].value == v
    ensures forall k :: 0 <= k < |track| && RateChanges(track, f)[k].Some? ==> RateChanges(track, f)[k].value == 0.0
  {
    forall k | 0 <= k < |track| && RateRow(track, f, k).Some?
      ensures RateRow(track, f, k).value == v
    {
      UniformStep(track, f, v, c, k);
    }
    forall k | 0 <= k < |track| && RateChangeRow(track, f, k).Some?
      ensures RateChangeRow(track, f, k).value == 0.0
    {
      UniformStep(track, f, v, c, k);
      UniformStep(track, f, v, c, k - 1);
    }
  }

  lemma UniformStep(track: seq<TrajectoryPoint>, f: Field, v: real, c: real, k: int)
    requires 0 <= k < |track|
    requires FieldOf(track[k], f) == c + v * track[k].timestamp
    requires k > 0 ==> FieldOf(track[k - 1], f) == c + v * track[k - 1].timestamp
    ensures RateRow(track, f, k).Some? ==> RateRow(track, f, k).value == v
  {
    if RateRow(track, f, k).Some? {
      var dt := track[k].timestamp - track[k - 1].timestamp;
      assert FieldOf(track[k], f) - FieldOf(track[k - 1], f) == v * dt;
    }
  }

  /** The squared length of the step from row i to row i + 1. */
  function SquaredStep(track: seq<TrajectoryPoint>, i: nat): real
    requires i + 1 < |track|
  {
    Square(track[i + 1].x - track[i].x) + Square(track[i + 1].y - track[i].y) + Square(track[i + 1].z - track[i].z)
  }

  /** The length of each step between consecutive rows. */
  function StepLengths(track: seq<TrajectoryPoint>, sqrt: real -> real): (r: seq<real>)
    ensures |r| == if track == [] then 0 else |track| - 1
    ensures forall i :: 0 <= i < |r| ==> r[i] == Root(sqrt, SquaredStep(track, i))
  {
    if |track| <= 1 then []
    else
      var init := track[..|track| - 1];
      assert forall i :: 0 <= i < |track| - 2 ==> SquaredStep(init, i) == SquaredStep(track, i);
      StepLengths(init, sqrt) + [Root(sqrt, SquaredStep(track, |track| - 2))]
  }

  /** The distance column holds nothing at row 0 and the step length from the
      previous row everywhere else. */
  lemma StepDistanceAt(track: seq<TrajectoryPoint>, sqrt: real -> real, k: int)
    requires 0 <= k < |track|
    ensures Distances(track, sqrt)[k] == if k == 0 then None else Some(StepLengths(track, sqrt)[k - 1])
  {
    DistanceRowStep(track, sqrt, k);
    assert Distances(track, sqrt)[k] == DistanceRow(track, sqrt, k);
  }

  /** Row k of the distance column, from the step that ends at row k. */
  lemma DistanceRowStep(track: seq<TrajectoryPoint>, sqrt: real -> real, k: int)
    requires 0 <= k < |track|
    ensures DistanceRow(track, sqrt, k) == if k == 0 then None else Some(Root(sqrt, SquaredStep(track, k - 1)))
  {
    if k > 0 {
      var p, q := track[k - 1], track[k];
      assert Step(track, X, k) == Some(q.x - p.x);
      assert Step(track, Y, k) == Some(q.y - p.y);
      assert Step(track, Z, k) == Some(q.z - p.z);
    }
  }

  /** Dropping the leading undefined entry of a column shifted by one row. */
  lemma {:induction false} DefinedShifted(c: Column, s: seq<real>, k: nat)
    requires |c| == |s| + 1 && k < |c|
    requires c[0] == None && forall i :: 1 <= i < |c| ==> c[i] == Some(s[i - 1])
    ensures Defined(c[..k + 1]) == s[..k]
  {
    if k == 0 {
      assert c[..1] == [None];
    } else {
      DefinedShifted(c, s, k - 1);
      assert c[..k + 1][..k] == c[..k];
      assert s[..k] == s[..k - 1] + [s[k - 1]];
    }
  }

  lemma DefinedDistancePrefix(track: seq<TrajectoryPoint>, sqrt: real -> real, k: nat)
    requires k < |track|
    ensures Defined(Distances(track, sqrt)[..k + 1]) == StepLengths(track, sqrt)[..k]
  {
    var d := Distances(track, sqrt);
    forall i | 0 <= i < |d| ensures d[i] == if i == 0 then None else Some(StepLengths(track, sqrt)[i - 1]) {
      StepDistanceAt(track, sqrt, i);
    }
    DefinedShifted(d, StepLengths(track, sqrt), k);
  }

  /** cumulative_distance is undefined at row 0 and from row 1 on is the sum of the
      step lengths so far. */
  lemma CumulativeDistanceAt(track: seq<TrajectoryPoint>, sqrt: real -> real, k: int)
    requires 0 <= k < |track|
    ensures var c := CumSum(Distances(track, sqrt));
      |c| == |track| && if k == 0 then c[k] == None else c[k] == Some(Sum(StepLengths(track, sqrt)[..k]))
  {
    if k > 0 {
      DefinedDistancePrefix(track, sqrt, k);
    }
  }

  lemma {:induction false} SumPrefixMonotone(s: seq<real>, i: nat, j: nat)
    requires i <= j <= |s|
    requires forall k :: 0 <= k < |s| ==> 0.0 <= s[k]
    ensures Sum(s[..i]) <= Sum(s[..j])
  {
    if i < j {
      SumPrefixMonotone(s, i, j - 1);
      assert s[..j][..j - 1] == s[..j - 1];
    }
  }

  lemma StepLengthsNonNegative(track: seq<TrajectoryPoint>, sqrt: real -> real)
    requires NonNegativeRoot(sqrt)
    ensures forall k :: 0 <= k < |StepLengths(track, sqrt)| ==> 0.0 <= StepLengths(track, sqrt)[k]
  {
    var steps := StepLengths(track, sqrt);
    forall k | 0 <= k < |steps| ensures 0.0 <= steps[k] {
      RootNonNegative(sqrt, SquaredStep(track, k));
    }
  }

  /** With a non-negative square root, cumulative_distance never decreases. */
  lemma CumulativeDistanceNonDecreasing(track: seq<TrajectoryPoint>, sqrt: real -> real, i: int, j: int)
    requires NonNegativeRoot(sqrt)
    requires 1 <= i <= j < |track|
    ensures var c := CumSum(Distances(track, sqrt));
      c[i].Some? && c[j].Some? && c[i].value <= c[j].value
  {
    CumulativeDistanceAt(track, sqrt, i);
    CumulativeDistanceAt(track, sqrt, j);
    StepLengthsNonNegative(track, sqrt);
    SumPrefixMonotone(StepLengths(track, sqrt), i, j);
  }

  /** When the last entry of a column is defined and no defined entry exceeds it,
      the column's maximum is that entry. */
  lemma MaxIsLast(c: Column)
    requires c != [] && c[|c| - 1].Some?
    requires forall i :: 0 <= i < |c| && c[i].Some? ==> c[i].value <= c[|c| - 1].value
    ensures OptMax(Defined(c)) == Some(c[|c| - 1].value)
  {
    var d := Defined(c);
    var last := c[|c| - 1].value;
    DefinedMembers(c);
    assert Some(last) in c;
    forall v | v in d ensures v <= last {
      var i :| 0 <= i < |c| && c[i] == Some(v);
    }
  }

  /** No cumulative_distance exceeds the last one, which is the sum of all steps. */
  lemma CumulativeDistanceBelowLast(track: seq<TrajectoryPoint>, sqrt: real -> real)
    requires NonNegativeRoot(sqrt) && |track| >= 2
    ensures var c := CumSum(Distances(track, sqrt));
      && c[|c| - 1] == Some(Sum(StepLengths(track, sqrt)))
      && forall i :: 0 <= i < |c| && c[i].Some? ==> c[i].value <= c[|c| - 1].value
  {
    var n := |track|;
    CumulativeDistanceAt(track, sqrt, n - 1);
    assert StepLengths(track, sqrt)[..n - 1] == StepLengths(track, sqrt);
    forall i | 0 <= i < n ensures CumSum(Distances(track, sqrt))[i].Some? ==>
      CumSum(Distances(track, sqrt))[i].value <= CumSum(Distances(track, sqrt))[n - 1].value
    {
      BelowLast(track, sqrt, i);
    }
  }

  lemma BelowLast(track: seq<TrajectoryPoint>, sqrt: real -> real, i: int)
    requires NonNegativeRoot(sqrt) && 0 <= i < |track|
    ensures var c := CumSum(Distances(track, sqrt));
      c[i].Some? ==> c[i].value <= c[|c| - 1].value
  {
    if i == 0 {
      CumulativeDistanceAt(track, sqrt, 0);
    } else {
      CumulativeDistanceNonDecreasing(track, sqrt, i, |track| - 1);
    }
  }

  /** The largest cumulative_distance (the reported total) is the last one, the sum
      of all step lengths; a single-row track has none. */
  lemma MaxCumulativeDistance(track: seq<TrajectoryPoint>, sqrt: real -> real)
    requires NonNegativeRoot(sqrt) && track != []
    ensures OptMax(Defined(CumSum(Distances(track, sqrt))))
      == if |track| == 1 then None else Some(Sum(StepLengths(track, sqrt)))
  {
    if |track| == 1 {
      SingleRowCumulative(track, sqrt);
    } else {
      CumulativeDistanceBelowLast(track, sqrt);
      MaxIsLast(CumSum(Distances(track, sqrt)));
    }
  }

  lemma SingleRowCumulative(track: seq<TrajectoryPoint>, sqrt: real -> real)
    requires |track| == 1
    ensures Defined(CumSum(Distances(track, sqrt))) == []
  {
    var c := CumSum(Distances(track, sqrt));
    CumulativeDistanceAt(track, sqrt, 0);
    assert c == [None];
    assert c[..0] == [];
  }

  // ---------------------------------------------------------------------
  // print_summary statistics
  // ---------------------------------------------------------------------

  /** [min, max] of a column; the printed range is hi - lo. */
  datatype Range = Range(lo: real, hi: real)
  datatype SpeedStats = SpeedStats(mean: real, max: real, min: real)
  datatype PeakStats = PeakStats(mean: real, max: real)

  datatype Summary = Summary(
    duration: real, dataPoints: nat, sampleRate: Option<real>,
    x: Range, y: Range, z: Range,
    totalDistance: Option<real>, meanStep: Option<real>,
    speed: Option<SpeedStats>, acceleration: Option<PeakStats>,
    rxDeg: Option<Range>, ryDeg: Option<Range>, rzDeg: Option<Range>,
    angularSpeed: Option<PeakStats>)

  function RangeOf(s: seq<real>): (r: Range)
    requires s != []
    ensures r.lo <= r.hi
    ensures forall k :: 0 <= k < |s| ==> r.lo <= s[k] <= r.hi
    ensures r.lo in s && r.hi in s
  {
    Range(Min(s), Max(s))
  }

  /** pandas min/max skip undefined entries; with none defined the result is NaN. */
  function OptRange(s: seq<real>): Option<Range>
  {
    if s == [] then None else Some(RangeOf(s))
  }

  function OptMax(s: seq<real>): Option<real>
  {
    if s == [] then None else Some(Max(s))
  }

  function OptMean(s: seq<real>): Option<real>
  {
    if s == [] then None else Some(Mean(s))
  }

  function SpeedStatsOf(s: seq<real>): (r: Option<SpeedStats>)
    ensures r.Some? <==> s != []
    ensures r.Some? ==> r.value.min <= r.value.mean <= r.value.max
    ensures r.Some? ==> forall k :: 0 <= k < |s| ==> r.value.min <= s[k] <= r.value.max
  {
    if s == [] then None
    else
      MeanBetween(s);
      Some(SpeedStats(Mean(s), Max(s), Min(s)))
  }

  function PeakStatsOf(s: seq<real>): (r: Option<PeakStats>)
    ensures r.Some? <==> s != []
    ensures r.Some? ==> r.value.mean <= r.value.max
    ensures r.Some? ==> forall k :: 0 <= k < |s| ==> s[k] <= r.value.max
  {
    if s == [] then None
    else
      MeanBetween(s);
      Some(PeakStats(Mean(s), Max(s)))
  }

  /** The time span of a track: latest minus earliest timestamp. */
  function Duration(track: seq<TrajectoryPoint>): (d: real)
    requires track != []
    ensures 0.0 <= d
    ensures forall i, j :: 0 <= i < |track| && 0 <= j < |track| ==>
      track[j].timestamp - track[i].timestamp <= d
  {
    var t := ColumnOf(track, Time);
    assert forall k :: 0 <= k < |track| ==> t[k] == track[k].timestamp;
    Max(t) - Min(t)
  }

  /** Data points over duration; a zero duration divides by zero (inf), i.e. undefined. */
  function SampleRate(n: nat, duration: real): (r: Option<real>)
    ensures r.Some? <==> duration != 0.0
    ensures r.Some? ==> r.value * duration == n as real
  {
    if duration == 0.0 then None else Some((n as real) / duration)
  }

  /** The statistics print_summary reports for one marker's metrics. */
  function Summarize(m: Metrics): Summary
    requires m.track != []
  {
    var duration := Duration(m.track);
    Summary(duration, |m.track|, SampleRate(|m.track|, duration),
            RangeOf(ColumnOf(m.track, X)), RangeOf(ColumnOf(m.track, Y)), RangeOf(ColumnOf(m.track, Z)),
            OptMax(Defined(m.cumulativeDistance)), OptMean(Defined(m.distance)),
            SpeedStatsOf(Defined(m.speed)), PeakStatsOf(Defined(m.acceleration)),
            OptRange(Defined(m.rxDeg)), OptRange(Defined(m.ryDeg)), OptRange(Defined(m.rzDeg)),
            PeakStatsOf(Defined(m.angularSpeed)))
  }

  /** The time and position part of the summary: the number of rows, the duration and
      the rate derived from them, and position ranges that contain every row. */
  lemma SummaryTimeAndPosition(m: Metrics)
    requires m.track != []
    ensures var s := Summarize(m);
      && s.dataPoints == |m.track|
      && s.duration == Duration(m.track) && s.sampleRate == SampleRate(|m.track|, s.duration)
      && forall k :: 0 <= k < |m.track| ==>
           s.x.lo <= m.track[k].x <= s.x.hi && s.y.lo <= m.track[k].y <= s.y.hi && s.z.lo <= m.track[k].z <= s.z.hi
  {
    var xs, ys, zs := ColumnOf(m.track, X), ColumnOf(m.track, Y), ColumnOf(m.track, Z);
    assert forall k :: 0 <= k < |m.track| ==> xs[k] == m.track[k].x && ys[k] == m.track[k].y && zs[k] == m.track[k].z;
  }

  /** Speed statistics are reported exactly when some speed is defined (not NaN or inf);
      then minimum <= mean <= maximum and every defined speed lies between minimum and maximum. */
  lemma SummarySpeed(m: Metrics)
    requires m.track != []
    ensures var s := Summarize(m);
      && (s.speed.Some? <==> exists v :: Some(v) in m.speed)
      && (s.speed.Some? ==> s.speed.value.min <= s.speed.value.mean <= s.speed.value.max)
      && (s.speed.Some? ==> forall v :: Some(v) in m.speed ==> s.speed.value.min <= v <= s.speed.value.max)
  {
    DefinedNonEmpty(m.speed);
    var speeds := Defined(m.speed);
    forall v | Some(v) in m.speed ensures v in speeds {
    }
  }

  /** Acceleration and angular speed statistics are reported exactly when some value is
      defined; then the mean is at most the maximum, which bounds every defined value. */
  lemma SummaryPeaks(m: Metrics)
    requires m.track != []
    ensures var s := Summarize(m);
      && (s.acceleration.Some? <==> exists v :: Some(v) in m.acceleration)
      && (s.acceleration.Some? ==> s.acceleration.value.mean <= s.acceleration.value.max)
      && (s.acceleration.Some? ==> forall v :: Some(v) in m.acceleration ==> v <= s.acceleration.value.max)
      && (s.angularSpeed.Some? <==> exists v :: Some(v) in m.angularSpeed)
      && (s.angularSpeed.Some? ==> s.angularSpeed.value.mean <= s.angularSpeed.value.max)
      && (s.angularSpeed.Some? ==> forall v :: Some(v) in m.angularSpeed ==> v <= s.angularSpeed.value.max)
  {
    DefinedNonEmpty(m.acceleration);
    DefinedNonEmpty(m.angularSpeed);
    var accels, omegas := Defined(m.acceleration), Defined(m.angularSpeed);
    forall v | Some(v) in m.acceleration ensures v in accels {
    }
    forall v | Some(v) in m.angularSpeed ensures v in omegas {
    }
  }

  /** On a track sorted by time the duration is last minus first timestamp. */
  lemma DurationOfSortedTrack(track: seq<TrajectoryPoint>)
    requires track != [] && SortedByTime(track)
    ensures Duration(track) == track[|track| - 1].timestamp - track[0].timestamp
  {
    var t := ColumnOf(track, Time);
    assert Min(t) == t[0] by {
      assert forall k :: 0 <= k < |t| ==> t[0] <= t[k];
    }
    assert Max(t) == t[|t| - 1] by {
      assert forall k :: 0 <= k < |t| ==> t[k] <= t[|t| - 1];
    }
  }

  /** The summary of a stored track counts its rows and spans its first to its last timestamp. */
  lemma SummaryOfTrack(track: seq<TrajectoryPoint>, sqrt: real -> real, savgol: (seq<real>, int) -> seq<real>)
    requires LengthPreserving(savgol) && track != [] && SortedByTime(track)
    ensures var s := Summarize(TrackMetrics(track, SUMMARY_SMOOTH, SUMMARY_WINDOW, sqrt, savgol));
      s.dataPoints == |track| && s.duration == track[|track| - 1].timestamp - track[0].timestamp
  {
    SummaryTimeAndPosition(TrackMetrics(track, SUMMARY_SMOOTH, SUMMARY_WINDOW, sqrt, savgol));
    DurationOfSortedTrack(track);
  }

  /** The reported total distance of a track is the sum of its step lengths,
      whether or not smoothing ran; a single-row track reports none. */
  lemma SummaryTotalDistance(track: seq<TrajectoryPoint>, smooth: bool, window: int,
                             sqrt: real -> real, savgol: (seq<real>, int) -> seq<real>)
    requires LengthPreserving(savgol) && NonNegativeRoot(sqrt) && track != []
    ensures Summarize(TrackMetrics(track, smooth, window, sqrt, savgol)).totalDistance
      == if |track| == 1 then None else Some(Sum(StepLengths(track, sqrt)))
  {
    var m := TrackMetrics(track, smooth, window, sqrt, savgol);
    assert m.cumulativeDistance == Unsmoothed(track, sqrt).cumulativeDistance;
    MaxCumulativeDistance(track, sqrt);
  }

  // ---------------------------------------------------------------------
  // export_analysis column selection
  // ---------------------------------------------------------------------

  const EXPORT_COLUMNS: seq<string> := [
    "timestamp", "marker_id", "x", "y", "z",
    "vx", "vy", "vz", "speed",
    "ax", "ay", "az", "acceleration",
    "distance", "cumulative_distance",
    "rx_deg", "ry_deg", "rz_deg",
    "omega_x", "omega_y", "omega_z", "angular_speed"]

  /** The columns calculate_metrics adds to a track's dataframe. */
  const DERIVED_COLUMNS: seq<string> := [
    "dt", "dx", "dy", "dz", "distance", "cumulative_distance",
    "vx", "vy", "vz", "speed", "ax", "ay", "az", "acceleration",
    "drx", "dry", "drz", "omega_x", "omega_y", "omega_z", "angular_speed",
    "rx_deg", "ry_deg", "rz_deg"]

  /** The exported columns for the given per-marker results, or None when there
      are no results: pd.concat of an empty list raises. */
  function ExportSelection(header: seq<string>, results: map<int, Metrics>): (r: Option<seq<string>>)
    ensures r.None? <==> results == map[]
    ensures r.Some? ==> forall c :: c in r.value <==> c in EXPORT_COLUMNS && c in header + DERIVED_COLUMNS
  {
    if results == map[] then None
    else
      var cols := header + DERIVED_COLUMNS;
      assert forall c :: c in Present(EXPORT_COLUMNS, cols) <==> c in EXPORT_COLUMNS && c in cols by {
        forall c ensures c in Present(EXPORT_COLUMNS, cols) <==> c in EXPORT_COLUMNS && c in cols {
          PresentHas(EXPORT_COLUMNS, cols, c);
        }
      }
      Some(Present(EXPORT_COLUMNS, cols))
  }

  /** For a file that passed load_data's column check, all 22 export columns are written, in order. */
  lemma ExportKeepsAllColumns(header: seq<string>, results: map<int, Metrics>)
    requires MissingColumns(header) == [] && results != map[]
    ensures ExportSelection(header, results) == Some(EXPORT_COLUMNS)
  {
    PresentKeepsAll(EXPORT_COLUMNS, header + DERIVED_COLUMNS);
  }

  // ---------------------------------------------------------------------
  // The analyzer object
  // ---------------------------------------------------------------------

  /** The ids calculate_metrics visits: the one asked for, or every stored id in
      insertion order. */
  function Requested(markerId: Option<int>, order: seq<int>): seq<int>
  {
    if markerId.Some? then [markerId.value] else order
  }

  class TrajectoryAnalyzer {
    /** self.markers: marker id -> that marker's rows sorted by timestamp. */
    var markers: map<int, seq<TrajectoryPoint>>
    /** The keys of self.markers in insertion order, the order a dict iterates in. */
    var order: seq<int>

    ghost predicate Valid()
      reads this
    {
      Stored(markers, order)
    }

    /** __init__ starts from no markers and calls load_data. */
    constructor (table: Table)
      ensures Valid()
      ensures MissingColumns(table.columns) != [] ==> markers == map[] && order == []
      ensures MissingColumns(table.columns) == [] ==>
        && order == UniqueIds(table.rows)
        && markers.Keys == IdSet(table.rows)
        && forall id :: id in markers ==> IsTrackOf(markers[id], table.rows, id)
    {
      markers := map[];
      order := [];
      new;
      var missing := LoadData(table);
      if missing == [] {
        AbsentFromNothing(UniqueIds(table.rows));
        assert markers.Keys == IdSet(table.rows);
      }
    }

    /** load_data: with a required column missing nothing is stored; otherwise each
        marker's rows are stored under its id, sorted by timestamp, and ids not seen
        before are appended to the key order. */
    method LoadData(table: Table) returns (missing: seq<string>)
      requires Valid()
      modifies this
      ensures Valid()
      ensures missing == MissingColumns(table.columns)
      ensures missing != [] ==> markers == old(markers) && order == old(order)
      ensures missing == [] ==>
        (markers, order) == StoreTracks(old(markers), old(order), table.rows, UniqueIds(table.rows))
      ensures missing == [] ==> order == old(order) + Absent(UniqueIds(table.rows), old(order))
      ensures missing == [] ==> markers.Keys == old(markers).Keys + IdSet(table.rows)
      ensures missing == [] ==> forall id :: id in IdSet(table.rows) ==> IsTrackOf(markers[id], table.rows, id)
      ensures missing == [] ==> forall id :: id in old(markers) && id !in IdSet(table.rows) ==>
        markers[id] == old(markers)[id]
    {
      missing := MissingColumns(table.columns);
      if missing != [] {
        return;
      }
      StoreTracksLoaded(markers, order, table.rows);
      StoreIds(table.rows, UniqueIds(table.rows));
    }

    /** The loop of load_data over the marker ids: each id's rows, sorted by
        timestamp, replace whatever was stored under it, and an id not stored before
        is appended to the key order. */
    method StoreIds(rows: seq<TrajectoryPoint>, ids: seq<int>)
      modifies this
      ensures (markers, order) == StoreTracks(old(markers), old(order), rows, ids)
    {
      for i := 0 to |ids|
        invariant (markers, order) == StoreTracks(old(markers), old(order), rows, ids[..i])
      {
        var id := ids[i];
        assert ids[..i + 1][..i] == ids[..i];
        if id !in markers {
          order := order + [id];
        }
        markers := markers[id := SortByTime(WithId(rows, id))];
      }
      assert ids[..|ids|] == ids;
    }

    /** calculate_metrics: one result per requested id that is stored; unknown ids are
        skipped. The stored tracks are left as they are (the method modifies nothing). */
    method CalculateMetrics(markerId: Option<int>, smooth: bool, window: int,
                            sqrt: real -> real, savgol: (seq<real>, int) -> seq<real>)
      returns (results: map<int, Metrics>)
      requires LengthPreserving(savgol)
      ensures results.Keys == set id | id in Requested(markerId, order) && id in markers
      ensures forall mid :: mid in results ==>
        results[mid] == TrackMetrics(markers[mid], smooth, window, sqrt, savgol)
    {
      var ids := Requested(markerId, order);
      results := map[];
      for i := 0 to |ids|
        invariant results.Keys == set id | id in ids[..i] && id in markers
        invariant forall mid :: mid in results ==> results[mid] == TrackMetrics(markers[mid], smooth, window, sqrt, savgol)
      {
        var mid := ids[i];
        if mid in markers {
          results := results[mid := TrackMetrics(markers[mid], smooth, window, sqrt, savgol)];
        }
        TakeSnoc(ids, i);
      }
      assert ids[..|ids|] == ids;
    }

    /** print_summary: the statistics of each requested stored marker, computed on
        smoothed metrics (calculate_metrics' defaults); each one counts the track's rows
        and spans its first to its last timestamp. */
    method PrintSummary(markerId: Option<int>, sqrt: real -> real, savgol: (seq<real>, int) -> seq<real>)
      returns (summaries: map<int, Summary>)
      requires Valid() && LengthPreserving(savgol)
      ensures summaries.Keys == set id | id in Requested(markerId, order) && id in markers
      ensures forall mid :: mid in summaries ==>
        summaries[mid] == Summarize(TrackMetrics(markers[mid], SUMMARY_SMOOTH, SUMMARY_WINDOW, sqrt, savgol))
    {
      var metrics := CalculateMetrics(markerId, SUMMARY_SMOOTH, SUMMARY_WINDOW, sqrt, savgol);
      summaries := SummarizeAll(metrics, Requested(markerId, order));
    }
  }

  /** The loop of print_summary over the computed metrics, in the order of `ids`. */
  method SummarizeAll(metrics: map<int, Metrics>, ids: seq<int>) returns (summaries: map<int, Summary>)
    requires forall mid :: mid in metrics ==> metrics[mid].track != []
    ensures summaries.Keys == set id | id in ids && id in metrics
    ensures forall mid :: mid in summaries ==> summaries[mid] == Summarize(metrics[mid])
  {
    summaries := map[];
    for i := 0 to |ids|
      invariant summaries.Keys == Listed(ids[..i], metrics.Keys)
      invariant forall mid :: mid in summaries ==> summaries[mid] == Summarize(metrics[mid])
    {
      var mid := ids[i];
      ListedSnoc(ids, i, metrics.Keys);
      if mid in metrics {
        summaries := summaries[mid := Summarize(metrics[mid])];
      }
    }
    assert ids[..|ids|] == ids;
  }

  /** The ids of `ids` that lie in `keys`. */
  ghost function Listed(ids: seq<int>, keys: set<int>): set<int>
  {
    set id | id in ids && id in keys
  }

  /** One more id listed adds it when it lies in `keys`. */
  lemma ListedSnoc(ids: seq<int>, i: nat, keys: set<int>)
    requires i < |ids|
    ensures Listed(ids[..i + 1], keys)
      == Listed(ids[..i], keys) + (if ids[i] in keys then {ids[i]} else {})
  {
    TakeSnoc(ids, i);
  }
}
