/**
 * Records and small reductions shared by the tracking, calibration and
 * analysis components.
 *
 * Every trajectory file the system writes or reads has the columns
 * timestamp, frame, marker_id, x, y, z, rx, ry, rz (aruco_utils.py:200);
 * `TrajectoryPoint` is one such row.  Floating-point values are modelled as
 * `real`; a value that the source holds as NaN or +/-inf is `None`.
 */
module Common {

  datatype Option<+T> = None | Some(value: T)

  /** One trajectory record: x, y, z come from the translation vector and
      rx, ry, rz from the rotation vector of the pose estimate. */
  datatype TrajectoryPoint = TrajectoryPoint(
    timestamp: real, frame: int, markerId: int,
    x: real, y: real, z: real,
    rx: real, ry: real, rz: real)

  datatype Vec3 = Vec3(x: real, y: real, z: real)

  /** One marker as reported by the (foreign) detector and pose estimator:
      its id, its rotation vector and its translation vector. */
  datatype Detection = Detection(id: int, rvec: Vec3, tvec: Vec3)

  /** The record the trackers append for a detected marker. */
  function RecordOf(timestamp: real, frame: int, d: Detection): TrajectoryPoint
  {
    TrajectoryPoint(timestamp, frame, d.id, d.tvec.x, d.tvec.y, d.tvec.z, d.rvec.x, d.rvec.y, d.rvec.z)
  }

  /** One record per detection, in detection order, all with the same timestamp and frame. */
  function RecordsOf(timestamp: real, frame: int, ds: seq<Detection>): (r: seq<TrajectoryPoint>)
    ensures |r| == |ds|
    ensures forall k :: 0 <= k < |ds| ==> r[k] == RecordOf(timestamp, frame, ds[k])
  {
    if ds == [] then [] else RecordsOf(timestamp, frame, ds[..|ds| - 1]) + [RecordOf(timestamp, frame, ds[|ds| - 1])]
  }

  // ---------------------------------------------------------------------
  // Reductions over sequences of reals (numpy sum, min, max, mean)
  // ---------------------------------------------------------------------

  function Sum(s: seq<real>): real
  {
    if s == [] then 0.0 else Sum(s[..|s| - 1]) + s[|s| - 1]
  }

  function Min(s: seq<real>): (m: real)
    requires s != []
    ensures m in s
    ensures forall k :: 0 <= k < |s| ==> m <= s[k]
  {
    if |s| == 1 then s[0]
    else
      var m := Min(s[..|s| - 1]);
      if s[|s| - 1] < m then s[|s| - 1] else m
  }

  function Max(s: seq<real>): (m: real)
    requires s != []
    ensures m in s
    ensures forall k :: 0 <= k < |s| ==> s[k] <= m
  {
    if |s| == 1 then s[0]
    else
      var m := Max(s[..|s| - 1]);
      if m < s[|s| - 1] then s[|s| - 1] else m
  }

  function Mean(s: seq<real>): real
    requires s != []
  {
    Sum(s) / (|s| as real)
  }

  /** A sum of values that all lie in [lo, hi] lies in [n*lo, n*hi]. */
  lemma {:induction false} SumBounds(s: seq<real>, lo: real, hi: real)
    requires forall k :: 0 <= k < |s| ==> lo <= s[k] <= hi
    ensures (|s| as real) * lo <= Sum(s) <= (|s| as real) * hi
  {
    if s != [] {
      SumBounds(s[..|s| - 1], lo, hi);
      assert |s[..|s| - 1]| as real + 1.0 == |s| as real;
    }
  }

  /** The mean of a non-empty sequence lies between its minimum and its maximum. */
  lemma MeanBetween(s: seq<real>)
    requires s != []
    ensures Min(s) <= Mean(s) <= Max(s)
  {
    SumBounds(s, Min(s), Max(s));
    QuotientBounds(Sum(s), |s| as real, Min(s), Max(s));
  }

  lemma QuotientBounds(a: real, n: real, lo: real, hi: real)
    requires 0.0 < n && n * lo <= a <= n * hi
    ensures lo <= a / n <= hi
  {
    var q := a / n;
    assert a == q * n;
    assert n * (q - lo) >= 0.0;
    assert n * (hi - q) >= 0.0;
  }

  /** A sum of non-negative values is non-negative. */
  lemma {:induction false} SumNonNegative(s: seq<real>)
    requires forall k :: 0 <= k < |s| ==> 0.0 <= s[k]
    ensures 0.0 <= Sum(s)
  {
    if s != [] {
      SumNonNegative(s[..|s| - 1]);
    }
  }

  /** A square root as supplied by numpy: only its sign on non-negative input is assumed. */
  ghost predicate NonNegativeRoot(sqrt: real -> real)
  {
    forall v :: 0.0 <= v ==> 0.0 <= sqrt(v)
  }

  /** A value squared (`**2`). */
  function Square(v: real): (r: real)
    ensures 0.0 <= r
  {
    v * v
  }

  /** np.sqrt of one value. */
  function Root(sqrt: real -> real, v: real): real
  {
    sqrt(v)
  }

  lemma RootNonNegative(sqrt: real -> real, v: real)
    requires NonNegativeRoot(sqrt) && 0.0 <= v
    ensures 0.0 <= Root(sqrt, v)
  {
  }

  /** `waitKey(1) & 0xFF`: the low byte of the key code (-1, no key, gives 255). */
  function KeyByte(raw: int): (r: int)
    ensures 0 <= r < 256 && (raw - r) % 256 == 0
  {
    raw % 256
  }

  /** Drawing the detections on a frame (a foreign call) happens only when the
      detector returned ids; without ids the frame comes back unchanged. */
  function AnnotateMarkers<F>(frame: F, ids: Option<seq<Detection>>, draw: (F, seq<Detection>) -> F): (r: F)
    ensures ids.None? ==> r == frame
  {
    if ids.None? then frame else draw(frame, ids.value)
  }

  // ---------------------------------------------------------------------
  // Grouping records by marker id
  // ---------------------------------------------------------------------

  /** The records of one marker, in their original order. */
  function WithId(rows: seq<TrajectoryPoint>, id: int): (r: seq<TrajectoryPoint>)
    ensures |r| <= |rows|
    ensures forall k :: 0 <= k < |r| ==> r[k].markerId == id && r[k] in rows
  {
    if rows == [] then []
    else if rows[|rows| - 1].markerId == id then WithId(rows[..|rows| - 1], id) + [rows[|rows| - 1]]
    else WithId(rows[..|rows| - 1], id)
  }

  /** The set of marker ids that occur in the records. */
  function IdSet(rows: seq<TrajectoryPoint>): set<int>
  {
    set k | 0 <= k < |rows| :: rows[k].markerId
  }

  predicate Distinct(s: seq<int>)
  {
    forall i, j :: 0 <= i < j < |s| ==> s[i] != s[j]
  }

  /** The marker ids in order of first appearance (pandas unique(), insertion order of a dict). */
  function UniqueIds(rows: seq<TrajectoryPoint>): (r: seq<int>)
    ensures Distinct(r)
    ensures forall id :: id in r <==> id in IdSet(rows)
  {
    if rows == [] then []
    else
      var prefix := UniqueIds(rows[..|rows| - 1]);
      var id := rows[|rows| - 1].markerId;
      assert forall i :: i in IdSet(rows) <==> i in IdSet(rows[..|rows| - 1]) || i == id by {
        forall i | i in IdSet(rows) ensures i in IdSet(rows[..|rows| - 1]) || i == id {
          var k :| 0 <= k < |rows| && rows[k].markerId == i;
          if k < |rows| - 1 { assert rows[..|rows| - 1][k] == rows[k]; }
        }
        forall i | i in IdSet(rows[..|rows| - 1]) ensures i in IdSet(rows) {
          var k :| 0 <= k < |rows| - 1 && rows[..|rows| - 1][k].markerId == i;
          assert rows[k].markerId == i;
        }
      }
      if id in prefix then prefix else prefix + [id]
  }

  /** Appending a record adds its id to the id set. */
  lemma IdSetSnoc(rows: seq<TrajectoryPoint>)
    requires rows != []
    ensures IdSet(rows) == IdSet(rows[..|rows| - 1]) + {rows[|rows| - 1].markerId}
  {
    var init := rows[..|rows| - 1];
    forall i | i in IdSet(rows) ensures i in IdSet(init) + {rows[|rows| - 1].markerId} {
      var k :| 0 <= k < |rows| && rows[k].markerId == i;
      if k < |rows| - 1 { assert init[k] == rows[k]; }
    }
    forall i | i in IdSet(init) ensures i in IdSet(rows) {
      var k :| 0 <= k < |init| && init[k].markerId == i;
      assert rows[k].markerId == i;
    }
  }

  /** An id that never occurs selects no records. */
  lemma {:induction false} WithIdAbsent(rows: seq<TrajectoryPoint>, id: int)
    requires id !in IdSet(rows)
    ensures WithId(rows, id) == []
  {
    if rows != [] {
      IdSetSnoc(rows);
      WithIdAbsent(rows[..|rows| - 1], id);
    }
  }

  /** Total number of records over a list of ids. */
  function CountOver(ids: seq<int>, rows: seq<TrajectoryPoint>): nat
  {
    if ids == [] then 0 else CountOver(ids[..|ids| - 1], rows) + |WithId(rows, ids[|ids| - 1])|
  }

  /** How many ids in the list equal `id`. */
  function Occurrences(ids: seq<int>, id: int): nat
  {
    if ids == [] then 0 else Occurrences(ids[..|ids| - 1], id) + (if ids[|ids| - 1] == id then 1 else 0)
  }

  lemma {:induction false} OccurrencesDistinct(ids: seq<int>, id: int)
    requires Distinct(ids)
    ensures Occurrences(ids, id) == if id in ids then 1 else 0
  {
    if ids != [] {
      var init := ids[..|ids| - 1];
      OccurrencesDistinct(init, id);
      assert id in ids <==> id in init || ids[|ids| - 1] == id;
      if ids[|ids| - 1] == id {
        forall i | 0 <= i < |init| ensures init[i] != id {
          assert init[i] == ids[i];
        }
      }
    }
  }

  /** Adding one record to the rows adds one to the count of every id list that contains its id once. */
  lemma {:induction false} CountOverSnoc(ids: seq<int>, rows: seq<TrajectoryPoint>, p: TrajectoryPoint)
    ensures CountOver(ids, rows + [p]) == CountOver(ids, rows) + Occurrences(ids, p.markerId)
  {
    if ids != [] {
      CountOverSnoc(ids[..|ids| - 1], rows, p);
      assert (rows + [p])[..|rows + [p]| - 1] == rows;
    }
  }

  /** The per-id groups partition the records: over the distinct ids their sizes add up to the whole. */
  lemma {:induction false} GroupsPartition(ids: seq<int>, rows: seq<TrajectoryPoint>)
    requires Distinct(ids)
    requires forall id :: id in IdSet(rows) ==> id in ids
    ensures CountOver(ids, rows) == |rows|
  {
    if rows == [] {
      CountOverEmpty(ids);
    } else {
      var init := rows[..|rows| - 1];
      var p := rows[|rows| - 1];
      assert IdSet(init) <= IdSet(rows) by {
        forall i | i in IdSet(init) ensures i in IdSet(rows) {
          var k :| 0 <= k < |init| && init[k].markerId == i;
          assert rows[k].markerId == i;
        }
      }
      GroupsPartition(ids, init);
      assert rows == init + [p];
      CountOverSnoc(ids, init, p);
      assert p.markerId in IdSet(rows);
      OccurrencesDistinct(ids, p.markerId);
    }
  }

  lemma {:induction false} CountOverEmpty(ids: seq<int>)
    ensures CountOver(ids, []) == 0
  {
    if ids != [] { CountOverEmpty(ids[..|ids| - 1]); }
  }

  // ---------------------------------------------------------------------
  // Integer division by a block size
  // ---------------------------------------------------------------------

  /** The prefix one longer is the prefix and the next element. */
  lemma TakeSnoc<T>(s: seq<T>, i: nat)
    requires i < |s|
    ensures s[..i + 1] == s[..i] + [s[i]]
  {
  }

  /** `y` lies in block `q` of size `sq` exactly when `y / sq == q`. */
  lemma DivBlock(y: int, q: int, sq: int)
    requires 0 < sq && 0 <= y
    ensures (q * sq <= y < (q + 1) * sq) <==> y / sq == q
  {
    var d := y / sq;
    var r := y % sq;
    assert y == d * sq + r && 0 <= r < sq;
    assert (q + 1) * sq == q * sq + sq;
    assert (d + 1) * sq == d * sq + sq;
    if q * sq <= y < (q + 1) * sq {
      // (d - q) * sq lies strictly between -sq and sq, so d == q
      assert (d - q) * sq == d * sq - q * sq;
      assert -sq < (d - q) * sq < sq;
      ProductBelow(d - q, sq);
      ProductBelow(q - d, sq);
    }
  }

  /** Division with remainder is unique: y = q·sq + r with 0 <= r < sq gives the
      quotient q and the remainder r. */
  lemma DivOf(y: int, sq: int, q: int, r: int)
    requires 0 < sq && 0 <= y && y == q * sq + r && 0 <= r < sq
    ensures y / sq == q && y % sq == r
  {
    assert (q + 1) * sq == q * sq + sq;
    DivBlock(y, q, sq);
  }

  /** An integer whose multiple by a positive `c` stays below `c` is at most 0. */
  lemma ProductBelow(a: int, c: int)
    requires 0 < c && a * c < c
    ensures a <= 0
  {
    assert (a - 1) * c == a * c - c;
  }

  lemma MulMonotone(a: nat, b: nat, c: nat)
    requires a <= b
    ensures a * c <= b * c
  {
    assert b * c == a * c + (b - a) * c;
  }

  /** Values below n blocks lie in blocks below n. */
  lemma QuotientBelow(y: nat, n: nat, sq: nat)
    requires 0 < sq && y < n * sq
    ensures y / sq < n
  {
    var q := y / sq;
    DivBlock(y, q, sq);
    if q >= n {
      MulMonotone(n, q, sq);
    }
  }

  /** Division by a positive block size keeps order. */
  lemma QuotientMonotone(a: nat, b: nat, sq: nat)
    requires 0 < sq && a <= b
    ensures a / sq <= b / sq
  {
    var qa, qb := a / sq, b / sq;
    DivBlock(a, qa, sq);
    DivBlock(b, qb, sq);
    if qa > qb {
      MulMonotone(qb + 1, qa, sq);
    }
  }
}
