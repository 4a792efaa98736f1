/**
 * The video overlay (visualize_on_video.py): the wireframe cube drawn on a
 * marker, and the frame loop that writes every frame and reports progress
 * every 30 frames.
 *
 * Projection and drawing are foreign calls; the cube is modelled by its
 * vertices and by the vertex pairs its edges join.  The video is a finite
 * sequence of frames, each saying whether it could be read and which key was
 * pressed while it was shown.
 */
module VisualizeOnVideo {
  import opened Common
  import ArucoUtils

  /** The eight corners of a cube of side `size` standing on the marker: the base
      (z = 0) counter-clockwise from the origin, then the top in the same order. */
  function CubePoints(size: real): (v: seq<Vec3>)
    ensures |v| == 8
    ensures forall i :: 0 <= i < 8 ==>
      && (v[i].x == 0.0 || v[i].x == size) && (v[i].y == 0.0 || v[i].y == size)
      && v[i].z == (if i < 4 then 0.0 else size)
    ensures forall i :: 0 <= i < 4 ==> v[i + 4] == v[i].(z := size)
  {
    [Vec3(0.0, 0.0, 0.0), Vec3(size, 0.0, 0.0), Vec3(size, size, 0.0), Vec3(0.0, size, 0.0),
     Vec3(0.0, 0.0, size), Vec3(size, 0.0, size), Vec3(size, size, size), Vec3(0.0, size, size)]
  }

  /** The vertex pairs draw_cube joins: the base loop i to (i + 1) mod 4, the top loop
      i to 4 + (i + 1) mod 4 for i from 4 to 7, and the verticals i to i + 4. */
  function CubeEdges(): (e: seq<(int, int)>)
    ensures |e| == 12
    ensures forall k :: 0 <= k < 12 ==> 0 <= e[k].0 < 8 && 0 <= e[k].1 < 8 && e[k].0 != e[k].1
  {
    seq(4, i requires 0 <= i < 4 => (i, (i + 1) % 4))
      + seq(4, k requires 0 <= k < 4 => (k + 4, 4 + (k + 4 + 1) % 4))
      + seq(4, i requires 0 <= i < 4 => (i, i + 4))
  }

  /** The edges in drawing order: 0-1, 1-2, 2-3, 3-0, then 4-5, 5-6, 6-7, 7-4,
      then 0-4, 1-5, 2-6, 3-7. */
  lemma CubeEdgesListed()
    ensures CubeEdges() == CUBE_EDGES
  {
  }

  const CUBE_EDGES: seq<(int, int)> :=
    [(0, 1), (1, 2), (2, 3), (3, 0), (4, 5), (5, 6), (6, 7), (7, 4), (0, 4), (1, 5), (2, 6), (3, 7)]

  /** Two corners are joined by a cube edge when they differ in exactly one coordinate. */
  predicate Adjacent(p: Vec3, q: Vec3)
  {
    (if p.x != q.x then 1 else 0) + (if p.y != q.y then 1 else 0) + (if p.z != q.z then 1 else 0) == 1
  }

  predicate Joins(e: seq<(int, int)>, a: int, b: int)
  {
    exists k :: 0 <= k < |e| && (e[k] == (a, b) || e[k] == (b, a))
  }

  /** Whether an edge has v as one of its ends. */
  function Touches(edge: (int, int), v: int): nat
  {
    if edge.0 == v || edge.1 == v then 1 else 0
  }

  /** The number of edges that touch vertex v. */
  function Degree(e: seq<(int, int)>, v: int): nat
  {
    if e == [] then 0 else Degree(e[..|e| - 1], v) + Touches(e[|e| - 1], v)
  }

  /** Each of the twelve pairs joins two corners that differ in one coordinate,
      whatever the (non-zero) size. */
  lemma CubeEdgesAreEdges(size: real)
    requires size != 0.0
    ensures forall k :: 0 <= k < 12 ==> Adjacent(CubePoints(size)[CubeEdges()[k].0], CubePoints(size)[CubeEdges()[k].1])
  {
    CubeEdgesListed();
  }

  /** No edge is drawn twice, in either direction. */
  lemma CubeEdgesDistinct()
    ensures forall k, l :: 0 <= k < l < 12 ==>
      CubeEdges()[k] != CubeEdges()[l] && CubeEdges()[k] != (CubeEdges()[l].1, CubeEdges()[l].0)
  {
    CubeEdgesListed();
  }

  /** Every corner lies on exactly three of the edges. */
  lemma CubeEdgesDegree()
    ensures forall a :: 0 <= a < 8 ==> Degree(CubeEdges(), a) == 3
  {
    CubeEdgesListed();
    forall a | 0 <= a < 8 ensures Degree(CUBE_EDGES, a) == 3 {
      DegreeUnrolled(a);
    }
  }

  /** The degree of a vertex as the sum over the twelve listed edges. */
  lemma DegreeUnrolled(a: int)
    ensures Degree(CUBE_EDGES, a) ==
      Touches((0, 1), a) + Touches((1, 2), a) + Touches((2, 3), a) + Touches((3, 0), a)
      + Touches((4, 5), a) + Touches((5, 6), a) + Touches((6, 7), a) + Touches((7, 4), a)
      + Touches((0, 4), a) + Touches((1, 5), a) + Touches((2, 6), a) + Touches((3, 7), a)
  {
    var e := CUBE_EDGES;
    assert e[..12] == e;
    assert Degree(e[..12], a) == Degree(e[..12][..11], a) + Touches(e[11], a);
    assert e[..12][..11] == e[..11];
    assert Degree(e[..11], a) == Degree(e[..11][..10], a) + Touches(e[10], a);
    assert e[..11][..10] == e[..10];
    assert Degree(e[..10], a) == Degree(e[..10][..9], a) + Touches(e[9], a);
    assert e[..10][..9] == e[..9];
    assert Degree(e[..9], a) == Degree(e[..9][..8], a) + Touches(e[8], a);
    assert e[..9][..8] == e[..8];
    assert Degree(e[..8], a) == Degree(e[..8][..7], a) + Touches(e[7], a);
    assert e[..8][..7] == e[..7];
    assert Degree(e[..7], a) == Degree(e[..7][..6], a) + Touches(e[6], a);
    assert e[..7][..6] == e[..6];
    assert Degree(e[..6], a) == Degree(e[..6][..5], a) + Touches(e[5], a);
    assert e[..6][..5] == e[..5];
    assert Degree(e[..5], a) == Degree(e[..5][..4], a) + Touches(e[4], a);
    assert e[..5][..4] == e[..4];
    assert Degree(e[..4], a) == Degree(e[..4][..3], a) + Touches(e[3], a);
    assert e[..4][..3] == e[..3];
    assert Degree(e[..3], a) == Degree(e[..3][..2], a) + Touches(e[2], a);
    assert e[..3][..2] == e[..2];
    assert Degree(e[..2], a) == Degree(e[..2][..1], a) + Touches(e[1], a);
    assert e[..2][..1] == e[..1];
    assert Degree(e[..1], a) == Degree(e[..1][..0], a) + Touches(e[0], a);
    assert e[..1][..0] == e[..0];
  }

  /** Every pair of corners that differ in one coordinate is joined by an edge: the
      wireframe is the whole cube. */
  lemma CubeEdgesComplete(size: real, a: int, b: int) returns (k: int)
    requires size != 0.0 && 0 <= a < 8 && 0 <= b < 8
    requires Adjacent(CubePoints(size)[a], CubePoints(size)[b])
    ensures 0 <= k < 12 && (CubeEdges()[k] == (a, b) || CubeEdges()[k] == (b, a))
  {
    CubeEdgesListed();
    var e := CubeEdges();
    if a > b {
      k := CubeEdgesComplete(size, b, a);
      return;
    }
    var v := CubePoints(size);
    if a == 0 {
      if b == 1 { k := 0; } else if b == 3 { k := 3; } else if b == 4 { k := 8; }
      else { assert false; }
    } else if a == 1 {
      if b == 2 { k := 1; } else if b == 5 { k := 9; }
      else { assert false; }
    } else if a == 2 {
      if b == 3 { k := 2; } else if b == 6 { k := 10; }
      else { assert false; }
    } else if a == 3 {
      if b == 7 { k := 11; }
      else { assert false; }
    } else if a == 4 {
      if b == 5 { k := 4; } else if b == 7 { k := 7; }
      else { assert false; }
    } else if a == 5 {
      if b == 6 { k := 5; }
      else { assert false; }
    } else if a == 6 {
      if b == 7 { k := 6; }
      else { assert false; }
    } else {
      assert false;
    }
  }

  /** draw_axis's points: the origin and one point at `length` along each axis. */
  function AxisPoints(length: real): (v: seq<Vec3>)
    ensures |v| == 4 && v[0] == Vec3(0.0, 0.0, 0.0)
    ensures length != 0.0 ==> forall i :: 1 <= i < 4 ==> Adjacent(v[0], v[i])
    ensures v[1].x == v[2].y == v[3].z == length
    ensures Dot(v[1], v[2]) == Dot(v[1], v[3]) == Dot(v[2], v[3]) == 0.0
    ensures Dot(v[1], v[1]) == Dot(v[2], v[2]) == Dot(v[3], v[3]) == length * length
  {
    [Vec3(0.0, 0.0, 0.0), Vec3(length, 0.0, 0.0), Vec3(0.0, length, 0.0), Vec3(0.0, 0.0, length)]
  }

  /** The scalar product of two vectors. */
  function Dot(p: Vec3, q: Vec3): real
  {
    p.x * q.x + p.y * q.y + p.z * q.z
  }

  /** annotate_frame draws the axes at 0.6 times the marker size. */
  const AXIS_FRACTION := 0.6

  // ---------------------------------------------------------------------
  // The frame loop
  // ---------------------------------------------------------------------

  /** One frame of the input video: whether it could be read, and the key code
      waitKey returned while it was shown. */
  datatype VideoFrame = VideoFrame(read: bool, key: int)

  const KEY_QUIT := 'q' as int
  const PROGRESS_EVERY := 30

  /** How far the loop gets over the remaining frames: how many frames are written
      and how many of them advance frame_number. A failed read ends the loop; with
      the live view on, 'q' ends it after the frame is written and before it is
      counted. */
  function Consumed(frames: seq<VideoFrame>, showLive: bool): (r: (nat, nat))
    ensures r.1 <= r.0 <= r.1 + 1 && r.0 <= |frames|
  {
    if frames == [] || !frames[0].read then (0, 0)
    else if showLive && KeyByte(frames[0].key) == KEY_QUIT then (1, 0)
    else
      var rest := Consumed(frames[1..], showLive);
      (rest.0 + 1, rest.1 + 1)
  }

  /** Without the live view every readable frame up to the first failed read is
      written and counted. */
  lemma {:induction false} ConsumedWithoutLiveView(frames: seq<VideoFrame>, n: nat)
    requires n <= |frames| && forall k :: 0 <= k < n ==> frames[k].read
    requires n == |frames| || !frames[n].read
    ensures Consumed(frames, false) == (n, n)
  {
    if n > 0 {
      ConsumedWithoutLiveView(frames[1..], n - 1);
    }
  }

  /** The progress line as written: `frame_number / total_frames * 100`, which
      raises ZeroDivisionError (None) when the video reports no frame count. */
  function ProgressAsWritten(frameNumber: int, totalFrames: int): Option<real>
  {
    if totalFrames == 0 then None else Some((frameNumber as real) / (totalFrames as real) * 100.0)
  }

  /** A video that reports 0 frames but yields 30 of them crashes at the first
      progress line. */
  lemma ProgressCrashesWithoutFrameCount()
    ensures 30 % PROGRESS_EVERY == 0 && ProgressAsWritten(30, 0).None?
  {
  }

  /** The progress percentage, omitted when the frame count is unknown (0 or the
      negative value some backends report). */
  function Progress(frameNumber: int, totalFrames: int): (p: Option<real>)
    ensures 0 < totalFrames ==> p == ProgressAsWritten(frameNumber, totalFrames)
    ensures totalFrames <= 0 ==> p.None?
  {
    if totalFrames <= 0 then None
    else Some((frameNumber as real) / (totalFrames as real) * 100.0)
  }

  /** With a known frame count, every frame up to it reports between 0 and 100 per cent,
      and later frames report more. */
  lemma ProgressBounds(frameNumber: int, later: int, totalFrames: int)
    requires 0 <= frameNumber <= later && 0 < totalFrames
    ensures Progress(frameNumber, totalFrames).Some?
    ensures frameNumber <= totalFrames ==> 0.0 <= Progress(frameNumber, totalFrames).value <= 100.0
    ensures Progress(frameNumber, totalFrames).value <= Progress(later, totalFrames).value
  {
    var t := totalFrames as real;
    if frameNumber <= totalFrames {
      QuotientBounds(frameNumber as real, t, 0.0, 1.0);
    }
    assert (later as real) / t - (frameNumber as real) / t == ((later - frameNumber) as real) / t;
  }

  /** The progress lines after n counted frames: one at every multiple of 30. */
  function ProgressLines(n: nat, totalFrames: int): (lines: seq<Option<real>>)
    ensures |lines| == n / PROGRESS_EVERY
  {
    seq(n / PROGRESS_EVERY, k requires 0 <= k < n / PROGRESS_EVERY => Progress((k + 1) * PROGRESS_EVERY, totalFrames))
  }

  /** What process_video reports: the frames written, the final frame_number and the
      progress lines printed. */
  datatype VideoRun = VideoRun(written: nat, frameNumber: nat, progress: seq<Option<real>>)

  class VideoOverlay {
    const params: ArucoUtils.CameraParams

    /** __init__: each camera parameter falls back to config.py on its own. */
    constructor (markerSize: Option<real>, cameraMatrix: Option<seq<seq<real>>>, distCoeffs: Option<seq<real>>)
      ensures params == ArucoUtils.LoadCameraParams(markerSize, cameraMatrix, distCoeffs, None)
    {
      params := ArucoUtils.LoadCameraParams(markerSize, cameraMatrix, distCoeffs, None);
    }

    /** draw_cube's corners: the given size, or the marker size when none is given. */
    function CubeCorners(size: Option<real>): (v: seq<Vec3>)
      ensures v == CubePoints(if size.Some? then size.value else params.markerSize)
    {
      CubePoints(if size.None? then params.markerSize else size.value)
    }

    /** process_video: a video that cannot be opened raises ValueError (None);
        otherwise every frame read is written, frame_number counts them until 'q',
        and a progress line is printed at every multiple of 30, with the corrected
        `Progress` (no percentage when the frame count is not positive). */
    method ProcessVideo(isOpen: bool, frames: seq<VideoFrame>, showLive: bool, totalFrames: int)
      returns (r: Option<VideoRun>)
      ensures r.None? <==> !isOpen
      ensures r.Some? ==>
        && (r.value.written, r.value.frameNumber) == Consumed(frames, showLive)
        && r.value.progress == ProgressLines(r.value.frameNumber, totalFrames)
    {
      if !isOpen {
        return None;
      }
      var written, frameNumber := 0, 0;
      var progress: seq<Option<real>> := [];
      var i := 0;
      while i < |frames|
        invariant 0 <= i <= |frames| && frameNumber == written == i
        invariant Consumed(frames, showLive).0 == i + Consumed(frames[i..], showLive).0
        invariant Consumed(frames, showLive).1 == i + Consumed(frames[i..], showLive).1
        invariant progress == ProgressLines(frameNumber, totalFrames)
      {
        ConsumedStep(frames, i, showLive);
        if !frames[i].read {
          break;
        }
        written := written + 1;
        if showLive && KeyByte(frames[i].key) == KEY_QUIT {
          return Some(VideoRun(written, frameNumber, progress));
        }
        frameNumber := frameNumber + 1;
        if frameNumber % PROGRESS_EVERY == 0 {
          progress := progress + [Progress(frameNumber, totalFrames)];
        }
        ProgressLinesStep(frameNumber - 1, totalFrames);
        i := i + 1;
      }
      if i == |frames| {
        assert frames[i..] == [];
      } else {
        ConsumedStep(frames, i, showLive);
      }
      r := Some(VideoRun(written, frameNumber, progress));
    }
  }

  /** One step of Consumed on the frames from i on. */
  lemma ConsumedStep(frames: seq<VideoFrame>, i: nat, showLive: bool)
    requires i < |frames|
    ensures Consumed(frames[i..], showLive) ==
      if !frames[i].read then (0, 0)
      else if showLive && KeyByte(frames[i].key) == KEY_QUIT then (1, 0)
      else (Consumed(frames[i + 1..], showLive).0 + 1, Consumed(frames[i + 1..], showLive).1 + 1)
  {
    assert frames[i..][0] == frames[i] && frames[i..][1..] == frames[i + 1..];
  }

  /** Counting one more frame adds a progress line exactly when the new count is a
      multiple of 30. */
  lemma ProgressLinesStep(n: nat, totalFrames: int)
    ensures ProgressLines(n + 1, totalFrames)
      == ProgressLines(n, totalFrames) + if (n + 1) % PROGRESS_EVERY == 0 then [Progress(n + 1, totalFrames)] else []
  {
    var q := n / PROGRESS_EVERY;
    DivBlock(n, q, PROGRESS_EVERY);
    if (n + 1) % PROGRESS_EVERY == 0 {
      assert n + 1 == (q + 1) * PROGRESS_EVERY;
      DivBlock(n + 1, q + 1, PROGRESS_EVERY);
    } else {
      DivBlock(n + 1, q, PROGRESS_EVERY);
    }
  }
}
