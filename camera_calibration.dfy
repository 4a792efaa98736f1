/**
 * Checkerboard camera calibration (camera_calibration.py).
 *
 * The OpenCV parts (corner detection and refinement, calibrateCamera,
 * projectPoints, drawing) are inputs: a `BoardView` is what the detector
 * reports for one image, `solve` stands for calibrateCamera together with
 * the reprojection-error mean, and `draw` for drawChessboardCorners.  What
 * is modelled is the bookkeeping around them: the object-point grid, the
 * paired point lists, the capture thresholds and sampling rules, the live
 * capture loop, the config.py rewriter, the quality bands and the "WxH"
 * argument parser.
 */
module CameraCalibration {
  import opened Common
  import opened Text

  /** A detected checkerboard corner in image coordinates. */
  datatype Point2 = Point2(u: real, v: real)

  /** What the checkerboard detector reports for one image. */
  datatype BoardView = BoardView(found: bool, corners: seq<Point2>)

  /** An image as pixel rows; only passed through. */
  type Image = seq<seq<int>>

  /** (width, height) of the camera images. */
  datatype ImageSize = ImageSize(width: int, height: int)

  /** One row of the 3x3 camera matrix and the matrix itself. */
  datatype Row3 = Row3(a: real, b: real, c: real)
  datatype Matrix3 = Matrix3(r0: Row3, r1: Row3, r2: Row3)

  /** The five distortion coefficients k1, k2, p1, p2, k3 calibrateCamera returns. */
  datatype Distortion = Distortion(k1: real, k2: real, p1: real, p2: real, k3: real)

  /** What the calibration solver returns: its RMS error (the `ret` that is tested
      for truth), the intrinsics, and the mean reprojection error computed from them. */
  datatype SolverResult = SolverResult(rms: real, cameraMatrix: Matrix3, distCoeffs: Distortion, meanError: real)

  /** The minimum number of detected boards every calibration path demands. */
  const MIN_IMAGES := 10

  /** `n` copies of `x`. */
  function Copies<T>(x: T, n: nat): (r: seq<T>)
    ensures |r| == n && forall k :: 0 <= k < n ==> r[k] == x
  {
    if n == 0 then [] else Copies(x, n - 1) + [x]
  }

  // ---------------------------------------------------------------------
  // The object-point grid
  // ---------------------------------------------------------------------

  /** The inner corners with y index `j`, x index running 0 .. w-1. */
  function GridRow(w: nat, j: nat, s: real): seq<Vec3>
  {
    seq(w, i requires 0 <= i < w => Vec3(i as real * s, j as real * s, 0.0))
  }

  /** The object points of a w x h board of squares of side `s`, laid out as the
      transposed mgrid: all corners of row 0, then row 1, and so on. */
  function ObjectPoints(w: nat, h: nat, s: real): seq<Vec3>
  {
    if h == 0 then [] else ObjectPoints(w, h - 1, s) + GridRow(w, h - 1, s)
  }

  /** Object point k is ((k mod w)·s, (k div w)·s, 0), for all w·h of them. */
  lemma {:induction false} ObjectPointAt(w: nat, h: nat, s: real)
    ensures |ObjectPoints(w, h, s)| == w * h
    ensures forall k :: 0 <= k < w * h ==>
      ObjectPoints(w, h, s)[k] == Vec3((k % w) as real * s, (k / w) as real * s, 0.0)
  {
    if h > 0 {
      ObjectPointAt(w, h - 1, s);
      var prev := ObjectPoints(w, h - 1, s);
      var all := ObjectPoints(w, h, s);
      assert w * h == w * (h - 1) + w;
      forall k | 0 <= k < w * h
        ensures all[k] == Vec3((k % w) as real * s, (k / w) as real * s, 0.0)
      {
        if k < w * (h - 1) {
          assert all[k] == prev[k];
        } else {
          var i := k - w * (h - 1);
          assert all[k] == GridRow(w, h - 1, s)[i];
          assert (h - 1) * w <= k < h * w;
          DivBlock(k, h - 1, w);
          assert k % w == i;
        }
      }
    }
  }

  // ---------------------------------------------------------------------
  // Spec functions over the images a calibration run goes through
  // ---------------------------------------------------------------------

  /** The corners of the views in which the board was found, in order. */
  function FoundCorners(views: seq<BoardView>): (r: seq<seq<Point2>>)
    ensures |r| <= |views|
  {
    if views == [] then []
    else
      var last := views[|views| - 1];
      FoundCorners(views[..|views| - 1]) + (if last.found then [last.corners] else [])
  }

  /** How many views found the board. */
  function Successes(views: seq<BoardView>): nat
  {
    |FoundCorners(views)|
  }

  /** An image file: either it failed to load, or it loaded with a size, pixels
      and what the detector sees in it. */
  datatype ImageFile = Unreadable | Loaded(size: ImageSize, image: Image, view: BoardView)

  /** The views of the images that loaded, in order. */
  function LoadedViews(files: seq<ImageFile>): (r: seq<BoardView>)
    ensures |r| <= |files|
  {
    if files == [] then []
    else
      var last := files[|files| - 1];
      LoadedViews(files[..|files| - 1]) + (if last.Loaded? then [last.view] else [])
  }

  /** The size of the first image that loaded. */
  function FirstSize(files: seq<ImageFile>): Option<ImageSize>
  {
    if files == [] then None
    else
      var prev := FirstSize(files[..|files| - 1]);
      if prev.None? && files[|files| - 1].Loaded? then Some(files[|files| - 1].size) else prev
  }

  /** Any detected board comes from a loaded image, so a size has been recorded. */
  lemma {:induction false} SizeOfFirstLoaded(files: seq<ImageFile>)
    ensures Successes(LoadedViews(files)) > 0 ==> FirstSize(files).Some?
    ensures FirstSize(files).None? ==> LoadedViews(files) == []
  {
    if files != [] {
      SizeOfFirstLoaded(files[..|files| - 1]);
    }
  }

  /** A video frame: its pixels and what the detector sees in it. */
  datatype VideoFrame = VideoFrame(image: Image, view: BoardView)

  /** The frames whose index is a multiple of the sampling interval. */
  function Sampled(frames: seq<VideoFrame>, interval: int): (r: seq<VideoFrame>)
    requires interval != 0 || frames == []
    ensures |r| <= |frames|
  {
    if frames == [] then []
    else
      Sampled(frames[..|frames| - 1], interval)
      + (if (|frames| - 1) % interval == 0 then [frames[|frames| - 1]] else [])
  }

  function ViewsOf(frames: seq<VideoFrame>): (r: seq<BoardView>)
    ensures |r| == |frames| && forall k :: 0 <= k < |frames| ==> r[k] == frames[k].view
  {
    if frames == [] then [] else ViewsOf(frames[..|frames| - 1]) + [frames[|frames| - 1].view]
  }

  /** Sampling keeps exactly frames 0, n, 2n, ...: ceil(|frames|/n) of them. */
  lemma {:induction false} SampledFrames(frames: seq<VideoFrame>, n: int)
    requires 0 < n
    ensures |Sampled(frames, n)| == (|frames| + n - 1) / n
    ensures forall j :: 0 <= j < |Sampled(frames, n)| ==> j * n < |frames| && Sampled(frames, n)[j] == frames[j * n]
  {
    if frames != [] {
      var init := frames[..|frames| - 1];
      var m := |frames| - 1;
      SampledFrames(init, n);
      CeilStep(m, n);
      var q := (m + n - 1) / n;
      var s := Sampled(frames, n);
      assert s[..|Sampled(init, n)|] == Sampled(init, n);
      forall j | 0 <= j < |s| ensures j * n < |frames| && s[j] == frames[j * n] {
        if j < q {
          assert s[j] == Sampled(init, n)[j];
        }
      }
    }
  }

  /** Going from m to m + 1 items, ceil(items/n) grows by one exactly when m is a multiple of n. */
  lemma CeilStep(m: nat, n: int)
    requires 0 < n
    ensures m % n == 0 ==> (m + n) / n == (m + n - 1) / n + 1 && m == ((m + n - 1) / n) * n
    ensures m % n != 0 ==> (m + n) / n == (m + n - 1) / n
  {
    var p, r := m / n, m % n;
    var pn := p * n;
    assert m == pn + r && 0 <= r < n;
    assert (p + 1) * n == pn + n;
    if r == 0 {
      DivOf(m + n - 1, n, p, n - 1);
      DivOf(m + n, n, p + 1, 0);
    } else {
      DivOf(m + n - 1, n, p + 1, r - 1);
      DivOf(m + n, n, p + 1, r);
    }
  }

  // ---------------------------------------------------------------------
  // Live capture
  // ---------------------------------------------------------------------

  /** One iteration of the live loop: did the camera deliver a frame, the frame,
      what the detector sees, the clock reading and the raw key code. */
  datatype LiveEvent = LiveEvent(read: bool, image: Image, view: BoardView, now: real, key: int)

  /** The live loop's variables, plus the corners captured so far. */
  datatype LiveState = LiveState(captured: int, auto: bool, lastCapture: real, corners: seq<seq<Point2>>)

  const KEY_QUIT := 'q' as int
  const KEY_CAPTURE := ' ' as int
  const KEY_TOGGLE := 'c' as int

  /** Auto-capture fires when it is on, the board is visible and the capture
      interval has elapsed since the last capture. */
  predicate AutoCaptureFires(st: LiveState, found: bool, now: real, interval: real)
  {
    st.auto && found && now - st.lastCapture >= interval
  }

  /** One iteration with a frame read: auto-capture, then the key.  The boolean is
      true when 'q' ends the loop. */
  function LiveStep(st: LiveState, ev: LiveEvent, interval: real): (LiveState, bool)
  {
    var found := ev.view.found;
    var afterAuto :=
      if AutoCaptureFires(st, found, ev.now, interval)
      then st.(captured := st.captured + 1, lastCapture := ev.now, corners := st.corners + [ev.view.corners])
      else st;
    var key := KeyByte(ev.key);
    if key == KEY_QUIT then (afterAuto, true)
    else if key == KEY_CAPTURE && found then
      (afterAuto.(captured := afterAuto.captured + 1, corners := afterAuto.corners + [ev.view.corners]), false)
    else if key == KEY_TOGGLE then (afterAuto.(auto := !afterAuto.auto), false)
    else (afterAuto, false)
  }

  /** The live loop from state `st` over the remaining events: it runs while
      fewer than `target` images are captured, and stops on a failed read, on 'q'
      or when the camera stream ends. */
  function Live(st: LiveState, events: seq<LiveEvent>, target: int, interval: real): LiveState
    decreases |events|
  {
    if st.captured >= target || events == [] || !events[0].read then st
    else
      var (next, quit) := LiveStep(st, events[0], interval);
      if quit then next else Live(next, events[1..], target, interval)
  }

  /** The captured count rises exactly with the stored corner sets, one per capture;
      at most two captures (auto and SPACE) happen per iteration. */
  lemma LiveStepCounts(st: LiveState, ev: LiveEvent, interval: real)
    ensures var r := LiveStep(st, ev, interval).0;
      && r.captured == st.captured
        + (if AutoCaptureFires(st, ev.view.found, ev.now, interval) then 1 else 0)
        + (if KeyByte(ev.key) == KEY_CAPTURE && ev.view.found then 1 else 0)
      && r.corners == st.corners + FoundCorners(
        (if AutoCaptureFires(st, ev.view.found, ev.now, interval) then [ev.view] else [])
        + (if KeyByte(ev.key) == KEY_CAPTURE && ev.view.found then [ev.view] else []))
  {
    var v := ev.view;
    if v.found {
      assert FoundCorners([v]) == [v.corners] by { assert [v][..0] == []; }
      assert FoundCorners([v, v]) == [v.corners, v.corners] by { assert [v, v][..1] == [v]; }
    }
  }

  /** 'c' flips auto-capture and nothing else of the mode; 'q' ends the loop. */
  lemma LiveKeys(st: LiveState, ev: LiveEvent, interval: real)
    ensures KeyByte(ev.key) == KEY_TOGGLE ==>
      LiveStep(st, ev, interval).0.auto == !st.auto && !LiveStep(st, ev, interval).1
    ensures LiveStep(st, ev, interval).1 <==> KeyByte(ev.key) == KEY_QUIT
    ensures KeyByte(ev.key) != KEY_TOGGLE ==> LiveStep(st, ev, interval).0.auto == st.auto
  {
  }

  /** One iteration adds as many corner sets as captures, and never lowers the count. */
  lemma LiveStepGrowth(st: LiveState, ev: LiveEvent, interval: real)
    ensures var next := LiveStep(st, ev, interval).0;
      && next.captured - st.captured == |next.corners| - |st.corners|
      && st.captured <= next.captured
  {
    LiveStepCounts(st, ev, interval);
    var a := if AutoCaptureFires(st, ev.view.found, ev.now, interval) then [ev.view] else [];
    var b := if KeyByte(ev.key) == KEY_CAPTURE && ev.view.found then [ev.view] else [];
    FoundAll(a + b);
  }

  /** Over a whole run the captured count rises by the number of stored corner sets. */
  lemma {:induction false} LiveCounts(st: LiveState, events: seq<LiveEvent>, target: int, interval: real)
    ensures Live(st, events, target, interval).captured - st.captured
      == |Live(st, events, target, interval).corners| - |st.corners|
    ensures st.captured <= Live(st, events, target, interval).captured
    decreases |events|
  {
    if !(st.captured >= target || events == [] || !events[0].read) {
      var (next, quit) := LiveStep(st, events[0], interval);
      LiveStepGrowth(st, events[0], interval);
      if !quit {
        LiveCounts(next, events[1..], target, interval);
        assert Live(st, events, target, interval) == Live(next, events[1..], target, interval);
      } else {
        assert Live(st, events, target, interval) == next;
      }
    }
  }

  /** Views that all found the board contribute one corner set each. */
  lemma {:induction false} FoundAll(views: seq<BoardView>)
    requires forall k :: 0 <= k < |views| ==> views[k].found
    ensures |FoundCorners(views)| == |views|
  {
    if views != [] {
      FoundAll(views[..|views| - 1]);
    }
  }

  /** Starting at or below the target, the loop ends with at most one image more
      than the target: an auto-capture and a SPACE capture can land in the same
      iteration. */
  lemma {:induction false} LiveCapturedBound(st: LiveState, events: seq<LiveEvent>, target: int, interval: real)
    requires st.captured <= target
    ensures Live(st, events, target, interval).captured <= target + 1
    decreases |events|
  {
    if !(st.captured >= target || events == [] || !events[0].read) {
      LiveStepCounts(st, events[0], interval);
      var next := LiveStep(st, events[0], interval).0;
      if !LiveStep(st, events[0], interval).1 && next.captured <= target {
        LiveCapturedBound(next, events[1..], target, interval);
      }
    }
  }

  /** The overshoot happens: with a target of one, auto-capture on and SPACE pressed
      in the same iteration, two images are captured. */
  lemma LiveOvershoot(ev: LiveEvent, start: real, interval: real)
    requires ev.read && ev.view.found && ev.key == KEY_CAPTURE && ev.now - start >= interval
    ensures Live(LiveState(0, true, start, []), [ev], 1, interval).captured == 2
  {
    var st := LiveState(0, true, start, []);
    assert AutoCaptureFires(st, ev.view.found, ev.now, interval);
    assert KeyByte(ev.key) == KEY_CAPTURE;
    assert LiveStep(st, ev, interval).0.captured == 2;
  }

  // ---------------------------------------------------------------------
  // config.py rewriting
  // ---------------------------------------------------------------------

  const MATRIX_PREFIX := "CAMERA_MATRIX"
  const DIST_PREFIX := "DIST_COEFFS"

  /** A line whose stripped text ends with ']' closes the old matrix block. */
  predicate ClosesBlock(line: string)
  {
    EndsWith(Strip(line), "]")
  }

  /** The first line at or after `i` that closes a block, or |lines| when none does. */
  function BlockEnd(lines: seq<string>, i: nat): (j: nat)
    requires i <= |lines|
    ensures i <= j <= |lines|
    decreases |lines| - i
  {
    if i == |lines| || ClosesBlock(lines[i]) then i else BlockEnd(lines, i + 1)
  }

  /** The block end is the first closing line at or after `i`, if any. */
  lemma {:induction false} BlockEndCloses(lines: seq<string>, i: nat)
    requires i <= |lines|
    ensures forall k :: i <= k < BlockEnd(lines, i) ==> !ClosesBlock(lines[k])
    ensures BlockEnd(lines, i) < |lines| ==> ClosesBlock(lines[BlockEnd(lines, i)])
    decreases |lines| - i
  {
    if i < |lines| && !ClosesBlock(lines[i]) {
      BlockEndCloses(lines, i + 1);
    }
  }

  /** The new text of lines[i..]: a CAMERA_MATRIX line and the old block through its
      closing line become `matrixLine`, a DIST_COEFFS line becomes `distLine`, and
      every other line is copied. */
  function RewriteFrom(lines: seq<string>, i: nat, matrixLine: string, distLine: string): seq<string>
    decreases |lines| - i
  {
    if i >= |lines| then []
    else if StartsWith(lines[i], MATRIX_PREFIX) then
      [matrixLine] + RewriteFrom(lines, BlockEnd(lines, i) + 1, matrixLine, distLine)
    else if StartsWith(lines[i], DIST_PREFIX) then
      [distLine] + RewriteFrom(lines, i + 1, matrixLine, distLine)
    else
      [lines[i]] + RewriteFrom(lines, i + 1, matrixLine, distLine)
  }

  /** One line's replacement when no matrix block is involved. */
  function ReplaceLine(line: string, distLine: string): string
  {
    if StartsWith(line, DIST_PREFIX) then distLine else line
  }

  /** Without a CAMERA_MATRIX line the rewrite is line by line: the same number of
      lines, each DIST_COEFFS line replaced by one line, every other line unchanged
      and in place. */
  lemma {:induction false} RewriteLineByLine(lines: seq<string>, i: nat, matrixLine: string, distLine: string)
    requires i <= |lines|
    requires forall k :: i <= k < |lines| ==> !StartsWith(lines[k], MATRIX_PREFIX)
    ensures |RewriteFrom(lines, i, matrixLine, distLine)| == |lines| - i
    ensures forall k :: i <= k < |lines| ==>
      RewriteFrom(lines, i, matrixLine, distLine)[k - i] == ReplaceLine(lines[k], distLine)
    decreases |lines| - i
  {
    if i < |lines| {
      RewriteLineByLine(lines, i + 1, matrixLine, distLine);
      var rest := RewriteFrom(lines, i + 1, matrixLine, distLine);
      var all := RewriteFrom(lines, i, matrixLine, distLine);
      assert all == [ReplaceLine(lines[i], distLine)] + rest;
      forall k | i < k < |lines| ensures all[k - i] == ReplaceLine(lines[k], distLine) {
        assert all[k - i] == rest[k - (i + 1)];
      }
    }
  }

  /** A block that is never closed swallows the rest of the file. */
  lemma UnclosedBlock(lines: seq<string>, i: nat, matrixLine: string, distLine: string)
    requires i < |lines| && StartsWith(lines[i], MATRIX_PREFIX)
    requires forall k :: i <= k < |lines| ==> !ClosesBlock(lines[k])
    ensures RewriteFrom(lines, i, matrixLine, distLine) == [matrixLine]
  {
    BlockEndCloses(lines, i);
    assert BlockEnd(lines, i) == |lines|;
  }

  /** A matrix whose last row closes with ']' and is followed by a lone "]" line
      (the layout of config.py:13-18) is replaced, but the lone "]" survives. */
  lemma StrayBracket(first: string, rows: seq<string>, matrixLine: string, distLine: string)
    requires StartsWith(first, MATRIX_PREFIX) && !ClosesBlock(first)
    requires rows != [] && ClosesBlock(rows[|rows| - 1])
    requires forall k :: 0 <= k < |rows| - 1 ==> !ClosesBlock(rows[k])
    ensures RewriteFrom([first] + rows + ["]\n"], 0, matrixLine, distLine) == [matrixLine, "]\n"]
  {
    var lines := [first] + rows + ["]\n"];
    var n := |lines|;
    forall k | 0 <= k < n - 2 ensures !ClosesBlock(lines[k]) {
      if k > 0 { assert lines[k] == rows[k - 1]; }
    }
    assert lines[n - 2] == rows[|rows| - 1];
    assert BlockEnd(lines, 0) == n - 2 by { BlockEndAt(lines, 0, n - 2); }
    assert !StartsWith("]\n", MATRIX_PREFIX) && !StartsWith("]\n", DIST_PREFIX);
    assert RewriteFrom(lines, n - 1, matrixLine, distLine) == ["]\n"];
  }

  /** The block end is the first closing line. */
  lemma {:induction false} BlockEndAt(lines: seq<string>, i: nat, j: nat)
    requires i <= j < |lines| && ClosesBlock(lines[j])
    requires forall k :: i <= k < j ==> !ClosesBlock(lines[k])
    ensures BlockEnd(lines, i) == j
    decreases j - i
  {
    if i < j {
      BlockEndAt(lines, i + 1, j);
    }
  }

  /** The camera matrix as update_config_file formats it, each entry through `fmt`
      (Python's `:.6f`). */
  function MatrixText(m: Matrix3, fmt: real -> string): string
  {
    "[\n" + RowText(m.r0, fmt) + RowText(m.r1, fmt) + RowText(m.r2, fmt) + "]"
  }

  function RowText(r: Row3, fmt: real -> string): string
  {
    "    [" + fmt(r.a) + ", " + fmt(r.b) + ", " + fmt(r.c) + "],\n"
  }

  /** The distortion coefficients in one bracketed list, each through `fmt` (`:.8f`). */
  function DistText(d: Distortion, fmt: real -> string): string
  {
    "[" + fmt(d.k1) + ", " + fmt(d.k2) + ", " + fmt(d.p1) + ", " + fmt(d.p2) + ", " + fmt(d.k3) + "]"
  }

  function MatrixLine(m: Matrix3, fmt: real -> string): (r: string)
    ensures StartsWith(r, MATRIX_PREFIX)
  {
    var r := "CAMERA_MATRIX = " + MatrixText(m, fmt) + "\n";
    assert r[..|MATRIX_PREFIX|] == MATRIX_PREFIX;
    r
  }

  function DistLine(d: Distortion, fmt: real -> string): (r: string)
    ensures StartsWith(r, DIST_PREFIX)
  {
    var r := "DIST_COEFFS = " + DistText(d, fmt) + "\n";
    assert r[..|DIST_PREFIX|] == DIST_PREFIX;
    r
  }

  // ---------------------------------------------------------------------
  // Quality bands and the printed report
  // ---------------------------------------------------------------------

  datatype Quality = Excellent | Good | Acceptable | Poor

  /** The band of a mean reprojection error, in pixels. */
  function QualityOf(error: real): (q: Quality)
    ensures q == Excellent <==> error < 0.5
    ensures q == Good <==> 0.5 <= error < 1.0
    ensures q == Acceptable <==> 1.0 <= error < 2.0
    ensures q == Poor <==> 2.0 <= error
  {
    if error < 0.5 then Excellent
    else if error < 1.0 then Good
    else if error < 2.0 then Acceptable
    else Poor
  }

  function QualityRank(q: Quality): nat
  {
    match q
    case Excellent => 0
    case Good => 1
    case Acceptable => 2
    case Poor => 3
  }

  /** A larger error never gets a better band. */
  lemma QualityMonotone(e1: real, e2: real)
    requires e1 <= e2
    ensures QualityRank(QualityOf(e1)) <= QualityRank(QualityOf(e2))
  {
  }

  /** What print_results reports. */
  datatype Report = Report(
    fx: real, fy: real, cx: real, cy: real,
    distortion: Distortion, error: real, quality: Quality,
    images: nat, boardWidth: int, boardHeight: int, squareSize: real)

  /** What save_calibration writes to the .npz archive. */
  datatype CalibrationArchive = CalibrationArchive(
    cameraMatrix: Matrix3, distCoeffs: Distortion, calibrationError: real,
    boardWidth: int, boardHeight: int, squareSize: real)

  // ---------------------------------------------------------------------
  // The "WxH" argument
  // ---------------------------------------------------------------------

  /** `width, height = map(int, arg.split('x'))`; any failure is None. */
  function ParseCheckerboard(arg: string): Option<(int, int)>
  {
    var parts := Split(arg, 'x');
    if |parts| != 2 then None
    else
      match (ParseInt(parts[0]), ParseInt(parts[1]))
      case (Some(w), Some(h)) => Some((w, h))
      case _ => None
  }

  lemma NoXInDecimal(n: int)
    ensures 'x' !in Decimal(n)
  {
    var d := Digits(if n < 0 then -n else n);
    assert forall k :: 0 <= k < |d| ==> d[k] != 'x';
  }

  /** Every pair of integers, written "WxH", parses back to itself. */
  lemma ParseCheckerboardDecimal(w: int, h: int)
    ensures ParseCheckerboard(Decimal(w) + "x" + Decimal(h)) == Some((w, h))
  {
    NoXInDecimal(w);
    NoXInDecimal(h);
    var parts := [Decimal(w), Decimal(h)];
    assert Join(parts, 'x') == Decimal(w) + "x" + Decimal(h) by {
      assert Join(parts[1..], 'x') == Decimal(h);
    }
    SplitJoin(parts, 'x');
    ParseDecimal(w);
    ParseDecimal(h);
  }

  /** The default "9x6" gives a 9 by 6 board. */
  lemma DefaultCheckerboard()
    ensures ParseCheckerboard("9x6") == Some((9, 6))
  {
    ParseCheckerboardDecimal(9, 6);
    assert Decimal(9) == "9";
    assert Decimal(6) == "6";
    assert Decimal(9) + "x" + Decimal(6) == "9x6";
  }

  /** Three 'x'-separated parts are refused whatever they hold. */
  lemma ParseCheckerboardThreeParts(a: string, b: string, c: string)
    requires 'x' !in a && 'x' !in b && 'x' !in c
    ensures ParseCheckerboard(a + "x" + b + "x" + c) == None
  {
    var parts := [a, b, c];
    assert Join(parts, 'x') == a + "x" + b + "x" + c by {
      assert parts[1..][1..] == [c];
      assert Join(parts[1..], 'x') == b + "x" + c;
    }
    SplitJoin(parts, 'x');
  }

  // ---------------------------------------------------------------------
  // The calibrator
  // ---------------------------------------------------------------------

  class CameraCalibrator {
    /** Inner corners per row and per column, and the square side in metres. */
    const boardWidth: nat
    const boardHeight: nat
    const squareSize: real
    const objp: seq<Vec3>
    /** The paired object points and detected corners, one entry per accepted image. */
    var objpoints: seq<seq<Vec3>>
    var imgpoints: seq<seq<Point2>>
    var cameraMatrix: Option<Matrix3>
    var distCoeffs: Option<Distortion>
    var calibrationError: Option<real>

    ghost predicate Valid()
      reads this
    {
      && objp == ObjectPoints(boardWidth, boardHeight, squareSize)
      && |objpoints| == |imgpoints|
      && (forall k :: 0 <= k < |objpoints| ==> objpoints[k] == objp)
      && (cameraMatrix.Some? <==> distCoeffs.Some?)
      && (cameraMatrix.Some? <==> calibrationError.Some?)
    }

    constructor (width: nat, height: nat, size: real)
      ensures Valid()
      ensures boardWidth == width && boardHeight == height && squareSize == size
      ensures objp == ObjectPoints(width, height, size)
      ensures objpoints == [] && imgpoints == []
      ensures cameraMatrix == None && distCoeffs == None && calibrationError == None
    {
      boardWidth := width;
      boardHeight := height;
      squareSize := size;
      objp := ObjectPoints(width, height, size);
      objpoints := [];
      imgpoints := [];
      cameraMatrix := None;
      distCoeffs := None;
      calibrationError := None;
    }

    /** On a detected board, store the grid and the corners together and return the
        annotated copy; otherwise change nothing and return the image itself. */
    method AddCalibrationImage(image: Image, view: BoardView, draw: (Image, seq<Point2>) -> Image)
      returns (success: bool, annotated: Image)
      requires Valid()
      modifies this
      ensures Valid()
      ensures success == view.found
      ensures objpoints == old(objpoints) + (if success then [objp] else [])
      ensures imgpoints == old(imgpoints) + (if success then [view.corners] else [])
      ensures annotated == if success then draw(image, view.corners) else image
      ensures cameraMatrix == old(cameraMatrix) && distCoeffs == old(distCoeffs)
      ensures calibrationError == old(calibrationError)
    {
      if view.found {
        objpoints := objpoints + [objp];
        imgpoints := imgpoints + [view.corners];
        return true, draw(image, view.corners);
      } else {
        return false, image;
      }
    }

    /** Run the solver on all stored points; a result whose RMS is zero counts as a
        failure, because the code tests that number for truth. */
    method Calibrate(size: ImageSize, solve: (ImageSize, seq<seq<Vec3>>, seq<seq<Point2>>) -> SolverResult)
      returns (success: bool)
      requires Valid()
      modifies this
      ensures Valid()
      ensures objpoints == old(objpoints) && imgpoints == old(imgpoints)
      ensures var r := solve(size, objpoints, imgpoints);
        && success == (r.rms != 0.0)
        && (success ==> cameraMatrix == Some(r.cameraMatrix) && distCoeffs == Some(r.distCoeffs)
                        && calibrationError == Some(r.meanError))
        && (!success ==> cameraMatrix == old(cameraMatrix) && distCoeffs == old(distCoeffs)
                         && calibrationError == old(calibrationError))
    {
      var r := solve(size, objpoints, imgpoints);
      if r.rms != 0.0 {
        cameraMatrix := Some(r.cameraMatrix);
        distCoeffs := Some(r.distCoeffs);
        calibrationError := Some(r.meanError);
        success := true;
      } else {
        success := false;
      }
    }

    /** Feed every view to AddCalibrationImage in order. */
    method AddAll(images: seq<Image>, views: seq<BoardView>, draw: (Image, seq<Point2>) -> Image)
      returns (successful: nat)
      requires Valid() && |images| == |views|
      modifies this
      ensures Valid()
      ensures successful == Successes(views)
      ensures imgpoints == old(imgpoints) + FoundCorners(views)
      ensures objpoints == old(objpoints) + Copies(objp, successful)
      ensures cameraMatrix == old(cameraMatrix) && distCoeffs == old(distCoeffs)
      ensures calibrationError == old(calibrationError)
    {
      successful := 0;
      var i := 0;
      while i < |views|
        invariant 0 <= i <= |views|
        invariant Valid()
        invariant successful == Successes(views[..i])
        invariant imgpoints == old(imgpoints) + FoundCorners(views[..i])
        invariant objpoints == old(objpoints) + Copies(objp, successful)
        invariant cameraMatrix == old(cameraMatrix) && distCoeffs == old(distCoeffs)
        invariant calibrationError == old(calibrationError)
      {
        assert views[..i + 1][..i] == views[..i];
        var ok, _ := AddCalibrationImage(images[i], views[i], draw);
        if ok {
          successful := successful + 1;
        }
        i := i + 1;
      }
      assert views[..i] == views;
    }

    /** calibrate_from_images: no images, or fewer than ten detected boards, fail
        before the solver runs; otherwise the solver runs on the size of the first
        image that loaded. */
    method CalibrateFromImages(files: seq<ImageFile>, draw: (Image, seq<Point2>) -> Image,
                               solve: (ImageSize, seq<seq<Vec3>>, seq<seq<Point2>>) -> SolverResult)
      returns (success: bool)
      requires Valid()
      modifies this
      ensures Valid()
      ensures var found := FoundCorners(LoadedViews(files));
        && imgpoints == old(imgpoints) + (if files == [] then [] else found)
        && objpoints == old(objpoints) + Copies(objp, if files == [] then 0 else |found|)
        && (success ==> files != [] && |found| >= MIN_IMAGES)
        && (files != [] && |found| >= MIN_IMAGES ==>
              FirstSize(files).Some? && success == (solve(FirstSize(files).value, objpoints, imgpoints).rms != 0.0))
      ensures !success ==> cameraMatrix == old(cameraMatrix) && calibrationError == old(calibrationError)
    {
      if files == [] {
        return false;
      }
      var images, views := LoadedOnly(files);
      var successful := AddAll(images, views, draw);
      SizeOfFirstLoaded(files);
      if successful < MIN_IMAGES {
        return false;
      }
      success := Calibrate(FirstSize(files).value, solve);
    }

    /** calibrate_from_video: an unopened video fails; a zero `interval` raises
        ZeroDivisionError at the first frame read, before anything is added; otherwise
        frames whose index is a multiple of `interval` are tried, and ten detected
        boards are needed before the solver runs. */
    method CalibrateFromVideo(isOpen: bool, frames: seq<VideoFrame>, interval: int, size: ImageSize,
                              draw: (Image, seq<Point2>) -> Image,
                              solve: (ImageSize, seq<seq<Vec3>>, seq<seq<Point2>>) -> SolverResult)
      returns (success: bool, raised: bool)
      requires Valid()
      modifies this
      ensures Valid()
      ensures raised <==> isOpen && frames != [] && interval == 0
      ensures raised ==> !success && imgpoints == old(imgpoints) && objpoints == old(objpoints)
      ensures !raised ==>
        var found := if isOpen then FoundCorners(ViewsOf(Sampled(frames, interval))) else [];
        && imgpoints == old(imgpoints) + found
        && objpoints == old(objpoints) + Copies(objp, |found|)
        && (success ==> |found| >= MIN_IMAGES)
        && (isOpen && |found| >= MIN_IMAGES ==> success == (solve(size, objpoints, imgpoints).rms != 0.0))
      ensures !success ==> cameraMatrix == old(cameraMatrix) && calibrationError == old(calibrationError)
    {
      if !isOpen {
        return false, false;
      }
      var images, views;
      images, views, raised := SampleFrames(frames, interval);
      if raised {
        return false, true;
      }
      var successful := AddAll(images, views, draw);
      if successful < MIN_IMAGES {
        return false, false;
      }
      success := Calibrate(size, solve);
    }

    /** calibrate_live: run the capture loop on the camera's events, then demand ten
        captures before the solver runs. */
    method CalibrateLive(isOpen: bool, events: seq<LiveEvent>, target: int, interval: real, start: real,
                         size: ImageSize, draw: (Image, seq<Point2>) -> Image,
                         solve: (ImageSize, seq<seq<Vec3>>, seq<seq<Point2>>) -> SolverResult)
      returns (success: bool)
      requires Valid()
      modifies this
      ensures Valid()
      ensures var run := Live(LiveState(0, false, start, []), events, target, interval);
        var found := if isOpen then run.corners else [];
        && imgpoints == old(imgpoints) + found
        && objpoints == old(objpoints) + Copies(objp, |found|)
        && (success ==> isOpen && run.captured >= MIN_IMAGES)
        && (isOpen && run.captured >= MIN_IMAGES ==> success == (solve(size, objpoints, imgpoints).rms != 0.0))
      ensures !success ==> cameraMatrix == old(cameraMatrix) && calibrationError == old(calibrationError)
    {
      if !isOpen {
        return false;
      }
      var captured := CaptureLive(events, target, interval, start, draw);
      if captured < MIN_IMAGES {
        return false;
      }
      success := Calibrate(size, solve);
    }

    /** The capture loop of calibrate_live; returns the number of captures. */
    method CaptureLive(events: seq<LiveEvent>, target: int, interval: real, start: real,
                       draw: (Image, seq<Point2>) -> Image)
      returns (captured: int)
      requires Valid()
      modifies this
      ensures Valid()
      ensures var run := Live(LiveState(0, false, start, []), events, target, interval);
        && captured == run.captured
        && imgpoints == old(imgpoints) + run.corners
        && objpoints == old(objpoints) + Copies(objp, |run.corners|)
      ensures cameraMatrix == old(cameraMatrix) && distCoeffs == old(distCoeffs)
      ensures calibrationError == old(calibrationError)
    {
      ghost var goal := Live(LiveState(0, false, start, []), events, target, interval);
      ghost var baseImg, baseObj := imgpoints, objpoints;
      captured := 0;
      var auto := false;
      var last := start;
      ghost var corners: seq<seq<Point2>> := [];
      var i := 0;
      while captured < target
        invariant 0 <= i <= |events|
        invariant Valid()
        invariant imgpoints == baseImg + corners
        invariant objpoints == baseObj + Copies(objp, |corners|)
        invariant Live(LiveState(captured, auto, last, corners), events[i..], target, interval) == goal
        invariant cameraMatrix == old(cameraMatrix) && distCoeffs == old(distCoeffs)
        invariant calibrationError == old(calibrationError)
        decreases |events| - i
      {
        if i == |events| || !events[i].read {
          break;
        }
        assert events[i..][0] == events[i] && events[i..][1..] == events[i + 1..];
        var quit;
        captured, auto, last, corners, quit := LiveIteration(events[i], captured, auto, last, corners,
                                                             interval, draw, baseImg, baseObj);
        if quit {
          break;
        }
        i := i + 1;
      }
    }

    /** One pass of the live loop with a frame read: auto-capture, then the key. */
    method LiveIteration(ev: LiveEvent, captured: int, auto: bool, last: real, ghost corners: seq<seq<Point2>>,
                         interval: real, draw: (Image, seq<Point2>) -> Image,
                         ghost baseImg: seq<seq<Point2>>, ghost baseObj: seq<seq<Vec3>>)
      returns (captured': int, auto': bool, last': real, ghost corners': seq<seq<Point2>>, quit: bool)
      requires Valid()
      requires imgpoints == baseImg + corners && objpoints == baseObj + Copies(objp, |corners|)
      modifies this
      ensures Valid()
      ensures LiveStep(LiveState(captured, auto, last, corners), ev, interval)
        == (LiveState(captured', auto', last', corners'), quit)
      ensures imgpoints == baseImg + corners' && objpoints == baseObj + Copies(objp, |corners'|)
      ensures cameraMatrix == old(cameraMatrix) && distCoeffs == old(distCoeffs)
      ensures calibrationError == old(calibrationError)
    {
      captured', auto', last', corners' := captured, auto, last, corners;
      var found := ev.view.found;
      if auto && found && ev.now - last >= interval {
        corners' := CaptureView(ev, draw, corners', baseImg, baseObj);
        captured' := captured' + 1;
        last' := ev.now;
      }
      var key := KeyByte(ev.key);
      quit := key == KEY_QUIT;
      if quit {
      } else if key == KEY_CAPTURE && found {
        corners' := CaptureView(ev, draw, corners', baseImg, baseObj);
        captured' := captured' + 1;
      } else if key == KEY_TOGGLE {
        auto' := !auto';
      }
    }

    /** Store the board of a frame in which it was found. */
    method CaptureView(ev: LiveEvent, draw: (Image, seq<Point2>) -> Image, ghost corners: seq<seq<Point2>>,
                       ghost baseImg: seq<seq<Point2>>, ghost baseObj: seq<seq<Vec3>>)
      returns (ghost corners': seq<seq<Point2>>)
      requires Valid() && ev.view.found
      requires imgpoints == baseImg + corners && objpoints == baseObj + Copies(objp, |corners|)
      modifies this
      ensures Valid() && corners' == corners + [ev.view.corners]
      ensures imgpoints == baseImg + corners' && objpoints == baseObj + Copies(objp, |corners'|)
      ensures cameraMatrix == old(cameraMatrix) && distCoeffs == old(distCoeffs)
      ensures calibrationError == old(calibrationError)
    {
      var ok, _ := AddCalibrationImage(ev.image, ev.view, draw);
      corners' := corners + [ev.view.corners];
      assert Copies(objp, |corners'|) == Copies(objp, |corners|) + [objp];
    }

    /** save_calibration: refused without a calibration; otherwise the archive holds
        the matrix, the coefficients, the error and the board description. */
    method SaveCalibration() returns (saved: bool, archive: Option<CalibrationArchive>)
      requires Valid()
      ensures saved <==> cameraMatrix.Some?
      ensures archive.Some? <==> saved
      ensures saved ==> archive.value == CalibrationArchive(cameraMatrix.value, distCoeffs.value,
        calibrationError.value, boardWidth, boardHeight, squareSize)
    {
      if cameraMatrix.None? {
        return false, None;
      }
      saved := true;
      archive := Some(CalibrationArchive(cameraMatrix.value, distCoeffs.value, calibrationError.value,
                                         boardWidth, boardHeight, squareSize));
    }

    /** update_config_file: without a calibration the file is left as it is and the
        result is false; otherwise the lines are rewritten with the new matrix and
        coefficients. */
    method UpdateConfigFile(lines: seq<string>, fmt6: real -> string, fmt8: real -> string)
      returns (updated: bool, newLines: seq<string>)
      requires Valid()
      ensures updated == cameraMatrix.Some?
      ensures !updated ==> newLines == lines
      ensures updated ==> newLines == RewriteFrom(lines, 0,
        MatrixLine(cameraMatrix.value, fmt6), DistLine(distCoeffs.value, fmt8))
    {
      if cameraMatrix.None? {
        return false, lines;
      }
      newLines := RewriteLines(lines, MatrixLine(cameraMatrix.value, fmt6), DistLine(distCoeffs.value, fmt8));
      updated := true;
    }

    /** print_results: nothing without a calibration; otherwise the intrinsics, the
        five coefficients, the error with its band and the dataset size. */
    function Results(): (r: Option<Report>)
      reads this
      requires Valid()
      ensures r.Some? <==> cameraMatrix.Some?
      ensures r.Some? ==> r.value.quality == QualityOf(r.value.error) && r.value.images == |objpoints|
    {
      if cameraMatrix.None? then None
      else
        var m := cameraMatrix.value;
        Some(Report(m.r0.a, m.r1.b, m.r0.c, m.r1.c, distCoeffs.value,
                    calibrationError.value, QualityOf(calibrationError.value),
                    |objpoints|, boardWidth, boardHeight, squareSize))
    }
  }

  /** The loaded images and their views, in order. */
  method LoadedOnly(files: seq<ImageFile>) returns (images: seq<Image>, views: seq<BoardView>)
    ensures |images| == |views| && views == LoadedViews(files)
  {
    images, views := [], [];
    var i := 0;
    while i < |files|
      invariant 0 <= i <= |files|
      invariant |images| == |views| && views == LoadedViews(files[..i])
    {
      assert files[..i + 1][..i] == files[..i];
      if files[i].Loaded? {
        images, views := images + [files[i].image], views + [files[i].view];
      }
      i := i + 1;
    }
    assert files[..i] == files;
  }

  /** The loop of calibrate_from_video over the frame index: only frames whose index
      is a multiple of `interval` go on to detection; with `interval` 0 the test at
      the first frame read raises ZeroDivisionError and nothing is sampled. */
  method SampleFrames(frames: seq<VideoFrame>, interval: int)
    returns (images: seq<Image>, views: seq<BoardView>, raised: bool)
    ensures raised <==> frames != [] && interval == 0
    ensures raised ==> images == [] && views == []
    ensures !raised ==> |images| == |views| && views == ViewsOf(Sampled(frames, interval))
  {
    images, views, raised := [], [], false;
    var frameIdx := 0;
    while frameIdx < |frames|
      invariant 0 <= frameIdx <= |frames|
      invariant interval == 0 ==> frameIdx == 0
      invariant |images| == |views| && views == ViewsOf(Sampled(frames[..frameIdx], interval))
    {
      if interval == 0 {
        raised := true;
        return;
      }
      assert frames[..frameIdx + 1][..frameIdx] == frames[..frameIdx];
      if frameIdx % interval == 0 {
        images, views := images + [frames[frameIdx].image], views + [frames[frameIdx].view];
      }
      frameIdx := frameIdx + 1;
    }
    assert frames[..frameIdx] == frames;
  }

  /** The line loop of update_config_file. */
  method RewriteLines(lines: seq<string>, matrixLine: string, distLine: string) returns (newLines: seq<string>)
    ensures newLines == RewriteFrom(lines, 0, matrixLine, distLine)
  {
    ghost var all := RewriteFrom(lines, 0, matrixLine, distLine);
    newLines := [];
    var i := 0;
    while i < |lines|
      invariant 0 <= i <= |lines| + 1
      invariant newLines + RewriteFrom(lines, i, matrixLine, distLine) == all
      decreases |lines| + 1 - i
    {
      var out, next := RewriteAt(lines, i, matrixLine, distLine);
      AppendShift(newLines, out, RewriteFrom(lines, next, matrixLine, distLine));
      newLines := newLines + [out];
      i := next;
    }
    assert RewriteFrom(lines, i, matrixLine, distLine) == [];
  }

  /** One pass of the line loop: the line written for lines[i], and the index the
      loop goes on from (past the closing line of a matrix block). */
  method RewriteAt(lines: seq<string>, i: nat, matrixLine: string, distLine: string) returns (out: string, next: nat)
    requires i < |lines|
    ensures i < next <= |lines| + 1
    ensures RewriteFrom(lines, i, matrixLine, distLine) == [out] + RewriteFrom(lines, next, matrixLine, distLine)
  {
    var line := lines[i];
    next := i;
    if StartsWith(line, MATRIX_PREFIX) {
      out := matrixLine;
      while next < |lines| && !ClosesBlock(lines[next])
        invariant i <= next <= |lines| && BlockEnd(lines, next) == BlockEnd(lines, i)
        decreases |lines| - next
      {
        next := next + 1;
      }
      assert next == BlockEnd(lines, i);
    } else if StartsWith(line, DIST_PREFIX) {
      out := distLine;
    } else {
      out := line;
    }
    next := next + 1;
  }

  lemma AppendShift<T>(a: seq<T>, x: T, rest: seq<T>)
    ensures (a + [x]) + rest == a + ([x] + rest)
  {
  }
}
