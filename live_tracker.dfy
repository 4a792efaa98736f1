/**
 * The live webcam tracker (live_tracker.py): a recorder that SPACE switches
 * on and off, the per-frame rule that appends one record per detected marker
 * while recording, and the capture loop with its frame counters.
 *
 * The camera, the clock and the keyboard are inputs: the loop consumes a
 * finite sequence of `Tick`s, each carrying whether a frame could be read,
 * the detections in it, the clock reading when it is processed, the raw key
 * code and the clock reading when the key is handled.  Running out of ticks
 * ends the loop like a failed read.
 */
module LiveTracker {
  import opened Common
  import ArucoUtils
  import VisualizeTrajectory

  const KEY_QUIT := 'q' as int
  const KEY_RECORD := ' ' as int

  /** The recording state of the tracker. */
  datatype Recorder = Recorder(recording: bool, data: seq<TrajectoryPoint>, frameCount: int, start: Option<real>)

  /** What the recorder keeps true: a recording has a start time, and the records
      carry frame numbers up to the frame count, in order. */
  ghost predicate Consistent(r: Recorder)
  {
    && (r.recording ==> r.start.Some?)
    && 0 <= r.frameCount
    && (forall k :: 0 <= k < |r.data| ==> 0 <= r.data[k].frame <= r.frameCount)
    && (forall i, j :: 0 <= i < j < |r.data| ==> r.data[i].frame <= r.data[j].frame)
  }

  /** process_frame's effect on the recorder: while recording, one record per
      detected marker, stamped with the time since the recording started and the
      current frame count. */
  function Processed(r: Recorder, ids: seq<Detection>, now: real): (p: Recorder)
    requires r.recording ==> r.start.Some?
    ensures p.recording == r.recording && p.start == r.start && p.frameCount == r.frameCount
  {
    if ids != [] && r.recording then
      r.(data := r.data + RecordsOf(now - r.start.value, r.frameCount, ids))
    else r
  }

  /** SPACE: starting clears the records, resets the frame count and stamps the
      start time; stopping keeps everything. */
  function Toggled(r: Recorder, now: real): (t: Recorder)
    ensures t.recording == !r.recording
    ensures t.recording ==> t.start.Some?
  {
    if !r.recording then Recorder(true, [], 0, Some(now)) else r.(recording := false)
  }

  /** Records are added exactly when recording and something was detected. */
  lemma ProcessedAppends(r: Recorder, ids: seq<Detection>, now: real)
    requires r.recording ==> r.start.Some?
    ensures Processed(r, ids, now).data == r.data <==> !r.recording || ids == []
    ensures r.recording ==> |Processed(r, ids, now).data| == |r.data| + |ids|
  {
  }

  /** Stopping keeps the records; the first frame after a start is frame 1, and
      its records are stamped with the time since the start. */
  lemma ToggleStartsFresh(r: Recorder, pressed: real, ids: seq<Detection>, now: real)
    ensures r.recording ==> Toggled(r, pressed).data == r.data && Toggled(r, pressed).frameCount == r.frameCount
    ensures !r.recording ==>
      var t := Toggled(r, pressed);
      Processed(t.(frameCount := t.frameCount + 1), ids, now).data == RecordsOf(now - pressed, 1, ids)
  {
  }

  /** Counting a frame keeps the recorder consistent. */
  lemma CountConsistent(r: Recorder)
    requires Consistent(r)
    ensures Consistent(r.(frameCount := r.frameCount + 1))
  {
  }

  /** Processing a frame keeps the recorder consistent. */
  lemma ProcessConsistent(r: Recorder, ids: seq<Detection>, now: real)
    requires Consistent(r)
    ensures Consistent(Processed(r, ids, now))
  {
    var p := Processed(r, ids, now);
    if ids != [] && r.recording {
      var added := RecordsOf(now - r.start.value, r.frameCount, ids);
      assert p.data == r.data + added;
      forall k | 0 <= k < |p.data| ensures 0 <= p.data[k].frame <= p.frameCount {
        if k >= |r.data| { assert p.data[k] == added[k - |r.data|]; }
      }
      forall i, j | 0 <= i < j < |p.data| ensures p.data[i].frame <= p.data[j].frame {
        if j >= |r.data| { assert p.data[j] == added[j - |r.data|]; }
        if i >= |r.data| { assert p.data[i] == added[i - |r.data|]; }
      }
    }
  }

  /** Toggling keeps the recorder consistent. */
  lemma ToggleConsistent(r: Recorder, pressed: real)
    requires Consistent(r)
    ensures Consistent(Toggled(r, pressed))
  {
  }

  /** One frame of run_live_tracking. */
  datatype Tick = Tick(read: bool, ids: seq<Detection>, now: real, key: int, pressed: real)

  /** The loop's variables: the recorder and the two counters. */
  datatype Session = Session(recorder: Recorder, totalFrames: int, detectedFrames: int)

  /** What every frame that was read does before the key is looked at: count it,
      process it, and count it as detected when it had ids. */
  function Advance(s: Session, t: Tick): (next: Session)
    requires s.recorder.recording ==> s.recorder.start.Some?
    ensures next.recorder.recording == s.recorder.recording && next.recorder.start == s.recorder.start
    ensures next.totalFrames == s.totalFrames + 1
    ensures next.detectedFrames - s.detectedFrames == if t.ids != [] then 1 else 0
  {
    var r := Processed(s.recorder.(frameCount := s.recorder.frameCount + 1), t.ids, t.now);
    Session(r, s.totalFrames + 1, s.detectedFrames + if t.ids != [] then 1 else 0)
  }

  /** SPACE toggles recording; any other key (but 'q', which ends the loop) does
      nothing. */
  function KeyHandled(s: Session, t: Tick): (h: Session)
    ensures h.totalFrames == s.totalFrames && h.detectedFrames == s.detectedFrames
    ensures KeyByte(t.key) != KEY_RECORD ==> h == s
  {
    if KeyByte(t.key) == KEY_RECORD then s.(recorder := Toggled(s.recorder, t.pressed)) else s
  }

  /** The loop of run_live_tracking over the remaining ticks: stop at a failed read;
      otherwise count the frame, process it, count it as detected when it had ids,
      then quit on 'q' or toggle recording on SPACE. */
  function Run(s: Session, ticks: seq<Tick>): Session
    requires s.recorder.recording ==> s.recorder.start.Some?
    decreases |ticks|
  {
    if ticks == [] || !ticks[0].read then s
    else
      var next := Advance(s, ticks[0]);
      if KeyByte(ticks[0].key) == KEY_QUIT then next
      else Run(KeyHandled(next, ticks[0]), ticks[1..])
  }

  /** The counters: at most one frame per tick, and no more frames with detections
      than frames. */
  lemma {:induction false} RunCounts(s: Session, ticks: seq<Tick>)
    requires s.recorder.recording ==> s.recorder.start.Some?
    ensures var e := Run(s, ticks);
      && s.totalFrames <= e.totalFrames <= s.totalFrames + |ticks|
      && s.detectedFrames <= e.detectedFrames
      && e.detectedFrames - s.detectedFrames <= e.totalFrames - s.totalFrames
    decreases |ticks|
  {
    if ticks != [] && ticks[0].read && KeyByte(ticks[0].key) != KEY_QUIT {
      RunCounts(KeyHandled(Advance(s, ticks[0]), ticks[0]), ticks[1..]);
    }
  }

  /** One frame keeps the recorder consistent, whatever the key. */
  lemma TickConsistent(s: Session, t: Tick)
    requires Consistent(s.recorder)
    ensures Consistent(Advance(s, t).recorder)
    ensures Consistent(KeyHandled(Advance(s, t), t).recorder)
  {
    var c := s.recorder.(frameCount := s.recorder.frameCount + 1);
    CountConsistent(s.recorder);
    ProcessConsistent(c, t.ids, t.now);
    var p := Processed(c, t.ids, t.now);
    assert Advance(s, t).recorder == p;
    ToggleConsistent(p, t.pressed);
  }

  /** The recorder stays consistent through the whole loop. */
  lemma {:induction false} RunConsistent(s: Session, ticks: seq<Tick>)
    requires Consistent(s.recorder)
    ensures Consistent(Run(s, ticks).recorder)
    decreases |ticks|
  {
    if ticks != [] && ticks[0].read {
      TickConsistent(s, ticks[0]);
      if KeyByte(ticks[0].key) != KEY_QUIT {
        RunConsistent(KeyHandled(Advance(s, ticks[0]), ticks[0]), ticks[1..]);
      }
    }
  }

  /** The summary's detection rate as written: with no frame read the division by
      total_frames raises ZeroDivisionError (None). */
  function DetectionRateAsWritten(detectedFrames: int, totalFrames: int): Option<real>
  {
    if totalFrames == 0 then None else Some((detectedFrames as real) / (totalFrames as real) * 100.0)
  }

  /** A camera that opens but delivers no frame crashes the summary. */
  lemma EmptySessionCrashes(s: Session, ticks: seq<Tick>)
    requires s == Session(Recorder(false, [], 0, None), 0, 0)
    requires ticks == [Tick(false, [], 0.0, -1, 0.0)]
    ensures DetectionRateAsWritten(Run(s, ticks).detectedFrames, Run(s, ticks).totalFrames).None?
  {
  }

  /** The detection rate with the empty session reported as 0%. */
  function DetectionRate(detectedFrames: int, totalFrames: int): (rate: real)
    requires 0 <= detectedFrames <= totalFrames
    ensures 0.0 <= rate <= 100.0
    ensures 0 < totalFrames ==> Some(rate) == DetectionRateAsWritten(detectedFrames, totalFrames)
  {
    if totalFrames == 0 then 0.0
    else
      var n := totalFrames as real;
      QuotientBounds(detectedFrames as real, n, 0.0, 1.0);
      (detectedFrames as real) / n * 100.0
  }

  /** What run_live_tracking ends with. */
  datatype Outcome = Outcome(totalFrames: int, detectedFrames: int, rate: real,
                             saved: bool, animation: Option<VisualizeTrajectory.Animation>)

  class LiveArucoTracker {
    const params: ArucoUtils.CameraParams
    const cameraId: int
    var recording: bool
    var trajectoryData: seq<TrajectoryPoint>
    var frameCount: int
    var recordingStartTime: Option<real>

    function State(): Recorder
      reads this
    {
      Recorder(recording, trajectoryData, frameCount, recordingStartTime)
    }

    ghost predicate Valid()
      reads this
    {
      Consistent(State())
    }

    /** __init__: the camera parameters fall back to config.py one by one; nothing
        is recorded yet. */
    constructor (markerSize: Option<real>, cameraMatrix: Option<seq<seq<real>>>,
                 distCoeffs: Option<seq<real>>, cameraId: int)
      ensures Valid()
      ensures params == ArucoUtils.LoadCameraParams(markerSize, cameraMatrix, distCoeffs, None)
      ensures this.cameraId == cameraId
      ensures State() == Recorder(false, [], 0, None)
    {
      params := ArucoUtils.LoadCameraParams(markerSize, cameraMatrix, distCoeffs, None);
      this.cameraId := cameraId;
      recording := false;
      trajectoryData := [];
      frameCount := 0;
      recordingStartTime := None;
    }

    /** process_frame: `detected` says whether any marker was found; while recording,
        each detected marker adds one record, in detection order. */
    method ProcessFrame(ids: seq<Detection>, now: real) returns (detected: bool)
      requires Valid()
      modifies this
      ensures detected <==> ids != []
      ensures State() == Processed(old(State()), ids, now)
      ensures Valid()
    {
      detected := false;
      if ids != [] {
        detected := true;
        if recording {
          var timestamp := now - recordingStartTime.value;
          var i := 0;
          while i < |ids|
            invariant 0 <= i <= |ids|
            invariant trajectoryData == old(trajectoryData) + RecordsOf(timestamp, frameCount, ids[..i])
            invariant recording == old(recording) && frameCount == old(frameCount)
            invariant recordingStartTime == old(recordingStartTime)
          {
            assert ids[..i + 1][..i] == ids[..i];
            trajectoryData := trajectoryData + [RecordOf(timestamp, frameCount, ids[i])];
            i := i + 1;
          }
          assert ids[..i] == ids;
        }
      }
      ProcessConsistent(old(State()), ids, now);
    }

    /** The SPACE key. */
    method ToggleRecording(now: real)
      requires Valid()
      modifies this
      ensures State() == Toggled(old(State()), now)
      ensures Valid()
    {
      ToggleConsistent(State(), now);
      recording := !recording;
      if recording {
        trajectoryData := [];
        frameCount := 0;
        recordingStartTime := Some(now);
      }
    }

    /** save_trajectory: false, writing nothing, when there are no records; otherwise
        its own DictWriter writes the nine columns and one row per record, which reads
        back as that record (a failing write propagates and is not modelled). */
    function SaveTrajectory(): (o: ArucoUtils.SaveOutcome)
      reads this
      ensures o.NothingToSave? <==> trajectoryData == []
      ensures !o.WriteFailed?
      ensures o.Written? ==> o.header == ArucoUtils.FIELDNAMES && |o.rows| == |trajectoryData|
      ensures o.Written? ==>
        forall k :: 0 <= k < |o.rows| ==> ArucoUtils.FromRow(o.rows[k]) == Some(trajectoryData[k])
    {
      ArucoUtils.SaveTrajectoryRows(trajectoryData, true);
      ArucoUtils.SaveTrajectory(trajectoryData, true)
    }

    /** One frame that was read: count it, process it, then handle the key. */
    method HandleTick(t: Tick, totalFrames: int, detectedFrames: int)
      returns (totalFrames': int, detectedFrames': int, quit: bool)
      requires Valid()
      modifies this
      ensures Valid()
      ensures quit <==> KeyByte(t.key) == KEY_QUIT
      ensures var next := Advance(Session(old(State()), totalFrames, detectedFrames), t);
        Session(State(), totalFrames', detectedFrames') == if quit then next else KeyHandled(next, t)
    {
      TickConsistent(Session(State(), totalFrames, detectedFrames), t);
      totalFrames' := totalFrames + 1;
      frameCount := frameCount + 1;
      var detected := ProcessFrame(t.ids, t.now);
      detectedFrames' := detectedFrames + if detected then 1 else 0;
      var key := KeyByte(t.key);
      quit := key == KEY_QUIT;
      if key == KEY_RECORD {
        ToggleRecording(t.pressed);
      }
    }

    /** The capture loop of run_live_tracking, from fresh counters. */
    method TrackFrames(ticks: seq<Tick>) returns (totalFrames: int, detectedFrames: int)
      requires Valid()
      modifies this
      ensures Valid()
      ensures Session(State(), totalFrames, detectedFrames) == Run(Session(old(State()), 0, 0), ticks)
    {
      ghost var goal := Run(Session(State(), 0, 0), ticks);
      totalFrames, detectedFrames := 0, 0;
      var i := 0;
      while i < |ticks|
        invariant 0 <= i <= |ticks|
        invariant Valid()
        invariant Run(Session(State(), totalFrames, detectedFrames), ticks[i..]) == goal
        decreases |ticks| - i
      {
        assert ticks[i..][0] == ticks[i] && ticks[i..][1..] == ticks[i + 1..];
        if !ticks[i].read {
          break;
        }
        var quit;
        totalFrames, detectedFrames, quit := HandleTick(ticks[i], totalFrames, detectedFrames);
        if quit {
          break;
        }
        i := i + 1;
      }
    }

    /** run_live_tracking: nothing happens when the camera cannot be opened;
        otherwise the loop runs as `Run` says, the summary reports the counters and
        the corrected `DetectionRate` (0% for a session without frames), and
        a non-empty recording is saved and, when asked for, animated from the saved
        rows at 30 fps for 10 seconds. */
    method RunLiveTracking(isOpen: bool, ticks: seq<Tick>, generateAnimation: bool)
      returns (outcome: Option<Outcome>)
      requires Valid()
      modifies this
      ensures Valid()
      ensures !isOpen ==> outcome.None? && State() == old(State())
      ensures isOpen ==> outcome.Some?
      ensures outcome.Some? ==>
        var e := Run(Session(old(State()), 0, 0), ticks);
        && State() == e.recorder
        && outcome.value.totalFrames == e.totalFrames
        && outcome.value.detectedFrames == e.detectedFrames
        && 0 <= outcome.value.detectedFrames <= outcome.value.totalFrames <= |ticks|
        && outcome.value.rate == DetectionRate(e.detectedFrames, e.totalFrames)
        && outcome.value.saved == (trajectoryData != [])
        && (outcome.value.animation.Some? <==> generateAnimation && trajectoryData != [])
        && (outcome.value.animation.Some? ==> outcome.value.animation.value.totalFrames == 300)
    {
      if !isOpen {
        return None;
      }
      RunCounts(Session(State(), 0, 0), ticks);
      var totalFrames, detectedFrames := TrackFrames(ticks);
      var rate := DetectionRate(detectedFrames, totalFrames);
      var saved := SaveTrajectory().Written?;
      var animation := None;
      if saved && generateAnimation {
        var visualizer := new VisualizeTrajectory.TrajectoryVisualizer(trajectoryData);
        assert trajectoryData[|trajectoryData| - 1].markerId in visualizer.data;
        assert visualizer.order[0] in visualizer.data;
        animation := visualizer.AnimationSetup(None, 30, 10);
      }
      outcome := Some(Outcome(totalFrames, detectedFrames, rate, saved, animation));
    }
  }
}
