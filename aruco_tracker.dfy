/**
 * The offline video tracker (aruco_tracker.py): frames are read one after the
 * other, every FRAME_SKIP-th frame goes through detection, and each detected
 * marker adds one record to a list that is never cleared.
 *
 * The video is a finite sequence of frames, each given by the detections in it
 * (the detector and the pose estimator are foreign); the end of the sequence
 * is the failed read that ends the loop.
 */
module ArucoTracking {
  import opened Common
  import ArucoUtils

  /** config.py's FRAME_SKIP: process every frame. */
  const FRAME_SKIP := 1

  /** `frame_number / fps` once the video's frame rate is known and positive,
      0.0 otherwise (before process_video has set it, or for a reported rate of 0). */
  function TimestampOf(frameNumber: int, fps: Option<real>): (t: real)
    ensures (fps.None? || fps.value <= 0.0) ==> t == 0.0
    ensures fps.Some? && 0.0 < fps.value ==> t * fps.value == frameNumber as real
  {
    if fps.Some? && fps.value > 0.0 then (frameNumber as real) / fps.value else 0.0
  }

  /** Later frames never get earlier timestamps, and frame 0 is at time 0. */
  lemma TimestampMonotone(a: int, b: int, fps: Option<real>)
    requires a <= b
    ensures TimestampOf(a, fps) <= TimestampOf(b, fps)
    ensures TimestampOf(0, fps) == 0.0
  {
    if fps.Some? && fps.value > 0.0 {
      var f := fps.value;
      assert (b as real) / f - (a as real) / f == ((b - a) as real) / f;
    }
  }

  /** The records of the first n frames: the frames whose number is a multiple of
      `skip` contribute their detections, stamped with their number and time. */
  function Tracked(frames: seq<seq<Detection>>, n: nat, fps: Option<real>, skip: int): seq<TrajectoryPoint>
    requires n <= |frames| && 0 < skip
  {
    if n == 0 then []
    else
      Tracked(frames, n - 1, fps, skip)
        + if (n - 1) % skip == 0 then RecordsOf(TimestampOf(n - 1, fps), n - 1, frames[n - 1]) else []
  }

  /** Every record comes from a sampled frame read so far, with that frame's
      timestamp. */
  lemma {:induction false} TrackedFrames(frames: seq<seq<Detection>>, n: nat, fps: Option<real>, skip: int)
    requires n <= |frames| && 0 < skip
    ensures forall k :: 0 <= k < |Tracked(frames, n, fps, skip)| ==>
      var p := Tracked(frames, n, fps, skip)[k];
      0 <= p.frame < n && p.frame % skip == 0 && p.timestamp == TimestampOf(p.frame, fps)
  {
    if n > 0 {
      TrackedFrames(frames, n - 1, fps, skip);
      var prev := Tracked(frames, n - 1, fps, skip);
      if (n - 1) % skip == 0 {
        var added := RecordsOf(TimestampOf(n - 1, fps), n - 1, frames[n - 1]);
        var r := prev + added;
        assert Tracked(frames, n, fps, skip) == r;
        forall k | 0 <= k < |r|
          ensures 0 <= r[k].frame < n && r[k].frame % skip == 0 && r[k].timestamp == TimestampOf(r[k].frame, fps)
        {
          if k >= |prev| { assert r[k] == added[k - |prev|]; } else { assert r[k] == prev[k]; }
        }
      } else {
        assert Tracked(frames, n, fps, skip) == prev;
      }
    }
  }

  /** The records are in frame order. */
  lemma {:induction false} TrackedOrdered(frames: seq<seq<Detection>>, n: nat, fps: Option<real>, skip: int)
    requires n <= |frames| && 0 < skip
    ensures forall i, j :: 0 <= i < j < |Tracked(frames, n, fps, skip)| ==>
      Tracked(frames, n, fps, skip)[i].frame <= Tracked(frames, n, fps, skip)[j].frame
  {
    if n > 0 {
      TrackedOrdered(frames, n - 1, fps, skip);
      TrackedFrames(frames, n - 1, fps, skip);
      var prev := Tracked(frames, n - 1, fps, skip);
      if (n - 1) % skip == 0 {
        var added := RecordsOf(TimestampOf(n - 1, fps), n - 1, frames[n - 1]);
        var r := prev + added;
        assert Tracked(frames, n, fps, skip) == r;
        forall i, j | 0 <= i < j < |r| ensures r[i].frame <= r[j].frame {
          if j >= |prev| { assert r[j] == added[j - |prev|]; } else { assert r[j] == prev[j]; }
          if i >= |prev| { assert r[i] == added[i - |prev|]; } else { assert r[i] == prev[i]; }
        }
      } else {
        assert Tracked(frames, n, fps, skip) == prev;
      }
    }
  }

  /** Each sampled frame adds exactly as many records as it has detections. */
  function SampledDetections(frames: seq<seq<Detection>>, n: nat, skip: int): nat
    requires n <= |frames| && 0 < skip
  {
    if n == 0 then 0
    else SampledDetections(frames, n - 1, skip) + if (n - 1) % skip == 0 then |frames[n - 1]| else 0
  }

  lemma {:induction false} TrackedCount(frames: seq<seq<Detection>>, n: nat, fps: Option<real>, skip: int)
    requires n <= |frames| && 0 < skip
    ensures |Tracked(frames, n, fps, skip)| == SampledDetections(frames, n, skip)
  {
    if n > 0 {
      TrackedCount(frames, n - 1, fps, skip);
    }
  }

  class ArucoTracker {
    const params: ArucoUtils.CameraParams
    /** The list every detection is appended to; nothing ever removes from it. */
    var trajectoryData: seq<TrajectoryPoint>
    /** The video's frame rate, set by process_video (absent before). */
    var fps: Option<real>

    /** __init__: the camera parameters fall back to config.py one by one; the list
        starts empty. */
    constructor (markerSize: Option<real>, cameraMatrix: Option<seq<seq<real>>>, distCoeffs: Option<seq<real>>)
      ensures params == ArucoUtils.LoadCameraParams(markerSize, cameraMatrix, distCoeffs, None)
      ensures trajectoryData == [] && fps.None?
    {
      params := ArucoUtils.LoadCameraParams(markerSize, cameraMatrix, distCoeffs, None);
      trajectoryData := [];
      fps := None;
    }

    /** detect_and_estimate_pose: one record per detected marker, in detection order,
        appended to the list; no detections, nothing appended. */
    method DetectAndEstimatePose(ids: seq<Detection>, frameNumber: int)
      modifies this
      ensures trajectoryData == old(trajectoryData) + RecordsOf(TimestampOf(frameNumber, fps), frameNumber, ids)
      ensures fps == old(fps)
    {
      if ids != [] {
        var i := 0;
        while i < |ids|
          invariant 0 <= i <= |ids| && fps == old(fps)
          invariant trajectoryData == old(trajectoryData) + RecordsOf(TimestampOf(frameNumber, fps), frameNumber, ids[..i])
        {
          assert ids[..i + 1][..i] == ids[..i];
          var timestamp := if fps.Some? && fps.value > 0.0 then (frameNumber as real) / fps.value else 0.0;
          trajectoryData := trajectoryData + [RecordOf(timestamp, frameNumber, ids[i])];
          i := i + 1;
        }
        assert ids[..i] == ids;
      }
    }

    /** process_video: a video that cannot be opened raises ValueError (None here);
        otherwise the frame rate is recorded, every frame is read and counted, the
        frames numbered by a multiple of `skip` are processed, the whole list (earlier
        records included) is saved with save_trajectory, and returned. */
    method ProcessVideo(isOpen: bool, frames: seq<seq<Detection>>, videoFps: real, skip: int)
      returns (result: Option<seq<TrajectoryPoint>>, saved: Option<ArucoUtils.SaveOutcome>)
      requires 0 < skip
      modifies this
      ensures !isOpen ==> result.None? && saved.None? && trajectoryData == old(trajectoryData) && fps == old(fps)
      ensures isOpen ==>
        && fps == Some(videoFps)
        && trajectoryData == old(trajectoryData) + Tracked(frames, |frames|, Some(videoFps), skip)
        && result == Some(trajectoryData)
        && saved == Some(SaveTrajectory())
        && (saved.value.NothingToSave? <==> trajectoryData == [])
    {
      if !isOpen {
        return None, None;
      }
      fps := Some(videoFps);
      var frameNumber := 0;
      while frameNumber < |frames|
        invariant 0 <= frameNumber <= |frames| && fps == Some(videoFps)
        invariant trajectoryData == old(trajectoryData) + Tracked(frames, frameNumber, fps, skip)
      {
        if frameNumber % skip == 0 {
          DetectAndEstimatePose(frames[frameNumber], frameNumber);
        }
        frameNumber := frameNumber + 1;
      }
      saved := Some(SaveTrajectory());
      result := Some(trajectoryData);
    }

    /** save_trajectory: nothing is written for an empty list; otherwise the header
        and one row per record (a failing write propagates and is not modelled). */
    function SaveTrajectory(): (o: ArucoUtils.SaveOutcome)
      reads this
      ensures o.NothingToSave? <==> trajectoryData == []
      ensures !o.WriteFailed?
    {
      ArucoUtils.SaveTrajectory(trajectoryData, true)
    }
  }
}
