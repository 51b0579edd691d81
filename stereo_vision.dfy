/**
 * The `StereoVision` object: the fields of a `Depth.Session`, updated in place by
 * the loops of `process`, each method proved to leave the fields as the function of
 * the same name in `Depth` computes.
 */
module Stereo {
  import opened Wrappers
  import opened Keys
  import opened Frames
  import opened Depth

  /** The unit itself. Its fields are the `Session`; every method keeps `Consistent`. */
  class StereoVision {
    var stage: Stage
    var lastSnapshot: real
    var snapshotCount: int
    var snapshots: map<string, seq<Pixels>>
    var corners: map<string, seq<Corners>>
    var camparams: map<string, CameraParams>

    function State(): Session
      reads this
    {
      Session(stage, lastSnapshot, snapshotCount, snapshots, corners, camparams)
    }

    ghost predicate Valid()
      reads this
    {
      Consistent(State())
    }

    constructor ()
      ensures State() == Initial() && Valid()
    {
      stage, lastSnapshot, snapshotCount := CalibrateWait, 0.0, 0;
      snapshots, corners, camparams := map[], map[], map[];
    }

    method ResetCalibration()
      modifies this
      ensures State() == Initial() && Valid()
    {
      stage, lastSnapshot, snapshotCount := CalibrateWait, 0.0, 0;
      snapshots, corners, camparams := map[], map[], map[];
    }

    method HandleKeystroke(key: char)
      requires Valid()
      modifies this
      ensures State() == Keystroke(old(State()), key) && Valid()
    {
      KeystrokeConsistent(State(), key);
      if key == ' ' && stage == CalibrateWait {
        stage := Calibrating;
      } else if key == 'c' {
        ResetCalibration();
      }
    }

    method Process(frames: seq<Pixels>, detections: seq<Option<Corners>>, now: real)
      returns (r: Result<map<string, Pixels>, DepthError>)
      requires Valid() && |detections| == |frames|
      modifies this
      ensures Step(State(), r) == Tick(old(State()), frames, detections, now) && Valid()
    {
      TickConsistent(State(), frames, detections, now);
      if |frames| != ImageCount {
        return Err(WrongImageCount(|frames|));
      }
      if stage != Running {
        var outputs := ProcessCalibration(frames, detections, now);
        r := Ok(outputs);
      } else {
        r := ProcessStereo(frames);
      }
    }

    /** Steps 1 to 3 of a calibration tick. */
    method ProcessCalibration(frames: seq<Pixels>, detections: seq<Option<Corners>>, now: real)
      returns (outputs: map<string, Pixels>)
      requires |frames| == ImageCount && |detections| == |frames| && HasSnapshots(State())
      modifies this
      ensures (State(), outputs) == CalibrationTick(old(State()), frames, detections, now)
    {
      outputs := Indexed(frames);
      if stage == CalibrateWait {
      } else if snapshotCount < SnapshotTarget {
        if now - lastSnapshot < SnapshotInterval {
          outputs := Indexed(frames);
        } else {
          var allCorners, img;
          outputs, allCorners, img := DetectAll(frames, detections);
          FoundMapFull(detections, |frames|);
          if |allCorners| == |frames| {
            RecordSnapshot(detections, allCorners, img, now);
          }
        }
      } else {
        ComputeParams();
      }
    }

    /**
     * Step 2b's detection loop: each output becomes its frame with a green or red
     * border, `all_corners` collects the corners found, and `img` is left holding the
     * last slot's annotated frame.
     */
    static method DetectAll(frames: seq<Pixels>, detections: seq<Option<Corners>>)
      returns (outputs: map<string, Pixels>, allCorners: map<string, Corners>, img: Pixels)
      requires 0 < |frames| && |detections| == |frames|
      ensures outputs == Indexed(AnnotateAll(frames, detections))
      ensures allCorners == FoundMap(detections, |frames|)
      ensures img == Annotate(frames[|frames| - 1], detections[|frames| - 1])
    {
      allCorners := map[];
      outputs := Indexed(frames);
      img := frames[0];
      var i := 0;
      while i < |frames|
        invariant 0 <= i <= |frames|
        invariant allCorners == FoundMap(detections, i)
        invariant outputs == Relabelled(frames, detections, i)
        invariant i > 0 ==> img == Annotate(frames[i - 1], detections[i - 1])
      {
        FoundMapSnoc(detections, i);
        if detections[i].Some? {
          allCorners := allCorners[Key(i) := detections[i].value];
          img := Drawn(frames[i], [ChessboardCorners(Grey(frames[i]), detections[i].value), CalibrationBorder(true)]);
        } else {
          img := Drawn(frames[i], [CalibrationBorder(false)]);
        }
        outputs := outputs[Key(i) := img];
        i := i + 1;
      }
      RelabelledAll(frames, detections);
    }

    /**
     * The accepted branch of step 2b: the count and the timer, then for each slot in
     * order three more counts and four copies of its corners and of `img`.
     */
    method RecordSnapshot(detections: seq<Option<Corners>>, allCorners: map<string, Corners>, img: Pixels, now: real)
      requires AllFound(detections) && allCorners == FoundMap(detections, |detections|)
      modifies this
      ensures State() == Accept(old(State()), Found(detections), img, now)
    {
      ghost var found := Found(detections);
      ghost var images := Repeat(img, |found|);
      snapshotCount := snapshotCount + 1;
      lastSnapshot := now;
      var j := 0;
      while j < |detections|
        invariant 0 <= j <= |detections|
        invariant snapshotCount == old(snapshotCount) + 1 + 3 * j && lastSnapshot == now
        invariant stage == old(stage) && camparams == old(camparams)
        invariant corners == AppendCopies(old(corners), found, j)
        invariant snapshots == AppendCopies(old(snapshots), images, j)
      {
        snapshotCount := snapshotCount + 3;
        FoundMapAt(detections, |detections|, j);
        AppendCopiesOf(Key(j), allCorners[Key(j)], img);
        AppendCopiesStep(old(corners), found, j);
        AppendCopiesStep(old(snapshots), images, j);
        j := j + 1;
      }
    }

    /** The `for _ in range(4)` loop: four copies of `c` and of `img` under `key`. */
    method AppendCopiesOf(key: string, c: Corners, img: Pixels)
      modifies this
      ensures corners == AddCopies(old(corners), key, c, CopiesPerSnapshot)
      ensures snapshots == AddCopies(old(snapshots), key, img, CopiesPerSnapshot)
      ensures stage == old(stage) && camparams == old(camparams)
      ensures snapshotCount == old(snapshotCount) && lastSnapshot == old(lastSnapshot)
    {
      var t := 0;
      while t < CopiesPerSnapshot
        invariant 0 <= t <= CopiesPerSnapshot
        invariant corners == AddCopies(old(corners), key, c, t)
        invariant snapshots == AddCopies(old(snapshots), key, img, t)
        invariant stage == old(stage) && camparams == old(camparams)
        invariant snapshotCount == old(snapshotCount) && lastSnapshot == old(lastSnapshot)
      {
        corners := corners[key := Lookup(corners, key) + [c]];
        snapshots := snapshots[key := Lookup(snapshots, key) + [img]];
        t := t + 1;
      }
    }

    /** Step 3: one set of parameters per slot with corners; RUNNING once any is computed. */
    method ComputeParams()
      requires HasSnapshots(State())
      modifies this
      ensures State() == Calibrate(old(State()))
    {
      ghost var s0 := State();
      var remaining := corners.Keys;
      while remaining != {}
        invariant remaining <= s0.corners.Keys
        invariant State() == CalibratedSome(s0, s0.corners.Keys - remaining)
        decreases remaining
      {
        var key :| key in remaining;
        CalibratedSomeAdd(s0, s0.corners.Keys - remaining, key);
        assert s0.corners.Keys - (remaining - {key}) == (s0.corners.Keys - remaining) + {key};
        camparams := camparams[key := CameraParams(WorldPoints(), corners[key], SizeOf(snapshots[key][0]))];
        stage := Running;
        remaining := remaining - {key};
      }
      CalibratedSomeAll(s0);
    }

    /** `process_stereo`: a missing slot raises `KeyError` and discards the partial outputs. */
    method ProcessStereo(frames: seq<Pixels>) returns (r: Result<map<string, Pixels>, DepthError>)
      ensures r == StereoTick(State(), frames)
    {
      var outputs := map[];
      var i := 0;
      while i < |frames|
        invariant 0 <= i <= |frames|
        invariant forall j :: 0 <= j < i ==> Key(j) in camparams
        invariant outputs == Indexed(UndistortAll(frames[..i], camparams))
      {
        var key := Key(i);
        if key !in camparams {
          return Err(MissingCameraParams);
        }
        UndistortedPrefix(frames, camparams, i);
        outputs := outputs[key := Undistorted(frames[i], camparams[key])];
        i := i + 1;
      }
      assert frames[..i] == frames;
      return Ok(outputs);
    }
  }
}
