/**
 * `StereoVision`: the calibration state machine of the two-camera depth unit.
 *
 * A session waits for the operator (CALIBRATE_WAIT), collects chessboard snapshots at
 * most once every 3 seconds while the pattern is visible in every image (CALIBRATING),
 * computes each camera's parameters on the tick after the snapshot count reaches 8,
 * and then undistorts every frame with its camera's parameters (RUNNING).
 *
 * The chessboard detector is an oracle: each tick receives one `Option<Corners>` per
 * image. The clock is the `now` parameter. `calibrate_camera` and `cv2.undistort` are
 * the uninterpreted constructors `CameraParams` and `Undistorted`.
 */
module Depth {
  import opened Wrappers
  import opened Keys
  import opened Frames

  datatype Stage = CalibrateWait | Calibrating | Running

  /** `process` accepts exactly this many images. */
  const ImageCount: nat := 2
  /** Snapshot count at which the parameters are computed. */
  const SnapshotTarget: int := 8
  /** Minimum time between two snapshots, in seconds. */
  const SnapshotInterval: real := 3.0
  /** Copies of one detection appended per accepted snapshot (the loop marked "TODO tmp"). */
  const CopiesPerSnapshot: nat := 4
  /** What an accepted tick adds to the snapshot count: 1, plus 3 per image. */
  const CountPerSnapshot: int := 1 + 3 * ImageCount

  /** Inner corners of the chessboard, and the side of one square in centimetres. */
  const BoardColumns: nat := 10
  const BoardRows: nat := 7
  const SquareSize: real := 2.47

  /** The slot keys of a two-image tick. */
  const SlotKeys: set<string> := {"0", "1"}

  /** The target's corners on the z = 0 plane, the column index varying fastest. */
  function BoardPoints(): (pts: seq<Point3>)
    ensures |pts| == BoardColumns * BoardRows
  {
    seq(BoardColumns * BoardRows, p requires 0 <= p < BoardColumns * BoardRows =>
      Point3((p % BoardColumns) as real * SquareSize, (p / BoardColumns) as real * SquareSize, 0.0))
  }

  /**
   * The `np.mgrid[0:10, 0:7].T.reshape(-1, 2)` layout: corner (c, r) of the board sits at
   * index `r * 10 + c`, at c squares across and r squares down, on the z = 0 plane.
   */
  lemma BoardGrid(c: nat, r: nat)
    requires c < BoardColumns && r < BoardRows
    ensures r * BoardColumns + c < |BoardPoints()|
    ensures BoardPoints()[r * BoardColumns + c] == Point3(c as real * SquareSize, r as real * SquareSize, 0.0)
  {
    var p := r * BoardColumns + c;
    assert p % BoardColumns == c && p / BoardColumns == r;
  }

  /** `world_points`: one copy of the board per expected snapshot. */
  function WorldPoints(): (w: seq<seq<Point3>>)
    ensures |w| == SnapshotTarget
  {
    seq(SnapshotTarget, _ => BoardPoints())
  }

  datatype DepthError =
    | WrongImageCount(count: nat)  // the exception raised by `process`
    | MissingCameraParams          // the KeyError of `self.camparams[key]`

  /** The fields of a `StereoVision` object. */
  datatype Session = Session(
    stage: Stage,
    lastSnapshot: real,
    snapshotCount: int,
    snapshots: map<string, seq<Pixels>>,
    corners: map<string, seq<Corners>>,
    camparams: map<string, CameraParams>)

  /** The state `reset_calibration` establishes. */
  function Initial(): Session {
    Session(CalibrateWait, 0.0, 0, map[], map[], map[])
  }

  /** `handle_keystroke`. */
  function Keystroke(s: Session, key: char): Session {
    if key == ' ' && s.stage == CalibrateWait then s.(stage := Calibrating)
    else if key == 'c' then Initial()
    else s
  }

  /** A `defaultdict(list)` read. */
  function Lookup<T>(m: map<string, seq<T>>, k: string): seq<T> {
    if k in m then m[k] else []
  }

  function Repeat<T>(x: T, n: nat): (r: seq<T>)
    ensures |r| == n && forall i :: 0 <= i < n ==> r[i] == x
  {
    seq(n, _ => x)
  }

  /**
   * The slot lists after appending `CopiesPerSnapshot` copies of `xs[i]` to the list
   * of slot `str(i)`, for every i below n, as the loops of an accepted tick do.
   */
  function AppendCopies<T>(m: map<string, seq<T>>, xs: seq<T>, n: nat): map<string, seq<T>>
    requires n <= |xs|
  {
    if n == 0 then m
    else
      var prev := AppendCopies(m, xs, n - 1);
      prev[Key(n - 1) := Lookup(prev, Key(n - 1)) + Repeat(xs[n - 1], CopiesPerSnapshot)]
  }

  /** Slots below n get four more copies of their element; other slots are untouched. */
  lemma {:induction false} AppendCopiesShape<T>(m: map<string, seq<T>>, xs: seq<T>, n: nat)
    requires n <= |xs|
    ensures AppendCopies(m, xs, n).Keys == m.Keys + KeysBelow(n)
    ensures forall i :: 0 <= i < n ==> Key(i) in AppendCopies(m, xs, n) && AppendCopies(m, xs, n)[Key(i)] == Lookup(m, Key(i)) + Repeat(xs[i], CopiesPerSnapshot)
    ensures forall k :: k in m && k !in KeysBelow(n) ==> AppendCopies(m, xs, n)[k] == m[k]
  {
    if n > 0 {
      AppendCopiesShape(m, xs, n - 1);
      KeysBelowSnoc(n - 1);
      var prev := AppendCopies(m, xs, n - 1);
      assert Lookup(prev, Key(n - 1)) == Lookup(m, Key(n - 1));
      forall i | 0 <= i < n - 1
        ensures Key(i) != Key(n - 1)
      {
        KeyBelowIff(i, n - 1);
      }
    }
  }

  /**
   * The image shown for one slot during a snapshot attempt: the sub-pixel refined
   * corners and a green border when the pattern was found, a red border otherwise.
   */
  function Annotate(frame: Pixels, found: Option<Corners>): Pixels {
    match found
    case Some(corners) => Drawn(frame, [ChessboardCorners(Grey(frame), corners), CalibrationBorder(true)])
    case None => Drawn(frame, [CalibrationBorder(false)])
  }

  /** The annotated image determines the frame and what was detected in it. */
  lemma AnnotateInjective(f: Pixels, d: Option<Corners>, f': Pixels, d': Option<Corners>)
    requires Annotate(f, d) == Annotate(f', d')
    ensures f == f' && d == d'
  {
    assert Annotate(f, d).src == f && Annotate(f', d').src == f';
    assert |Annotate(f, d).marks| == |Annotate(f', d').marks|;
    if d.Some? {
      assert Annotate(f, d).marks[0] == ChessboardCorners(Grey(f), d.value);
    }
  }

  function AnnotateAll(frames: seq<Pixels>, detections: seq<Option<Corners>>): (r: seq<Pixels>)
    requires |detections| == |frames|
    ensures |r| == |frames|
  {
    seq(|frames|, i requires 0 <= i < |frames| => Annotate(frames[i], detections[i]))
  }

  predicate AllFound(detections: seq<Option<Corners>>) {
    forall i :: 0 <= i < |detections| ==> detections[i].Some?
  }

  function Found(detections: seq<Option<Corners>>): (r: seq<Corners>)
    requires AllFound(detections)
    ensures |r| == |detections|
  {
    seq(|detections|, i requires 0 <= i < |detections| => detections[i].value)
  }

  /**
   * `all_corners` after the detection loop has seen the first n images: the corners of
   * every slot whose pattern was found, under its key.
   */
  function FoundMap(detections: seq<Option<Corners>>, n: nat): map<string, Corners>
    requires n <= |detections|
  {
    if n == 0 then map[]
    else if detections[n - 1].Some? then FoundMap(detections, n - 1)[Key(n - 1) := detections[n - 1].value]
    else FoundMap(detections, n - 1)
  }

  /** Only slots below n can have an entry, so there are at most n. */
  lemma {:induction false} FoundMapBound(detections: seq<Option<Corners>>, n: nat)
    requires n <= |detections|
    ensures FoundMap(detections, n).Keys <= KeysBelow(n) && |FoundMap(detections, n)| <= n
  {
    if n > 0 {
      FoundMapBound(detections, n - 1);
      KeysBelowSnoc(n - 1);
    }
  }

  /** A slot whose pattern was found holds its corners. */
  lemma {:induction false} FoundMapAt(detections: seq<Option<Corners>>, n: nat, i: nat)
    requires i < n <= |detections| && detections[i].Some?
    ensures Key(i) in FoundMap(detections, n) && FoundMap(detections, n)[Key(i)] == detections[i].value
  {
    if i < n - 1 {
      FoundMapAt(detections, n - 1, i);
      if detections[n - 1].Some? {
        KeyBelowIff(i, n - 1);
        KeysBelowSnoc(n - 1);
      }
    }
  }

  /** One pass of the detection loop. */
  lemma FoundMapSnoc(detections: seq<Option<Corners>>, i: nat)
    requires i < |detections|
    ensures FoundMap(detections, i + 1) ==
      if detections[i].Some? then FoundMap(detections, i)[Key(i) := detections[i].value] else FoundMap(detections, i)
  {
  }

  /** `len(all_corners) == len(images)` holds exactly when every image showed the pattern. */
  lemma {:induction false} FoundMapFull(detections: seq<Option<Corners>>, n: nat)
    requires n <= |detections|
    ensures |FoundMap(detections, n)| == n <==> forall i :: 0 <= i < n ==> detections[i].Some?
  {
    if n > 0 {
      FoundMapFull(detections, n - 1);
      FoundMapBound(detections, n - 1);
      KeysBelowSnoc(n - 1);
    }
  }

  /**
   * An accepted snapshot: the count grows by 1 + 3 per image, the timer restarts, each
   * slot gets four copies of its corners, and every slot's snapshot list gets four
   * copies of `last`, the annotated image of the LAST slot (the loop variable `img`
   * outlives the detection loop).
   */
  function Accept(s: Session, found: seq<Corners>, last: Pixels, now: real): Session {
    s.(snapshotCount := s.snapshotCount + 1 + 3 * |found|,
       lastSnapshot := now,
       corners := AppendCopies(s.corners, found, |found|),
       snapshots := AppendCopies(s.snapshots, Repeat(last, |found|), |found|))
  }

  /** The first snapshot of a slot gives the image size handed to the calibration. */
  predicate HasSnapshots(s: Session) {
    forall k :: k in s.corners ==> k in s.snapshots && |s.snapshots[k]| > 0
  }

  function CalibratedParams(s: Session): map<string, CameraParams>
    requires HasSnapshots(s)
  {
    map k | k in s.corners :: CameraParams(WorldPoints(), s.corners[k], SizeOf(s.snapshots[k][0]))
  }

  /** Step 3: calibrate every slot that has corners, then switch to RUNNING. */
  function Calibrate(s: Session): Session
    requires HasSnapshots(s)
  {
    s.(camparams := s.camparams + CalibratedParams(s),
       stage := if s.corners == map[] then s.stage else Running)
  }

  /** `process_calibration`: the new session and the images it returns. */
  function CalibrationTick(s: Session, frames: seq<Pixels>, detections: seq<Option<Corners>>, now: real): (Session, map<string, Pixels>)
    requires |frames| == ImageCount && |detections| == |frames|
    requires HasSnapshots(s)
  {
    if s.stage == CalibrateWait then (s, Indexed(frames))
    else if s.snapshotCount < SnapshotTarget then
      if now - s.lastSnapshot < SnapshotInterval then (s, Indexed(frames))
      else
        var annotated := AnnotateAll(frames, detections);
        if AllFound(detections) then
          (Accept(s, Found(detections), annotated[|frames| - 1], now), Indexed(annotated))
        else (s, Indexed(annotated))
    else (Calibrate(s), Indexed(frames))
  }

  function UndistortAll(frames: seq<Pixels>, camparams: map<string, CameraParams>): (r: seq<Pixels>)
    requires forall i :: 0 <= i < |frames| ==> Key(i) in camparams
    ensures |r| == |frames|
  {
    seq(|frames|, i requires 0 <= i < |frames| => Undistorted(frames[i], camparams[Key(i)]))
  }

  /** `process_stereo`: each frame undistorted with the parameters of its slot. */
  function StereoTick(s: Session, frames: seq<Pixels>): Result<map<string, Pixels>, DepthError> {
    if forall i :: 0 <= i < |frames| ==> Key(i) in s.camparams then Ok(Indexed(UndistortAll(frames, s.camparams)))
    else Err(MissingCameraParams)
  }

  /** The effect of one call of `process`. */
  datatype Step = Step(session: Session, outputs: Result<map<string, Pixels>, DepthError>)

  /**
   * The invariant of every session the unit can reach. With a = snapshotCount / 7 the
   * number of accepted snapshots: each slot list holds 4a entries, both slots hold the
   * same snapshot images, and the stage bounds a.
   */
  ghost predicate Consistent(s: Session) {
    && s.snapshotCount >= 0
    && s.snapshotCount % CountPerSnapshot == 0
    && var a := s.snapshotCount / CountPerSnapshot;
    && s.corners.Keys == s.snapshots.Keys
    && s.corners.Keys == (if a == 0 then {} else SlotKeys)
    && (forall k :: k in s.corners ==> |s.corners[k]| == CopiesPerSnapshot * a)
    && (forall k :: k in s.snapshots ==> |s.snapshots[k]| == CopiesPerSnapshot * a)
    && (a > 0 ==> s.snapshots["0"] == s.snapshots["1"])
    && (s.stage == CalibrateWait ==> s == Initial())
    && (s.stage == Calibrating ==> s.snapshotCount < SnapshotTarget + CountPerSnapshot && s.camparams == map[])
    && (s.stage == Running ==>
          && SnapshotTarget <= s.snapshotCount < SnapshotTarget + CountPerSnapshot
          && s.camparams == CalibratedParams(s))
  }

  /** `process`. */
  function Tick(s: Session, frames: seq<Pixels>, detections: seq<Option<Corners>>, now: real): Step
    requires Consistent(s) && |detections| == |frames|
  {
    if |frames| != ImageCount then Step(s, Err(WrongImageCount(|frames|)))
    else if s.stage != Running then
      var (s', outputs) := CalibrationTick(s, frames, detections, now);
      Step(s', Ok(outputs))
    else Step(s, StereoTick(s, frames))
  }

  /** The keystrokes: 'c' resets from any stage, ' ' only leaves CALIBRATE_WAIT, nothing else acts. */
  lemma KeystrokeEffects(s: Session, key: char)
    ensures key == 'c' ==> Keystroke(s, key) == Session(CalibrateWait, 0.0, 0, map[], map[], map[])
    ensures key == ' ' ==> Keystroke(s, key) == if s.stage == CalibrateWait then s.(stage := Calibrating) else s
    ensures key != 'c' && key != ' ' ==> Keystroke(s, key) == s
  {
  }

  lemma KeystrokeConsistent(s: Session, key: char)
    requires Consistent(s)
    ensures Consistent(Keystroke(s, key))
  {
  }

  /** Facts about the accepted-snapshot update that hold whatever the current session is. */
  lemma {:induction false} AcceptShape(s: Session, found: seq<Corners>, last: Pixels, now: real)
    requires |found| == ImageCount
    ensures Accept(s, found, last, now).corners.Keys == s.corners.Keys + SlotKeys
    ensures Accept(s, found, last, now).snapshots.Keys == s.snapshots.Keys + SlotKeys
    ensures forall i :: 0 <= i < ImageCount ==>
      Accept(s, found, last, now).corners[Key(i)] == Lookup(s.corners, Key(i)) + Repeat(found[i], CopiesPerSnapshot)
    ensures forall i :: 0 <= i < ImageCount ==>
      Accept(s, found, last, now).snapshots[Key(i)] == Lookup(s.snapshots, Key(i)) + Repeat(last, CopiesPerSnapshot)
  {
    TwoSlotKeys();
    AppendCopiesShape(s.corners, found, |found|);
    AppendCopiesShape(s.snapshots, Repeat(last, |found|), |found|);
    var r := Repeat(last, |found|);
    assert r[0] == last && r[1] == last;
  }

  /** An accepted snapshot keeps the session invariant. */
  lemma {:induction false} AcceptConsistent(s: Session, found: seq<Corners>, last: Pixels, now: real)
    requires Consistent(s) && s.stage == Calibrating && s.snapshotCount < SnapshotTarget
    requires |found| == ImageCount
    ensures Consistent(Accept(s, found, last, now))
  {
    var a := s.snapshotCount / CountPerSnapshot;
    var s' := Accept(s, found, last, now);
    AcceptShape(s, found, last, now);
    TwoSlotKeys();
    assert a <= 1;
    assert s'.snapshotCount == CountPerSnapshot * (a + 1);
    assert s'.snapshotCount / CountPerSnapshot == a + 1;
    assert s'.corners.Keys == SlotKeys;
    forall k | k in s'.corners
      ensures |s'.corners[k]| == CopiesPerSnapshot * (a + 1)
      ensures |s'.snapshots[k]| == CopiesPerSnapshot * (a + 1)
    {
      assert k == Key(0) || k == Key(1);
    }
  }

  /** Every tick keeps the session invariant. */
  lemma {:induction false} TickConsistent(s: Session, frames: seq<Pixels>, detections: seq<Option<Corners>>, now: real)
    requires Consistent(s) && |detections| == |frames|
    ensures Consistent(Tick(s, frames, detections, now).session)
  {
    if |frames| == ImageCount && s.stage == Calibrating {
      if s.snapshotCount < SnapshotTarget {
        if now - s.lastSnapshot >= SnapshotInterval && AllFound(detections) {
          var annotated := AnnotateAll(frames, detections);
          AcceptConsistent(s, Found(detections), annotated[|frames| - 1], now);
        }
      } else {
        assert s.snapshotCount == SnapshotTarget + CountPerSnapshot - 1;
        assert s.corners.Keys == SlotKeys;
      }
    }
  }

  /** What the host loop does to the unit: a key press, or one tick of frames. */
  datatype Event =
    | Press(key: char)
    | Frames(frames: seq<Pixels>, detections: seq<Option<Corners>>, now: real)

  predicate WellFormed(events: seq<Event>) {
    forall e :: e in events && e.Frames? ==> |e.detections| == |e.frames|
  }

  /** One event: `handle_keystroke` or `process`. */
  function Apply(s: Session, e: Event): Session
    requires Consistent(s) && (e.Frames? ==> |e.detections| == |e.frames|)
  {
    match e
    case Press(key) => Keystroke(s, key)
    case Frames(frames, detections, now) => Tick(s, frames, detections, now).session
  }

  /** The session after a sequence of events; every session it passes through is consistent. */
  ghost function Run(s: Session, events: seq<Event>): (r: Session)
    requires Consistent(s) && WellFormed(events)
    ensures Consistent(r)
    decreases |events|
  {
    if events == [] then s
    else
      var e := events[0];
      assert e in events;
      if e.Press? then
        KeystrokeConsistent(s, e.key);
        Run(Apply(s, e), events[1..])
      else
        TickConsistent(s, e.frames, e.detections, e.now);
        Run(Apply(s, e), events[1..])
  }

  lemma RunCons(s: Session, e: Event, rest: seq<Event>)
    requires Consistent(s) && WellFormed([e] + rest)
    ensures Consistent(Apply(s, e)) && WellFormed(rest)
    ensures Run(s, [e] + rest) == Run(Apply(s, e), rest)
  {
    assert ([e] + rest)[0] == e && ([e] + rest)[1..] == rest;
    assert e in [e] + rest;
    if e.Press? {
      KeystrokeConsistent(s, e.key);
    } else {
      TickConsistent(s, e.frames, e.detections, e.now);
    }
  }

  /** Every session reachable from a fresh unit satisfies the invariant. */
  lemma {:induction false} ReachableConsistent(events: seq<Event>)
    requires WellFormed(events)
    ensures Consistent(Run(Initial(), events))
  {
  }

  /** A call with other than two images raises and changes nothing. */
  lemma WrongCountRejected(s: Session, frames: seq<Pixels>, detections: seq<Option<Corners>>, now: real)
    requires Consistent(s) && |detections| == |frames| && |frames| != 2
    ensures Tick(s, frames, detections, now) == Step(s, Err(WrongImageCount(|frames|)))
  {
  }

  /**
   * While waiting for the operator, or inside the 3-second window, a tick returns the
   * input images keyed "0" and "1" and changes nothing.
   */
  lemma {:induction false} IdleTick(s: Session, frames: seq<Pixels>, detections: seq<Option<Corners>>, now: real)
    requires Consistent(s) && |detections| == |frames| == 2
    requires s.stage == CalibrateWait || (s.stage == Calibrating && s.snapshotCount < SnapshotTarget && now - s.lastSnapshot < SnapshotInterval)
    ensures Tick(s, frames, detections, now).session == s
    ensures Tick(s, frames, detections, now).outputs == Ok(map["0" := frames[0], "1" := frames[1]])
  {
    TwoSlotKeys();
    IndexedPair(frames);
  }

  /**
   * A snapshot attempt in which some image lacks corners records nothing; once the
   * 3-second window has passed it still returns the annotated images.
   */
  lemma RejectedSnapshot(s: Session, frames: seq<Pixels>, detections: seq<Option<Corners>>, now: real)
    requires Consistent(s) && |detections| == |frames| == 2
    requires s.stage == Calibrating && s.snapshotCount < SnapshotTarget
    requires !AllFound(detections)
    ensures Tick(s, frames, detections, now).session == s
    ensures now - s.lastSnapshot >= SnapshotInterval ==>
      Tick(s, frames, detections, now).outputs == Ok(Indexed(AnnotateAll(frames, detections)))
  {
  }

  /**
   * An accepted snapshot restarts the timer, adds 7 to the count and four copies of each
   * slot's corners to that slot; so every slot holds 4 entries per accepted snapshot.
   */
  lemma {:induction false} AcceptedSnapshot(s: Session, frames: seq<Pixels>, detections: seq<Option<Corners>>, now: real)
    requires Consistent(s) && |detections| == |frames| == 2
    requires s.stage == Calibrating && s.snapshotCount < SnapshotTarget && now - s.lastSnapshot >= SnapshotInterval
    requires AllFound(detections)
    ensures var s' := Tick(s, frames, detections, now).session;
      && s'.stage == Calibrating
      && s'.lastSnapshot == now
      && s'.snapshotCount == s.snapshotCount + 7
      && s'.corners.Keys == {"0", "1"}
      && s'.corners["0"] == Lookup(s.corners, "0") + [detections[0].value, detections[0].value, detections[0].value, detections[0].value]
      && s'.corners["1"] == Lookup(s.corners, "1") + [detections[1].value, detections[1].value, detections[1].value, detections[1].value]
      && (forall k :: k in s'.corners ==> |s'.corners[k]| * 7 == 4 * s'.snapshotCount)
    ensures Tick(s, frames, detections, now).outputs == Ok(Indexed(AnnotateAll(frames, detections)))
  {
    var annotated := AnnotateAll(frames, detections);
    var s' := Accept(s, Found(detections), annotated[1], now);
    assert Tick(s, frames, detections, now) == Step(s', Ok(Indexed(annotated)));
    AcceptShape(s, Found(detections), annotated[1], now);
    TwoSlotKeys();
    AcceptConsistent(s, Found(detections), annotated[1], now);
    var c0, c1 := detections[0].value, detections[1].value;
    assert Repeat(c0, 4) == [c0, c0, c0, c0] && Repeat(c1, 4) == [c1, c1, c1, c1];
    assert s'.corners["0"] == Lookup(s.corners, "0") + [c0, c0, c0, c0];
    assert s'.corners["1"] == Lookup(s.corners, "1") + [c1, c1, c1, c1];
  }

  /** Consecutive accepted snapshots are at least 3 seconds apart. */
  lemma SnapshotSpacing(s: Session, frames: seq<Pixels>, detections: seq<Option<Corners>>, now: real)
    requires Consistent(s) && |detections| == |frames|
    requires Tick(s, frames, detections, now).session.snapshotCount != s.snapshotCount
    ensures now - s.lastSnapshot >= SnapshotInterval
    ensures Tick(s, frames, detections, now).session.lastSnapshot == now
  {
  }

  /**
   * The parameters are computed only on a CALIBRATING tick that starts with a count of
   * at least 8, never on the tick that reaches 8; that tick calibrates both slots from
   * exactly 8 views each (as many as `world_points` has) and moves to RUNNING.
   */
  lemma {:induction false} ComputeStep(s: Session, frames: seq<Pixels>, detections: seq<Option<Corners>>, now: real)
    requires Consistent(s) && |detections| == |frames|
    requires s.stage != Running && Tick(s, frames, detections, now).session.stage == Running
    ensures s.stage == Calibrating && s.snapshotCount >= SnapshotTarget
    ensures var s' := Tick(s, frames, detections, now).session;
      && s'.camparams.Keys == s.corners.Keys == {"0", "1"}
      && (forall k :: k in s.corners ==> |s.corners[k]| == |WorldPoints()| == 8)
      && (forall k :: k in s.corners ==>
            s'.camparams[k] == CameraParams(WorldPoints(), s.corners[k], SizeOf(s.snapshots[k][0])))
  {
    assert s.snapshotCount == 14;
    assert s.corners.Keys == SlotKeys;
  }

  /**
   * Conversely, a CALIBRATING tick that starts with a count of at least 8 calibrates
   * every slot, moves to RUNNING and returns the input images unchanged.
   */
  lemma {:induction false} CalibratingComputes(s: Session, frames: seq<Pixels>, detections: seq<Option<Corners>>, now: real)
    requires Consistent(s) && |detections| == |frames| == 2
    requires s.stage == Calibrating && s.snapshotCount >= SnapshotTarget
    ensures HasSnapshots(s)
    ensures Tick(s, frames, detections, now) == Step(Calibrate(s), Ok(Indexed(frames)))
    ensures Tick(s, frames, detections, now).session.stage == Running
    ensures Tick(s, frames, detections, now).session.camparams == CalibratedParams(s)
  {
    assert s.snapshotCount == 14;
    assert s.corners.Keys == SlotKeys;
  }

  /** The tick that brings the count to 8 or more still leaves the session CALIBRATING. */
  lemma ReachingTargetDefersCompute(s: Session, frames: seq<Pixels>, detections: seq<Option<Corners>>, now: real)
    requires Consistent(s) && |detections| == |frames|
    requires s.snapshotCount < SnapshotTarget <= Tick(s, frames, detections, now).session.snapshotCount
    ensures s.stage == Calibrating && Tick(s, frames, detections, now).session.stage == Calibrating
  {
  }

  /**
   * In RUNNING both slots have parameters, so a tick returns exactly one undistorted
   * image per input, keyed by its index.
   */
  lemma {:induction false} RunningOutputs(s: Session, frames: seq<Pixels>, detections: seq<Option<Corners>>, now: real)
    requires Consistent(s) && |detections| == |frames| == 2 && s.stage == Running
    ensures Tick(s, frames, detections, now) == Step(s, Ok(map[
      "0" := Undistorted(frames[0], s.camparams["0"]),
      "1" := Undistorted(frames[1], s.camparams["1"])]))
  {
    TwoSlotKeys();
    assert s.corners.Keys == SlotKeys;
    var u := UndistortAll(frames, s.camparams);
    IndexedPair(u);
  }

  /** The first snapshot of the scenario below: four copies of each slot's corners. */
  lemma FirstSnapshot(f0: Pixels, f1: Pixels, c0: Corners, c1: Corners) returns (s0: Session, s1: Session)
    ensures Consistent(s0) && s0 == Keystroke(Initial(), ' ')
    ensures Consistent(s1) && s1 == Tick(s0, [f0, f1], [Some(c0), Some(c1)], 10.0).session
    ensures s1.stage == Calibrating && s1.snapshotCount == 7 && s1.lastSnapshot == 10.0
    ensures s1.corners.Keys == {"0", "1"}
    ensures s1.corners["0"] == Repeat(c0, 4) && s1.corners["1"] == Repeat(c1, 4)
    ensures s1.snapshots["1"] == Repeat(Annotate(f1, Some(c1)), 4)
  {
    var frames, found := [f0, f1], [Some(c0), Some(c1)];
    s0 := Keystroke(Initial(), ' ');
    KeystrokeConsistent(Initial(), ' ');
    s1 := Tick(s0, frames, found, 10.0).session;
    AcceptedSnapshot(s0, frames, found, 10.0);
    TickConsistent(s0, frames, found, 10.0);
    TwoSlotKeys();
    assert s1.corners["0"] == [] + Repeat(c0, 4);
    assert s1.corners["1"] == [] + Repeat(c1, 4);
    var annotated := AnnotateAll(frames, found);
    AcceptShape(s0, Found(found), annotated[1], 10.0);
    assert s1.snapshots["1"] == [] + Repeat(annotated[1], 4);
  }

  /** The second snapshot, three seconds later: eight copies, and the count at 14. */
  lemma SecondSnapshot(s1: Session, f0: Pixels, f1: Pixels, c0: Corners, c1: Corners) returns (s2: Session)
    requires Consistent(s1) && s1.stage == Calibrating && s1.snapshotCount == 7 && s1.lastSnapshot == 10.0
    requires s1.corners.Keys == {"0", "1"}
    requires s1.corners["0"] == Repeat(c0, 4) && s1.corners["1"] == Repeat(c1, 4)
    requires s1.snapshots["1"] == Repeat(Annotate(f1, Some(c1)), 4)
    ensures Consistent(s2) && s2 == Tick(s1, [f0, f1], [Some(c0), Some(c1)], 13.0).session
    ensures s2.stage == Calibrating && s2.snapshotCount == 14
    ensures s2.corners.Keys == {"0", "1"}
    ensures s2.corners["0"] == Repeat(c0, 8) && s2.corners["1"] == Repeat(c1, 8)
    ensures SizeOf(s2.snapshots["0"][0]) == SizeOf(f1) && SizeOf(s2.snapshots["1"][0]) == SizeOf(f1)
  {
    var frames, found := [f0, f1], [Some(c0), Some(c1)];
    s2 := Tick(s1, frames, found, 13.0).session;
    AcceptedSnapshot(s1, frames, found, 13.0);
    TickConsistent(s1, frames, found, 13.0);
    TwoSlotKeys();
    assert Repeat(c0, 4) + Repeat(c0, 4) == Repeat(c0, 8);
    assert Repeat(c1, 4) + Repeat(c1, 4) == Repeat(c1, 8);
    var annotated := AnnotateAll(frames, found);
    AcceptShape(s1, Found(found), annotated[1], 13.0);
    assert s2.snapshots["1"] == s1.snapshots["1"] + Repeat(annotated[1], 4);
    assert s2.snapshots["1"][0] == s1.snapshots["1"][0];
  }

  /** The second part of the scenario below: the compute tick after two snapshots. */
  lemma CalibrateTwoSnapshots(s: Session, f0: Pixels, f1: Pixels, c0: Corners, c1: Corners, now: real)
    requires Consistent(s) && s.stage == Calibrating && s.snapshotCount == 14
    requires s.corners.Keys == {"0", "1"}
    requires s.corners["0"] == Repeat(c0, 8) && s.corners["1"] == Repeat(c1, 8)
    requires SizeOf(s.snapshots["0"][0]) == SizeOf(f1) && SizeOf(s.snapshots["1"][0]) == SizeOf(f1)
    ensures var s' := Tick(s, [f0, f1], [Some(c0), Some(c1)], now).session;
      && s'.stage == Running && s'.snapshotCount == 14
      && s'.camparams == map[
           "0" := CameraParams(WorldPoints(), Repeat(c0, 8), SizeOf(f1)),
           "1" := CameraParams(WorldPoints(), Repeat(c1, 8), SizeOf(f1))]
  {
    var s' := Tick(s, [f0, f1], [Some(c0), Some(c1)], now).session;
    var p0 := CameraParams(WorldPoints(), Repeat(c0, 8), SizeOf(f1));
    var p1 := CameraParams(WorldPoints(), Repeat(c1, 8), SizeOf(f1));
    assert s'.stage == Running && s'.camparams.Keys == {"0", "1"} && s'.camparams["0"] == p0 && s'.camparams["1"] == p1 by {
      ComputeStep(s, [f0, f1], [Some(c0), Some(c1)], now);
    }
    assert s'.camparams == map["0" := p0, "1" := p1];
  }

  /**
   * A full calibration: start, two accepted snapshots 3 seconds apart, then the compute
   * tick. Both cameras are calibrated from eight copies of their own corners, and both
   * with the image size of the second camera's frame, since every slot's snapshot list
   * holds the last slot's image.
   */
  lemma {:induction false} CalibrationScenario(f0: Pixels, f1: Pixels, c0: Corners, c1: Corners) returns (s0: Session, s1: Session, s2: Session, s3: Session)
    ensures s0 == Keystroke(Initial(), ' ') && Consistent(s0) && Consistent(s1) && Consistent(s2)
    ensures s1 == Tick(s0, [f0, f1], [Some(c0), Some(c1)], 10.0).session
    ensures s2 == Tick(s1, [f0, f1], [Some(c0), Some(c1)], 13.0).session
    ensures s3 == Tick(s2, [f0, f1], [Some(c0), Some(c1)], 14.0).session
    ensures s3.stage == Running && s3.snapshotCount == 14
    ensures s3.camparams == map[
      "0" := CameraParams(WorldPoints(), Repeat(c0, 8), SizeOf(f1)),
      "1" := CameraParams(WorldPoints(), Repeat(c1, 8), SizeOf(f1))]
  {
    s0, s1 := FirstSnapshot(f0, f1, c0, c1);
    s2 := SecondSnapshot(s1, f0, f1, c0, c1);
    CalibrateTwoSnapshots(s2, f0, f1, c0, c1, 14.0);
    s3 := Tick(s2, [f0, f1], [Some(c0), Some(c1)], 14.0).session;
  }

  /** One pass of the detection loop replaces the i-th output by its annotated frame. */
  lemma AnnotatedPrefix(annotated: seq<Pixels>, frames: seq<Pixels>, i: nat)
    requires |annotated| == |frames| && i < |frames|
    ensures Indexed(annotated[..i] + frames[i..])[Key(i) := annotated[i]] == Indexed(annotated[..i + 1] + frames[i + 1..])
  {
    assert (annotated[..i] + frames[i..])[i := annotated[i]] == annotated[..i + 1] + frames[i + 1..];
    IndexedUpdate(annotated[..i] + frames[i..], i, annotated[i]);
  }

  /** One pass of the `process_stereo` loop adds the i-th undistorted frame. */
  lemma UndistortedPrefix(frames: seq<Pixels>, camparams: map<string, CameraParams>, i: nat)
    requires i < |frames| && forall j :: 0 <= j <= i ==> Key(j) in camparams
    ensures Indexed(UndistortAll(frames[..i], camparams))[Key(i) := Undistorted(frames[i], camparams[Key(i)])]
         == Indexed(UndistortAll(frames[..i + 1], camparams))
  {
    var u := Undistorted(frames[i], camparams[Key(i)]);
    assert UndistortAll(frames[..i + 1], camparams) == UndistortAll(frames[..i], camparams) + [u];
    IndexedSnoc(UndistortAll(frames[..i], camparams), u);
  }

  /**
   * The detection loop's outputs after i images: `outputs[str(j)]` replaced by the
   * annotated frame for every j below i.
   */
  function Relabelled(frames: seq<Pixels>, detections: seq<Option<Corners>>, i: nat): map<string, Pixels>
    requires i <= |frames| == |detections|
  {
    if i == 0 then Indexed(frames)
    else Relabelled(frames, detections, i - 1)[Key(i - 1) := Annotate(frames[i - 1], detections[i - 1])]
  }

  lemma {:induction false} RelabelledMixed(frames: seq<Pixels>, detections: seq<Option<Corners>>, i: nat)
    requires i <= |frames| == |detections|
    ensures Relabelled(frames, detections, i) == Indexed(AnnotateAll(frames, detections)[..i] + frames[i..])
  {
    var annotated := AnnotateAll(frames, detections);
    if i == 0 {
      assert annotated[..0] + frames[0..] == frames;
    } else {
      RelabelledMixed(frames, detections, i - 1);
      AnnotatedPrefix(annotated, frames, i - 1);
    }
  }

  /** Once every image is seen, the outputs are the annotated frames. */
  lemma RelabelledAll(frames: seq<Pixels>, detections: seq<Option<Corners>>)
    requires |frames| == |detections|
    ensures Relabelled(frames, detections, |frames|) == Indexed(AnnotateAll(frames, detections))
  {
    var annotated := AnnotateAll(frames, detections);
    RelabelledMixed(frames, detections, |frames|);
    assert annotated[..|frames|] + frames[|frames|..] == annotated;
  }

  /** A slot list after t passes of `self.corners[key].append(x)` on a `defaultdict(list)`. */
  function AddCopies<T>(m: map<string, seq<T>>, key: string, x: T, t: nat): map<string, seq<T>> {
    if t == 0 then m
    else
      var p := AddCopies(m, key, x, t - 1);
      p[key := Lookup(p, key) + [x]]
  }

  lemma {:induction false} AddCopiesRepeat<T>(m: map<string, seq<T>>, key: string, x: T, t: nat)
    requires t > 0
    ensures AddCopies(m, key, x, t) == m[key := Lookup(m, key) + Repeat(x, t)]
  {
    if t == 1 {
      assert Repeat(x, 1) == [x];
    } else {
      AddCopiesRepeat(m, key, x, t - 1);
      var p := AddCopies(m, key, x, t - 1);
      assert Lookup(p, key) == Lookup(m, key) + Repeat(x, t - 1);
      assert Lookup(m, key) + Repeat(x, t - 1) + [x] == Lookup(m, key) + Repeat(x, t);
    }
  }

  /** The four-copy loop for slot j extends `AppendCopies` by one slot. */
  lemma AppendCopiesStep<T>(m: map<string, seq<T>>, xs: seq<T>, j: nat)
    requires j < |xs|
    ensures AppendCopies(m, xs, j + 1) == AddCopies(AppendCopies(m, xs, j), Key(j), xs[j], CopiesPerSnapshot)
  {
    AddCopiesRepeat(AppendCopies(m, xs, j), Key(j), xs[j], CopiesPerSnapshot);
  }

  /** The session after step 3 has computed the parameters of the slots in `done`. */
  function CalibratedSome(s: Session, done: set<string>): Session
    requires HasSnapshots(s) && done <= s.corners.Keys
  {
    s.(camparams := s.camparams + ParamsFor(s, done), stage := if done == {} then s.stage else Running)
  }

  lemma CalibratedSomeAdd(s: Session, done: set<string>, k: string)
    requires HasSnapshots(s) && done <= s.corners.Keys && k in s.corners
    ensures CalibratedSome(s, done + {k}) == CalibratedSome(s, done).(
      camparams := CalibratedSome(s, done).camparams[k := CameraParams(WorldPoints(), s.corners[k], SizeOf(s.snapshots[k][0]))],
      stage := Running)
  {
    ParamsForAdd(s, done, k);
  }

  lemma CalibratedSomeAll(s: Session)
    requires HasSnapshots(s)
    ensures CalibratedSome(s, s.corners.Keys - {}) == Calibrate(s)
  {
    assert s.corners.Keys - {} == s.corners.Keys;
    assert s.corners.Keys == {} <==> s.corners == map[];
    assert ParamsFor(s, s.corners.Keys) == CalibratedParams(s);
  }

  /** The parameters step 3 computes for the slots in `keys`. */
  function ParamsFor(s: Session, keys: set<string>): (m: map<string, CameraParams>)
    requires HasSnapshots(s) && keys <= s.corners.Keys
    ensures m.Keys == keys
  {
    map k | k in keys :: CameraParams(WorldPoints(), s.corners[k], SizeOf(s.snapshots[k][0]))
  }

  lemma ParamsForAdd(s: Session, keys: set<string>, k: string)
    requires HasSnapshots(s) && keys <= s.corners.Keys && k in s.corners
    ensures ParamsFor(s, keys + {k}) == ParamsFor(s, keys)[k := CameraParams(WorldPoints(), s.corners[k], SizeOf(s.snapshots[k][0]))]
  {
  }
}
