/**
 * `OpticalFlow`: per-slot Lucas-Kanade tracking state.
 *
 * Slot `str(i)` keeps the previous grey frame, the points being tracked and a mask
 * holding the track lines drawn so far. A slot's first frame since the last reset
 * initialises it; later frames are tracked against the previous one. `None` inputs
 * are skipped. Feature detection (`cv2.goodFeaturesToTrack`) and the tracker
 * (`cv2.calcOpticalFlowPyrLK`) are oracles passed as function parameters.
 */
module Classic {
  import opened Wrappers
  import opened Keys
  import opened Frames

  /** Rows of the random colour table `COLOURS`. */
  const ColourRows: nat := 100

  /** The row of the colour table used for the j-th good track. */
  function Colour(j: nat): (c: nat)
    ensures c < ColourRows
  {
    j % ColourRows
  }

  /** `cv2.goodFeaturesToTrack(grey)`; no corners at all is shown as an empty sequence. */
  type Features = Pixels -> seq<Point>

  /**
   * `cv2.calcOpticalFlowPyrLK(prev_grey, grey, prev_points)`: `None` when it returns no
   * points, otherwise one entry per tracked point, `Some(p)` for a point with status 1.
   */
  type Tracker = (Pixels, Pixels, seq<Point>) -> Option<seq<Option<Point>>>

  /** `points[status == 1]`: the new positions of the points tracked successfully. */
  function GoodPoints(result: seq<Option<Point>>): (r: seq<Point>)
    ensures |r| <= |result|
    ensures forall p :: p in r <==> Some(p) in result
  {
    if result == [] then []
    else
      var n := |result| - 1;
      assert result == result[..n] + [result[n]];
      GoodPoints(result[..n]) + (if result[n].Some? then [result[n].value] else [])
  }

  /** Filtering by status works entry by entry: it distributes over concatenation. */
  lemma {:induction false} GoodPointsAppend(a: seq<Option<Point>>, b: seq<Option<Point>>)
    ensures GoodPoints(a + b) == GoodPoints(a) + GoodPoints(b)
    decreases |b|
  {
    if b != [] {
      var n := |b| - 1;
      assert (a + b)[..|a + b| - 1] == a + b[..n];
      GoodPointsAppend(a, b[..n]);
    } else {
      assert a + b == a;
    }
  }

  /** `points_prev[status == 1]`: the old positions of the points tracked successfully. */
  function Selected(result: seq<Option<Point>>, prev: seq<Point>): (r: seq<Point>)
    requires |result| <= |prev|
  {
    if result == [] then []
    else
      var n := |result| - 1;
      Selected(result[..n], prev) + (if result[n].Some? then [prev[n]] else [])
  }

  /** `zip(xs, ys)` for sequences of equal length. */
  function Zip(xs: seq<Point>, ys: seq<Point>): (r: seq<(Point, Point)>)
    requires |xs| == |ys|
    ensures |r| == |xs|
  {
    seq(|xs|, k requires 0 <= k < |xs| => (xs[k], ys[k]))
  }

  /**
   * `zip(points[status == 1], points_prev[status == 1])`: each good new position with the
   * position it came from (zip stops at the shorter input).
   */
  function GoodPairs(result: seq<Option<Point>>, prev: seq<Point>): (r: seq<(Point, Point)>)
    ensures |r| <= |result|
  {
    if result == [] || prev == [] then []
    else if |prev| < |result| then GoodPairs(result[..|prev|], prev)
    else
      var n := |result| - 1;
      GoodPairs(result[..n], prev[..n]) + (if result[n].Some? then [(result[n].value, prev[n])] else [])
  }

  /**
   * The drawn tracks are `zip(points[status == 1], points_prev[status == 1])`: the good
   * new positions in order, each paired with the old position of the same point.
   */
  lemma {:induction false} GoodPairsZip(result: seq<Option<Point>>, prev: seq<Point>)
    requires |result| <= |prev|
    ensures |GoodPoints(result)| == |Selected(result, prev)|
    ensures GoodPairs(result, prev) == Zip(GoodPoints(result), Selected(result, prev))
    decreases |result|
  {
    if result != [] && prev != [] {
      var n := |result| - 1;
      GoodPairsZip(result[..n], prev[..n]);
      SelectedPrefix(result[..n], prev, n);
    }
  }

  /** `Selected` reads only the first |result| old positions. */
  lemma {:induction false} SelectedPrefix(result: seq<Option<Point>>, prev: seq<Point>, m: nat)
    requires |result| <= m <= |prev|
    ensures Selected(result, prev[..m]) == Selected(result, prev)
    decreases |result|
  {
    if result != [] {
      SelectedPrefix(result[..|result| - 1], prev, m);
    }
  }

  /** A point tracked successfully is drawn from its own old position, and only such pairs are drawn. */
  lemma {:induction false} GoodPairsIff(result: seq<Option<Point>>, prev: seq<Point>, a: Point, b: Point)
    ensures (a, b) in GoodPairs(result, prev) <==>
      exists i :: 0 <= i < |result| && i < |prev| && result[i] == Some(a) && prev[i] == b
    decreases |result|
  {
    if result == [] || prev == [] {
    } else if |prev| < |result| {
      GoodPairsIff(result[..|prev|], prev, a, b);
      if exists i :: 0 <= i < |result| && i < |prev| && result[i] == Some(a) && prev[i] == b {
        var i :| 0 <= i < |result| && i < |prev| && result[i] == Some(a) && prev[i] == b;
        assert result[..|prev|][i] == Some(a);
      }
    } else {
      var n := |result| - 1;
      GoodPairsIff(result[..n], prev[..n], a, b);
      if exists i :: 0 <= i < |result| && i < |prev| && result[i] == Some(a) && prev[i] == b {
        var i :| 0 <= i < |result| && i < |prev| && result[i] == Some(a) && prev[i] == b;
        if i < n {
          assert result[..n][i] == Some(a) && prev[..n][i] == b;
        }
      }
    }
  }

  /** The lines drawn on the mask, one per good track, in order. */
  function TrackLines(pairs: seq<(Point, Point)>): (r: seq<Mark>)
    ensures |r| == |pairs|
  {
    seq(|pairs|, j requires 0 <= j < |pairs| => TrackLine(pairs[j].0, pairs[j].1, Colour(j)))
  }

  /** The dots drawn on the frame, one per good track, in order. */
  function TrackDots(pairs: seq<(Point, Point)>): (r: seq<Mark>)
    ensures |r| == |pairs|
  {
    seq(|pairs|, j requires 0 <= j < |pairs| => TrackDot(pairs[j].0, Colour(j)))
  }

  /** One drawing call per mark, each on the result of the previous one. */
  function Stroke(img: Pixels, marks: seq<Mark>): Pixels {
    if marks == [] then img
    else Drawn(Stroke(img, marks[..|marks| - 1]), [marks[|marks| - 1]])
  }

  /** A slot's tracking state. */
  datatype Slot =
    | Fresh  // not seen since the last reset
    | Tracked(imgPrev: Pixels, pointsPrev: seq<Point>, mask: Pixels)

  /** The three dictionaries of an `OpticalFlow` object. */
  datatype Tracking = Tracking(imgPrev: map<string, Pixels>, pointsPrev: map<string, seq<Point>>, mask: map<string, Pixels>)

  /** The three dictionaries always have the same keys: the slots seen since the reset. */
  predicate Aligned(t: Tracking) {
    t.imgPrev.Keys == t.pointsPrev.Keys && t.imgPrev.Keys == t.mask.Keys
  }

  /** `reset_tracking`. */
  function Reset(): (t: Tracking)
    ensures Aligned(t)
  {
    Tracking(map[], map[], map[])
  }

  function At(t: Tracking, key: string): Slot
    requires Aligned(t)
  {
    if key in t.imgPrev then Tracked(t.imgPrev[key], t.pointsPrev[key], t.mask[key]) else Fresh
  }

  function Put(t: Tracking, key: string, s: Slot): (r: Tracking)
    requires Aligned(t) && s.Tracked?
    ensures Aligned(r)
  {
    Tracking(t.imgPrev[key := s.imgPrev], t.pointsPrev[key := s.pointsPrev], t.mask[key := s.mask])
  }

  /** One non-`None` frame for a slot: its new state and the image it outputs. */
  function Advance(s: Slot, frame: Pixels, features: Features, tracker: Tracker): (Slot, Pixels) {
    var grey := Grey(frame);
    match s
    case Fresh => (Tracked(grey, features(grey), ZerosLike(frame)), frame)
    case Tracked(imgPrev, pointsPrev, mask) =>
      match tracker(imgPrev, grey, pointsPrev)
      case None => (Tracked(grey, pointsPrev, mask), frame)
      case Some(result) =>
        var pairs := GoodPairs(result, pointsPrev);
        var mask' := Stroke(mask, TrackLines(pairs));
        (Tracked(grey, GoodPoints(result), mask'), Added(Stroke(frame, TrackDots(pairs)), mask'))
  }

  /** The state and outputs after the `process` loop has handled the first n inputs. */
  function FlowPrefix(t: Tracking, frames: seq<Option<Pixels>>, n: nat, features: Features, tracker: Tracker): (r: (Tracking, map<string, Pixels>))
    requires Aligned(t) && n <= |frames|
    ensures Aligned(r.0)
  {
    if n == 0 then (t, map[])
    else
      var (t', outputs) := FlowPrefix(t, frames, n - 1, features, tracker);
      match frames[n - 1]
      case None => (t', outputs)
      case Some(frame) =>
        var key := Key(n - 1);
        var (s, out) := Advance(At(t', key), frame, features, tracker);
        (Put(t', key, s), outputs[key := out])
  }

  /** `process`. */
  function Flow(t: Tracking, frames: seq<Option<Pixels>>, features: Features, tracker: Tracker): (Tracking, map<string, Pixels>)
    requires Aligned(t)
  {
    FlowPrefix(t, frames, |frames|, features, tracker)
  }

  /** `handle_keystroke`. */
  function Keystroke(t: Tracking, key: char): Tracking {
    if key == 'r' then Reset() else t
  }

  /** `{str(i) for i, image in enumerate(images) if image is not None}` over the first n. */
  function PresentKeys(frames: seq<Option<Pixels>>, n: nat): set<string>
    requires n <= |frames|
  {
    if n == 0 then {}
    else PresentKeys(frames, n - 1) + (if frames[n - 1].Some? then {Key(n - 1)} else {})
  }

  lemma {:induction false} PresentKeysIff(frames: seq<Option<Pixels>>, n: nat, i: nat)
    requires n <= |frames|
    ensures Key(i) in PresentKeys(frames, n) <==> i < n && frames[i].Some?
  {
    if n > 0 {
      PresentKeysIff(frames, n - 1, i);
      if Key(i) == Key(n - 1) {
        KeyInjective(i, n - 1);
      }
    }
  }

  /** The outputs are keyed by exactly the slots whose input was not `None`. */
  lemma {:induction false} FlowOutputKeys(t: Tracking, frames: seq<Option<Pixels>>, n: nat, features: Features, tracker: Tracker)
    requires Aligned(t) && n <= |frames|
    ensures FlowPrefix(t, frames, n, features, tracker).1.Keys == PresentKeys(frames, n)
  {
    if n > 0 {
      FlowOutputKeys(t, frames, n - 1, features, tracker);
    }
  }

  /** The n-th input touches only slot `str(n-1)`. */
  lemma FlowStepOthers(t: Tracking, frames: seq<Option<Pixels>>, n: nat, key: string, features: Features, tracker: Tracker)
    requires Aligned(t) && 0 < n <= |frames| && key != Key(n - 1)
    ensures var prev := FlowPrefix(t, frames, n - 1, features, tracker);
      var r := FlowPrefix(t, frames, n, features, tracker);
      At(r.0, key) == At(prev.0, key) && (key in r.1 <==> key in prev.1) && (key in r.1 ==> r.1[key] == prev.1[key])
  {
  }

  /** The n-th input, when present, advances slot `str(n-1)` from its state so far. */
  lemma FlowStepOwn(t: Tracking, frames: seq<Option<Pixels>>, n: nat, features: Features, tracker: Tracker)
    requires Aligned(t) && 0 < n <= |frames|
    ensures var prev := FlowPrefix(t, frames, n - 1, features, tracker);
      var r := FlowPrefix(t, frames, n, features, tracker);
      && (frames[n - 1].None? ==> r == prev)
      && (frames[n - 1].Some? ==>
            var (s, out) := Advance(At(prev.0, Key(n - 1)), frames[n - 1].value, features, tracker);
            At(r.0, Key(n - 1)) == s && Key(n - 1) in r.1 && r.1[Key(n - 1)] == out)
  {
  }

  /**
   * Slot by slot: a slot whose input is `None` keeps its state; any other slot moves on
   * by `Advance` from its own state alone, and outputs what `Advance` gives.
   */
  lemma {:induction false} FlowSlot(t: Tracking, frames: seq<Option<Pixels>>, n: nat, i: nat, features: Features, tracker: Tracker)
    requires Aligned(t) && i < n <= |frames|
    ensures var r := FlowPrefix(t, frames, n, features, tracker);
      && (frames[i].None? ==> At(r.0, Key(i)) == At(t, Key(i)))
      && (frames[i].Some? ==>
            var (s, out) := Advance(At(t, Key(i)), frames[i].value, features, tracker);
            At(r.0, Key(i)) == s && Key(i) in r.1 && r.1[Key(i)] == out)
  {
    if i < n - 1 {
      FlowSlot(t, frames, n - 1, i, features, tracker);
      if Key(i) == Key(n - 1) {
        KeyInjective(i, n - 1);
      }
      FlowStepOthers(t, frames, n, Key(i), features, tracker);
    } else {
      FlowUntouched(t, frames, n - 1, i, features, tracker);
      FlowStepOwn(t, frames, n, features, tracker);
    }
  }

  /** Slots not reached yet keep their state. */
  lemma {:induction false} FlowUntouched(t: Tracking, frames: seq<Option<Pixels>>, n: nat, i: nat, features: Features, tracker: Tracker)
    requires Aligned(t) && n <= i && n <= |frames|
    ensures At(FlowPrefix(t, frames, n, features, tracker).0, Key(i)) == At(t, Key(i))
  {
    if n > 0 {
      FlowUntouched(t, frames, n - 1, i, features, tracker);
      if Key(i) == Key(n - 1) {
        KeyInjective(i, n - 1);
      }
    }
  }

  /**
   * What one frame does to a slot: the first frame since a reset initialises it from
   * the grey frame, without tracking; every later frame stores the grey frame. When the
   * tracker returns points, the tracked points become those with status 1, the mask
   * gains one line per good track and the frame shown is the frame with one dot per
   * good track, overlaid with the mask; otherwise points, mask and frame are kept.
   */
  lemma AdvanceEffects(s: Slot, frame: Pixels, features: Features, tracker: Tracker)
    ensures var (s', out) := Advance(s, frame, features, tracker);
      && s'.Tracked? && s'.imgPrev == Grey(frame)
      && (s.Fresh? ==> s' == Tracked(Grey(frame), features(Grey(frame)), ZerosLike(frame)) && out == frame)
      && (s.Tracked? && tracker(s.imgPrev, Grey(frame), s.pointsPrev).Some? ==>
            var result := tracker(s.imgPrev, Grey(frame), s.pointsPrev).value;
            var pairs := GoodPairs(result, s.pointsPrev);
            && s'.pointsPrev == GoodPoints(result)
            && s'.mask == Stroke(s.mask, TrackLines(pairs))
            && out == Added(Stroke(frame, TrackDots(pairs)), s'.mask))
      && (s.Tracked? && tracker(s.imgPrev, Grey(frame), s.pointsPrev).None? ==>
            s'.mask == s.mask && s'.pointsPrev == s.pointsPrev && out == frame)
  {
  }

  /** Drawing two runs of marks one after the other is drawing them all. */
  lemma {:induction false} StrokeAppend(img: Pixels, a: seq<Mark>, b: seq<Mark>)
    ensures Stroke(img, a + b) == Stroke(Stroke(img, a), b)
    decreases |b|
  {
    if b != [] {
      var n := |b| - 1;
      assert (a + b)[..|a + b| - 1] == a + b[..n];
      assert (a + b)[|a + b| - 1] == b[n];
      StrokeAppend(img, a, b[..n]);
    } else {
      assert a + b == a;
    }
  }

  /**
   * The mask keeps the drawing: over two tracked frames it holds the lines of the first
   * followed by the lines of the second.
   */
  lemma MaskAccumulates(s: Slot, f1: Pixels, f2: Pixels, features: Features, tracker: Tracker)
    requires s.Tracked?
    requires tracker(s.imgPrev, Grey(f1), s.pointsPrev).Some?
    requires var s1 := Advance(s, f1, features, tracker).0;
      tracker(s1.imgPrev, Grey(f2), s1.pointsPrev).Some?
    ensures var s1 := Advance(s, f1, features, tracker).0;
      var s2 := Advance(s1, f2, features, tracker).0;
      var r1 := tracker(s.imgPrev, Grey(f1), s.pointsPrev).value;
      var r2 := tracker(s1.imgPrev, Grey(f2), s1.pointsPrev).value;
      s2.mask == Stroke(s.mask, TrackLines(GoodPairs(r1, s.pointsPrev)) + TrackLines(GoodPairs(r2, s1.pointsPrev)))
  {
    var s1 := Advance(s, f1, features, tracker).0;
    var r1 := tracker(s.imgPrev, Grey(f1), s.pointsPrev).value;
    var r2 := tracker(s1.imgPrev, Grey(f2), s1.pointsPrev).value;
    StrokeAppend(s.mask, TrackLines(GoodPairs(r1, s.pointsPrev)), TrackLines(GoodPairs(r2, s1.pointsPrev)));
  }

  /**
   * After a reset, every slot with an image is initialised from that image alone, and
   * shown unchanged; slots without one stay unseen.
   */
  lemma FlowAfterReset(frames: seq<Option<Pixels>>, i: nat, features: Features, tracker: Tracker)
    requires i < |frames|
    ensures var r := Flow(Reset(), frames, features, tracker);
      && (frames[i].None? ==> At(r.0, Key(i)) == Fresh && Key(i) !in r.1)
      && (frames[i].Some? ==>
            var grey := Grey(frames[i].value);
            At(r.0, Key(i)) == Tracked(grey, features(grey), ZerosLike(frames[i].value))
            && Key(i) in r.1 && r.1[Key(i)] == frames[i].value)
  {
    FlowSlot(Reset(), frames, |frames|, i, features, tracker);
    FlowOutputKeys(Reset(), frames, |frames|, features, tracker);
    PresentKeysIff(frames, |frames|, i);
  }

  /** `'r'` resets from any state; every other key changes nothing. */
  lemma KeystrokeEffects(t: Tracking, key: char)
    ensures key == 'r' ==> Keystroke(t, key) == Tracking(map[], map[], map[])
    ensures key != 'r' ==> Keystroke(t, key) == t
  {
  }

  /** The tracking unit. */
  class OpticalFlow {
    var imgPrev: map<string, Pixels>
    var pointsPrev: map<string, seq<Point>>
    var mask: map<string, Pixels>

    function State(): Tracking
      reads this
    {
      Tracking(imgPrev, pointsPrev, mask)
    }

    ghost predicate Valid()
      reads this
    {
      Aligned(State())
    }

    constructor ()
      ensures State() == Reset() && Valid()
    {
      imgPrev, pointsPrev, mask := map[], map[], map[];
    }

    method ResetTracking()
      modifies this
      ensures State() == Reset() && Valid()
    {
      imgPrev, pointsPrev, mask := map[], map[], map[];
    }

    method HandleKeystroke(key: char)
      requires Valid()
      modifies this
      ensures State() == Keystroke(old(State()), key) && Valid()
    {
      if key == 'r' {
        ResetTracking();
      }
    }

    method Process(frames: seq<Option<Pixels>>, features: Features, tracker: Tracker) returns (outputs: map<string, Pixels>)
      requires Valid()
      modifies this
      ensures (State(), outputs) == Flow(old(State()), frames, features, tracker) && Valid()
    {
      outputs := map[];
      var i := 0;
      while i < |frames|
        invariant 0 <= i <= |frames| && Valid()
        invariant (State(), outputs) == FlowPrefix(old(State()), frames, i, features, tracker)
      {
        var key := Key(i);
        if frames[i].Some? {
          var out := ProcessSlot(key, frames[i].value, features, tracker);
          outputs := outputs[key := out];
        }
        i := i + 1;
      }
    }

    /** The body of the `process` loop for a non-`None` image. */
    method ProcessSlot(key: string, img: Pixels, features: Features, tracker: Tracker) returns (out: Pixels)
      requires Valid()
      modifies this
      ensures var (s, o) := Advance(At(old(State()), key), img, features, tracker);
        State() == Put(old(State()), key, s) && out == o
    {
      var grey := Grey(img);
      out := img;
      if key !in imgPrev {
        imgPrev := imgPrev[key := grey];
        mask := mask[key := ZerosLike(img)];
        pointsPrev := pointsPrev[key := features(grey)];
      } else {
        var result := tracker(imgPrev[key], grey, pointsPrev[key]);
        if result.Some? {
          var pairs := GoodPairs(result.value, pointsPrev[key]);
          var m;
          m, out := TrackStrokes(mask[key], img, pairs);
          mask := mask[key := m];
          out := Added(out, m);
          pointsPrev := pointsPrev[key := GoodPoints(result.value)];
        }
        imgPrev := imgPrev[key := grey];
      }
    }

    /** The drawing loop: a line on the mask and a dot on the frame per good track. */
    static method TrackStrokes(mask: Pixels, img: Pixels, pairs: seq<(Point, Point)>) returns (mask': Pixels, img': Pixels)
      ensures mask' == Stroke(mask, TrackLines(pairs))
      ensures img' == Stroke(img, TrackDots(pairs))
    {
      mask', img' := mask, img;
      var j := 0;
      while j < |pairs|
        invariant 0 <= j <= |pairs|
        invariant mask' == Stroke(mask, TrackLines(pairs)[..j])
        invariant img' == Stroke(img, TrackDots(pairs)[..j])
      {
        var (curr, prev) := pairs[j];
        assert TrackLines(pairs)[..j + 1][..j] == TrackLines(pairs)[..j];
        assert TrackDots(pairs)[..j + 1][..j] == TrackDots(pairs)[..j];
        mask' := Drawn(mask', [TrackLine(curr, prev, Colour(j))]);
        img' := Drawn(img', [TrackDot(curr, Colour(j))]);
        j := j + 1;
      }
      assert TrackLines(pairs)[..j] == TrackLines(pairs);
      assert TrackDots(pairs)[..j] == TrackDots(pairs);
    }
  }
}
