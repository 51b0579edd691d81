/**
 * The AWS Rekognition front end: the three response parsers, which turn the
 * `Labels`, `FaceDetails` and `TextDetections` lists into pixel-space records, and the
 * colour cache the visualiser keeps per label and per face.
 *
 * A JSON object is a record whose keys may be missing (`None`). A mandatory key that is
 * missing raises `ValueError` before anything else is read from that item; any other
 * missing key read later raises `KeyError`. The first item that fails decides the error.
 */
module Aws {
  import opened Wrappers
  import opened Keys
  import opened Frames

  /** A Rekognition bounding box, in fractions of the image width and height. */
  datatype Box = Box(left: real, top: real, width: real, height: real)

  /** `(x, y, w, h)` in pixels. */
  datatype PixelBox = PixelBox(x: int, y: int, w: int, h: int)

  datatype ParseError =
    | MissingMandatory    // ValueError: one or more mandatory keys missing
    | MissingKey(key: string)  // KeyError on a key outside the mandatory list

  /** Python's `int()` on a float: truncation toward zero. */
  function Trunc(x: real): int {
    if x >= 0.0 then x.Floor else -((-x).Floor)
  }

  /** `int()` drops the fractional part: the result is the whole number nearest zero within 1 of x. */
  lemma TruncBounds(x: real)
    ensures 0.0 <= x ==> 0 <= Trunc(x) && Trunc(x) as real <= x < Trunc(x) as real + 1.0
    ensures x < 0.0 ==> Trunc(x) <= 0 && Trunc(x) as real - 1.0 < x <= Trunc(x) as real
  {
  }

  /** `(int(Left * w), int(Top * h), int(Width * w), int(Height * h))` with `(w, h) = img.size`. */
  function Scale(b: Box, size: Size): PixelBox {
    PixelBox(Pixel(b.left, size.width), Pixel(b.top, size.height),
             Pixel(b.width, size.width), Pixel(b.height, size.height))
  }

  predicate Fraction(x: real) {
    0.0 <= x <= 1.0
  }

  /** `int(f * n)`: a fraction of n pixels, as a whole number of pixels. */
  function Pixel(f: real, n: nat): int {
    Trunc(f * n as real)
  }

  /** A fraction of a whole number of pixels truncates to a pixel count within that number. */
  lemma TruncFraction(f: real, n: nat)
    requires Fraction(f)
    ensures 0 <= Pixel(f, n) <= n
  {
    assert 0.0 <= f * n as real <= n as real by {
      assert f * n as real <= 1.0 * n as real;
    }
  }

  /** A box given in fractions lands inside the image. */
  lemma ScaleInside(b: Box, size: Size)
    requires Fraction(b.left) && Fraction(b.top) && Fraction(b.width) && Fraction(b.height)
    ensures var p := Scale(b, size);
      0 <= p.x <= size.width && 0 <= p.y <= size.height && 0 <= p.w <= size.width && 0 <= p.h <= size.height
  {
    TruncFraction(b.left, size.width);
    TruncFraction(b.top, size.height);
    TruncFraction(b.width, size.width);
    TruncFraction(b.height, size.height);
  }

  /** Truncating two non-negative values separately never gives more than truncating their sum. */
  lemma TruncAdd(a: real, b: real)
    requires 0.0 <= a && 0.0 <= b
    ensures Trunc(a) + Trunc(b) <= Trunc(a + b)
  {
    TruncBounds(a);
    TruncBounds(b);
    TruncBounds(a + b);
  }

  /** An offset and an extent, both fractions of n pixels, end within n pixels after truncation. */
  lemma TruncExtent(start: real, extent: real, n: nat)
    requires Fraction(start) && Fraction(extent) && Fraction(start + extent)
    ensures Pixel(start, n) + Pixel(extent, n) <= n
  {
    var m := n as real;
    assert 0.0 <= start * m by {
      assert start * m >= 0.0 * m;
    }
    assert 0.0 <= extent * m by {
      assert extent * m >= 0.0 * m;
    }
    assert start * m + extent * m == (start + extent) * m;
    TruncAdd(start * m, extent * m);
    TruncFraction(start + extent, n);
  }

  /** A box that itself lies within the image in fractions also ends within it in pixels. */
  lemma ScaleWithin(b: Box, size: Size)
    requires Fraction(b.left) && Fraction(b.top) && Fraction(b.width) && Fraction(b.height)
    requires Fraction(b.left + b.width) && Fraction(b.top + b.height)
    ensures var p := Scale(b, size);
      p.x + p.w <= size.width && p.y + p.h <= size.height
  {
    TruncExtent(b.left, b.width, size.width);
    TruncExtent(b.top, b.height, size.height);
  }

  // ---------------------------------------------------------------------------
  // Collecting per-item results

  /**
   * The parser loop: items are handled in order; the first error is raised; an item
   * gives either an entry (`Some`) or nothing (`None`, filtered out).
   */
  function Gather<T>(rs: seq<Result<Option<T>, ParseError>>): Result<seq<T>, ParseError> {
    if rs == [] then Ok([])
    else
      match Gather(rs[..|rs| - 1])
      case Err(e) => Err(e)
      case Ok(out) =>
        match rs[|rs| - 1]
        case Err(e) => Err(e)
        case Ok(None) => Ok(out)
        case Ok(Some(x)) => Ok(out + [x])
  }

  /** The entries of the successful items, in order. */
  function Kept<T>(rs: seq<Result<Option<T>, ParseError>>): seq<T> {
    if rs == [] then []
    else Kept(rs[..|rs| - 1]) + (if rs[|rs| - 1].Ok? && rs[|rs| - 1].value.Some? then [rs[|rs| - 1].value.value] else [])
  }

  /** The parse succeeds exactly when every item does, and then yields the kept entries. */
  lemma {:induction false} GatherOk<T>(rs: seq<Result<Option<T>, ParseError>>)
    ensures Gather(rs).Ok? <==> forall i :: 0 <= i < |rs| ==> rs[i].Ok?
    ensures Gather(rs).Ok? ==> Gather(rs).value == Kept(rs)
  {
    if rs != [] {
      var init := rs[..|rs| - 1];
      GatherOk(init);
      assert forall i :: 0 <= i < |init| ==> init[i] == rs[i];
    }
  }

  /** The error raised is that of the first failing item. */
  lemma {:induction false} GatherFirstErr<T>(rs: seq<Result<Option<T>, ParseError>>, j: nat)
    requires j < |rs| && rs[j].Err?
    requires forall i :: 0 <= i < j ==> rs[i].Ok?
    ensures Gather(rs) == Err(rs[j].error)
  {
    if j < |rs| - 1 {
      var init := rs[..|rs| - 1];
      assert init[j] == rs[j];
      assert forall i :: 0 <= i < j ==> init[i] == rs[i];
      GatherFirstErr(init, j);
    } else {
      GatherOk(rs[..j]);
      assert forall i :: 0 <= i < j ==> rs[..j][i] == rs[i];
    }
  }

  /** Entries keep the order of their items. */
  lemma {:induction false} KeptAppend<T>(a: seq<Result<Option<T>, ParseError>>, b: seq<Result<Option<T>, ParseError>>)
    ensures Kept(a + b) == Kept(a) + Kept(b)
    decreases |b|
  {
    if b != [] {
      assert (a + b)[..|a + b| - 1] == a + b[..|b| - 1];
      KeptAppend(a, b[..|b| - 1]);
    } else {
      assert a + b == a;
    }
  }

  /** When every item gives an entry, entry i comes from item i. */
  lemma {:induction false} KeptAll<T>(rs: seq<Result<Option<T>, ParseError>>)
    requires forall i :: 0 <= i < |rs| ==> rs[i].Ok? && rs[i].value.Some?
    ensures |Kept(rs)| == |rs|
    ensures forall i :: 0 <= i < |rs| ==> Kept(rs)[i] == rs[i].value.value
  {
    if rs != [] {
      var init := rs[..|rs| - 1];
      assert forall i :: 0 <= i < |init| ==> init[i] == rs[i];
      KeptAll(init);
    }
  }

  lemma GatherStep<T>(rs: seq<Result<Option<T>, ParseError>>, i: nat, out: seq<T>)
    requires i < |rs| && Gather(rs[..i]) == Ok(out) && rs[i].Ok?
    ensures Gather(rs[..i + 1]) == Ok(if rs[i].value.Some? then out + [rs[i].value.value] else out)
  {
    assert rs[..i + 1][..i] == rs[..i];
  }

  // ---------------------------------------------------------------------------
  // parse_rek_detect

  /** An entry of `Instances`. */
  datatype Instance = Instance(boundingBox: Option<Box>)

  /** An entry of `Labels`; `parents` holds each parent's `Name`. */
  datatype LabelEntry = LabelEntry(confidence: Option<real>, instances: Option<seq<Instance>>,
                                   name: Option<string>, parents: Option<seq<Option<string>>>)

  datatype Detection = Detection(name: string, confidence: real, instances: seq<PixelBox>)

  predicate HasLabelKeys(e: LabelEntry) {
    e.confidence.Some? && e.instances.Some? && e.name.Some? && e.parents.Some?
  }

  function Reversed<T>(s: seq<T>): (r: seq<T>)
    ensures |r| == |s|
    ensures forall k :: 0 <= k < |s| ==> r[k] == s[|s| - 1 - k]
  {
    if s == [] then [] else [s[|s| - 1]] + Reversed(s[..|s| - 1])
  }

  /** `sep.join(parts)`. */
  function Join(parts: seq<string>, sep: char): string {
    if parts == [] then []
    else if |parts| == 1 then parts[0]
    else Join(parts[..|parts| - 1], sep) + [sep] + parts[|parts| - 1]
  }

  function AllSome<T>(s: seq<Option<T>>): bool {
    forall i :: 0 <= i < |s| ==> s[i].Some?
  }

  function Values<T>(s: seq<Option<T>>): (r: seq<T>)
    requires AllSome(s)
    ensures |r| == |s|
  {
    seq(|s|, i requires 0 <= i < |s| => s[i].value)
  }

  /** The boxes of the instances that have one, in order. */
  function Boxes(insts: seq<Instance>): seq<Box> {
    if insts == [] then []
    else Boxes(insts[..|insts| - 1]) + (if insts[|insts| - 1].boundingBox.Some? then [insts[|insts| - 1].boundingBox.value] else [])
  }

  function ScaleAll(boxes: seq<Box>, size: Size): (r: seq<PixelBox>)
    ensures |r| == |boxes|
  {
    seq(|boxes|, i requires 0 <= i < |boxes| => Scale(boxes[i], size))
  }

  /** The loop body of `parse_rek_detect` for one label. */
  function ParseLabel(e: LabelEntry, size: Size): Result<Option<Detection>, ParseError> {
    if !HasLabelKeys(e) then Err(MissingMandatory)
    else if !AllSome(e.parents.value) then Err(MissingKey("Name"))
    else
      var name := Join(Reversed(Values(e.parents.value)) + [e.name.value], '/');
      Ok(Some(Detection(name, e.confidence.value, ScaleAll(Boxes(e.instances.value), size))))
  }

  function LabelResults(raw: seq<LabelEntry>, size: Size): (r: seq<Result<Option<Detection>, ParseError>>)
    ensures |r| == |raw|
  {
    seq(|raw|, i requires 0 <= i < |raw| => ParseLabel(raw[i], size))
  }

  /** `parse_rek_detect(raw, img.size)`. */
  function Detections(raw: seq<LabelEntry>, size: Size): Result<seq<Detection>, ParseError> {
    Gather(LabelResults(raw, size))
  }

  /**
   * One detection per label, in order, each with its label's confidence unchanged; a
   * label missing a mandatory key makes the parse fail, and the first failing label
   * decides the error.
   */
  lemma DetectionsShape(raw: seq<LabelEntry>, size: Size)
    ensures var r := Detections(raw, size);
      && (r.Ok? <==> forall i :: 0 <= i < |raw| ==> HasLabelKeys(raw[i]) && AllSome(raw[i].parents.value))
      && (r.Ok? ==>
            && |r.value| == |raw|
            && forall i :: 0 <= i < |raw| ==> r.value[i].confidence == raw[i].confidence.value)
  {
    var rs := LabelResults(raw, size);
    assert forall i :: 0 <= i < |raw| ==> rs[i] == ParseLabel(raw[i], size);
    GatherOk(rs);
    if Detections(raw, size).Ok? {
      KeptAll(rs);
    }
  }

  lemma DetectionsFirstError(raw: seq<LabelEntry>, size: Size, j: nat)
    requires j < |raw| && !HasLabelKeys(raw[j])
    requires forall i :: 0 <= i < j ==> HasLabelKeys(raw[i]) && AllSome(raw[i].parents.value)
    ensures Detections(raw, size) == Err(MissingMandatory)
  {
    GatherFirstErr(LabelResults(raw, size), j);
  }

  /** The label is the parents' names, last parent first, then the label's own name, joined by `/`. */
  lemma DetectionLabel(raw: seq<LabelEntry>, size: Size, i: nat)
    requires i < |raw| && Detections(raw, size).Ok?
    ensures HasLabelKeys(raw[i]) && AllSome(raw[i].parents.value) && |Detections(raw, size).value| == |raw|
      && Detections(raw, size).value[i].name == Join(Reversed(Values(raw[i].parents.value)) + [raw[i].name.value], '/')
      && Detections(raw, size).value[i].instances == ScaleAll(Boxes(raw[i].instances.value), size)
  {
    var rs := LabelResults(raw, size);
    assert rs[i] == ParseLabel(raw[i], size);
    DetectionsShape(raw, size);
    KeptAll(rs);
    GatherOk(rs);
  }

  /** A label without parents is just its name. */
  lemma LabelWithoutParents(name: string)
    ensures Join(Reversed<string>([]) + [name], '/') == name
  {
    assert Reversed<string>([]) + [name] == [name];
  }

  /** `Cottage` with parents `House`, `Housing`, `Building` is `Building/Housing/House/Cottage`. */
  lemma LabelExample()
    ensures Join(Reversed(["House", "Housing", "Building"]) + ["Cottage"], '/') == "Building/Housing/House/Cottage"
  {
    var ps := ["House", "Housing", "Building"];
    assert ps[..2] == ["House", "Housing"] && ps[..2][..1] == ["House"] && ps[..2][..1][..0] == [];
    assert Reversed(ps) == ["Building", "Housing", "House"];
    var parts := ["Building", "Housing", "House", "Cottage"];
    assert Reversed(ps) + ["Cottage"] == parts;
    assert parts[..3] == ["Building", "Housing", "House"];
    assert parts[..3][..2] == ["Building", "Housing"];
    assert parts[..3][..2][..1] == ["Building"];
    assert Join(parts[..3][..2][..1], '/') == "Building";
    assert Join(parts[..3][..2], '/') == "Building/Housing";
    assert Join(parts[..3], '/') == "Building/Housing/House";
  }

  /** Instances: exactly those with a bounding box, in order. */
  lemma {:induction false} BoxesAppend(a: seq<Instance>, b: seq<Instance>)
    ensures Boxes(a + b) == Boxes(a) + Boxes(b)
    decreases |b|
  {
    if b != [] {
      assert (a + b)[..|a + b| - 1] == a + b[..|b| - 1];
      BoxesAppend(a, b[..|b| - 1]);
    } else {
      assert a + b == a;
    }
  }

  lemma BoxesSingle(inst: Instance)
    ensures Boxes([inst]) == if inst.boundingBox.Some? then [inst.boundingBox.value] else []
  {
    assert [inst][..0] == [];
  }

  // ---------------------------------------------------------------------------
  // parse_rek_faces

  /** An entry of `Landmarks`. */
  datatype Landmark = Landmark(kind: string, x: real, y: real)

  /** An entry of `FaceDetails`. */
  datatype FaceEntry = FaceEntry(confidence: Option<real>, boundingBox: Option<Box>, landmarks: Option<seq<Landmark>>)

  datatype Face = Face(confidence: real, boundingBox: PixelBox, landmarks: map<string, Point>)

  predicate HasFaceKeys(e: FaceEntry) {
    e.confidence.Some? && e.boundingBox.Some? && e.landmarks.Some?
  }

  /** `(X * w, Y * h)`: landmark positions are scaled but not truncated. */
  function Position(lm: Landmark, size: Size): Point {
    Point(lm.x * size.width as real, lm.y * size.height as real)
  }

  /** `{lm["Type"]: ... for lm in landmarks}`: a later landmark of the same type overwrites. */
  function LandmarkMap(lms: seq<Landmark>, size: Size): map<string, Point> {
    if lms == [] then map[]
    else LandmarkMap(lms[..|lms| - 1], size)[lms[|lms| - 1].kind := Position(lms[|lms| - 1], size)]
  }

  /** The landmark map has one key per landmark type present. */
  lemma {:induction false} LandmarkKeys(lms: seq<Landmark>, size: Size)
    ensures LandmarkMap(lms, size).Keys == set i | 0 <= i < |lms| :: lms[i].kind
  {
    if lms != [] {
      var init := lms[..|lms| - 1];
      LandmarkKeys(init, size);
      assert forall i :: 0 <= i < |init| ==> init[i] == lms[i];
      assert (set i | 0 <= i < |lms| :: lms[i].kind) == (set i | 0 <= i < |init| :: init[i].kind) + {lms[|lms| - 1].kind};
    }
  }

  /** Each type maps to the position of the LAST landmark of that type. */
  lemma {:induction false} LandmarkLastWins(lms: seq<Landmark>, size: Size, k: nat)
    requires k < |lms|
    requires forall j :: k < j < |lms| ==> lms[j].kind != lms[k].kind
    ensures lms[k].kind in LandmarkMap(lms, size)
    ensures LandmarkMap(lms, size)[lms[k].kind] == Position(lms[k], size)
  {
    if k < |lms| - 1 {
      var init := lms[..|lms| - 1];
      assert init[k] == lms[k];
      assert forall j :: k < j < |init| ==> init[j] == lms[j];
      LandmarkLastWins(init, size, k);
    }
  }

  /** The loop body of `parse_rek_faces` for one face. */
  function ParseFace(e: FaceEntry, size: Size): Result<Option<Face>, ParseError> {
    if !HasFaceKeys(e) then Err(MissingMandatory)
    else Ok(Some(Face(e.confidence.value, Scale(e.boundingBox.value, size), LandmarkMap(e.landmarks.value, size))))
  }

  function FaceResults(raw: seq<FaceEntry>, size: Size): (r: seq<Result<Option<Face>, ParseError>>)
    ensures |r| == |raw|
  {
    seq(|raw|, i requires 0 <= i < |raw| => ParseFace(raw[i], size))
  }

  /** `parse_rek_faces(raw, img.size)`. */
  function Faces(raw: seq<FaceEntry>, size: Size): Result<seq<Face>, ParseError> {
    Gather(FaceResults(raw, size))
  }

  /**
   * The parse fails exactly when some face lacks `Confidence`, `BoundingBox` or
   * `Landmarks`; otherwise there is one face per entry, in order, with its confidence
   * unchanged and its box scaled to pixels.
   */
  lemma FacesShape(raw: seq<FaceEntry>, size: Size)
    ensures var r := Faces(raw, size);
      && (r.Ok? <==> forall i :: 0 <= i < |raw| ==> HasFaceKeys(raw[i]))
      && (r.Err? ==> r.error == MissingMandatory)
      && (r.Ok? ==>
            && |r.value| == |raw|
            && forall i :: 0 <= i < |raw| ==>
                 r.value[i].confidence == raw[i].confidence.value
                 && r.value[i].boundingBox == Scale(raw[i].boundingBox.value, size)
                 && r.value[i].landmarks == LandmarkMap(raw[i].landmarks.value, size))
  {
    var rs := FaceResults(raw, size);
    assert forall i :: 0 <= i < |raw| ==> rs[i] == ParseFace(raw[i], size);
    GatherOk(rs);
    if Faces(raw, size).Ok? {
      KeptAll(rs);
    } else {
      var j :| 0 <= j < |rs| && rs[j].Err?;
      FirstFailure(rs, j);
    }
  }

  /** Some item fails and all before the first failure succeed. */
  lemma {:induction false} FirstFailure<T>(rs: seq<Result<Option<T>, ParseError>>, j: nat)
    requires j < |rs| && rs[j].Err?
    ensures exists k :: 0 <= k <= j && rs[k].Err? && Gather(rs) == Err(rs[k].error)
    decreases j
  {
    if forall i :: 0 <= i < j ==> rs[i].Ok? {
      GatherFirstErr(rs, j);
    } else {
      var i :| 0 <= i < j && rs[i].Err?;
      FirstFailure(rs, i);
    }
  }

  // ---------------------------------------------------------------------------
  // parse_rek_text

  datatype Geometry = Geometry(boundingBox: Option<Box>)

  /** An entry of `TextDetections`; `kind` is its `Type`. */
  datatype TextEntry = TextEntry(confidence: Option<real>, geometry: Option<Geometry>,
                                 detectedText: Option<string>, kind: Option<string>)

  datatype Word = Word(confidence: real, text: string, boundingBox: PixelBox)

  predicate HasTextKeys(e: TextEntry) {
    e.confidence.Some? && e.geometry.Some? && e.detectedText.Some?
  }

  /**
   * The loop body of `parse_rek_text`: the mandatory check, then the box (read before
   * the type is looked at), then `Type`, which is not among the mandatory keys.
   */
  function ParseWord(e: TextEntry, size: Size): Result<Option<Word>, ParseError> {
    if !HasTextKeys(e) then Err(MissingMandatory)
    else if e.geometry.value.boundingBox.None? then Err(MissingKey("BoundingBox"))
    else if e.kind.None? then Err(MissingKey("Type"))
    else if e.kind.value == "WORD" then
      Ok(Some(Word(e.confidence.value, e.detectedText.value, Scale(e.geometry.value.boundingBox.value, size))))
    else Ok(None)
  }

  function TextResults(raw: seq<TextEntry>, size: Size): (r: seq<Result<Option<Word>, ParseError>>)
    ensures |r| == |raw|
  {
    seq(|raw|, i requires 0 <= i < |raw| => ParseWord(raw[i], size))
  }

  /** `parse_rek_text(raw, img.size)`. */
  function Words(raw: seq<TextEntry>, size: Size): Result<seq<Word>, ParseError> {
    Gather(TextResults(raw, size))
  }

  /** Only `WORD` entries give output; every other type gives nothing. */
  lemma WordOnly(e: TextEntry, size: Size)
    requires ParseWord(e, size).Ok?
    ensures ParseWord(e, size).value.Some? <==> e.kind == Some("WORD")
    ensures ParseWord(e, size).value.Some? ==> ParseWord(e, size).value.value.text == e.detectedText.value
  {
  }

  /** The output is the words of the entries, concatenated in entry order. */
  lemma WordsInOrder(a: seq<TextEntry>, b: seq<TextEntry>, size: Size)
    requires Words(a + b, size).Ok?
    ensures Words(a, size).Ok? && Words(b, size).Ok?
    ensures Words(a + b, size).value == Words(a, size).value + Words(b, size).value
  {
    TextResultsAppend(a, b, size);
    GatherAppend(TextResults(a, size), TextResults(b, size));
  }

  /** A parse of two runs of items succeeds only if each does, and concatenates their entries. */
  lemma GatherAppend<T>(ra: seq<Result<Option<T>, ParseError>>, rb: seq<Result<Option<T>, ParseError>>)
    requires Gather(ra + rb).Ok?
    ensures Gather(ra).Ok? && Gather(rb).Ok?
    ensures Gather(ra + rb).value == Gather(ra).value + Gather(rb).value
  {
    GatherOk(ra + rb);
    assert forall i :: 0 <= i < |ra| ==> ra[i] == (ra + rb)[i];
    assert forall i :: 0 <= i < |rb| ==> rb[i] == (ra + rb)[|ra| + i];
    GatherOk(ra);
    GatherOk(rb);
    KeptAppend(ra, rb);
  }

  lemma TextResultsAppend(a: seq<TextEntry>, b: seq<TextEntry>, size: Size)
    ensures TextResults(a + b, size) == TextResults(a, size) + TextResults(b, size)
  {
    var ra, rb, rab := TextResults(a, size), TextResults(b, size), TextResults(a + b, size);
    assert forall i :: 0 <= i < |rab| ==> rab[i] == (ra + rb)[i] by {
      forall i | 0 <= i < |rab|
        ensures rab[i] == (ra + rb)[i]
      {
        if i < |a| {
          assert (a + b)[i] == a[i];
        } else {
          assert (a + b)[i] == b[i - |a|];
        }
      }
    }
  }

  /** A `LINE` entry missing a mandatory key still fails the whole parse. */
  lemma LinesStillChecked(raw: seq<TextEntry>, size: Size, j: nat)
    requires j < |raw| && !HasTextKeys(raw[j]) && raw[j].kind == Some("LINE")
    requires forall i :: 0 <= i < j ==> ParseWord(raw[i], size).Ok?
    ensures Words(raw, size) == Err(MissingMandatory)
  {
    GatherFirstErr(TextResults(raw, size), j);
  }

  /** A missing `Type` is a `KeyError`, since `Type` is not checked up front. */
  lemma MissingTypeIsKeyError(e: TextEntry, size: Size)
    requires HasTextKeys(e) && e.geometry.value.boundingBox.Some? && e.kind.None?
    ensures Words([e], size) == Err(MissingKey("Type"))
  {
    GatherFirstErr(TextResults([e], size), 0);
  }

  // ---------------------------------------------------------------------------
  // Parser loops

  method ParseDetect(raw: seq<LabelEntry>, size: Size) returns (r: Result<seq<Detection>, ParseError>)
    ensures r == Detections(raw, size)
  {
    var output: seq<Detection> := [];
    var i := 0;
    while i < |raw|
      invariant 0 <= i <= |raw|
      invariant Gather(LabelResults(raw, size)[..i]) == Ok(output)
    {
      var item := ParseLabel(raw[i], size);
      if item.Err? {
        GatherOk(LabelResults(raw, size)[..i]);
        assert forall k :: 0 <= k < i ==> LabelResults(raw, size)[..i][k] == LabelResults(raw, size)[k];
        GatherFirstErr(LabelResults(raw, size), i);
        return Err(item.error);
      }
      GatherStep(LabelResults(raw, size), i, output);
      output := output + [item.value.value];
      i := i + 1;
    }
    assert LabelResults(raw, size)[..i] == LabelResults(raw, size);
    return Ok(output);
  }

  method ParseFaces(raw: seq<FaceEntry>, size: Size) returns (r: Result<seq<Face>, ParseError>)
    ensures r == Faces(raw, size)
  {
    var output: seq<Face> := [];
    var i := 0;
    while i < |raw|
      invariant 0 <= i <= |raw|
      invariant Gather(FaceResults(raw, size)[..i]) == Ok(output)
    {
      var item := ParseFace(raw[i], size);
      if item.Err? {
        GatherOk(FaceResults(raw, size)[..i]);
        assert forall k :: 0 <= k < i ==> FaceResults(raw, size)[..i][k] == FaceResults(raw, size)[k];
        GatherFirstErr(FaceResults(raw, size), i);
        return Err(item.error);
      }
      GatherStep(FaceResults(raw, size), i, output);
      output := output + [item.value.value];
      i := i + 1;
    }
    assert FaceResults(raw, size)[..i] == FaceResults(raw, size);
    return Ok(output);
  }

  method ParseText(raw: seq<TextEntry>, size: Size) returns (r: Result<seq<Word>, ParseError>)
    ensures r == Words(raw, size)
  {
    var output: seq<Word> := [];
    var i := 0;
    while i < |raw|
      invariant 0 <= i <= |raw|
      invariant Gather(TextResults(raw, size)[..i]) == Ok(output)
    {
      var item := ParseWord(raw[i], size);
      if item.Err? {
        GatherOk(TextResults(raw, size)[..i]);
        assert forall k :: 0 <= k < i ==> TextResults(raw, size)[..i][k] == TextResults(raw, size)[k];
        GatherFirstErr(TextResults(raw, size), i);
        return Err(item.error);
      }
      GatherStep(TextResults(raw, size), i, output);
      if item.value.Some? {
        output := output + [item.value.value];
      }
      i := i + 1;
    }
    assert TextResults(raw, size)[..i] == TextResults(raw, size);
    return Ok(output);
  }

  // ---------------------------------------------------------------------------
  // The colour cache

  /** `randint(0, 255)`. */
  type Channel = c: int | 0 <= c <= 255

  datatype Rgb = Rgb(r: Channel, g: Channel, b: Channel)

  /**
   * The colour cache after `keys` have been looked up in order, and how many random
   * colours that took: a key not yet cached gets the next random colour `draw(n)`.
   */
  function Assign(colours: map<string, Rgb>, keys: seq<string>, draw: nat -> Rgb): (map<string, Rgb>, nat) {
    if keys == [] then (colours, 0)
    else
      var (m, used) := Assign(colours, keys[..|keys| - 1], draw);
      var k := keys[|keys| - 1];
      if k in m then (m, used) else (m[k := draw(used)], used + 1)
  }

  /** Every key looked up ends up cached, and no other key is added. */
  lemma {:induction false} AssignKeys(colours: map<string, Rgb>, keys: seq<string>, draw: nat -> Rgb)
    ensures forall k :: k in Assign(colours, keys, draw).0 <==> k in colours || k in keys
  {
    if keys != [] {
      AssignKeys(colours, keys[..|keys| - 1], draw);
      assert forall k :: k in keys <==> k in keys[..|keys| - 1] || k == keys[|keys| - 1];
    }
  }

  /** A cached colour never changes. */
  lemma {:induction false} AssignKeeps(colours: map<string, Rgb>, keys: seq<string>, draw: nat -> Rgb)
    ensures forall k :: k in colours ==> k in Assign(colours, keys, draw).0 && Assign(colours, keys, draw).0[k] == colours[k]
  {
    if keys != [] {
      AssignKeeps(colours, keys[..|keys| - 1], draw);
    }
  }

  /** Each random colour drawn went to a key that was not cached before. */
  lemma {:induction false} AssignCount(colours: map<string, Rgb>, keys: seq<string>, draw: nat -> Rgb)
    ensures |colours.Keys| + Assign(colours, keys, draw).1 == |Assign(colours, keys, draw).0.Keys|
  {
    if keys != [] {
      AssignCount(colours, keys[..|keys| - 1], draw);
      var (m, used) := Assign(colours, keys[..|keys| - 1], draw);
      var k := keys[|keys| - 1];
      if k !in m {
        assert m[k := draw(used)].Keys == m.Keys + {k};
      }
    }
  }

  /** Keys already cached draw nothing and leave the cache as it is. */
  lemma {:induction false} AssignCached(m: map<string, Rgb>, keys: seq<string>, draw: nat -> Rgb)
    requires forall i :: 0 <= i < |keys| ==> keys[i] in m
    ensures Assign(m, keys, draw) == (m, 0)
  {
    if keys != [] {
      AssignCached(m, keys[..|keys| - 1], draw);
    }
  }

  /** Looking the same keys up again changes nothing and draws nothing. */
  lemma AssignAgain(colours: map<string, Rgb>, keys: seq<string>, draw: nat -> Rgb, draw': nat -> Rgb)
    ensures var m := Assign(colours, keys, draw).0;
      Assign(m, keys, draw') == (m, 0)
  {
    AssignKeys(colours, keys, draw);
    AssignCached(Assign(colours, keys, draw).0, keys, draw');
  }

  /** `face{i}`: the cache key of the i-th face. */
  function FaceKey(i: nat): string {
    "face" + Key(i)
  }

  function FaceKeys(n: nat): (r: seq<string>)
    ensures |r| == n
  {
    seq(n, i requires 0 <= i < n => FaceKey(i))
  }

  /** Different faces have different keys, so never share a cache entry. */
  lemma FaceKeyInjective(i: nat, j: nat)
    requires FaceKey(i) == FaceKey(j)
    ensures i == j
  {
    assert FaceKey(i)[4..] == Key(i);
    assert FaceKey(j)[4..] == Key(j);
    KeyInjective(i, j);
  }

  /**
   * A face keeps its colour from frame to frame: once face i has a colour, later frames
   * (any number of faces, any random draws) leave it as it was.
   */
  lemma FaceColourStable(colours: map<string, Rgb>, n: nat, m: nat, draw: nat -> Rgb, draw': nat -> Rgb, i: nat)
    requires i < n
    ensures var c1 := Assign(colours, FaceKeys(n), draw).0;
      var c2 := Assign(c1, FaceKeys(m), draw').0;
      FaceKey(i) in c1 && FaceKey(i) in c2 && c2[FaceKey(i)] == c1[FaceKey(i)]
  {
    var c1 := Assign(colours, FaceKeys(n), draw).0;
    AssignKeys(colours, FaceKeys(n), draw);
    assert FaceKeys(n)[i] == FaceKey(i);
    AssignKeeps(c1, FaceKeys(m), draw');
  }

  /** A bounding box drawn by the visualiser, with its caption. */
  datatype BoxDrawing = BoxDrawing(box: PixelBox, colour: Rgb, caption: string)

  /** A face drawn by the visualiser: its box, captioned, and a dot per landmark, all in one colour. */
  datatype FaceDrawing = FaceDrawing(box: PixelBox, landmarks: map<string, Point>, colour: Rgb, caption: string)

  /** The labels of the detections, in order. */
  function Labels(parsed: seq<Detection>): (r: seq<string>)
    ensures |r| == |parsed|
  {
    seq(|parsed|, i requires 0 <= i < |parsed| => parsed[i].name)
  }

  /** The instances of one detection, in order, in the given colour. */
  function InstanceDrawings(d: Detection, colour: Rgb): (r: seq<BoxDrawing>)
    ensures |r| == |d.instances|
  {
    seq(|d.instances|, j requires 0 <= j < |d.instances| => BoxDrawing(d.instances[j], colour, d.name))
  }

  predicate LabelsCached(parsed: seq<Detection>, colours: map<string, Rgb>) {
    forall i :: 0 <= i < |parsed| ==> parsed[i].name in colours
  }

  /** Every instance of every detection, in order, in its label's colour. */
  function DetectionDrawings(parsed: seq<Detection>, colours: map<string, Rgb>): seq<BoxDrawing>
    requires LabelsCached(parsed, colours)
  {
    if parsed == [] then []
    else
      var d := parsed[|parsed| - 1];
      DetectionDrawings(parsed[..|parsed| - 1], colours) + InstanceDrawings(d, colours[d.name])
  }

  /** Two caches that agree on the labels drawn give the same drawings. */
  lemma {:induction false} DetectionDrawingsAgree(parsed: seq<Detection>, c1: map<string, Rgb>, c2: map<string, Rgb>)
    requires LabelsCached(parsed, c1) && LabelsCached(parsed, c2)
    requires forall i :: 0 <= i < |parsed| ==> c1[parsed[i].name] == c2[parsed[i].name]
    ensures DetectionDrawings(parsed, c1) == DetectionDrawings(parsed, c2)
  {
    if parsed != [] {
      DetectionDrawingsAgree(parsed[..|parsed| - 1], c1, c2);
    }
  }

  predicate FacesCached(n: nat, colours: map<string, Rgb>) {
    forall i :: 0 <= i < n ==> FaceKey(i) in colours
  }

  /** Every face, in order, in that face's colour, captioned with its key. */
  function FaceDrawings(parsed: seq<Face>, colours: map<string, Rgb>): (r: seq<FaceDrawing>)
    requires FacesCached(|parsed|, colours)
    ensures |r| == |parsed|
  {
    seq(|parsed|, i requires 0 <= i < |parsed| =>
      FaceDrawing(parsed[i].boundingBox, parsed[i].landmarks, colours[FaceKey(i)], FaceKey(i)))
  }

  /** One more key looked up: the step of `Assign`. */
  lemma AssignSnoc(c0: map<string, Rgb>, keys: seq<string>, i: nat, draw: nat -> Rgb)
    requires i < |keys|
    ensures Assign(c0, keys[..i + 1], draw) ==
      var (m, used) := Assign(c0, keys[..i], draw);
      if keys[i] in m then (m, used) else (m[keys[i] := draw(used)], used + 1)
  {
    assert keys[..i + 1][..i] == keys[..i];
  }

  /** Caching a colour for a new key leaves the drawings of the labels already cached alone. */
  lemma DetectionDrawingsGrow(parsed: seq<Detection>, before: map<string, Rgb>, after: map<string, Rgb>, key: string, x: Rgb)
    requires LabelsCached(parsed, before)
    requires after == before || (key !in before && after == before[key := x])
    ensures LabelsCached(parsed, after) && DetectionDrawings(parsed, after) == DetectionDrawings(parsed, before)
  {
    DetectionDrawingsAgree(parsed, before, after);
  }

  lemma DetectionDrawingsSnoc(parsed: seq<Detection>, i: nat, colours: map<string, Rgb>)
    requires i < |parsed| && LabelsCached(parsed[..i], colours) && parsed[i].name in colours
    ensures LabelsCached(parsed[..i + 1], colours)
    ensures DetectionDrawings(parsed[..i + 1], colours)
      == DetectionDrawings(parsed[..i], colours) + InstanceDrawings(parsed[i], colours[parsed[i].name])
  {
    assert parsed[..i + 1][..i] == parsed[..i];
  }

  lemma FaceDrawingsGrow(faces: seq<Face>, i: nat, before: map<string, Rgb>, after: map<string, Rgb>, x: Rgb)
    requires i < |faces| && FacesCached(i, before)
    requires after == before || (FaceKey(i) !in before && after == before[FaceKey(i) := x])
    requires FaceKey(i) in after
    ensures FacesCached(i + 1, after)
    ensures FaceDrawings(faces[..i + 1], after)
      == FaceDrawings(faces[..i], before) + [FaceDrawing(faces[i].boundingBox, faces[i].landmarks, after[FaceKey(i)], FaceKey(i))]
  {
    var lhs := FaceDrawings(faces[..i + 1], after);
    var rhs := FaceDrawings(faces[..i], before) + [FaceDrawing(faces[i].boundingBox, faces[i].landmarks, after[FaceKey(i)], FaceKey(i))];
    forall k | 0 <= k < i
      ensures lhs[k] == rhs[k]
    {
      assert FaceKey(k) in before;
    }
  }

  /** One pass of the face loop keeps the loop's invariant. */
  lemma ColourFaceStep(c0: map<string, Rgb>, faces: seq<Face>, i: nat, draw: nat -> Rgb,
                       colours: map<string, Rgb>, used: nat, drawings: seq<FaceDrawing>)
    requires i < |faces|
    requires (colours, used) == Assign(c0, FaceKeys(|faces|)[..i], draw)
    requires FacesCached(i, colours) && drawings == FaceDrawings(faces[..i], colours)
    ensures var (c', u') := if FaceKey(i) in colours then (colours, used) else (colours[FaceKey(i) := draw(used)], used + 1);
      && (c', u') == Assign(c0, FaceKeys(|faces|)[..i + 1], draw)
      && FaceKey(i) in c' && FacesCached(i + 1, c')
      && drawings + [FaceDrawing(faces[i].boundingBox, faces[i].landmarks, c'[FaceKey(i)], FaceKey(i))] == FaceDrawings(faces[..i + 1], c')
  {
    AssignSnoc(c0, FaceKeys(|faces|), i, draw);
    assert FaceKeys(|faces|)[i] == FaceKey(i);
    var c' := if FaceKey(i) in colours then colours else colours[FaceKey(i) := draw(used)];
    FaceDrawingsGrow(faces, i, colours, c', draw(used));
  }

  /** The visualiser's state: the colour cache. */
  class AwsVisualiser {
    var colours: map<string, Rgb>

    constructor ()
      ensures colours == map[]
    {
      colours := map[];
    }

    /** `'r'` empties the cache; every other key leaves it unchanged. */
    method HandleCommand(key: char)
      modifies this
      ensures key == 'r' ==> colours == map[]
      ensures key != 'r' ==> colours == old(colours)
    {
      if key == 'r' {
        colours := map[];
      }
    }

    /** `if key not in COLOURS: COLOURS[key] = (randint(0, 255), ...)`, as draw number `used`. */
    method CacheColour(key: string, draw: nat -> Rgb, used: nat) returns (used': nat)
      modifies this
      ensures (colours, used') == (if key in old(colours) then (old(colours), used) else (old(colours)[key := draw(used)], used + 1))
    {
      used' := used;
      if key !in colours {
        colours := colours[key := draw(used)];
        used' := used + 1;
      }
    }

    /**
     * The detections part of `visualise`: parse, then colour and draw. A `ValueError` is
     * caught and the detections are skipped; a `KeyError` escapes. The cache changes
     * only when the parse succeeds.
     */
    method VisualiseDetections(raw: seq<LabelEntry>, size: Size, draw: nat -> Rgb) returns (r: Result<seq<BoxDrawing>, ParseError>)
      modifies this
      ensures Detections(raw, size).Err? ==> colours == old(colours)
      ensures Detections(raw, size) == Err(MissingMandatory) ==> r == Ok([])
      ensures Detections(raw, size).Err? && Detections(raw, size).error.MissingKey? ==> r == Err(Detections(raw, size).error)
      ensures Detections(raw, size).Ok? ==>
        var parsed := Detections(raw, size).value;
        && colours == Assign(old(colours), Labels(parsed), draw).0
        && LabelsCached(parsed, colours)
        && r == Ok(DetectionDrawings(parsed, colours))
    {
      var parsed := ParseDetect(raw, size);
      if parsed.Err? {
        if parsed.error == MissingMandatory {
          return Ok([]);
        }
        return Err(parsed.error);
      }
      var drawings := ColourDetections(parsed.value, draw);
      return Ok(drawings);
    }

    /** Per detection: make sure its label has a colour, then draw its instances in it. */
    method ColourDetections(items: seq<Detection>, draw: nat -> Rgb) returns (drawings: seq<BoxDrawing>)
      modifies this
      ensures colours == Assign(old(colours), Labels(items), draw).0
      ensures LabelsCached(items, colours) && drawings == DetectionDrawings(items, colours)
    {
      drawings := [];
      var used := 0;
      var i := 0;
      ghost var c0 := colours;
      while i < |items|
        invariant 0 <= i <= |items|
        invariant (colours, used) == Assign(c0, Labels(items)[..i], draw)
        invariant LabelsCached(items[..i], colours)
        invariant drawings == DetectionDrawings(items[..i], colours)
      {
        AssignSnoc(c0, Labels(items), i, draw);
        ghost var before, u := colours, used;
        used := CacheColour(items[i].name, draw, used);
        DetectionDrawingsGrow(items[..i], before, colours, items[i].name, draw(u));
        DetectionDrawingsSnoc(items, i, colours);
        var ds := DrawInstances(items[i], colours[items[i].name]);
        drawings := drawings + ds;
        i := i + 1;
      }
      assert items[..i] == items;
      assert Labels(items)[..i] == Labels(items);
    }

    /** `for instance in item["instances"]: draw_boundingbox(...)`. */
    static method DrawInstances(d: Detection, colour: Rgb) returns (ds: seq<BoxDrawing>)
      ensures ds == InstanceDrawings(d, colour)
    {
      ds := [];
      var j := 0;
      while j < |d.instances|
        invariant 0 <= j <= |d.instances|
        invariant ds == InstanceDrawings(d, colour)[..j]
      {
        ds := ds + [BoxDrawing(d.instances[j], colour, d.name)];
        j := j + 1;
      }
    }

    /**
     * The faces part of `visualise`: parse, then colour and draw; a `ValueError` is caught
     * and the faces are skipped, leaving the cache unchanged.
     */
    method VisualiseFaces(raw: seq<FaceEntry>, size: Size, draw: nat -> Rgb) returns (r: seq<FaceDrawing>)
      modifies this
      ensures Faces(raw, size).Err? ==> colours == old(colours) && r == []
      ensures Faces(raw, size).Ok? ==>
        var parsed := Faces(raw, size).value;
        && colours == Assign(old(colours), FaceKeys(|parsed|), draw).0
        && FacesCached(|parsed|, colours)
        && r == FaceDrawings(parsed, colours)
    {
      var parsed := ParseFaces(raw, size);
      if parsed.Err? {
        return [];
      }
      r := ColourFaces(parsed.value, draw);
    }

    /** Face i is keyed `face{i}`, gets a colour if it has none, and is drawn in it. */
    method ColourFaces(faces: seq<Face>, draw: nat -> Rgb) returns (drawings: seq<FaceDrawing>)
      modifies this
      ensures colours == Assign(old(colours), FaceKeys(|faces|), draw).0
      ensures FacesCached(|faces|, colours) && drawings == FaceDrawings(faces, colours)
    {
      drawings := [];
      var used := 0;
      var i := 0;
      ghost var c0 := colours;
      while i < |faces|
        invariant 0 <= i <= |faces|
        invariant (colours, used) == Assign(c0, FaceKeys(|faces|)[..i], draw)
        invariant FacesCached(i, colours)
        invariant drawings == FaceDrawings(faces[..i], colours)
      {
        var key := FaceKey(i);
        ColourFaceStep(c0, faces, i, draw, colours, used, drawings);
        used := CacheColour(key, draw, used);
        drawings := drawings + [FaceDrawing(faces[i].boundingBox, faces[i].landmarks, colours[key], key)];
        i := i + 1;
      }
      assert faces[..i] == faces;
      assert FaceKeys(|faces|)[..i] == FaceKeys(|faces|);
    }
  }
}
