/**
 * Pixel-format routing: the type of a raw image value, the table of direct
 * conversions, and `convert`, which applies a direct conversion when the table has
 * one and otherwise goes through exactly one intermediate format.
 */
module Convert {
  import opened Wrappers
  import opened Frames
  import opened ImageTypes

  /** A Python value handed to the image layer. */
  datatype RawImage =
    | NdArray(pixels: Pixels)   // a numpy.ndarray
    | PilImage(pixels: Pixels)  // a PIL.Image.Image
    | Other                     // anything else

  /** The `ValueError`s of the image layer. */
  datatype ImageError =
    | UnknownType                                    // get_type on a value that is not an image
    | NoRoute(source: ImageType, target: ImageType)  // no path of one or two conversions
    | UnsupportedType(target: ImageType)             // Image.get of a type it has no slot for

  /** `get_type(img, opencv)`. */
  function GetType(img: RawImage, opencv: bool): (r: Result<ImageType, ImageError>)
    ensures r.Ok? <==> !img.Other?
    ensures r.Ok? ==> r.value in Formats
    ensures r == Ok(OpenCV) <==> img.NdArray? && opencv
    ensures r == Ok(Pillow) <==> img.PilImage?
  {
    if img.NdArray? && opencv then Ok(OpenCV)
    else if img.NdArray? then Ok(Numpy)
    else if img.PilImage? then Ok(Pillow)
    else Err(UnknownType)
  }

  /** The table `CONVERSIONS` of direct conversions. */
  const Conversions: map<(ImageType, ImageType), Conversion> :=
    map[(Pillow, Numpy) := NpArray, (Numpy, OpenCV) := RgbToBgr, (OpenCV, Numpy) := BgrToRgb]

  /** `mid` is an admissible intermediate between `source` and `target`. */
  predicate Hop(source: ImageType, mid: ImageType, target: ImageType) {
    && mid !in {Unset, source, target}
    && (source, mid) in Conversions
    && (mid, target) in Conversions
  }

  /** How `convert` gets from one format to another. */
  datatype Route =
    | Direct(conversion: Conversion)
    | Via(mid: ImageType, first: Conversion, second: Conversion)

  /**
   * The search over candidate intermediates in the order given; the source iterates
   * over a Python set, whose order is not specified (see `RouteIndependentOfOrder`).
   */
  function SearchVia(source: ImageType, target: ImageType, candidates: seq<ImageType>): (r: Result<Route, ImageError>)
    ensures r.Ok? ==> r.value.Via? && r.value.mid in candidates && Hop(source, r.value.mid, target)
    ensures r.Ok? ==> (r.value.first == Conversions[(source, r.value.mid)] &&
                       r.value.second == Conversions[(r.value.mid, target)])
    ensures r.Err? <==> forall m :: m in candidates ==> !Hop(source, m, target)
    ensures r.Err? ==> r == Err(NoRoute(source, target))
  {
    if candidates == [] then Err(NoRoute(source, target))
    else if Hop(source, candidates[0], target) then
      Ok(Via(candidates[0], Conversions[(source, candidates[0])], Conversions[(candidates[0], target)]))
    else SearchVia(source, target, candidates[1..])
  }

  /** `set(ImageType) - {UNSET, source, target}`, listed in declaration order. */
  function Candidates(source: ImageType, target: ImageType): (c: seq<ImageType>)
    ensures forall m :: m in c <==> m !in {Unset, source, target}
  {
    assert forall m: ImageType :: m in [Numpy, OpenCV, Pillow] <==> m != Unset;
    Filter([Numpy, OpenCV, Pillow], source, target)
  }

  function Filter(all: seq<ImageType>, source: ImageType, target: ImageType): (c: seq<ImageType>)
    ensures forall m :: m in c <==> m in all && m !in {Unset, source, target}
  {
    if all == [] then []
    else (if all[0] in {Unset, source, target} then [] else [all[0]]) + Filter(all[1..], source, target)
  }

  /** The route `convert` takes from `source` to `target`, or the error it raises. */
  function FindRoute(source: ImageType, target: ImageType): (r: Result<Route, ImageError>)
    ensures r.Ok? && r.value.Direct? <==> (source, target) in Conversions
    ensures r.Ok? && r.value.Via? ==> Hop(source, r.value.mid, target)
    ensures r.Err? <==> (source, target) !in Conversions && forall m :: !Hop(source, m, target)
  {
    if (source, target) in Conversions then Ok(Direct(Conversions[(source, target)]))
    else SearchVia(source, target, Candidates(source, target))
  }

  /** `convert(img, source_type, target_type)`. */
  function ConvertImage(img: Pixels, source: ImageType, target: ImageType): (r: Result<Pixels, ImageError>)
    ensures (source, target) in Conversions ==> r == Ok(Converted(Conversions[(source, target)], img))
    ensures (source, target) !in Conversions && r.Ok? ==>
      exists m :: Hop(source, m, target) && r.value == Converted(Conversions[(m, target)], Converted(Conversions[(source, m)], img))
    ensures (source, target) !in Conversions ==> (r.Ok? <==> exists m :: Hop(source, m, target))
    ensures r.Err? ==> r == Err(NoRoute(source, target))
  {
    match FindRoute(source, target)
    case Ok(Direct(c)) => Ok(Converted(c, img))
    case Ok(Via(m, c1, c2)) => Ok(Converted(c2, Converted(c1, img)))
    case Err(e) => Err(e)
  }

  /** With this table at most one intermediate format ever qualifies. */
  lemma HopUnique(source: ImageType, target: ImageType, m1: ImageType, m2: ImageType)
    requires Hop(source, m1, target) && Hop(source, m2, target)
    ensures m1 == m2
  {
  }

  /** So the order in which the set of candidates is searched does not change the route. */
  lemma RouteIndependentOfOrder(source: ImageType, target: ImageType, order: seq<ImageType>)
    requires forall m :: m in order <==> m in Candidates(source, target)
    ensures SearchVia(source, target, order) == SearchVia(source, target, Candidates(source, target))
  {
    var a := SearchVia(source, target, order);
    var b := SearchVia(source, target, Candidates(source, target));
    if a.Ok? && b.Ok? {
      HopUnique(source, target, a.value.mid, b.value.mid);
    }
  }

  /** The routes the table gives between distinct formats. */
  lemma TableRoutes()
    ensures FindRoute(Pillow, OpenCV) == Ok(Via(Numpy, NpArray, RgbToBgr))
    ensures FindRoute(Numpy, Pillow) == Err(NoRoute(Numpy, Pillow))
    ensures FindRoute(OpenCV, Pillow) == Err(NoRoute(OpenCV, Pillow))
    ensures FindRoute(Pillow, Numpy) == Ok(Direct(NpArray))
    ensures FindRoute(Numpy, OpenCV) == Ok(Direct(RgbToBgr))
    ensures FindRoute(OpenCV, Numpy) == Ok(Direct(BgrToRgb))
  {
    assert !Hop(Numpy, OpenCV, Pillow) && !Hop(OpenCV, Numpy, Pillow);
    assert Hop(Pillow, Numpy, OpenCV);
  }

  /** Every real format can be turned into OpenCV data; none but PILLOW itself into PIL. */
  lemma ReachableFormats(img: Pixels, source: ImageType)
    requires source in Formats
    ensures ConvertImage(img, source, OpenCV).Ok?
    ensures ConvertImage(img, source, Numpy).Ok?
    ensures source != Pillow ==> ConvertImage(img, source, Pillow).Err?
  {
    TableRoutes();
    if source == OpenCV {
      assert Hop(OpenCV, Numpy, OpenCV);
    } else if source == Numpy {
      assert Hop(Numpy, OpenCV, Numpy);
    }
    assert !Hop(source, Numpy, Pillow) && !Hop(source, OpenCV, Pillow);
  }
}
