/**
 * The `Image` wrapper: image data held in one original format, with a per-format
 * cache that `get` fills lazily by converting the original.
 */
module Images {
  import opened Wrappers
  import opened Frames
  import opened ImageTypes
  import opened Convert

  /**
   * What `get(t)` yields for an image whose original data `data` is in format `orig`:
   * an error for a type without a slot, the original itself, or its conversion.
   */
  function View(orig: ImageType, data: Pixels, t: ImageType): (r: Result<Pixels, ImageError>)
    ensures t in Formats && t == orig ==> r == Ok(data)
    ensures r.Err? ==> r == Err(UnsupportedType(t)) || r == Err(NoRoute(orig, t))
  {
    if t !in Formats then Err(UnsupportedType(t))
    else if t == orig then Ok(data)
    else ConvertImage(data, orig, t)
  }

  /**
   * Which views exist: every image can be read as NumPy and as OpenCV data, only an
   * image that was created from a PIL image can be read as PIL, and UNSET never.
   */
  lemma {:induction false} ViewsOfFormats(orig: ImageType, data: Pixels)
    requires orig in Formats
    ensures View(orig, data, Numpy).Ok? && View(orig, data, OpenCV).Ok?
    ensures View(orig, data, Pillow).Ok? <==> orig == Pillow
    ensures View(orig, data, Unset) == Err(UnsupportedType(Unset))
  {
    ReachableFormats(data, orig);
  }

  class Image {
    var origType: ImageType
    /** One slot per real format; None until that format is requested. */
    var slots: map<ImageType, Option<Pixels>>

    /** The cache is coherent: every filled slot holds the view of the original. */
    ghost predicate Valid()
      reads this
    {
      && slots.Keys == Formats
      && origType in Formats
      && slots[origType].Some?
      && forall t :: t in slots && slots[t].Some? ==> View(origType, slots[origType].value, t) == Ok(slots[t].value)
    }

    function Original(): Pixels
      reads this
      requires Valid()
    {
      slots[origType].value
    }

    /** The body of `__init__` once `get_type` has succeeded; `copy` makes no difference to values. */
    constructor Wrap(t: ImageType, data: Pixels)
      requires t in Formats
      ensures Valid() && origType == t && Original() == data
      ensures forall u :: u in slots && u != t ==> slots[u] == None
    {
      origType := t;
      slots := map[Numpy := None, OpenCV := None, Pillow := None][t := Some(data)];
    }

    /** `Image(img, copy, opencv)`: raises `ValueError` when `img` is not an image. */
    static method Create(img: RawImage, opencv: bool) returns (r: Result<Image, ImageError>)
      ensures r.Err? <==> img.Other?
      ensures r.Err? ==> r.error == UnknownType
      ensures r.Ok? ==> fresh(r.value) && r.value.Valid()
      ensures r.Ok? ==> Ok(r.value.origType) == GetType(img, opencv) && r.value.Original() == img.pixels
      ensures r.Ok? ==> forall u :: u in r.value.slots && u != r.value.origType ==> r.value.slots[u] == None
    {
      var t := GetType(img, opencv);
      if t.Err? {
        return Err(t.error);
      }
      var image := new Image.Wrap(t.value, img.pixels);
      return Ok(image);
    }

    /**
     * `get(t)`: the view of the original in format `t`. A filled slot is returned as
     * it is; an empty one is filled with the conversion, unless the conversion raises.
     */
    method Get(t: ImageType) returns (r: Result<Pixels, ImageError>)
      requires Valid()
      modifies this
      ensures Valid() && origType == old(origType) && Original() == old(Original())
      ensures r == View(origType, Original(), t)
      ensures r.Ok? ==> slots == old(slots)[t := Some(r.value)]
      ensures r.Err? ==> slots == old(slots)
      ensures t in old(slots) && old(slots)[t].Some? ==> slots == old(slots)
    {
      if t !in slots {
        return Err(UnsupportedType(t));
      }
      if slots[t].None? {
        var converted := ConvertImage(slots[origType].value, origType, t);
        if converted.Err? {
          return Err(converted.error);
        }
        slots := slots[t := Some(converted.value)];
      }
      return Ok(slots[t].value);
    }

    method AsNumpy() returns (r: Result<Pixels, ImageError>)
      requires Valid()
      modifies this
      ensures Valid() && origType == old(origType) && Original() == old(Original())
      ensures r == View(origType, Original(), Numpy) && r.Ok?
      ensures slots == old(slots)[Numpy := Some(r.value)]
    {
      ViewsOfFormats(origType, Original());
      r := Get(Numpy);
    }

    method AsOpenCV() returns (r: Result<Pixels, ImageError>)
      requires Valid()
      modifies this
      ensures Valid() && origType == old(origType) && Original() == old(Original())
      ensures r == View(origType, Original(), OpenCV) && r.Ok?
      ensures slots == old(slots)[OpenCV := Some(r.value)]
    {
      ViewsOfFormats(origType, Original());
      r := Get(OpenCV);
    }

    method AsPil() returns (r: Result<Pixels, ImageError>)
      requires Valid()
      modifies this
      ensures Valid() && origType == old(origType) && Original() == old(Original())
      ensures r == View(origType, Original(), Pillow)
      ensures r.Ok? <==> origType == Pillow
      ensures r.Ok? ==> slots == old(slots)[Pillow := Some(r.value)]
      ensures r.Err? ==> slots == old(slots)
    {
      ViewsOfFormats(origType, Original());
      r := Get(Pillow);
    }
  }
}
