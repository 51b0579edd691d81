/** The pixel formats an image can be held in. */
module ImageTypes {

  datatype ImageType = Unset | Numpy | OpenCV | Pillow

  /** The formats an image really holds data in (every type but UNSET). */
  const Formats: set<ImageType> := {Numpy, OpenCV, Pillow}
}
