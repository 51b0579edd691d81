/**
 * Pixel data and the library calls that produce it. The model never looks inside an
 * image: a captured frame is an opaque value, and every OpenCV/NumPy/PIL operation the
 * source applies to pixels is a constructor of `Pixels`, i.e. an uninterpreted function
 * of its arguments. Two images are equal exactly when they were produced by the same
 * operations from the same captured frames.
 */
module Frames {

  /** A point in image coordinates. */
  datatype Point = Point(x: real, y: real)

  /** A point on the calibration target, in centimetres. */
  datatype Point3 = Point3(x: real, y: real, z: real)

  /** The chessboard corners the detector found in one image. */
  datatype Corners = Corners(points: seq<Point>)

  /** `img.shape[1::-1]`: width, then height. */
  datatype Size = Size(width: nat, height: nat)

  /** The pixel-format conversions of the conversion table (image layer). */
  datatype Conversion =
    | NpArray   // np.array on a PIL image
    | RgbToBgr  // cv2.cvtColor(img, COLOR_RGB2BGR)
    | BgrToRgb  // cv2.cvtColor(img, COLOR_BGR2RGB)

  /** What the source draws on an image. */
  datatype Mark =
    | ChessboardCorners(grey: Pixels, corners: Corners) // cv2.drawChessboardCorners at cv2.cornerSubPix(grey, corners)
    | CalibrationBorder(patternFound: bool)          // a green, or a red, frame
    | TrackLine(from: Point, to: Point, colour: nat) // cv2.line on the optical-flow mask
    | TrackDot(at: Point, colour: nat)               // cv2.circle on the current frame

  /**
   * The result of `calibrate_camera(world_points, img_points, img_size)`: the
   * intrinsic matrix, distortion, crop matrix and poses are all functions of these three.
   */
  datatype CameraParams = CameraParams(worldPoints: seq<seq<Point3>>, imagePoints: seq<Corners>, imageSize: Size)

  datatype Pixels =
    | Captured(id: nat, size: Size)                  // a frame from a stream
    | Converted(conversion: Conversion, src: Pixels) // a pixel-format conversion
    | Grey(src: Pixels)                              // cv2.cvtColor(img, COLOR_BGR2GRAY)
    | ZerosLike(src: Pixels)                         // np.zeros_like(img)
    | Drawn(src: Pixels, marks: seq<Mark>)           // drawing calls on a copy of src
    | Added(base: Pixels, overlay: Pixels)           // cv2.add(img, mask)
    | Undistorted(src: Pixels, params: CameraParams) // cv2.undistort with the camera's parameters

  /** The image size; every operation keeps the size of its (first) input. */
  function SizeOf(p: Pixels): Size {
    match p
    case Captured(_, size) => size
    case Converted(_, src) => SizeOf(src)
    case Grey(src) => SizeOf(src)
    case ZerosLike(src) => SizeOf(src)
    case Drawn(src, _) => SizeOf(src)
    case Added(base, _) => SizeOf(base)
    case Undistorted(src, _) => SizeOf(src)
  }
}
