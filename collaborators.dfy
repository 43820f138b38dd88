/**
 * The external collaborators of the comparison pipeline, as values and
 * function types: the image loader, the URL hasher, URL validation and the
 * image-processing library calls. None of them is implemented here; the model
 * takes them as parameters and proves its properties for every choice of them.
 */
module Collaborators {
  import opened Wrappers

  /** A decoded raster with its channel count. */
  datatype Raster = Raster(channels: nat, width: nat, height: nat, pixels: seq<int>)

  /** The image loader always decodes in grayscale mode, so what it yields has one channel. */
  type GrayImage = r: Raster | r.channels == 1 witness Raster(1, 0, 0, [])

  /**
   * What loading one locator gives: a grayscale image, nothing (the bytes
   * could not be decoded, the loader returns None), or a raised fetch error
   * (a non-200 answer or a failing request).
   */
  datatype LoadOutcome = Loaded(image: GrayImage) | NotDecoded | FetchError

  type Loader = string -> LoadOutcome

  /** The deterministic identity of a locator (a SHA-256 hex digest in the source). */
  type UrlHasher = string -> string

  /** URL validation of a request field: the canonical text of the URL, or None when invalid. */
  type UrlParser = string -> Option<string>

  /** A binary ORB descriptor (32 bytes in OpenCV). */
  type Descriptor = seq<bv8>

  /** ORB detection on one image: the keypoints found and their descriptors (None when there are none). */
  datatype Detection = Detection(keypoints: nat, descriptors: Option<seq<Descriptor>>)

  /** A brute-force match between descriptor `queryIdx` of the first set and `trainIdx` of the second. */
  datatype Match = Match(queryIdx: nat, trainIdx: nat, distance: real)

  /** A perceptual hash: a `rows` x `cols` bit matrix, stored row by row. */
  datatype HashMatrix = HashMatrix(rows: nat, cols: nat, bits: seq<bool>)

  type ImageHash = h: HashMatrix | |h.bits| == h.rows * h.cols witness HashMatrix(0, 0, [])

  /**
   * The image-processing library calls the strategies make: ORB detection,
   * cross-checked Hamming brute-force matching, histogram correlation of two
   * rasters, and the perceptual hash of a raster.
   */
  datatype Vision = Vision(
    orbDetect: Raster -> Detection,
    bfMatch: (seq<Descriptor>, seq<Descriptor>) -> seq<Match>,
    histCorrel: (Raster, Raster) -> real,
    phash: Raster -> ImageHash)
}
