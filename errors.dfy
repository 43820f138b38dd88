/** The exceptions the comparison pipeline can raise, one constructor per cause. */
module Errors {

  datatype Error =
    | UnknownAlgorithm(name: string)        // dispatcher: name not in the strategy registry
    | ImagesNotLoaded                       // strategy wrapper: an image decoded to None
    | FetchFailed(url: string)              // image loader: non-200 answer (the service's text) or failed request (the HTTP library's own)
    | ColorConversion(channels: nat)        // OpenCV colour conversion given the wrong channel count
    | ZeroDivision                          // a score formula divided by zero
    | HashShapeMismatch                     // subtracting perceptual hashes of different shapes
    | InvalidMethod(value: string)          // request validator: method name not accepted
    | ValidationError(fields: seq<string>)  // record validation: the fields that failed, in order
    | TempFileWriteFailed                   // writing a temporary file for an image that is None
    | DuplicateComparison                   // uniqueness constraint on (hash1, hash2, method)
  {
    /**
     * The text the exception carries. The first four are fixed by the
     * service's own code (the fetch text only for a non-200 answer); the colour, division, hash-shape and uniqueness
     * texts are those of the libraries and the runtime; the validation and
     * temporary-file texts are placeholders, since no text of them is fixed.
     */
    function Message(): string {
      match this
      case UnknownAlgorithm(name) => "Unknown algorithm `" + name + "`!"
      case ImagesNotLoaded => "One or both images could not be loaded."
      case FetchFailed(url) => "Failed to fetch image from URL: " + url
      case InvalidMethod(_) => "Invalid method. Use 'orb', 'hist', or 'phash'"
      case ColorConversion(_) => "Invalid number of channels in input image"
      case ZeroDivision => "division by zero"
      case HashShapeMismatch => "ImageHashes must be of the same shape."
      case ValidationError(_) => "validation error"       // placeholder
      case TempFileWriteFailed => "could not write image" // placeholder
      case DuplicateComparison => "UNIQUE constraint failed"
    }
  }
}
