/** Shared result and error types.
    Python raises exceptions; the model returns them as values of `Error`. */
module Common {

  datatype Option<+T> = None | Some(value: T)

  /** The exceptions the modelled code can raise, named after what raises them. */
  datatype Error =
    /** `[k for (k, v) in XML_NS.items() if v == root_tag][0]`: IndexError, the root namespace is not registered */
    | UnregisteredNamespace(uri: string)
    /** RuntimeError: a PAGE Word whose coords give no usable centre */
    | InvalidWordCoords(wordId: string, lineId: string)
    /** RuntimeError: a PAGE TextLine without its own text although its Words carry text */
    | NoTextButWords(base: string, lineId: string)
    /** RuntimeError: the image path derived from an OCR-D workspace does not exist */
    | InvalidImagePath(path: string)
    /** ValueError from `int(token)` */
    | NotAnInteger(token: string)
    /** OverflowError: a PAGE coordinate that does not fit `uint32` (NumPy 2 behaviour) */
    | CoordinateOutOfRange(value: int)
    /** IndexError: a Python list or tuple indexed past its end */
    | IndexOutOfRange
    /** ValueError: tuple unpacking with the wrong number of values */
    | UnpackMismatch(expected: nat, got: nat)
    /** TypeError: `reduce()` of an empty sequence with no initial value */
    | EmptyReduce
    /** AttributeError or TypeError: a `None` where an element or a text was expected */
    | MissingValue
    /** ValueError: `int()` of the NaN median of an empty pixel selection */
    | NanToInt
    /** IndexError: a boolean mask whose shape differs from the array it indexes */
    | MaskShapeMismatch
    /** ValueError: shapely refuses a polygon ring with fewer than three points */
    | TooFewPolygonPoints(count: nat)
    /** cv2.error: an OpenCV call given an empty point set */
    | EmptyPointSet
    /** FileNotFoundError: a file opened for reading or writing whose path does not exist */
    | FileNotFound(path: string)
    /** ExtractPairException: no training pair could be written for a line */
    | ExtractPair(message: string)
    /** ValueError: a ground-truth file for the syllable boxes that does not hold exactly one line */
    | NotOneLine(count: nat)
    /** ValueError from `float(token)` */
    | NotAFloat(token: string)
    /** KeyError: `attrib[name]` of an element without that attribute */
    | MissingAttribute(name: string)
    /** IsADirectoryError: a path opened as a file that names a directory */
    | IsADirectory(path: string)
    /** TypeError: tuple unpacking of a `None`, such as the one `calculate_grayscale` returns for an image
        without rows, or the missing dpi of a TIFF image */
    | UnpackNone
    /** ValueError from `np.random.randint`: a negative size or an empty range */
    | RandintRange

  datatype Result<+T> = Ok(value: T) | Err(error: Error) {
    predicate IsFailure() { Err? }
    function PropagateFailure<U>(): Result<U>
      requires Err?
    {
      Err(error)
    }
    function Extract(): T
      requires Ok?
    {
      value
    }
  }
}
