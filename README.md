# tesstrain training-data tools in Dafny

This project models the tools in tesstrain that prepare training data for Tesseract:

- **The extractor** (`src/tesstrain/training_sets.py`). It turns each text line of an OCR document into a pair of files for training: the line's transcription (`.gt.txt`) and the line cut out of the page image (`.tif`). Documents are ALTO version 3 or 4, or PAGE 2013/2019.
  - It picks the dialect from the document's namespace and keeps the lines that are long enough.
  - For a PAGE line it assembles the text from the words.
  - It cuts the line's box out of the page raster. It then sanitises the cut: it clears intruders at the top and bottom edge, fits the cut to the line polygon, straightens it and pads it.
  - It writes a pair per line and, on request, a summary. Names come from a cached prefix.
  - A failed extraction of one line is reported and skipped.
- **The three older extractors**: `generate_sets/`, `sets/` and `lib/`. They differ in several ways:
  - the content join ("first word, then the rest reversed" in `sets/`);
  - the right-to-left mark put before Roman numerals;
  - the PAGE boxes and the height-outlier pass that may move an ALTO line's bottom edge;
  - a transcription written without an image;
  - the summary directories;
  - the dpi failures.
- **The box-file tools.**
  - Three serialisers write Tesseract box records for a line image: per character with combining marks fused (`generate_line_box.py`), per Devanagari grapheme cluster (`generate_line_syllable_box.py`), and one WordStr record per line (`generate_wordstr_box.py`).
  - One parser reads the ground truth back from a box file (`generate_gt_from_box.py`).
  - A round-trip lemma ties the parser to the first serialiser.
- **The utilities**: the character histogram `count_chars.py` and the list splitter `generate_eval_train.py`.

## How the source is modelled

- **Values and classes.** Parsed XML is a datatype tree. Text-line objects, which are never changed after they are built, are values.
  - The objects the source updates are classes, with `modifies` clauses on their methods: `TrainingSets` and `TrainingData`.
  - The `sets/` line is a class as well, because its constructor runs the outlier pass on the new object. In `sets/` that pass never changes `y_2`: the token list stays empty, so the loop never runs (`Sets.NoTokensNoChange`).
  - The outlier pass that can move an ALTO line's bottom edge is the one in `lib/`. It is modelled on values (`LibTrainingData.AltoLineBottom`).
  - The page raster and the frames sanitised in place are `array2<int>`.
  - Most loops of the source are a `method` with a `while` loop, proved equal to a function, and the properties are lemmas about that function. Two loops are functions only: the record loop of `generate_wordstr_box.py` (`WordStrBox.RecordsTo`, a recursion over the lines) and the print loop of `count_chars.py` (`CountChars.CountLines`, the printed lines as a list).
- **Errors.** Python exceptions are values of `Common.Error` in a `Result`.
- **Files.** The file system is a map from paths to contents that the object updates. Standard output is a list of printed lines.
- **Oracles.** OpenCV, NumPy randomness and the Unicode database are parameters of the functions that use them:
  - OpenCV calls are fields of the oracle `Vision.Cv`, given pixel by pixel so that image sizes are kept;
  - `np.random` is a noise function;
  - from the Unicode database come the combining set, the major category, NFC and character names.

  Every statement therefore holds for any implementation of these oracles.
- **Floats.** Python floats are Dafny `real`s, and `int()` on a non-negative value is `.Floor`.

## Model

| member | source | states |
|---|---|---|
| Training.ReadDpiFromTif | src/tesstrain/training_sets.py:667-681 | both dpi values are the x resolution; anything but the 300 default comes from present, non-zero x and y tags |
| Training.TifDpiIgnoresY | src/tesstrain/training_sets.py:679-680 | whenever both tags are present and non-zero, the y resolution has no influence: the result is the x resolution twice |
| Training.ReadDpi | src/tesstrain/training_sets.py:684-694 | `.tif` paths use the TIFF reader; `.jpg`/`.png` use the PIL dpi truncated to integers when present; every other path and a missing dpi give (300, 300) |
| Training.TiffParams | src/tesstrain/training_sets.py:353-362 | parameters only when both dpi values are non-zero, then six of them: unit 2 (inches), x dpi, y dpi |
| Training.NumericLabel | src/tesstrain/training_sets.py:337-341 | a numeric stem becomes the tag followed by its integer value, any other stem stays as it is |
| Training.PairPathsNumeric | src/tesstrain/training_sets.py:397-406 | a numeric stem `n` gives the prefix `page<n>`, the label `p<n>`, the directory `<out>/page<n>` and the two file names `page<n>_p<n>_<id>.gt.txt` / `.tif` inside it |
| Training.JoinRelative | src/tesstrain/training_sets.py:400-406 | `os.path.join` of a directory without a trailing slash and a relative name puts exactly one `/` between them |
| Training.ResolveImagePath | src/tesstrain/training_sets.py:284-301 | an unregistered namespace raises; a returned path is the `imageFilename` joined onto the OCR file's grandparent and exists; the error names the joined path when it does not exist |
| Training.ResolveImagePathWorkspace | src/tesstrain/training_sets.py:295-296 | the workspace is the OCR path without its last two components |
| Training.DefaultOptions | src/tesstrain/training_sets.py:364-366 | `create`'s defaults: sanitising on, binarising off, no padding |
| Training.ImagePlanWritten | src/tesstrain/training_sets.py:407-420 | an image is written exactly when the content is non-empty and the cut frame has a non-zero pixel; it is the crop, sanitised and/or binarised as requested, and a crop or sanitiser error is passed on |
| Training.PairResultCases | src/tesstrain/training_sets.py:393-426 | the outcome of `write_pair`: a failing content (empty `reduce`) or cut raises that error; an empty content or all-black frame raises `ExtractPairException` with the message naming both paths; otherwise it succeeds |
| Training.LineImage | src/tesstrain/training_sets.py:408-415 | the method that cuts, sanitises and binarises in place computes exactly the image plan of the line |
| Training.ErrorLineTagged | src/tesstrain/training_sets.py:386 | every line printed for a swallowed extraction failure starts with `[ERROR] ` |
| Training.Printed | src/tesstrain/training_sets.py:376-386 | one turn prints at most one line, and prints one exactly when the pair failed with an `ExtractPairException` |
| Training.PrintedLog | src/tesstrain/training_sets.py:385-386 | what one turn prints is an `[ERROR]` line |
| Training.Escaped | src/tesstrain/training_sets.py:376-386 | an error escapes the `try` exactly when it is not an `ExtractPairException`, and it is that error |
| Training.Outcomes | src/tesstrain/training_sets.py:375-384 | one outcome per line, in order, each the `write_pair` result for that line's paths, with the line's id |
| Training.RunFromStart | src/tesstrain/training_sets.py:375-386 | the indexed loop from its first turn is the whole run |
| Training.RunFromSuffix | src/tesstrain/training_sets.py:375-386 | from its i-th turn on, the loop does what it does on the remaining outcomes |
| Training.RunLog | src/tesstrain/training_sets.py:375-386 | the run prints at most one line per text line, each an `[ERROR]` line |
| Training.RunQuiet | src/tesstrain/training_sets.py:375-386 | nothing is printed and nothing escapes exactly when every pair was written |
| Training.RunStopsAtFirst | src/tesstrain/training_sets.py:375-386 | an error escapes exactly when some line's pair fails with a non-extraction error, and it is the first such error |
| Training.RunCompleteContents | src/tesstrain/training_sets.py:388-389 | after a loop that met no escaping error every line's content can be computed, so the summary does not fail on content |
| Training.SummaryText | src/tesstrain/training_sets.py:431 | the summary text exists exactly when every line's content can be computed; no lines give the empty text |
| Training.SummaryTextLength | src/tesstrain/training_sets.py:431-435 | the summary holds each content followed by one newline: its length is the total content length plus the number of lines |
| Training.TrainingSets.constructor | src/tesstrain/training_sets.py:315-330 | a fresh object: the paths, document and image as given, no cached prefix, nothing written, dpi from the image metadata |
| Training.Open | src/tesstrain/training_sets.py:315-330 | a given image path is used as is; a missing one is resolved from the OCR-D workspace and opening fails with the resolution's own error, or with `MissingValue` when it resolves to nothing; the object starts with no prefix, no files and the metadata dpi |
| Training.TrainingSets.PairPrefix | src/tesstrain/training_sets.py:332-342 | the getter returns the cached prefix, or else the document's prefix (`page<n>` for a numeric stem), and caches what it returns |
| Training.TrainingSets.SetPairPrefix | src/tesstrain/training_sets.py:344-348 | the setter stores the given value in the cache; `None` clears it, so that the next read of `pair_prefix` derives the prefix again |
| Training.TrainingSets.PairTargets | src/tesstrain/training_sets.py:397-406 | the pair directory is created when missing and the three paths are the pair paths of the current prefix, label and line id |
| Training.TrainingSets.WritePair | src/tesstrain/training_sets.py:393-426 | the result is the `write_pair` outcome of the line; the text and image file are written (image with the TIFF parameters) exactly when the plan holds an image, and no other file changes |
| Training.TrainingSets.WriteLine | src/tesstrain/training_sets.py:407-426 | once the paths are known, only the two pair files change, and only when the whole pair can be written |
| Training.TrainingSets.Attempt | src/tesstrain/training_sets.py:376-386 | one turn: what escapes is the non-extraction error of the line, the output gains the `[ERROR]` line of an extraction failure, and the files gain the line's pair exactly when its plan holds one; an escaping turn leaves the files as they were |
| Training.TrainingSets.PairAll | src/tesstrain/training_sets.py:375-386 | the loop prints what the run over all outcomes prints and returns the error that ends it; the pair directory is created and the prefix cached as soon as there is a line; the files are those the turns leave up to the first escaping error |
| Training.TrainingSets.WriteSummary | src/tesstrain/training_sets.py:428-435 | a failing content raises without writing; a missing pair directory raises `FileNotFoundError` on the summary path; otherwise exactly the summary file is written |
| Training.TrainingSets.PairLines | src/tesstrain/training_sets.py:375-391 | the pair loop's output and escaping error; the directories gain the pair directory when there is a line; the files are the pairs of the turns before the first escaping error, plus the summary file when it is asked for, nothing escaped and its directory exists; the lines are returned when nothing escapes and the summary (if any) could be written; the prefix is cached unless there is no line and no summary |
| Training.TrainingSets.Create | src/tesstrain/training_sets.py:364-391 | factory errors are raised before anything is written, created or printed; otherwise the run over the factory's lines decides the output, the escaping error or the returned lines, the directories, the files and the cached prefix as in `PairLines` |
| Training.Plans | src/tesstrain/training_sets.py:375-386 | one plan per line, the `i`-th being the plan of line `i` |
| Training.LinePaths | src/tesstrain/training_sets.py:397-406 | one triple of paths per line, the `i`-th being the pair paths of line `i`'s id |
| Training.FirstEscapeFrom | src/tesstrain/training_sets.py:375-386 | the first turn from `i` on whose error escapes the `try`, or the number of turns: no earlier turn escapes |
| Training.FilesFromStep | src/tesstrain/training_sets.py:375-386 | the suffix fold of the loop's writes: an escaping turn ends it unchanged, any other turn writes its pair and goes on |
| Training.FilesFromUpTo | src/tesstrain/training_sets.py:375-386 | the loop's suffix fold from turn `i` equals writing the pairs of the turns up to the first escape |
| Training.PairWrittenIffOk | src/tesstrain/training_sets.py:407-426 | `write_pair` succeeds exactly when its plan holds a text and an image, and the text is the line's content |
| Training.PairPathsApart | src/tesstrain/training_sets.py:397-406 | the text path of one line is never the image path of another, and two different ids give four different paths |
| Training.FilesUpToKeeps | src/tesstrain/training_sets.py:375-386 | no file that exists before the loop disappears |
| Training.FilesUpToOnlyPairs | src/tesstrain/training_sets.py:375-386 | every file the turns add or change is the text or image path of a turn whose plan holds both |
| Training.FilesUpToWritten | src/tesstrain/training_sets.py:375-426 | a turn whose plan holds both leaves its text and image as planned when no later turn writes at its paths |
| Training.LoopFilesWritten | src/tesstrain/training_sets.py:375-426 | after the loop, a line before the first escaping error whose `write_pair` succeeded has its content in its `.gt.txt` and its processed frame, with the TIFF parameters, in its `.tif`, unless a later line has the same id |
| Training.LoopFilesOnlyPairs | src/tesstrain/training_sets.py:375-426 | the loop removes no file, and every file it adds or changes is a pair file of a line before the first escaping error whose `write_pair` succeeded |
| Lines.ReduceFromJoin | src/tesstrain/training_sets.py:132 | the prepending `reduce` is the space join of the reversed words in front of the start value |
| Lines.Content | src/tesstrain/training_sets.py:124-133 | without reorder, the words joined by single spaces; with reorder, the same words in reverse order, and a `TypeError` of `reduce` exactly when there are no words |
| Lines.JoinContent | src/tesstrain/training_sets.py:130-133 | the same two cases on a bare word list |
| Lines.ContentLength | src/tesstrain/training_sets.py:130-133 | reversing the words does not change the content's length |
| Lines.Repr | src/tesstrain/training_sets.py:135-136 | the representation ends with the content |
| Lines.AltoPosition | src/tesstrain/training_sets.py:157-160 | the position parses exactly when all four attributes are present and integers, and is their values; otherwise the first of `HPOS`, `VPOS`, `HEIGHT`, `WIDTH` that is missing (`KeyError`) or not an integer (`ValueError`) names the error |
| Lines.AltoTextLine | src/tesstrain/training_sets.py:139-161 | a missing `ID` raises first, then a missing `CONTENT`, then the position's error; otherwise the line takes its `ID`, its `CONTENT`s as words, never sets reorder, and its shape is the four corners of the position |
| Lines.AltoNeverReversed | src/tesstrain/training_sets.py:124-133 | a built ALTO line has all its `CONTENT`s, and its content is them joined by spaces |
| Lines.GetAltoLines | src/tesstrain/training_sets.py:258-262 | one `String` without `CONTENT` in any line of the document raises `KeyError` before any line is built |
| Lines.GetAltoLinesOk | src/tesstrain/training_sets.py:258-262 | the extraction succeeds exactly when every line carries its `CONTENT`s and every line that passes the `min_len` filter has an `ID` and a position that parses |
| Lines.GetAltoLinesKept | src/tesstrain/training_sets.py:260-261 | every returned line's joined words reach `min_len` characters |
| Lines.GetAltoLinesComplete | src/tesstrain/training_sets.py:259-262 | every line whose joined `CONTENT`s reach `min_len` is returned |
| Lines.Centre | src/tesstrain/training_sets.py:704-711 | a missing `Coords` raises; blank `points` give `None` |
| Lines.Verdicts | src/tesstrain/training_sets.py:192-197 | one verdict per word |
| Lines.CheckWordsOk | src/tesstrain/training_sets.py:192-198 | the word loop passes exactly when every word's coords give a usable centre |
| Lines.CheckWordsAt | src/tesstrain/training_sets.py:192-198 | when the words before `i` pass, the loop's outcome is that of word `i` |
| Lines.CheckWordsErr | src/tesstrain/training_sets.py:192-197 | a failing loop raises the error of the first word that does not pass |
| Lines.FirstRaiseOk | src/tesstrain/training_sets.py:192-198 | the verdicts from `i` on pass exactly when each of them is no error |
| Lines.FirstRaisePrefix | src/tesstrain/training_sets.py:192-198 | passing verdicts at the front do not change the first raise |
| Lines.FirstRaiseErr | src/tesstrain/training_sets.py:192-197 | a raise comes from the first failing verdict |
| Lines.FirstUnicode | src/tesstrain/training_sets.py:213-216 | `find('.//Unicode')` finds exactly when there is a text element, and it is the first |
| Lines.Transcriptions | src/tesstrain/training_sets.py:217 | at most one word per text |
| Lines.TranscriptionsSpec | src/tesstrain/training_sets.py:217 | empty texts are dropped and every other text is kept, stripped |
| Lines.LastMarkIn | src/tesstrain/training_sets.py:220-224 | the last listed mark that occurs in the token, and `None` exactly when no mark occurs |
| Lines.ClearFromLast | src/tesstrain/training_sets.py:220-224 | the mark loop over a token ends with the token without its last occurring mark |
| Lines.ClearMarksLastWins | src/tesstrain/training_sets.py:220-224 | only the last listed mark that occurs is removed, because `strip` is not refreshed inside the loop; a token without marks is unchanged |
| Lines.ClearMarksSingleKind | src/tesstrain/training_sets.py:82-88 | a token with one kind of mark loses all of it and nothing else |
| Lines.ClearMarksKeepsEarlierMark | src/tesstrain/training_sets.py:220-224 | a right-to-left mark followed by a left-to-right mark keeps the right-to-left mark |
| Lines.ClearAll | src/tesstrain/training_sets.py:220-224 | the mark loop treats each token on its own |
| Lines.SetTextSpec | src/tesstrain/training_sets.py:183-224 | a line with words raises for the first word without a usable centre; a wordless line is marked invalid exactly when its own centre is unusable, and then has no words |
| Lines.PageWordOrder | src/tesstrain/training_sets.py:210-212 | words are sorted stably by the truncated x centre of their points: sorted, a permutation, and words with equal keys keep their order |
| Lines.SetText | src/tesstrain/training_sets.py:183-224 | the method with the word loop, the sort, the transcriptions and the in-place mark loop computes the specification |
| Lines.CheckWordLoop | src/tesstrain/training_sets.py:192-198 | the loop's outcome is the coords check over the words |
| Lines.CheckWord | src/tesstrain/training_sets.py:193-197 | one pass computes the word's verdict |
| Lines.ClearTokens | src/tesstrain/training_sets.py:220-224 | the in-place loop ends with each token cleared |
| Lines.CheckUint32 | src/tesstrain/training_sets.py:241 | the `uint32` cast succeeds exactly when every coordinate fits, and the error names a coordinate that does not |
| Lines.PageShape | src/tesstrain/training_sets.py:227-241 | the shape is the parsed point pairs of `points`, each fitting `uint32`, and exists exactly when they all fit |
| Lines.PageTextLine | src/tesstrain/training_sets.py:169-178 | a PAGE line is valid exactly when `set_text` succeeds with a usable centre; a valid line gets reorder and its shape, an invalid one neither |
| Lines.NewPageLine | src/tesstrain/training_sets.py:172-178 | the constructor method computes the specification |
| Lines.WordlessInvalidLine | src/tesstrain/training_sets.py:201-207 | a wordless line with an unusable centre is constructed, but invalid |
| Lines.PageMatchingsOk | src/tesstrain/training_sets.py:265-281 | the filter succeeds exactly when no line is refused, and keeps exactly the lines whose stripped text is non-empty and reaches `min_len`, in order |
| Lines.PageMatchingsErr | src/tesstrain/training_sets.py:268-280 | a failing filter raises the error of the first refused line |
| Lines.FirstRefusedUnique | src/tesstrain/training_sets.py:268-280 | the first refused line is unique |
| Lines.NoTextButWordsIff | src/tesstrain/training_sets.py:275-280 | the "no text but words" error names line `id` exactly when the first refused line has no text, has words with text below it, and has that id |
| Lines.NoTextButWordsRaised | src/tesstrain/training_sets.py:275-280 | the raised error implies such a line |
| Lines.NoTextButWordsAt | src/tesstrain/training_sets.py:275-280 | such a line implies the raised error |
| Lines.MatchFromSuffix | src/tesstrain/training_sets.py:268-280 | the loop from line `i` on filters the remaining lines |
| Lines.MatchFromStart | src/tesstrain/training_sets.py:268-280 | the loop from the first line is the whole filter |
| Lines.MatchPageLines | src/tesstrain/training_sets.py:266-280 | the filter loop method computes the filter |
| Lines.MatchLine | src/tesstrain/training_sets.py:269-280 | one pass keeps, drops or refuses the line exactly as the filter does |
| Lines.BuildPageLines | src/tesstrain/training_sets.py:281 | the constructor loop builds a line for each match, in order, until one fails |
| Lines.GetPageLines | src/tesstrain/training_sets.py:265-281 | the method computes the filter followed by the constructors |
| Lines.FactorySpec | src/tesstrain/training_sets.py:244-255 | an unregistered namespace raises `IndexError`; every returned line is valid |
| Lines.TextLineFactory | src/tesstrain/training_sets.py:244-255 | the method computes the factory |
| Lines.FactoryAlto | src/tesstrain/training_sets.py:249-250 | an ALTO document (v3 or v4) gives valid ALTO lines whose content is never reversed |
| Lines.FactoryPage | src/tesstrain/training_sets.py:251-252 | a PAGE document (2013 or 2019) gives valid PAGE lines carrying the requested reorder |
| Lines.PageLinesItem | src/tesstrain/training_sets.py:281 | every PAGE extraction result is a PAGE line, and a valid one carries the reorder flag |
| Geometry.Trunc | src/tesstrain/training_sets.py:532 | `int()` of a float truncates toward zero: the result is within one of the value, on the side of zero |
| Geometry.CommaInts | src/tesstrain/training_sets.py:236 | every comma-separated token parses as an integer, in order, or the parse fails at a token that is not one |
| Geometry.Pairs | src/tesstrain/training_sets.py:239 | the `zip(*[iter(ns)] * 2)` idiom: consecutive numbers grouped into points, a trailing odd number dropped |
| Geometry.CenterX | src/tesstrain/training_sets.py:697-711 | blank points give `None`; points with at least one complete pair give the mean x of the parsed pairs; tokens without a complete pair raise IndexError (`center[0]` of an empty tuple); a token `int()` rejects raises its ValueError |
| Geometry.MinX | src/tesstrain/training_sets.py:475 | the least x of the points, attained by one of them |
| Geometry.MaxX | src/tesstrain/training_sets.py:476 | the greatest x of the points, attained by one of them |
| Geometry.MinY | src/tesstrain/training_sets.py:475 | the least y of the points, attained by one of them |
| Geometry.MaxY | src/tesstrain/training_sets.py:476 | the greatest y of the points, attained by one of them |
| Geometry.ShapeToBox | src/tesstrain/training_sets.py:471-477 | every point lies inside the box and each of its four sides is touched by a point |
| Geometry.ShapeToBoxTightest | src/tesstrain/training_sets.py:471-477 | every box holding all the points contains `shape_to_box` |
| Geometry.AltoShapeBox | src/tesstrain/training_sets.py:156-161 | the box of an ALTO shape is its position, and corners 0 and 2 are its top-left and bottom-right |
| Geometry.BoundingRect | src/tesstrain/training_sets.py:591 | OpenCV's `boundingRect`: the bounding box's origin with inclusive width and height, each at least 1 |
| Geometry.Translate | src/tesstrain/training_sets.py:593 | every point moved by the same offset |
| Geometry.TranslateIntoRect | src/tesstrain/training_sets.py:590-593 | the translated polygon lies inside the rectangle of size `(w, h)` at the origin |
| Geometry.WrapInt32 | src/tesstrain/training_sets.py:590 | the `int32` cast: in range, congruent modulo 2^32, and the identity on values that fit |
| Geometry.SliceIndex | src/tesstrain/training_sets.py:501 | a slice bound clamps to the length, and a negative bound counts from the end |
| Geometry.SliceRange | src/tesstrain/training_sets.py:501 | a slice stays inside the sequence, and an in-range slice is `[a, b)` |
| Geometry.SumXBounds | src/tesstrain/training_sets.py:701 | the sum of the x values is between the bounds times the count |
| Geometry.MeanXBetween | src/tesstrain/training_sets.py:701 | the mean x lies between any bounds of the x values |
| Raster.Pixels | src/tesstrain/training_sets.py:663-664 | the grayscale array as a value: same size and pixels |
| Raster.Tabulate | src/tesstrain/training_sets.py:459-461 | a raster of the given size whose pixel (i, j) is `f(i, j)` |
| Raster.Slice2D | src/tesstrain/training_sets.py:501 | NumPy's 2-D slice: the clamped size, and each pixel at the clamped offset |
| Raster.Border | src/tesstrain/training_sets.py:545-546 | `copyMakeBorder` with a constant: the image moved by `p` into a frame `2p` larger, every border pixel the constant |
| Raster.BorderSliceBack | src/tesstrain/training_sets.py:641-643 | slicing `[p:-p, p:-p]` off a padded image gives back the image |
| Raster.SliceBackSize | src/tesstrain/training_sets.py:641-643 | the slice after padding and warping has the original size |
| Raster.Above | src/tesstrain/training_sets.py:466-467 | `arr[arr > threshold]`: exactly the values above the threshold |
| Raster.Median | src/tesstrain/training_sets.py:468 | `np.median` is NaN (`None`) exactly for no values |
| Raster.MedianBounds | src/tesstrain/training_sets.py:468 | the median lies between any bounds of the values |
| Raster.MedianAtLeast | src/tesstrain/training_sets.py:468 | the median is at least any lower bound of the values |
| Raster.CalcReference | src/tesstrain/training_sets.py:464-468 | the reference is NaN exactly when no pixel is above 127; otherwise it is at least 128 and, for 8-bit pixels, at most 255 |
| Raster.CalculateGrayscale | src/tesstrain/training_sets.py:438-450 | no data gives the fixed band `(low, low + nb, low + nb/2)`; an empty image gives `None`; a NaN reference raises `ValueError`; the mid value is `low + nb/2` |
| Raster.GrayscaleBand | src/tesstrain/training_sets.py:443-450 | from an image the band is `(floor(ref - nb/2), low + 2*(nb/2), low + nb/2)` with mid at least 128 |
| Raster.AddPadding | src/tesstrain/training_sets.py:654-660 | the image inside a border of width `p` in the band's mid tone; it fails exactly for an empty image (unpacking `None`, `TypeError`) or a NaN reference (`int(nan)`, `ValueError`) |
| Raster.AddPaddingTone | src/tesstrain/training_sets.py:659 | the padding tone is the mid value of the 32-wide band around the reference, between 128 and 255 for 8-bit pixels |
| Raster.Draws | src/tesstrain/training_sets.py:459 | `np.random.randint(start, end)` cast to `uint8`: every pixel in `[start, end)` when the band fits a byte |
| Raster.DrawInBand | src/tesstrain/training_sets.py:459 | each drawn value lies in the band |
| Raster.GrayCanvas | src/tesstrain/training_sets.py:453-461 | a gray canvas of the requested size whose pixels lie in the 8-wide band around the reference; it fails exactly for an empty image (`TypeError`), a NaN reference (`ValueError` of `int`) or a negative size (`ValueError` of `randint`), in that order; the `filter2D` blur is not applied (see Left out) |
| Raster.GrayCanvasBand | src/tesstrain/training_sets.py:458 | the canvas band is `(trunc(ref - 4), trunc(ref + 4))` |
| Vision.Binarize | src/tesstrain/training_sets.py:574-579 | blur and Otsu threshold keep the image's size |
| Sanitize.EdgesOrdered | src/tesstrain/training_sets.py:566-571 | ratios that do not overlap give edges `0 <= top <= bottom <= height` |
| Sanitize.IntrusionEdgesOrdered | src/tesstrain/training_sets.py:569-570 | the same for a list ratio `[top, bottom]` |
| Sanitize.ScalarEdgesOrdered | src/tesstrain/training_sets.py:571 | the same for one ratio of at most one half |
| Sanitize.Bordered | src/tesstrain/training_sets.py:544-546 | the binarised frame inside a one-pixel border |
| Sanitize.TopIntruders | src/tesstrain/training_sets.py:550-551 | exactly the contours touching row 0 whose centroid is at or above the top edge |
| Sanitize.BottomIntruders | src/tesstrain/training_sets.py:552-553 | exactly the contours touching the last row whose centroid is at or below the bottom edge |
| Sanitize.ClearSpec | src/tesstrain/training_sets.py:535-563 | the frame keeps its size; the counts are the numbers of top and bottom intruders; without intruders the frame is unchanged; it fails exactly when there are intruders and the gray tone cannot be computed |
| Sanitize.FillIntruders | src/tesstrain/training_sets.py:555-562 | filling keeps the size and fails exactly for an empty frame or a NaN reference |
| Sanitize.ClearVerticalBorders | src/tesstrain/training_sets.py:535-563 | the in-place method leaves the frame as the specification says and returns its counts; on an error the frame is unchanged |
| Sanitize.FillPoly | src/tesstrain/training_sets.py:561-562 | `fillPoly` rewrites the frame in place, pixel by pixel |
| Sanitize.Int32Points | src/tesstrain/training_sets.py:590 | the polygon cast to `int32`, point by point |
| Sanitize.MaskPolygon | src/tesstrain/training_sets.py:590-593 | the translated polygon lies inside its bounding rectangle |
| Sanitize.Composite | src/tesstrain/training_sets.py:595-601 | inside the mask the frame's pixel, outside the canvas pixel, at the frame's size |
| Sanitize.FitSpec | src/tesstrain/training_sets.py:582-602 | the result has the frame's size and keeps the frame inside the polygon; it fails for an empty shape, an empty frame, a NaN reference, or a canvas whose size differs from the frame |
| Sanitize.FitUnfold | src/tesstrain/training_sets.py:590-602 | the fit is the canvas of size `(w-1, h-1)` with the masked frame copied in |
| Sanitize.FitOk | src/tesstrain/training_sets.py:599-602 | a successful fit had a canvas exactly the frame's size |
| Sanitize.FitBackground | src/tesstrain/training_sets.py:599-601 | outside the polygon the pixel comes from the gray band around the reference |
| Sanitize.ToArray | src/tesstrain/training_sets.py:599 | a new array holding the raster |
| Sanitize.MaskedCopy | src/tesstrain/training_sets.py:601 | `the_canvas[mask] = image_frame[mask]` in place |
| Sanitize.FitToShape | src/tesstrain/training_sets.py:582-602 | the method returns a new array holding the fit, or the fit's error |
| Sanitize.DrawFit | src/tesstrain/training_sets.py:599-602 | the canvas drawn and masked is the fit |
| Sanitize.MeanBetween | src/tesstrain/training_sets.py:636 | the mean of values inside an open interval lies inside it |
| Sanitize.FitAngles | src/tesstrain/training_sets.py:635 | exactly the angles less than 10 degrees away from 90 |
| Sanitize.RotationAngle | src/tesstrain/training_sets.py:635-638 | there is a rotation exactly when some angle fits and the mean is at least the threshold away from 90; then it is less than 10 degrees and at least the threshold |
| Sanitize.RotateTextLineCenter | src/tesstrain/training_sets.py:605-645 | the size is kept; without a rotation the image is unchanged; an angle obeys those bounds; errors come only from the padding |
| Sanitize.LineRotation | src/tesstrain/training_sets.py:620-638 | a rotation angle is bounded by 10 degrees and at least the threshold |
| Sanitize.RotateBy | src/tesstrain/training_sets.py:639-643 | pad by 50, warp and slice back: the size is kept |
| Sanitize.NoFittingAngleNoRotation | src/tesstrain/training_sets.py:629-636 | no Hough lines or no fitting angle leave the image as it is, with angle `None` |
| Sanitize.SanitizeSpec | src/tesstrain/training_sets.py:507-525 | the sanitised frame is the frame's size grown by twice the padding when padding is positive |
| Sanitize.SanitizeFrame | src/tesstrain/training_sets.py:507-525 | the method computes the specification, and clears the intruders in place in the frame it is given |
| Sanitize.FitStep | src/tesstrain/training_sets.py:514-516 | a rectangular shape leaves the frame; any other is fitted |
| Sanitize.CropBox | src/tesstrain/training_sets.py:494-500 | a shape with fewer than three points raises `IndexError`; a non-rectangular shape is cut at its bounding box |
| Sanitize.Crop | src/tesstrain/training_sets.py:501 | the crop is a raster |
| Sanitize.AltoCrop | src/tesstrain/training_sets.py:489-504 | an ALTO line inside the page is cut at its position, pixel by pixel |
| Sanitize.ExtractRectangularFrame | src/tesstrain/training_sets.py:489-504 | the method returns a new array holding the crop of the page, or the `IndexError` of a short shape |
| Ocr.Lookup | src/tesstrain/training_sets.py:304-306 | a namespace not in the registry raises `IndexError` |
| Ocr.LookupSpec | src/tesstrain/training_sets.py:304-306 | the lookup succeeds exactly when some entry has the namespace, and gives the prefix of the first such entry |
| Ocr.LookupFromSpec | src/tesstrain/training_sets.py:304-306 | the same from entry `i` on |
| Ocr.LookupXmlNs | src/tesstrain/training_sets.py:60-64 | each of the four registered namespaces gives its own prefix |
| Ocr.LookupDistinct | src/tesstrain/training_sets.py:304-306 | with distinct namespaces the lookup of an entry's namespace gives that entry's prefix |
| Ocr.XmlNsDialects | src/tesstrain/training_sets.py:249-251 | the two ALTO prefixes contain `alto`; the PAGE prefixes do not, and are `page2013`/`page2019` |
| Legacy.Contents | generate_sets/training_sets.py:91-93 | when every `String` has a `CONTENT`, one word per `String` element, its `CONTENT`, in order |
| Legacy.AltoBox | generate_sets/training_sets.py:95-100 | the box parses exactly when the four attributes are present and integers; the first one missing or not an integer, in the order `HPOS`, `VPOS`, `HEIGHT`, `WIDTH`, names the error (`KeyError` or `ValueError`); it starts at `(HPOS, VPOS)` and is `WIDTH` wide and `HEIGHT` high |
| Legacy.AltoFilter | generate_sets/training_sets.py:189-190 | the length filter reads every line's `CONTENT`s first: it raises `KeyError` exactly when some `String` lacks one, and otherwise keeps the lines whose joined text is at least the minimum long, in order |
| Legacy.IdAndWords | generate_sets/training_sets.py:88-93 | the `ID` is read before the `CONTENT`s: a missing `ID` raises first, then a missing `CONTENT`; otherwise the id and the words |
| Legacy.KeepUnstripped | generate_sets/training_sets.py:194-198 | a missing or empty own text raises (`len(None)`); otherwise a line is kept exactly when its unstripped text reaches `min_len` |
| Legacy.PageMatchingsSpec | generate_sets/training_sets.py:193-198 | the filter succeeds exactly when every line has an own text, and then is the list of the lines whose unstripped text reaches `min_len`, in their order and with their multiplicity |
| Legacy.TopLeft | generate_sets/training_sets.py:156-159 | the sort key is the integer before the first comma of the first point; missing coords and blank points raise |
| Legacy.SortedWordsSpec | generate_sets/training_sets.py:135-138 | words are sorted stably by their top-left x: sorted, a permutation, equal keys in their order |
| Legacy.WordText | generate_sets/training_sets.py:139-143 | a word's text is its first `Unicode` text, stripped; a missing or empty one raises |
| Legacy.MarkTokenSpec | generate_sets/training_sets.py:145-154 | after both loops a token starts with a right-to-left mark exactly when it holds an `X`, `I` or `V`, holds no other such mark, and is otherwise the input |
| Legacy.SetTextWords | generate_sets/training_sets.py:145-154 | the two in-place loops treat each token on its own |
| Legacy.PageTextWords | generate_sets/training_sets.py:129-154 | the method computes the PAGE word list |
| Legacy.PolygonBox | generate_sets/training_sets.py:161-177 | the shapely bounds of the points: a polygon needs at least three points, every point is inside the box and each side is touched |
| Legacy.Corner | sets/training_sets.py:151-154 | a corner is the two integers before and after the first comma |
| Legacy.CornerBox | sets/training_sets.py:148-155 | missing coords raise; anything but four points fails the unpacking; the box runs from the first to the third point |
| Legacy.TiffParams | generate_sets/training_sets.py:270-279 | parameters only when both dpi values are set and non-zero, then the x and y dpi |
| Legacy.ReadDpi | generate_sets/training_sets.py:281-315 | `.tif` gives the x resolution twice; `.jpg` gives the PIL dpi or 300; every other image leaves the dpi unset |
| Legacy.OtherImageNoParams | generate_sets/training_sets.py:276-279 | an image that is neither `.tif` nor `.jpg` is written without TIFF parameters |
| Legacy.OutDir | generate_sets/training_sets.py:229-230 | a given output folder is used; otherwise the folder is the prefix followed by the set label |
| Legacy.PairPathsDistinct | generate_sets/training_sets.py:236-244 | the text and image files of a line differ |
| Legacy.WriteFilesGate | generate_sets/training_sets.py:234-251 | an empty content writes nothing; otherwise the text file holds the content, and the image is written only when the crop has a non-zero pixel |
| LegacyPairs.FirstFailure | generate_sets/training_sets.py:327-332 | the index of the first line whose content raises, every earlier content succeeding |
| LegacyPairs.FirstFailureAt | generate_sets/training_sets.py:327-332 | any index with that property is the first failure |
| LegacyPairs.Outcome | generate_sets/training_sets.py:327-332 | the loop succeeds exactly when every content can be computed, and otherwise raises some line's content error |
| LegacyPairs.WrittenKeeps | generate_sets/training_sets.py:327-332 | the loop removes no file |
| LegacyPairs.WrittenOnlyPairs | generate_sets/training_sets.py:236-244 | every new file is the text or image file of a line the loop reached |
| LegacyPairs.PairPathsApart | generate_sets/training_sets.py:236-244 | pair files of different lines, or of different kinds, have different paths |
| LegacyPairs.WriteFilesElsewhere | generate_sets/training_sets.py:234-251 | writing a line's pair leaves every other path as it was |
| LegacyPairs.WrittenText | generate_sets/training_sets.py:234-239 | a line with non-empty content ends with its text file holding that content, unless a later line has the same id |
| LegacyPairs.SummaryOf | generate_sets/training_sets.py:253-260 | the summary exists exactly when every content can be computed, and otherwise raises the loop's error |
| LegacyPairs.PairContents | generate_sets/training_sets.py:256 | one content per line, in order |
| LegacyPairs.NewlineTerminated | generate_sets/training_sets.py:256-260 | writing each content with a newline is joining them by newlines with a final newline |
| LegacyPairs.SummaryLines | generate_sets/training_sets.py:256-260 | split on newlines, a summary of single-line contents gives back the contents followed by one empty string |
| GenerateSets.RegistrySpec | generate_sets/training_sets.py:23-26 | the registry knows ALTO v3 as `alto` and both PAGE versions; ALTO v4 is not registered |
| GenerateSets.LinePairs | generate_sets/training_sets.py:327-332 | one pair per line, in order |
| GenerateSets.AltoLineOf | generate_sets/training_sets.py:80-100 | an ALTO line exists exactly when it has an `ID`, every `String` has a `CONTENT` and its box parses; a missing `ID` raises first, then a missing `CONTENT`, then the box's error; it carries the id, the box and the content of its `CONTENT`s joined by spaces |
| GenerateSets.PageLineOf | generate_sets/training_sets.py:123-177 | a PAGE line exists exactly when its words and its polygon box can be computed, with the id, the revert flag, the words and the box |
| GenerateSets.NewPageLine | generate_sets/training_sets.py:42-50 | the constructor method computes the PAGE line |
| GenerateSets.FactorySpec | generate_sets/training_sets.py:180-186 | an unregistered namespace raises `IndexError` |
| GenerateSets.TextLineFactory | generate_sets/training_sets.py:180-201 | the method computes the factory |
| GenerateSets.BuildPageLines | generate_sets/training_sets.py:199 | the constructor loop builds a line per match, in order, until one fails |
| GenerateSets.FactoryAlto | generate_sets/training_sets.py:187-191 | a `String` without `CONTENT` anywhere in the document raises `KeyError` in the length filter; otherwise the document succeeds exactly when every kept line has an `ID` and a box that parses, and yields one ALTO line per kept line, with its id and its joined content |
| GenerateSets.FactoryPageBranch | generate_sets/training_sets.py:192-199 | a PAGE document yields the lines built from the filter's matches, and a failing filter fails the factory |
| GenerateSets.PagePrefixOf | generate_sets/training_sets.py:23-26 | both PAGE namespaces map to a PAGE prefix, which is not an ALTO prefix |
| GenerateSets.FactoryPage | generate_sets/training_sets.py:192-199 | a PAGE line without own text makes the factory raise; every result line is a PAGE line with the requested revert |
| GenerateSets.TrainingSets.constructor | generate_sets/training_sets.py:210-219 | the set label is the file name without directory and extension; dpi from the image; no output folder yet |
| GenerateSets.TrainingSets.WriteData | generate_sets/training_sets.py:225-251 | the output folder is set and created, the pair of the line is written as the gate says, and a failing content raises |
| GenerateSets.TrainingSets.WriteLines | generate_sets/training_sets.py:327-332 | the loop writes the pairs of the lines up to the first failing content, raises that error, and sets the folder as soon as there is a line |
| GenerateSets.TrainingSets.WritePairs | generate_sets/training_sets.py:327-332 | the same loop over the pairs of the lines, which `write_data` reads from them |
| GenerateSets.TrainingSets.WriteAll | generate_sets/training_sets.py:253-260 | a failing content raises; without an output folder (no line) `os.path.join(None, ...)` raises; otherwise exactly the summary file is written |
| GenerateSets.TrainingSets.Create | generate_sets/training_sets.py:317-337 | factory errors write nothing and leave the output folder and the directories alone; the loop's error is raised after the pairs before it were written; otherwise the summary on request, and the lines are returned; with at least one line the output folder is set and created |
| Sets.RegistrySpec | sets/training_sets.py:172 | the registry knows ALTO v3 as `alto` and PAGE 2013; ALTO v4 and PAGE 2019 are not registered |
| Sets.FirstThenReversed | sets/training_sets.py:51-54 | no words raise `IndexError`; a single word raises the `TypeError` of `reduce` over nothing |
| Sets.FirstThenReversedSpec | sets/training_sets.py:54 | with two or more words, the first word, then the remaining words in reverse order, joined by spaces |
| Sets.FirstThenReversedExample | sets/training_sets.py:54 | an example of the order: the first word stays in front and the rest are reversed, `a b c` becomes `a c b` |
| Sets.TwoWordsInOrder | sets/training_sets.py:54 | two words keep their order |
| Sets.LinePairs | sets/training_sets.py:317-322 | one pair per line, in order |
| Sets.ShortLineAborts | sets/training_sets.py:317-322 | a line with fewer than two words makes the write loop raise |
| Sets.AltoLineOf | sets/training_sets.py:87-110 | an ALTO line exists exactly when it has an `ID`, every `String` has a `CONTENT` and its box parses; a missing `ID` raises first, then a missing `CONTENT`, then the box's error; it carries its id, its `CONTENT`s and its box |
| Sets.PageLineOf | sets/training_sets.py:113-155 | a PAGE line exists exactly when its words and its corner box can be computed |
| Sets.NewTextline | sets/training_sets.py:33-41 | the constructor builds a new object holding the line's values |
| Sets.NoTokensNoChange | sets/training_sets.py:68-81 | `line_tokens` is never filled, so the deviation of no heights is NaN and the bottom edge stays |
| Sets.FactorySpec | sets/training_sets.py:166-172 | an unregistered namespace raises `IndexError` |
| Sets.FactoryAlto | sets/training_sets.py:173-177 | a `String` without `CONTENT` anywhere in the document raises `KeyError` in the length filter; otherwise the document succeeds exactly when every kept line has an `ID` and a box that parses, and yields one line per kept line |
| Sets.FactoryPage | sets/training_sets.py:178-185 | a PAGE line without own text makes the factory raise; every line is a PAGE line |
| Sets.TextLineFactory | sets/training_sets.py:166-187 | the method returns new line objects whose values are the factory's, or its error |
| Sets.BuildLines | sets/training_sets.py:177 | one new object per line value, in order |
| Sets.TrainingData.constructor | sets/training_sets.py:196-204 | the set label is the file name without directory and extension, and the dpi comes from the image |
| Sets.TrainingData.WriteData | sets/training_sets.py:210-236 | the output folder is created, the pair is written as the gate says, and a failing content raises |
| Sets.TrainingData.WriteLines | sets/training_sets.py:317-322 | the loop writes the pairs up to the first failing content and raises that error |
| Sets.TrainingData.WritePairs | sets/training_sets.py:317-322 | the same loop over pairs |
| Sets.TrainingData.WriteAll | sets/training_sets.py:238-250 | the summary folder is created; a failing content raises; otherwise exactly the summary file is written |
| Sets.TrainingData.Create | sets/training_sets.py:307-326 | factory errors write nothing; the loop's error is raised after the earlier pairs were written; otherwise the summary is always written, into `summary<label>` when no folder is given; the pair folder is created when there is a line, and the summary folder whenever the loop completes |
| LibTrainingData.LineContent | lib/trainingdata.py:88-91 | the content is unset exactly when there are no words |
| LibTrainingData.LineContentSplits | lib/trainingdata.py:88-91 | words without spaces can be read back by splitting on spaces |
| LibTrainingData.Heights | lib/trainingdata.py:56-63 | one height `y2 - y1` per word box |
| LibTrainingData.Ends | lib/trainingdata.py:100-103 | one bottom edge per word box |
| LibTrainingData.AltoParts | lib/trainingdata.py:23-31 | the `ID`, the `CONTENT`s, the line box and one box per word, read in that order; the first missing attribute or box that does not parse raises |
| LibTrainingData.Inspected | lib/trainingdata.py:23-31 | the outlier pass keeps the id, the words and the left, top and right edges |
| LibTrainingData.AltoLineOf | lib/trainingdata.py:79-106 | an ALTO line exists exactly when it has an `ID`, every `String` has a `CONTENT`, and its box and every word box parse, with errors in that order; only the bottom edge can change |
| LibTrainingData.AltoLineBottom | lib/trainingdata.py:54-73 | the bottom edge is the line's own or some word's; without spread in the heights the box is the line's |
| LibTrainingData.ShortenedIndex | lib/trainingdata.py:68-71 | the bottom edge is taken at the argmax of the shortened list, not of the original words: heights 10, 60, 12, 20 give the third word's edge |
| LibTrainingData.PageLineOf | lib/trainingdata.py:109-138 | a PAGE line exists exactly when every text is set and the corner box can be computed |
| LibTrainingData.NewAltoLine | lib/trainingdata.py:23-31 | the constructor builds a new object holding the inspected line |
| LibTrainingData.FactorySpec | lib/trainingdata.py:141-147 | an unregistered namespace raises `IndexError` |
| LibTrainingData.FactoryAlto | lib/trainingdata.py:148-152 | a `String` without `CONTENT` anywhere in the document raises `KeyError` in the length filter; otherwise the document succeeds exactly when every kept line can be built, and yields one line per kept line with its id and words |
| LibTrainingData.FactoryPage | lib/trainingdata.py:153-160 | a PAGE document yields one line per match, with its texts as words and its corner box |
| LibTrainingData.TextDataFactory | lib/trainingdata.py:141-162 | the method returns new line objects whose values are the factory's, or its error |
| LibTrainingData.BuildAltoLines | lib/trainingdata.py:152 | the ALTO constructors, in order, until one fails |
| LibTrainingData.InspectedAll | lib/trainingdata.py:152 | one inspected line per line |
| LibTrainingData.AltoLinesFollowParts | lib/trainingdata.py:152 | building the lines fails exactly when reading their parts fails, and otherwise inspects each |
| LibTrainingData.BuildInspected | lib/trainingdata.py:152 | one new object per inspected line |
| LibTrainingData.BuildPageLines | lib/trainingdata.py:160 | the PAGE constructors, in order, until one fails |
| LibTrainingData.TifDpi | lib/trainingdata.py:238-253 | the dpi exists exactly when both tags are present and non-zero and is then the x resolution twice |
| LibTrainingData.ReadDpiOrFail | lib/trainingdata.py:231-236 | for `.tif` unpacking `None` raises `TypeError`; any other image leaves the dpi unset |
| LibTrainingData.NonTifNoParams | lib/trainingdata.py:226-229 | an image other than `.tif` is written without TIFF parameters |
| LibTrainingData.LinePairs | lib/trainingdata.py:265-270 | one pair per line, in order |
| LibTrainingData.EveryLineWritten | lib/trainingdata.py:193-210 | the content is fixed at construction, so the loop never raises and reaches every line |
| LibTrainingData.NoTextsNoFiles | lib/trainingdata.py:193-194 | a line without words writes nothing |
| LibTrainingData.TrainingData.constructor | lib/trainingdata.py:171-179 | label, image and dpi as given, nothing written |
| LibTrainingData.TrainingData.WriteData | lib/trainingdata.py:184-210 | the output folder is created and the pair is written as the gate says |
| LibTrainingData.TrainingData.WritePairs | lib/trainingdata.py:265-270 | the loop writes every pair in order |
| LibTrainingData.TrainingData.Create | lib/trainingdata.py:255-272 | factory errors write nothing and create no directory; otherwise every line's pair is written, the pair folder is created when there is a line, and the lines are returned |
| Outliers.SpreadTwo | lib/trainingdata.py:64-67 | a deviation above 10 needs at least two heights (the same loop as sets/training_sets.py:72-75, where it never runs) |
| Outliers.ArgMax | lib/trainingdata.py:68 | `np.argmax` is an index of the list (the same loop as sets/training_sets.py:76, where it never runs) |
| Outliers.ArgMaxSpec | lib/trainingdata.py:68 | the first index holding the greatest height (the same loop as sets/training_sets.py:76, where it never runs) |
| Outliers.RemoveAt | lib/trainingdata.py:69 | `pop` shortens the list by one (the same loop as sets/training_sets.py:77, where it never runs) |
| Outliers.RemoveAtMultiset | lib/trainingdata.py:69 | `pop` removes exactly the popped height (the same loop as sets/training_sets.py:77, where it never runs) |
| Outliers.RemoveAtSpec | lib/trainingdata.py:69 | the heights before the index stay, the ones after move down by one (the same loop as sets/training_sets.py:77, where it never runs) |
| Outliers.InspectPasses | lib/trainingdata.py:65-73 | at most four heights are removed; a pass that stopped early did so because the spread fell to 10; a non-empty list never empties (the same loop as sets/training_sets.py:73-81, where it never runs) |
| Outliers.InspectBottom | lib/trainingdata.py:67-73 | with no removal the bottom edge stays; otherwise it is the end of the word whose index is the argmax of the remaining heights (an index into the shortened list, applied to the original words) (the same loop as sets/training_sets.py:75-81, where it never runs) |
| Outliers.InspectKeeps | lib/trainingdata.py:67-73 | remaining and removed heights together are the original heights (the same loop as sets/training_sets.py:75-81, where it never runs) |
| Outliers.InspectTallest | lib/trainingdata.py:67-73 | every removed height is at least every remaining one (the same loop as sets/training_sets.py:75-81, where it never runs) |
| Outliers.RestBelowMax | lib/trainingdata.py:68-69 | after popping the maximum, every height left is at most it (the same loop as sets/training_sets.py:76-77, where it never runs) |
| Outliers.InspectBelow | lib/trainingdata.py:67-73 | bounds of the heights survive the passes (the same loop as sets/training_sets.py:75-81, where it never runs) |
| Outliers.InspectIdle | lib/trainingdata.py:64-67 | without spread the loop does not run and the bottom edge stays (the same loop as sets/training_sets.py:72-75, where it never runs) |
| Outliers.Textline.constructor | sets/training_sets.py:33-40 | the object holds the id, words and box as read |
| Outliers.Textline.InspectContent | sets/training_sets.py:68-81 | the in-place loop leaves the bottom edge the specification gives |
| Outliers.Snapshots | sets/training_sets.py:33-41 | one value per line object, in order |
| LineBox.RecordsToStep | generate_line_box.py:33-44 | the records of the first `k + 1` lines are those of the first `k` followed by line `k`'s |
| LineBox.GenerateLineBox | generate_line_box.py:30-44 | the printing loop over the lines of the stripped text prints exactly the box file |
| LineBox.LineBoxes | generate_line_box.py:34-44 | the method for one line computes its records |
| LineBox.GlyphLoop | generate_line_box.py:35-43 | the character loop prints one glyph box per symbol of the line, in order |
| LineBox.OwedLast | generate_line_box.py:42-43 | the symbols are what the loop owes up to the last character, then the last character unless it is combining |
| LineBox.OwedStep | generate_line_box.py:36-41 | one turn prints the previous character with a combining character, the previous character alone, or nothing |
| LineBox.BlankLineNoBoxes | generate_line_box.py:34 | a blank line prints nothing |
| LineBox.NonBlankLineEnds | generate_line_box.py:34-44 | a non-blank line ends with the tab box, and every earlier box is a glyph box for one of its symbols |
| LineBox.PlainLineOneBoxPerChar | generate_line_box.py:35-44 | a line without combining characters gets one box per character, in order, then the tab box |
| LineBox.PlainOwedTo | generate_line_box.py:35-41 | without combining characters the loop owes each character on its own |
| LineBox.OwedToShapes | generate_line_box.py:38-41 | every printed symbol is one non-combining character, or a character followed by a combining one |
| LineBox.CombiningNeverAlone | generate_line_box.py:38-43 | no combining character is printed on its own |
| LineBox.OwedInOrder | generate_line_box.py:35-41 | the symbols come out in the order of the characters |
| LineBox.OwedToPrefix | generate_line_box.py:35-41 | what the loop owes after `j` characters is a prefix of what it owes later |
| LineBox.OwedToSpells | generate_line_box.py:35-41 | the owed symbols spell the line up to the current character |
| LineBox.SymbolsSpellLine | generate_line_box.py:35-43 | a line that does not start with a combining character and holds no two in a row is spelt by its symbols exactly |
| LineBox.StripFileNoDifference | generate_line_box.py:31 | stripping a text that is already stripped changes nothing |
| SyllableBox.ClusterEnd | generate_line_syllable_box.py:43-51 | the end of a cluster lies between its start and the end of the line |
| SyllableBox.SplitClusters | generate_line_syllable_box.py:29-53 | the generator loop yields the clusters of the line |
| SyllableBox.ClusterStep | generate_line_syllable_box.py:44-51 | one turn extends the cluster with a mark or a letter after a virama, and otherwise yields it and starts a new one |
| SyllableBox.JoinedSnoc | generate_line_syllable_box.py:45-46 | extending a cluster keeps it joined |
| SyllableBox.ClustersCut | generate_line_syllable_box.py:47-50 | a character that does not join ends the cluster |
| SyllableBox.ClusterEndAt | generate_line_syllable_box.py:43-51 | the cluster ends at the first character that does not join |
| SyllableBox.ClustersConcat | generate_line_syllable_box.py:29-53 | the clusters concatenate to the line |
| SyllableBox.ClustersNonEmpty | generate_line_syllable_box.py:48-53 | no cluster is empty, and there are none exactly for the empty line |
| SyllableBox.ClustersJoined | generate_line_syllable_box.py:45-46 | inside a cluster every character after the first is a mark or a letter after a virama |
| SyllableBox.ClustersBoundary | generate_line_syllable_box.py:47-50 | every cluster boundary falls before a character that does not join |
| SyllableBox.FirstOpens | generate_line_syllable_box.py:47-50 | the first cluster starts with the first character |
| SyllableBox.ClustersUnique | generate_line_syllable_box.py:29-53 | any split into joined non-empty pieces with boundaries before non-joining characters is the split the generator makes |
| SyllableBox.ClusterRecordsShape | generate_line_syllable_box.py:66-68 | two boxes per cluster: the cluster's, then a tab box at `(0, 0, width, height)` |
| SyllableBox.ClusterRecordsSnoc | generate_line_syllable_box.py:66-68 | one more cluster adds its two boxes at the end |
| SyllableBox.GenerateSyllableBox | generate_line_syllable_box.py:59-68 | the method computes the box file or the `ValueError` |
| SyllableBox.OneLineRequired | generate_line_syllable_box.py:60-62 | a `ValueError` naming the number of lines is raised exactly when the stripped text holds a newline |
| SyllableBox.SplitOnSingle | generate_line_syllable_box.py:60-61 | splitting gives one piece exactly when there is no separator |
| SyllableBox.TwoRecordsPerCluster | generate_line_syllable_box.py:63-68 | a one-line text gives two boxes per cluster of its stripped, NFC-normalised line, and none for an empty line |
| WordStrBox.NonBlankToStep | generate_wordstr_box.py:34-35 | the loop keeps one more line exactly when it is not blank once stripped; the kept lines are the filter of the lines read |
| WordStrBox.NonBlankToNonBlank | generate_wordstr_box.py:35 | only non-blank lines are kept |
| WordStrBox.PairedSnoc | generate_wordstr_box.py:36-37 | one more line adds its two records at the end |
| WordStrBox.RecordsShape | generate_wordstr_box.py:34-37 | the records of the first `k` lines are two per non-blank line, in order |
| WordStrBox.FileShape | generate_wordstr_box.py:30-37 | the whole file: a WordStr record carrying the line, then the tab record, for each non-blank line of the stripped text |
| WordStrBox.CommentVerbatim | generate_wordstr_box.py:36 | the printed WordStr record holds the line verbatim after its first `#` |
| WordStrBox.StripFirst | generate_wordstr_box.py:31 | stripping the text first changes nothing |
| GtFromBox.ReadNewlines | generate_gt_from_box.py:29 | text-mode reading leaves no carriage return |
| GtFromBox.ReadNewlinesPlain | generate_gt_from_box.py:29 | a text without carriage returns is read as it is |
| GtFromBox.OneCharField | generate_gt_from_box.py:30 | the first field of a one-character box is the character, or the placeholder `位` for a space |
| GtFromBox.FieldAfterSymbol | generate_gt_from_box.py:30 | the split at the first space cuts exactly after the symbol |
| GtFromBox.SpaceBoxField | generate_gt_from_box.py:30 | a space box yields the placeholder |
| GtFromBox.EndBoxField | generate_gt_from_box.py:30 | the end-of-line box yields a tab |
| GtFromBox.SentinelReadsAsSpace | generate_gt_from_box.py:30-31 | a box for a literal `位` is read back as a space, as a space box is |
| GtFromBox.TabReadsAsNewline | generate_gt_from_box.py:31 | a tab glyph box is read back as a newline, as the end-of-line box is |
| GtFromBox.FieldsAppend | generate_gt_from_box.py:30 | the fields of two runs of boxes are the two runs of fields |
| GtFromBox.PrintedFields | generate_gt_from_box.py:30 | reading the printed boxes line by line gives their first fields |
| GtFromBox.RestoreAppend | generate_gt_from_box.py:31 | the two replacements work character by character |
| GtFromBox.GlyphFields | generate_gt_from_box.py:30 | the fields of one-character boxes are the characters with spaces replaced by the placeholder |
| GtFromBox.GlyphsRestored | generate_gt_from_box.py:30-31 | replacing back gives the characters themselves |
| GtFromBox.LineRoundTrip | generate_gt_from_box.py:30-31 | the boxes of a plain line are read back as the line and a newline |
| GtFromBox.GlyphsAndEndRestored | generate_gt_from_box.py:30-31 | the glyph boxes of a line and its tab box are read back as the line and a newline |
| GtFromBox.SymbolsRestored | generate_gt_from_box.py:30-31 | the glyph boxes of a plain line are read back as the line |
| GtFromBox.EndRestored | generate_gt_from_box.py:31 | the tab box adds a newline |
| GtFromBox.LinesRoundTrip | generate_gt_from_box.py:30-31 | the boxes of the first `k` plain lines are read back as those lines, each followed by a newline |
| GtFromBox.SplitPlain | generate_gt_from_box.py:30 | every line of a plain text is plain |
| GtFromBox.FileLinesPlain | generate_gt_from_box.py:30 | every line of a plain box-tool input is plain |
| GtFromBox.AllPlainUpTo | generate_gt_from_box.py:30 | plain lines are plain up to every index |
| GtFromBox.RoundTrip | generate_gt_from_box.py:27-32 | the ground truth rebuilt from the line-box output of a plain text is its lines, each followed by a newline, and the two newlines the two `print` calls add |
| GtFromBox.PrintedRoundTrip | generate_gt_from_box.py:27-32 | for printed plain boxes the ground truth is the restored fields followed by two newlines |
| GtFromBox.GroundTruthPlain | generate_gt_from_box.py:27-32 | for a box text without carriage returns, the ground truth is the restored first fields with one newline from each `print` |
| GtFromBox.PlainRecordsAppend | generate_gt_from_box.py:30 | plain boxes stay plain when concatenated |
| GtFromBox.RecordsPlain | generate_gt_from_box.py:30 | the boxes of plain lines are plain |
| GtFromBox.LineRecordsPlain | generate_gt_from_box.py:30 | the boxes of a plain line are plain |
| GtFromBox.PrintedPlain | generate_gt_from_box.py:30 | printed plain boxes hold no carriage return |
| GtFromBox.RenderPlain | generate_gt_from_box.py:30 | a rendered plain box holds no newline or carriage return |
| Boxes.Glyphs | generate_line_box.py:39-43 | one glyph box per symbol |
| Boxes.GlyphsIndex | generate_line_box.py:39-43 | the i-th glyph box covers the whole image and holds the i-th symbol |
| Boxes.GlyphsSnoc | generate_line_box.py:39-43 | one more symbol adds its box at the end |
| Boxes.PrintedAppend | generate_line_box.py:33-44 | printing two runs of boxes prints them one after the other |
| Boxes.GlyphIsNotLineEnd | generate_line_box.py:39-44 | a glyph box never equals the end-of-line box |
| Boxes.IntToStringPlain | generate_line_box.py:39 | `%d` writes digits and possibly a leading minus |
| Boxes.CoordinatesShape | generate_line_box.py:39 | the coordinate part starts with a space and holds only spaces, digits and minus signs, with no two spaces in a row |
| Boxes.SpacedFields | generate_line_box.py:39 | fields each preceded by one space keep that shape |
| CountChars.LastArgument | count_chars.py:7-18 | the file is the last positional argument, or empty when there is none |
| CountChars.FirstOccurrencesSpec | count_chars.py:24-31 | the dictionary's key order holds every character of the text once |
| CountChars.FirstOccurrencesSnoc | count_chars.py:25-29 | a new character goes to the end of the key order; one already seen changes nothing |
| CountChars.TallyStep | count_chars.py:25-29 | one turn keeps the counts equal to the occurrences so far |
| CountChars.Count | count_chars.py:24-31 | the keys are exactly the characters of the text, each counted as often as it occurs, in order of first occurrence |
| CountChars.OccurrencesSnoc | count_chars.py:25-29 | one more character adds one hit |
| CountChars.HitsDistinct | count_chars.py:25-29 | a character hits exactly one of distinct keys |
| CountChars.HitsAbsent | count_chars.py:25-29 | a character that is not a key hits nothing |
| CountChars.OccurrencesCover | count_chars.py:24-31 | every character is a key, so the hits add up to the length |
| CountChars.TotalIsOccurrences | count_chars.py:24-31 | the counts of the keys add up to their hits |
| CountChars.CountsSumToLength | count_chars.py:24-31 | the counts add up to the length of the text |
| CountChars.SortedKeysAscending | count_chars.py:31-32 | `keys.sort()` gives the same characters in strictly ascending code-point order |
| CountChars.DistinctMultiset | count_chars.py:31-32 | distinct keys occur once each |
| CountChars.CountLinesNamed | count_chars.py:34-39 | one output line per key that has a Unicode name, in order, each with its count and name |
| CountChars.NamedMembers | count_chars.py:35-39 | exactly the keys whose name lookup does not raise are printed |
| CountChars.AscendingTail | count_chars.py:34 | the keys after the first stay ascending and follow it |
| CountChars.AscendingCons | count_chars.py:34 | a key before all of an ascending run keeps it ascending |
| CountChars.NamedAscending | count_chars.py:34-39 | dropping the unnamed keys keeps the order |
| CountChars.ReportedSpec | count_chars.py:24-39 | the printed characters are exactly the named characters of the text, in ascending order |
| CountChars.ReportShape | count_chars.py:31-39 | the output is the header, then one line per printed character with its number of occurrences and its name |
| CountChars.CountCharsReport | count_chars.py:20-39 | the method prints the header, then for each named character of the text, in ascending order, its count and name |
| EvalTrain.BreakIndex | generate_eval_train.py:17 | the index of the first line boundary, every earlier character not one |
| EvalTrain.SplitLinesUnbroken | generate_eval_train.py:17 | `splitlines` gives lines without boundary characters |
| EvalTrain.BreakIsNewline | generate_eval_train.py:17 | in a text whose only boundaries are newlines, the first boundary is the first newline |
| EvalTrain.DropFinalNewlineCons | generate_eval_train.py:17 | dropping a final newline does not touch an earlier line |
| EvalTrain.SplitLinesAt | generate_eval_train.py:17 | a newline cuts off the first line |
| EvalTrain.NewlinesOnlyDrop | generate_eval_train.py:17 | a suffix of a newline-only text is newline-only |
| EvalTrain.SplitLinesOnNewlines | generate_eval_train.py:17 | when newlines are the only boundaries, `splitlines` is splitting on newlines after dropping one final newline |
| EvalTrain.SplitLinesJoin | generate_eval_train.py:17 | joining the lines by newlines gives the text without its final newline |
| EvalTrain.JoinSplitLines | generate_eval_train.py:27-28 | lines joined by newlines split back into the same lines when the last one is not empty |
| EvalTrain.JoinLast | generate_eval_train.py:27-28 | the join ends with the last line |
| EvalTrain.JoinNewlinesOnly | generate_eval_train.py:27-28 | joining unbroken lines by newlines leaves newlines as the only boundaries |
| EvalTrain.SliceIndex | generate_eval_train.py:27-28 | a Python slice bound clamps to the length |
| EvalTrain.Partition | generate_eval_train.py:19-28 | the train lines followed by the eval lines are all the lines |
| EvalTrain.ShareCut | generate_eval_train.py:19 | for a ratio in [0, 1] the split point is `floor(ratio * n)` |
| EvalTrain.TrainSize | generate_eval_train.py:19-28 | for a ratio in [0, 1] the train list holds `floor(ratio * n)` lines and the eval list the rest |
| EvalTrain.RatioBounds | generate_eval_train.py:19 | a ratio in [0, 1] scales the count into [0, n] |
| EvalTrain.RatioAboveOne | generate_eval_train.py:19-28 | a ratio of at least 1 puts every line into the train list |
| EvalTrain.NegativeRatio | generate_eval_train.py:19-28 | a negative ratio counts from the end: the eval list holds the last `floor(-ratio * n)` lines, or all lines when that is 0 or more than n |
| EvalTrain.SplitFileResult | generate_eval_train.py:12-29 | `True` is returned exactly when a file exists at the path; a missing path returns `False` with a message naming `str(Path(p))`, the normalised path; a directory raises `IsADirectoryError` |
| EvalTrain.ListsHoldLines | generate_eval_train.py:17-28 | the two lists hold the lines before and after the split point, joined by newlines |
| EvalTrain.ListsReadBack | generate_eval_train.py:17-28 | for non-empty unbroken lines, reading both lists back gives all the lines |
| EvalTrain.ResolveParts | generate_eval_train.py:20 | `resolve()` makes a relative path absolute below the working directory |
| EvalTrain.ListNames | generate_eval_train.py:21-22 | the list names are single path components |
| EvalTrain.ListsBesideInput | generate_eval_train.py:20-22 | both lists lie in the directory of the resolved input file and are named `list.train` and `list.eval` |
| EvalTrain.InDirParts | generate_eval_train.py:21-22 | a name joined onto a directory adds one component |
| EvalTrain.RunArguments | generate_eval_train.py:32-39 | without a ratio argument the ratio is 0.95; with one it is the parsed float; without a file argument the script raises |
| Text.StripSpec | generate_line_box.py:31 | `str.strip()` removes exactly the leading and trailing whitespace, leaves an infix of the input that neither starts nor ends with whitespace, and is empty exactly for an all-whitespace string |
| Text.StripUnchanged | generate_line_box.py:31 | stripping a string that neither starts nor ends with whitespace changes nothing |
| Text.SplitOnJoin | generate_line_box.py:31 | joining the pieces of `split('\n')` with newlines gives the text back |
| Text.JoinSplitOn | generate_eval_train.py:27-28 | pieces without the separator, joined by it, split back into the same pieces |
| Text.IndexOf | generate_gt_from_box.py:30 | the first occurrence of a character, or the length when there is none |
| Text.SplitWsTokens | generate_sets/training_sets.py:170 | `split()` gives non-empty tokens without whitespace |
| Text.SplitWsEmpty | generate_sets/training_sets.py:170 | `split()` gives no token exactly for an all-whitespace string |
| Text.RemoveCharIsReplace | src/tesstrain/training_sets.py:219-224 | removing a character is `replace` of it by the empty string |
| Sorting.SortBySorted | src/tesstrain/training_sets.py:210-212 | `sorted` with a key gives an order ascending by the key |
| Sorting.SortBy | src/tesstrain/training_sets.py:210-212 | `sorted` keeps the same elements, counted with multiplicity |
| Sorting.SortByStable | src/tesstrain/training_sets.py:210-212 | elements with equal keys keep their relative order, as Python's sort is stable |
| Paths.Stem | src/tesstrain/training_sets.py:337 | `Path.stem` is the last component without its final suffix |
| Paths.ParentParts | src/tesstrain/training_sets.py:295 | `parent` drops the last component and keeps the path absolute or relative |
| Paths.GrandparentParts | src/tesstrain/training_sets.py:295 | `parent.parent` drops the last two components |
| Paths.PathJoinEnds | src/tesstrain/training_sets.py:400-406 | `os.path.join` onto a relative name starts with the directory and ends with the name |
| Paths.PathJoin | src/tesstrain/training_sets.py:400-406 | an absolute second argument replaces the first; otherwise a `/` is put between them when the first does not end with one |
| Paths.BaseName | lib/trainingdata.py:175 | `os.path.basename` is a suffix without a slash |
| Paths.SplitExtRoot | lib/trainingdata.py:175 | the root of `os.path.splitext` is the name without its last non-leading extension |
| Seqs.Collect | generate_sets/training_sets.py:170 | a list comprehension whose element raises either yields every value, in order, or the first element's error |
| Seqs.CollectFirstError | generate_sets/training_sets.py:170 | the error raised is that of the first element that fails |
| Seqs.Filter | src/tesstrain/training_sets.py:260-261 | a filter keeps exactly the elements that satisfy the condition |
| Seqs.FilterAll | src/tesstrain/training_sets.py:260-261 | a filter that every element passes changes nothing |
| Text.Int | lib/trainingdata.py:126-129 | `int()` of a decimal numeral is its value; any failure is the `ValueError` naming the string |
| Text.SubstBack | generate_gt_from_box.py:30-31 | a character replaced by one the text does not hold is restored by the reverse replacement |

## Left out

- XML parsing with lxml: documents are given as parsed values. A text lxml reports as `None` is the empty string. An ALTO attribute the element lacks is `None`, and reading it raises `KeyError`, in the current module and in the three legacy ones alike.
- PAGE attributes: the `id` of a `TextLine` or `Word`, the `points` of a `Coords` and the `imageFilename` of a `Page` are required by the PAGE schema; the model takes them as present and does not model the `KeyError` of a document without them. `Ocr.Document.imageFilename` is `None` only for a document without a `Page` element, where `find(...)` gives `None` and reading `.attrib` on it is the `AttributeError` that `Training.ResolveImagePath` returns as `MissingValue`; a `Page` without `imageFilename`, whose `KeyError` would be `MissingAttribute("imageFilename")`, is not modelled.
- Directory creation: `dirs` is the set of existing directories, apart from the file map. A plain file at a directory path, which makes `os.makedirs` raise `FileExistsError` even with `exist_ok=True` (generate_sets/training_sets.py:232, sets/training_sets.py:217 and :244, lib/trainingdata.py:191), a directory created by someone else between the `isdir` test and `os.makedirs` at src/tesstrain/training_sets.py:401-402, and permission errors are not modelled.
- Image files and their metadata: `imread`/`imwrite`, PIL's `Image.open(...).size` and `info['dpi']`, and the TIFF tags of `exifread`. They are given to the model as a raster, a size or tag values.
- The OpenCV algorithms: GaussianBlur with Otsu, `findContours`, moments and centroids, `minAreaRect` in `is_rectangular`, `fillPoly`/`fillConvexPoly`, Canny with `HoughLinesP`, `atan2`, `getRotationMatrix2D` with `warpAffine`, and `resize` of contours. They are oracle fields of `Vision.Cv`. Only what the source relies on is stated: output sizes, and pixels the source copies itself.
- Sanitize.RotateTextLineCenter: the rotated pixels are whatever the `warpAffine` oracle gives. Only the size restore of the pad-50/slice-back and the decision to rotate are proved.
- The 1.49 `resize` of intruding contours resamples a point array and is not a scaling. It is the oracle `resized`, with no geometric contract.
- Raster.GrayCanvas: the 5 by 5 `filter2D` box blur that ends `gray_canvas` is not applied, so the canvas is the raw `uint8` draws. The draws come from `np.random` and are a parameter; only their band `[start, end)` is modelled. When the band reaches past 255 the draws wrap to small values; the source blurs these into mid tones, while the model keeps them as they are.
- Training.NumericLabel: `str.isnumeric()` is taken as ASCII digits only. A stem of other Unicode digits such as `'٣'` keeps its text instead of becoming `page3` and `p3`. A stem such as `'²'`, which `isnumeric()` accepts and `int()` rejects with `ValueError`, keeps its text instead of making `create` fail.
- Text.Int: `int()` is taken to accept an optional sign and ASCII decimal digits, with surrounding whitespace. Unicode decimal digits and `_` separators (`int('1_0')` is 10) give `NotAnInteger`.
- Floating point: ratios, angles, means and medians are exact reals. NaN and infinity as ratios are not modelled. The NaN median of an empty pixel selection is the `ValueError` that `int()` raises on it.
- `pathlib`'s `resolve()` does not follow symbolic links and does not fold `..` here: it prefixes the working directory. Only the existence of files is checked, through the file map.
- `generate_gt_from_box.py` opens the `-t` file for writing (line 28) before it reads the `-b` file (line 29). So a missing box file still leaves an empty ground-truth file behind, and a `-t` equal to `-b` empties the input before it is read. `GtFromBox` models the text transformation only, not these file effects.
- Text-mode reads (`read_text`, `open(..., 'r')`) translate newlines. Only `generate_gt_from_box.py`'s read is modelled (`GtFromBox.ReadNewlines`); elsewhere the file map gives the text as read.
- Standard error: the "skip ... invalid coords" message that `PageLine.set_text` prints for a word-less line with invalid coordinates is not modelled; the line is only marked invalid.
- `getopt` in `count_chars.py` is not modelled: options are taken as already removed from the argument list. `argparse` in the box tools is not modelled either: their arguments are the function parameters.
- `unicodedata` and NFC normalisation: parameters, as described above.
- Python dictionary insertion order: `count_chars.py`'s dict is a map plus its key order.
- The pipeline orchestration (`src/tesstrain/generate.py`, `arguments.py`, `wrapper.py`, `__main__.py`) and the command-line front ends (`training_sets_cli.py`, `extract_sets/cli.py`, `generate_sets/cli.py`, `generate_sets.py`, `generate_trainingdata.py`) are not part of this model: they sequence subprocesses and threads and parse arguments.
- `plot_cer.py`, `plot_LOG.py`, `plot/*`, `shuffle.py` (`random.shuffle`), `normalize.py` (`unicodedata.normalize`) and the packaging files are not part of this model.
- `ALTOLine.sanitize_box` in `generate_sets/training_sets.py` is never effective: its query matches no element. It is not modelled.
- The `uint32` cast of PAGE points follows NumPy 2: a coordinate outside the `uint32` range raises `OverflowError`. The silent wrap-around of older NumPy versions is not modelled; the later `int32` view of a `uint32` value is modelled as wrap-around.
- The two intrusion-ratio defaults are both kept: `DEFAULT_INTRUSION_RATIO` is 0.1, while `create` passes 0.125. Both are constants of `Sanitize`.
