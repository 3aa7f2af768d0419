# Identity-document verification rules in Dafny

This project models the decision and text rules of an identity-verification
pipeline. The pipeline reads a photographed passport, UAE Emirates ID or
Canadian photo card. It classifies the document, pulls its fields out of the
OCR text and the machine-readable zone (MRZ), and finds the face on it. It
then compares that face with a live capture and decides whether the capture
is live.

Everything the pipeline measures on pixels enters as an abstract input. That
covers Laplacian variance, colour variance, FFT energy, histogram
correlation, embedding distance, eye aspect ratios and detected boxes.
Foreign libraries enter as inputs too: Tesseract, dlib, face_recognition,
passporteye and OpenCV. The model covers the rules applied to those inputs.

The modules follow the source files:

| module | file | source |
|---|---|---|
| `Liveness` | liveness.dfy | liveness_checker.py |
| `FaceMatcher` | face_matcher.dfy | face_matcher.py |
| `FaceDetector` | face_detector.dfy | face_detector.py |
| `Utils` | utils.dfy | utils.py, except `parse_date` |
| `Dates` | dates.dfy | `parse_date` in utils.py |
| `OcrEngine` | ocr_engine.dfy | ocr_engine.py |
| `Processor` | processor.dfy | processor.py |
| `Config` | config.dfy | the default constants of config.py |
| `Text` | text.dfy | helpers for Python's `str` methods (ASCII) |
| `Numeric` | numeric.dfy | helpers for sum, mean, `int()` truncation and `min` |
| `Wrappers` | wrappers.dfy | `Option` |

Loops in the source are methods with loops, each proved against a
specification function:
- `count_blinks` and `check_head_movement`;
- the block filter of `extract_text_native`;
- `extract_mrz`;
- the name, address and date loops of `process_canada_id`;
- the box conversions of the face detector.

`parse_date` is modelled on Python's `strptime`. Each of its nine formats
is matched against the input with backtracking over each directive's regex
alternatives. The match must consume the whole input and the calendar date
must be valid. The formats are tried in order.

`validate_file_size` is the predicate `Utils.ValidateFileSize`: the bound is
inclusive.

## Model

| member | source | states |
|---|---|---|
| Liveness.DetectBlink | liveness_checker.py:54-80 | A frame is closed iff the predictor is loaded, a face is found and the average EAR is strictly below 0.25. With no predictor or no face the result is (False, 0.0). |
| Liveness.ClosedFlags | liveness_checker.py:87-90 | There is one closed flag per frame, each the `detect_blink` decision for that frame. |
| Liveness.CountBlinks | liveness_checker.py:82-97 | The loop's count is the number of open frames that end a closed run of at least 3 frames. |
| Liveness.RunBeforeLong | liveness_checker.py:89-95 | The loop's run counter reaches 3 before frame i iff the three preceding frames are closed. This ties the counter to the positional definition of a blink. |
| Liveness.BlinksBound | liveness_checker.py:82-97 | Every counted blink consumes at least four frames: 4 · blinks ≤ number of frames. |
| Liveness.TrailingClosedRunNotCounted | liveness_checker.py:87-97 | A closed run still open at the end of the frames adds no blink. |
| Liveness.NoClosedFrameNoBlink | liveness_checker.py:87-97 | With no closed frame there is no blink. |
| Liveness.NoPredictorNoBlinks | liveness_checker.py:56-57 | Without the landmark predictor no blink is ever counted. |
| Liveness.AppendOpen | liveness_checker.py:91-95 | An open frame adds one blink exactly when the three frames before it are closed, and resets the run. |
| Liveness.AppendClosed | liveness_checker.py:90-92 | A closed frame never adds a blink. |
| Liveness.OneBlinkExample | liveness_checker.py:82-97 | Four closed frames between open ones count as one blink. |
| Liveness.NoBlinkExample | liveness_checker.py:82-97 | Two closed frames between open ones count as no blink. |
| Liveness.FaceCenters | liveness_checker.py:106-114 | There is at most one centre per frame. |
| Liveness.CheckHeadMovement | liveness_checker.py:99-125 | False with fewer than 5 frames or fewer than 5 faces. Otherwise true iff the population variance of the x or the y centres exceeds 100. |
| Liveness.VarianceConstant | liveness_checker.py:119-123 | The variance of equal values is 0. |
| Liveness.StillHeadDoesNotMove | liveness_checker.py:99-125 | If every detected face has the same box, no movement is reported. |
| Liveness.PassiveLivenessCheck | liveness_checker.py:146-160 | Live iff texture > 50, colour variance > 100 and high frequency > 10. Confidence is at most 100, and at least 0 for non-negative cues. |
| Liveness.UniformImageFailsSingleFrame | liveness_checker.py:146-150 | An image with no texture and no colour variance is never passively live. |
| Liveness.BlinkScore | liveness_checker.py:187 | The blink score lies in [0, 100]. It is 0 iff there is no blink, 50 at the blink threshold, and 100 from twice the threshold on. |
| Liveness.CheckLiveness | liveness_checker.py:162-199 | With more than one frame, the score is the mean of blink, movement and passive scores, and it passes iff the score > 50. Otherwise the passive confidence is the score and `is_live` decides. Quality and passive results are always reported. |
| Liveness.ZeroBlinksNeverPass | liveness_checker.py:187-193 | In multi-frame mode, zero blinks give a score of at most 50, so the check never passes. |
| Liveness.FusedScoreMonotone | liveness_checker.py:187-191 | More blinks or detected movement never lower the fused score. |
| FaceMatcher.NewMatcher | face_matcher.py:15-17 | The given threshold is used unless it is missing or 0.0, in which case the default 0.6 is used. The distance tolerance is the default. |
| FaceMatcher.NewMatcherStable | face_matcher.py:15-17 | Constructing a matcher from a matcher's own threshold changes nothing. |
| FaceMatcher.CompareFacesDlib | face_matcher.py:19-52 | No encoding on either side is a failure with its error message. Otherwise similarity = 1 − distance, confidence = similarity · 100, and match iff distance ≤ tolerance. |
| FaceMatcher.Mul | face_matcher.py:128-132 | The pixel-wise product has the shorter length, with each pixel the product. |
| FaceMatcher.SsimAtSymmetric | face_matcher.py:123-136 | Swapping the two images leaves the SSIM value at a pixel unchanged. |
| FaceMatcher.SsimPixelSymmetric | face_matcher.py:134-136 | The SSIM quotient is symmetric in the two images' statistics. |
| FaceMatcher.SsimMapSymmetric | face_matcher.py:123-136 | The SSIM map is the same when the images are swapped, for any blur. |
| FaceMatcher.CalculateSsim | face_matcher.py:115-137 | The score is the mean of the SSIM map, so it lies between the smallest and the largest per-pixel value. Symmetry is `SsimSymmetric`, and a face compared with itself scoring 1 is `SsimOfItself`. |
| FaceMatcher.SsimSymmetric | face_matcher.py:115-137 | `_calculate_ssim` is symmetric in its two images. |
| FaceMatcher.SsimPixelOfItself | face_matcher.py:134-135 | With a non-negative variance the SSIM quotient of a pixel with itself is 1. |
| FaceMatcher.SsimOfItself | face_matcher.py:115-137 | An image compared with itself scores exactly 1 when every local variance is non-negative, as a Gaussian blur's is. |
| FaceMatcher.CompareFacesOpenCV | face_matcher.py:80-113 | The combined score is the mean of the histogram and SSIM scores. Match iff combined > threshold, strictly. Confidence = combined · 100. |
| FaceMatcher.OpenCVMatchMonotone | face_matcher.py:103 | Raising the threshold can only turn a match into no match. |
| FaceMatcher.OpenCVScoreSymmetric | face_matcher.py:80-113 | With a symmetric histogram comparison, the structural result does not depend on the order of the faces. |
| FaceMatcher.MatchFaces | face_matcher.py:139-147 | "opencv" selects the structural comparison; "dlib" and every other name select dlib. |
| FaceMatcher.ScaledWidth | face_matcher.py:156-160 | The scaled width is ⌊w · 300 / h⌋, and there is none when h is 0. |
| FaceMatcher.ComparisonLayout | face_matcher.py:149-181 | No picture iff a height is 0 or a scaled width truncates to 0, where `cv2.resize` raises. Otherwise: height 300, width new_w1 + new_w2 with both positive, and the "Live" label at new_w1 + 10. The headline is "MATCH" iff the result's match is true, else "NO MATCH". |
| FaceMatcher.FailedResultDrawnAsNoMatch | face_matcher.py:167-175 | A failed comparison is drawn as NO MATCH with confidence 0. |
| FaceDetector.ToLocation | face_detector.py:38-40 | (x, y, w, h) becomes (top = y, right = x + w, bottom = y + h, left = x). |
| FaceDetector.LocationRoundTrip | face_detector.py:38-40 | Converting a box to a location and back, or a location to a box and back, is the identity. |
| FaceDetector.ToLocationWellFormed | face_detector.py:38-40 | For positive w and h, right > left and bottom > top. |
| FaceDetector.DetectFacesOpenCV | face_detector.py:25-41 | The loop converts every box, keeping count and order. |
| FaceDetector.DetectFaces | face_detector.py:49-54 | OpenCV only for "opencv", dlib for every other method name. |
| FaceDetector.LargestIndex | face_detector.py:63-64 | The chosen box has the largest area, and it is the first such box. |
| FaceDetector.ExtractLargestFace | face_detector.py:56-70 | None iff there is no face. Otherwise the result is a box from the list of largest area, the first such box on a tie as `max` keeps it, together with its crop. |
| FaceDetector.ExtractFaceFromDocument | face_detector.py:72-78 | None iff `extract_largest_face` is None; otherwise its crop. |
| FaceDetector.DetectEyes | face_detector.py:104-114 | The loop returns every detected eye box, in order. |
| FaceDetector.ValidateFaceQuality | face_detector.py:116-134 | Large enough iff both sides ≥ 100. Aspect ratio is width / height, or 0 for height 0. Eyes are detected iff there are at least 2. The image-quality flags are included. |
| Utils.LastIndexOf | utils.py:55 | The position of the last occurrence of a character, or none when there is none. |
| Utils.PathName | utils.py:55 | The final path component contains no '/'. |
| Utils.Suffix | utils.py:55 | The suffix is empty or a final '.' followed by at least one character without a dot, taken from the end of the name. |
| Utils.LStripDots | utils.py:55 | The result is a suffix of the input that does not start with '.'. |
| Utils.PathNameLower | utils.py:55 | Lowering commutes with taking the final path component. |
| Utils.SuffixLower | utils.py:55 | Lowering commutes with taking the suffix. |
| Utils.ValidateFileFormat | utils.py:53-56 | A name without a suffix is accepted iff "" is allowed. Otherwise it is accepted iff its lowered suffix without the one leading dot is allowed. Case-insensitivity is `ValidateFileFormatIgnoresCase`. |
| Utils.ExtensionOfSuffix | utils.py:55 | `lstrip('.')` of a lowered pathlib suffix removes exactly its one leading dot. |
| Utils.ValidateFileFormatIgnoresCase | utils.py:53-56 | A file name is accepted iff its lower-cased form is accepted. |
| Utils.ValidateFileSize | utils.py:59-61 | A file passes iff its size is at most the limit; its properties are `FileSizeLimitInclusive`. |
| Utils.FileSizeLimitInclusive | utils.py:59-61 | The limit is inclusive: a file of exactly the limit passes, one byte more fails, and a smaller file passes whenever a larger one does. |
| Utils.CheckImageQuality | utils.py:64-85 | Bright iff brightness > 50, sharp iff blur > 100, contrast iff contrast > 30, all strict. The measured values are passed through. |
| Utils.KeepSafe | utils.py:120-121 | Only alphanumerics and '.', '_', '-' are kept, and never more characters than the input has. |
| Utils.KeepSafeAppend | utils.py:120-121 | The filter works character by character: filtering a concatenation concatenates the filtered parts. |
| Utils.KeepSafeKeepsSafeChars | utils.py:120-121 | Each safe character occurs in the output exactly as often as in the input. |
| Utils.SanitizeFilename | utils.py:118-121 | The sanitised name holds only safe characters. |
| Utils.SanitizeKeepsEverySafeChar | utils.py:118-121 | The sanitised name has every safe character of the name as often as the name has it, and no unsafe one. |
| Utils.SanitizeIsSubsequence | utils.py:118-121 | The sanitised name is a subsequence of the input. |
| Utils.SanitizeIdempotent | utils.py:118-121 | Sanitising twice equals sanitising once. |
| Utils.SanitizeKeepsSafeName | utils.py:118-121 | A name of safe characters is left unchanged. |
| Utils.Slice | utils.py:127 | A slice inside bounds is the plain subsequence. |
| Utils.CropFaceRegion | utils.py:124-127 | When top..bottom lies inside the image, the crop has bottom − top rows. Each row within its row's width is exactly the left..right columns of the image row it comes from. |
| Utils.CropInside | utils.py:124-127 | For a rectangular image, a box inside it crops to exactly the rows and columns it covers. |
| Utils.ResizeImage | utils.py:130-141 | Unchanged iff both sides are within bounds. A zero side divides by zero. An oversized image otherwise has both sides scaled by r = min(maxW/w, maxH/h) and truncated. It is resized to exactly those sides iff neither is 0, else it is the `cv2.resize` error. A resized image has each new side positive, at most its bound and at most its old size, and one side meets its bound. |
| Utils.ResizeRatio | utils.py:137 | The ratio is the smaller of maxW/w and maxH/h, and is non-negative. |
| Utils.ResizeKeepsAspect | utils.py:137-141 | The aspect ratio is kept up to truncation: new_w·h ≤ w·new_h + w, and new_h·w ≤ h·new_w + h. |
| Utils.TruncatedProportion | utils.py:138-139 | Two sides truncated after scaling by one ratio satisfy a·h ≤ w·b + w. |
| Utils.ThinStripCannotBeResized | utils.py:137-141 | A 1000 x 1 image scales its height to 0.8, truncated to 0, so the resize fails. |
| Utils.LargePageIsHalved | utils.py:137-141 | A 1600 x 1200 image becomes exactly 800 x 600. |
| Utils.ResizeBounds | utils.py:136-139 | ⌊w·r⌋ and ⌊h·r⌋ with r = min(maxW/w, maxH/h) stay within the bounds, and one equals its bound. |
| Dates.IsoFormat | utils.py:102 | `strftime("%Y-%m-%d")` is 10 characters with dashes at 4 and 7, and the digits read back as year, month and day. |
| Dates.Padded | utils.py:102 | Zero padding gives digits whose value is the number. |
| Dates.DayCandidates | utils.py:93-97 | `%d` reads at most two characters with a value in 1..31, in the order strptime's expression tries them. |
| Dates.MonthCandidates | utils.py:93-97 | `%m` reads one or two digits with a value in 1..12. |
| Dates.YearCandidates | utils.py:93-97 | `%Y` reads exactly four digits, a value of at most 9999. |
| Dates.Strptime | utils.py:99-101 | A parse succeeds only on a valid calendar date. |
| Dates.ParseDate | utils.py:88-106 | None iff the input is empty. For a non-empty input, the result is the ISO form of the date the first format that reads the stripped input gives. When no format reads it, the result is the input unchanged. |
| Dates.FirstParseFirstSuccess | utils.py:99-104 | The formats are tried in order: the first that parses decides, and all earlier ones fail. |
| Dates.DayFirstExample | utils.py:93-104 | "01/02/2020" is read day-first as "2020-02-01". |
| Dates.StrptimeReadsIso | utils.py:93-104 | The ISO form of a valid date is read back as that date. |
| Dates.ParseDateIdempotent | utils.py:88-106 | Normalising a normalised date changes nothing. |
| OcrEngine.ChoosePass | ocr_engine.py:61-68 | The original grayscale pass is chosen iff its text is strictly longer; ties go to the preprocessed pass. |
| OcrEngine.ExtractTextNative | ocr_engine.py:42-111 | The loop builds the blocks and confidences of the native result. A raised error gives the error result. |
| OcrEngine.KeptInStep | ocr_engine.py:80-87 | Blocks and confidences have equal length. Every kept block is non-empty and its confidence exceeds 30. |
| OcrEngine.KeptConfidenceAboveCutoff | ocr_engine.py:80-84 | A kept word's confidence truncates above min(60, 30). |
| OcrEngine.NativeResultProperties | ocr_engine.py:89-99 | word_count = number of blocks, and no block is blank. Confidence is 0 when nothing is kept; otherwise it is the mean, at least 31 and within any bounds that hold for the confidences of the kept words (the -1 rows of non-words are not kept). |
| OcrEngine.KeptFromInput | ocr_engine.py:80-87 | Every kept confidence is the confidence of a kept word, so bounds on the kept words' confidences bound the kept list. |
| OcrEngine.NativeFailure | ocr_engine.py:101-111 | An error gives empty text and blocks, confidence 0, word count 0 and the message. |
| OcrEngine.ApiResult | ocr_engine.py:113-123 | The API placeholder has empty text and confidence 0. |
| OcrEngine.ExtractText | ocr_engine.py:125-130 | Mode "api" gives the placeholder; every other mode gives native OCR. |
| OcrEngine.FindFieldByPattern | ocr_engine.py:132-138 | Some iff a pattern matches, and then it is the stripped group 1 (or group 0) of the first matching pattern. |
| OcrEngine.ExtractDocumentNumber | ocr_engine.py:168-185 | Passport and UAE use their own pattern lists; every other type gives None. |
| OcrEngine.KeepMrzChars | ocr_engine.py:147 | Only A–Z, 0–9 and '<' remain. |
| OcrEngine.MrzLines | ocr_engine.py:146-150 | Every kept line is cleaned and has length 30, 36 or 44. |
| OcrEngine.ExtractMrz | ocr_engine.py:140-151 | The loop's lines are returned iff there are at least two; otherwise None. |
| OcrEngine.CleanMrzLineIdempotent | ocr_engine.py:147 | Cleaning a cleaned line changes nothing. |
| OcrEngine.CleanMrzLineIgnoresCase | ocr_engine.py:147 | A line and its lower-cased form clean to the same line. |
| Processor.LoadRoute | processor.py:29-36 | PDF loading iff the lower-cased suffix is ".pdf". |
| Processor.LoadRouteIgnoresCase | processor.py:31-33 | The route does not depend on the case of the path. |
| Processor.LoadRouteAgreesWithFormatCheck | processor.py:31-33 | A file goes the PDF route iff `validate_file_format(path, ["pdf"])` accepts it. |
| Processor.PdfExtension | processor.py:31-33 | For a path suffix, `lstrip(".")` of the lower-cased suffix is "pdf" iff the lower-cased suffix is ".pdf". |
| Processor.DetectDocumentType | processor.py:58-82 | The keyword tests run in fixed priority: passport, UAE, Canada, MRZ markers, NID, unknown. Each result holds iff its test holds and no earlier test does. The result is always one of the five types. |
| Processor.CarteWithMrzIsCanadian | processor.py:71-76 | Text with "carte" and "P<" is a Canadian ID, because Canada is tested before the MRZ markers. |
| Processor.UpperCasePassportWord | processor.py:60-64 | "PASSPORT" in any case makes a passport. |
| Processor.ProcessPassport | processor.py:84-138 | Non-empty MRZ values take precedence. OCR fills only fields still empty: the document number, the first date, and the last date when there are at least two. A single date clears an empty expiry. A field that neither supplies stays None, or the MRZ's empty string. The record is `PassportRecord`: the MRZ record, then the OCR stage. |
| Processor.PassportFromMrz | processor.py:299-322 | The MRZ record: "names surname" stripped, number, country, dates, sex and the two MRZ lines. |
| Processor.SupplementPassport | processor.py:109-136 | Each OCR value is written only over an empty or missing field; gender, issue date, place of birth and MRZ lines are untouched. The result is `PassportOcrStage` of the record. |
| Processor.SupplementNumber | processor.py:110-111 | The OCR document number is used only when the MRZ gave none; no other field changes. |
| Processor.SupplementDates | processor.py:114-118 | Over an empty field, the birth date is the first parsed date and the expiry the last of two or more (none for a single date); no other field changes. |
| Processor.SupplementNameAndNationality | processor.py:120-136 | A found name or nationality is written only over an empty field; no other field changes. |
| Processor.MrzFullName | processor.py:312 | The MRZ name has no surrounding whitespace. |
| Processor.ProcessUaeEid | processor.py:140-186 | The ID and name come from their first matching pattern when non-empty. The first three dates are birth, issue and expiry. Nationality is always "United Arab Emirates". |
| Processor.CollectNameCandidates | processor.py:205-213 | The nested loops collect the stripped lines with a comma and a letter among the 4 after each NAME line. |
| Processor.NameCandidatesNearNameLine | processor.py:208-213 | Every candidate is a stripped line with a comma and a letter, found within 4 lines after a NAME line. |
| Processor.BestCandidate | processor.py:216-217 | The chosen line has the most commas, and it is the first such line. |
| Processor.NonEmptyStripped | processor.py:222 | The parts are non-empty and stripped. |
| Processor.ReorderedNameShape | processor.py:223-225 | Three or more parts give "FIRST MIDDLE LAST"; exactly two leave a double space. |
| Processor.CanadaNameOf | processor.py:205-225 | The name is the reordered best candidate when it has at least two parts. |
| Processor.FirstGroupPrefix | processor.py:243-246 | The address patterns are tried in order, and the first that matches is used. |
| Processor.FirstIndexOf | processor.py:248 | `lines.index` finds the first line equal to the given one. |
| Processor.LineAddressOfMatch | processor.py:244-252 | A matching line gives its stripped group. The next line is appended with ", " when, stripped, it is longer than 2. |
| Processor.RepeatedLineContinuation | processor.py:248-251 | A repeated line takes its continuation from its first occurrence. |
| Processor.LastFoundWins | processor.py:242-254 | Of the lines that match, the last one decides the address. |
| Processor.CanadaAddressLastMatchWins | processor.py:242-254 | The address is the one from the last matching line, and none when no line matches. |
| Processor.ExtractAddress | processor.py:242-255 | The loops overwrite the address at every matching line, so the address is that of the last one. |
| Processor.MatchAddressLine | processor.py:243-254 | The inner loop stops at the first pattern that matches the line. |
| Processor.ReplaceChar | processor.py:269 | `replace` of one character keeps the length and changes only that character. |
| Processor.KeepEightDigitDates | processor.py:267-271 | Every kept date is eight digits. |
| Processor.KeepEightDigitDatesAppend | processor.py:265-271 | Keeping dates over the matches of several patterns is keeping them pattern by pattern. |
| Processor.CollectDates | processor.py:264-271 | The nested loops collect every repaired match that is eight digits, pattern by pattern. |
| Processor.KeepRepaired | processor.py:267-271 | The inner loop appends the repaired matches that are eight digits. |
| Processor.DateLikeRuns | processor.py:283 | Every run found is at least eight date-like characters long. |
| Processor.DateLikeRunsSplit | processor.py:283 | No match crosses a character outside `[0-9ozOZ]`: the search over "a, c, b" is the search over a, then over b. |
| Processor.DateLikeRunsOfRun | processor.py:283 | A stretch of date-like characters is found whole when it is at least eight long, and not at all otherwise. Together with the split lemma this fixes the result on every text. |
| Processor.CollectFallbackDates | processor.py:282-289 | The fallback loop keeps the repaired runs of exactly eight characters. |
| Processor.RepairRunDigits | processor.py:286 | After the o/O→0 and z/Z→2 repairs a date-like run is all digits. |
| Processor.FallbackDatesAreEightDigits | processor.py:282-289 | Every fallback date is eight digits. |
| Processor.CanadaDatesAreEightDigits | processor.py:264-295 | Whichever pass produced them, the Canadian dates are eight digits. |
| Processor.FindCanadaDates | processor.py:264-295 | The fallback runs only when the first pass found nothing. |
| Processor.ProcessCanadaId | processor.py:188-297 | Name, stripped ID, last-match address. The issue date is the first date found; the expiry date is the last, only when there are at least two. The raw text is always included. |
| Processor.ProcessDocument | processor.py:324-384 | No page loaded gives `success=False` with "Could not load document". Otherwise the OCR text is classified, and the extracted record is exactly what the field rules of that type build from the text (`ExtractedFor`: the passport, UAE or Canadian record, or the type and the raw text). Confidence, OCR result and face path are reported. |

## Left out

- Strings are ASCII. Case mapping, `isalpha`, `isdigit`, `isalnum` and whitespace follow ASCII, whereas Python's follow Unicode.
- Arithmetic uses exact reals, so IEEE rounding of the EAR, variances, scores and ratios is not reproduced.
- Pixel numerics are abstract inputs: the Laplacian variance, colour variance, FFT percentile energy, GaussianBlur, histogram correlation, CLAHE, denoising, thresholding and resizing.
- `eye_aspect_ratio` and the landmark geometry are left out; blinks are counted over given per-frame EAR values and face boxes.
- Foreign detectors and readers enter as inputs: dlib and Haar cascade boxes, face_recognition encodings and distances, Tesseract passes, passporteye readings and pdf2image pages. `compare_faces_deepface` is not part of this model.
- Regular expressions whose internals are not modelled enter as search functions:
  - the ID, name, nationality and document-number patterns;
  - the address patterns;
  - the Canadian date patterns;
  - `parse_dates`.
  `parse_dates` returns `list(set(...))`, whose order Python leaves unspecified; the model takes the list as given. The fallback search `[0-9ozOZ]{8,}` is modelled exactly.
- File and clock I/O is left out: `save_uploaded_file`, base64 conversion, `save_face`, `imread`/`imwrite`, `draw_face_box`, `enhance_face_image` and `is_document_expired`, which reads the clock. The processing time of `process_document` is left out for the same reason; the saved face path is an input.
- A PDF that fails to convert or an image that `imread` cannot read raises in the source. Only the resulting page count (0 = nothing loaded) is modelled.
- The `blink_history` deque and the `blink_counter`/`frame_counter` fields are never updated by the source and are not modelled.
- Console output is not modelled: the `print` calls in processor.py and ocr_engine.py and `traceback.print_exc()`. Nothing in the core depends on them.
- FaceMatcher.SsimPixel and FaceMatcher.CalculateSsim return 0 for a zero denominator or an empty map, where numpy gives inf or nan without raising. Neither case arises from the source: a Gaussian blur gives non-negative variances, so the denominator is at least C1 · C2, and the crops are 100x100.
- The UI, the REST API, database models, start-up scripts and configuration loading are outside the core. Only config.py's default constants are used.
- Dates.ParseDate: `strftime` writes years below 1000 without zero padding on some C libraries. The model pads to four digits, as the ISO format requires.
- Dates.Strptime: month names are the English ones of the C locale; other locales are not modelled.
- Dates.FirstParse: states only that a parse yields a valid date. The first-success order is stated by `Dates.FirstParseFirstSuccess`.
