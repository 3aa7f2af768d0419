/**
 * The text rules of the OCR engine (ocr_engine.py): the choice between the
 * plain and the preprocessed OCR text, the filtering and averaging of word
 * confidences, the mode dispatch, first-match field search, MRZ line
 * extraction and document-number lookup.
 *
 * Tesseract and the image preprocessing are foreign: each pass enters as the
 * text and word data Tesseract would return for that image, and an exception
 * raised anywhere in the native path enters as its message. A regular
 * expression enters as the function `re.search` computes with it.
 */
module OcrEngine {
  import opened Wrappers
  import Text
  import Config
  import Numeric

  /** One entry of Tesseract's word data. */
  datatype Word = Word(text: string, conf: real)

  /** What Tesseract returns for one image: its full text and its word data. */
  datatype OcrPass = OcrPass(fullText: string, words: seq<Word>)

  /** The OCR result dictionary. */
  datatype OcrResult = OcrResult(
    fullText: string, textBlocks: seq<string>, confidence: real, wordCount: nat,
    error: Option<string>, apiUsed: Option<string>)

  /** `min(OCR_CONFIDENCE_THRESHOLD, 30)`: the configured 60 is capped at 30. */
  const ConfidenceCutoff: int := if Config.OcrConfidenceThreshold <= 30.0 then Config.OcrConfidenceThreshold.Floor else 30

  /** The plain text wins only when strictly longer; a tie goes to the preprocessed pass. */
  function ChoosePass(original: OcrPass, preprocessed: OcrPass): (chosen: OcrPass)
    ensures chosen == original <== |original.fullText| > |preprocessed.fullText|
    ensures chosen == preprocessed <== |original.fullText| <= |preprocessed.fullText|
  {
    if |original.fullText| > |preprocessed.fullText| then original else preprocessed
  }

  /** A word is kept when its truncated confidence exceeds the cutoff and its stripped text is not empty. */
  predicate Kept(w: Word) {
    Numeric.Trunc(w.conf) > ConfidenceCutoff && Text.Strip(w.text) != ""
  }

  /** The stripped texts of the kept words, in order. */
  function KeptTexts(words: seq<Word>): seq<string> {
    if words == [] then []
    else
      var last := words[|words| - 1];
      KeptTexts(words[..|words| - 1]) + (if Kept(last) then [Text.Strip(last.text)] else [])
  }

  /** The confidences of the kept words, in order. */
  function KeptConfidences(words: seq<Word>): seq<real> {
    if words == [] then []
    else
      var last := words[|words| - 1];
      KeptConfidences(words[..|words| - 1]) + (if Kept(last) then [last.conf] else [])
  }

  /** The average confidence, 0.0 when nothing is kept. */
  function AverageConfidence(confidences: seq<real>): real {
    if confidences == [] then 0.0 else Numeric.Mean(confidences)
  }

  function ErrorResult(message: string): OcrResult {
    OcrResult("", [], 0.0, 0, Some(message), None)
  }

  /** The result of `extract_text_native`, as a function of what Tesseract returns. */
  function NativeResult(original: OcrPass, preprocessed: OcrPass, failure: Option<string>): OcrResult {
    if failure.Some? then ErrorResult(failure.value)
    else
      var chosen := ChoosePass(original, preprocessed);
      var blocks := KeptTexts(chosen.words);
      OcrResult(chosen.fullText, blocks, AverageConfidence(KeptConfidences(chosen.words)), |blocks|, None, None)
  }

  /**
   * `extract_text_native`: pick the longer text, then keep the confident,
   * non-blank words of that pass and average their confidences.
   */
  method ExtractTextNative(original: OcrPass, preprocessed: OcrPass, failure: Option<string>)
    returns (r: OcrResult)
    ensures r == NativeResult(original, preprocessed, failure)
  {
    if failure.Some? {
      return ErrorResult(failure.value);
    }
    var chosen := if |original.fullText| > |preprocessed.fullText| then original else preprocessed;
    var data := chosen.words;
    var textBlocks: seq<string> := [];
    var confidences: seq<real> := [];
    for i := 0 to |data|
      invariant textBlocks == KeptTexts(data[..i])
      invariant confidences == KeptConfidences(data[..i])
    {
      assert data[..i + 1][..i] == data[..i];
      if Numeric.Trunc(data[i].conf) > ConfidenceCutoff {
        var text := Text.Strip(data[i].text);
        if text != "" {
          textBlocks := textBlocks + [text];
          confidences := confidences + [data[i].conf];
        }
      }
    }
    assert data[..|data|] == data;
    var avgConfidence := if confidences != [] then Numeric.Sum(confidences) / |confidences| as real else 0.0;
    r := OcrResult(chosen.fullText, textBlocks, avgConfidence, |textBlocks|, None, None);
  }

  lemma {:induction false} KeptInStep(words: seq<Word>)
    ensures |KeptTexts(words)| == |KeptConfidences(words)|
    ensures forall i :: 0 <= i < |KeptConfidences(words)| ==> KeptConfidences(words)[i] >= (ConfidenceCutoff + 1) as real
    ensures forall i :: 0 <= i < |KeptTexts(words)| ==> KeptTexts(words)[i] != ""
  {
    if words != [] {
      KeptInStep(words[..|words| - 1]);
      var last := words[|words| - 1];
      if Kept(last) {
        KeptConfidenceAboveCutoff(last);
      }
    }
  }

  lemma KeptConfidenceAboveCutoff(w: Word)
    requires Kept(w)
    ensures w.conf >= (ConfidenceCutoff + 1) as real
  {
  }

  /**
   * Text blocks and confidences stay in step, every block is non-blank, and
   * the reported confidence is 0 (nothing kept) or at least 31, between the
   * smallest and the largest kept confidence.
   */
  lemma NativeResultProperties(original: OcrPass, preprocessed: OcrPass, lo: real, hi: real)
    requires forall w :: w in ChoosePass(original, preprocessed).words && Kept(w) ==> lo <= w.conf <= hi
    ensures var r := NativeResult(original, preprocessed, None);
      && r.wordCount == |r.textBlocks|
      && (forall i :: 0 <= i < |r.textBlocks| ==> r.textBlocks[i] != "")
      && (r.textBlocks == [] ==> r.confidence == 0.0)
      && (r.textBlocks != [] ==> (ConfidenceCutoff + 1) as real <= r.confidence && lo <= r.confidence <= hi)
  {
    var words := ChoosePass(original, preprocessed).words;
    KeptInStep(words);
    var confidences := KeptConfidences(words);
    if confidences != [] {
      KeptFromInput(words, lo, hi);
      Numeric.MeanBounds(confidences, (ConfidenceCutoff + 1) as real, hi);
      Numeric.MeanBounds(confidences, lo, hi);
    }
  }

  /** Kept confidences lie within any bounds of the kept words' confidences. */
  lemma {:induction false} KeptFromInput(words: seq<Word>, lo: real, hi: real)
    requires forall w :: w in words && Kept(w) ==> lo <= w.conf <= hi
    ensures forall i :: 0 <= i < |KeptConfidences(words)| ==> lo <= KeptConfidences(words)[i] <= hi
  {
    if words != [] {
      KeptFromInput(words[..|words| - 1], lo, hi);
    }
  }

  /** An exception anywhere in the native path yields an empty result carrying the message. */
  lemma NativeFailure(original: OcrPass, preprocessed: OcrPass, message: string)
    ensures NativeResult(original, preprocessed, Some(message)) == OcrResult("", [], 0.0, 0, Some(message), None)
  {
  }

  /** `extract_text_api`: the cloud path is a placeholder that reads nothing. */
  function ApiResult(): (r: OcrResult)
    ensures r.fullText == "" && r.textBlocks == [] && r.confidence == 0.0 && r.wordCount == 0
  {
    OcrResult("", [], 0.0, 0, None, Some("none"))
  }

  /** `extract_text`: the "api" mode returns the placeholder, any other mode runs native OCR. */
  method ExtractText(mode: string, original: OcrPass, preprocessed: OcrPass, failure: Option<string>)
    returns (r: OcrResult)
    ensures mode == "api" ==> r == ApiResult()
    ensures mode != "api" ==> r == NativeResult(original, preprocessed, failure)
  {
    if mode == "api" {
      r := ApiResult();
    } else {
      r := ExtractTextNative(original, preprocessed, failure);
    }
  }

  // ---------------------------------------------------------- field search

  /** A successful `re.search`: the whole match and the captured groups. */
  datatype RegexMatch = RegexMatch(group0: string, groups: seq<string>)

  /** A compiled pattern, as the search it performs on a text. */
  type Pattern = string -> Option<RegexMatch>

  /** `group(1)` when the pattern has groups, else `group(0)`; stripped. */
  function FieldValue(m: RegexMatch): string {
    Text.Strip(if m.groups != [] then m.groups[0] else m.group0)
  }

  /**
   * `find_field_by_pattern`: a value is found exactly when some pattern
   * matches, and it is the value of the first pattern that does.
   */
  function FindFieldByPattern(text: string, patterns: seq<Pattern>): (r: Option<string>)
    ensures r.Some? <==> exists i :: 0 <= i < |patterns| && patterns[i](text).Some?
    ensures r.Some? ==> exists i :: (0 <= i < |patterns| && patterns[i](text).Some?
      && (forall j :: 0 <= j < i ==> patterns[j](text).None?)
      && r.value == FieldValue(patterns[i](text).value))
  {
    if patterns == [] then None
    else
      match patterns[0](text)
      case Some(m) => Some(FieldValue(m))
      case None =>
        var rest := FindFieldByPattern(text, patterns[1..]);
        assert forall i :: 1 <= i < |patterns| ==> patterns[i] == patterns[1..][i - 1];
        assert rest.Some? ==> exists i :: (1 <= i < |patterns| && patterns[i](text).Some?
          && (forall j :: 0 <= j < i ==> patterns[j](text).None?)
          && rest.value == FieldValue(patterns[i](text).value));
        rest
  }

  /** `extract_document_number`: only passports and UAE IDs have number patterns. */
  function ExtractDocumentNumber(text: string, docType: string,
                                 passportPatterns: seq<Pattern>, uaePatterns: seq<Pattern>): (r: Option<string>)
    ensures docType == "passport" ==> r == FindFieldByPattern(text, passportPatterns)
    ensures docType == "uae_eid" ==> r == FindFieldByPattern(text, uaePatterns)
    ensures docType != "passport" && docType != "uae_eid" ==> r.None?
  {
    if docType == "passport" then FindFieldByPattern(text, passportPatterns)
    else if docType == "uae_eid" then FindFieldByPattern(text, uaePatterns)
    else None
  }

  // ------------------------------------------------------------------- MRZ

  /** The characters a machine-readable zone consists of. */
  predicate IsMrzChar(c: char) {
    Text.IsUpper(c) || Text.IsDigit(c) || c == '<'
  }

  /** `re.sub(r'[^A-Z0-9<]', '', s)`: the MRZ characters of `s`, in order. */
  function KeepMrzChars(s: string): (r: string)
    ensures forall i :: 0 <= i < |r| ==> IsMrzChar(r[i])
    ensures |r| <= |s|
  {
    if s == [] then ""
    else (if IsMrzChar(s[0]) then [s[0]] else []) + KeepMrzChars(s[1..])
  }

  /** The line raised to upper case, then stripped of every non-MRZ character. */
  function CleanMrzLine(line: string): string {
    KeepMrzChars(Text.Upper(line))
  }

  /** The lengths of the three MRZ formats (TD1, TD2, TD3). */
  predicate IsMrzLength(n: int) {
    n == 30 || n == 36 || n == 44
  }

  /** The cleaned lines of MRZ length, in order. */
  function MrzLines(lines: seq<string>): (r: seq<string>)
    ensures |r| <= |lines|
    ensures forall i :: 0 <= i < |r| ==> IsMrzLength(|r[i]|) && forall k :: 0 <= k < |r[i]| ==> IsMrzChar(r[i][k])
  {
    if lines == [] then []
    else
      var clean := CleanMrzLine(lines[|lines| - 1]);
      MrzLines(lines[..|lines| - 1]) + (if IsMrzLength(|clean|) then [clean] else [])
  }

  /** `extract_mrz`: the MRZ-length cleaned lines, provided there are at least two. */
  method ExtractMrz(text: string) returns (r: Option<seq<string>>)
    ensures r.None? <==> |MrzLines(Text.Split(text, '\n'))| < 2
    ensures r.Some? ==> r.value == MrzLines(Text.Split(text, '\n'))
  {
    var lines := Text.Split(text, '\n');
    var mrzLines: seq<string> := [];
    for i := 0 to |lines|
      invariant mrzLines == MrzLines(lines[..i])
    {
      assert lines[..i + 1][..i] == lines[..i];
      var cleanLine := CleanMrzLine(lines[i]);
      if IsMrzLength(|cleanLine|) {
        mrzLines := mrzLines + [cleanLine];
      }
    }
    assert lines[..|lines|] == lines;
    r := if |mrzLines| >= 2 then Some(mrzLines) else None;
  }

  /** A string of MRZ characters passes the filter unchanged. */
  lemma {:induction false} KeepMrzCharsOfMrz(s: string)
    requires forall i :: 0 <= i < |s| ==> IsMrzChar(s[i])
    ensures KeepMrzChars(s) == s
  {
    if s != [] {
      KeepMrzCharsOfMrz(s[1..]);
    }
  }

  /** A line already in MRZ form is kept as it is. */
  lemma CleanMrzLineOfMrz(line: string)
    requires forall i :: 0 <= i < |line| ==> IsMrzChar(line[i])
    ensures CleanMrzLine(line) == line
  {
    assert Text.Upper(line) == line;
    KeepMrzCharsOfMrz(line);
  }

  /** Cleaning a cleaned line changes nothing. */
  lemma CleanMrzLineIdempotent(line: string)
    ensures CleanMrzLine(CleanMrzLine(line)) == CleanMrzLine(line)
  {
    CleanMrzLineOfMrz(CleanMrzLine(line));
  }

  /** Lower-case letters count: a line reads the same as its upper-case form. */
  lemma CleanMrzLineIgnoresCase(line: string)
    ensures CleanMrzLine(Text.Lower(line)) == CleanMrzLine(line)
  {
    assert Text.Upper(Text.Lower(line)) == Text.Upper(line);
  }
}
