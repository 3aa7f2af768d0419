/**
 * The document pipeline (processor.py): the load route, keyword-priority
 * document classification, the field rules for passports, UAE Emirates IDs
 * and Canadian photo cards, and the dispatch of `process_document`.
 *
 * OCR, passporteye's MRZ reader, the face extractor and every regular
 * expression whose internals are not modelled enter as inputs: the OCR
 * result of the first page, the MRZ reading (None when passporteye finds
 * nothing or raises), the saved face path, and a record of the searches the
 * pipeline's regular expressions perform.
 */
module Processor {
  import opened Wrappers
  import Text
  import Utils
  import Dates
  import OcrEngine

  // ------------------------------------------------------------ loading

  datatype Loader = PdfPages | ImageFile

  /** `load_document`: a ".pdf" suffix (any case) goes to the PDF converter, anything else to the image reader. */
  function LoadRoute(filePath: string): (r: Loader)
    ensures r == PdfPages <==> Text.Lower(Utils.Suffix(Utils.PathName(filePath))) == ".pdf"
  {
    if Text.Lower(Utils.Suffix(Utils.PathName(filePath))) == ".pdf" then PdfPages else ImageFile
  }

  /** The route ignores the case of the path. */
  lemma LoadRouteIgnoresCase(filePath: string)
    ensures LoadRoute(Text.Lower(filePath)) == LoadRoute(filePath)
  {
    Utils.PathNameLower(filePath);
    Utils.SuffixLower(Utils.PathName(filePath));
    Utils.LowerIdempotent(Utils.Suffix(Utils.PathName(filePath)));
  }

  /** A file goes the PDF route exactly when `validate_file_format` accepts it as "pdf". */
  lemma LoadRouteAgreesWithFormatCheck(filePath: string)
    ensures LoadRoute(filePath) == PdfPages <==> Utils.ValidateFileFormat(filePath, ["pdf"])
  {
    PdfExtension(Utils.Suffix(Utils.PathName(filePath)));
  }

  /** For a suffix ("" or a dot and a dot-free rest), stripping the dot off the lowered suffix leaves "pdf" exactly when it is ".pdf". */
  lemma PdfExtension(suffix: string)
    requires suffix == [] || (suffix[0] == '.' && '.' !in suffix[1..] && |suffix| >= 2)
    ensures Utils.LStripDots(Text.Lower(suffix)) == "pdf" <==> Text.Lower(suffix) == ".pdf"
  {
    if suffix != [] {
      var lowered := Text.Lower(suffix);
      assert suffix[1] == suffix[1..][0];
      Utils.ExtensionOfSuffix(suffix);
      if lowered == ".pdf" {
        assert lowered[1..] == "pdf";
      }
      if lowered[1..] == "pdf" {
        assert lowered == [lowered[0]] + lowered[1..];
      }
    }
  }

  // ------------------------------------------------------------ classification

  predicate HasPassportWord(lower: string) {
    Text.Contains(lower, "passport") || Text.Contains(lower, "passeport") || Text.Contains(lower, "pasaporte")
  }

  /** "784-" is looked for in the original text, the words in the lowered text. */
  predicate HasUaeMarker(text: string) {
    Text.Contains(Text.Lower(text), "emirates id") || Text.Contains(Text.Lower(text), "uae") || Text.Contains(text, "784-")
  }

  predicate HasCanadaWord(lower: string) {
    Text.Contains(lower, "canada") || Text.Contains(lower, "ontario")
    || Text.Contains(lower, "photo card") || Text.Contains(lower, "carte")
  }

  /** MRZ fillers, looked for case-sensitively in the original text. */
  predicate HasMrzMarker(text: string) {
    Text.Contains(text, "P<") || Text.Contains(text, "<<")
  }

  predicate HasNidWord(lower: string) {
    Text.Contains(lower, "national id") || Text.Contains(lower, "identity card") || Text.Contains(lower, "id card")
  }

  const DocumentTypes: set<string> := {"passport", "uae_eid", "canada_id", "nid", "unknown"}

  /**
   * `detect_document_type`: passport words, then UAE markers, then Canadian
   * words, then MRZ fillers, then generic ID words; each test counts only
   * when every earlier one failed.
   */
  function DetectDocumentType(text: string): (r: string)
    ensures r in DocumentTypes
    ensures var lower := Text.Lower(text);
      && (r == "passport" <==> HasPassportWord(lower) || (!HasUaeMarker(text) && !HasCanadaWord(lower) && HasMrzMarker(text)))
      && (r == "uae_eid" <==> !HasPassportWord(lower) && HasUaeMarker(text))
      && (r == "canada_id" <==> !HasPassportWord(lower) && !HasUaeMarker(text) && HasCanadaWord(lower))
      && (r == "nid" <==> !HasPassportWord(lower) && !HasUaeMarker(text) && !HasCanadaWord(lower)
                          && !HasMrzMarker(text) && HasNidWord(lower))
      && (r == "unknown" <==> !HasPassportWord(lower) && !HasUaeMarker(text) && !HasCanadaWord(lower)
                              && !HasMrzMarker(text) && !HasNidWord(lower))
  {
    var textLower := Text.Lower(text);
    if HasPassportWord(textLower) then "passport"
    else if HasUaeMarker(text) then "uae_eid"
    else if HasCanadaWord(textLower) then "canada_id"
    else if HasMrzMarker(text) then "passport"
    else if HasNidWord(textLower) then "nid"
    else "unknown"
  }

  /** A Canadian word outranks MRZ fillers: "carte" with "P<" is a Canadian card. */
  lemma CarteWithMrzIsCanadian(text: string)
    requires Text.Contains(Text.Lower(text), "carte") && Text.Contains(text, "P<")
    requires !HasPassportWord(Text.Lower(text)) && !HasUaeMarker(text)
    ensures DetectDocumentType(text) == "canada_id"
  {
  }

  /** Upper-case passport words count: "PASSPORT" classifies as a passport whatever else the text holds. */
  lemma UpperCasePassportWord(text: string)
    requires Text.Contains(text, "PASSPORT")
    ensures DetectDocumentType(text) == "passport"
  {
    ContainsLower(text, "PASSPORT");
    assert Text.Lower("PASSPORT") == "passport";
  }

  /** Lowering keeps every occurrence of a piece, lowered. */
  lemma {:induction false} ContainsLower(s: string, sub: string)
    requires Text.Contains(s, sub)
    ensures Text.Contains(Text.Lower(s), Text.Lower(sub))
    decreases |s|
  {
    if Text.StartsWith(s, sub) {
      Utils.LowerSlice(s, 0, |sub|);
    } else {
      ContainsLower(s[1..], sub);
      Utils.LowerSlice(s, 1, |s|);
      assert s[1..|s|] == s[1..];
      assert Text.Lower(s)[1..] == Text.Lower(s[1..]);
    }
  }

  // ------------------------------------------------------------ regular expressions

  /** A search that yields group 1 of the first match in a line. */
  type GroupSearch = string -> Option<string>

  /**
   * The searches the pipeline's regular expressions perform, each as the
   * function it computes on a text.
   */
  datatype Regexes = Regexes(
    passportNumber: seq<OcrEngine.Pattern>,   // extract_document_number, "passport"
    uaeNumber: seq<OcrEngine.Pattern>,        // extract_document_number, "uae_eid"
    passportName: seq<OcrEngine.Pattern>,
    nationality: seq<OcrEngine.Pattern>,
    uaeId: seq<OcrEngine.Pattern>,
    uaeName: seq<OcrEngine.Pattern>,
    canadaId: seq<OcrEngine.Pattern>,
    address: seq<GroupSearch>,
    parseDates: string -> seq<string>,        // ocr_engine.parse_dates
    canadaDates: seq<string -> seq<string>>)  // re.findall of each Canadian date pattern

  /** Python truthiness of an optional string. */
  predicate Truthy(v: Option<string>) {
    v.Some? && v.value != ""
  }

  // ------------------------------------------------------------ passports

  /** What passporteye's MRZ reading supplies ('' for a missing key). */
  datatype MrzReading = MrzReading(
    names: string, surname: string, number: string, country: string,
    dateOfBirth: string, sex: string, expirationDate: string, mrzType: string, rawText: string)

  datatype PassportData = PassportData(
    fullName: Option<string>, passportNumber: Option<string>, nationality: Option<string>,
    dateOfBirth: Option<string>, gender: Option<string>, issueDate: Option<string>,
    expiryDate: Option<string>, placeOfBirth: Option<string>, mrzLines: Option<seq<string>>)

  /** `_extract_mrz_passporteye`: the full name is "names surname", stripped. */
  function MrzFullName(m: MrzReading): (r: string)
    ensures r == [] || (!Text.IsSpace(r[0]) && !Text.IsSpace(r[|r| - 1]))
  {
    Text.Strip(m.names + " " + m.surname)
  }

  /**
   * `process_passport`: MRZ values come first; the OCR document number, the
   * first and last parsed dates, the name and the nationality fill only
   * fields that are still empty or missing.
   */
  method ProcessPassport(text: string, mrz: Option<MrzReading>, rx: Regexes) returns (data: PassportData)
    // MRZ values take precedence whenever they are non-empty
    ensures mrz.Some? && mrz.value.number != "" ==> data.passportNumber == Some(mrz.value.number)
    ensures mrz.Some? && mrz.value.country != "" ==> data.nationality == Some(mrz.value.country)
    ensures mrz.Some? && mrz.value.dateOfBirth != "" ==> data.dateOfBirth == Some(mrz.value.dateOfBirth)
    ensures mrz.Some? && mrz.value.expirationDate != "" ==> data.expiryDate == Some(mrz.value.expirationDate)
    ensures mrz.Some? && MrzFullName(mrz.value) != "" ==> data.fullName == Some(MrzFullName(mrz.value))
    // OCR fills what the MRZ left empty
    ensures (mrz.None? || mrz.value.number == "") ==>
      data.passportNumber == OcrEngine.ExtractDocumentNumber(text, "passport", rx.passportNumber, rx.uaeNumber)
    ensures (mrz.None? || mrz.value.dateOfBirth == "") && rx.parseDates(text) != [] ==>
      data.dateOfBirth == Dates.ParseDate(rx.parseDates(text)[0])
    ensures (mrz.None? || mrz.value.expirationDate == "") && |rx.parseDates(text)| == 1 ==> data.expiryDate == None
    ensures (mrz.None? || mrz.value.expirationDate == "") && |rx.parseDates(text)| >= 2 ==>
      data.expiryDate == Dates.ParseDate(rx.parseDates(text)[|rx.parseDates(text)| - 1])
    ensures (mrz.None? || MrzFullName(mrz.value) == "") && Truthy(OcrEngine.FindFieldByPattern(text, rx.passportName)) ==>
      data.fullName == OcrEngine.FindFieldByPattern(text, rx.passportName)
    ensures (mrz.None? || mrz.value.country == "") && Truthy(OcrEngine.FindFieldByPattern(text, rx.nationality)) ==>
      data.nationality == OcrEngine.FindFieldByPattern(text, rx.nationality)
    // what stays when neither the MRZ nor the OCR text supplies a value: nothing, or the MRZ's ""
    ensures (mrz.None? || mrz.value.dateOfBirth == "") && rx.parseDates(text) == [] ==>
      data.dateOfBirth == (if mrz.Some? then Some("") else None)
    ensures (mrz.None? || mrz.value.expirationDate == "") && rx.parseDates(text) == [] ==>
      data.expiryDate == (if mrz.Some? then Some("") else None)
    ensures (mrz.None? || MrzFullName(mrz.value) == "") && !Truthy(OcrEngine.FindFieldByPattern(text, rx.passportName)) ==>
      data.fullName == (if mrz.Some? then Some("") else None)
    ensures (mrz.None? || mrz.value.country == "") && !Truthy(OcrEngine.FindFieldByPattern(text, rx.nationality)) ==>
      data.nationality == (if mrz.Some? then Some("") else None)
    // fields nothing but the MRZ supplies
    ensures data.gender == (if mrz.Some? then Some(mrz.value.sex) else None)
    ensures data.mrzLines == (if mrz.Some? then Some([mrz.value.mrzType, mrz.value.rawText]) else None)
    ensures data.issueDate == None && data.placeOfBirth == None
    ensures data == PassportRecord(text, mrz, rx)
  {
    data := PassportFromMrz(mrz);
    data := SupplementPassport(data, text, rx);
  }

  /** The record `process_passport` builds: the MRZ record, then the OCR stage over it. */
  function PassportRecord(text: string, mrz: Option<MrzReading>, rx: Regexes): PassportData {
    PassportOcrStage(PassportFromMrz(mrz), text, rx)
  }

  /** The OCR stage of `process_passport` on the record it starts from. */
  function PassportOcrStage(data0: PassportData, text: string, rx: Regexes): PassportData {
    var name := OcrEngine.FindFieldByPattern(text, rx.passportName);
    var nationality := OcrEngine.FindFieldByPattern(text, rx.nationality);
    var dates := rx.parseDates(text);
    data0.(
      passportNumber :=
        if Truthy(data0.passportNumber) then data0.passportNumber
        else OcrEngine.ExtractDocumentNumber(text, "passport", rx.passportNumber, rx.uaeNumber),
      dateOfBirth := FillBirthDate(data0.dateOfBirth, dates),
      expiryDate := FillExpiryDate(data0.expiryDate, dates),
      fullName := if Truthy(name) && !Truthy(data0.fullName) then name else data0.fullName,
      nationality := if Truthy(nationality) && !Truthy(data0.nationality) then nationality else data0.nationality)
  }

  /** The passport record before OCR: the MRZ values when passporteye read a zone, else nothing. */
  function PassportFromMrz(mrz: Option<MrzReading>): (data: PassportData)
    ensures mrz.None? ==> data == PassportData(None, None, None, None, None, None, None, None, None)
    ensures mrz.Some? ==> var m := mrz.value;
      && data.fullName == Some(MrzFullName(m)) && data.passportNumber == Some(m.number)
      && data.nationality == Some(m.country) && data.dateOfBirth == Some(m.dateOfBirth)
      && data.gender == Some(m.sex) && data.expiryDate == Some(m.expirationDate)
      && data.mrzLines == Some([m.mrzType, m.rawText])
      && data.issueDate == None && data.placeOfBirth == None
  {
    var data := PassportData(None, None, None, None, None, None, None, None, None);
    if mrz.Some? then
      var m := mrz.value;
      data.(fullName := Some(MrzFullName(m)), passportNumber := Some(m.number),
            nationality := Some(m.country), dateOfBirth := Some(m.dateOfBirth), gender := Some(m.sex),
            expiryDate := Some(m.expirationDate), mrzLines := Some([m.mrzType, m.rawText]))
    else data
  }

  /** The OCR stage of `process_passport`: each value is written only over an empty or missing field. */
  method SupplementPassport(data0: PassportData, text: string, rx: Regexes) returns (data: PassportData)
    ensures data.passportNumber ==
      if Truthy(data0.passportNumber) then data0.passportNumber
      else OcrEngine.ExtractDocumentNumber(text, "passport", rx.passportNumber, rx.uaeNumber)
    ensures data.dateOfBirth == FillBirthDate(data0.dateOfBirth, rx.parseDates(text))
    ensures data.expiryDate == FillExpiryDate(data0.expiryDate, rx.parseDates(text))
    ensures var name := OcrEngine.FindFieldByPattern(text, rx.passportName);
      data.fullName == if Truthy(name) && !Truthy(data0.fullName) then name else data0.fullName
    ensures var nationality := OcrEngine.FindFieldByPattern(text, rx.nationality);
      data.nationality == if Truthy(nationality) && !Truthy(data0.nationality) then nationality else data0.nationality
    ensures data.gender == data0.gender && data.issueDate == data0.issueDate
    ensures data.placeOfBirth == data0.placeOfBirth && data.mrzLines == data0.mrzLines
    ensures data == PassportOcrStage(data0, text, rx)
  {
    var numbered := SupplementNumber(data0, text, rx);
    assert numbered.dateOfBirth == data0.dateOfBirth && numbered.expiryDate == data0.expiryDate;
    assert numbered.fullName == data0.fullName && numbered.nationality == data0.nationality;
    var dated := SupplementDates(numbered, rx.parseDates(text));
    assert dated.passportNumber == numbered.passportNumber;
    assert dated.fullName == data0.fullName && dated.nationality == data0.nationality;
    data := SupplementNameAndNationality(dated, text, rx);
    assert data.passportNumber == numbered.passportNumber;
    assert data.dateOfBirth == dated.dateOfBirth && data.expiryDate == dated.expiryDate;
  }

  /** The document number, from the OCR text when the MRZ gave none. */
  method SupplementNumber(data0: PassportData, text: string, rx: Regexes) returns (data: PassportData)
    ensures data.passportNumber ==
      if Truthy(data0.passportNumber) then data0.passportNumber
      else OcrEngine.ExtractDocumentNumber(text, "passport", rx.passportNumber, rx.uaeNumber)
    ensures data == data0.(passportNumber := data.passportNumber)
  {
    data := data0;
    if !Truthy(data.passportNumber) {
      data := data.(passportNumber := OcrEngine.ExtractDocumentNumber(text, "passport", rx.passportNumber, rx.uaeNumber));
    }
  }

  /** `process_passport`'s birth date rule: the first parsed date, written only over an empty field. */
  function FillBirthDate(current: Option<string>, dates: seq<string>): Option<string> {
    if dates != [] && !Truthy(current) then Dates.ParseDate(dates[0]) else current
  }

  /**
   * `process_passport`'s expiry rule: over an empty field, the last parsed
   * date when there are two or more, and None when there is only one.
   */
  function FillExpiryDate(current: Option<string>, dates: seq<string>): Option<string> {
    if dates != [] && !Truthy(current) then (if |dates| > 1 then Dates.ParseDate(dates[|dates| - 1]) else None)
    else current
  }

  /** The dates of the passport, from the OCR text. */
  method SupplementDates(data0: PassportData, dates: seq<string>) returns (data: PassportData)
    ensures data.dateOfBirth == FillBirthDate(data0.dateOfBirth, dates)
    ensures data.expiryDate == FillExpiryDate(data0.expiryDate, dates)
    ensures data == data0.(dateOfBirth := data.dateOfBirth, expiryDate := data.expiryDate)
  {
    data := data0.(dateOfBirth := FillBirthDate(data0.dateOfBirth, dates));
    data := data.(expiryDate := FillExpiryDate(data0.expiryDate, dates));
  }

  /** The name and the nationality, from the first matching pattern of each list. */
  method SupplementNameAndNationality(data0: PassportData, text: string, rx: Regexes) returns (data: PassportData)
    ensures var name := OcrEngine.FindFieldByPattern(text, rx.passportName);
      data.fullName == if Truthy(name) && !Truthy(data0.fullName) then name else data0.fullName
    ensures var nationality := OcrEngine.FindFieldByPattern(text, rx.nationality);
      data.nationality == if Truthy(nationality) && !Truthy(data0.nationality) then nationality else data0.nationality
    ensures data == data0.(fullName := data.fullName, nationality := data.nationality)
  {
    data := data0;
    var name := OcrEngine.FindFieldByPattern(text, rx.passportName);
    if Truthy(name) && !Truthy(data.fullName) {
      data := data.(fullName := name);
    }
    var nationality := OcrEngine.FindFieldByPattern(text, rx.nationality);
    if Truthy(nationality) && !Truthy(data.nationality) {
      data := data.(nationality := nationality);
    }
  }

  // ------------------------------------------------------------ UAE Emirates ID

  datatype UaeData = UaeData(
    idNumber: Option<string>, fullName: Option<string>, fullNameArabic: Option<string>,
    nationality: Option<string>, dateOfBirth: Option<string>, gender: Option<string>,
    issueDate: Option<string>, expiryDate: Option<string>)

  /** The value of a search when it is non-empty, else nothing. */
  function IfTruthy(v: Option<string>): (r: Option<string>)
    ensures r.Some? <==> Truthy(v)
    ensures r.Some? ==> r == v
  {
    if Truthy(v) then v else None
  }

  /**
   * `process_uae_eid`: ID and name from the first matching pattern, the
   * first three parsed dates as birth, issue and expiry, and a fixed
   * nationality.
   */
  method ProcessUaeEid(text: string, rx: Regexes) returns (data: UaeData)
    ensures data.nationality == Some("United Arab Emirates")
    ensures data.idNumber == IfTruthy(OcrEngine.FindFieldByPattern(text, rx.uaeId))
    ensures data.fullName == IfTruthy(OcrEngine.FindFieldByPattern(text, rx.uaeName))
    ensures var dates := rx.parseDates(text);
      && data.dateOfBirth == (if |dates| >= 1 then Dates.ParseDate(dates[0]) else None)
      && data.issueDate == (if |dates| >= 2 then Dates.ParseDate(dates[1]) else None)
      && data.expiryDate == (if |dates| >= 3 then Dates.ParseDate(dates[2]) else None)
    ensures data.fullNameArabic == None && data.gender == None
    ensures data == UaeRecord(text, rx)
  {
    data := UaeData(None, None, None, None, None, None, None, None);
    var idNumber := OcrEngine.FindFieldByPattern(text, rx.uaeId);
    if Truthy(idNumber) {
      data := data.(idNumber := idNumber);
    }
    var name := OcrEngine.FindFieldByPattern(text, rx.uaeName);
    if Truthy(name) {
      data := data.(fullName := name);
    }
    var dates := rx.parseDates(text);
    if |dates| >= 1 {
      data := data.(dateOfBirth := Dates.ParseDate(dates[0]));
    }
    if |dates| >= 2 {
      data := data.(issueDate := Dates.ParseDate(dates[1]));
    }
    if |dates| >= 3 {
      data := data.(expiryDate := Dates.ParseDate(dates[2]));
    }
    data := data.(nationality := Some("United Arab Emirates"));
  }

  /** The record `process_uae_eid` builds. */
  function UaeRecord(text: string, rx: Regexes): UaeData {
    var dates := rx.parseDates(text);
    UaeData(
      IfTruthy(OcrEngine.FindFieldByPattern(text, rx.uaeId)),
      IfTruthy(OcrEngine.FindFieldByPattern(text, rx.uaeName)),
      None, Some("United Arab Emirates"),
      if |dates| >= 1 then Dates.ParseDate(dates[0]) else None,
      None,
      if |dates| >= 2 then Dates.ParseDate(dates[1]) else None,
      if |dates| >= 3 then Dates.ParseDate(dates[2]) else None)
  }

  // ------------------------------------------------------------ Canadian photo cards

  datatype CanadaData = CanadaData(
    fullName: Option<string>, idNumber: Option<string>, address: Option<string>,
    issueDate: Option<string>, expiryDate: Option<string>, rawText: string)

  function Min(a: int, b: int): int {
    if a <= b then a else b
  }

  /** `'NAME' in line.upper()` */
  predicate MentionsName(line: string) {
    Text.Contains(Text.Upper(line), "NAME")
  }

  predicate HasLetter(line: string) {
    exists k :: 0 <= k < |line| && Text.IsAlpha(line[k])
  }

  /** A line that may hold "LAST,FIRST,MIDDLE": a comma and at least one letter. */
  predicate LooksLikeName(line: string) {
    ',' in line && HasLetter(line)
  }

  /** The stripped name-like lines among `lines[lo..hi]`, in order. */
  function NameLinesIn(lines: seq<string>, lo: nat, hi: nat): seq<string>
    requires hi <= |lines|
  {
    if hi <= lo then []
    else NameLinesIn(lines, lo, hi - 1) + (if LooksLikeName(lines[hi - 1]) then [Text.Strip(lines[hi - 1])] else [])
  }

  /** The candidates gathered from the lines before index `k`: for each line mentioning NAME, the name-like lines among the four after it. */
  function NameCandidates(lines: seq<string>, k: nat): seq<string>
    requires k <= |lines|
  {
    if k == 0 then []
    else
      NameCandidates(lines, k - 1)
      + (if MentionsName(lines[k - 1]) then NameLinesIn(lines, k, Min(k + 4, |lines|)) else [])
  }

  /** The candidate-gathering loop of `process_canada_id`. */
  method CollectNameCandidates(lines: seq<string>) returns (nameCandidates: seq<string>)
    ensures nameCandidates == NameCandidates(lines, |lines|)
  {
    nameCandidates := [];
    for i := 0 to |lines|
      invariant nameCandidates == NameCandidates(lines, i)
    {
      if Text.Contains(Text.Upper(lines[i]), "NAME") {
        for j := i + 1 to Min(i + 5, |lines|)
          invariant nameCandidates == NameCandidates(lines, i) + NameLinesIn(lines, i + 1, j)
        {
          if ',' in lines[j] && exists k :: 0 <= k < |lines[j]| && Text.IsAlpha(lines[j][k]) {
            nameCandidates := nameCandidates + [Text.Strip(lines[j])];
          }
        }
      }
    }
  }

  /** Every candidate is a stripped line holding a comma, found at most four lines below a NAME line. */
  lemma {:induction false} NameCandidatesNearNameLine(lines: seq<string>, k: nat)
    requires k <= |lines|
    ensures forall c :: c in NameCandidates(lines, k) ==>
      exists i, j :: 0 <= i < j < |lines| && j <= i + 4 && MentionsName(lines[i]) && LooksLikeName(lines[j])
                     && c == Text.Strip(lines[j])
  {
    if k > 0 {
      NameCandidatesNearNameLine(lines, k - 1);
      if MentionsName(lines[k - 1]) {
        NameLinesInWindow(lines, k, Min(k + 4, |lines|));
      }
    }
  }

  lemma {:induction false} NameLinesInWindow(lines: seq<string>, lo: nat, hi: nat)
    requires hi <= |lines|
    ensures forall c :: c in NameLinesIn(lines, lo, hi) ==>
      exists j :: lo <= j < hi && LooksLikeName(lines[j]) && c == Text.Strip(lines[j])
  {
    if hi > lo {
      NameLinesInWindow(lines, lo, hi - 1);
    }
  }

  /** `max(candidates, key=count(','))`: the first candidate with the most commas. */
  function BestCandidate(candidates: seq<string>): (best: nat)
    requires candidates != []
    ensures best < |candidates|
    ensures forall j :: 0 <= j < |candidates| ==> Text.Count(candidates[j], ',') <= Text.Count(candidates[best], ',')
    ensures forall j :: 0 <= j < best ==> Text.Count(candidates[j], ',') < Text.Count(candidates[best], ',')
  {
    if |candidates| == 1 then 0
    else
      var init := candidates[..|candidates| - 1];
      var b := BestCandidate(init);
      assert forall j :: 0 <= j < |init| ==> init[j] == candidates[j];
      if Text.Count(candidates[|candidates| - 1], ',') > Text.Count(candidates[b], ',') then |candidates| - 1 else b
  }

  /** The stripped, non-empty pieces, in order. */
  function NonEmptyStripped(pieces: seq<string>): (parts: seq<string>)
    ensures forall k :: 0 <= k < |parts| ==> parts[k] != "" && !Text.IsSpace(parts[k][0]) && !Text.IsSpace(parts[k][|parts[k]| - 1])
    ensures |parts| <= |pieces|
  {
    if pieces == [] then []
    else (if Text.Strip(pieces[0]) != "" then [Text.Strip(pieces[0])] else []) + NonEmptyStripped(pieces[1..])
  }

  /** `[p.strip() for p in line.split(',') if p.strip()]` */
  function NameParts(line: string): seq<string> {
    NonEmptyStripped(Text.Split(line, ','))
  }

  /** "FIRST MIDDLE LAST" from "LAST,FIRST[,MIDDLE]", stripped. */
  function ReorderedName(parts: seq<string>): string
    requires |parts| >= 2
  {
    Text.Strip(parts[1] + " " + (if |parts| > 2 then parts[2] else "") + " " + parts[0])
  }

  /**
   * Given stripped non-empty parts, three or more give "FIRST MIDDLE LAST";
   * exactly two leave the empty middle behind as a double space.
   */
  lemma ReorderedNameShape(parts: seq<string>)
    requires |parts| >= 2
    requires forall k :: 0 <= k < |parts| ==> parts[k] != "" && !Text.IsSpace(parts[k][0]) && !Text.IsSpace(parts[k][|parts[k]| - 1])
    ensures |parts| == 2 ==> ReorderedName(parts) == parts[1] + "  " + parts[0]
    ensures |parts| > 2 ==> ReorderedName(parts) == parts[1] + " " + parts[2] + " " + parts[0]
  {
    var joined := parts[1] + " " + (if |parts| > 2 then parts[2] else "") + " " + parts[0];
    assert joined[0] == parts[1][0];
    assert joined[|joined| - 1] == parts[0][|parts[0]| - 1];
    Text.StripTrimmed(joined);
    if |parts| == 2 {
      assert joined == parts[1] + "  " + parts[0];
    }
  }

  /** The name `process_canada_id` reports. */
  function CanadaName(lines: seq<string>): Option<string> {
    var candidates := NameCandidates(lines, |lines|);
    if candidates == [] then None
    else
      var parts := NameParts(candidates[BestCandidate(candidates)]);
      if |parts| >= 2 then Some(ReorderedName(parts)) else None
  }

  /** The first search, in order, that finds something in the line. */
  function FirstGroup(line: string, searches: seq<GroupSearch>): Option<string> {
    if searches == [] then None
    else
      var earlier := FirstGroup(line, searches[..|searches| - 1]);
      if earlier.Some? then earlier else searches[|searches| - 1](line)
  }

  /** Once a prefix of the searches has found something, the later searches are never consulted. */
  lemma {:induction false} FirstGroupPrefix(line: string, searches: seq<GroupSearch>, k: nat)
    requires k <= |searches| && FirstGroup(line, searches[..k]).Some?
    ensures FirstGroup(line, searches) == FirstGroup(line, searches[..k])
    decreases |searches|
  {
    if k < |searches| {
      var init := searches[..|searches| - 1];
      assert init[..k] == searches[..k];
      FirstGroupPrefix(line, init, k);
    } else {
      assert searches[..k] == searches;
    }
  }

  /** `lines.index(line)`: the first position holding the line. */
  function FirstIndexOf(lines: seq<string>, line: string): (i: nat)
    requires line in lines
    ensures i < |lines| && lines[i] == line
    ensures forall j :: 0 <= j < i ==> lines[j] != line
  {
    if lines[0] == line then 0
    else 1 + FirstIndexOf(lines[1..], line)
  }

  /** The stripped line after the FIRST line equal to `line` (`lines.index`), or "" at the end. */
  function Continuation(lines: seq<string>, line: string): string
    requires line in lines
  {
    var lineIdx := FirstIndexOf(lines, line);
    if lineIdx + 1 < |lines| then Text.Strip(lines[lineIdx + 1]) else ""
  }

  /** The continuation is appended after ", " only when it is longer than two characters. */
  function JoinAddress(addr: string, nextLine: string): string {
    if nextLine != "" && |nextLine| > 2 then addr + ", " + nextLine else addr
  }

  /** The address a line yields: the stripped group of the first matching search, with its continuation. */
  function LineAddress(lines: seq<string>, line: string, searches: seq<GroupSearch>): Option<string>
    requires line in lines
  {
    match FirstGroup(line, searches)
    case None => None
    case Some(group) => Some(JoinAddress(Text.Strip(group), Continuation(lines, line)))
  }

  lemma LineAddressOfMatch(lines: seq<string>, line: string, searches: seq<GroupSearch>)
    requires line in lines
    ensures FirstGroup(line, searches).None? ==> LineAddress(lines, line, searches).None?
    ensures FirstGroup(line, searches).Some? ==>
      LineAddress(lines, line, searches) == Some(JoinAddress(Text.Strip(FirstGroup(line, searches).value), Continuation(lines, line)))
  {
  }

  /** The address each line yields, in order. */
  function LineAddresses(lines: seq<string>, searches: seq<GroupSearch>): (r: seq<Option<string>>)
    ensures |r| == |lines|
    ensures forall i :: 0 <= i < |lines| ==> r[i] == LineAddress(lines, lines[i], searches)
  {
    seq(|lines|, i requires 0 <= i < |lines| => LineAddress(lines, lines[i], searches))
  }

  /** The latest value found, or None when nothing was found. */
  function LastFound(found: seq<Option<string>>): Option<string> {
    if found == [] then None
    else if found[|found| - 1].Some? then found[|found| - 1]
    else LastFound(found[..|found| - 1])
  }

  /** One more entry: it replaces the latest value when it holds one. */
  lemma LastFoundStep(found: seq<Option<string>>, i: nat)
    requires i < |found|
    ensures LastFound(found[..i + 1]) == if found[i].Some? then found[i] else LastFound(found[..i])
  {
    assert found[..i + 1][..i] == found[..i];
  }

  /** The latest value wins: it is the value of some entry, and every later entry is None. */
  lemma {:induction false} LastFoundWins(found: seq<Option<string>>)
    ensures LastFound(found).Some? <==> exists i :: 0 <= i < |found| && found[i].Some?
    ensures LastFound(found).Some? ==> exists i :: (0 <= i < |found| && LastFound(found) == found[i]
      && forall j :: i < j < |found| ==> found[j].None?)
  {
    if found == [] {
      return;
    }
    var last := |found| - 1;
    if found[last].Some? {
      assert LastFound(found) == found[last];
      return;
    }
    var init := found[..last];
    LastFoundWins(init);
    assert forall i :: 0 <= i < |init| ==> init[i] == found[i];
    if LastFound(found).Some? {
      var i :| 0 <= i < |init| && LastFound(init) == init[i] && forall j :: i < j < |init| ==> init[j].None?;
      assert LastFound(found) == found[i];
      assert forall j :: i < j < |found| ==> found[j].None?;
    }
  }

  /** The address of the card: the one the LAST matching line yields; None when no line matches. */
  function CanadaAddress(lines: seq<string>, searches: seq<GroupSearch>): Option<string> {
    LastFound(LineAddresses(lines, searches))
  }

  lemma CanadaAddressLastMatchWins(lines: seq<string>, searches: seq<GroupSearch>)
    ensures CanadaAddress(lines, searches).Some? <==> exists i :: 0 <= i < |lines| && FirstGroup(lines[i], searches).Some?
    ensures CanadaAddress(lines, searches).Some? ==> exists i :: (0 <= i < |lines|
      && CanadaAddress(lines, searches) == LineAddress(lines, lines[i], searches)
      && forall j :: i < j < |lines| ==> FirstGroup(lines[j], searches).None?)
  {
    LastFoundWins(LineAddresses(lines, searches));
  }

  /** A repeated line continues with the line after its first copy, not after itself. */
  lemma RepeatedLineContinuation(lines: seq<string>, i: nat, j: nat)
    requires j < i < |lines| && lines[i] == lines[j]
    requires forall k :: 0 <= k < j ==> lines[k] != lines[j]
    ensures Continuation(lines, lines[i]) == (if j + 1 < |lines| then Text.Strip(lines[j + 1]) else "")
  {
  }

  /** The address loop of `process_canada_id`; the last line that matches sets the address. */
  method ExtractAddress(lines: seq<string>, searches: seq<GroupSearch>) returns (address: Option<string>)
    ensures address == CanadaAddress(lines, searches)
  {
    ghost var found := LineAddresses(lines, searches);
    address := None;
    for i := 0 to |lines|
      invariant address == LastFound(found[..i])
    {
      var lineAddress := MatchAddressLine(lines, i, searches);
      assert found[i] == lineAddress;
      LastFoundStep(found, i);
      if lineAddress.Some? {
        address := lineAddress;
      }
    }
    assert found[..|lines|] == found;
  }

  /** The pattern loop for one line: the first search that matches gives the address; `break` ends only this loop. */
  method MatchAddressLine(lines: seq<string>, i: nat, searches: seq<GroupSearch>) returns (address: Option<string>)
    requires i < |lines|
    ensures address == LineAddress(lines, lines[i], searches)
  {
    var line := lines[i];
    address := None;
    for p := 0 to |searches|
      invariant FirstGroup(line, searches[..p]).None?
    {
      assert searches[..p + 1][..p] == searches[..p];
      var m := searches[p](line);
      if m.Some? {
        var addr := Text.Strip(m.value);
        var lineIdx := FirstIndexOf(lines, line);
        if lineIdx + 1 < |lines| {
          var nextLine := Text.Strip(lines[lineIdx + 1]);
          if nextLine != "" && |nextLine| > 2 {
            addr := addr + ", " + nextLine;
          }
        }
        FirstGroupPrefix(line, searches, p + 1);
        LineAddressOfMatch(lines, line, searches);
        return Some(addr);
      }
    }
    assert searches[..|searches|] == searches;
    LineAddressOfMatch(lines, line, searches);
  }

  // ------------------------------------------------------------ Canadian dates

  /** `s.replace(old, new)` for single characters. */
  function ReplaceChar(s: string, from: char, to: char): (r: string)
    ensures |r| == |s|
    ensures forall i :: 0 <= i < |s| ==> r[i] == (if s[i] == from then to else s[i])
  {
    seq(|s|, i requires 0 <= i < |s| => if s[i] == from then to else s[i])
  }

  /** The OCR repairs of the first date pass: o and O read as 0, z as 2. */
  function RepairDate(m: string): string {
    ReplaceChar(ReplaceChar(ReplaceChar(m, 'o', '0'), 'O', '0'), 'z', '2')
  }

  /** `str.isdigit()` on ASCII: non-empty and only digits. */
  predicate IsDigitString(s: string) {
    s != [] && forall i :: 0 <= i < |s| ==> Text.IsDigit(s[i])
  }

  /** The repaired matches that are eight digits, in order. */
  function KeepEightDigitDates(matches: seq<string>): (r: seq<string>)
    ensures forall k :: 0 <= k < |r| ==> |r[k]| == 8 && IsDigitString(r[k])
  {
    if matches == [] then []
    else
      var cleaned := RepairDate(matches[|matches| - 1]);
      KeepEightDigitDates(matches[..|matches| - 1]) + (if IsDigitString(cleaned) && |cleaned| == 8 then [cleaned] else [])
  }

  /** The matches of the date searches, search by search. */
  function Flatten(lists: seq<seq<string>>): seq<string> {
    if lists == [] then [] else Flatten(lists[..|lists| - 1]) + lists[|lists| - 1]
  }

  function AllMatches(text: string, finders: seq<string -> seq<string>>): (r: seq<seq<string>>)
    ensures |r| == |finders| && forall p :: 0 <= p < |finders| ==> r[p] == finders[p](text)
  {
    seq(|finders|, p requires 0 <= p < |finders| => finders[p](text))
  }

  /** The dates of the first pass: every match of every date search, repaired, kept when eight digits. */
  function FirstPassDates(text: string, finders: seq<string -> seq<string>>): seq<string> {
    KeepEightDigitDates(Flatten(AllMatches(text, finders)))
  }

  /** Keeping dates distributes over concatenation of the matches. */
  lemma {:induction false} KeepEightDigitDatesAppend(a: seq<string>, b: seq<string>)
    ensures KeepEightDigitDates(a + b) == KeepEightDigitDates(a) + KeepEightDigitDates(b)
    decreases |b|
  {
    if b != [] {
      var b' := b[..|b| - 1];
      assert (a + b)[..|a + b| - 1] == a + b';
      KeepEightDigitDatesAppend(a, b');
    } else {
      assert a + b == a;
    }
  }

  /** The first date pass of `process_canada_id`. */
  method CollectDates(text: string, finders: seq<string -> seq<string>>) returns (foundDates: seq<string>)
    ensures foundDates == FirstPassDates(text, finders)
  {
    ghost var lists := AllMatches(text, finders);
    foundDates := [];
    for p := 0 to |finders|
      invariant foundDates == KeepEightDigitDates(Flatten(lists[..p]))
    {
      assert lists[..p + 1][..p] == lists[..p];
      var matches := finders[p](text);
      foundDates := KeepRepaired(foundDates, matches);
      KeepEightDigitDatesAppend(Flatten(lists[..p]), matches);
    }
    assert lists[..|finders|] == lists;
  }

  /** The inner loop of the first date pass: the kept matches appended to `found0`. */
  method KeepRepaired(found0: seq<string>, matches: seq<string>) returns (found: seq<string>)
    ensures found == found0 + KeepEightDigitDates(matches)
  {
    found := found0;
    for k := 0 to |matches|
      invariant found == found0 + KeepEightDigitDates(matches[..k])
    {
      assert matches[..k + 1][..k] == matches[..k];
      var cleaned := RepairDate(matches[k]);
      if IsDigitString(cleaned) && |cleaned| == 8 {
        found := found + [cleaned];
      }
    }
    assert matches[..|matches|] == matches;
  }

  /** The characters of the fallback search `[0-9ozOZ]{8,}`. */
  predicate IsDateLike(c: char) {
    Text.IsDigit(c) || c == 'o' || c == 'z' || c == 'O' || c == 'Z'
  }

  /** The length of the run of date-like characters at the front. */
  function DateLikeRun(s: string): (n: nat)
    ensures n <= |s|
    ensures forall i :: 0 <= i < n ==> IsDateLike(s[i])
    ensures n == |s| || !IsDateLike(s[n])
  {
    if s != [] && IsDateLike(s[0]) then 1 + DateLikeRun(s[1..]) else 0
  }

  /**
   * `re.findall(r'[0-9ozOZ]{8,}', text)`: the greedy search takes every
   * maximal run of date-like characters that is at least eight long, in order.
   */
  function DateLikeRuns(s: string): (runs: seq<string>)
    ensures forall k :: 0 <= k < |runs| ==> |runs[k]| >= 8 && forall i :: 0 <= i < |runs[k]| ==> IsDateLike(runs[k][i])
    decreases |s|
  {
    if s == [] then []
    else if !IsDateLike(s[0]) then DateLikeRuns(s[1..])
    else
      var n := DateLikeRun(s);
      (if n >= 8 then [s[..n]] else []) + DateLikeRuns(s[n..])
  }

  /** A run that reaches the end of `a` continues into what follows. */
  lemma {:induction false} DateLikeRunAppend(a: string, t: string)
    ensures DateLikeRun(a + t) == if DateLikeRun(a) < |a| then DateLikeRun(a) else |a| + DateLikeRun(t)
    decreases |a|
  {
    if a == [] {
      assert a + t == t;
    } else {
      assert (a + t)[0] == a[0] && (a + t)[1..] == a[1..] + t;
      if IsDateLike(a[0]) {
        DateLikeRunAppend(a[1..], t);
      }
    }
  }

  /**
   * Runs never cross a character that is not date-like: the search on the
   * two sides of one is the search on each side, in order.
   */
  lemma {:induction false} DateLikeRunsSplit(a: string, c: char, b: string)
    requires !IsDateLike(c)
    ensures DateLikeRuns(a + [c] + b) == DateLikeRuns(a) + DateLikeRuns(b)
    decreases |a|, 1
  {
    var s := a + [c] + b;
    if a == [] {
      assert s == [c] + b;
      SeparatorThenRuns(c, b);
    } else if !IsDateLike(a[0]) {
      assert s[0] == a[0] && s[1..] == a[1..] + [c] + b;
      DateLikeRunsSplit(a[1..], c, b);
    } else if DateLikeRun(a) < |a| {
      SplitRunInside(a, c, b);
    } else {
      SplitRunToEnd(a, c, b);
    }
  }

  /** `DateLikeRunsSplit` when `a` starts with a run that ends inside `a`. */
  lemma {:induction false} SplitRunInside(a: string, c: char, b: string)
    requires a != [] && IsDateLike(a[0]) && !IsDateLike(c) && DateLikeRun(a) < |a|
    ensures DateLikeRuns(a + [c] + b) == DateLikeRuns(a) + DateLikeRuns(b)
    decreases |a|, 0
  {
    var m := DateLikeRun(a);
    var head := SplitHeads(a, c, b);
    var rest := a[m..];
    assert (a + [c] + b)[m..] == rest + [c] + b;
    DateLikeRunsSplit(rest, c, b);
  }

  /** `DateLikeRunsSplit` when `a` is one run up to the separator. */
  lemma SplitRunToEnd(a: string, c: char, b: string)
    requires a != [] && IsDateLike(a[0]) && !IsDateLike(c) && DateLikeRun(a) == |a|
    ensures DateLikeRuns(a + [c] + b) == DateLikeRuns(a) + DateLikeRuns(b)
  {
    var head := SplitHeads(a, c, b);
    var none := a[|a|..];
    assert none == [];
    assert DateLikeRuns(none) == [];
    assert DateLikeRuns(a) == head;
    var tail := (a + [c] + b)[|a|..];
    assert tail == [c] + b;
    SeparatorThenRuns(c, b);
    assert DateLikeRuns(a + [c] + b) == head + DateLikeRuns(b);
  }

  /** When `a` starts with a run, both searches begin with that same run. */
  lemma SplitHeads(a: string, c: char, b: string) returns (head: seq<string>)
    requires a != [] && IsDateLike(a[0]) && !IsDateLike(c)
    ensures var m := DateLikeRun(a);
      && DateLikeRuns(a) == head + DateLikeRuns(a[m..])
      && DateLikeRuns(a + [c] + b) == head + DateLikeRuns((a + [c] + b)[m..])
  {
    var s := a + [c] + b;
    var m := DateLikeRun(a);
    head := if m >= 8 then [a[..m]] else [];
    RunOfSplit(a, c, b, m);
    RunsUnfold(a, m);
    RunsUnfold(s, m);
    assert s[..m] == a[..m];
  }

  /** The run at the start of `a + [c] + b` is the run at the start of `a`. */
  lemma RunOfSplit(a: string, c: char, b: string, m: nat)
    requires !IsDateLike(c) && m == DateLikeRun(a)
    ensures DateLikeRun(a + [c] + b) == m
  {
    assert a + [c] + b == a + ([c] + b);
    DateLikeRunAppend(a, [c] + b);
    assert ([c] + b)[0] == c;
  }

  /** One step of the search at a date-like character: the run there, then the rest. */
  lemma RunsUnfold(s: string, n: nat)
    requires s != [] && IsDateLike(s[0]) && n == DateLikeRun(s)
    ensures DateLikeRuns(s) == (if n >= 8 then [s[..n]] else []) + DateLikeRuns(s[n..])
  {
  }

  lemma SeparatorThenRuns(c: char, b: string)
    requires !IsDateLike(c)
    ensures DateLikeRuns([c] + b) == DateLikeRuns(b)
  {
    assert ([c] + b)[0] == c && ([c] + b)[1..] == b;
  }

  /** A stretch of date-like characters alone is found whole when it is eight or longer, else not at all. */
  lemma DateLikeRunsOfRun(s: string)
    requires forall i :: 0 <= i < |s| ==> IsDateLike(s[i])
    ensures DateLikeRuns(s) == if |s| >= 8 then [s] else []
  {
    if s != [] {
      assert DateLikeRun(s) == |s|;
      assert s[..|s|] == s && s[|s|..] == [];
    }
  }

  /** The repairs of the fallback pass: o and O read as 0, z and Z as 2. */
  function RepairRun(run: string): string {
    ReplaceChar(RepairDate(run), 'Z', '2')
  }

  /** The repaired runs that are eight characters long, in order. */
  function KeepEightLong(runs: seq<string>): seq<string> {
    if runs == [] then []
    else
      var cleaned := RepairRun(runs[|runs| - 1]);
      KeepEightLong(runs[..|runs| - 1]) + (if |cleaned| == 8 then [cleaned] else [])
  }

  /** The dates of the fallback pass. */
  function FallbackDates(text: string): seq<string> {
    KeepEightLong(DateLikeRuns(text))
  }

  /** The fallback pass of `process_canada_id`. */
  method CollectFallbackDates(text: string) returns (foundDates: seq<string>)
    ensures foundDates == FallbackDates(text)
  {
    var allSequences := DateLikeRuns(text);
    foundDates := [];
    for k := 0 to |allSequences|
      invariant foundDates == KeepEightLong(allSequences[..k])
    {
      assert allSequences[..k + 1][..k] == allSequences[..k];
      var cleaned := RepairRun(allSequences[k]);
      if |cleaned| == 8 {
        foundDates := foundDates + [cleaned];
      }
    }
    assert allSequences[..|allSequences|] == allSequences;
  }

  /** After the fallback repairs a run of date-like characters is all digits. */
  lemma RepairRunDigits(run: string)
    requires forall i :: 0 <= i < |run| ==> IsDateLike(run[i])
    ensures |RepairRun(run)| == |run|
    ensures forall i :: 0 <= i < |run| ==> Text.IsDigit(RepairRun(run)[i])
  {
    forall i | 0 <= i < |run|
      ensures Text.IsDigit(RepairRun(run)[i])
    {
      var a := ReplaceChar(run, 'o', '0');
      var b := ReplaceChar(a, 'O', '0');
      var c := ReplaceChar(b, 'z', '2');
      assert RepairRun(run)[i] == (if c[i] == 'Z' then '2' else c[i]);
    }
  }

  /** Every date the fallback keeps is eight digits. */
  lemma {:induction false} FallbackDatesAreEightDigits(runs: seq<string>)
    requires forall k :: 0 <= k < |runs| ==> forall i :: 0 <= i < |runs[k]| ==> IsDateLike(runs[k][i])
    ensures forall k :: 0 <= k < |KeepEightLong(runs)| ==> |KeepEightLong(runs)[k]| == 8 && IsDigitString(KeepEightLong(runs)[k])
  {
    if runs != [] {
      var init := runs[..|runs| - 1];
      assert forall k :: 0 <= k < |init| ==> init[k] == runs[k];
      FallbackDatesAreEightDigits(init);
      RepairRunDigits(runs[|runs| - 1]);
    }
  }

  /**
   * The dates `process_canada_id` works from: the first pass when it found
   * any, else the fallback.
   */
  function CanadaDates(text: string, finders: seq<string -> seq<string>>): seq<string> {
    var first := FirstPassDates(text, finders);
    if first != [] then first else FallbackDates(text)
  }

  /** Whichever pass they come from, the dates are eight digits. */
  lemma CanadaDatesAreEightDigits(text: string, finders: seq<string -> seq<string>>)
    ensures forall k :: 0 <= k < |CanadaDates(text, finders)| ==>
      |CanadaDates(text, finders)[k]| == 8 && IsDigitString(CanadaDates(text, finders)[k])
  {
    if FirstPassDates(text, finders) == [] {
      FallbackDatesAreEightDigits(DateLikeRuns(text));
    }
  }

  /**
   * `process_canada_id`: the name from the best comma line after a NAME
   * line, the stripped ID, the last address found, the first and last
   * dates found as issue and expiry, and the text itself.
   */
  method ProcessCanadaId(text: string, rx: Regexes) returns (data: CanadaData)
    ensures var lines := Text.Split(text, '\n');
      && data.fullName == CanadaName(lines)
      && data.address == CanadaAddress(lines, rx.address)
    ensures var id := OcrEngine.FindFieldByPattern(text, rx.canadaId);
      data.idNumber == (if Truthy(id) then Some(Text.Strip(id.value)) else None)
    ensures data.issueDate == IssueOf(CanadaDates(text, rx.canadaDates))
    ensures data.expiryDate == ExpiryOf(CanadaDates(text, rx.canadaDates))
    ensures data.rawText == text
    ensures data == CanadaRecord(text, rx)
  {
    var lines := Text.Split(text, '\n');
    var name := CanadaNameOf(lines);
    var idNumber := OcrEngine.FindFieldByPattern(text, rx.canadaId);
    var id: Option<string> := None;
    if Truthy(idNumber) {
      id := Some(Text.Strip(idNumber.value));
    }
    var address := ExtractAddress(lines, rx.address);
    var foundDates := FindCanadaDates(text, rx.canadaDates);
    data := CanadaData(name, id, address, IssueOf(foundDates), ExpiryOf(foundDates), text);
  }

  /** The record `process_canada_id` builds. */
  function CanadaRecord(text: string, rx: Regexes): CanadaData {
    var lines := Text.Split(text, '\n');
    var id := OcrEngine.FindFieldByPattern(text, rx.canadaId);
    var dates := CanadaDates(text, rx.canadaDates);
    CanadaData(CanadaName(lines), if Truthy(id) then Some(Text.Strip(id.value)) else None,
      CanadaAddress(lines, rx.address), IssueOf(dates), ExpiryOf(dates), text)
  }

  /** The issue date: the first date found, parsed, if there is one. */
  function IssueOf(dates: seq<string>): Option<string> {
    if |dates| >= 1 then Dates.ParseDate(dates[0]) else None
  }

  /** The expiry date: the last date found, parsed, if at least two were found. */
  function ExpiryOf(dates: seq<string>): Option<string> {
    if |dates| >= 2 then Dates.ParseDate(dates[|dates| - 1]) else None
  }

  /** The date passes of `process_canada_id`: the fallback runs only when the first pass found nothing. */
  method FindCanadaDates(text: string, finders: seq<string -> seq<string>>) returns (foundDates: seq<string>)
    ensures foundDates == CanadaDates(text, finders)
  {
    foundDates := CollectDates(text, finders);
    if foundDates == [] {
      foundDates := CollectFallbackDates(text);
    }
  }

  /** The name step of `process_canada_id`, on the candidates its loops collect. */
  method CanadaNameOf(lines: seq<string>) returns (name: Option<string>)
    ensures name == CanadaName(lines)
  {
    name := None;
    var nameCandidates := CollectNameCandidates(lines);
    if nameCandidates != [] {
      var best := nameCandidates[BestCandidate(nameCandidates)];
      var parts := NameParts(best);
      if |parts| >= 2 {
        name := Some(ReorderedName(parts));
      }
    }
  }

  // ------------------------------------------------------------ process_document

  /** The `extracted_data` of each document type. */
  datatype Extracted =
    | PassportFields(passport: PassportData)
    | UaeFields(uae: UaeData)
    | CanadaFields(canada: CanadaData)
    | GenericFields(documentType: string, rawText: string)

  /** The dictionary `process_document` returns, without its processing time. */
  datatype Outcome =
    | Failure(error: string)
    | Success(documentType: string, extractedData: Extracted, faceImagePath: Option<string>,
              confidenceScore: real, ocrDetails: OcrEngine.OcrResult)

  /**
   * `process_document`: no page loaded is a failure; otherwise the first
   * page's OCR text is classified, the matching field rules run, and the
   * OCR confidence, the OCR result and the saved face path are reported.
   * `pageCount` is the number of images `load_document` produced, `ocr`
   * the OCR result of the first one, `mrz` passporteye's reading of it and
   * `savedFace` the path `save_face` returned, if a face was found.
   */
  method ProcessDocument(pageCount: nat, ocr: OcrEngine.OcrResult, mrz: Option<MrzReading>,
                         savedFace: Option<string>, rx: Regexes) returns (r: Outcome)
    ensures pageCount == 0 <==> r == Failure("Could not load document")
    ensures pageCount > 0 ==> (r.Success?
      && r.documentType == DetectDocumentType(ocr.fullText)
      && r.faceImagePath == savedFace
      && r.confidenceScore == ocr.confidence
      && r.ocrDetails == ocr)
    ensures r.Success? ==> ExtractedAgrees(r.documentType, r.extractedData, ocr.fullText)
    ensures r.Success? ==> r.extractedData == ExtractedFor(r.documentType, ocr.fullText, mrz, rx)
  {
    if pageCount == 0 {
      return Failure("Could not load document");
    }
    var docType := DetectDocumentType(ocr.fullText);
    var extracted: Extracted;
    if docType == "passport" {
      var data := ProcessPassport(ocr.fullText, mrz, rx);
      extracted := PassportFields(data);
    } else if docType == "uae_eid" {
      var data := ProcessUaeEid(ocr.fullText, rx);
      extracted := UaeFields(data);
    } else if docType == "canada_id" {
      var data := ProcessCanadaId(ocr.fullText, rx);
      extracted := CanadaFields(data);
    } else {
      extracted := GenericFields(docType, ocr.fullText);
    }
    r := Success(docType, extracted, savedFace, ocr.confidence, ocr);
  }

  /** The field rules `process_document` runs for a document type, on the OCR text. */
  function ExtractedFor(docType: string, text: string, mrz: Option<MrzReading>, rx: Regexes): Extracted {
    if docType == "passport" then PassportFields(PassportRecord(text, mrz, rx))
    else if docType == "uae_eid" then UaeFields(UaeRecord(text, rx))
    else if docType == "canada_id" then CanadaFields(CanadaRecord(text, rx))
    else GenericFields(docType, text)
  }

  /**
   * The extracted fields are those of the reported type: each of the three
   * known types has its own record, carrying the OCR text where the source
   * keeps it, and every other type reports only its name and the text.
   */
  predicate ExtractedAgrees(docType: string, extracted: Extracted, text: string) {
    match extracted
    case PassportFields(_) => docType == "passport"
    case UaeFields(_) => docType == "uae_eid"
    case CanadaFields(c) => docType == "canada_id" && c.rawText == text
    case GenericFields(t, raw) => t == docType && raw == text && docType !in {"passport", "uae_eid", "canada_id"}
  }
}
