/**
 * Date normalisation (utils.py, `parse_date`): the stripped input is read
 * with each of nine `strptime` formats in turn, and the first that reads it
 * as a real calendar date is written back as YYYY-MM-DD.
 *
 * `strptime` turns a format into a regular expression: `%d` becomes the
 * alternation 3[01] | [12]\d | 0[1-9] | [1-9] | " "[1-9], `%m` becomes
 * 1[0-2] | 0[1-9] | [1-9], `%Y` four digits, `%b`/`%B` the English month
 * names (case-insensitive), a space in the format one or more whitespace
 * characters (greedy), and every other character itself. The expression is
 * matched at the start of the input with backtracking; the first match found
 * must then end exactly at the end of the input ("unconverted data remains"
 * otherwise), and the fields must name a date that exists.
 */
module Dates {
  import opened Wrappers
  import Text

  /** One element of a `strptime` format. */
  datatype Directive =
    | Day        // %d
    | MonthNum   // %m
    | Year       // %Y
    | MonthAbbr  // %b
    | MonthName  // %B
    | Spaces     // a space in the format: \s+
    | Lit(c: char)

  type Format = seq<Directive>

  /** The formats `parse_date` tries, in order. */
  const DayMonthYearSlash: Format := [Day, Lit('/'), MonthNum, Lit('/'), Year]          // %d/%m/%Y
  const DayMonthYearDash: Format := [Day, Lit('-'), MonthNum, Lit('-'), Year]           // %d-%m-%Y
  const IsoDash: Format := [Year, Lit('-'), MonthNum, Lit('-'), Day]                    // %Y-%m-%d
  const IsoSlash: Format := [Year, Lit('/'), MonthNum, Lit('/'), Day]                   // %Y/%m/%d
  const DayAbbrYear: Format := [Day, Spaces, MonthAbbr, Spaces, Year]                   // %d %b %Y
  const DayNameYear: Format := [Day, Spaces, MonthName, Spaces, Year]                   // %d %B %Y
  const AbbrDayYear: Format := [MonthAbbr, Spaces, Day, Lit(','), Spaces, Year]         // %b %d, %Y
  const NameDayYear: Format := [MonthName, Spaces, Day, Lit(','), Spaces, Year]         // %B %d, %Y
  const Compact: Format := [Year, MonthNum, Day]                                        // %Y%m%d

  const DateFormats: seq<Format> :=
    [DayMonthYearSlash, DayMonthYearDash, IsoDash, IsoSlash, DayAbbrYear, DayNameYear,
     AbbrDayYear, NameDayYear, Compact]

  const MonthAbbrs: seq<string> :=
    ["jan", "feb", "mar", "apr", "may", "jun", "jul", "aug", "sep", "oct", "nov", "dec"]
  const MonthNames: seq<string> :=
    ["january", "february", "march", "april", "may", "june", "july", "august",
     "september", "october", "november", "december"]

  // ------------------------------------------------------------ calendar

  datatype Date = Date(year: int, month: int, day: int)

  predicate IsLeapYear(y: int) {
    y % 4 == 0 && (y % 100 != 0 || y % 400 == 0)
  }

  function DaysInMonth(y: int, m: int): (n: int)
    requires 1 <= m <= 12
    ensures 28 <= n <= 31
  {
    if m == 2 then (if IsLeapYear(y) then 29 else 28)
    else if m == 4 || m == 6 || m == 9 || m == 11 then 30
    else 31
  }

  /** The dates `datetime.date` accepts, restricted to four-digit years. */
  predicate ValidDate(d: Date) {
    1 <= d.year <= 9999 && 1 <= d.month <= 12 && 1 <= d.day <= DaysInMonth(d.year, d.month)
  }

  // ------------------------------------------------------------ digits

  function DigitValue(c: char): int {
    c as int - '0' as int
  }

  function DigitChar(n: int): (c: char)
    requires 0 <= n <= 9
    ensures Text.IsDigit(c) && DigitValue(c) == n
  {
    ('0' as int + n) as char
  }

  /** A number written with exactly `width` digits, zero-padded. */
  function Padded(n: nat, width: nat): (s: string)
    requires n < Pow10(width)
    ensures |s| == width
    ensures forall i :: 0 <= i < |s| ==> Text.IsDigit(s[i])
    ensures DigitsValue(s) == n
  {
    if width == 0 then ""
    else Padded(n / 10, width - 1) + [DigitChar(n % 10)]
  }

  function Pow10(k: nat): nat {
    if k == 0 then 1 else 10 * Pow10(k - 1)
  }

  /** The number a string of digits denotes (`int(s)`). */
  function DigitsValue(s: string): int {
    if s == [] then 0 else 10 * DigitsValue(s[..|s| - 1]) + DigitValue(s[|s| - 1])
  }

  /** `strftime("%Y-%m-%d")` */
  function IsoFormat(d: Date): (s: string)
    requires ValidDate(d)
    ensures |s| == 10 && s[4] == '-' && s[7] == '-'
    ensures forall i :: 0 <= i < 10 && i != 4 && i != 7 ==> Text.IsDigit(s[i])
    ensures DigitsValue(s[..4]) == d.year && DigitsValue(s[5..7]) == d.month && DigitsValue(s[8..]) == d.day
  {
    var s := Padded(d.year, 4) + "-" + Padded(d.month, 2) + "-" + Padded(d.day, 2);
    assert s[..4] == Padded(d.year, 4);
    assert s[5..7] == Padded(d.month, 2);
    assert s[8..] == Padded(d.day, 2);
    s
  }

  // ------------------------------------------------------------ matching

  /** One way an element can match at the front of the input: the field value read and the characters used. */
  datatype Candidate = Candidate(value: int, len: nat)

  predicate Fits(cs: seq<Candidate>, s: string) {
    forall k :: 0 <= k < |cs| ==> 1 <= cs[k].len <= |s|
  }

  predicate IsNonZeroDigit(c: char) { '1' <= c <= '9' }

  /** The two-digit alternatives of %d, in the order the expression lists them, then the one-digit and space-digit ones. */
  function DayCandidates(s: string): (cs: seq<Candidate>)
    ensures Fits(cs, s)
    ensures forall k :: 0 <= k < |cs| ==> cs[k].len <= 2
    ensures forall k :: 0 <= k < |cs| ==> 1 <= cs[k].value <= 31
  {
    (if |s| >= 2 && s[0] == '3' && (s[1] == '0' || s[1] == '1') then [Candidate(30 + DigitValue(s[1]), 2)] else [])
    + (if |s| >= 2 && (s[0] == '1' || s[0] == '2') && Text.IsDigit(s[1]) then [Candidate(10 * DigitValue(s[0]) + DigitValue(s[1]), 2)] else [])
    + (if |s| >= 2 && s[0] == '0' && IsNonZeroDigit(s[1]) then [Candidate(DigitValue(s[1]), 2)] else [])
    + (if |s| >= 1 && IsNonZeroDigit(s[0]) then [Candidate(DigitValue(s[0]), 1)] else [])
    + (if |s| >= 2 && s[0] == ' ' && IsNonZeroDigit(s[1]) then [Candidate(DigitValue(s[1]), 2)] else [])
  }

  /** The alternatives of %m: 1[0-2], 0[1-9], [1-9]. */
  function MonthCandidates(s: string): (cs: seq<Candidate>)
    ensures Fits(cs, s)
    ensures forall k :: 0 <= k < |cs| ==> 1 <= cs[k].value <= 12
  {
    (if |s| >= 2 && s[0] == '1' && '0' <= s[1] <= '2' then [Candidate(10 + DigitValue(s[1]), 2)] else [])
    + (if |s| >= 2 && s[0] == '0' && IsNonZeroDigit(s[1]) then [Candidate(DigitValue(s[1]), 2)] else [])
    + (if |s| >= 1 && IsNonZeroDigit(s[0]) then [Candidate(DigitValue(s[0]), 1)] else [])
  }

  predicate AllDigits(s: string) {
    forall i :: 0 <= i < |s| ==> Text.IsDigit(s[i])
  }

  /** %Y: exactly four digits. */
  function YearCandidates(s: string): (cs: seq<Candidate>)
    ensures Fits(cs, s)
    ensures forall k :: 0 <= k < |cs| ==> 0 <= cs[k].value <= 9999
  {
    if |s| >= 4 && AllDigits(s[..4]) then
      DigitsBound(s[..4]);
      [Candidate(DigitsValue(s[..4]), 4)]
    else []
  }

  lemma {:induction false} DigitsBound(s: string)
    requires AllDigits(s)
    ensures 0 <= DigitsValue(s) < Pow10(|s|)
  {
    if s != [] {
      DigitsBound(s[..|s| - 1]);
    }
  }

  /** The month names (any case) that begin the input, numbered from 1; names earlier in the list first. */
  function NameCandidates(names: seq<string>, s: string, from: nat): (cs: seq<Candidate>)
    requires forall k :: 0 <= k < |names| ==> |names[k]| >= 1
    ensures Fits(cs, s)
    ensures forall k :: 0 <= k < |cs| ==> from + 1 <= cs[k].value <= |names|
    decreases |names| - from
  {
    if from >= |names| then []
    else
      var name := names[from];
      (if |name| <= |s| && Text.Lower(s[..|name|]) == name then [Candidate(from + 1, |name|)] else [])
      + NameCandidates(names, s, from + 1)
  }

  /** The number of whitespace characters at the front of the input. */
  function SpaceRun(s: string): (n: nat)
    ensures n <= |s|
    ensures forall i :: 0 <= i < n ==> Text.IsSpace(s[i])
    ensures n == |s| || !Text.IsSpace(s[n])
  {
    if s != [] && Text.IsSpace(s[0]) then 1 + SpaceRun(s[1..]) else 0
  }

  /** Greedy \s+: the longest run first, then each shorter one down to a single space. */
  function SpaceCandidates(n: nat): (cs: seq<Candidate>)
    ensures |cs| == n
    ensures forall k :: 0 <= k < |cs| ==> cs[k].len == n - k
  {
    if n == 0 then [] else [Candidate(0, n)] + SpaceCandidates(n - 1)
  }

  /** The ways the element can match at the front of the input, in the order the matcher tries them. */
  function Candidates(e: Directive, s: string): (cs: seq<Candidate>)
    ensures Fits(cs, s)
  {
    match e
    case Day => DayCandidates(s)
    case MonthNum => MonthCandidates(s)
    case Year => YearCandidates(s)
    case MonthAbbr => NameCandidates(MonthAbbrs, s, 0)
    case MonthName => NameCandidates(MonthNames, s, 0)
    case Spaces => SpaceCandidates(SpaceRun(s))
    case Lit(c) => if |s| >= 1 && s[0] == c then [Candidate(0, 1)] else []
  }

  /** Record a field read by an element. */
  function Bind(d: Date, e: Directive, value: int): Date {
    match e
    case Day => d.(day := value)
    case MonthNum => d.(month := value)
    case MonthAbbr => d.(month := value)
    case MonthName => d.(month := value)
    case Year => d.(year := value)
    case _ => d
  }

  /**
   * The first match of the format at the front of `s`, in backtracking
   * order: the fields read and the number of characters consumed.
   */
  function MatchFormat(fmt: Format, s: string, d: Date): (r: Option<(Date, nat)>)
    ensures r.Some? ==> r.value.1 <= |s|
    decreases |fmt|, 1
  {
    if fmt == [] then Some((d, 0))
    else TryCandidates(fmt, s, d, Candidates(fmt[0], s))
  }

  /** Try the candidates of the first element in order; the first that lets the rest match wins. */
  function TryCandidates(fmt: Format, s: string, d: Date, cs: seq<Candidate>): (r: Option<(Date, nat)>)
    requires fmt != [] && Fits(cs, s)
    ensures r.Some? ==> r.value.1 <= |s|
    decreases |fmt|, 0, |cs|
  {
    if cs == [] then None
    else
      var c := cs[0];
      match MatchFormat(fmt[1..], s[c.len..], Bind(d, fmt[0], c.value))
      case Some((d', n)) => Some((d', c.len + n))
      case None => TryCandidates(fmt, s, d, cs[1..])
  }

  /** `datetime.strptime(s, fmt)`: the first match must use the whole input and name a real date. */
  function Strptime(s: string, fmt: Format): (r: Option<Date>)
    ensures r.Some? ==> ValidDate(r.value)
  {
    match MatchFormat(fmt, s, Date(1900, 1, 1))
    case Some((d, n)) => if n == |s| && ValidDate(d) then Some(d) else None
    case None => None
  }

  /** The first format, in order, that reads the input. */
  function FirstParse(s: string, formats: seq<Format>): (r: Option<Date>)
    ensures r.Some? ==> ValidDate(r.value)
  {
    if formats == [] then None
    else if Strptime(s, formats[0]).Some? then Strptime(s, formats[0])
    else FirstParse(s, formats[1..])
  }

  /** The shape `strftime("%Y-%m-%d")` produces: four digits, dash, two digits, dash, two digits. */
  predicate IsIsoShaped(s: string) {
    |s| == 10 && s[4] == '-' && s[7] == '-'
    && forall i :: 0 <= i < 10 && i != 4 && i != 7 ==> Text.IsDigit(s[i])
  }

  /**
   * `parse_date`: None for an empty input; the ISO form of the first format
   * that reads the stripped input; otherwise the input unchanged.
   */
  function ParseDate(dateString: string): (r: Option<string>)
    ensures r.None? <==> dateString == ""
    ensures r.Some? ==> r.value == dateString || IsIsoShaped(r.value)
    ensures dateString != "" && FirstParse(Text.Strip(dateString), DateFormats).None? ==> r == Some(dateString)
    ensures dateString != "" && FirstParse(Text.Strip(dateString), DateFormats).Some? ==>
      r == Some(IsoFormat(FirstParse(Text.Strip(dateString), DateFormats).value))
  {
    if dateString == "" then None
    else
      match FirstParse(Text.Strip(dateString), DateFormats)
      case Some(d) => Some(IsoFormat(d))
      case None => Some(dateString)
  }

  // ------------------------------------------------------------ properties

  /** Day-first formats come first: "01/02/2020" is the first of February. */
  lemma DayFirstExample()
    ensures ParseDate("01/02/2020") == Some("2020-02-01")
  {
    var s := "01/02/2020";
    Text.StripTrimmed(s);
    SlashExampleMatches();
    assert Strptime(s, DayMonthYearSlash) == Some(Date(2020, 2, 1));
    assert FirstParse(s, DateFormats) == Some(Date(2020, 2, 1));
    IsoExample();
  }

  lemma SlashExampleMatches()
    ensures MatchFormat(DayMonthYearSlash, "01/02/2020", Date(1900, 1, 1)) == Some((Date(2020, 2, 1), 10))
  {
    var s := "01/02/2020";
    SlashExampleMonth();
    assert s[3..] == "02/2020";
    assert MatchFormat(DayMonthYearSlash[1..], s[2..], Date(1900, 1, 1)) == Some((Date(2020, 2, 1), 8)) by {
      assert s[2..][1..] == "02/2020";
    }
    assert DayCandidates(s) == [Candidate(1, 2)];
  }

  lemma SlashExampleMonth()
    ensures MatchFormat(DayMonthYearSlash[2..], "02/2020", Date(1900, 1, 1)) == Some((Date(2020, 2, 1), 7))
  {
    var s := "02/2020";
    SlashExampleYear();
    assert s[3..] == "2020";
    assert MatchFormat(DayMonthYearSlash[3..], s[2..], Date(1900, 2, 1)) == Some((Date(2020, 2, 1), 5)) by {
      assert s[2..][1..] == "2020";
    }
    assert MonthCandidates(s) == [Candidate(2, 2)];
  }

  lemma SlashExampleYear()
    ensures MatchFormat(DayMonthYearSlash[4..], "2020", Date(1900, 2, 1)) == Some((Date(2020, 2, 1), 4))
  {
    var s := "2020";
    assert DigitsValue(s) == 2020 by {
      assert s[..3] == "202" && "202"[..2] == "20" && "20"[..1] == "2" && "2"[..0] == "";
    }
    assert s[..4] == s;
    assert YearCandidates(s) == [Candidate(2020, 4)];
    assert DayMonthYearSlash[4..] == [Year] && [Year][1..] == [];
    assert MatchFormat([], s[4..], Date(2020, 2, 1)) == Some((Date(2020, 2, 1), 0));
    assert TryCandidates([Year], s, Date(1900, 2, 1), [Candidate(2020, 4)]) == Some((Date(2020, 2, 1), 4));
  }

  lemma IsoExample()
    ensures IsoFormat(Date(2020, 2, 1)) == "2020-02-01"
  {
    assert Padded(2020, 4) == "2020";
    assert Padded(2, 2) == "02";
    assert Padded(1, 2) == "01";
  }

  /** If every candidate of the first element leaves a rest that cannot match, the format does not match. */
  lemma {:induction false} AllCandidatesFail(fmt: Format, s: string, d: Date, cs: seq<Candidate>)
    requires fmt != [] && Fits(cs, s)
    requires forall k :: 0 <= k < |cs| ==> MatchFormat(fmt[1..], s[cs[k].len..], Bind(d, fmt[0], cs[k].value)).None?
    ensures TryCandidates(fmt, s, d, cs).None?
  {
    if cs != [] {
      AllCandidatesFail(fmt, s, d, cs[1..]);
    }
  }

  /** A day followed by a separator cannot be read from three leading digits. */
  lemma DayThenSeparatorFails(fmt: Format, s: string, d: Date)
    requires |fmt| >= 2 && fmt[0] == Day && fmt[1].Lit? && !Text.IsDigit(fmt[1].c)
    requires |s| >= 3 && Text.IsDigit(s[0]) && Text.IsDigit(s[1]) && Text.IsDigit(s[2])
    ensures MatchFormat(fmt, s, d).None?
  {
    var cs := DayCandidates(s);
    forall k | 0 <= k < |cs|
      ensures MatchFormat(fmt[1..], s[cs[k].len..], Bind(d, fmt[0], cs[k].value)).None?
    {
      var rest := s[cs[k].len..];
      assert rest[0] == s[cs[k].len];
      assert Candidates(fmt[1..][0], rest) == [];
    }
    AllCandidatesFail(fmt, s, d, cs);
  }

  lemma TwoDigitsValue(t: string)
    requires |t| == 2
    ensures DigitsValue(t) == 10 * DigitValue(t[0]) + DigitValue(t[1])
  {
    assert t[..1][..0] == [] && t[..1][0] == t[0];
    assert DigitsValue(t[..1]) == DigitValue(t[0]);
  }

  /** A two-digit month is read whole by the first alternative that applies. */
  lemma MonthFromTwoDigits(t: string, m: int)
    requires |t| >= 2 && Text.IsDigit(t[0]) && Text.IsDigit(t[1])
    requires m == 10 * DigitValue(t[0]) + DigitValue(t[1]) && 1 <= m <= 12
    ensures MonthCandidates(t) != [] && MonthCandidates(t)[0] == Candidate(m, 2)
  {
  }

  /** A two-digit day is read whole by the first alternative that applies. */
  lemma DayFromTwoDigits(t: string, day: int)
    requires |t| >= 2 && Text.IsDigit(t[0]) && Text.IsDigit(t[1])
    requires day == 10 * DigitValue(t[0]) + DigitValue(t[1]) && 1 <= day <= 31
    ensures DayCandidates(t) != [] && DayCandidates(t)[0] == Candidate(day, 2)
  {
  }

  /** The %Y-%m-%d format reads back every date it writes. */
  lemma IsoDashReadsIso(d: Date)
    requires ValidDate(d)
    ensures MatchFormat(IsoDash, IsoFormat(d), Date(1900, 1, 1)) == Some((d, 10))
  {
    var s := IsoFormat(d);
    assert IsoDash[1..] == [Lit('-'), MonthNum, Lit('-'), Day];
    IsoTailReads(d, s);
    assert AllDigits(s[..4]);
    assert YearCandidates(s) == [Candidate(d.year, 4)];
  }

  /** After the year, "-%m-%d" reads the month and the day of the ISO form. */
  lemma IsoTailReads(d: Date, s: string)
    requires ValidDate(d) && s == IsoFormat(d)
    ensures MatchFormat([Lit('-'), MonthNum, Lit('-'), Day], s[4..], Date(d.year, 1, 1)) == Some((d, 6))
  {
    var tail := [Lit('-'), MonthNum, Lit('-'), Day];
    assert tail[1..][1..][1..][1..] == [];
    TwoDigitsValue(s[5..7]);
    TwoDigitsValue(s[8..]);
    DayFromTwoDigits(s[8..], d.day);
    assert MatchFormat([Day], s[8..], Date(d.year, d.month, 1)) == Some((d, 2)) by {
      assert s[8..][2..] == [];
      assert MatchFormat([], [], d) == Some((d, 0));
    }
    assert MatchFormat(tail[1..][1..], s[7..], Date(d.year, d.month, 1)) == Some((d, 3)) by {
      assert s[7..][1..] == s[8..];
    }
    MonthFromTwoDigits(s[5..], d.month);
    assert s[5..][..2] == s[5..7];
    assert MatchFormat(tail[1..], s[5..], Date(d.year, 1, 1)) == Some((d, 5)) by {
      assert s[5..][2..] == s[7..];
    }
    assert s[4..][1..] == s[5..];
  }

  /** Writing a date and reading it back gives the same date. */
  lemma StrptimeReadsIso(d: Date)
    requires ValidDate(d)
    ensures FirstParse(IsoFormat(d), DateFormats) == Some(d)
  {
    var s := IsoFormat(d);
    DayThenSeparatorFails(DayMonthYearSlash, s, Date(1900, 1, 1));
    DayThenSeparatorFails(DayMonthYearDash, s, Date(1900, 1, 1));
    IsoDashReadsIso(d);
    FirstParseSkips(s, DateFormats);
    FirstParseSkips(s, DateFormats[1..]);
    assert DateFormats[1..][1..][0] == IsoDash;
  }

  /**
   * A date is read exactly when some format reads the input, and it is the
   * date of the first format that does.
   */
  lemma {:induction false} FirstParseFirstSuccess(s: string, formats: seq<Format>)
    ensures FirstParse(s, formats).Some? <==> exists i :: 0 <= i < |formats| && Strptime(s, formats[i]).Some?
    ensures FirstParse(s, formats).Some? ==> exists i :: (0 <= i < |formats| && FirstParse(s, formats) == Strptime(s, formats[i])
      && forall j :: 0 <= j < i ==> Strptime(s, formats[j]).None?)
  {
    if formats != [] && Strptime(s, formats[0]).None? {
      FirstParseFirstSuccess(s, formats[1..]);
      assert forall i :: 1 <= i < |formats| ==> formats[i] == formats[1..][i - 1];
      if FirstParse(s, formats).Some? {
        var i :| 0 <= i < |formats[1..]| && FirstParse(s, formats[1..]) == Strptime(s, formats[1..][i])
          && forall j :: 0 <= j < i ==> Strptime(s, formats[1..][j]).None?;
        assert formats[i + 1] == formats[1..][i];
      }
    }
  }

  /** A format that does not read the input passes the turn to the next. */
  lemma FirstParseSkips(s: string, formats: seq<Format>)
    requires formats != [] && Strptime(s, formats[0]).None?
    ensures FirstParse(s, formats) == FirstParse(s, formats[1..])
  {
  }

  /** A normalised date is left as it is: normalising twice is normalising once. */
  lemma ParseDateIdempotent(dateString: string)
    requires dateString != ""
    ensures ParseDate(ParseDate(dateString).value) == ParseDate(dateString)
  {
    var parsed := FirstParse(Text.Strip(dateString), DateFormats);
    if parsed.Some? {
      var s := IsoFormat(parsed.value);
      Text.StripTrimmed(s);
      StrptimeReadsIso(parsed.value);
    }
  }
}
