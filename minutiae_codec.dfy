/**
 * Decoding the `.min` output of the NBIS `mindtct` detector and writing the
 * canonical per-scan text records (`convert_min_to_txt`).
 *
 * A `.min` file is three header lines followed by colon-separated records
 * `id:x,y:direction:quality:type:...`.  Each record that parses and whose
 * quality reaches the threshold becomes one canonical record
 * `type x y orientation_degrees`, with type 1 for a bifurcation and 2 for a
 * ridge ending.
 *
 * The detector's direction unit is 11.25 degrees = 45/4, so every orientation
 * is a whole number of quarter-degrees; the model keeps orientations as such
 * and is exact where the source computes in floating point.
 */
module MinutiaeCodec {
  import opened Wrappers
  import opened Text
  import opened Seqs

  /** Lines of a `.min` file that precede the first record. */
  const HeaderLineCount := 3

  /**
   * What the writer appends after every record, spelled as the source spells
   * it: a backslash followed by the letter `n`, not a line break.
   */
  const SourceTerminator: string := "\\n"

  /** A real line break: what the writer evidently means, and what the model writes. */
  const LineTerminator: string := "\n"

  /** An orientation in quarter-degrees, in [0, 360) degrees. */
  type QuarterDegrees = q: int | 0 <= q < 1440

  datatype MinutiaKind = Bifurcation | Termination {
    /** The numeric type written to the canonical file. */
    function Code(): int {
      if Bifurcation? then 1 else 2
    }
  }

  datatype Minutia = Minutia(kind: MinutiaKind, x: int, y: int, orientation: QuarterDegrees)

  // ---------------------------------------------------------------------------
  // orientation

  /** `(90 - 11.25 * u) % 360` degrees, in quarter-degrees. */
  function Orientation(u: int): QuarterDegrees {
    (360 - 45 * u) % 1440
  }

  /** Python's `a % b` on floats with a positive divisor. */
  function FloatMod(a: real, b: real): real
    requires b > 0.0
  {
    a - b * (a / b).Floor as real
  }

  /**
   * The integer rule is the source's floating-point expression, exactly, and
   * it lies in [0, 360) degrees.
   */
  lemma OrientationDegrees(u: int)
    ensures Orientation(u) as real / 4.0 == FloatMod(90.0 - 11.25 * u as real, 360.0)
    ensures 0.0 <= Orientation(u) as real / 4.0 < 360.0
  {
    var n := 360 - 45 * u;
    var d, r := n / 1440, n % 1440;
    assert n == 1440 * d + r;
    var a := 90.0 - 11.25 * u as real;
    assert a == n as real / 4.0;
    QuotientFloor(a / 360.0, d, r);
  }

  /** A real number `d + r / 1440` with `0 <= r < 1440` rounds down to `d`. */
  lemma QuotientFloor(t: real, d: int, r: int)
    requires 0 <= r < 1440 && t == d as real + r as real / 1440.0
    ensures t.Floor == d
  {
  }

  /** Direction unit 0 points at 90 degrees and unit 8 at 0 degrees; units 32 apart agree. */
  lemma OrientationTurns(u: int)
    ensures Orientation(u + 32) == Orientation(u)
    ensures Orientation(0) == 4 * 90 && Orientation(8) == 0
  {
    assert 360 - 45 * (u + 32) == (360 - 45 * u) - 1440;
  }

  /** The fraction digits Python prints for a multiple of 0.25. */
  function QuarterDigits(r: int): (s: string)
    requires 0 <= r < 4
    ensures s != [] && AllDigits(s)
  {
    assert r == 0 || r == 1 || r == 2 || r == 3;
    ["0", "25", "5", "75"][r]
  }

  /** `str(orientation)`: Python's shortest repr of a multiple of 0.25, such as `90.0` or `348.75`. */
  function DegreesText(q: QuarterDegrees): string {
    JoinWith([NatToString(q / 4), QuarterDigits(q % 4)], '.')
  }

  /** The printed fraction digits stand for the remainder in quarters. */
  lemma QuarterDigitsValue(r: int)
    requires 0 <= r < 4
    ensures FractionValue(QuarterDigits(r)) == r as real / 4.0
  {
    var f := QuarterDigits(r);
    assert FractionValue(f[|f|..]) == 0.0;
    if |f| == 2 {
      assert f[1..][1..] == f[2..];
    }
  }

  /** Reading the printed orientation back gives the exact angle. */
  lemma {:induction false} DegreesTextValue(q: QuarterDegrees)
    ensures ParseDecimal(DegreesText(q)) == Some(q as real / 4.0)
  {
    var n, r := q / 4, q % 4;
    QuarterSum(q, n, r);
    QuarterText(n, r);
    assert DegreesText(q) == JoinWith([NatToString(n), QuarterDigits(r)], '.');
  }

  /** A whole number of degrees and a remainder in quarters read back as their sum. */
  lemma QuarterText(n: nat, r: int)
    requires 0 <= r < 4
    ensures ParseDecimal(JoinWith([NatToString(n), QuarterDigits(r)], '.')) == Some(n as real + r as real / 4.0)
  {
    var f := QuarterDigits(r);
    ParseDecimalWithFraction(n, f);
    QuarterDigitsValue(r);
  }

  lemma QuarterSum(q: int, n: int, r: int)
    requires n == q / 4 && r == q % 4
    ensures n as real + r as real / 4.0 == q as real / 4.0
  {
    assert q == 4 * n + r;
  }

  // ---------------------------------------------------------------------------
  // one line of a .min file

  /** Why a line yields no record. */
  datatype SkipReason = Blank | TooFewFields | BadCoordinates | BadDirection | BadQuality

  /** A line of a `.min` file, read without the quality threshold. */
  datatype LineReading = Skip(reason: SkipReason) | Reading(minutia: Minutia, quality: real)

  /**
   * The per-line decode: strip, split on ':', require five fields, read
   * `x,y` from the second, the direction unit from the third, the quality from
   * the fourth, and the type from the fifth (a bifurcation when it contains
   * `BIF`).  Any failure skips the line.
   */
  function ReadLine(line: string): LineReading {
    var t := Strip(line);
    if t == [] then Skip(Blank) else ReadFields(Split(t, ':'))
  }

  /** The type field names a bifurcation when it contains `BIF`, and a ridge ending otherwise. */
  function KindOf(typeField: string): MinutiaKind {
    if Contains(Strip(typeField), "BIF") then Bifurcation else Termination
  }

  /** `x, y = map(int, field.split(','))`: exactly two integers. */
  function ReadXY(field: string): Option<(int, int)> {
    var xy := Split(field, ',');
    if |xy| != 2 then None
    else
      match (ParseInt(xy[0]), ParseInt(xy[1]))
      case (Some(x), Some(y)) => Some((x, y))
      case _ => None
  }

  /** The decode of a stripped, non-blank line, from its ':'-separated fields. */
  function ReadFields(fields: seq<string>): LineReading {
    if |fields| < 5 then Skip(TooFewFields)
    else
      match ReadXY(fields[1])
      case None => Skip(BadCoordinates)
      case Some((x, y)) =>
        match ParseInt(fields[2])
        case None => Skip(BadDirection)
        case Some(u) =>
          match ParseDecimal(fields[3])
          case None => Skip(BadQuality)
          case Some(quality) => Reading(Minutia(KindOf(fields[4]), x, y, Orientation(u)), quality)
  }

  /** The record a line contributes: a reading whose quality is not below the threshold. */
  function Decode(line: string, threshold: real): Option<Minutia> {
    match ReadLine(line)
    case Reading(m, quality) => if quality < threshold then None else Some(m)
    case Skip(_) => None
  }

  /** The per-line decode at a fixed threshold. */
  function DecodeAt(threshold: real): string -> Option<Minutia> {
    line => Decode(line, threshold)
  }

  /** Every line decoded on its own, in order. */
  function DecodeAll(lines: seq<string>, threshold: real): seq<Option<Minutia>> {
    Map(DecodeAt(threshold), lines)
  }

  /** The records among decoded lines, in order. */
  function Kept(decoded: seq<Option<Minutia>>): seq<Minutia> {
    if decoded == [] then []
    else Kept(decoded[..|decoded| - 1]) + Emitted(decoded[|decoded| - 1])
  }

  /** The record one decoded line contributes: itself, or nothing. */
  function Emitted(d: Option<Minutia>): seq<Minutia> {
    match d
    case Some(m) => [m]
    case None => []
  }

  /** The records a sequence of lines yields, in line order. */
  function Survivors(lines: seq<string>, threshold: real): seq<Minutia> {
    Kept(DecodeAll(lines, threshold))
  }

  /** `lines[3:]`. */
  function RecordLines(text: string): seq<string> {
    var lines := Lines(text);
    if |lines| <= HeaderLineCount then [] else lines[HeaderLineCount..]
  }

  /** The records a whole `.min` file yields. */
  function Records(text: string, threshold: real): seq<Minutia> {
    Survivors(RecordLines(text), threshold)
  }

  // ---------------------------------------------------------------------------
  // the canonical record and the writer

  /** The characters a numeric field of a canonical record is made of. */
  const NumeralChars: set<char> := {'0', '1', '2', '3', '4', '5', '6', '7', '8', '9', '-', '.'}

  /** The characters a canonical record is made of: numerals and the spaces between them. */
  const RecordChars: set<char> := NumeralChars + {' '}

  lemma IntToStringChars(i: int)
    ensures CharsIn(IntToString(i), NumeralChars)
  {
  }

  lemma DegreesTextChars(q: QuarterDegrees)
    ensures CharsIn(DegreesText(q), NumeralChars)
  {
    var parts := [NatToString(q / 4), QuarterDigits(q % 4)];
    assert forall k :: 0 <= k < |parts| ==> CharsIn(parts[k], NumeralChars);
    JoinWithCharsIn(parts, '.', NumeralChars);
  }

  /** The four fields of a canonical record. */
  function RecordFieldTexts(m: Minutia): seq<string> {
    [IntToString(m.kind.Code()), IntToString(m.x), IntToString(m.y), DegreesText(m.orientation)]
  }

  /** `f"{type} {x} {y} {orientation}"`. */
  function FormatRecord(m: Minutia): string {
    JoinWith(RecordFieldTexts(m), ' ')
  }

  /** A canonical record is made of record characters and starts with the type digit. */
  lemma FormatRecordChars(m: Minutia)
    ensures CharsIn(FormatRecord(m), RecordChars)
    ensures FormatRecord(m) != [] && IsDigit(FormatRecord(m)[0])
  {
    var parts := RecordFieldTexts(m);
    IntToStringChars(m.kind.Code());
    IntToStringChars(m.x);
    IntToStringChars(m.y);
    DegreesTextChars(m.orientation);
    assert forall k :: 0 <= k < |parts| ==> CharsIn(parts[k], RecordChars);
    JoinWithCharsIn(parts, ' ', RecordChars);
    JoinWithFirst(parts, ' ');
  }

  /** Each field of a canonical record is one word: `split()` finds the four fields again. */
  lemma FieldTextsAreWords(m: Minutia)
    ensures forall k :: 0 <= k < |RecordFieldTexts(m)| ==> IsWord(RecordFieldTexts(m)[k])
    ensures Tokens(FormatRecord(m)) == RecordFieldTexts(m)
  {
    var parts := RecordFieldTexts(m);
    IntToStringChars(m.kind.Code());
    IntToStringChars(m.x);
    IntToStringChars(m.y);
    DegreesTextChars(m.orientation);
    forall k | 0 <= k < |parts|
      ensures IsWord(parts[k])
    {
      NumeralIsWord(parts[k]);
    }
    TokensOfJoin(parts);
  }

  /** Numeral characters hold no whitespace: a non-empty numeral is one word. */
  lemma NumeralIsWord(s: string)
    requires s != [] && CharsIn(s, NumeralChars)
    ensures IsWord(s)
  {
    forall i | 0 <= i < |s|
      ensures !IsSpace(s[i])
    {
      assert s[i] in NumeralChars;
    }
  }

  function FormatAll(ms: seq<Minutia>): (records: seq<string>)
    ensures |records| == |ms|
    ensures forall i :: 0 <= i < |ms| ==> records[i] == FormatRecord(ms[i])
  {
    seq(|ms|, i requires 0 <= i < |ms| => FormatRecord(ms[i]))
  }

  /** The file the writer produces: every record followed by the terminator. */
  function Render(records: seq<string>, terminator: string): string {
    if records == [] then []
    else Render(records[..|records| - 1], terminator) + records[|records| - 1] + terminator
  }

  /**
   * What `convert_min_to_txt` writes for a `.min` text, or None when no record
   * survives and nothing is written.
   */
  function Converted(text: string, threshold: real, terminator: string): Option<string> {
    var ms := Records(text, threshold);
    if |ms| > 0 then Some(Render(FormatAll(ms), terminator)) else None
  }

  /**
   * `convert_min_to_txt`: collect the surviving records line by line, then
   * write them out, each followed by `terminator` (`SourceTerminator` as the
   * source writes it, `LineTerminator` as it evidently means).
   */
  method ConvertMinToTxt(minText: string, qualityThreshold: real, terminator: string) returns (written: Option<string>)
    ensures written == Converted(minText, qualityThreshold, terminator)
  {
    var lines := Lines(minText);
    var body := if |lines| <= HeaderLineCount then [] else lines[HeaderLineCount..];
    assert body == RecordLines(minText);
    var minutiae, minutiaeData := CollectRecords(body, qualityThreshold);
    if |minutiaeData| > 0 {
      var content := WriteRecords(minutiaeData, terminator);
      written := Some(content);
    } else {
      written := None;
    }
  }

  /** The record loop: decode each line, keep the survivors and their canonical text. */
  method CollectRecords(body: seq<string>, qualityThreshold: real)
    returns (minutiae: seq<Minutia>, minutiaeData: seq<string>)
    ensures minutiae == Survivors(body, qualityThreshold)
    ensures minutiaeData == FormatAll(minutiae)
  {
    minutiae := [];
    minutiaeData := [];
    for i := 0 to |body|
      invariant minutiae == Survivors(body[..i], qualityThreshold)
      invariant minutiaeData == FormatAll(minutiae)
    {
      SurvivorsStep(body, i, qualityThreshold);
      var decoded := Decode(body[i], qualityThreshold);
      match decoded
      case Some(m) =>
        FormatAllStep(minutiae, m);
        minutiae := minutiae + [m];
        minutiaeData := minutiaeData + [FormatRecord(m)];
      case None =>
    }
    assert body[..|body|] == body;
  }

  /** The write loop: each record followed by the terminator. */
  method WriteRecords(records: seq<string>, terminator: string) returns (content: string)
    ensures content == Render(records, terminator)
  {
    content := "";
    for k := 0 to |records|
      invariant content == Render(records[..k], terminator)
    {
      RenderStep(records, k, terminator);
      content := content + records[k] + terminator;
    }
    assert records[..|records|] == records;
  }

  /** One more line read: its record, if any, comes after the earlier ones. */
  lemma SurvivorsStep(lines: seq<string>, i: nat, threshold: real)
    requires i < |lines|
    ensures Survivors(lines[..i + 1], threshold)
         == Survivors(lines[..i], threshold) + Emitted(Decode(lines[i], threshold))
  {
    assert lines[..i + 1] == lines[..i] + [lines[i]];
    DecodeAllAppend(lines[..i], [lines[i]], threshold);
    KeptAppend(DecodeAll(lines[..i], threshold), DecodeAll([lines[i]], threshold));
  }

  lemma FormatAllStep(ms: seq<Minutia>, m: Minutia)
    ensures FormatAll(ms + [m]) == FormatAll(ms) + [FormatRecord(m)]
  {
  }

  /** One more record written. */
  lemma RenderStep(records: seq<string>, k: nat, terminator: string)
    requires k < |records|
    ensures Render(records[..k + 1], terminator) == Render(records[..k], terminator) + records[k] + terminator
  {
    assert records[..k + 1][..k] == records[..k];
  }

  // ---------------------------------------------------------------------------
  // properties of the decoder

  lemma NoSepInInt(i: int, sep: char)
    requires !IsDigit(sep) && sep != '-'
    ensures sep !in IntToString(i)
  {
    var s := IntToString(i);
    assert forall k :: 0 <= k < |s| ==> s[k] != sep;
  }

  /**
   * A record line whose five ':'-separated fields do not hold ':', that starts
   * and ends with a visible character, is decoded from exactly those fields.
   */
  lemma ReadJoinedFields(fields: seq<string>)
    requires |fields| == 5 && forall i :: 0 <= i < 5 ==> ':' !in fields[i]
    requires fields[0] != [] && !IsSpace(fields[0][0])
    requires fields[4] != [] && !IsSpace(fields[4][|fields[4]| - 1])
    ensures ReadLine(JoinWith(fields, ':')) == ReadFields(fields)
  {
    var line := JoinWith(fields, ':');
    JoinWithFirst(fields, ':');
    JoinWithLast(fields, ':');
    StripUntouched(line);
    SplitJoin(fields, ':');
  }

  /** Coordinates written as `x,y` are read back as x and y. */
  lemma ReadCoordinates(x: int, y: int)
    ensures ':' !in JoinWith([IntToString(x), IntToString(y)], ',')
    ensures ReadXY(JoinWith([IntToString(x), IntToString(y)], ',')) == Some((x, y))
  {
    var xs, ys := IntToString(x), IntToString(y);
    NoSepInInt(x, ':');
    NoSepInInt(y, ':');
    NoSepInInt(x, ',');
    NoSepInInt(y, ',');
    assert JoinWith([xs, ys], ',') == xs + [','] + ys;
    SplitJoin([xs, ys], ',');
    ParseIntOfIntToString(x);
    ParseIntOfIntToString(y);
  }

  /** The fields of a `.min` record line `id:x,y:direction:d:e`. */
  function RecordFields(id: nat, x: int, y: int, u: int, d: string, e: string): (fields: seq<string>)
    ensures |fields| == 5 && fields[3] == d && fields[4] == e
  {
    [IntToString(id), JoinWith([IntToString(x), IntToString(y)], ','), IntToString(u), d, e]
  }

  /** No field of such a line holds ':' ... */
  lemma RecordFieldsSeparated(id: nat, x: int, y: int, u: int, d: string, e: string)
    requires ':' !in d && ':' !in e
    ensures forall i :: 0 <= i < 5 ==> ':' !in RecordFields(id, x, y, u, d, e)[i]
  {
    NoSepInInt(id, ':');
    NoSepInInt(u, ':');
    NoSepInInt(x, ':');
    NoSepInInt(y, ':');
    JoinPair(IntToString(x), IntToString(y), ',');
  }

  lemma JoinPair(a: string, b: string, sep: char)
    ensures JoinWith([a, b], sep) == a + [sep] + b
  {
  }

  /** ... so the line is read from those fields ... */
  lemma {:induction false} ReadRecordLine(id: nat, x: int, y: int, u: int, d: string, e: string)
    requires ':' !in d && ':' !in e && e != [] && !IsSpace(e[|e| - 1])
    ensures ReadLine(JoinWith(RecordFields(id, x, y, u, d, e), ':')) == ReadFields(RecordFields(id, x, y, u, d, e))
  {
    RecordFieldsSeparated(id, x, y, u, d, e);
    ReadJoinedFields(RecordFields(id, x, y, u, d, e));
  }

  /** ... and its coordinates and direction read back. */
  lemma {:induction false} RecordFieldsValues(id: nat, x: int, y: int, u: int, d: string, e: string)
    ensures ReadXY(RecordFields(id, x, y, u, d, e)[1]) == Some((x, y))
    ensures ParseInt(RecordFields(id, x, y, u, d, e)[2]) == Some(u)
  {
    ReadCoordinates(x, y);
    ParseIntOfIntToString(u);
  }

  /**
   * The decoder reads the fields where `mindtct` puts them: for a record
   * `id:x,y:direction:quality:type` it returns those coordinates, the
   * orientation of that direction unit, that quality, and the kind the type
   * field names.
   */
  lemma {:induction false} ReadEncodedRecord(id: nat, x: int, y: int, u: int,
                                             qualityText: string, quality: real, typeText: string)
    requires ParseDecimal(qualityText) == Some(quality) && ':' !in qualityText
    requires ':' !in typeText && typeText != [] && !IsSpace(typeText[|typeText| - 1])
    ensures ReadLine(JoinWith(RecordFields(id, x, y, u, qualityText, typeText), ':'))
         == Reading(Minutia(KindOf(typeText), x, y, Orientation(u)), quality)
  {
    var fields := RecordFields(id, x, y, u, qualityText, typeText);
    ReadRecordLine(id, x, y, u, qualityText, typeText);
    RecordFieldsValues(id, x, y, u, qualityText, typeText);
    FieldsRead(fields, x, y, u, quality);
  }

  lemma FieldsRead(fields: seq<string>, x: int, y: int, u: int, quality: real)
    requires |fields| == 5 && ReadXY(fields[1]) == Some((x, y))
    requires ParseInt(fields[2]) == Some(u) && ParseDecimal(fields[3]) == Some(quality)
    ensures ReadFields(fields) == Reading(Minutia(KindOf(fields[4]), x, y, Orientation(u)), quality)
  {
  }

  /**
   * The field order the comment at `preprocessing/minutiae_extraction.py:173`
   * gives, `id:x,y:direction:type:quality`, is not the order the code reads: such a line has its type where the code
   * reads the quality, and it is skipped.
   */
  lemma {:induction false} TypeBeforeQualityIsSkipped(id: nat, x: int, y: int, u: int,
                                                      typeText: string, qualityText: string)
    requires ':' !in typeText && typeText != [] && typeText[0] == 'T'
    requires ':' !in qualityText && qualityText != [] && !IsSpace(qualityText[|qualityText| - 1])
    ensures ReadLine(JoinWith(RecordFields(id, x, y, u, typeText, qualityText), ':'))
         == Skip(BadQuality)
  {
    ParseDecimalRejects(typeText, 0);
    UnreadableQualityIsSkipped(id, x, y, u, typeText, qualityText);
  }

  /** A record line whose quality field is no number is skipped, whatever the other fields hold. */
  lemma {:induction false} UnreadableQualityIsSkipped(id: nat, x: int, y: int, u: int,
                                                      qualityText: string, typeText: string)
    requires ':' !in qualityText && ParseDecimal(qualityText) == None
    requires ':' !in typeText && typeText != [] && !IsSpace(typeText[|typeText| - 1])
    ensures ReadLine(JoinWith(RecordFields(id, x, y, u, qualityText, typeText), ':')) == Skip(BadQuality)
  {
    ReadRecordLine(id, x, y, u, qualityText, typeText);
    RecordFieldsValues(id, x, y, u, qualityText, typeText);
    FieldsBadQuality(RecordFields(id, x, y, u, qualityText, typeText));
  }

  lemma FieldsBadQuality(fields: seq<string>)
    requires |fields| == 5 && ReadXY(fields[1]).Some?
    requires ParseInt(fields[2]).Some? && ParseDecimal(fields[3]) == None
    ensures ReadFields(fields) == Skip(BadQuality)
  {
  }

  /** Keeping records commutes with concatenation. */
  lemma {:induction false} KeptAppend(a: seq<Option<Minutia>>, b: seq<Option<Minutia>>)
    ensures Kept(a + b) == Kept(a) + Kept(b)
    decreases |b|
  {
    if b == [] {
      assert a + b == a;
    } else {
      assert (a + b)[..|a + b| - 1] == a + b[..|b| - 1];
      KeptAppend(a, b[..|b| - 1]);
    }
  }

  /** A record is kept exactly when some decoded line holds it. */
  lemma {:induction false} KeptExactly(decoded: seq<Option<Minutia>>, m: Minutia)
    ensures m in Kept(decoded) <==> exists i :: 0 <= i < |decoded| && decoded[i] == Some(m)
    decreases |decoded|
  {
    if decoded != [] {
      var n := |decoded| - 1;
      var init := decoded[..n];
      KeptExactly(init, m);
      if m in Kept(decoded) && m !in Kept(init) {
        assert decoded[n] == Some(m);
      }
      if exists i :: 0 <= i < |decoded| && decoded[i] == Some(m) {
        var i :| 0 <= i < |decoded| && decoded[i] == Some(m);
        if i < n {
          assert init[i] == decoded[i];
        }
      }
    }
  }

  /** A line is decoded on its own: the records of two runs of lines are those of each, in order. */
  lemma SurvivorsAppend(a: seq<string>, b: seq<string>, threshold: real)
    ensures Survivors(a + b, threshold) == Survivors(a, threshold) + Survivors(b, threshold)
  {
    DecodeAllAppend(a, b, threshold);
    KeptAppend(DecodeAll(a, threshold), DecodeAll(b, threshold));
  }

  lemma DecodeAllAppend(a: seq<string>, b: seq<string>, threshold: real)
    ensures DecodeAll(a + b, threshold) == DecodeAll(a, threshold) + DecodeAll(b, threshold)
  {
    MapAppend(DecodeAt(threshold), a, b);
  }

  /**
   * A record is emitted exactly when some line decodes to it, that is reads as
   * that record with a quality not below the threshold.
   */
  lemma SurvivorsExactly(lines: seq<string>, threshold: real, m: Minutia)
    ensures m in Survivors(lines, threshold) <==>
            exists i :: 0 <= i < |lines| && Decode(lines[i], threshold) == Some(m)
  {
    KeptExactly(DecodeAll(lines, threshold), m);
  }

  /** A blank line yields nothing. */
  lemma BlankLineSkipped(line: string, threshold: real)
    requires IsBlank(line)
    ensures ReadLine(line) == Skip(Blank) && Decode(line, threshold) == None
  {
    StripSpec(line);
  }

  /** A line that yields no record drops out on its own: the lines around it give what they give. */
  lemma SkippedLineDropsOut(before: seq<string>, line: string, after: seq<string>, threshold: real)
    requires Decode(line, threshold) == None
    ensures Survivors(before + [line] + after, threshold)
         == Survivors(before, threshold) + Survivors(after, threshold)
  {
    SurvivorsAppend(before + [line], after, threshold);
    SurvivorsAppend(before, [line], threshold);
    SingleSkipped(line, threshold);
  }

  lemma SingleSkipped(line: string, threshold: real)
    requires Decode(line, threshold) == None
    ensures Survivors([line], threshold) == []
  {
    var d := DecodeAll([line], threshold);
    assert d[0] == DecodeAt(threshold)(line) == None;
    assert d[..|d| - 1] == [];
    assert Kept(d) == Kept([]) + Emitted(None);
  }

  /**
   * The emitted type is 1 exactly when the fifth field of the line, stripped,
   * contains `BIF`, and 2 otherwise.
   */
  lemma KindFromFifthField(line: string)
    requires ReadLine(line).Reading?
    ensures var fields := Split(Strip(line), ':');
            |fields| >= 5 &&
            (ReadLine(line).minutia.kind.Code() == 1 <==> Contains(Strip(fields[4]), "BIF")) &&
            (ReadLine(line).minutia.kind.Code() == 2 <==> !Contains(Strip(fields[4]), "BIF"))
  {
  }

  /** What it means for a line to decode to a record. */
  lemma DecodeMeaning(line: string, threshold: real, m: Minutia)
    ensures Decode(line, threshold) == Some(m) <==>
            ReadLine(line).Reading? && ReadLine(line).minutia == m && ReadLine(line).quality >= threshold
  {
  }

  /** Taking the first line off a text: the rest of the text gives the rest of the lines. */
  lemma LinesAfterFirst(h: string, rest: string)
    requires '\n' !in h
    ensures Lines(h + "\n" + rest) == [h] + Lines(rest)
  {
    var s := h + "\n" + rest;
    assert s == h + ['\n'] + rest;
    SplitAfterFirst(h, '\n', rest);
    if rest == [] {
      assert Split(rest, '\n') == [[]];
    } else {
      assert s[|s| - 1] == rest[|rest| - 1];
      var p := Split(rest, '\n');
      assert ([h] + p)[..|p|] == [h] + p[..|p| - 1];
    }
  }

  /**
   * The first three lines are skipped whatever they hold, even when they look
   * like records.
   */
  lemma HeaderIgnored(h0: string, h1: string, h2: string, rest: string, threshold: real)
    requires '\n' !in h0 && '\n' !in h1 && '\n' !in h2
    ensures Records(h0 + "\n" + (h1 + "\n" + (h2 + "\n" + rest)), threshold)
         == Survivors(Lines(rest), threshold)
  {
    HeaderLinesSkipped(h0, h1, h2, rest);
  }

  /** The lines after the header of a text are the lines of what follows its third line break. */
  lemma HeaderLinesSkipped(h0: string, h1: string, h2: string, rest: string)
    requires '\n' !in h0 && '\n' !in h1 && '\n' !in h2
    ensures RecordLines(h0 + "\n" + (h1 + "\n" + (h2 + "\n" + rest))) == Lines(rest)
  {
    LinesAfterFirst(h2, rest);
    LinesAfterFirst(h1, h2 + "\n" + rest);
    LinesAfterFirst(h0, h1 + "\n" + (h2 + "\n" + rest));
    var lines := [h0] + ([h1] + ([h2] + Lines(rest)));
    assert lines[HeaderLineCount..] == Lines(rest);
  }

  // ---------------------------------------------------------------------------
  // properties of the writer

  /** With a real line break, the written file reads back as exactly the records. */
  lemma {:induction false} RenderLines(records: seq<string>)
    requires forall i :: 0 <= i < |records| ==> '\n' !in records[i]
    ensures Lines(Render(records, LineTerminator)) == records
    decreases |records|
  {
    if records != [] {
      var r := records[0];
      var rest := records[1..];
      RenderFront(records, LineTerminator);
      RenderLines(rest);
      LinesAfterFirst(r, Render(rest, LineTerminator));
      assert [r] + rest == records;
    }
  }

  /** Rendering peeled from the front. */
  lemma RenderFront(records: seq<string>, terminator: string)
    requires records != []
    ensures Render(records, terminator) == records[0] + terminator + Render(records[1..], terminator)
  {
    var first := [records[0]];
    assert records == first + records[1..];
    RenderAppend(first, records[1..], terminator);
    assert first[..0] == [];
    assert Render(first, terminator) == records[0] + terminator;
  }

  /** Rendering two runs of records one after the other writes one file after the other. */
  lemma {:induction false} RenderAppend(a: seq<string>, b: seq<string>, terminator: string)
    ensures Render(a + b, terminator) == Render(a, terminator) + Render(b, terminator)
    decreases |b|
  {
    if b == [] {
      assert a + b == a;
    } else {
      var init, last := b[..|b| - 1], b[|b| - 1];
      RenderAppend(a, init, terminator);
      assert (a + b)[..|a + b| - 1] == a + init;
      assert (a + b)[|a + b| - 1] == last;
      var ra, ri := Render(a, terminator), Render(init, terminator);
      assert Render(a + b, terminator) == ra + ri + last + terminator;
      assert Render(b, terminator) == ri + last + terminator;
      assert ra + ri + last + terminator == ra + (ri + last + terminator);
    }
  }

  /** The file written with the source's terminator holds no line break at all. */
  lemma AsWrittenHasNoLineBreak(records: seq<string>)
    requires forall i :: 0 <= i < |records| ==> '\n' !in records[i]
    ensures '\n' !in Render(records, SourceTerminator)
  {
    assert SourceTerminator == ['\\', 'n'];
    RenderAvoids(records, SourceTerminator, '\n');
  }

  /** A character found in no record and not in the terminator is not in the file. */
  lemma {:induction false} RenderAvoids(records: seq<string>, terminator: string, c: char)
    requires c !in terminator
    requires forall i :: 0 <= i < |records| ==> c !in records[i]
    ensures c !in Render(records, terminator)
    decreases |records|
  {
    if records != [] {
      RenderAvoids(records[..|records| - 1], terminator, c);
    }
  }

  /** A canonical record is one non-blank line of digits, signs, spaces and points. */
  lemma FormatRecordIsOneLine(m: Minutia)
    ensures '\n' !in FormatRecord(m) && '#' !in FormatRecord(m) && !IsBlank(FormatRecord(m))
  {
    var s := FormatRecord(m);
    FormatRecordChars(m);
    assert !IsSpace(s[0]);
  }
}
