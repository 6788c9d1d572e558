/**
 * Reading a canonical minutiae file back into an N x 4 table
 * (`parse_minutiae_file`): `np.loadtxt`, the reshape of a one-dimensional
 * result into a single row, and the in-place conversion of column 3 from
 * degrees to radians. Any failure yields the empty (0, 4) table.
 */
module MinutiaeTable {
  import opened Wrappers
  import opened Text
  import opened MinutiaeCodec

  /** `np.pi`: the double nearest to pi, as an exact rational. */
  const Pi: real := 3.141592653589793

  // ---------------------------------------------------------------------------
  // np.loadtxt with its defaults (comments '#', any whitespace as delimiter)

  /** The part of a line before its first '#'. */
  function StripComment(line: string): string {
    Split(line, '#')[0]
  }

  /** The words of every line that has any once its comment is removed, in order. */
  function DataRows(lines: seq<string>): seq<seq<string>> {
    if lines == [] then []
    else
      var words := Tokens(StripComment(lines[|lines| - 1]));
      DataRows(lines[..|lines| - 1]) + (if words == [] then [] else [words])
  }

  /** Every word of a row read as a float, or None when one is no numeral. */
  function ParseRow(words: seq<string>): Option<seq<real>> {
    if words == [] then Some([])
    else
      match (ParseRow(words[..|words| - 1]), ParseDecimal(words[|words| - 1]))
      case (Some(init), Some(v)) => Some(init + [v])
      case _ => None
  }

  function ParseRows(rows: seq<seq<string>>): Option<seq<seq<real>>> {
    if rows == [] then Some([])
    else
      match (ParseRows(rows[..|rows| - 1]), ParseRow(rows[|rows| - 1]))
      case (Some(init), Some(r)) => Some(init + [r])
      case _ => None
  }

  /** Every row as wide as the first. */
  predicate Rectangular(t: seq<seq<real>>) {
    forall i :: 0 <= i < |t| ==> |t[i]| == |t[0]|
  }

  /** `np.loadtxt` on a text: its rows of floats, or None when it raises. */
  function LoadText(text: string): (r: Option<seq<seq<real>>>)
    ensures r.Some? ==> Rectangular(r.value)
  {
    match ParseRows(DataRows(Lines(text)))
    case None => None
    case Some(t) => if Rectangular(t) then Some(t) else None
  }

  /**
   * What survives `np.loadtxt`'s squeeze, the `reshape(1, -1)` of a
   * one-dimensional result and the access to column 3: None when that access
   * raises (no data, a single value, or fewer than four columns).
   */
  function Reshaped(t: seq<seq<real>>): (r: Option<seq<seq<real>>>)
    requires Rectangular(t)
    ensures r.Some? ==> TableShaped(r.value)
  {
    if t == [] then None
    else if |t| == 1 && |t[0]| == 1 then None
    else
      var rows := if |t| > 1 && |t[0]| == 1 then [seq(|t|, i requires 0 <= i < |t| => t[i][0])] else t;
      if |rows[0]| < 4 then None else Some(rows)
  }

  /** At least one row, and every row equally wide with at least four columns. */
  predicate TableShaped(rows: seq<seq<real>>) {
    |rows| >= 1 && |rows[0]| >= 4 && Rectangular(rows)
  }

  /**
   * The table `parse_minutiae_file` builds before the radian conversion; None
   * when it fails. A loaded table always has the shape column 3 needs.
   */
  function LoadedTable(text: Option<string>): (r: Option<seq<seq<real>>>)
    ensures r.Some? ==> TableShaped(r.value)
  {
    match text
    case None => None
    case Some(s) =>
      match LoadText(s)
      case None => None
      case Some(t) => Reshaped(t)
  }

  // ---------------------------------------------------------------------------
  // the reader

  /**
   * `parse_minutiae_file`: the loaded table with column 3 turned from degrees
   * into radians, or an empty table of four columns.
   */
  method ParseMinutiaeFile(text: Option<string>) returns (data: array2<real>)
    ensures LoadedTable(text).None? ==> data.Length0 == 0 && data.Length1 == 4
    ensures LoadedTable(text).Some? ==>
              var rows := LoadedTable(text).value;
              data.Length0 == |rows| && data.Length1 == |rows[0]| &&
              forall i, j :: 0 <= i < data.Length0 && 0 <= j < data.Length1 ==>
                data[i, j] == (if j == 3 then rows[i][j] * Pi / 180.0 else rows[i][j])
  {
    var loaded := LoadedTable(text);
    if loaded.None? {
      data := new real[0, 4];
      return;
    }
    var rows := loaded.value;
    var width := |rows[0]|;
    data := new real[|rows|, width]((i, j) requires 0 <= i < |rows| && 0 <= j < width => rows[i][j]);
    for i := 0 to data.Length0
      invariant forall r, c :: 0 <= r < data.Length0 && 0 <= c < data.Length1 ==>
                  data[r, c] == (if c == 3 && r < i then rows[r][c] * Pi / 180.0 else rows[r][c])
    {
      data[i, 3] := data[i, 3] * Pi / 180.0;
    }
  }

  // ---------------------------------------------------------------------------
  // reading back what the converter writes

  /** The row a canonical record reads back as: type, x, y and degrees. */
  function RowOf(m: Minutia): seq<real> {
    [m.kind.Code() as real, m.x as real, m.y as real, m.orientation as real / 4.0]
  }

  function RowsOf(ms: seq<Minutia>): seq<seq<real>> {
    seq(|ms|, i requires 0 <= i < |ms| => RowOf(ms[i]))
  }

  /** A row of numerals reads as their values, word by word. */
  lemma {:induction false} ParseRowAll(words: seq<string>, values: seq<real>)
    requires |words| == |values|
    requires forall k :: 0 <= k < |words| ==> ParseDecimal(words[k]) == Some(values[k])
    ensures ParseRow(words) == Some(values)
    decreases |words|
  {
    if words != [] {
      var n := |words| - 1;
      ParseRowAll(words[..n], values[..n]);
      assert values[..n] + [values[n]] == values;
    }
  }

  /** The four fields of a canonical record read back as its values. */
  lemma ParseRecordFields(m: Minutia)
    ensures ParseRow(RecordFieldTexts(m)) == Some(RowOf(m))
  {
    var words, values := RecordFieldTexts(m), RowOf(m);
    forall k | 0 <= k < |words|
      ensures ParseDecimal(words[k]) == Some(values[k])
    {
      if k == 0 {
        ParseDecimalOfIntToString(m.kind.Code());
      } else if k == 1 {
        ParseDecimalOfIntToString(m.x);
      } else if k == 2 {
        ParseDecimalOfIntToString(m.y);
      } else {
        DegreesTextValue(m.orientation);
      }
    }
    ParseRowAll(words, values);
  }

  /** A canonical record line is one data row: exactly its four fields. */
  lemma RecordLineWords(m: Minutia)
    ensures Tokens(StripComment(FormatRecord(m))) == RecordFieldTexts(m)
  {
    FormatRecordIsOneLine(m);
    SplitNoSep(FormatRecord(m), '#');
    FieldTextsAreWords(m);
  }

  /** Lines that each hold the given words, none of them empty, are those data rows. */
  lemma {:induction false} DataRowsAll(lines: seq<string>, rows: seq<seq<string>>)
    requires |lines| == |rows|
    requires forall k :: 0 <= k < |lines| ==> Tokens(StripComment(lines[k])) == rows[k] && rows[k] != []
    ensures DataRows(lines) == rows
    decreases |lines|
  {
    if lines != [] {
      var n := |lines| - 1;
      var words := Tokens(StripComment(lines[n]));
      assert words == rows[n] && words != [];
      assert DataRows(lines) == DataRows(lines[..n]) + [words];
      DataRowsAll(lines[..n], rows[..n]);
      assert rows[..n] + [rows[n]] == rows;
    }
  }

  /** Rows that each read as the given values make that table. */
  lemma {:induction false} ParseRowsAll(rows: seq<seq<string>>, t: seq<seq<real>>)
    requires |rows| == |t|
    requires forall k :: 0 <= k < |rows| ==> ParseRow(rows[k]) == Some(t[k])
    ensures ParseRows(rows) == Some(t)
    decreases |rows|
  {
    if rows != [] {
      var n := |rows| - 1;
      ParseRowsAll(rows[..n], t[..n]);
      assert t[..n] + [t[n]] == t;
    }
  }

  /** The records of a written file become exactly their rows. */
  lemma ParseRecords(ms: seq<Minutia>)
    ensures ParseRows(DataRows(FormatAll(ms))) == Some(RowsOf(ms))
  {
    var lines := FormatAll(ms);
    var words := seq(|ms|, i requires 0 <= i < |ms| => RecordFieldTexts(ms[i]));
    forall k | 0 <= k < |ms|
      ensures Tokens(StripComment(lines[k])) == words[k] && words[k] != []
    {
      RecordLineWords(ms[k]);
    }
    DataRowsAll(lines, words);
    forall k | 0 <= k < |ms|
      ensures ParseRow(words[k]) == Some(RowsOf(ms)[k])
    {
      ParseRecordFields(ms[k]);
    }
    ParseRowsAll(words, RowsOf(ms));
  }

  /**
   * With a real line break, reading a written file gives one row per record,
   * holding its type, coordinates and orientation in degrees.
   */
  lemma ReadBackRecords(ms: seq<Minutia>)
    requires ms != []
    ensures LoadedTable(Some(Render(FormatAll(ms), LineTerminator))) == Some(RowsOf(ms))
  {
    var records := FormatAll(ms);
    forall i | 0 <= i < |records|
      ensures '\n' !in records[i]
    {
      FormatRecordIsOneLine(ms[i]);
    }
    assert forall i :: 0 <= i < |RowsOf(ms)| ==> |RowsOf(ms)[i]| == 4;
    RenderLines(records);
    ParseRecords(ms);
    LoadedRows(Render(records, LineTerminator), RowsOf(ms));
  }

  /** A text whose data rows read as a table of equal rows at least four wide loads as that table. */
  lemma LoadedRows(text: string, rows: seq<seq<real>>)
    requires ParseRows(DataRows(Lines(text))) == Some(rows)
    requires |rows| >= 1 && |rows[0]| >= 4 && Rectangular(rows)
    ensures LoadedTable(Some(text)) == Some(rows)
  {
    assert LoadText(text) == Some(rows);
    assert !(|rows| > 1 && |rows[0]| == 1);
    assert Reshaped(rows) == Some(rows);
  }

  /** What the converter writes for a `.min` text reads back as the surviving records. */
  lemma ConvertedReadsBack(text: string, threshold: real)
    requires Converted(text, threshold, LineTerminator).Some?
    ensures LoadedTable(Some(Converted(text, threshold, LineTerminator).value))
         == Some(RowsOf(Records(text, threshold)))
  {
    ReadBackRecords(Records(text, threshold));
  }

  // ---------------------------------------------------------------------------
  // the terminator as written

  /** A row holding a word that is no numeral fails to load. */
  lemma {:induction false} ParseRowFails(words: seq<string>, k: nat)
    requires k < |words| && ParseDecimal(words[k]) == None
    ensures ParseRow(words) == None
    decreases |words|
  {
    if k < |words| - 1 {
      ParseRowFails(words[..|words| - 1], k);
    }
  }

  /** With the source's terminator the written file cannot be read back: the table is empty. */
  lemma AsWrittenUnreadable(ms: seq<Minutia>)
    requires ms != []
    ensures LoadedTable(Some(Render(FormatAll(ms), SourceTerminator))) == None
  {
    var records := FormatAll(ms);
    var s := Render(records, SourceTerminator);
    forall i | 0 <= i < |records|
      ensures '\n' !in records[i] && '#' !in records[i]
    {
      FormatRecordIsOneLine(ms[i]);
    }
    AsWrittenHasNoLineBreak(records);
    assert SourceTerminator == ['\\', 'n'];
    RenderAvoids(records, SourceTerminator, '#');
    SingleLine(s);
    SplitNoSep(s, '#');
    // the backslash of the last terminator lands in some word
    var b := |s| - 2;
    assert s[b] == '\\';
    TokensCover(s, b);
    var words := Tokens(s);
    var k :| 0 <= k < |words| && '\\' in words[k];
    var j :| 0 <= j < |words[k]| && words[k][j] == '\\';
    ParseDecimalRejects(words[k], j);
    ParseRowFails(words, k);
    assert [s][..0] == [];
    assert DataRows([s]) == [words];
  }
}
