/**
 * The handful of Python string operations the minutiae code relies on:
 * `str.strip()`, `str.split(sep)`, `str.split()`, iteration over the lines
 * of a text file, `in` on strings, `str.endswith`, and the `int()` / `float()`
 * / `str()` conversions between numbers and decimal text.
 *
 * Files are text after Python's universal-newline translation, so the only
 * line break is '\n'.  Whitespace is the set of characters `str.isspace()`
 * accepts, the set `strip()`, `split()`, `int()` and `float()` skip: the ASCII
 * controls 0x09-0x0D and 0x1C-0x1F, the space, and the Unicode spaces and
 * separators.
 */
module Text {
  import opened Wrappers

  /** `c.isspace()`. */
  predicate IsSpace(c: char) {
    ('\t' <= c <= '\r') || ('\U{1C}' <= c <= ' ') || c == '\U{85}' || c == '\U{A0}' || c == '\U{1680}'
    || ('\U{2000}' <= c <= '\U{200A}') || c == '\U{2028}' || c == '\U{2029}' || c == '\U{202F}'
    || c == '\U{205F}' || c == '\U{3000}'
  }

  /** True when a string holds nothing but whitespace (so `s.strip()` is falsy). */
  predicate IsBlank(s: string) {
    forall i :: 0 <= i < |s| ==> IsSpace(s[i])
  }

  // ---------------------------------------------------------------------------
  // strip()

  /** `s.lstrip()`. */
  function StripLeft(s: string): string {
    if s != [] && IsSpace(s[0]) then StripLeft(s[1..]) else s
  }

  /** `s.rstrip()`. */
  function StripRight(s: string): string {
    if s != [] && IsSpace(s[|s| - 1]) then StripRight(s[..|s| - 1]) else s
  }

  /** Python's `s.strip()`. */
  function Strip(s: string): string {
    StripRight(StripLeft(s))
  }

  /** `lstrip` removes exactly the leading whitespace: a suffix remains that does not start with whitespace. */
  lemma {:induction false} StripLeftSpec(s: string)
    ensures |StripLeft(s)| <= |s| && StripLeft(s) == s[|s| - |StripLeft(s)|..]
    ensures StripLeft(s) == [] || !IsSpace(StripLeft(s)[0])
    ensures IsBlank(s[..|s| - |StripLeft(s)|])
    decreases |s|
  {
    if s != [] && IsSpace(s[0]) {
      var r := StripLeft(s[1..]);
      StripLeftSpec(s[1..]);
      assert s[1..][..|s| - 1 - |r|] == s[1..|s| - |r|];
      assert s[..|s| - |r|] == [s[0]] + s[1..|s| - |r|];
    }
  }

  /** `rstrip` removes exactly the trailing whitespace: a prefix remains that does not end with whitespace. */
  lemma {:induction false} StripRightSpec(s: string)
    ensures |StripRight(s)| <= |s| && StripRight(s) == s[..|StripRight(s)|]
    ensures StripRight(s) == [] || !IsSpace(StripRight(s)[|StripRight(s)| - 1])
    ensures IsBlank(s[|StripRight(s)|..])
    decreases |s|
  {
    if s != [] && IsSpace(s[|s| - 1]) {
      var r := StripRight(s[..|s| - 1]);
      StripRightSpec(s[..|s| - 1]);
      assert s[..|s| - 1][|r|..] == s[|r|..|s| - 1];
      assert s[|r|..] == s[|r|..|s| - 1] + [s[|s| - 1]];
    }
  }

  /**
   * `strip` leaves a string that neither starts nor ends with whitespace, and
   * nothing exactly when the string is blank.
   */
  lemma StripSpec(s: string)
    ensures Strip(s) == [] || (!IsSpace(Strip(s)[0]) && !IsSpace(Strip(s)[|Strip(s)| - 1]))
    ensures Strip(s) == [] <==> IsBlank(s)
  {
    var left := StripLeft(s);
    var r := StripRight(left);
    StripLeftSpec(s);
    StripRightSpec(left);
    if r == [] {
      assert left == left[0..];
      assert s == s[..|s| - |left|] + left;
    } else {
      assert r[0] == left[0];
      assert !IsBlank(s) by {
        assert s[|s| - |left|] == left[0];
      }
    }
  }

  lemma StripUntouched(s: string)
    requires s != [] && !IsSpace(s[0]) && !IsSpace(s[|s| - 1])
    ensures Strip(s) == s
  {
  }

  // ---------------------------------------------------------------------------
  // split(sep) and its inverse

  /** Python's `s.split(sep)` for a one-character separator: always at least one piece. */
  function Split(s: string, sep: char): (parts: seq<string>)
    ensures |parts| >= 1
  {
    if s == [] then [[]]
    else
      var rest := Split(s[1..], sep);
      if s[0] == sep then [[]] + rest
      else [[s[0]] + rest[0]] + rest[1..]
  }

  /** No piece holds the separator, and there is more than one piece exactly when the separator occurs. */
  lemma {:induction false} SplitSpec(s: string, sep: char)
    ensures forall i :: 0 <= i < |Split(s, sep)| ==> sep !in Split(s, sep)[i]
    ensures |Split(s, sep)| == 1 <==> sep !in s
    decreases |s|
  {
    if s != [] {
      var rest := Split(s[1..], sep);
      SplitSpec(s[1..], sep);
      assert sep in s[1..] ==> sep in s;
      if sep in s && s[0] != sep {
        var k :| 0 <= k < |s| && s[k] == sep;
        assert s[1..][k - 1] == sep;
      }
      if s[0] != sep {
        var parts := Split(s, sep);
        forall i | 0 <= i < |parts|
          ensures sep !in parts[i]
        {
          if i == 0 {
            assert parts[0] == [s[0]] + rest[0];
          } else {
            assert parts[i] == rest[i];
          }
        }
      }
    }
  }

  /** `sep.join(parts)`. */
  function JoinWith(parts: seq<string>, sep: char): string {
    if parts == [] then []
    else if |parts| == 1 then parts[0]
    else parts[0] + [sep] + JoinWith(parts[1..], sep)
  }

  lemma {:induction false} JoinSplit(s: string, sep: char)
    ensures JoinWith(Split(s, sep), sep) == s
    decreases |s|
  {
    if s != [] {
      var rest := Split(s[1..], sep);
      JoinSplit(s[1..], sep);
      if s[0] == sep {
        assert Split(s, sep) == [[]] + rest;
        assert ([[]] + rest)[1..] == rest;
        assert s == [sep] + s[1..];
      } else {
        var parts := Split(s, sep);
        assert parts[0] == [s[0]] + rest[0];
        if |rest| == 1 {
          assert parts == [[s[0]] + rest[0]];
        } else {
          assert parts[1..] == rest[1..];
          assert JoinWith(rest, sep) == rest[0] + [sep] + JoinWith(rest[1..], sep);
        }
      }
    }
  }

  lemma {:induction false} SplitNoSep(a: string, sep: char)
    requires sep !in a
    ensures Split(a, sep) == [a]
  {
    if a != [] {
      assert sep !in a[1..];
      SplitNoSep(a[1..], sep);
      assert [a[0]] + a[1..] == a;
    }
  }

  /** Splitting at the first separator. */
  lemma {:induction false} SplitAfterFirst(a: string, sep: char, b: string)
    requires sep !in a
    ensures Split(a + [sep] + b, sep) == [a] + Split(b, sep)
    decreases |a|
  {
    if a == [] {
      assert [sep] + b == [sep] + b;
      assert ([sep] + b)[1..] == b;
    } else {
      SplitAfterFirst(a[1..], sep, b);
      assert (a + [sep] + b)[1..] == a[1..] + [sep] + b;
      assert [a[0]] + a[1..] == a;
    }
  }

  /** Splitting undoes joining, when no piece holds the separator. */
  lemma {:induction false} SplitJoin(parts: seq<string>, sep: char)
    requires |parts| >= 1
    requires forall i :: 0 <= i < |parts| ==> sep !in parts[i]
    ensures Split(JoinWith(parts, sep), sep) == parts
    decreases |parts|
  {
    if |parts| == 1 {
      SplitNoSep(parts[0], sep);
    } else {
      SplitJoin(parts[1..], sep);
      SplitAfterFirst(parts[0], sep, JoinWith(parts[1..], sep));
      assert [parts[0]] + parts[1..] == parts;
    }
  }

  /** A join starts where its first piece starts. */
  lemma JoinWithFirst(parts: seq<string>, sep: char)
    requires |parts| >= 1 && parts[0] != []
    ensures JoinWith(parts, sep) != [] && JoinWith(parts, sep)[0] == parts[0][0]
  {
  }

  /** A join ends where its last piece ends. */
  lemma {:induction false} JoinWithLast(parts: seq<string>, sep: char)
    requires |parts| >= 1 && parts[|parts| - 1] != []
    ensures JoinWith(parts, sep) != []
    ensures JoinWith(parts, sep)[|JoinWith(parts, sep)| - 1] == parts[|parts| - 1][|parts[|parts| - 1]| - 1]
    decreases |parts|
  {
    if |parts| > 1 {
      var rest := parts[1..];
      JoinWithLast(rest, sep);
      assert rest[|rest| - 1] == parts[|parts| - 1];
    }
  }

  /** Every character of `s` is one of `allowed`. */
  predicate CharsIn(s: string, allowed: set<char>) {
    forall i :: 0 <= i < |s| ==> s[i] in allowed
  }

  /** A join draws its characters from its pieces and its separator. */
  lemma {:induction false} JoinWithCharsIn(parts: seq<string>, sep: char, allowed: set<char>)
    requires sep in allowed
    requires forall k :: 0 <= k < |parts| ==> CharsIn(parts[k], allowed)
    ensures CharsIn(JoinWith(parts, sep), allowed)
    decreases |parts|
  {
    if |parts| > 1 {
      JoinWithCharsIn(parts[1..], sep, allowed);
      var rest := JoinWith(parts[1..], sep);
      var s := parts[0] + [sep] + rest;
      forall i | 0 <= i < |s|
        ensures s[i] in allowed
      {
        if i < |parts[0]| {
          assert s[i] == parts[0][i];
        } else if i > |parts[0]| {
          assert s[i] == rest[i - |parts[0]| - 1];
        }
      }
    }
  }

  // ---------------------------------------------------------------------------
  // lines of a file

  /**
   * The lines a text file yields when iterated (`readlines()`), without their
   * '\n': a final '\n' does not open an empty extra line, and an empty file has
   * no lines at all.
   */
  function Lines(s: string): seq<string> {
    if s == [] then []
    else
      var parts := Split(s, '\n');
      if s[|s| - 1] == '\n' then parts[..|parts| - 1] else parts
  }

  /** No line holds a line break. */
  lemma LinesSpec(s: string)
    ensures forall i :: 0 <= i < |Lines(s)| ==> '\n' !in Lines(s)[i]
  {
    SplitSpec(s, '\n');
  }

  /** Lines that survive `line.strip()` as non-empty. */
  function NonBlankCount(lines: seq<string>): (n: nat)
    ensures n <= |lines|
  {
    if lines == [] then 0
    else NonBlankCount(lines[..|lines| - 1]) + (if IsBlank(lines[|lines| - 1]) then 0 else 1)
  }

  lemma {:induction false} NonBlankCountAll(lines: seq<string>)
    requires forall i :: 0 <= i < |lines| ==> !IsBlank(lines[i])
    ensures NonBlankCount(lines) == |lines|
  {
    if lines != [] { NonBlankCountAll(lines[..|lines| - 1]); }
  }

  /** A text with no '\n' is a single line, or none when it is empty. */
  lemma SingleLine(s: string)
    requires s != [] && '\n' !in s
    ensures Lines(s) == [s]
  {
    SplitNoSep(s, '\n');
    assert s[|s| - 1] in s;
  }

  // ---------------------------------------------------------------------------
  // split() on runs of whitespace

  /** Length of the leading run of non-whitespace characters. */
  function TokenLen(s: string): (n: nat)
    ensures n <= |s|
    ensures forall i :: 0 <= i < n ==> !IsSpace(s[i])
    ensures n < |s| ==> IsSpace(s[n])
  {
    if s == [] || IsSpace(s[0]) then 0 else 1 + TokenLen(s[1..])
  }

  /** Python's `s.split()`: the maximal runs of non-whitespace characters, in order. */
  function Tokens(s: string): (ts: seq<string>)
    ensures forall k :: 0 <= k < |ts| ==> ts[k] != []
    decreases |s|
  {
    if s == [] then []
    else if IsSpace(s[0]) then Tokens(s[1..])
    else
      var n := TokenLen(s);
      [s[..n]] + Tokens(s[n..])
  }

  lemma {:induction false} TokenLenWord(t: string, rest: string)
    requires forall i :: 0 <= i < |t| ==> !IsSpace(t[i])
    requires rest == [] || IsSpace(rest[0])
    ensures TokenLen(t + rest) == |t|
    decreases |t|
  {
    if t != [] {
      assert (t + rest)[1..] == t[1..] + rest;
      TokenLenWord(t[1..], rest);
    } else {
      assert t + rest == rest;
    }
  }

  /** A word followed by a space is the first token, and the rest splits on its own. */
  lemma TokensWordSpace(t: string, rest: string)
    requires t != [] && forall i :: 0 <= i < |t| ==> !IsSpace(t[i])
    ensures Tokens(t + [' '] + rest) == [t] + Tokens(rest)
  {
    var s := t + [' '] + rest;
    TokenLenWord(t, [' '] + rest);
    assert s == t + ([' '] + rest);
    assert s[..|t|] == t;
    assert s[|t|..] == [' '] + rest;
    assert ([' '] + rest)[1..] == rest;
  }

  lemma TokensWord(t: string)
    requires t != [] && forall i :: 0 <= i < |t| ==> !IsSpace(t[i])
    ensures Tokens(t) == [t]
  {
    TokenLenWord(t, []);
    assert t + [] == t;
  }

  /** A non-empty run of non-whitespace characters. */
  predicate IsWord(t: string) {
    t != [] && forall i :: 0 <= i < |t| ==> !IsSpace(t[i])
  }

  /** `split()` undoes a single-space join of words. */
  lemma {:induction false} TokensOfJoin(parts: seq<string>)
    requires forall k :: 0 <= k < |parts| ==> IsWord(parts[k])
    ensures Tokens(JoinWith(parts, ' ')) == parts
    decreases |parts|
  {
    if |parts| == 1 {
      TokensWord(parts[0]);
    } else if |parts| > 1 {
      TokensOfJoin(parts[1..]);
      TokensWordSpace(parts[0], JoinWith(parts[1..], ' '));
      assert [parts[0]] + parts[1..] == parts;
    }
  }

  /** Every non-whitespace character of `s` ends up inside some token. */
  lemma {:induction false} TokensCover(s: string, i: nat)
    requires i < |s| && !IsSpace(s[i])
    ensures exists k :: 0 <= k < |Tokens(s)| && s[i] in Tokens(s)[k]
    decreases |s|
  {
    if IsSpace(s[0]) {
      TokensCover(s[1..], i - 1);
      var k :| 0 <= k < |Tokens(s[1..])| && s[1..][i - 1] in Tokens(s[1..])[k];
      assert Tokens(s)[k] == Tokens(s[1..])[k];
    } else {
      var n := TokenLen(s);
      if i < n {
        assert s[..n][i] == s[i];
        assert Tokens(s)[0] == s[..n];
      } else {
        TokensCover(s[n..], i - n);
        var k :| 0 <= k < |Tokens(s[n..])| && s[n..][i - n] in Tokens(s[n..])[k];
        assert Tokens(s)[k + 1] == Tokens(s[n..])[k];
      }
    }
  }

  // ---------------------------------------------------------------------------
  // substring tests

  /** Python's `sub in s`. */
  predicate Contains(s: string, sub: string)
    decreases |s|
  {
    (|sub| <= |s| && s[..|sub|] == sub) || (s != [] && Contains(s[1..], sub))
  }

  predicate EndsWith(s: string, suffix: string) {
    |suffix| <= |s| && s[|s| - |suffix|..] == suffix
  }

  // ---------------------------------------------------------------------------
  // decimal numerals

  predicate IsDigit(c: char) { '0' <= c <= '9' }

  predicate AllDigits(s: string) {
    forall i :: 0 <= i < |s| ==> IsDigit(s[i])
  }

  function DigitChar(d: nat): (c: char)
    requires d < 10
    ensures IsDigit(c)
  {
    ('0' as int + d) as char
  }

  /** The value of a run of decimal digits, most significant first. */
  function DigitsValue(s: string): nat
    requires AllDigits(s)
  {
    if s == [] then 0
    else DigitsValue(s[..|s| - 1]) * 10 + (s[|s| - 1] as int - '0' as int)
  }

  /** Python's `str(n)` for a natural number. */
  function NatToString(n: nat): (s: string)
    ensures s != [] && AllDigits(s)
    ensures DigitsValue(s) == n
  {
    if n < 10 then [DigitChar(n)]
    else
      var prefix := NatToString(n / 10);
      var s := prefix + [DigitChar(n % 10)];
      assert s[..|s| - 1] == prefix;
      s
  }

  /** Python's `str(i)` for an integer. */
  function IntToString(i: int): (s: string)
    ensures s != [] && !IsSpace(s[0]) && !IsSpace(s[|s| - 1])
    ensures forall k :: 0 <= k < |s| ==> IsDigit(s[k]) || s[k] == '-'
  {
    if i < 0 then "-" + NatToString(-i) else NatToString(i)
  }

  /** Splits an optional leading '+' or '-' off a numeral: (is it negative, the rest). */
  function SignAndBody(t: string): (bool, string) {
    if t != [] && (t[0] == '-' || t[0] == '+') then (t[0] == '-', t[1..]) else (false, t)
  }

  /**
   * Python's `int(s)`: surrounding whitespace, an optional sign, then one or more
   * decimal digits.  Anything else is a ValueError, here None.
   */
  function ParseInt(s: string): (r: Option<int>)
    ensures r.Some? ==> Strip(s) != []
  {
    var (negative, body) := SignAndBody(Strip(s));
    if body != [] && AllDigits(body) then
      Some(if negative then -(DigitsValue(body) as int) else DigitsValue(body))
    else None
  }

  /**
   * Python's `float(s)` on plain decimal notation: surrounding whitespace, an
   * optional sign, then an unsigned numeral.
   */
  function ParseDecimal(s: string): (r: Option<real>)
    ensures r.Some? ==> Strip(s) != []
  {
    var (negative, body) := SignAndBody(Strip(s));
    match UnsignedDecimal(body)
    case None => None
    case Some(m) => Some(if negative then -m else m)
  }

  /** The value of the digits after a decimal point: `25` stands for 0.25. */
  function FractionValue(f: string): (v: real)
    requires AllDigits(f)
    ensures 0.0 <= v <= 1.0
  {
    if f == [] then 0.0
    else ((f[0] as int - '0' as int) as real + FractionValue(f[1..])) / 10.0
  }

  /** Digits with at most one '.', at least one digit: `12`, `12.`, `.5`, `348.75`. */
  function UnsignedDecimal(body: string): (r: Option<real>)
    ensures r.Some? ==> r.value >= 0.0
  {
    var parts := Split(body, '.');
    if |parts| > 2 then None
    else
      var whole := parts[0];
      var fraction := if |parts| == 2 then parts[1] else [];
      if AllDigits(whole) && AllDigits(fraction) && |whole| + |fraction| > 0 then
        Some(DigitsValue(whole) as real + FractionValue(fraction))
      else None
  }

  lemma UnsignedDecimalRejects(body: string, j: nat)
    requires j < |body| && !IsDigit(body[j]) && body[j] != '.'
    ensures UnsignedDecimal(body) == None
  {
    var parts := Split(body, '.');
    JoinSplit(body, '.');
    if |parts| == 1 {
      assert body == parts[0];
    } else if |parts| == 2 {
      var whole, fraction := parts[0], parts[1];
      assert JoinWith(parts, '.') == whole + ['.'] + JoinWith(parts[1..], '.');
      assert parts[1..] == [fraction];
      assert body == whole + ['.'] + fraction;
      if j < |whole| {
        assert whole[j] == body[j];
      } else {
        assert fraction[j - |whole| - 1] == body[j];
      }
    }
  }

  lemma ParseIntOfIntToString(i: int)
    ensures ParseInt(IntToString(i)) == Some(i)
  {
    var s := IntToString(i);
    StripUntouched(s);
    if i < 0 {
      assert s[1..] == NatToString(-i);
    }
  }

  lemma UnsignedDecimalOfDigits(w: string)
    requires w != [] && AllDigits(w)
    ensures UnsignedDecimal(w) == Some(DigitsValue(w) as real)
  {
    assert '.' !in w;
    SplitNoSep(w, '.');
    assert FractionValue([]) == 0.0;
  }

  lemma ParseDecimalOfIntToString(i: int)
    ensures ParseDecimal(IntToString(i)) == Some(i as real)
  {
    var s := IntToString(i);
    StripUntouched(s);
    var body := if i < 0 then NatToString(-i) else NatToString(i);
    if i < 0 { assert s[1..] == body; }
    assert SignAndBody(s) == (i < 0, body);
    UnsignedDecimalOfDigits(body);
  }

  /** The value of `w.f` for two runs of digits. */
  lemma UnsignedDecimalWithFraction(w: string, f: string)
    requires w != [] && AllDigits(w) && f != [] && AllDigits(f)
    ensures UnsignedDecimal(JoinWith([w, f], '.')) == Some(DigitsValue(w) as real + FractionValue(f))
  {
    assert '.' !in w;
    assert '.' !in f;
    SplitJoin([w, f], '.');
  }

  /** `float(str(n) + "." + f)` for a natural number and a run of fraction digits. */
  lemma {:induction false} ParseDecimalWithFraction(n: nat, f: string)
    requires f != [] && AllDigits(f)
    ensures ParseDecimal(JoinWith([NatToString(n), f], '.')) == Some(n as real + FractionValue(f))
  {
    var w := NatToString(n);
    var s := JoinWith([w, f], '.');
    JoinWithFirst([w, f], '.');
    JoinWithLast([w, f], '.');
    StripUntouched(s);
    assert SignAndBody(s) == (false, s);
    UnsignedDecimalWithFraction(w, f);
  }

  /** A string holding a character that is neither a digit, a sign nor '.' is no numeral. */
  lemma ParseDecimalRejects(s: string, i: nat)
    requires i < |s| && !IsSpace(s[i]) && !IsDigit(s[i]) && s[i] != '.' && s[i] != '-' && s[i] != '+'
    ensures ParseDecimal(s) == None
  {
    var left := StripLeft(s);
    var t := Strip(s);
    StripLeftSpec(s);
    StripRightSpec(left);
    // s[i] is not whitespace, so it survives both strips
    var off := |s| - |left|;
    assert forall k :: 0 <= k < off ==> s[..off][k] == s[k];
    assert i >= off;
    assert left[i - off] == s[i];
    assert forall k :: |t| <= k < |left| ==> left[|t|..][k - |t|] == left[k];
    assert i - off < |t|;
    assert t[i - off] == s[i];
    var sb := SignAndBody(t);
    var j := if t[0] == '-' || t[0] == '+' then i - off - 1 else i - off;
    assert 0 <= j < |sb.1| && sb.1[j] == s[i];
    UnsignedDecimalRejects(sb.1, j);
  }
}
