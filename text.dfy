/**
 * Strings as the program handles them: decimal rendering (`String(n)`, Rust `{}`),
 * `padStart`, joining, JavaScript `trim`, and the byte-wise order SQLite uses to
 * compare TEXT values (for UTF-8 text that order is the order of code points, which
 * is the order of Dafny's `char`).
 */
module Text {

  predicate IsDigit(c: char) { '0' <= c <= '9' }

  /** The value of a decimal digit character. */
  function DigitValue(c: char): (d: int)
    ensures IsDigit(c) ==> 0 <= d < 10
  {
    c as int - '0' as int
  }

  function DigitChar(d: nat): (c: char)
    requires d < 10
    ensures IsDigit(c) && DigitValue(c) == d
  {
    (('0' as int) + d) as char
  }

  predicate AllDigits(s: string) { forall i | 0 <= i < |s| :: IsDigit(s[i]) }

  /** The value of a run of decimal digits, most significant digit first. */
  function DecimalValue(s: string): int
    decreases |s|
  {
    if s == [] then 0 else DecimalValue(s[..|s| - 1]) * 10 + DigitValue(s[|s| - 1])
  }

  /** Decimal rendering of a natural number without leading zeros. */
  function NatToString(n: nat): (s: string)
    ensures |s| >= 1 && AllDigits(s) && DecimalValue(s) == n
    ensures n < 10 ==> |s| == 1
    ensures 10 <= n < 100 ==> |s| == 2
    ensures 100 <= n < 1000 ==> |s| == 3
    ensures 1000 <= n < 10000 ==> |s| == 4
    ensures n >= 10000 ==> |s| >= 5
    decreases n
  {
    if n < 10 then [DigitChar(n)]
    else
      var prefix := NatToString(n / 10);
      var s := prefix + [DigitChar(n % 10)];
      assert s[..|s| - 1] == prefix;
      s
  }

  /** Decimal rendering of an integer (`String(i)` in JavaScript, `{}` in Rust). */
  function IntToString(i: int): (s: string)
    ensures |s| >= 1
    ensures i >= 0 ==> s == NatToString(i)
    ensures i < 0 ==> s == "-" + NatToString(-i)
  {
    if i < 0 then "-" + NatToString(-i) else NatToString(i)
  }

  /** `s.padStart(width, c)`. */
  function PadStart(s: string, width: nat, c: char): (r: string)
    ensures |r| == if |s| >= width then |s| else width
    decreases width
  {
    if |s| >= width then s else [c] + PadStart(s, width - 1, c)
  }

  /** `String(n).padStart(2, '0')`. */
  function Pad2(n: nat): (r: string)
    ensures n < 100 ==> |r| == 2 && AllDigits(r) && DecimalValue(r) == n
  {
    var s := NatToString(n);
    var r := PadStart(s, 2, '0');
    if n < 10 then
      assert r == ['0'] + s;
      DecimalLeadingZero(s);
      r
    else
      r
  }

  /** A natural number zero-padded to four digits (chrono `%Y` for years 0 to 9999). */
  function Pad4(n: nat): (r: string)
    ensures n < 10000 ==> |r| == 4 && AllDigits(r) && DecimalValue(r) == n
  {
    var s := NatToString(n);
    var r := PadStart(s, 4, '0');
    if n < 10000 then
      PadZerosValue(s, 4);
      r
    else
      r
  }

  lemma {:induction false} DecimalLeadingZero(s: string)
    requires AllDigits(s)
    ensures AllDigits(['0'] + s) && DecimalValue(['0'] + s) == DecimalValue(s)
    decreases |s|
  {
    var t := ['0'] + s;
    if s != [] {
      assert t[..|t| - 1] == ['0'] + s[..|s| - 1];
      DecimalLeadingZero(s[..|s| - 1]);
    }
  }

  lemma {:induction false} PadZerosValue(s: string, width: nat)
    requires AllDigits(s)
    ensures AllDigits(PadStart(s, width, '0'))
    ensures DecimalValue(PadStart(s, width, '0')) == DecimalValue(s)
    decreases width
  {
    if |s| < width {
      var shorter := PadStart(s, width - 1, '0');
      PadZerosValue(s, width - 1);
      DecimalLeadingZero(shorter);
    }
  }

  /** `parts.join(sep)`. */
  function Join(parts: seq<string>, sep: string): string
    decreases |parts|
  {
    if parts == [] then ""
    else if |parts| == 1 then parts[0]
    else parts[0] + sep + Join(parts[1..], sep)
  }

  // ---------------------------------------------------------------------------
  // Lexicographic order of TEXT values (SQLite's BINARY collation)
  // ---------------------------------------------------------------------------

  /** `a <= b` in SQLite's comparison of TEXT values. */
  predicate StrLe(a: string, b: string)
    decreases |a|
  {
    a == [] || (b != [] && (a[0] < b[0] || (a[0] == b[0] && StrLe(a[1..], b[1..]))))
  }

  predicate StrLt(a: string, b: string) { StrLe(a, b) && a != b }

  lemma {:induction false} StrLeRefl(a: string)
    ensures StrLe(a, a)
    decreases |a|
  {
    if a != [] { StrLeRefl(a[1..]); }
  }

  lemma {:induction false} StrLeTotal(a: string, b: string)
    ensures StrLe(a, b) || StrLe(b, a)
    decreases |a|
  {
    if a != [] && b != [] && a[0] == b[0] { StrLeTotal(a[1..], b[1..]); }
  }

  lemma {:induction false} StrLeAntisymmetric(a: string, b: string)
    requires StrLe(a, b) && StrLe(b, a)
    ensures a == b
    decreases |a|
  {
    if a != [] {
      StrLeAntisymmetric(a[1..], b[1..]);
      assert a == [a[0]] + a[1..] && b == [b[0]] + b[1..];
    }
  }

  lemma {:induction false} StrLeTransitive(a: string, b: string, c: string)
    requires StrLe(a, b) && StrLe(b, c)
    ensures StrLe(a, c)
    decreases |a|
  {
    if a != [] && a[0] == b[0] && b[0] == c[0] { StrLeTransitive(a[1..], b[1..], c[1..]); }
  }

  // ---------------------------------------------------------------------------
  // JavaScript String.prototype.trim
  // ---------------------------------------------------------------------------

  /** The characters JavaScript's `trim` removes (WhiteSpace and LineTerminator). */
  predicate IsJsWhitespace(c: char)
  {
    var n := c as int;
    n == 0x09 || n == 0x0A || n == 0x0B || n == 0x0C || n == 0x0D || n == 0x20 ||
    n == 0xA0 || n == 0x1680 || (0x2000 <= n <= 0x200A) || n == 0x2028 || n == 0x2029 ||
    n == 0x202F || n == 0x205F || n == 0x3000 || n == 0xFEFF
  }

  function TrimStart(s: string): (r: string)
    ensures |r| <= |s| && r == s[|s| - |r|..]
    ensures r == [] || !IsJsWhitespace(r[0])
    ensures forall i | 0 <= i < |s| - |r| :: IsJsWhitespace(s[i])
    decreases |s|
  {
    if s != [] && IsJsWhitespace(s[0]) then TrimStart(s[1..]) else s
  }

  function TrimEnd(s: string): (r: string)
    ensures |r| <= |s| && r == s[..|r|]
    ensures r == [] || !IsJsWhitespace(r[|r| - 1])
    ensures forall i | |r| <= i < |s| :: IsJsWhitespace(s[i])
    decreases |s|
  {
    if s != [] && IsJsWhitespace(s[|s| - 1]) then TrimEnd(s[..|s| - 1]) else s
  }

  /** Everything of `s` outside `s[i..j]` is whitespace. */
  predicate WhitespaceOutside(s: string, i: nat, j: nat)
    requires i <= j <= |s|
  {
    (forall k | 0 <= k < i :: IsJsWhitespace(s[k])) && (forall k | j <= k < |s| :: IsJsWhitespace(s[k]))
  }

  /** `r` is a slice of `s`, and what lies outside it is whitespace. */
  predicate SliceWithinWhitespace(s: string, r: string)
  {
    exists i, j | 0 <= i <= j <= |s| :: r == s[i..j] && WhitespaceOutside(s, i, j)
  }

  /** A prefix `r` of the suffix `t = s[i..]` is a slice of `s` within whitespace when whitespace precedes `t` in `s`
    * and follows `r` in `t`. */
  lemma PrefixOfSuffix(s: string, t: string, r: string, i: nat)
    requires i <= |s| && t == s[i..] && |r| <= |t| && r == t[..|r|]
    requires forall k | 0 <= k < i :: IsJsWhitespace(s[k])
    requires forall k | |r| <= k < |t| :: IsJsWhitespace(t[k])
    ensures SliceWithinWhitespace(s, r)
  {
    DropTake(s, i, |r|);
    WhitespaceTail(s, t, i, |r|);
    assert r == s[i..i + |r|] && WhitespaceOutside(s, i, i + |r|);
  }

  /** `r` is `s` with whitespace, and only whitespace, dropped at both ends: a slice of `s` with whitespace outside it
    * and none at either end of it, empty exactly when `s` is all whitespace. */
  predicate TrimmedOf(s: string, r: string)
  {
    SliceWithinWhitespace(s, r) &&
    (r == [] || (!IsJsWhitespace(r[0]) && !IsJsWhitespace(r[|r| - 1]))) &&
    (r == [] <==> forall i | 0 <= i < |s| :: IsJsWhitespace(s[i]))
  }

  /** `s.trim()`. */
  function Trim(s: string): (r: string)
    ensures TrimmedOf(s, r)
  {
    TrimFacts(s);
    TrimEnd(TrimStart(s))
  }

  /** Trim's contract, proved for the trimmed start's trimmed end. */
  lemma TrimFacts(s: string)
    ensures TrimmedOf(s, TrimEnd(TrimStart(s)))
  {
    var t := TrimStart(s);
    PrefixOfSuffix(s, t, TrimEnd(t), |s| - |t|);
    TrimEnds(s);
  }

  /** What is left has no whitespace at either end, and is empty exactly for blank `s`. */
  lemma TrimEnds(s: string)
    ensures var r := TrimEnd(TrimStart(s));
      (r == [] || (!IsJsWhitespace(r[0]) && !IsJsWhitespace(r[|r| - 1]))) &&
      (r == [] <==> forall i | 0 <= i < |s| :: IsJsWhitespace(s[i]))
  {
    var t := TrimStart(s);
    var r := TrimEnd(t);
    assert r == t[..|r|];
    if r == [] {
      assert t == [];
    }
  }

  /** A prefix of a suffix is a slice. */
  lemma DropTake<T>(s: seq<T>, i: nat, n: nat)
    requires i + n <= |s|
    ensures s[i..][..n] == s[i..i + n]
  {
  }

  /** Whitespace at the end of a suffix of `s` is whitespace at the end of `s`. */
  lemma WhitespaceTail(s: string, t: string, i: nat, n: nat)
    requires i <= |s| && t == s[i..] && n <= |t|
    requires forall k | n <= k < |t| :: IsJsWhitespace(t[k])
    ensures forall k | i + n <= k < |s| :: IsJsWhitespace(s[k])
  {
    forall k | i + n <= k < |s| ensures IsJsWhitespace(s[k]) {
      assert s[k] == t[k - i];
    }
  }

  /** JavaScript's `minutes % 60`: the remainder has the sign of the dividend. */
  function MinutesPart(minutes: int): (r: int)
    ensures -60 < r < 60
    ensures minutes >= 0 ==> r == minutes % 60
    ensures minutes < 0 ==> r <= 0 && (minutes - r) % 60 == 0
  {
    if minutes >= 0 then minutes % 60 else -((-minutes) % 60)
  }
}
