/**
 * The JavaScript string built-ins the core relies on: `String.prototype.trim`,
 * `String.prototype.includes`, `Array.prototype.join` with a one-character
 * separator, the `split` a CSV consumer applies to the exported text, and the
 * decimal rendering of a number inside a template literal.
 */
module Text {

  /**
   * The ECMAScript WhiteSpace and LineTerminator code points, which `trim`
   * removes: tab, line feed, vertical tab, form feed, carriage return, space,
   * no-break space, the Unicode space separators, the line and paragraph
   * separators, and the byte-order mark.
   */
  predicate IsWhitespace(c: char) {
    || '\t' <= c <= '\r'
    || c == ' ' || c == '\U{00A0}' || c == '\U{1680}'
    || '\U{2000}' <= c <= '\U{200A}'
    || c == '\U{2028}' || c == '\U{2029}' || c == '\U{202F}' || c == '\U{205F}'
    || c == '\U{3000}' || c == '\U{FEFF}'
  }

  /** Every character of `s` is white space (in particular, the empty string). */
  predicate IsBlank(s: string) {
    forall i :: 0 <= i < |s| ==> IsWhitespace(s[i])
  }

  /** The first index at or after `i` whose character is not white space, or `|s|` when there is none. */
  function SkipBlanksForward(s: string, i: nat): (n: nat)
    requires i <= |s|
    ensures i <= n <= |s|
    ensures forall k :: i <= k < n ==> IsWhitespace(s[k])
    ensures n < |s| ==> !IsWhitespace(s[n])
    decreases |s| - i
  {
    if i < |s| && IsWhitespace(s[i]) then SkipBlanksForward(s, i + 1) else i
  }

  /** The least index `n <= j` such that every character in `s[n..j]` is white space. */
  function SkipBlanksBackward(s: string, j: nat): (n: nat)
    requires j <= |s|
    ensures n <= j
    ensures forall k :: n <= k < j ==> IsWhitespace(s[k])
    ensures n > 0 ==> !IsWhitespace(s[n - 1])
  {
    if j > 0 && IsWhitespace(s[j - 1]) then SkipBlanksBackward(s, j - 1) else j
  }

  /** `s.trim()`: `s` without its leading and trailing white space. */
  function Trim(s: string): (r: string)
    ensures r == "" <==> IsBlank(s)
    ensures r == "" || (!IsWhitespace(r[0]) && !IsWhitespace(r[|r| - 1]))
  {
    var a := SkipBlanksForward(s, 0);
    if a == |s| then ""
    else
      var b := SkipBlanksBackward(s, |s|);
      assert a < b;
      s[a..b]
  }

  /** A non-empty string that `trim` leaves as it is: no white space at either end. */
  predicate IsTrimmedNonEmpty(s: string) {
    s != "" && !IsWhitespace(s[0]) && !IsWhitespace(s[|s| - 1])
  }

  /** What `trim` keeps is a part of the original text. */
  lemma TrimIsInfix(s: string)
    ensures Contains(s, Trim(s))
  {
    var a := SkipBlanksForward(s, 0);
    if a == |s| {
      assert StartsWith(s, "");
    } else {
      var b := SkipBlanksBackward(s, |s|);
      assert a < b;
      var t := s[a..b];
      assert Trim(s) == t;
      assert s == s[..a] + t + s[b..];
      ContainsMiddle(s[..a], t, s[b..]);
    }
  }

  /**
   * `trim` removes white space at the two ends and nothing else: the result
   * is the part of `s` between a blank prefix and a blank suffix.
   */
  lemma {:induction false} TrimStripsOnlyEnds(s: string)
    ensures exists i, j :: 0 <= i <= j <= |s| && Trim(s) == s[i..j] && IsBlank(s[..i]) && IsBlank(s[j..])
  {
    var a := SkipBlanksForward(s, 0);
    if a == |s| {
      assert Trim(s) == s[|s|..|s|] && s[..|s|] == s;
    } else {
      var b := SkipBlanksBackward(s, |s|);
      assert a < b;
      assert Trim(s) == s[a..b];
      assert IsBlank(s[..a]) && IsBlank(s[b..]);
    }
  }

  /** `s.startsWith(prefix)`. */
  predicate StartsWith(s: string, prefix: string) {
    |prefix| <= |s| && s[..|prefix|] == prefix
  }

  /** `s.includes(part)`: `part` occurs in `s` at some position. */
  predicate Contains(s: string, part: string) {
    StartsWith(s, part) || (|s| > 0 && Contains(s[1..], part))
  }

  lemma {:induction false} ContainsMiddle(x: string, y: string, z: string)
    ensures Contains(x + y + z, y)
    decreases |x|
  {
    if |x| == 0 {
      assert x + y + z == y + z;
      assert (y + z)[..|y|] == y;
    } else {
      ContainsMiddle(x[1..], y, z);
      assert (x + y + z)[1..] == x[1..] + y + z;
    }
  }

  /** `xs.join(sep)` for a one-character separator. */
  function Join(xs: seq<string>, sep: char): string {
    if |xs| == 0 then ""
    else if |xs| == 1 then xs[0]
    else xs[0] + [sep] + Join(xs[1..], sep)
  }

  /** `s.split(sep)` for a one-character separator: the pieces between the separators. */
  function Split(s: string, sep: char): (pieces: seq<string>)
    ensures |pieces| > 0
  {
    if |s| == 0 then [""]
    else if s[0] == sep then [""] + Split(s[1..], sep)
    else
      var rest := Split(s[1..], sep);
      [[s[0]] + rest[0]] + rest[1..]
  }

  /** No piece contains the separator. */
  predicate Free(xs: seq<string>, sep: char) {
    forall k :: 0 <= k < |xs| ==> sep !in xs[k]
  }

  lemma {:induction false} SplitNoSeparator(s: string, sep: char)
    requires sep !in s
    ensures Split(s, sep) == [s]
    decreases |s|
  {
    if |s| > 0 {
      assert sep !in s[1..] by {
        forall c | c in s[1..] ensures c != sep { assert c in s; }
      }
      SplitNoSeparator(s[1..], sep);
      assert [s[0]] + s[1..] == s;
    }
  }

  lemma {:induction false} SplitAfterPiece(a: string, sep: char, b: string)
    requires sep !in a
    ensures Split(a + [sep] + b, sep) == [a] + Split(b, sep)
    decreases |a|
  {
    if |a| == 0 {
      assert a + [sep] + b == [sep] + b;
      assert ([sep] + b)[1..] == b;
    } else {
      var s := a + [sep] + b;
      assert s[0] == a[0] && s[0] != sep;
      assert s[1..] == a[1..] + [sep] + b;
      assert sep !in a[1..] by {
        forall c | c in a[1..] ensures c != sep { assert c in a; }
      }
      SplitAfterPiece(a[1..], sep, b);
      assert [a[0]] + a[1..] == a;
    }
  }

  /** Splitting a joined list gives the list back, when no piece holds the separator. */
  lemma {:induction false} SplitJoin(xs: seq<string>, sep: char)
    requires |xs| > 0 && Free(xs, sep)
    ensures Split(Join(xs, sep), sep) == xs
    decreases |xs|
  {
    if |xs| == 1 {
      SplitNoSeparator(xs[0], sep);
    } else {
      SplitJoin(xs[1..], sep);
      SplitAfterPiece(xs[0], sep, Join(xs[1..], sep));
      assert [xs[0]] + xs[1..] == xs;
    }
  }

  /** Joining pieces that are free of `c` with a separator other than `c` gives a text free of `c`. */
  lemma {:induction false} JoinFree(xs: seq<string>, sep: char, c: char)
    requires Free(xs, c) && sep != c
    ensures c !in Join(xs, sep)
    decreases |xs|
  {
    if |xs| > 1 {
      JoinFree(xs[1..], sep, c);
      assert xs[0] + [sep] + Join(xs[1..], sep) == Join(xs, sep);
    }
  }

  predicate IsDigit(c: char) {
    '0' <= c <= '9'
  }

  predicate AllDigits(s: string) {
    forall i :: 0 <= i < |s| ==> IsDigit(s[i])
  }

  function DigitChar(d: nat): (c: char)
    requires d < 10
    ensures IsDigit(c) && (c as int) - ('0' as int) == d
  {
    ((d + '0' as int) as char)
  }

  /** The number a string of decimal digits denotes. */
  function DecimalValue(s: string): nat
    requires AllDigits(s)
  {
    if s == [] then 0
    else 10 * DecimalValue(s[..|s| - 1]) + ((s[|s| - 1] as int) - ('0' as int))
  }

  /** `String(n)` for a natural number: the shortest decimal digits that denote `n`. */
  function NatToDecimal(n: nat): (r: string)
    ensures |r| > 0 && AllDigits(r)
    ensures DecimalValue(r) == n
    ensures r[0] == '0' ==> n == 0
  {
    if n < 10 then [DigitChar(n)]
    else
      var r := NatToDecimal(n / 10) + [DigitChar(n % 10)];
      assert r[..|r| - 1] == NatToDecimal(n / 10);
      r
  }

  /** `String(n)` for an integer: a minus sign before the digits of a negative number. */
  function IntToDecimal(n: int): (r: string)
    ensures n >= 0 ==> r == NatToDecimal(n)
    ensures n < 0 ==> r == "-" + NatToDecimal(-n)
  {
    if n < 0 then "-" + NatToDecimal(-n) else NatToDecimal(n)
  }

  /** Different numbers are rendered differently. */
  lemma NatToDecimalInjective(m: nat, n: nat)
    ensures NatToDecimal(m) == NatToDecimal(n) ==> m == n
  {
  }
}
