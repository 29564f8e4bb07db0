/** The few JavaScript built-ins the modelled components rely on:
    String.prototype.trim, split(' '), Array.prototype.join, toLowerCase,
    includes, padStart(2, '0'), Number.prototype.toString, parseInt, and the
    arithmetic of Math.floor and the truncating `%` operator.
    `undefined` and `null` are both modelled as None. */
module JsBuiltins {

  datatype Option<+T> = None | Some(value: T)

  // ---------------------------------------------------------------------------
  // Characters and lower-casing
  // ---------------------------------------------------------------------------

  /** The WhiteSpace and LineTerminator code points that `trim` removes. */
  predicate IsSpace(c: char) {
    c == ' ' || c == '\t' || c == '\n' || c == '\r' ||
    c == '\U{000B}' || c == '\U{000C}' || c == '\U{00A0}' || c == '\U{1680}' ||
    ('\U{2000}' <= c <= '\U{200A}') || c == '\U{2028}' || c == '\U{2029}' ||
    c == '\U{202F}' || c == '\U{205F}' || c == '\U{3000}' || c == '\U{FEFF}'
  }

  predicate IsDigit(c: char) {
    '0' <= c <= '9'
  }

  function LowerChar(c: char): (d: char)
    ensures 'A' <= c <= 'Z' ==> d as int == c as int + 32
    ensures !('A' <= c <= 'Z') ==> d == c
  {
    if 'A' <= c <= 'Z' then (c as int + 32) as char else c
  }

  /** toLowerCase, for the ASCII letters. */
  function ToLower(s: string): (t: string)
    ensures |t| == |s|
    ensures forall i :: 0 <= i < |s| ==> t[i] == LowerChar(s[i])
  {
    seq(|s|, i requires 0 <= i < |s| => LowerChar(s[i]))
  }

  lemma ToLowerIdempotent(s: string)
    ensures ToLower(ToLower(s)) == ToLower(s)
  {
    forall i | 0 <= i < |s|
      ensures ToLower(ToLower(s))[i] == ToLower(s)[i]
    {
      var c := s[i];
      if 'A' <= c <= 'Z' {
        assert 'a' <= LowerChar(c) <= 'z';
      }
    }
  }

  /** `s.includes(p)`: p occurs as a contiguous block of s. */
  predicate Includes(s: string, p: string) {
    (|p| <= |s| && s[..|p|] == p) || (|s| > 0 && Includes(s[1..], p))
  }

  // ---------------------------------------------------------------------------
  // trim
  // ---------------------------------------------------------------------------

  function TrimStart(s: string): (t: string)
    ensures |t| <= |s| && t == s[|s| - |t|..]
    ensures t == [] || !IsSpace(t[0])
    ensures forall i :: 0 <= i < |s| - |t| ==> IsSpace(s[i])
  {
    if |s| > 0 && IsSpace(s[0]) then TrimStart(s[1..]) else s
  }

  function TrimEnd(s: string): (t: string)
    ensures |t| <= |s| && t == s[..|t|]
    ensures t == [] || !IsSpace(t[|t| - 1])
    ensures forall i :: |t| <= i < |s| ==> IsSpace(s[i])
  {
    if |s| > 0 && IsSpace(s[|s| - 1]) then TrimEnd(s[..|s| - 1]) else s
  }

  /** String.prototype.trim: both ends stripped of white space. */
  function Trim(s: string): (t: string)
  {
    TrimEnd(TrimStart(s))
  }

  /** A string trims to nothing exactly when every character of it is white space. */
  lemma {:induction false} TrimBlankIffAllSpace(s: string)
    ensures Trim(s) == [] <==> forall i :: 0 <= i < |s| ==> IsSpace(s[i])
  {
    var u := TrimStart(s);
    var k := |s| - |u|;
    if forall i :: 0 <= i < |s| ==> IsSpace(s[i]) {
      assert u == [];
    } else {
      var i :| 0 <= i < |s| && !IsSpace(s[i]);
      assert i >= k;
      assert s[i] == u[i - k];
      assert |Trim(s)| > i - k;
    }
  }

  // ---------------------------------------------------------------------------
  // split(' ') and join(' ')
  // ---------------------------------------------------------------------------

  /** `s.split(' ')`: the pieces between single spaces; two adjacent spaces
      give an empty piece, and the empty string gives one empty piece. */
  function Split(s: string): (parts: seq<string>)
    ensures |parts| >= 1
  {
    if |s| == 0 then [""]
    else if s[0] == ' ' then [""] + Split(s[1..])
    else
      var rest := Split(s[1..]);
      [[s[0]] + rest[0]] + rest[1..]
  }

  /** `parts.join(sep)`. */
  function Join(parts: seq<string>, sep: string): string
  {
    if |parts| == 0 then ""
    else if |parts| == 1 then parts[0]
    else parts[0] + sep + Join(parts[1..], sep)
  }

  /** Joining the pieces of `split(' ')` with a single space gives back the
      original string. */
  lemma {:induction false} JoinSplit(s: string)
    ensures Join(Split(s), " ") == s
  {
    if |s| > 0 {
      var rest := Split(s[1..]);
      JoinSplit(s[1..]);
      if s[0] == ' ' {
        JoinCons("", rest);
      } else {
        JoinExtendFirst(s[0], rest);
      }
      assert [s[0]] + s[1..] == s;
    }
  }

  lemma {:induction false} JoinCons(a: string, rest: seq<string>)
    requires |rest| >= 1
    ensures Join([a] + rest, " ") == a + " " + Join(rest, " ")
  {
    var p := [a] + rest;
    assert p[0] == a && p[1..] == rest;
  }

  /** Putting a character in front of the first piece puts it in front of
      the joined text. */
  lemma {:induction false} JoinExtendFirst(c: char, parts: seq<string>)
    requires |parts| >= 1
    ensures Join([[c] + parts[0]] + parts[1..], " ") == [c] + Join(parts, " ")
  {
    var head := [c] + parts[0];
    var p := [head] + parts[1..];
    if |parts| == 1 {
      assert p == [head];
      assert Join(parts, " ") == parts[0];
    } else {
      var tail := Join(parts[1..], " ");
      assert p[0] == head && p[1..] == parts[1..];
      assert Join(p, " ") == head + " " + tail;
      assert Join(parts, " ") == parts[0] + " " + tail;
      assert head + " " + tail == [c] + (parts[0] + " " + tail);
    }
  }

  /** A word without spaces is a single piece. */
  lemma {:induction false} SplitWord(w: string)
    requires ' ' !in w
    ensures Split(w) == [w]
  {
    if |w| > 0 {
      SplitWord(w[1..]);
      assert [w[0]] + w[1..] == w;
    }
  }

  /** A word without spaces followed by a space is the first piece, and the
      rest is split on its own. */
  lemma {:induction false} SplitAfterWord(w: string, r: string)
    requires ' ' !in w
    ensures Split(w + " " + r) == [w] + Split(r)
  {
    if |w| == 0 {
      assert w + " " + r == [' '] + r;
      assert (w + " " + r)[1..] == r;
    } else {
      SplitAfterWord(w[1..], r);
      assert (w + " " + r)[1..] == w[1..] + " " + r;
      assert [w[0]] + w[1..] == w;
    }
  }

  /** The text after the first space of s, or "" when s has no space:
      what `s.split(' ').slice(1).join(' ')` yields. */
  lemma SplitTailJoin(s: string, i: nat)
    requires i < |s| && s[i] == ' ' && ' ' !in s[..i]
    ensures Join(Split(s)[1..], " ") == s[i + 1..]
  {
    assert s == s[..i] + " " + s[i + 1..];
    SplitAfterWord(s[..i], s[i + 1..]);
    assert Split(s)[1..] == Split(s[i + 1..]);
    JoinSplit(s[i + 1..]);
  }

  // ---------------------------------------------------------------------------
  // Numbers and their decimal text
  // ---------------------------------------------------------------------------

  function DigitChar(d: nat): (c: char)
    requires d < 10
    ensures IsDigit(c)
  {
    ('0' as int + d) as char
  }

  function DigitValue(c: char): (d: nat)
    requires IsDigit(c)
    ensures d < 10 && DigitChar(d) == c
  {
    c as int - '0' as int
  }

  /** The decimal digits of n, without leading zeros. */
  function Digits(n: nat): (s: string)
    ensures |s| >= 1 && forall i :: 0 <= i < |s| ==> IsDigit(s[i])
    ensures n < 10 <==> |s| == 1
  {
    if n < 10 then [DigitChar(n)] else Digits(n / 10) + [DigitChar(n % 10)]
  }

  /** The value of a string of decimal digits ("" reads as 0). */
  function DigitsValue(s: string): nat
    requires forall i :: 0 <= i < |s| ==> IsDigit(s[i])
  {
    if |s| == 0 then 0 else 10 * DigitsValue(s[..|s| - 1]) + DigitValue(s[|s| - 1])
  }

  lemma {:induction false} DigitsRoundTrip(n: nat)
    ensures DigitsValue(Digits(n)) == n
  {
    if n >= 10 {
      DigitsRoundTrip(n / 10);
      var s := Digits(n);
      assert s[..|s| - 1] == Digits(n / 10);
    }
  }

  /** Number.prototype.toString for an integer. */
  function IntToString(n: int): string
  {
    if n < 0 then "-" + Digits(-n) else Digits(n)
  }

  /** `s.padStart(2, '0')`. */
  function PadStart2(s: string): (t: string)
    ensures |t| == if |s| < 2 then 2 else |s|
    ensures t[|t| - |s|..] == s
  {
    if |s| >= 2 then s else if |s| == 1 then "0" + s else "00"
  }

  /** Math.floor applied to x / 1, towards minus infinity. */
  function Floor(x: real): int
  {
    x.Floor
  }

  /** Truncation towards zero. */
  function Trunc(x: real): (t: int)
    ensures x >= 0.0 ==> t == x.Floor
  {
    if x >= 0.0 then x.Floor else -((-x).Floor)
  }

  /** The JavaScript `%` on numbers: the remainder takes the sign of x. */
  function JsRem(x: real, y: real): real
    requires y != 0.0
  {
    x - y * Trunc(x / y) as real
  }

  /** The maximal run of decimal digits at the start of s. */
  function LeadingDigits(s: string): (d: string)
    ensures |d| <= |s| && d == s[..|d|]
    ensures forall i :: 0 <= i < |d| ==> IsDigit(s[i])
    ensures |d| == |s| || !IsDigit(s[|d|])
  {
    if |s| > 0 && IsDigit(s[0]) then [s[0]] + LeadingDigits(s[1..]) else ""
  }

  /** parseInt(s) with no radix, for decimal text: leading white space is
      skipped, then an optional sign and the longest run of digits; None stands
      for NaN (no digit). */
  function ParseInt(s: string): Option<int>
  {
    var t := TrimStart(s);
    var neg := |t| > 0 && t[0] == '-';
    var body := if |t| > 0 && (t[0] == '-' || t[0] == '+') then t[1..] else t;
    var d := LeadingDigits(body);
    if |d| == 0 then None
    else if neg then Some(-(DigitsValue(d) as int))
    else Some(DigitsValue(d))
  }

  /** For a string of digits, parseInt reads its decimal value. */
  lemma {:induction false} ParseIntOfDigits(s: string)
    requires |s| > 0 && forall i :: 0 <= i < |s| ==> IsDigit(s[i])
    ensures ParseInt(s) == Some(DigitsValue(s))
  {
    assert !IsSpace(s[0]) && s[0] != '-' && s[0] != '+';
    assert TrimStart(s) == s;
    LeadingDigitsAll(s);
  }

  lemma {:induction false} LeadingDigitsAll(s: string)
    requires forall i :: 0 <= i < |s| ==> IsDigit(s[i])
    ensures LeadingDigits(s) == s
  {
    if |s| > 0 {
      LeadingDigitsAll(s[1..]);
      assert [s[0]] + s[1..] == s;
    }
  }
}
