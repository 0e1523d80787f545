/** Small value-level helpers shared by the sitemap and SEO models: an Option
    type, decimal rendering of natural numbers, PHP's byte-wise string order and
    the character rewrites the formatters use. */
module Common {

  datatype Option<+T> = None | Some(value: T)

  /** The ten decimal digit characters, in value order. */
  const Digits: string := "0123456789"

  predicate IsDigit(c: char) {
    '0' <= c <= '9'
  }

  predicate AllDigits(s: string) {
    forall i :: 0 <= i < |s| ==> IsDigit(s[i])
  }

  function DigitChar(d: nat): (c: char)
    requires d < 10
    ensures IsDigit(c)
  {
    Digits[d]
  }

  function DigitValue(c: char): (d: nat)
    requires IsDigit(c)
    ensures d < 10
  {
    (c as int) - ('0' as int)
  }

  /** PHP's conversion of a non-negative int to a string (used in `'/?p=' . $post->ID`
      and in numbered file names). */
  function Decimal(n: nat): (s: string)
    ensures |s| >= 1 && AllDigits(s)
    ensures n < 10 <==> |s| == 1
    decreases n
  {
    if n < 10 then [DigitChar(n)] else Decimal(n / 10) + [DigitChar(n % 10)]
  }

  /** Reads back a non-empty string of decimal digits. */
  function ParseDecimal(s: string): nat
    requires |s| >= 1 && AllDigits(s)
    decreases |s|
  {
    if |s| == 1 then DigitValue(s[0])
    else 10 * ParseDecimal(s[..|s| - 1]) + DigitValue(s[|s| - 1])
  }

  /** Decimal rendering is undone by parsing, so distinct numbers give distinct names. */
  lemma {:induction false} DecimalRoundTrip(n: nat)
    ensures ParseDecimal(Decimal(n)) == n
    decreases n
  {
    if n >= 10 {
      var s := Decimal(n);
      assert s[..|s| - 1] == Decimal(n / 10);
      DecimalRoundTrip(n / 10);
    }
  }

  lemma DecimalInjective(m: nat, n: nat)
    requires Decimal(m) == Decimal(n)
    ensures m == n
  {
    DecimalRoundTrip(m);
    DecimalRoundTrip(n);
  }

  /** Byte-wise order of PHP strings (`strcmp(a, b) <= 0`); timestamps in the
      'Y-m-d H:i:s' form sort chronologically under it. */
  predicate LexLe(a: string, b: string)
    decreases |a|
  {
    if a == [] then true
    else if b == [] then false
    else if a[0] != b[0] then a[0] < b[0]
    else LexLe(a[1..], b[1..])
  }

  lemma {:induction false} LexLeTotal(a: string, b: string)
    ensures LexLe(a, b) || LexLe(b, a)
    decreases |a|
  {
    if a != [] && b != [] && a[0] == b[0] {
      LexLeTotal(a[1..], b[1..]);
    }
  }

  lemma {:induction false} LexLeTransitive(a: string, b: string, c: string)
    requires LexLe(a, b) && LexLe(b, c)
    ensures LexLe(a, c)
    decreases |a|
  {
    if a != [] && b != [] && c != [] && a[0] == b[0] && b[0] == c[0] {
      LexLeTransitive(a[1..], b[1..], c[1..]);
    }
  }

  lemma {:induction false} LexLeAntisymmetric(a: string, b: string)
    requires LexLe(a, b) && LexLe(b, a)
    ensures a == b
    decreases |a|
  {
    if a != [] && b != [] {
      LexLeAntisymmetric(a[1..], b[1..]);
      assert a == [a[0]] + a[1..];
      assert b == [b[0]] + b[1..];
    }
  }

  /** PHP's `max($a, $b)` on two timestamp strings. */
  function MaxTime(a: string, b: string): (m: string)
    ensures m == a || m == b
    ensures LexLe(a, m) && LexLe(b, m)
  {
    LexLeTotal(a, b);
    LexLeReflexive(a);
    LexLeReflexive(b);
    if LexLe(a, b) then b else a
  }

  lemma {:induction false} LexLeReflexive(a: string)
    ensures LexLe(a, a)
    decreases |a|
  {
    if a != [] {
      LexLeReflexive(a[1..]);
    }
  }

  /** `str_replace($from, $to, $s)` for single characters: every occurrence is replaced. */
  function ReplaceChar(s: string, from: char, to: char): (r: string)
    ensures |r| == |s|
    ensures forall i :: 0 <= i < |s| ==> r[i] == (if s[i] == from then to else s[i])
  {
    if s == [] then []
    else [if s[0] == from then to else s[0]] + ReplaceChar(s[1..], from, to)
  }

  predicate NoChar(s: string, c: char) {
    forall i :: 0 <= i < |s| ==> s[i] != c
  }

  /** Replacing a character that does not occur, after replacing it away, restores the input. */
  lemma ReplaceCharRoundTrip(s: string, from: char, to: char)
    requires from != to && NoChar(s, to)
    ensures ReplaceChar(ReplaceChar(s, from, to), to, from) == s
  {
    var r := ReplaceChar(ReplaceChar(s, from, to), to, from);
    assert |r| == |s|;
    forall i | 0 <= i < |s|
      ensures r[i] == s[i]
    {
    }
  }

  function AsciiLowerChar(c: char): (d: char)
    ensures !('A' <= d <= 'Z')
  {
    if 'A' <= c <= 'Z' then (c as int + 32) as char else c
  }

  /** `strtolower`, byte-wise on ASCII letters. */
  function AsciiLower(s: string): (r: string)
    ensures |r| == |s|
    ensures forall i :: 0 <= i < |s| ==> r[i] == AsciiLowerChar(s[i])
  {
    seq(|s|, i requires 0 <= i < |s| => AsciiLowerChar(s[i]))
  }

  /** The part of `s` before its first occurrence of `c` (all of `s` when there is none). */
  function Before(s: string, c: char): (r: string)
    ensures |r| <= |s| && r == s[..|r|]
    ensures NoChar(r, c)
    ensures |r| < |s| ==> s[|r|] == c
  {
    if s == [] then []
    else if s[0] == c then []
    else [s[0]] + Before(s[1..], c)
  }

  /** The number of bytes UTF-8 spends on one character (PHP strings are bytes). */
  function Utf8Width(c: char): (w: nat)
    ensures 1 <= w <= 4
    ensures w == 1 <==> (c as int) < 0x80
  {
    if (c as int) < 0x80 then 1
    else if (c as int) < 0x800 then 2
    else if (c as int) < 0x1_0000 then 3
    else 4
  }

  /** `strlen` of the UTF-8 encoding of `s`: never less than its character count. */
  function Utf8Length(s: string): (n: nat)
    ensures n >= |s|
    ensures n <= 4 * |s|
  {
    if s == [] then 0 else Utf8Width(s[0]) + Utf8Length(s[1..])
  }

  predicate IsAscii(s: string) {
    forall i :: 0 <= i < |s| ==> (s[i] as int) < 0x80
  }

  /** The byte length of a concatenation is the sum of the byte lengths. */
  lemma {:induction false} Utf8LengthAppend(a: string, b: string)
    ensures Utf8Length(a + b) == Utf8Length(a) + Utf8Length(b)
  {
    if a == [] {
      assert a + b == b;
    } else {
      assert (a + b)[1..] == a[1..] + b;
      Utf8LengthAppend(a[1..], b);
    }
  }

  /** An ASCII string takes one byte per character. */
  lemma {:induction false} Utf8LengthAscii(s: string)
    requires IsAscii(s)
    ensures Utf8Length(s) == |s|
  {
    if s != [] {
      assert IsAscii(s[1..]) by {
        forall i | 0 <= i < |s[1..]| ensures (s[1..][i] as int) < 0x80 {
          assert s[1..][i] == s[i + 1];
        }
      }
      Utf8LengthAscii(s[1..]);
    }
  }

  /** Decimal numerals are ASCII. */
  lemma DecimalAscii(n: nat)
    ensures IsAscii(Decimal(n))
  {
    var d := Decimal(n);
    forall i | 0 <= i < |d| ensures (d[i] as int) < 0x80 {
      assert IsDigit(d[i]);
    }
  }

  /** A string repeating one character takes that character's width per character. */
  lemma {:induction false} Utf8LengthUniform(s: string, c: char)
    requires forall i :: 0 <= i < |s| ==> s[i] == c
    ensures Utf8Length(s) == |s| * Utf8Width(c)
  {
    if s != [] {
      assert forall i :: 0 <= i < |s[1..]| ==> s[1..][i] == s[i + 1];
      Utf8LengthUniform(s[1..], c);
    }
  }
}
