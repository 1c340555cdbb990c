/**
 * String helpers that stand for the parts of std::string and of the C
 * library that the chat program relies on: find, rfind, the C-string view
 * of a buffer, std::to_string, and the digit parsing done by atoi and by
 * stream extraction.
 */
module Text {
  import opened Wrappers

  /** std::string::find for one character: the first index of c in s, if any. */
  function IndexOf(s: string, c: char): (r: Option<nat>)
    ensures r.Some? ==> r.value < |s| && s[r.value] == c
    ensures r.Some? ==> forall j :: 0 <= j < r.value ==> s[j] != c
    ensures r.None? <==> c !in s
  {
    if s == [] then None
    else if s[0] == c then Some(0)
    else match IndexOf(s[1..], c)
      case None => None
      case Some(i) => Some(i + 1)
  }

  /** An occurrence with no earlier occurrence before it is the one find reports. */
  lemma FirstIndex(s: string, c: char, k: nat)
    requires k < |s| && s[k] == c && c !in s[..k]
    ensures IndexOf(s, c) == Some(k)
  {
  }

  /** std::string::rfind for one character: the last index of c in s, if any. */
  function LastIndexOf(s: string, c: char): (r: Option<nat>)
    ensures r.Some? ==> r.value < |s| && s[r.value] == c
    ensures r.Some? ==> forall j :: r.value < j < |s| ==> s[j] != c
    ensures r.None? <==> c !in s
  {
    if s == [] then None
    else if s[|s| - 1] == c then Some(|s| - 1)
    else LastIndexOf(s[..|s| - 1], c)
  }

  /** The first and the last occurrence of c coincide exactly when c occurs once. */
  lemma {:induction false} SingleOccurrence(s: string, c: char)
    ensures (IndexOf(s, c).Some? && IndexOf(s, c) == LastIndexOf(s, c)) <==> multiset(s)[c] == 1
  {
    match IndexOf(s, c)
    case None =>
    case Some(i) =>
      assert s == s[..i] + [c] + s[i + 1..];
      assert c !in s[..i];
      calc {
        multiset(s)[c];
        multiset(s[..i])[c] + multiset([c])[c] + multiset(s[i + 1..])[c];
        1 + multiset(s[i + 1..])[c];
      }
      var k := LastIndexOf(s, c).value;
      if k == i {
      } else {
        assert i < k;
        assert s[i + 1..][k - i - 1] == c;
        assert c in s[i + 1..];
      }
  }

  /**
   * The text an std::string gets from `+= buffer.data()`: the bytes of a
   * received chunk up to, not including, its first NUL.
   */
  function CString(chunk: string): (r: string)
    ensures r <= chunk && '\0' !in r
    ensures |r| < |chunk| ==> chunk[|r|] == '\0'
  {
    match IndexOf(chunk, '\0')
    case None => chunk
    case Some(i) => chunk[..i]
  }

  predicate IsDigit(c: char) { '0' <= c <= '9' }

  function DigitValue(c: char): (r: nat)
    requires IsDigit(c)
    ensures r < 10
  {
    (c as int) - ('0' as int)
  }

  /** The longest prefix of s made of decimal digits. */
  function LeadingDigits(s: string): (r: string)
    ensures r <= s
    ensures forall i :: 0 <= i < |r| ==> IsDigit(r[i])
    ensures |r| < |s| ==> !IsDigit(s[|r|])
  {
    if s != [] && IsDigit(s[0]) then [s[0]] + LeadingDigits(s[1..]) else []
  }

  /** The number a string of decimal digits denotes. */
  function DigitsValue(d: string): nat
    requires forall i :: 0 <= i < |d| ==> IsDigit(d[i])
  {
    if d == [] then 0
    else DigitsValue(d[..|d| - 1]) * 10 + DigitValue(d[|d| - 1])
  }

  /** std::to_string for a non-negative number. */
  function Decimal(n: nat): (r: string)
    ensures r != [] && forall i :: 0 <= i < |r| ==> IsDigit(r[i])
  {
    var last := ['0' + (n % 10) as char];
    if n < 10 then last else Decimal(n / 10) + last
  }

  /** Printing a number and reading its digits back gives the number again. */
  lemma {:induction false} DecimalValue(n: nat)
    ensures DigitsValue(Decimal(n)) == n
  {
    var d := Decimal(n);
    if n >= 10 {
      DecimalValue(n / 10);
      assert d[..|d| - 1] == Decimal(n / 10);
    }
  }

  /** The digits of a printed number are read back in full when a non-digit (or nothing) follows. */
  lemma {:induction false} LeadingDigitsOfDecimal(n: nat, tail: string)
    requires tail == [] || !IsDigit(tail[0])
    ensures LeadingDigits(Decimal(n) + tail) == Decimal(n)
  {
    AllDigitsPrefix(Decimal(n), tail);
  }

  lemma {:induction false} AllDigitsPrefix(d: string, tail: string)
    requires forall i :: 0 <= i < |d| ==> IsDigit(d[i])
    requires tail == [] || !IsDigit(tail[0])
    ensures LeadingDigits(d + tail) == d
  {
    if d != [] {
      assert (d + tail)[1..] == d[1..] + tail;
      AllDigitsPrefix(d[1..], tail);
    }
  }

  /** The characters the classic locale counts as white space. */
  predicate IsSpace(c: char)
  {
    c == ' ' || c == '\t' || c == '\n' || c == '\U{B}' || c == '\U{C}' || c == '\r'
  }

  /** What is left of s once its leading white space is skipped. */
  function SkipSpace(s: string): (r: string)
    ensures |r| <= |s|
    ensures forall k :: 0 <= k < |s| - |r| ==> IsSpace(s[k])
    ensures r == [] || !IsSpace(r[0])
    ensures r == [] <==> forall k :: 0 <= k < |s| ==> IsSpace(s[k])
    decreases |s|
  {
    if s != [] && IsSpace(s[0]) then SkipSpace(s[1..]) else s
  }

  /** What SkipSpace leaves is the end of its input. */
  lemma {:induction false} SkipSpaceSuffix(s: string)
    ensures SkipSpace(s) == s[|s| - |SkipSpace(s)|..]
    decreases |s|
  {
    if s != [] && IsSpace(s[0]) {
      SkipSpaceSuffix(s[1..]);
      assert s[1..][|s| - 1 - |SkipSpace(s)|..] == s[|s| - |SkipSpace(s)|..];
    }
  }

  /**
   * The value of an unsigned short after `stream >> port`, where `prior` is
   * the value it held before. Leading white space is skipped; when nothing
   * is left the extraction fails before reading and the value keeps
   * `prior`. Otherwise the leading decimal digits are read: 0 when there
   * are none, and the largest unsigned short when they denote more.
   */
  function StreamUShort(s: string, prior: nat): (r: nat)
    requires prior < 0x1_0000
    ensures r < 0x1_0000
    ensures SkipSpace(s) == [] ==> r == prior
    ensures SkipSpace(s) != [] && LeadingDigits(SkipSpace(s)) == [] ==> r == 0
    ensures SkipSpace(s) != [] && DigitsValue(LeadingDigits(SkipSpace(s))) < 0x1_0000 ==> r == DigitsValue(LeadingDigits(SkipSpace(s)))
    ensures DigitsValue(LeadingDigits(SkipSpace(s))) >= 0x1_0000 ==> r == 0xFFFF
  {
    var t := SkipSpace(s);
    if t == [] then prior
    else
      var v := DigitsValue(LeadingDigits(t));
      if v > 0xFFFF then 0xFFFF else v
  }

  /**
   * The value of `static_cast<unsigned short>(atoi(s))`: leading white
   * space is skipped, then the leading decimal digits are read and reduced
   * modulo 2^16 by the cast.
   */
  function AtoiUShort(s: string): (r: nat)
    ensures r < 0x1_0000
    ensures DigitsValue(LeadingDigits(SkipSpace(s))) < 0x1_0000 ==> r == DigitsValue(LeadingDigits(SkipSpace(s)))
    ensures (DigitsValue(LeadingDigits(SkipSpace(s))) - r) % 0x1_0000 == 0
  {
    var v := DigitsValue(LeadingDigits(SkipSpace(s)));
    CastDifference(v);
    v % 0x1_0000
  }

  /** A number and its remainder modulo 2^16 differ by a multiple of 2^16. */
  lemma CastDifference(v: nat)
    ensures (v - v % 0x1_0000) % 0x1_0000 == 0
  {
    var q := v / 0x1_0000;
    assert v - v % 0x1_0000 == 0x1_0000 * q;
  }

  /** The non-empty strings of a list, in order. */
  function NonEmpty(lines: seq<string>): (r: seq<string>)
    ensures |r| <= |lines|
    ensures forall k :: 0 <= k < |r| ==> r[k] != ""
    ensures forall line :: line in r <==> line in lines && line != ""
  {
    if lines == [] then []
    else (if lines[0] != "" then [lines[0]] else []) + NonEmpty(lines[1..])
  }

  /** Filtering twice is filtering once. */
  lemma {:induction false} NonEmptyIdempotent(lines: seq<string>)
    ensures NonEmpty(NonEmpty(lines)) == NonEmpty(lines)
    decreases |lines|
  {
    if lines != [] {
      NonEmptyIdempotent(lines[1..]);
      var head := if lines[0] != "" then [lines[0]] else [];
      NonEmptyAppend(head, NonEmpty(lines[1..]));
    }
  }

  /** Filtering distributes over concatenation. */
  lemma {:induction false} NonEmptyAppend(a: seq<string>, b: seq<string>)
    ensures NonEmpty(a + b) == NonEmpty(a) + NonEmpty(b)
    decreases |a|
  {
    if a == [] {
      assert a + b == b;
    } else {
      assert (a + b)[0] == a[0] && (a + b)[1..] == a[1..] + b;
      NonEmptyAppend(a[1..], b);
    }
  }
}
