/** The few C library behaviours the core relies on, stated on Dafny values:
    strlcpy truncation, unsigned conversion, strncasecmp, atoi and the
    printf conversions %d and %02d.  Characters stand for bytes. */
module LibC {

  /** An `unsigned int` of a 32-bit C target. */
  type Uint32 = x: int | 0 <= x < 0x1_0000_0000

  /** Conversion of any integer to `unsigned int`: reduction modulo 2^32. */
  function ToUnsigned(n: int): (r: Uint32)
    ensures 0 <= n < 0x1_0000_0000 ==> r == n
    ensures -0x8000_0000 <= n < 0 ==> r >= 0x8000_0000
  {
    n % 0x1_0000_0000
  }

  /** `r` is the longest prefix of `s` with at most `max` characters. */
  predicate LongestPrefixWithin(r: string, s: string, max: nat) {
    r <= s && |r| == (if |s| <= max then |s| else max)
  }

  /** What `strlcpy(dst, src, size)` leaves in `dst`: the first size - 1
      characters of src, or all of src when it is shorter. */
  function Truncate(s: string, max: nat): (r: string)
    ensures |r| <= max
    ensures r <= s
    ensures |s| <= max ==> r == s
    ensures |s| > max ==> |r| == max
  {
    if |s| <= max then s else s[..max]
  }

  /** `tolower` in the C locale: only A-Z are changed. */
  function ToLower(c: char): char {
    if 'A' <= c <= 'Z' then (c as int - 'A' as int + 'a' as int) as char else c
  }

  function Lowered(s: string): (r: string)
    ensures |r| == |s|
    ensures forall i :: 0 <= i < |s| ==> r[i] == ToLower(s[i])
  {
    seq(|s|, i requires 0 <= i < |s| => ToLower(s[i]))
  }

  /** `strncasecmp(a, b, n) == 0` on C strings: the end of a string compares
      like the terminating NUL, so two strings agree up to n characters when
      they agree ignoring case and end at the same place, if they end before n. */
  predicate StrNCaseEq(a: string, b: string, n: nat) {
    if n == 0 then true
    else if a == [] || b == [] then a == [] && b == []
    else ToLower(a[0]) == ToLower(b[0]) && StrNCaseEq(a[1..], b[1..], n - 1)
  }

  /** Comparing a pattern of at least n characters with strncasecmp is
      asking whether the subject's first n characters match it ignoring case. */
  lemma {:induction false} StrNCaseEqPrefix(a: string, b: string, n: nat)
    requires |a| >= n
    ensures StrNCaseEq(a, b, n) <==> |b| >= n && Lowered(b[..n]) == Lowered(a[..n])
  {
    if n > 0 && b != [] {
      StrNCaseEqPrefix(a[1..], b[1..], n - 1);
      assert Lowered(a[..n]) == [ToLower(a[0])] + Lowered(a[1..][..n - 1]);
      if |b| >= n {
        assert Lowered(b[..n]) == [ToLower(b[0])] + Lowered(b[1..][..n - 1]);
      }
    }
  }

  predicate IsSpace(c: char) {
    c == ' ' || c == '\t' || c == '\n' || c == '\r' || c == '\U{000C}' || c == '\U{000B}'
  }

  predicate IsDigit(c: char) {
    '0' <= c <= '9'
  }

  predicate AllDigits(s: string) {
    forall i :: 0 <= i < |s| ==> IsDigit(s[i])
  }

  function DigitValue(c: char): nat
    requires IsDigit(c)
  {
    c as int - '0' as int
  }

  function DigitChar(d: nat): (c: char)
    requires d < 10
    ensures IsDigit(c) && DigitValue(c) == d
  {
    ('0' as int + d) as char
  }

  /** The value of a string of decimal digits, most significant first. */
  function DigitsValue(ds: string): nat
    requires AllDigits(ds)
  {
    if ds == [] then 0 else DigitsValue(ds[..|ds| - 1]) * 10 + DigitValue(ds[|ds| - 1])
  }

  function SkipSpace(s: string): (r: string)
    ensures r <= s || (|r| <= |s| && r == s[|s| - |r|..])
    ensures r != [] ==> !IsSpace(r[0])
  {
    if s != [] && IsSpace(s[0]) then SkipSpace(s[1..]) else s
  }

  /** The longest prefix of s made of digits. */
  function LeadingDigits(s: string): (r: string)
    ensures AllDigits(r) && r <= s
    ensures |r| < |s| ==> !IsDigit(s[|r|])
  {
    if s != [] && IsDigit(s[0]) then [s[0]] + LeadingDigits(s[1..]) else []
  }

  /** The number `strtol(s, NULL, 10)` reads before any range clamping:
      leading white space, an optional sign, then the longest run of digits;
      no digits at all reads as 0. */
  function StrtolValue(s: string): int {
    var t := SkipSpace(s);
    if t != [] && t[0] == '-' then -(DigitsValue(LeadingDigits(t[1..])) as int)
    else if t != [] && t[0] == '+' then DigitsValue(LeadingDigits(t[1..]))
    else DigitsValue(LeadingDigits(t))
  }

  const LongMin: int := -0x8000_0000_0000_0000
  const LongMax: int := 0x7fff_ffff_ffff_ffff

  /** `atoi` as the GNU C library computes it on an LP64 target:
      `(int) strtol(s, NULL, 10)`, where strtol saturates at the bounds of
      `long` and the conversion to `int` keeps the low 32 bits. */
  function Atoi(s: string): (r: int)
    ensures -0x8000_0000 <= r < 0x8000_0000
    ensures -0x8000_0000 <= StrtolValue(s) < 0x8000_0000 ==> r == StrtolValue(s)
  {
    var v := StrtolValue(s);
    var clamped := if v < LongMin then LongMin else if v > LongMax then LongMax else v;
    var low := clamped % 0x1_0000_0000;
    if low >= 0x8000_0000 then low - 0x1_0000_0000 else low
  }

  /** printf's %d of a non-negative number. */
  function Natural(n: nat): (s: string)
    ensures s != [] && AllDigits(s)
  {
    if n < 10 then [DigitChar(n)] else Natural(n / 10) + [DigitChar(n % 10)]
  }

  /** printf's %d. */
  function Decimal(n: int): string {
    if n < 0 then "-" + Natural(-n) else Natural(n)
  }

  /** printf's %02d: zero padded to two characters (after any sign). */
  function Pad2(n: int): string {
    if 0 <= n < 10 then "0" + Natural(n) else Decimal(n)
  }

  lemma {:induction false} NaturalValue(n: nat)
    ensures DigitsValue(Natural(n)) == n
  {
    if n >= 10 {
      NaturalValue(n / 10);
      var s := Natural(n);
      assert s[..|s| - 1] == Natural(n / 10);
    }
  }

  lemma LeadingDigitsOfDigits(s: string)
    requires AllDigits(s)
    ensures LeadingDigits(s) == s
  {
    if s != [] {
      LeadingDigitsOfDigits(s[1..]);
    }
  }

  /** strtol reads back the digits %d writes for a non-negative number. */
  lemma StrtolNatural(m: nat)
    ensures StrtolValue(Natural(m)) == m
  {
    var s := Natural(m);
    assert SkipSpace(s) == s;
    LeadingDigitsOfDigits(s);
    NaturalValue(m);
  }

  /** strtol reads back the minus sign and digits %d writes for a negative number. */
  lemma StrtolNegative(m: nat)
    requires m > 0
    ensures StrtolValue("-" + Natural(m)) == -(m as int)
  {
    var s := "-" + Natural(m);
    assert SkipSpace(s) == s;
    assert s[1..] == Natural(m);
    LeadingDigitsOfDigits(Natural(m));
    NaturalValue(m);
  }

  /** atoi reads back every `int` that printf's %d writes. */
  lemma AtoiDecimal(n: int)
    requires -0x8000_0000 <= n < 0x8000_0000
    ensures Atoi(Decimal(n)) == n
  {
    if n < 0 {
      StrtolNegative(-n);
    } else {
      StrtolNatural(n);
    }
  }
}
