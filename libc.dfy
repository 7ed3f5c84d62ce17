/** The pieces of the C library the firmware leans on for text: `isspace` and
    `isdigit` in the "C" locale, `atoi` (section 7.22.1.2 of ISO C11, which
    defines it as `strtol` in base 10 without error reporting), `strcmp`, and
    the decimal spelling of a natural number, which is what the preprocessor's
    `#` operator produces for a decimal integer literal written without leading
    zeros or suffix. Strings are `seq<char>`; the terminating
    NUL of a C string is not stored but read past the end (see `At`). */
module LibC {

  /** `isspace` in the "C" locale: space, tab, newline, vertical tab, form feed, carriage return. */
  predicate IsSpace(c: char) {
    c == ' ' || c == '\t' || c == '\n' || c == '\r' || c as int == 0x0B || c as int == 0x0C
  }

  /** `isdigit`: the ten decimal digits. */
  predicate IsDigit(c: char) {
    '0' <= c <= '9'
  }

  function DigitValue(c: char): (d: nat)
    requires IsDigit(c)
    ensures d < 10
  {
    c as int - '0' as int
  }

  function DigitChar(d: nat): (c: char)
    requires d < 10
    ensures IsDigit(c) && DigitValue(c) == d
  {
    ('0' as int + d) as char
  }

  /** Number of leading white-space characters, the prefix `atoi` skips. */
  function LeadingSpace(s: string): (k: nat)
    ensures k <= |s|
  {
    if |s| == 0 || !IsSpace(s[0]) then 0 else 1 + LeadingSpace(s[1..])
  }

  /** Length of the maximal run of digits at the start of `s`. */
  function DigitRun(s: string): (k: nat)
    ensures k <= |s|
  {
    if |s| == 0 || !IsDigit(s[0]) then 0 else 1 + DigitRun(s[1..])
  }

  /** `LeadingSpace` counts white space only, and all of it. */
  lemma {:induction false} LeadingSpaceSpec(s: string)
    ensures forall j :: 0 <= j < LeadingSpace(s) ==> IsSpace(s[j])
    ensures LeadingSpace(s) == |s| || !IsSpace(s[LeadingSpace(s)])
  {
    if |s| > 0 && IsSpace(s[0]) {
      LeadingSpaceSpec(s[1..]);
    }
  }

  /** `DigitRun` counts digits only, and all of them. */
  lemma {:induction false} DigitRunSpec(s: string)
    ensures forall j :: 0 <= j < DigitRun(s) ==> IsDigit(s[j])
    ensures DigitRun(s) == |s| || !IsDigit(s[DigitRun(s)])
  {
    if |s| > 0 && IsDigit(s[0]) {
      DigitRunSpec(s[1..]);
    }
  }

  /** The two properties that `LeadingSpace` has determine it. */
  lemma LeadingSpaceUnique(s: string, k: nat)
    requires k <= |s|
    requires forall j :: 0 <= j < k ==> IsSpace(s[j])
    requires k == |s| || !IsSpace(s[k])
    ensures LeadingSpace(s) == k
  {
    LeadingSpaceSpec(s);
  }

  predicate AllDigits(d: string) {
    forall j :: 0 <= j < |d| ==> IsDigit(d[j])
  }

  /** The value of a string of decimal digits, most significant first; the empty string is 0. */
  function DigitsValue(d: string): (v: nat)
    requires AllDigits(d)
  {
    if |d| == 0 then 0 else DigitsValue(d[..|d| - 1]) * 10 + DigitValue(d[|d| - 1])
  }

  /** The maximal run of digits that starts `u`. */
  function LeadingDigits(u: string): string {
    u[..DigitRun(u)]
  }

  /** `LeadingDigits` is a prefix made of digits, and it stops only at the end or at a non-digit. */
  lemma LeadingDigitsSpec(u: string)
    ensures LeadingDigits(u) <= u && AllDigits(LeadingDigits(u))
    ensures |LeadingDigits(u)| == |u| || !IsDigit(u[|LeadingDigits(u)|])
  {
    DigitRunSpec(u);
  }

  /** Appending a digit multiplies the value by ten and adds the digit. */
  lemma DigitsValueAppend(d: string, c: char)
    requires AllDigits(d) && IsDigit(c)
    ensures AllDigits(d + [c])
    ensures DigitsValue(d + [c]) == DigitsValue(d) * 10 + DigitValue(c)
  {
    assert (d + [c])[..|d|] == d;
  }

  /** The text after the leading white space and an optional sign. */
  function AfterSign(t: string): string {
    if |t| > 0 && (t[0] == '-' || t[0] == '+') then t[1..] else t
  }

  /** What `atoi` makes of the text after the leading white space: an
      optional sign, then the longest run of digits; no digits gives 0. */
  function SignedDigits(t: string): int {
    var u := AfterSign(t);
    LeadingDigitsSpec(u);
    var m: int := DigitsValue(LeadingDigits(u));
    if |t| > 0 && t[0] == '-' then -m else m
  }

  /** `atoi`: skip white space, then read an optional sign and digits. The
      result is an unbounded integer (the C behaviour outside the range of
      `int` is undefined). */
  function Atoi(s: string): int {
    SignedDigits(s[LeadingSpace(s)..])
  }

  /** The two properties that `DigitRun` promises determine it. */
  lemma DigitRunUnique(u: string, k: nat)
    requires k <= |u|
    requires AllDigits(u[..k])
    requires k == |u| || !IsDigit(u[k])
    ensures DigitRun(u) == k
  {
    assert forall j :: 0 <= j < k ==> u[..k][j] == u[j];
    DigitRunSpec(u);
  }

  /** The white-space scan of `atoi`: the index of the first non-space character. */
  method ScanSpace(s: string) returns (i: nat)
    ensures i == LeadingSpace(s)
  {
    i := 0;
    while i < |s| && IsSpace(s[i])
      invariant i <= |s|
      invariant forall j :: 0 <= j < i ==> IsSpace(s[j])
    {
      i := i + 1;
    }
    LeadingSpaceUnique(s, i);
  }

  /** The digit scan of `atoi`: from `start`, accumulate the magnitude one
      digit at a time; `end` is where the run of digits stops. */
  method ScanDigits(s: string, start: nat) returns (m: nat, end: nat)
    requires start <= |s|
    ensures end == start + DigitRun(s[start..])
    ensures AllDigits(LeadingDigits(s[start..])) && m == DigitsValue(LeadingDigits(s[start..]))
  {
    end, m := start, 0;
    while end < |s| && IsDigit(s[end])
      invariant start <= end <= |s|
      invariant AllDigits(s[start..end])
      invariant m == DigitsValue(s[start..end])
    {
      assert s[start..end + 1] == s[start..end] + [s[end]];
      DigitsValueAppend(s[start..end], s[end]);
      m := m * 10 + DigitValue(s[end]);
      end := end + 1;
    }
    ghost var u := s[start..];
    assert u[..end - start] == s[start..end];
    assert end < |s| ==> u[end - start] == s[end];
    DigitRunUnique(u, end - start);
  }

  /** `atoi` as a C library scans it: white space, an optional sign, then
      digits accumulated one at a time. */
  method ScanAtoi(s: string) returns (n: int)
    ensures n == Atoi(s)
  {
    var i := ScanSpace(s);
    ghost var t := s[i..];
    var negative := false;
    if i < |s| && (s[i] == '-' || s[i] == '+') {
      negative := s[i] == '-';
      i := i + 1;
    }
    assert s[i..] == AfterSign(t);
    var m, _ := ScanDigits(s, i);
    n := if negative then -(m as int) else m;
  }

  /** The decimal spelling of a natural number, without leading zeros. */
  function Decimal(n: nat): (s: string)
    ensures |s| > 0 && AllDigits(s)
    decreases n
  {
    if n < 10 then [DigitChar(n)] else Decimal(n / 10) + [DigitChar(n % 10)]
  }

  /** The spelling of an integer as `%d` would print it. */
  function IntText(i: int): string {
    if i < 0 then "-" + Decimal(-i) else Decimal(i)
  }

  lemma {:induction false} DecimalValue(n: nat)
    ensures DigitsValue(Decimal(n)) == n
    decreases n
  {
    if n >= 10 {
      var d := Decimal(n);
      assert d[..|d| - 1] == Decimal(n / 10);
      DecimalValue(n / 10);
    }
  }

  /** A run of digits followed by text that does not start with a digit is read back exactly. */
  lemma DigitRunOfDigits(d: string, rest: string)
    requires AllDigits(d)
    requires rest == [] || !IsDigit(rest[0])
    ensures DigitRun(d + rest) == |d|
    ensures (d + rest)[..|d|] == d
  {
    var s := d + rest;
    assert s[..|d|] == d;
    assert |d| < |s| ==> s[|d|] == rest[0];
    DigitRunUnique(s, |d|);
  }

  /** `atoi` reads back the printed form of any integer, whatever non-digit text follows it. */
  lemma AtoiIntText(i: int, rest: string)
    requires rest == [] || !IsDigit(rest[0])
    ensures Atoi(IntText(i) + rest) == i
  {
    var s := IntText(i) + rest;
    var mag: nat := if i < 0 then -i else i;
    var d := Decimal(mag);
    assert s[0] == IntText(i)[0];
    assert LeadingSpace(s) == 0;
    assert s[0..] == s;
    if i < 0 {
      assert s == "-" + (d + rest);
      assert AfterSign(s) == d + rest;
    } else {
      assert s == d + rest;
      assert AfterSign(s) == d + rest;
    }
    DigitRunOfDigits(d, rest);
    DecimalValue(mag);
  }

  /** Leading white space never changes what `atoi` returns. */
  lemma {:induction false} AtoiSkipsSpace(ws: string, s: string)
    requires forall j :: 0 <= j < |ws| ==> IsSpace(ws[j])
    ensures Atoi(ws + s) == Atoi(s)
    decreases |ws|
  {
    if |ws| > 0 {
      assert (ws + s)[1..] == ws[1..] + s;
      AtoiSkipsSpace(ws[1..], s);
      var k := LeadingSpace(ws[1..] + s);
      assert LeadingSpace(ws + s) == 1 + k;
      assert (ws + s)[1 + k..] == (ws[1..] + s)[k..];
    } else {
      assert ws + s == s;
    }
  }

  /** Text with no digit after the white space and sign gives 0. */
  lemma AtoiNoDigits(s: string)
    requires var u := AfterSign(s[LeadingSpace(s)..]); u == [] || !IsDigit(u[0])
    ensures Atoi(s) == 0
  {
  }

  /** Empty and non-numeric text both give 0. */
  lemma AtoiEmptyOrJunk()
    ensures Atoi("") == 0
    ensures Atoi("abc") == 0
  {
    AtoiNoDigits("abc");
  }

  /** Leading digits are kept and the rest ignored: "12abc" gives 12. */
  lemma AtoiLeadingDigits()
    ensures Atoi("12abc") == 12
  {
    assert Decimal(12) == "12";
    assert IntText(12) + "abc" == "12abc";
    AtoiIntText(12, "abc");
  }

  /** A minus sign negates: "-5" gives -5. */
  lemma AtoiNegative()
    ensures Atoi("-5") == -5
  {
    assert Decimal(5) == "5";
    assert IntText(-5) + "" == "-5";
    AtoiIntText(-5, "");
  }

  /** White space and a plus sign are skipped: " \t+42" gives 42. */
  lemma AtoiSpaceAndPlus()
    ensures Atoi(" \t+42") == 42
  {
    assert " \t" + "+42" == " \t+42";
    AtoiSkipsSpace(" \t", "+42");
    assert LeadingSpace("+42") == 0;
    assert "+42"[0..] == "+42";
    assert AfterSign("+42") == "42" + "";
    DigitRunOfDigits("42", "");
    assert Decimal(42) == "42";
    DecimalValue(42);
  }

  /** The character `strcmp` reads at position `i`: past the end it meets the terminating NUL. */
  function At(s: string, i: nat): char {
    if i < |s| then s[i] else '\0'
  }

  /** A C string: no NUL inside the text itself. */
  predicate CString(s: string) {
    forall j :: 0 <= j < |s| ==> s[j] != '\0'
  }

  /** `strcmp` from position `i` on: the difference of the first pair of
      characters that differ, 0 when both strings end together. */
  function StrCmpFrom(a: string, b: string, i: nat): int
    decreases |a| - i
  {
    if At(a, i) != At(b, i) then At(a, i) as int - At(b, i) as int
    else if At(a, i) == '\0' then 0
    else StrCmpFrom(a, b, i + 1)
  }

  function StrCmp(a: string, b: string): int {
    StrCmpFrom(a, b, 0)
  }

  lemma {:induction false} StrCmpFromZeroIff(a: string, b: string, i: nat)
    requires CString(a) && CString(b)
    requires i <= |a| && i <= |b|
    ensures StrCmpFrom(a, b, i) == 0 <==> a[i..] == b[i..]
    decreases |a| - i
  {
    if i < |a| && i < |b| && a[i] == b[i] {
      StrCmpFromZeroIff(a, b, i + 1);
      assert a[i..] == [a[i]] + a[i + 1..];
      assert b[i..] == [b[i]] + b[i + 1..];
    } else if i < |a| && i < |b| {
      assert a[i..][0] != b[i..][0];
    } else if i < |a| {
      assert At(a, i) != '\0';
    } else if i < |b| {
      assert At(b, i) != '\0';
    }
  }

  /** `strcmp(a, b) == 0` exactly when the two C strings are equal. */
  lemma StrCmpZeroIff(a: string, b: string)
    requires CString(a) && CString(b)
    ensures StrCmp(a, b) == 0 <==> a == b
  {
    StrCmpFromZeroIff(a, b, 0);
    assert a[0..] == a && b[0..] == b;
  }
}
