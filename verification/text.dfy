/**
 * The handful of JavaScript string operations the components rely on, on `seq<char>`:
 * `trim`, ASCII case mapping, `includes`, `startsWith`, `join`, `Number.prototype.toString`,
 * `padStart`, `parseInt` on decimal text and `toFixed(2)` on a cent amount.
 */
module Text {
  import opened Wrappers
  import opened Seqs

  /** The characters JavaScript's `trim` removes and the regular-expression class `\s` matches. */
  predicate IsSpace(c: char) {
    c == '\t' || c == '\n' || c == '\U{B}' || c == '\U{C}' || c == '\r' || c == ' '
    || c == '\U{A0}' || c == '\U{1680}' || ('\U{2000}' <= c <= '\U{200A}')
    || c == '\U{2028}' || c == '\U{2029}' || c == '\U{202F}' || c == '\U{205F}'
    || c == '\U{3000}' || c == '\U{FEFF}'
  }

  predicate IsBlank(s: string) {
    forall i :: 0 <= i < |s| ==> IsSpace(s[i])
  }

  /** Drops leading whitespace: the result is the longest suffix that does not start with a space. */
  function TrimStart(s: string): (r: string)
    ensures |r| <= |s| && r == s[|s| - |r|..]
    ensures forall i :: 0 <= i < |s| - |r| ==> IsSpace(s[i])
    ensures r == [] || !IsSpace(r[0])
    decreases |s|
  {
    if |s| > 0 && IsSpace(s[0]) then TrimStart(s[1..]) else s
  }

  /** Drops trailing whitespace: the result is the longest prefix that does not end with a space. */
  function TrimEnd(s: string): (r: string)
    ensures |r| <= |s| && r == s[..|r|]
    ensures forall i :: |r| <= i < |s| ==> IsSpace(s[i])
    ensures r == [] || !IsSpace(r[|r| - 1])
    decreases |s|
  {
    if |s| > 0 && IsSpace(s[|s| - 1]) then TrimEnd(s[..|s| - 1]) else s
  }

  /** `s.trim()` */
  function Trim(s: string): string {
    TrimEnd(TrimStart(s))
  }

  /** `s.trim() === ''` exactly when every character of `s` is whitespace. */
  lemma TrimEmptyIffBlank(s: string)
    ensures Trim(s) == "" <==> IsBlank(s)
  {
  }

  /** A string whose first and last characters are not spaces is its own trim. */
  lemma TrimOfTrimmed(s: string)
    requires s == [] || (!IsSpace(s[0]) && !IsSpace(s[|s| - 1]))
    ensures Trim(s) == s
  {
  }

  // ASCII case mapping: `toLowerCase` / `toUpperCase` on the characters the kiosk's keyboards can produce.

  function LowerChar(c: char): (r: char)
    ensures 'A' <= c <= 'Z' ==> 'a' <= r <= 'z' && r as int == c as int + 32
    ensures !('A' <= c <= 'Z') ==> r == c
  {
    if 'A' <= c <= 'Z' then (c as int + 32) as char else c
  }

  function UpperChar(c: char): (r: char)
    ensures 'a' <= c <= 'z' ==> 'A' <= r <= 'Z' && r as int == c as int - 32
    ensures !('a' <= c <= 'z') ==> r == c
  {
    if 'a' <= c <= 'z' then (c as int - 32) as char else c
  }

  function Lower(s: string): (r: string)
    ensures |r| == |s| && forall i :: 0 <= i < |s| ==> r[i] == LowerChar(s[i])
  {
    seq(|s|, i requires 0 <= i < |s| => LowerChar(s[i]))
  }

  function Upper(s: string): (r: string)
    ensures |r| == |s| && forall i :: 0 <= i < |s| ==> r[i] == UpperChar(s[i])
  {
    seq(|s|, i requires 0 <= i < |s| => UpperChar(s[i]))
  }

  /** `s.charAt(0).toUpperCase() + s.slice(1)` */
  function UpperFirst(s: string): (r: string)
    ensures |r| == |s|
    ensures |s| > 0 ==> r[0] == UpperChar(s[0]) && r[1..] == s[1..]
  {
    if |s| == 0 then "" else [UpperChar(s[0])] + s[1..]
  }

  /** `haystack.includes(needle)` */
  predicate Includes(haystack: string, needle: string)
    decreases |haystack|
  {
    needle <= haystack || (|haystack| > 0 && Includes(haystack[1..], needle))
  }

  /** The empty string occurs in every string. */
  lemma IncludesEmpty(haystack: string)
    ensures Includes(haystack, "")
  {
  }

  /** `s.startsWith(prefix)` */
  predicate StartsWith(s: string, prefix: string) {
    prefix <= s
  }

  /** `s.endsWith(suffix)` */
  predicate EndsWith(s: string, suffix: string) {
    |suffix| <= |s| && s[|s| - |suffix|..] == suffix
  }

  /** `parts.join(sep)` */
  function Join(parts: seq<string>, sep: string): (r: string)
    ensures |parts| == 1 ==> r == parts[0]
    ensures |parts| == 0 ==> r == ""
    decreases |parts|
  {
    if |parts| == 0 then ""
    else if |parts| == 1 then parts[0]
    else parts[0] + sep + Join(parts[1..], sep)
  }

  /** An entry with something other than whitespace in it: `s.trim() !== ''`. */
  predicate IsFilled(s: string) {
    Trim(s) != ""
  }

  /** `entries.filter(e => e.trim() !== '')`: the filled entries, in their order. */
  function FilledEntries(entries: seq<string>): (r: seq<string>)
    ensures |r| <= |entries|
    ensures forall i :: 0 <= i < |r| ==> r[i] in entries && !IsBlank(r[i])
  {
    var r := Filter(entries, IsFilled);
    forall i | 0 <= i < |r| ensures !IsBlank(r[i]) {
      TrimEmptyIffBlank(r[i]);
    }
    r
  }

  /** `s.split(c)` for a one-character separator: the pieces between the separators, in order. */
  function Split(s: string, c: char): (r: seq<string>)
    ensures |r| >= 1
    ensures forall i :: 0 <= i < |r| ==> c !in r[i]
    decreases |s|
  {
    if |s| == 0 then [""]
    else if s[0] == c then [""] + Split(s[1..], c)
    else
      var rest := Split(s[1..], c);
      [[s[0]] + rest[0]] + rest[1..]
  }

  /** Joining the pieces with the separator gives back the text. */
  lemma {:induction false} SplitJoinRoundTrip(s: string, c: char)
    ensures Join(Split(s, c), [c]) == s
    decreases |s|
  {
    if |s| > 0 {
      SplitJoinRoundTrip(s[1..], c);
      var rest := Split(s[1..], c);
      if s[0] == c {
        assert ([""] + rest)[1..] == rest;
      } else {
        var r := [[s[0]] + rest[0]] + rest[1..];
        if |rest| > 1 {
          assert r[1..] == rest[1..];
          assert Join(rest, [c]) == rest[0] + [c] + Join(rest[1..], [c]);
        }
      }
    }
  }

  /** Text without the separator is one piece. */
  lemma {:induction false} SplitWithout(s: string, c: char)
    requires c !in s
    ensures Split(s, c) == [s]
    decreases |s|
  {
    if |s| > 0 {
      SplitWithout(s[1..], c);
      assert [s[0]] + s[1..] == s;
    }
  }

  /** A separator after a separator-free head splits off that head. */
  lemma {:induction false} SplitAfterHead(head: string, c: char, tail: string)
    requires c !in head
    ensures Split(head + [c] + tail, c) == [head] + Split(tail, c)
    decreases |head|
  {
    if |head| == 0 {
      assert head + [c] + tail == [c] + tail;
      assert ([c] + tail)[1..] == tail;
    } else {
      assert (head + [c] + tail)[1..] == head[1..] + [c] + tail;
      SplitAfterHead(head[1..], c, tail);
      assert [head[0]] + head[1..] == head;
    }
  }

  // Decimal digits

  predicate IsDigit(c: char) {
    '0' <= c <= '9'
  }

  predicate AllDigits(s: string) {
    forall i :: 0 <= i < |s| ==> IsDigit(s[i])
  }

  function DigitChar(d: nat): (c: char)
    requires d < 10
    ensures IsDigit(c)
  {
    ('0' as int + d) as char
  }

  function DigitValue(c: char): (d: nat)
    requires IsDigit(c)
    ensures d < 10 && DigitChar(d) == c
  {
    c as int - '0' as int
  }

  /** The value of a string of decimal digits ("" reads as 0). */
  function DecimalValue(s: string): nat
    requires AllDigits(s)
    decreases |s|
  {
    if |s| == 0 then 0 else DecimalValue(s[..|s| - 1]) * 10 + DigitValue(s[|s| - 1])
  }

  /** `n.toString()` for a natural number: its shortest decimal representation. */
  function NatToString(n: nat): (r: string)
    ensures 1 <= |r| && AllDigits(r)
    ensures r[0] == '0' <==> n == 0
    decreases n
  {
    if n < 10 then [DigitChar(n)] else NatToString(n / 10) + [DigitChar(n % 10)]
  }

  /** `n.toString()` for any integer. */
  function IntToString(n: int): (r: string)
    ensures 1 <= |r|
    ensures n >= 0 ==> AllDigits(r)
    ensures n < 0 ==> r[0] == '-'
  {
    if n < 0 then "-" + NatToString(-n) else NatToString(n)
  }

  /** Reading back the decimal text of `n` gives `n`. */
  lemma {:induction false} DecimalRoundTrip(n: nat)
    ensures DecimalValue(NatToString(n)) == n
    decreases n
  {
    if n >= 10 {
      DecimalRoundTrip(n / 10);
      var s := NatToString(n);
      assert s[..|s| - 1] == NatToString(n / 10);
    }
  }

  /** Distinct numbers have distinct decimal texts. */
  lemma NatToStringInjective(m: nat, n: nat)
    requires NatToString(m) == NatToString(n)
    ensures m == n
  {
    DecimalRoundTrip(m);
    DecimalRoundTrip(n);
  }

  /** Leading zeros do not change a decimal value. */
  lemma {:induction false} LeadingZerosValue(z: string, s: string)
    requires forall i :: 0 <= i < |z| ==> z[i] == '0'
    requires AllDigits(s)
    ensures AllDigits(z + s) && DecimalValue(z + s) == DecimalValue(s)
    decreases |s|
  {
    if |s| == 0 {
      assert z + s == z;
      ZerosValue(z);
    } else {
      assert (z + s)[..|z + s| - 1] == z + s[..|s| - 1];
      LeadingZerosValue(z, s[..|s| - 1]);
    }
  }

  lemma {:induction false} ZerosValue(z: string)
    requires forall i :: 0 <= i < |z| ==> z[i] == '0'
    ensures AllDigits(z) && DecimalValue(z) == 0
    decreases |z|
  {
    if |z| > 0 {
      ZerosValue(z[..|z| - 1]);
    }
  }

  /** A decimal value below `10^k` needs at most k digits. */
  function Pow10(k: nat): (r: nat)
    ensures r >= 1
  {
    if k == 0 then 1 else 10 * Pow10(k - 1)
  }

  lemma {:induction false} NatToStringLength(n: nat, k: nat)
    requires 1 <= k && n < Pow10(k)
    ensures |NatToString(n)| <= k
    decreases n
  {
    if n >= 10 {
      assert n / 10 < Pow10(k - 1);
      NatToStringLength(n / 10, k - 1);
    }
  }

  /** `s.padStart(width, c)`: `s` preceded by as many copies of `c` as bring it to `width`; never truncates. */
  function PadStart(s: string, width: int, c: char): (r: string)
    ensures |r| == if |s| >= width then |s| else width
  {
    if |s| >= width then s else seq(width - |s|, _ => c) + s
  }

  /** The padded text ends with the original text and everything before it is the pad character. */
  lemma PadStartShape(s: string, width: int, c: char)
    ensures var r := PadStart(s, width, c);
            && r[|r| - |s|..] == s
            && (forall i :: 0 <= i < |r| - |s| ==> r[i] == c)
            && r == r[..|r| - |s|] + s
  {
  }

  /** The text after the leading '0' characters. */
  function StripLeadingZeros(s: string): (r: string)
    ensures |r| <= |s| && r == s[|s| - |r|..]
    ensures forall i :: 0 <= i < |s| - |r| ==> s[i] == '0'
    ensures r == [] || r[0] != '0'
    decreases |s|
  {
    if |s| > 0 && s[0] == '0' then StripLeadingZeros(s[1..]) else s
  }

  /** The longest prefix made of decimal digits. */
  function LeadingDigits(s: string): (r: string)
    ensures r <= s && AllDigits(r)
    ensures |r| < |s| ==> !IsDigit(s[|r|])
    decreases |s|
  {
    if |s| > 0 && IsDigit(s[0]) then [s[0]] + LeadingDigits(s[1..]) else ""
  }

  /**
   * `parseInt(s, 10)`: skip leading whitespace, read an optional sign and the longest run of digits
   * after it; `None` (NaN) when there is no digit there.
   */
  function ParseInt(s: string): (r: Option<int>)
    ensures r.None? <==> LeadingDigits(SignFree(TrimStart(s))) == ""
  {
    var t := TrimStart(s);
    var digits := LeadingDigits(SignFree(t));
    if digits == "" then None
    else if |t| > 0 && t[0] == '-' then Some(0 - DecimalValue(digits))
    else Some(DecimalValue(digits))
  }

  function SignFree(t: string): string {
    if |t| > 0 && (t[0] == '-' || t[0] == '+') then t[1..] else t
  }

  /** `parseInt` reads back the decimal text of every integer. */
  lemma ParseIntOfIntToString(n: int)
    ensures ParseInt(IntToString(n)) == Some(n)
  {
    var s := IntToString(n);
    var digits := if n < 0 then NatToString(-n) else NatToString(n);
    assert TrimStart(s) == s;
    assert SignFree(s) == digits;
    LeadingDigitsAll(digits);
    DecimalRoundTrip(if n < 0 then -n else n);
  }

  lemma {:induction false} LeadingDigitsAll(s: string)
    requires AllDigits(s)
    ensures LeadingDigits(s) == s
    decreases |s|
  {
    if |s| > 0 {
      LeadingDigitsAll(s[1..]);
    }
  }

  /** The longest run of digits at the front of `w + rest` is `w` when `rest` starts with a non-digit. */
  lemma {:induction false} LeadingDigitsStop(w: string, rest: string)
    requires AllDigits(w) && |rest| > 0 && !IsDigit(rest[0])
    ensures LeadingDigits(w + rest) == w
    decreases |w|
  {
    if |w| > 0 {
      assert (w + rest)[1..] == w[1..] + rest;
      LeadingDigitsStop(w[1..], rest);
    } else {
      assert w + rest == rest;
    }
  }

  /** The cents a decimal fraction contributes: its first two digits, a missing second digit reading as 0. */
  function FractionCents(frac: string): (r: nat)
    requires AllDigits(frac)
    ensures r < 100
  {
    if |frac| == 0 then 0
    else if |frac| == 1 then DigitValue(frac[0]) * 10
    else DigitValue(frac[0]) * 10 + DigitValue(frac[1])
  }

  /** Digits, then optionally '.' and more digits, read as cents; `None` when there is no digit at all. */
  function UnsignedCents(u: string): (r: Option<int>)
    ensures r.Some? ==> r.value >= 0
  {
    var whole := LeadingDigits(u);
    var rest := u[|whole|..];
    var frac := if |rest| > 0 && rest[0] == '.' then LeadingDigits(rest[1..]) else "";
    if whole == "" && frac == "" then None else Some(DecimalValue(whole) * 100 + FractionCents(frac))
  }

  /**
   * `parseFloat(s)` for the prices the kiosk handles, in cents: skip leading whitespace, read an optional
   * sign, digits and an optional fraction; `None` (NaN) when no digit is found.
   */
  function ParseFloatCents(s: string): (r: Option<int>)
    ensures r.None? <==> UnsignedCents(SignFree(TrimStart(s))).None?
  {
    var t := TrimStart(s);
    Signed(t, UnsignedCents(SignFree(t)))
  }

  /** The unsigned reading of `t`, negated when `t` starts with a minus sign. */
  function Signed(t: string, unsigned: Option<int>): (r: Option<int>)
    ensures r.None? <==> unsigned.None?
  {
    match unsigned
    case None => None
    case Some(cents) => if |t| > 0 && t[0] == '-' then Some(0 - cents) else Some(cents)
  }

  /** A run of digits with nothing after it reads as that many hundred cents. */
  lemma UnsignedCentsOfDigits(d: string)
    requires |d| > 0 && AllDigits(d)
    ensures UnsignedCents(d) == Some(DecimalValue(d) * 100)
  {
    LeadingDigitsAll(d);
    assert d[|d|..] == "";
  }

  /** Digits, a point and digits read as the whole part's hundreds plus the fraction's cents. */
  lemma UnsignedCentsOfPoint(w: string, f: string)
    requires |w| > 0 && AllDigits(w) && AllDigits(f)
    ensures UnsignedCents(w + "." + f) == Some(DecimalValue(w) * 100 + FractionCents(f))
  {
    WholeBeforePoint(w, f);
    UnsignedCentsOfParts(w + "." + f, w, f);
  }

  /** The digits in front of a point are the whole part. */
  lemma WholeBeforePoint(w: string, f: string)
    requires AllDigits(w)
    ensures LeadingDigits(w + "." + f) == w
    ensures (w + "." + f)[|w|..] == "." + f
  {
    var tail := "." + f;
    assert w + "." + f == w + tail;
    LeadingDigitsStop(w, tail);
  }

  /** A whole part followed by a point and a run of digits reads as their cents. */
  lemma UnsignedCentsOfParts(u: string, w: string, f: string)
    requires |w| > 0 && AllDigits(w) && AllDigits(f)
    requires LeadingDigits(u) == w && u[|w|..] == "." + f
    ensures UnsignedCents(u) == Some(DecimalValue(w) * 100 + FractionCents(f))
  {
    assert ("." + f)[1..] == f;
    LeadingDigitsAll(f);
  }

  /** Text starting with a digit or a minus sign has no leading whitespace to skip. */
  lemma TrimStartOfNonSpace(s: string)
    requires |s| > 0 && !IsSpace(s[0])
    ensures TrimStart(s) == s
  {
  }

  /** A whole number's text reads as that many hundred cents. */
  lemma ParseFloatOfInteger(n: int)
    ensures ParseFloatCents(IntToString(n)) == Some(100 * n)
  {
    var m: nat := if n < 0 then -n else n;
    IntegerTextParts(n);
    DigitsAsCents(m);
    ParseFloatCentsOf(IntToString(n), 100 * m);
  }

  /** The text of an integer: no leading space, a minus sign exactly for negatives, then the digits. */
  lemma IntegerTextParts(n: int)
    ensures var s := IntToString(n);
            TrimStart(s) == s && (s[0] == '-' <==> n < 0)
            && SignFree(s) == NatToString(if n < 0 then -n else n)
  {
    TrimStartOfNonSpace(IntToString(n));
  }

  /** The decimal text of m reads as m hundred cents. */
  lemma DigitsAsCents(m: nat)
    ensures UnsignedCents(NatToString(m)) == Some(100 * m)
  {
    UnsignedCentsOfDigits(NatToString(m));
    DecimalRoundTrip(m);
  }

  /** `parseFloat` of unpadded text: the unsigned reading, negated after a minus sign. */
  lemma ParseFloatCentsOf(s: string, cents: nat)
    requires TrimStart(s) == s && UnsignedCents(SignFree(s)) == Some(cents)
    ensures ParseFloatCents(s) == Signed(s, Some(cents))
  {
  }

  /** The unsigned money text of `a` cents reads back as `a`. */
  lemma UnsignedMoneyTextCents(a: nat)
    ensures UnsignedCents(UnsignedMoneyText(a)) == Some(a)
  {
    var u := UnsignedMoneyText(a);
    var w := u[..|u| - 3];
    var f := u[|u| - 2..];
    assert u == w + "." + f;
    UnsignedCentsOfPoint(w, f);
  }

  /** `parseFloat` reads back what `toFixed(2)` writes: the round trip through text keeps every amount of cents. */
  lemma MoneyTextRoundTrip(cents: int)
    ensures ParseFloatCents(MoneyText(cents)) == Some(cents)
  {
    var a: nat := if cents < 0 then -cents else cents;
    UnsignedMoneyTextCents(a);
    MoneyTextSign(cents);
  }

  /** The money text has no leading space, starts with '-' exactly for negative amounts and is unsigned after it. */
  lemma MoneyTextSign(cents: int)
    ensures var s := MoneyText(cents);
            && TrimStart(s) == s && |s| > 0 && (s[0] == '-' <==> cents < 0)
            && SignFree(s) == UnsignedMoneyText(if cents < 0 then -cents else cents)
  {
    TrimStartOfNonSpace(MoneyText(cents));
  }

  /** `x.toFixed(2)` for a non-negative amount of `a` cents. */
  function UnsignedMoneyText(a: nat): (r: string)
    ensures |r| >= 4 && r[|r| - 3] == '.'
    ensures AllDigits(r[..|r| - 3]) && DecimalValue(r[..|r| - 3]) == a / 100
    ensures AllDigits(r[|r| - 2..]) && FractionCents(r[|r| - 2..]) == a % 100
  {
    var whole := NatToString(a / 100);
    var r := whole + "." + [DigitChar(a % 100 / 10), DigitChar(a % 10)];
    DecimalRoundTrip(a / 100);
    assert r[..|r| - 3] == whole;
    assert r[|r| - 2..] == [DigitChar(a % 100 / 10), DigitChar(a % 10)];
    TwoDigitsValue(a % 100 / 10, a % 10);
    var b := a % 100;
    assert b == b / 10 * 10 + b % 10;
    assert b % 10 == a % 10 by {
      assert a == a / 100 * 100 + b;
      assert a == (a / 100 * 10) * 10 + b;
    }
    r
  }

  lemma TwoDigitsValue(x: nat, y: nat)
    requires x < 10 && y < 10
    ensures AllDigits([DigitChar(x), DigitChar(y)]) && DecimalValue([DigitChar(x), DigitChar(y)]) == x * 10 + y
  {
    var t := [DigitChar(x), DigitChar(y)];
    assert t[..1] == [DigitChar(x)];
    assert t[..1][..0] == [];
    assert DigitValue(t[0]) == x && DigitValue(t[1]) == y;
    assert DecimalValue(t[..1]) == x;
  }

  /** `(cents / 100).toFixed(2)`: an amount of money given in cents as text with two decimals. */
  function MoneyText(cents: int): (r: string)
    ensures cents >= 0 ==> r == UnsignedMoneyText(cents)
    ensures cents < 0 ==> r == "-" + UnsignedMoneyText(-cents)
  {
    if cents < 0 then "-" + UnsignedMoneyText(-cents) else UnsignedMoneyText(cents)
  }
}
