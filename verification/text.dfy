/** Text handling the scrapers rely on: character classes, the JavaScript
    `replace(/[...]/g, '')` clean-ups, `parseInt`/`parseFloat` restricted to
    digit strings, ASCII case folding and substring search. */
module Text {
  import opened Common

  predicate IsDigit(c: char) {
    '0' <= c <= '9'
  }

  function DigitValue(c: char): (d: nat)
    requires IsDigit(c)
    ensures d < 10
  {
    (c as int - '0' as int) as nat
  }

  function DigitChar(d: nat): (c: char)
    requires d < 10
    ensures IsDigit(c) && DigitValue(c) == d
  {
    (d + '0' as int) as char
  }

  predicate AllDigits(s: string) {
    forall i :: 0 <= i < |s| ==> IsDigit(s[i])
  }

  /** `s.replace(re, '')` for a character class `re`: the characters of `s`
      that `keep` accepts, in order. */
  function Keep(s: string, keep: char -> bool): (r: string)
    ensures |r| <= |s|
    ensures forall i :: 0 <= i < |r| ==> keep(r[i])
  {
    if |s| == 0 then ""
    else if keep(s[0]) then [s[0]] + Keep(s[1..], keep)
    else Keep(s[1..], keep)
  }

  lemma {:induction false} KeepConcat(s: string, t: string, keep: char -> bool)
    ensures Keep(s + t, keep) == Keep(s, keep) + Keep(t, keep)
  {
    if |s| == 0 {
      assert s + t == t;
    } else {
      assert (s + t)[1..] == s[1..] + t;
      KeepConcat(s[1..], t, keep);
    }
  }

  lemma {:induction false} KeepIdentity(s: string, keep: char -> bool)
    requires forall i :: 0 <= i < |s| ==> keep(s[i])
    ensures Keep(s, keep) == s
  {
    if |s| > 0 {
      KeepIdentity(s[1..], keep);
    }
  }

  lemma {:induction false} KeepNone(s: string, keep: char -> bool)
    requires forall i :: 0 <= i < |s| ==> !keep(s[i])
    ensures Keep(s, keep) == ""
  {
    if |s| > 0 {
      KeepNone(s[1..], keep);
    }
  }

  /** The value of a string of decimal digits. */
  function DigitsValue(s: string): nat
    requires AllDigits(s)
  {
    if |s| == 0 then 0
    else DigitsValue(s[..|s| - 1]) * 10 + DigitValue(s[|s| - 1])
  }

  /** The decimal numeral of `n`, without leading zeros. */
  function ShowNat(n: nat): (s: string)
    ensures |s| > 0 && AllDigits(s)
  {
    if n < 10 then [DigitChar(n)]
    else ShowNat(n / 10) + [DigitChar(n % 10)]
  }

  lemma {:induction false} ShowNatRoundTrip(n: nat)
    ensures DigitsValue(ShowNat(n)) == n
  {
    var s := ShowNat(n);
    if n >= 10 {
      assert s[..|s| - 1] == ShowNat(n / 10);
      ShowNatRoundTrip(n / 10);
    }
  }

  lemma ShowNatInjective(m: nat, n: nat)
    requires ShowNat(m) == ShowNat(n)
    ensures m == n
  {
    ShowNatRoundTrip(m);
    ShowNatRoundTrip(n);
  }

  /** The longest prefix of `s` made of digits. */
  function LeadingDigits(s: string): (p: string)
    ensures |p| <= |s| && p == s[..|p|] && AllDigits(p)
    ensures |p| < |s| ==> !IsDigit(s[|p|])
  {
    if |s| > 0 && IsDigit(s[0]) then [s[0]] + LeadingDigits(s[1..]) else ""
  }

  lemma {:induction false} LeadingDigitsOfDigits(s: string, t: string)
    requires AllDigits(s)
    requires |t| == 0 || !IsDigit(t[0])
    ensures LeadingDigits(s + t) == s
  {
    if |s| > 0 {
      assert (s + t)[1..] == s[1..] + t;
      LeadingDigitsOfDigits(s[1..], t);
    } else {
      assert s + t == t;
    }
  }

  function Pow10(k: nat): (r: nat)
    ensures r >= 1
  {
    if k == 0 then 1 else 10 * Pow10(k - 1)
  }

  /** `parseInt`, restricted to a leading run of digits: `None` stands for NaN. */
  function ParseInt(s: string): (r: Option<nat>)
    ensures r.None? <==> |s| == 0 || !IsDigit(s[0])
  {
    var ip := LeadingDigits(s);
    if |ip| == 0 then None else Some(DigitsValue(ip))
  }

  /** `parseFloat`, restricted to `digits[.digits]` prefixes (no sign,
      leading blanks or exponent): `None` stands for NaN. */
  function ParseFloat(s: string): (r: Option<real>)
    ensures r.Some? ==> r.value >= 0.0
    ensures |s| == 0 ==> r.None?
  {
    var ip := LeadingDigits(s);
    var rest := s[|ip|..];
    var fp := if |rest| > 0 && rest[0] == '.' then LeadingDigits(rest[1..]) else "";
    if |ip| == 0 && |fp| == 0 then None
    else Some(DigitsValue(ip) as real + DigitsValue(fp) as real / Pow10(|fp|) as real)
  }

  lemma ParseNumeral(n: nat, t: string)
    requires |t| == 0 || (!IsDigit(t[0]) && t[0] != '.')
    ensures ParseInt(ShowNat(n) + t) == Some(n)
    ensures ParseFloat(ShowNat(n) + t) == Some(n as real)
  {
    LeadingDigitsOfDigits(ShowNat(n), t);
    ShowNatRoundTrip(n);
    assert (ShowNat(n) + t)[|ShowNat(n)|..] == t;
  }

  /** ASCII `toLowerCase`. */
  function Lower(c: char): char {
    if 'A' <= c <= 'Z' then (c as int + 32) as char else c
  }

  function ToLower(s: string): (r: string)
    ensures |r| == |s| && forall i :: 0 <= i < |s| ==> r[i] == Lower(s[i])
  {
    seq(|s|, i requires 0 <= i < |s| => Lower(s[i]))
  }

  /** Case-insensitive equality: `a.toLowerCase() === b.toLowerCase()`. */
  predicate EqualsIgnoreCase(a: string, b: string) {
    ToLower(a) == ToLower(b)
  }

  /** `s.includes(sub)`: `sub` occurs in `s` at some position. */
  predicate Contains(s: string, sub: string)
    decreases |s|
  {
    |sub| <= |s| && (s[..|sub|] == sub || (|s| > 0 && Contains(s[1..], sub)))
  }

  /** `s.includes(c)` for a single character. */
  function HasChar(s: string, c: char): (b: bool)
    ensures b <==> exists i :: 0 <= i < |s| && s[i] == c
  {
    if |s| == 0 then false
    else if s[0] == c then true
    else assert forall i :: 0 < i < |s| ==> s[i] == s[1..][i - 1]; HasChar(s[1..], c)
  }

  /** `s.toLowerCase().includes(sub.toLowerCase())`. */
  predicate IncludesIgnoreCase(s: string, sub: string) {
    Contains(ToLower(s), ToLower(sub))
  }

  /** The white space `String.prototype.trim` removes (the common subset:
      ASCII blanks and line ends, no-break space, ideographic space, BOM). */
  predicate IsSpace(c: char) {
    c == ' ' || c == '\t' || c == '\n' || c == '\r' || c == '\U{B}' || c == '\U{C}'
    || c == '\U{A0}' || c == '\U{3000}' || c == '\U{FEFF}'
  }

  /** Drops leading white space. */
  function TrimStart(s: string): (r: string)
    ensures |r| <= |s| && r == s[|s| - |r|..]
    ensures forall i :: 0 <= i < |s| - |r| ==> IsSpace(s[i])
    ensures |r| > 0 ==> !IsSpace(r[0])
  {
    if |s| > 0 && IsSpace(s[0]) then TrimStart(s[1..]) else s
  }

  /** Drops trailing white space. */
  function TrimEnd(s: string): (r: string)
    ensures |r| <= |s| && r == s[..|r|]
    ensures forall i :: |r| <= i < |s| ==> IsSpace(s[i])
    ensures |r| > 0 ==> !IsSpace(r[|r| - 1])
  {
    if |s| > 0 && IsSpace(s[|s| - 1]) then TrimEnd(s[..|s| - 1]) else s
  }

  /** `s.trim()`. */
  function Trim(s: string): (r: string)
    ensures |r| > 0 ==> !IsSpace(r[0]) && !IsSpace(r[|r| - 1])
  {
    TrimEnd(TrimStart(s))
  }

  /** Trimming is idempotent. */
  lemma TrimIdempotent(s: string)
    ensures Trim(Trim(s)) == Trim(s)
  {
    var r := Trim(s);
    assert TrimStart(r) == r;
    assert TrimEnd(r) == r;
  }
}
