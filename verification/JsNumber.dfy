/** JavaScript numbers as the editor sees them: a field holds either the text
    typed into an input or a number, and `parseFloat` reads the longest
    decimal prefix of the text. Numbers are idealised as mathematical reals. */
module JsNumber {
  import opened Wrappers
  import opened JsText

  /** A form value: the raw input text, or a number stored by a handler. */
  datatype Val = Str(text: string) | Num(n: real)

  /** Length of the run of ASCII digits at the start of `s`. */
  function LeadingDigits(s: string): (n: nat)
    ensures n <= |s|
    decreases |s|
  {
    if |s| > 0 && IsDigit(s[0]) then 1 + LeadingDigits(s[1..]) else 0
  }

  lemma {:induction false} LeadingDigitsSpec(s: string)
    ensures AllDigits(s[..LeadingDigits(s)])
    ensures LeadingDigits(s) == |s| || !IsDigit(s[LeadingDigits(s)])
    decreases |s|
  {
    if |s| > 0 && IsDigit(s[0]) {
      LeadingDigitsSpec(s[1..]);
      var n := LeadingDigits(s);
      assert s[..n] == [s[0]] + s[1..][..n - 1];
    }
  }

  /** `m` with its decimal point moved `e` places to the right (to the left
      when `e` is negative): `m * 10^e`, one factor of ten at a time. */
  function Scale10(m: real, e: int): real
    decreases if e >= 0 then e else -e
  {
    if e == 0 then m
    else if e > 0 then Scale10(m, e - 1) * 10.0
    else Scale10(m, e + 1) / 10.0
  }

  /** The signed exponent that an `e`/`E` marker followed by digits adds;
      zero when no well-formed exponent follows the mantissa. */
  function ExponentOf(s: string): int {
    if |s| > 0 && (s[0] == 'e' || s[0] == 'E') then
      var t := s[1..];
      var negative := |t| > 0 && t[0] == '-';
      var u := if |t| > 0 && (t[0] == '-' || t[0] == '+') then t[1..] else t;
      var n := LeadingDigits(u);
      assert AllDigits(u[..n]) by {
        LeadingDigitsSpec(u);
      }
      var e: int := DigitsValue(u[..n]);
      if negative then -e else e
    else 0
  }

  /** The value of a literal whose `n` integer digits are followed by a
      `.` at `u[n]`: the fraction digits after the dot, then an optional
      exponent. `None` when there is no digit on either side of the dot. */
  function ParseFraction(u: string, n: nat): Option<real>
    requires n < |u| && u[n] == '.' && AllDigits(u[..n])
  {
    var frac := u[n + 1..];
    var f := LeadingDigits(frac);
    assert AllDigits(frac[..f]) by {
      LeadingDigitsSpec(frac);
    }
    if n == 0 && f == 0 then None
    else
      var fraction := Scale10(DigitsValue(frac[..f]) as real, -(f as int));
      Some(Scale10(DigitsValue(u[..n]) as real + fraction, ExponentOf(frac[f..])))
  }

  /** The unsigned part of a decimal literal: digits, an optional `.` and
      fraction digits (at least one digit in all), then an optional exponent;
      whatever follows is ignored. `None` when no digit is found. */
  function ParseUnsigned(u: string): Option<real> {
    var n := LeadingDigits(u);
    assert AllDigits(u[..n]) by {
      LeadingDigitsSpec(u);
    }
    if n < |u| && u[n] == '.' then ParseFraction(u, n)
    else if n == 0 then None
    else Some(Scale10(DigitsValue(u[..n]) as real, ExponentOf(u[n..])))
  }

  function Negate(r: Option<real>): Option<real> {
    match r
    case None => None
    case Some(x) => Some(-x)
  }

  /** An optional sign followed by an unsigned literal. */
  function ParseSigned(t: string): Option<real> {
    if |t| > 0 && t[0] == '-' then Negate(ParseUnsigned(t[1..]))
    else if |t| > 0 && t[0] == '+' then ParseUnsigned(t[1..])
    else ParseUnsigned(t)
  }

  /** `parseFloat` on a string: leading white space is skipped, then a signed
      decimal literal is read from the longest prefix that forms one. `None`
      stands for NaN, which is what the source gets when no digit is found:
      text without a digit never reads as a number. */
  function ParseFloat(s: string): (r: Option<real>)
    ensures r.Some? ==> exists k | 0 <= k < |s| :: IsDigit(s[k])
  {
    var t := TrimStart(s);
    SignedNeedsDigit(t);
    SuffixDigit(s, |s| - |t|);
    ParseSigned(t)
  }

  /** A digit in a suffix is a digit of the whole string. */
  lemma SuffixDigit(s: string, n: nat)
    requires n <= |s|
    ensures (exists k | 0 <= k < |s[n..]| :: IsDigit(s[n..][k])) ==> exists k | 0 <= k < |s| :: IsDigit(s[k])
  {
    if exists k | 0 <= k < |s[n..]| :: IsDigit(s[n..][k]) {
      var k :| 0 <= k < |s[n..]| && IsDigit(s[n..][k]);
      assert s[n + k] == s[n..][k];
    }
  }

  /** A literal that reads as a number holds a digit. */
  lemma SignedNeedsDigit(t: string)
    ensures ParseSigned(t).Some? ==> exists k | 0 <= k < |t| :: IsDigit(t[k])
  {
    if |t| > 0 && (t[0] == '-' || t[0] == '+') {
      UnsignedNeedsDigit(t[1..]);
      if ParseUnsigned(t[1..]).Some? {
        var k :| 0 <= k < |t[1..]| && IsDigit(t[1..][k]);
        assert t[k + 1] == t[1..][k];
      }
    } else {
      UnsignedNeedsDigit(t);
    }
  }

  lemma UnsignedNeedsDigit(u: string)
    ensures ParseUnsigned(u).Some? ==> exists k | 0 <= k < |u| :: IsDigit(u[k])
  {
    if ParseUnsigned(u).Some? {
      if LeadingDigits(u) > 0 {
        assert IsDigit(u[0]);
      } else {
        var frac := u[1..];
        assert LeadingDigits(frac) > 0;
        assert IsDigit(u[1]) by {
          assert IsDigit(frac[0]);
        }
      }
    }
  }

  /** `parseFloat(v)`: a number reads back as itself. */
  function ParseNum(v: Val): Option<real> {
    match v
    case Num(x) => Some(x)
    case Str(s) => ParseFloat(s)
  }

  /** The idiom `parseFloat(v) || 0`: NaN (and zero) fall back to zero. */
  function NumOr0(v: Val): real {
    ParseNum(v).GetOr(0.0)
  }

  /** `isEmpty(v)`: a number is never blank; text is blank when `trim`
      leaves nothing. (`null` and `undefined` do not arise in the model.) */
  predicate IsEmpty(v: Val) {
    match v
    case Num(_) => false
    case Str(s) => Trim(s) == []
  }

  /** Blank text has no digit, so it reads as NaN. */
  lemma BlankIsNaN(s: string)
    requires AllSpace(s)
    ensures ParseFloat(s) == None
  {
    assert TrimStart(s) == [];
  }

  /** An empty value (`isEmpty`) always reads as NaN, so the validator's
      separate blank test never decides a numeric rule on its own. */
  lemma EmptyIsNaN(v: Val)
    requires IsEmpty(v)
    ensures ParseNum(v) == None
  {
    TrimEmptyIffAllSpace(v.text);
    BlankIsNaN(v.text);
  }

  /** Leading white space does not change what `parseFloat` reads. */
  lemma LeadingSpaceIgnored(c: char, s: string)
    requires IsSpace(c)
    ensures ParseFloat([c] + s) == ParseFloat(s)
  {
    assert ([c] + s)[1..] == s;
  }

  /** A character that cannot continue a decimal literal after its integer
      digits: not a digit, a `.` or an exponent marker. */
  predicate EndsNumber(c: char) {
    !IsDigit(c) && c != '.' && c != 'e' && c != 'E'
  }

  /** A non-empty run of digits reads as its decimal value, whatever
      follows it, as long as the next character cannot continue a number. */
  lemma DigitsPrefixValue(ds: string, tail: string)
    requires |ds| > 0 && AllDigits(ds)
    requires tail == [] || EndsNumber(tail[0])
    ensures ParseFloat(ds + tail) == Some(DigitsValue(ds) as real)
  {
    var s := ds + tail;
    assert s[0] == ds[0];
    DigitStartIsUnsigned(s);
    UnsignedDigitsValue(ds, tail);
  }

  /** Text that starts with a digit has no white space or sign to skip. */
  lemma DigitStartIsUnsigned(s: string)
    requires |s| > 0 && IsDigit(s[0])
    ensures ParseFloat(s) == ParseUnsigned(s)
  {
    assert TrimStart(s) == s;
  }

  lemma UnsignedDigitsValue(ds: string, tail: string)
    requires |ds| > 0 && AllDigits(ds)
    requires tail == [] || EndsNumber(tail[0])
    ensures ParseUnsigned(ds + tail) == Some(DigitsValue(ds) as real)
  {
    var s := ds + tail;
    var n := |ds|;
    assert LeadingDigits(s) == n by {
      LeadingDigitsOfConcat(ds, tail);
    }
    assert !(n < |s| && s[n] == '.') by {
      if n < |s| {
        assert s[n] == tail[0];
      }
    }
    assert s[..n] == ds && s[n..] == tail;
    assert ExponentOf(tail) == 0 by {
      if tail != [] {
        assert tail[0] != 'e' && tail[0] != 'E';
      }
    }

  }

  lemma {:induction false} LeadingDigitsOfConcat(ds: string, tail: string)
    requires AllDigits(ds)
    requires tail == [] || !IsDigit(tail[0])
    ensures LeadingDigits(ds + tail) == |ds|
    decreases |ds|
  {
    if |ds| == 0 {
      assert ds + tail == tail;
    } else {
      assert (ds + tail)[1..] == ds[1..] + tail;
      LeadingDigitsOfConcat(ds[1..], tail);
    }
  }

  /** A leading minus sign negates the number read from the rest. */
  lemma MinusNegates(s: string)
    requires s == [] || !(IsSpace(s[0]) || s[0] == '-' || s[0] == '+')
    ensures ParseFloat("-" + s) == Negate(ParseFloat(s))
  {
    var m := "-" + s;
    assert m[0] == '-' && !IsSpace(m[0]);
    assert TrimStart(m) == m;
    assert m[1..] == s;
    if s != [] {
      assert TrimStart(s) == s;
    }
  }
}
