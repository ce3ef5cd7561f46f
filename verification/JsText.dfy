/** The parts of JavaScript string semantics the invoice editor relies on:
    the white-space class shared by `String.prototype.trim`, the regular
    expression escape `\s` and `parseFloat`; `trim` itself; the relational
    operator `<` on strings; and decimal digit strings. */
module JsText {

  /** The ECMAScript WhiteSpace and LineTerminator code points. */
  predicate IsSpace(c: char) {
    var n := c as int;
    || n == 0x20 || (0x09 <= n <= 0x0D) || n == 0xA0 || n == 0x1680
    || (0x2000 <= n <= 0x200A) || n == 0x2028 || n == 0x2029
    || n == 0x202F || n == 0x205F || n == 0x3000 || n == 0xFEFF
  }

  predicate IsDigit(c: char) {
    '0' <= c <= '9'
  }

  predicate AllSpace(s: string) {
    forall i | 0 <= i < |s| :: IsSpace(s[i])
  }

  predicate AllDigits(s: string) {
    forall i | 0 <= i < |s| :: IsDigit(s[i])
  }

  /** Drops the maximal white-space prefix. */
  function TrimStart(s: string): (r: string)
    ensures |r| <= |s| && r == s[|s| - |r|..]
    ensures r == [] || !IsSpace(r[0])
    decreases |s|
  {
    if |s| > 0 && IsSpace(s[0]) then TrimStart(s[1..]) else s
  }

  /** What `TrimStart` drops is white space. */
  lemma {:induction false} TrimStartDropsSpace(s: string)
    ensures AllSpace(s[..|s| - |TrimStart(s)|])
    decreases |s|
  {
    if |s| > 0 && IsSpace(s[0]) {
      TrimStartDropsSpace(s[1..]);
      var k := |s| - |TrimStart(s)|;
      assert s[..k] == [s[0]] + s[1..][..k - 1];
    }
  }

  /** Drops the maximal white-space suffix. */
  function TrimEnd(s: string): (r: string)
    ensures |r| <= |s| && r == s[..|r|]
    ensures r == [] || !IsSpace(r[|r| - 1])
    decreases |s|
  {
    if |s| > 0 && IsSpace(s[|s| - 1]) then TrimEnd(s[..|s| - 1]) else s
  }

  /** What `TrimEnd` drops is white space. */
  lemma {:induction false} TrimEndDropsSpace(s: string)
    ensures AllSpace(s[|TrimEnd(s)|..])
    decreases |s|
  {
    if |s| > 0 && IsSpace(s[|s| - 1]) {
      var t := s[..|s| - 1];
      TrimEndDropsSpace(t);
      var k := |TrimEnd(s)|;
      assert s[k..] == t[k..] + [s[|s| - 1]];
    }
  }

  /** `String.prototype.trim`. */
  function Trim(s: string): string {
    TrimEnd(TrimStart(s))
  }

  /** A string is blank when `trim` leaves nothing, which happens exactly
      when every character is white space. */
  lemma {:induction false} TrimEmptyIffAllSpace(s: string)
    ensures Trim(s) == [] <==> AllSpace(s)
  {
    var t := TrimStart(s);
    TrimStartDropsSpace(s);
    if t == [] {
      assert s[..|s|] == s;
    } else {
      TrimEndDropsSpace(t);
      assert s[|s| - |t|] == t[0];
      assert !IsSpace(s[|s| - |t|]);
    }
  }

  /** JavaScript `a < b` on strings: the lexicographic order on characters,
      with a proper prefix below its extensions. */
  predicate StrLt(a: string, b: string)
    decreases |a|
  {
    if |a| == 0 then |b| > 0
    else if |b| == 0 then false
    else if a[0] != b[0] then a[0] < b[0]
    else StrLt(a[1..], b[1..])
  }

  /** The textbook definition of the lexicographic order. */
  ghost predicate LexLess(a: string, b: string) {
    || (|a| < |b| && a == b[..|a|])
    || exists k | 0 <= k < |a| && k < |b| :: a[..k] == b[..k] && a[k] < b[k]
  }

  /** Strings that differ at the first character are ordered by it. */
  lemma LexLessHead(a: string, b: string)
    requires |a| > 0 && |b| > 0 && a[0] != b[0]
    ensures LexLess(a, b) <==> a[0] < b[0]
  {
    if LexLess(a, b) && !(a[0] < b[0]) {
      var k :| 0 <= k < |a| && k < |b| && a[..k] == b[..k] && a[k] < b[k];
    }
    if a[0] < b[0] {
      assert a[..0] == b[..0];
    }
  }

  /** A common first character does not affect the order. */
  lemma LexLessTail(a: string, b: string)
    requires |a| > 0 && |b| > 0 && a[0] == b[0]
    ensures LexLess(a, b) ==> LexLess(a[1..], b[1..])
  {
    if LexLess(a, b) {
      if |a| < |b| && a == b[..|a|] {
        assert a[1..] == b[1..][..|a[1..]|];
      } else {
        var k :| 0 <= k < |a| && k < |b| && a[..k] == b[..k] && a[k] < b[k];
        assert k > 0;
        assert a[1..][..k - 1] == a[..k][1..] == b[..k][1..] == b[1..][..k - 1];
        assert a[1..][k - 1] < b[1..][k - 1];
      }
    }
  }

  lemma LexLessCons(a: string, b: string)
    requires |a| > 0 && |b| > 0 && a[0] == b[0]
    ensures LexLess(a[1..], b[1..]) ==> LexLess(a, b)
  {
    if LexLess(a[1..], b[1..]) {
      if |a[1..]| < |b[1..]| && a[1..] == b[1..][..|a[1..]|] {
        assert a == [a[0]] + a[1..] && b[..|a|] == [b[0]] + b[1..][..|a[1..]|];
      } else {
        var k :| 0 <= k < |a[1..]| && k < |b[1..]| && a[1..][..k] == b[1..][..k] && a[1..][k] < b[1..][k];
        assert a[..k + 1] == [a[0]] + a[1..][..k];
        assert b[..k + 1] == [b[0]] + b[1..][..k];
        assert a[k + 1] < b[k + 1];
      }
    }
  }

  lemma {:induction false} StrLtIsLexLess(a: string, b: string)
    ensures StrLt(a, b) <==> LexLess(a, b)
    decreases |a|
  {
    if |a| == 0 || |b| == 0 {
    } else if a[0] != b[0] {
      LexLessHead(a, b);
    } else {
      StrLtIsLexLess(a[1..], b[1..]);
      LexLessTail(a, b);
      LexLessCons(a, b);
    }
  }

  lemma {:induction false} StrLtIrreflexive(a: string)
    ensures !StrLt(a, a)
    decreases |a|
  {
    if |a| > 0 {
      StrLtIrreflexive(a[1..]);
    }
  }

  lemma {:induction false} StrLtTransitive(a: string, b: string, c: string)
    requires StrLt(a, b) && StrLt(b, c)
    ensures StrLt(a, c)
    decreases |a|
  {
    if |a| > 0 && a[0] == b[0] && b[0] == c[0] {
      StrLtTransitive(a[1..], b[1..], c[1..]);
    }
  }

  /** Exactly one of `a < b`, `a == b`, `b < a` holds. */
  lemma {:induction false} StrLtTrichotomy(a: string, b: string)
    ensures StrLt(a, b) || a == b || StrLt(b, a)
    ensures !(StrLt(a, b) && StrLt(b, a))
    decreases |a|
  {
    if |a| > 0 && |b| > 0 && a[0] == b[0] {
      StrLtTrichotomy(a[1..], b[1..]);
      if a[1..] == b[1..] {
        assert a == [a[0]] + a[1..] && b == [b[0]] + b[1..];
      }
    }
  }

  /** Comparing two concatenations whose first parts have equal length
      compares the first parts, then the rest. */
  lemma {:induction false} StrLtAppend(x: string, u: string, y: string, v: string)
    requires |x| == |y|
    ensures StrLt(x + u, y + v) <==> StrLt(x, y) || (x == y && StrLt(u, v))
    decreases |x|
  {
    if |x| == 0 {
      assert x + u == u && y + v == v;
    } else {
      assert (x + u)[0] == x[0] && (y + v)[0] == y[0];
      assert (x + u)[1..] == x[1..] + u && (y + v)[1..] == y[1..] + v;
      StrLtAppend(x[1..], u, y[1..], v);
      if x[0] == y[0] && x[1..] == y[1..] {
        assert x == [x[0]] + x[1..] && y == [y[0]] + y[1..];
      }
      if x == y {
        assert x[1..] == y[1..];
      }
    }
  }

  function Pow10(n: nat): (p: nat)
    ensures p >= 1
  {
    if n == 0 then 1 else 10 * Pow10(n - 1)
  }

  function DigitValue(c: char): nat
    requires IsDigit(c)
  {
    (c as int) - ('0' as int)
  }

  /** The value of a decimal digit string, most significant digit first. */
  function DigitsValue(s: string): (v: nat)
    requires AllDigits(s)
    ensures v < Pow10(|s|)
    decreases |s|
  {
    if |s| == 0 then 0
    else
      var d, p := DigitValue(s[0]), Pow10(|s| - 1);
      assert 0 <= d * p && d * p + p <= 10 * p by {
        MulStep(d, 10, p);
      }
      assert AllDigits(s[1..]);
      d * p + DigitsValue(s[1..])
  }

  lemma MulStep(a: nat, b: nat, p: nat)
    requires a < b
    ensures 0 <= a * p && a * p + p <= b * p
  {
    var c := b - a - 1;
    assert b == a + 1 + c;
    assert (a + 1 + c) * p == a * p + p + c * p;
  }

  /** For digit strings of one length, JavaScript's string order is the
      numeric order. */
  lemma {:induction false} DigitStringOrder(x: string, y: string)
    requires AllDigits(x) && AllDigits(y) && |x| == |y|
    ensures StrLt(x, y) <==> DigitsValue(x) < DigitsValue(y)
    ensures x == y <==> DigitsValue(x) == DigitsValue(y)
    decreases |x|
  {
    if |x| > 0 {
      DigitStringOrder(x[1..], y[1..]);
      var p := Pow10(|x| - 1);
      var dx, dy := DigitValue(x[0]), DigitValue(y[0]);
      assert DigitsValue(x) == dx * p + DigitsValue(x[1..]);
      assert DigitsValue(y) == dy * p + DigitsValue(y[1..]);
      if dx < dy {
        MulStep(dx, dy, p);
      } else if dy < dx {
        MulStep(dy, dx, p);
      } else {
        assert x[0] == y[0];
        if x[1..] == y[1..] {
          assert x == [x[0]] + x[1..] && y == [y[0]] + y[1..];
        }
      }
    }
  }

  /** A `YYYY-MM-DD` string, as `Date.prototype.toISOString` and an HTML
      date input produce. */
  predicate IsIsoDate(s: string) {
    && |s| == 10 && s[4] == '-' && s[7] == '-'
    && AllDigits(s[..4]) && AllDigits(s[5..7]) && AllDigits(s[8..])
  }

  /** The calendar position of an ISO date, ordered by year, month, day. */
  function DayKey(s: string): nat
    requires IsIsoDate(s)
  {
    DigitsValue(s[..4]) * 10000 + DigitsValue(s[5..7]) * 100 + DigitsValue(s[8..])
  }

  /** Comparing ISO dates as strings compares them chronologically. */
  lemma IsoDateOrder(a: string, b: string)
    requires IsIsoDate(a) && IsIsoDate(b)
    ensures StrLt(a, b) <==> DayKey(a) < DayKey(b)
  {
    assert a == a[..4] + ("-" + (a[5..7] + ("-" + a[8..])));
    assert b == b[..4] + ("-" + (b[5..7] + ("-" + b[8..])));
    StrLtAppend(a[..4], "-" + (a[5..7] + ("-" + a[8..])), b[..4], "-" + (b[5..7] + ("-" + b[8..])));
    StrLtAppend("-", a[5..7] + ("-" + a[8..]), "-", b[5..7] + ("-" + b[8..]));
    StrLtAppend(a[5..7], "-" + a[8..], b[5..7], "-" + b[8..]);
    StrLtAppend("-", a[8..], "-", b[8..]);
    StrLtIrreflexive("-");
    DigitStringOrder(a[..4], b[..4]);
    DigitStringOrder(a[5..7], b[5..7]);
    DigitStringOrder(a[8..], b[8..]);
    assert Pow10(2) == 100;
  }
}
