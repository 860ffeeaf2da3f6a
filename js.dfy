/** The JavaScript built-ins the normalisers rely on, as the core uses them:
    truthiness and `||` defaults, `toLowerCase`, `includes`, `String(n)`,
    `padStart`, `parseInt`, `Math.round` and the truncating `%`. */
module Js {
  import opened Wrappers

  /** A JavaScript number as the core produces it: an integer, or NaN
      (what `parseInt` gives for a string without leading digits). */
  datatype Number = Num(value: int) | NaN

  // ---------------------------------------------------------------------
  // Truthiness and `||` defaults

  /** An optional string is truthy when it is present and non-empty. */
  predicate Truthy(s: Option<string>) {
    s.Some? && s.value != ""
  }

  /** `s || fallback` for an optional string. */
  function Or(s: Option<string>, fallback: string): string {
    if Truthy(s) then s.value else fallback
  }

  /** `a || b || ... || fallback`: the first truthy option, else the fallback. */
  function FirstTruthy(options: seq<Option<string>>, fallback: string): (r: string)
    ensures forall i :: 0 <= i < |options| && Truthy(options[i]) && (forall j :: 0 <= j < i ==> !Truthy(options[j]))
                        ==> r == options[i].value
    ensures (forall i :: 0 <= i < |options| ==> !Truthy(options[i])) ==> r == fallback
    ensures r == fallback || exists i :: 0 <= i < |options| && Truthy(options[i]) && r == options[i].value
  {
    if options == [] then fallback
    else if Truthy(options[0]) then options[0].value
    else
      var r := FirstTruthy(options[1..], fallback);
      assert forall i :: 1 <= i < |options| ==> options[i] == options[1..][i - 1];
      r
  }

  // ---------------------------------------------------------------------
  // toLowerCase and includes

  /** `toLowerCase` on one character; only the ASCII letters are mapped. */
  function LowerChar(c: char): char {
    if 'A' <= c <= 'Z' then (c as int + 32) as char else c
  }

  /** `s.toLowerCase()`, character by character. */
  function ToLower(s: string): (r: string)
    ensures |r| == |s|
    ensures forall i :: 0 <= i < |s| ==> r[i] == LowerChar(s[i])
  {
    seq(|s|, i requires 0 <= i < |s| => LowerChar(s[i]))
  }

  /** `s.includes(t)`: `t` occurs in `s` starting at some position. */
  predicate Includes(s: string, t: string)
    ensures |t| == 0 ==> Includes(s, t)
    ensures Includes(s, t) ==> |t| <= |s|
    decreases |s|
  {
    t <= s || (|s| > 0 && Includes(s[1..], t))
  }

  /** An occurrence of `t` at position `i` makes `s.includes(t)` true. */
  lemma {:induction false} IncludesAt(s: string, t: string, i: nat)
    requires i + |t| <= |s| && s[i..i + |t|] == t
    ensures Includes(s, t)
    decreases i
  {
    if i == 0 {
      assert t <= s;
    } else {
      assert s[1..][i - 1..i - 1 + |t|] == s[i..i + |t|];
      IncludesAt(s[1..], t, i - 1);
    }
  }

  /** Conversely, `s.includes(t)` means `t` occurs at some position. */
  lemma {:induction false} IncludesWitness(s: string, t: string) returns (i: nat)
    requires Includes(s, t)
    ensures i + |t| <= |s| && s[i..i + |t|] == t
    decreases |s|
  {
    if t <= s {
      i := 0;
    } else {
      var k := IncludesWitness(s[1..], t);
      assert s[1..][k..k + |t|] == s[k + 1..k + 1 + |t|];
      i := k + 1;
    }
  }

  /** A string that includes a non-empty `t` contains the first character of `t`;
      so a string without that character does not include `t`. */
  lemma IncludesFirstChar(s: string, t: string)
    requires |t| > 0 && Includes(s, t)
    ensures t[0] in s
  {
    var i := IncludesWitness(s, t);
    assert s[i] == s[i..i + |t|][0];
  }

  // ---------------------------------------------------------------------
  // Decimal digits, String(n) and parseInt

  predicate IsDigit(c: char) {
    '0' <= c <= '9'
  }

  predicate AllDigits(s: string) {
    forall i :: 0 <= i < |s| ==> IsDigit(s[i])
  }

  function DigitChar(d: nat): (c: char)
    requires d < 10
  {
    (48 + d) as char
  }

  function DigitValue(c: char): nat
    requires IsDigit(c)
  {
    c as int - 48
  }

  /** The value of a string of decimal digits, most significant first. */
  function DigitsValue(s: string): nat
    requires AllDigits(s)
  {
    if s == [] then 0 else DigitsValue(s[..|s| - 1]) * 10 + DigitValue(s[|s| - 1])
  }

  function Pow10(k: nat): (r: nat)
    ensures r >= 1
  {
    if k == 0 then 1 else 10 * Pow10(k - 1)
  }

  /** Digit strings compose: the value of `a + b` shifts `a` by the length of `b`. */
  lemma {:induction false} DigitsValueAppend(a: string, b: string)
    requires AllDigits(a) && AllDigits(b)
    ensures AllDigits(a + b)
    ensures DigitsValue(a + b) == DigitsValue(a) * Pow10(|b|) + DigitsValue(b)
    decreases |b|
  {
    assert AllDigits(a + b) by {
      forall i | 0 <= i < |a + b| ensures IsDigit((a + b)[i]) {
        if i < |a| { assert (a + b)[i] == a[i]; } else { assert (a + b)[i] == b[i - |a|]; }
      }
    }
    if b != [] {
      var b' := b[..|b| - 1];
      assert (a + b)[..|a + b| - 1] == a + b';
      assert (a + b)[|a + b| - 1] == b[|b| - 1];
      DigitsValueAppend(a, b');
      var x, y, p, d := DigitsValue(a), DigitsValue(b'), Pow10(|b'|), DigitValue(b[|b| - 1]);
      assert DigitsValue(a + b) == (x * p + y) * 10 + d;
      assert DigitsValue(b) == y * 10 + d;
      assert Pow10(|b|) == 10 * p;
      ShiftDigit(x, p, y, d);
    } else {
      assert a + b == a;
    }
  }

  lemma ShiftDigit(x: int, p: int, y: int, d: int)
    ensures (x * p + y) * 10 + d == x * (10 * p) + (y * 10 + d)
  {
  }

  /** The value of a two-digit string: tens, then units. */
  lemma TwoDigitValue(s: string)
    requires |s| == 2 && AllDigits(s)
    ensures DigitsValue(s) == DigitValue(s[0]) * 10 + DigitValue(s[1])
  {
    var t := s[..1];
    assert t[..0] == [] && t[0] == s[0];
    assert DigitsValue(t) == DigitValue(s[0]);
    assert s[..|s| - 1] == t;
  }

  /** A leading zero does not change the value of a digit string. */
  lemma LeadingZero(s: string)
    requires AllDigits(s)
    ensures AllDigits("0" + s) && DigitsValue("0" + s) == DigitsValue(s)
  {
    DigitsValueAppend("0", s);
  }

  /** `String(n)` for a non-negative integer: its decimal digits, most significant first. */
  function NatToString(n: nat): (r: string)
    ensures |r| > 0 && AllDigits(r)
    ensures DigitsValue(r) == n
    ensures n > 0 ==> r[0] != '0'
    ensures n < 10 ==> |r| == 1
    ensures 10 <= n < 100 ==> |r| == 2
    ensures 100 <= n < 1000 ==> |r| == 3
    ensures 1000 <= n < 10000 ==> |r| == 4
  {
    if n < 10 then [DigitChar(n)]
    else
      var p := NatToString(n / 10);
      var r := p + [DigitChar(n % 10)];
      assert r[..|r| - 1] == p;
      assert r[0] == p[0];
      assert |r| == |p| + 1;
      r
  }

  /** `String(i)` for an integer: a minus sign exactly for a negative number, then the
      decimal digits of its magnitude. */
  function IntToString(i: int): (r: string)
    ensures |r| > 0 && (r[0] == '-' <==> i < 0)
    ensures var digits := if i < 0 then r[1..] else r;
            |digits| > 0 && AllDigits(digits) && DigitsValue(digits) == if i < 0 then -i else i
    ensures var digits := if i < 0 then r[1..] else r;
            |digits| == 1 || digits[0] != '0'
    ensures IsNumeral(r) && NumeralValue(r) == i
  {
    if i < 0 then "-" + NatToString(-i) else NatToString(i)
  }

  /** Text in the form `String` gives an integer: an optional minus sign, then decimal digits
      with no leading zero, where zero is "0" and never "-0". */
  predicate IsNumeral(s: string) {
    |s| > 0 &&
    var digits := if s[0] == '-' then s[1..] else s;
    |digits| > 0 && AllDigits(digits) && (|digits| == 1 || digits[0] != '0') && (s[0] == '-' ==> digits[0] != '0')
  }

  /** The integer a numeral denotes. */
  function NumeralValue(s: string): int
    requires IsNumeral(s)
  {
    if s[0] == '-' then -(DigitsValue(s[1..]) as int) else DigitsValue(s)
  }

  /** `String` is exact: every numeral is the text `String` gives for its value, so no other
      text (a leading zero, a "-0", trailing characters) denotes the same integer. */
  lemma NumeralIsIntToString(s: string)
    requires IsNumeral(s)
    ensures IntToString(NumeralValue(s)) == s
  {
    if s[0] == '-' {
      var digits := s[1..];
      NonZeroLead(digits);
      NatToStringOfDigits(digits);
      assert s == "-" + digits;
    } else {
      NatToStringOfDigits(s);
    }
  }

  /** A digit string with no leading zero is the text `String` gives for its value. */
  lemma {:induction false} NatToStringOfDigits(s: string)
    requires |s| > 0 && AllDigits(s) && (|s| == 1 || s[0] != '0')
    ensures NatToString(DigitsValue(s)) == s
    decreases |s|
  {
    var p, c := s[..|s| - 1], s[|s| - 1];
    var v := DigitsValue(s);
    if |s| == 1 {
      assert p == [] && DigitsValue(p) == 0;
      assert v == DigitValue(c);
      assert s == [c];
    } else {
      assert p[0] == s[0];
      NatToStringOfDigits(p);
      NonZeroLead(p);
      assert v == DigitsValue(p) * 10 + DigitValue(c);
      assert v / 10 == DigitsValue(p) && v % 10 == DigitValue(c);
      assert s == p + [c];
    }
  }

  /** A digit string that does not start with '0' has a positive value. */
  lemma {:induction false} NonZeroLead(s: string)
    requires |s| > 0 && AllDigits(s) && s[0] != '0'
    ensures DigitsValue(s) > 0
    decreases |s|
  {
    if |s| > 1 {
      var p := s[..|s| - 1];
      assert p[0] == s[0];
      NonZeroLead(p);
    } else {
      assert s[..0] == [];
    }
  }

  predicate IsSpace(c: char) {
    c == ' ' || c == '\t' || c == '\n' || c == '\r'
  }

  /** The input with its leading white space removed. */
  function TrimStart(s: string): (r: string)
    ensures r == [] || !IsSpace(r[0])
    ensures |r| <= |s| && r == s[|s| - |r|..]
  {
    if s != [] && IsSpace(s[0]) then
      var r := TrimStart(s[1..]);
      assert s[1..][|s| - 1 - |r|..] == s[|s| - |r|..];
      r
    else s
  }

  /** The longest prefix of `s` made of decimal digits. */
  function LeadingDigits(s: string): (r: string)
    ensures r <= s && AllDigits(r)
    ensures |r| < |s| ==> !IsDigit(s[|r|])
  {
    if s != [] && IsDigit(s[0]) then [s[0]] + LeadingDigits(s[1..]) else []
  }

  /** `parseInt(s)` with the default radix: leading white space, an optional sign,
      then the longest run of decimal digits; NaN when there are no digits. */
  function ParseInt(s: string): (r: Number)
    ensures |s| > 0 && IsDigit(s[0]) ==> r == Num(DigitsValue(LeadingDigits(s)))
  {
    ParseSigned(TrimStart(s))
  }

  /** A string without a single decimal digit parses to NaN. */
  lemma ParseIntNoDigits(s: string)
    requires forall i :: 0 <= i < |s| ==> !IsDigit(s[i])
    ensures ParseInt(s).NaN?
  {
    var t := TrimStart(s);
    var u := if t != [] && (t[0] == '-' || t[0] == '+') then t[1..] else t;
    assert u == s[|s| - |u|..];
  }

  function ParseSigned(t: string): Number {
    if t != [] && t[0] == '-' then Negate(ParseDigits(t[1..]))
    else if t != [] && t[0] == '+' then ParseDigits(t[1..])
    else ParseDigits(t)
  }

  function ParseDigits(t: string): Number {
    var digits := LeadingDigits(t);
    if digits == [] then NaN else Num(DigitsValue(digits))
  }

  function Negate(x: Number): Number {
    match x
    case NaN => NaN
    case Num(v) => Num(-v)
  }

  /** The leading digits of a digit string followed by a non-digit are that digit string. */
  lemma {:induction false} LeadingDigitsOf(ds: string, rest: string)
    requires AllDigits(ds)
    requires rest == [] || !IsDigit(rest[0])
    ensures LeadingDigits(ds + rest) == ds
    decreases |ds|
  {
    if ds == [] {
      assert ds + rest == rest;
    } else {
      assert IsDigit(ds[0]);
      assert (ds + rest)[0] == ds[0];
      assert (ds + rest)[1..] == ds[1..] + rest;
      LeadingDigitsOf(ds[1..], rest);
      assert ds == [ds[0]] + ds[1..];
    }
  }

  /** A string that does not start with white space is its own trimmed form. */
  lemma TrimStartNoSpace(s: string)
    requires s == [] || !IsSpace(s[0])
    ensures TrimStart(s) == s
  {
  }

  /** `parseInt` reads back what `String` wrote, whatever non-digit text follows. */
  lemma ParseIntRoundTrip(n: int, rest: string)
    requires rest == [] || !IsDigit(rest[0])
    ensures ParseInt(IntToString(n) + rest) == Num(n)
  {
    if n < 0 {
      NegativeString(n, rest);
      ParseNegativeBack(IntToString(n) + rest, NatToString(-n), rest);
    } else {
      ParseNaturalBack(NatToString(n), rest);
    }
  }

  /** `String(n) + rest` for a negative `n`: a minus sign, then the digits of `-n`, then `rest`. */
  lemma NegativeString(n: int, rest: string)
    requires n < 0
    ensures var s := IntToString(n) + rest; |s| > 0 && s[0] == '-' && s[1..] == NatToString(-n) + rest
  {
    var ds := NatToString(-n);
    assert IntToString(n) == ['-'] + ds;
    FirstAndRest('-', ds, rest);
  }

  lemma FirstAndRest(c: char, ds: string, rest: string)
    ensures var s := [c] + ds + rest; |s| > 0 && s[0] == c && s[1..] == ds + rest
  {
    var s := [c] + ds + rest;
    assert s == [c] + (ds + rest);
  }

  /** A digit string with no leading white space, followed by a non-digit, parses to its value. */
  lemma ParseNaturalBack(ds: string, rest: string)
    requires |ds| > 0 && AllDigits(ds)
    requires rest == [] || !IsDigit(rest[0])
    ensures ParseInt(ds + rest) == Num(DigitsValue(ds))
  {
    var s := ds + rest;
    assert s[0] == ds[0] && IsDigit(ds[0]);
    TrimStartNoSpace(s);
    LeadingDigitsOf(ds, rest);
  }

  /** A minus sign, a digit string, then a non-digit, parses to the negated value. */
  lemma ParseNegativeBack(s: string, ds: string, rest: string)
    requires |ds| > 0 && AllDigits(ds)
    requires rest == [] || !IsDigit(rest[0])
    requires |s| > 0 && s[0] == '-' && s[1..] == ds + rest
    ensures ParseInt(s) == Num(-(DigitsValue(ds) as int))
  {
    TrimStartNoSpace(s);
    LeadingDigitsOf(ds, rest);
    assert ParseDigits(s[1..]) == Num(DigitsValue(ds));
    assert ParseSigned(s) == Negate(ParseDigits(s[1..]));
  }

  /** `parseInt` of a string of decimal digits is its value. */
  lemma ParseIntDigits(ds: string)
    requires |ds| > 0 && AllDigits(ds)
    ensures ParseInt(ds) == Num(DigitsValue(ds))
  {
    ParseNaturalBack(ds, []);
    assert ds + [] == ds;
  }

  /** `parseInt('0')` is zero. */
  lemma ParseIntZero(zero: string)
    requires |zero| == 1 && zero[0] == '0'
    ensures ParseInt(zero) == Num(0)
  {
    ParseIntDigits(zero);
    assert DigitsValue(zero) == 0 by {
      assert zero[..0] == [];
      assert DigitsValue(zero[..0]) == 0 && DigitValue(zero[0]) == 0;
    }
  }

  /** `s.padStart(width, fill)`: `fill` repeated in front of `s` up to `width` characters. */
  function PadStart(s: string, width: nat, fill: char): (r: string)
    ensures |r| == if |s| >= width then |s| else width
    ensures r[|r| - |s|..] == s
    ensures forall i :: 0 <= i < |r| - |s| ==> r[i] == fill
  {
    if |s| >= width then s else seq(width - |s|, _ => fill) + s
  }

  /** `String(n).padStart(2, '0')` for a one- or two-digit number reads back as `n`. */
  lemma TwoDigits(n: nat)
    requires n < 100
    ensures |PadStart(NatToString(n), 2, '0')| == 2
    ensures AllDigits(PadStart(NatToString(n), 2, '0'))
    ensures DigitsValue(PadStart(NatToString(n), 2, '0')) == n
  {
    var s := NatToString(n);
    if n < 10 {
      assert PadStart(s, 2, '0') == "0" + s;
      LeadingZero(s);
    }
  }

  // ---------------------------------------------------------------------
  // Comparison of numbers

  /** `a > b`: false whenever either side is NaN. */
  predicate Greater(a: Number, b: Number) {
    a.Num? && b.Num? && a.value > b.value
  }

  /** `a < b`: false whenever either side is NaN. */
  predicate Less(a: Number, b: Number) {
    a.Num? && b.Num? && a.value < b.value
  }

  // ---------------------------------------------------------------------
  // Math.round and %

  /** `Math.round(x)`: the nearest integer, halves rounded up. */
  function Round(x: real): (r: int)
    ensures r as real - 0.5 <= x < r as real + 0.5
  {
    (x + 0.5).Floor
  }

  /** JavaScript's `a % b` for `b > 0`: the remainder of truncated division,
      which takes the sign of `a`. */
  function Rem(a: int, b: int): (r: int)
    requires b > 0
    ensures a >= 0 ==> 0 <= r < b
    ensures a < 0 ==> -b < r <= 0
    ensures (a - r) % b == 0
  {
    if a >= 0 then
      Multiple(a, b);
      a % b
    else
      Multiple(-a, b);
      assert a - -((-a) % b) == -(-a - (-a) % b);
      -((-a) % b)
  }

  /** Taking away the remainder leaves a multiple of the divisor. */
  lemma Multiple(a: int, b: int)
    requires b > 0
    ensures (a - a % b) % b == 0 && (-(a - a % b)) % b == 0
  {
    var q := a / b;
    assert a - a % b == b * q;
    TimesMod(b, q);
    assert -(b * q) == b * -q;
    TimesMod(b, -q);
  }

  lemma TimesMod(b: int, q: int)
    requires b > 0
    ensures (b * q) % b == 0
  {
    var d, m := (b * q) / b, (b * q) % b;
    assert b * (q - d) == m by {
      assert b * q == b * d + m;
    }
    SmallMultiple(b, q - d);
  }

  /** The only multiple of `b` strictly between `-b` and `b` is zero. */
  lemma SmallMultiple(b: int, k: int)
    requires b > 0 && -b < b * k < b
    ensures k == 0
  {
    if k >= 1 {
      AtLeastOnce(b, k);
    } else if k <= -1 {
      AtLeastOnce(b, -k);
    }
  }

  lemma {:induction false} AtLeastOnce(b: int, k: int)
    requires b > 0 && k >= 1
    ensures b * k >= b
    decreases k
  {
    if k > 1 {
      AtLeastOnce(b, k - 1);
      assert b * k == b * (k - 1) + b;
    }
  }
}
