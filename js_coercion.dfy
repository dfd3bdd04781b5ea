/**
 * The few JavaScript coercions the budget server and the client forms rely on:
 * truthiness (`!x`), `Number(x)` (used by the global `isNaN`) and `parseFloat(x)`.
 * A NaN result is `None`; every other number is an exact `real`.
 */
module JsCoercion {

  datatype Option<T> = None | Some(value: T)

  /** A value as it reaches the code: a field of a JSON request body or a form input. */
  datatype JsValue = Undefined | Null | Bool(b: bool) | Num(x: real) | Str(s: string)

  /** JavaScript truthiness; a JSON number is never NaN, so the falsy values are these five. */
  function Truthy(v: JsValue): (t: bool)
    ensures !t <==> v in {Undefined, Null, Bool(false), Num(0.0), Str("")}
  {
    match v
    case Undefined => false
    case Null => false
    case Bool(b) => b
    case Num(x) => x != 0.0
    case Str(s) => s != ""
  }

  // ---------------------------------------------------------------------------------
  // White space

  /** The white space and line terminators both readers strip (StrWhiteSpaceChar of ECMA-262). */
  predicate IsJsSpace(c: char) {
    || c == '\U{0009}' || c == '\U{000A}' || c == '\U{000B}' || c == '\U{000C}' || c == '\U{000D}'
    || c == ' ' || c == '\U{00A0}' || c == '\U{1680}' || '\U{2000}' <= c <= '\U{200A}'
    || c == '\U{2028}' || c == '\U{2029}' || c == '\U{202F}' || c == '\U{205F}' || c == '\U{3000}'
    || c == '\U{FEFF}'
  }

  /** Text made of white space only; the empty text is blank too. */
  predicate Blank(s: string) {
    forall k :: 0 <= k < |s| ==> IsJsSpace(s[k])
  }

  lemma BlankCons(c: char, s: string)
    requires IsJsSpace(c) && Blank(s)
    ensures Blank([c] + s)
  {
    assert forall k :: 1 <= k <= |s| ==> ([c] + s)[k] == s[k - 1];
  }

  lemma BlankSnoc(s: string, c: char)
    requires Blank(s) && IsJsSpace(c)
    ensures Blank(s + [c])
  {
    assert forall k :: 0 <= k < |s| ==> (s + [c])[k] == s[k];
  }

  /** How many white-space characters the text starts with. */
  function LeadingSpace(s: string): (n: nat)
    ensures n <= |s| && Blank(s[..n])
    ensures n < |s| ==> !IsJsSpace(s[n])
  {
    if s != [] && IsJsSpace(s[0]) then
      var n := LeadingSpace(s[1..]);
      assert s[..1 + n] == [s[0]] + s[1..][..n];
      BlankCons(s[0], s[1..][..n]);
      1 + n
    else 0
  }

  /** The leading white space is the longest blank prefix: any blank prefix not followed by white space is it. */
  lemma LeadingSpaceOf(s: string, n: nat)
    requires n <= |s| && Blank(s[..n]) && (n < |s| ==> !IsJsSpace(s[n]))
    ensures LeadingSpace(s) == n
  {
    var m := LeadingSpace(s);
    assert forall k :: 0 <= k < n ==> IsJsSpace(s[k]) by {
      assert forall k :: 0 <= k < n ==> s[..n][k] == s[k];
    }
    assert forall k :: 0 <= k < m ==> IsJsSpace(s[k]) by {
      assert forall k :: 0 <= k < m ==> s[..m][k] == s[k];
    }
  }

  /** The text without its leading white space. */
  function TrimStart(s: string): (r: string)
    ensures |r| <= |s| && r == s[|s| - |r|..]
    ensures Blank(s[..|s| - |r|])
    ensures r == [] || !IsJsSpace(r[0])
  {
    s[LeadingSpace(s)..]
  }

  /** The text without its trailing white space. */
  function TrimEnd(s: string): (r: string)
    ensures r <= s
    ensures Blank(s[|r|..])
    ensures r == [] || !IsJsSpace(r[|r| - 1])
  {
    if s != [] && IsJsSpace(s[|s| - 1]) then
      var r := TrimEnd(s[..|s| - 1]);
      assert s[|r|..] == s[..|s| - 1][|r|..] + [s[|s| - 1]];
      BlankSnoc(s[..|s| - 1][|r|..], s[|s| - 1]);
      r
    else s
  }

  /** White space removed at both ends, as `Number` does before reading. */
  function Trim(s: string): string {
    TrimEnd(TrimStart(s))
  }

  /** Trimming leaves nothing exactly when the text is blank. */
  lemma TrimEmptyIffBlank(s: string)
    ensures Trim(s) == [] <==> Blank(s)
  {
    var u := TrimStart(s);
    var p := s[..|s| - |u|];
    assert s == p + u;
    if u != [] {
      assert s[|p|] == u[0];
    } else {
      assert s == p;
    }
  }

  /** Padding a text that has no white space at either end is undone by trimming. */
  lemma TrimPadded(pre: string, t: string, post: string)
    requires Blank(pre) && Blank(post)
    requires t != [] && !IsJsSpace(t[0]) && !IsJsSpace(t[|t| - 1])
    ensures TrimStart(pre + t + post) == t + post
    ensures Trim(pre + t + post) == t
  {
    assert pre + t + post == pre + (t + post);
    TrimStartPadded(pre, t + post);
    TrimEndPadded(t, post);
  }

  /** Leading white space in front of a text that does not start with one is removed. */
  lemma TrimStartPadded(pre: string, u: string)
    requires Blank(pre) && u != [] && !IsJsSpace(u[0])
    ensures TrimStart(pre + u) == u
  {
    var s := pre + u;
    assert s[..|pre|] == pre && s[|pre|] == u[0];
    LeadingSpaceOf(s, |pre|);
    assert s[|pre|..] == u;
  }

  /** Trailing white space after a text that does not end with one is removed. */
  lemma {:induction false} TrimEndPadded(u: string, post: string)
    requires Blank(post) && u != [] && !IsJsSpace(u[|u| - 1])
    ensures TrimEnd(u + post) == u
    decreases |post|
  {
    if post != [] {
      var last := |post| - 1;
      TrimEndStep(u, post);
      TrimEndPadded(u, post[..last]);
    } else {
      assert u + post == u;
    }
  }

  /** One trailing white-space character is dropped. */
  lemma TrimEndStep(u: string, post: string)
    requires post != [] && IsJsSpace(post[|post| - 1])
    ensures TrimEnd(u + post) == TrimEnd(u + post[..|post| - 1])
  {
    assert (u + post)[..|u + post| - 1] == u + post[..|post| - 1];
  }

  // ---------------------------------------------------------------------------------
  // Decimal digits

  predicate IsDigit(c: char) {
    '0' <= c <= '9'
  }

  function DigitValue(c: char): (d: nat)
    requires IsDigit(c)
    ensures d < 10
  {
    c as int - '0' as int
  }

  predicate AllDigits(s: string) {
    forall k :: 0 <= k < |s| ==> IsDigit(s[k])
  }

  /** Length of the longest run of decimal digits at the start of `s`. */
  function LeadingDigits(s: string): (n: nat)
    ensures n <= |s|
    ensures AllDigits(s[..n])
    ensures n < |s| ==> !IsDigit(s[n])
  {
    if s != [] && IsDigit(s[0]) then 1 + LeadingDigits(s[1..]) else 0
  }

  /** The digit run of `a + b` stops inside `a`, or runs through `a` into `b`. */
  lemma {:induction false} LeadingDigitsAppend(a: string, b: string)
    ensures LeadingDigits(a + b) == if LeadingDigits(a) < |a| then LeadingDigits(a) else |a| + LeadingDigits(b)
  {
    if a == [] {
      assert a + b == b;
    } else if IsDigit(a[0]) {
      assert (a + b)[1..] == a[1..] + b;
      LeadingDigitsAppend(a[1..], b);
    }
  }

  /** The value of a string of decimal digits, most significant digit first. */
  function DigitsValue(ds: string): nat
    requires AllDigits(ds)
  {
    if ds == [] then 0 else DigitsValue(ds[..|ds| - 1]) * 10 + DigitValue(ds[|ds| - 1])
  }

  function Pow10(n: nat): (p: nat)
    ensures p >= 1
  {
    if n == 0 then 1 else 10 * Pow10(n - 1)
  }

  /** The value of the digits after a point: 0.d₁…dₖ is their value over 10^k. */
  function FractionValue(ds: string): (v: real)
    requires AllDigits(ds)
    ensures v >= 0.0
    ensures ds == [] ==> v == 0.0
  {
    DigitsValue(ds) as real / Pow10(|ds|) as real
  }

  /** `m × 10^e`, one factor of ten at a time. */
  function Scale(m: real, e: int): (r: real)
    ensures m >= 0.0 ==> r >= 0.0
    decreases if e < 0 then -e else e
  {
    if e == 0 then m
    else if e > 0 then 10.0 * Scale(m, e - 1)
    else Scale(m, e + 1) / 10.0
  }

  lemma MultiplyStep(m: real, p: real)
    ensures 10.0 * (m * p) == m * (10.0 * p)
  {
  }

  lemma DivideStep(m: real, p: real)
    requires p > 0.0
    ensures m / p / 10.0 == m / (10.0 * p)
  {
  }

  /** Scaling up k times multiplies by 10^k. */
  lemma {:induction false} ScaleUp(m: real, k: nat)
    ensures Scale(m, k) == m * Pow10(k) as real
  {
    if k > 0 {
      ScaleUp(m, k - 1);
      MultiplyStep(m, Pow10(k - 1) as real);
    }
  }

  /** Scaling down k times divides by 10^k. */
  lemma {:induction false} ScaleDown(m: real, k: nat)
    ensures Scale(m, -(k as int)) == m / Pow10(k) as real
  {
    if k > 0 {
      ScaleDown(m, k - 1);
      DivideStep(m, Pow10(k - 1) as real);
    }
  }

  // ---------------------------------------------------------------------------------
  // The decimal-literal scanner shared by `Number` and `parseFloat`

  /** The value of the longest decimal prefix of a string and how many characters it spans. */
  datatype Scan = Scan(value: real, length: nat)

  /** Length of the optional sign in front of a number or an exponent. */
  function SignLength(s: string): (n: nat)
    ensures n <= 1 && n <= |s|
    ensures n == 1 <==> s != [] && (s[0] == '-' || s[0] == '+')
  {
    if s != [] && (s[0] == '-' || s[0] == '+') then 1 else 0
  }

  /** An unsigned literal needs a digit first, or a point and then a digit. */
  predicate StartsUnsigned(body: string) {
    (body != [] && IsDigit(body[0])) || (|body| >= 2 && body[0] == '.' && IsDigit(body[1]))
  }

  /** A literal is `[+-]? digits* ('.' digits*)? ([eE] [+-]? digits+)?` with a digit before the exponent. */
  predicate StartsNumeric(s: string) {
    StartsUnsigned(s[SignLength(s)..])
  }

  /** A character that cannot continue a literal read so far: not a digit, a point or an exponent mark. */
  predicate Stops(c: char) {
    MantissaStops(c) && c != 'e' && c != 'E'
  }

  /** A character that cannot continue a mantissa: not a digit or a point. */
  predicate MantissaStops(c: char) {
    !IsDigit(c) && c != '.'
  }

  /** The pieces of `digits* ('.' digits*)?`: the integer digits, whether a point follows, the digits after it. */
  datatype Mantissa = Mantissa(whole: string, point: bool, fraction: string)

  function MantissaLength(m: Mantissa): nat {
    |m.whole| + (if m.point then 1 + |m.fraction| else 0)
  }

  /** The longest `digits* ('.' digits*)?` at the start of `body`, in pieces. */
  function SplitMantissa(body: string): (m: Mantissa)
    ensures AllDigits(m.whole) && AllDigits(m.fraction)
    ensures !m.point ==> m.fraction == []
    ensures MantissaLength(m) <= |body|
    ensures |m.whole| + |m.fraction| > 0 <==> StartsUnsigned(body)
  {
    var intLen := LeadingDigits(body);
    var afterInt := body[intLen..];
    var point := afterInt != [] && afterInt[0] == '.';
    var fraction := if point then afterInt[1..] else "";
    Mantissa(body[..intLen], point, fraction[..LeadingDigits(fraction)])
  }

  /** The pieces of `[eE] [+-]? digits+`: the sign's length, whether it is a minus, the digits. */
  datatype ExponentPart = ExponentPart(signLength: nat, negative: bool, digits: string)

  function ExponentLength(e: Option<ExponentPart>): nat {
    if e.None? then 0 else 1 + e.value.signLength + |e.value.digits|
  }

  /** An exponent at the start of `x`, in pieces; without a digit there is none. */
  function SplitExponent(x: string): (e: Option<ExponentPart>)
    ensures e.Some? ==> AllDigits(e.value.digits) && x != [] && (x[0] == 'e' || x[0] == 'E')
    ensures ExponentLength(e) <= |x|
  {
    if x == [] || (x[0] != 'e' && x[0] != 'E') then None
    else
      var signLength := SignLength(x[1..]);
      var digits := x[1 + signLength..];
      var n := LeadingDigits(digits);
      if n == 0 then None
      else Some(ExponentPart(signLength, signLength == 1 && x[1] == '-', digits[..n]))
  }

  /** The power of ten an exponent stands for; 0 without one. */
  function Power(e: Option<ExponentPart>): int
    requires e.Some? ==> AllDigits(e.value.digits)
  {
    match e
    case None => 0
    case Some(p) => if p.negative then -(DigitsValue(p.digits) as int) else DigitsValue(p.digits)
  }

  /** A literal in pieces: its sign, its mantissa and its exponent. */
  datatype Literal = Literal(signLength: nat, negative: bool, mantissa: Mantissa, exponent: Option<ExponentPart>)

  /** The longest literal at the start of `s`, in pieces. */
  function SplitLiteral(s: string): (lit: Literal)
    ensures AllDigits(lit.mantissa.whole) && AllDigits(lit.mantissa.fraction)
    ensures lit.exponent.Some? ==> AllDigits(lit.exponent.value.digits)
    ensures LiteralLength(lit) <= |s|
    ensures lit.signLength == SignLength(s) && (lit.negative <==> lit.signLength == 1 && s[0] == '-')
    ensures |lit.mantissa.whole| + |lit.mantissa.fraction| > 0 <==> StartsNumeric(s)
  {
    var signLength := SignLength(s);
    var body := s[signLength..];
    var m := SplitMantissa(body);
    Literal(signLength, signLength == 1 && s[0] == '-', m, SplitExponent(body[MantissaLength(m)..]))
  }

  function LiteralLength(lit: Literal): nat {
    lit.signLength + MantissaLength(lit.mantissa) + ExponentLength(lit.exponent)
  }

  /** ± (whole digits + 0.fraction) × 10^power. */
  function LiteralValue(lit: Literal): (v: real)
    requires AllDigits(lit.mantissa.whole) && AllDigits(lit.mantissa.fraction)
    requires lit.exponent.Some? ==> AllDigits(lit.exponent.value.digits)
    ensures !lit.negative ==> v >= 0.0
  {
    var magnitude := Scale(DigitsValue(lit.mantissa.whole) as real + FractionValue(lit.mantissa.fraction), Power(lit.exponent));
    if lit.negative then -magnitude else magnitude
  }

  /** Reads the longest decimal literal at the start of `s`, as `parseFloat` does. */
  function ScanDecimal(s: string): (r: Option<Scan>)
    ensures r.Some? <==> StartsNumeric(s)
    ensures r.Some? ==> 0 < r.value.length <= |s|
    ensures r.Some? && s[0] != '-' ==> r.value.value >= 0.0
  {
    var lit := SplitLiteral(s);
    if |lit.mantissa.whole| + |lit.mantissa.fraction| == 0 then None
    else Some(Scan(LiteralValue(lit), LiteralLength(lit)))
  }

  // ---------------------------------------------------------------------------------
  // Binary, octal and hexadecimal integers, which only `Number` reads

  /** The radix a `0b`, `0o` or `0x` prefix announces; 0 for any other letter. */
  function Radix(c: char): nat {
    if c == 'b' || c == 'B' then 2
    else if c == 'o' || c == 'O' then 8
    else if c == 'x' || c == 'X' then 16
    else 0
  }

  /** The value of a hexadecimal digit; 16 for a character that is none. */
  function HexDigitValue(c: char): (d: nat)
    ensures d <= 16
  {
    if '0' <= c <= '9' then c as int - '0' as int
    else if 'a' <= c <= 'f' then c as int - 'a' as int + 10
    else if 'A' <= c <= 'F' then c as int - 'A' as int + 10
    else 16
  }

  predicate RadixDigits(ds: string, radix: nat) {
    forall k :: 0 <= k < |ds| ==> HexDigitValue(ds[k]) < radix
  }

  function RadixValue(ds: string, radix: nat): nat
    requires RadixDigits(ds, radix)
  {
    if ds == [] then 0 else RadixValue(ds[..|ds| - 1], radix) * radix + HexDigitValue(ds[|ds| - 1])
  }

  /** `0b`, `0o` or `0x` and at least one digit of that radix; no sign is allowed. */
  predicate NonDecimalLiteral(t: string) {
    |t| >= 3 && t[0] == '0' && Radix(t[1]) > 0 && RadixDigits(t[2..], Radix(t[1]))
  }

  // ---------------------------------------------------------------------------------
  // The two readers

  /**
   * `Number(s)` for a string: after trimming, the whole text must be one literal;
   * a blank text is 0.
   */
  function NumberOfText(s: string): Option<real> {
    var t := Trim(s);
    if t == "" then Some(0.0)
    else if NonDecimalLiteral(t) then Some(RadixValue(t[2..], Radix(t[1])) as real)
    else match ScanDecimal(t)
      case Some(sc) => if sc.length == |t| then Some(sc.value) else None
      case None => None
  }

  /** `parseFloat(s)` for a string: the longest decimal prefix after leading white space; NaN when there is none. */
  function ParseFloatText(s: string): Option<real> {
    match ScanDecimal(TrimStart(s))
    case Some(sc) => Some(sc.value)
    case None => None
  }

  /** `String(v)` for the values whose text does not depend on number formatting. */
  function Text(v: JsValue): string
    requires !v.Num?
  {
    match v
    case Undefined => "undefined"
    case Null => "null"
    case Bool(b) => if b then "true" else "false"
    case Str(s) => s
  }

  /** A text that starts with a lowercase letter has no numeric prefix. */
  lemma LetterFirstHasNoNumber(s: string)
    requires s != [] && 'a' <= s[0] <= 'z'
    ensures ParseFloatText(s).None?
  {
    assert ScanDecimal(TrimStart(s)).None? by {
      assert TrimStart(s) == s;
      assert !StartsNumeric(s) by {
        assert SignLength(s) == 0 && s[0..] == s;
      }
    }
  }

  /** `Number(v)`, the coercion behind the global `isNaN(v)`. */
  function NumberOf(v: JsValue): (r: Option<real>)
    ensures r.None? <==> v.Undefined? || (v.Str? && NumberOfText(v.s).None?)
    ensures v.Num? ==> r == Some(v.x)
  {
    match v
    case Undefined => None
    case Null => Some(0.0)
    case Bool(b) => Some(if b then 1.0 else 0.0)
    case Num(x) => Some(x)
    case Str(s) => NumberOfText(s)
  }

  /**
   * `parseFloat(v)`: the argument is first turned into text. A number's own text reads back
   * as itself; "undefined", "null", "true" and "false" have no numeric prefix.
   */
  function ParseFloat(v: JsValue): (r: Option<real>)
    ensures r.Some? ==> v.Num? || v.Str?
    ensures v.Num? ==> r == Some(v.x)
  {
    match v
    case Num(x) => Some(x)
    case Str(s) => ParseFloatText(s)
    case _ =>
      LetterFirstHasNoNumber(Text(v));
      ParseFloatText(Text(v))
  }

  /** The form-field test `!(!v || isNaN(v))` used throughout the application. */
  function NumericInput(v: JsValue): (ok: bool)
    ensures v.Str? ==> (ok <==> v.s != "" && NumberOfText(v.s).Some?)
    ensures v.Num? ==> (ok <==> v.x != 0.0)
    ensures v.Bool? ==> (ok <==> v.b)
    ensures v.Undefined? || v.Null? ==> !ok
  {
    Truthy(v) && NumberOf(v).Some?
  }

  // ---------------------------------------------------------------------------------
  // How the readers relate

  /** `Number` reads blank text as 0; `parseFloat` finds no number in it. */
  lemma BlankText(s: string)
    requires Blank(s)
    ensures NumberOfText(s) == Some(0.0)
    ensures ParseFloatText(s).None?
  {
    TrimEmptyIffBlank(s);
  }

  /** The digit run at the start of `a` is unchanged by `b` when the run stops inside `a` or `b` stops it. */
  lemma {:induction false} DigitRunExtends(a: string, b: string)
    requires LeadingDigits(a) < |a| || b == [] || !IsDigit(b[0])
    ensures var n := LeadingDigits(a);
      LeadingDigits(a + b) == n && (a + b)[..n] == a[..n] && (a + b)[n..] == a[n..] + b
  {
    LeadingDigitsAppend(a, b);
  }

  lemma PointMantissaExtends(body: string, rest: string)
    requires LeadingDigits(body) < |body| && body[LeadingDigits(body)] == '.'
    requires var fraction := body[LeadingDigits(body) + 1..];
      LeadingDigits(fraction) < |fraction| || rest == [] || !IsDigit(rest[0])
    ensures SplitMantissa(body + rest) == SplitMantissa(body)
  {
    var s := body + rest;
    var intLen := LeadingDigits(body);
    var fraction := body[intLen + 1..];
    DigitRunExtends(body, rest);
    assert s[intLen..][1..] == fraction + rest && s[intLen..][0] == '.' by {
      SliceOfAppend(body, rest, intLen + 1);
      assert s[intLen..][1..] == s[intLen + 1..];
    }
    DigitRunExtends(fraction, rest);
  }

  /** The mantissa read in `body` is read the same when `body` goes on past it, or text that stops it follows. */
  lemma MantissaExtends(body: string, rest: string)
    requires MantissaLength(SplitMantissa(body)) < |body| || rest == [] || MantissaStops(rest[0])
    ensures SplitMantissa(body + rest) == SplitMantissa(body)
  {
    var intLen := LeadingDigits(body);
    var afterInt := body[intLen..];
    if afterInt != [] && afterInt[0] == '.' {
      assert afterInt[1..] == body[intLen + 1..];
      PointMantissaExtends(body, rest);
    } else {
      DigitRunExtends(body, rest);
    }
  }

  /** The exponent read in `x` is read the same when `x` goes on past it, or a non-digit follows. */
  lemma ExponentExtends(x: string, rest: string)
    requires SplitExponent(x).Some?
    requires ExponentLength(SplitExponent(x)) < |x| || rest == [] || !IsDigit(rest[0])
    ensures SplitExponent(x + rest) == SplitExponent(x)
  {
    var signLength := SignLength(x[1..]);
    var digits := x[1 + signLength..];
    assert (x + rest)[1..] == x[1..] + rest && x[1..] != [] by {
      SliceOfAppend(x, rest, 1);
    }
    assert (x + rest)[1 + signLength..] == digits + rest by {
      SliceOfAppend(x, rest, 1 + signLength);
    }
    assert (x + rest)[0] == x[0] && (x + rest)[1] == x[1];
    assert SignLength((x + rest)[1..]) == signLength;
    DigitRunExtends(digits, rest);
  }

  /** An exponent read to the end of `x`, or no exponent in an empty `x`, is read the same when text that stops it follows. */
  lemma WholeExponentExtends(x: string, rest: string)
    requires ExponentLength(SplitExponent(x)) == |x|
    requires rest == [] || Stops(rest[0])
    ensures SplitExponent(x + rest) == SplitExponent(x)
  {
    if SplitExponent(x).Some? {
      ExponentExtends(x, rest);
    } else {
      assert x == [];
      assert x + rest == rest;
    }
  }

  lemma SliceOfAppend(a: string, b: string, k: nat)
    requires k <= |a|
    ensures (a + b)[k..] == a[k..] + b
  {
    assert forall i :: 0 <= i < |a| - k + |b| ==> (a + b)[k..][i] == (a[k..] + b)[i];
  }

  /** A literal that is read whole is read the same when text that stops it follows. */
  lemma LiteralExtends(t: string, rest: string)
    requires t != [] && LiteralLength(SplitLiteral(t)) == |t|
    requires rest == [] || Stops(rest[0])
    ensures SplitLiteral(t + rest) == SplitLiteral(t)
  {
    var signLength := SignLength(t);
    var body := t[signLength..];
    var m := SplitMantissa(body);
    var x := body[MantissaLength(m)..];
    SplitLiteralOf(t, body, m, x);
    SignExtends(t, rest);
    MantissaPartExtends(body, rest, m, x);
    WholeExponentExtends(x, rest);
    SplitLiteralOf(t + rest, body + rest, m, x + rest);
  }

  lemma SignExtends(t: string, rest: string)
    requires t != []
    ensures SignLength(t + rest) == SignLength(t) && (t + rest)[0] == t[0]
    ensures (t + rest)[SignLength(t)..] == t[SignLength(t)..] + rest
  {
    SliceOfAppend(t, rest, SignLength(t));
  }

  lemma MantissaPartExtends(body: string, rest: string, m: Mantissa, x: string)
    requires m == SplitMantissa(body) && x == body[MantissaLength(m)..]
    requires MantissaLength(m) < |body| || rest == [] || MantissaStops(rest[0])
    ensures SplitMantissa(body + rest) == m && (body + rest)[MantissaLength(m)..] == x + rest
  {
    MantissaExtends(body, rest);
    SliceOfAppend(body, rest, MantissaLength(m));
  }

  /** `SplitLiteral` in terms of its pieces: the body after the sign, its mantissa, and what follows. */
  lemma SplitLiteralOf(s: string, body: string, m: Mantissa, x: string)
    requires body == s[SignLength(s)..] && m == SplitMantissa(body) && x == body[MantissaLength(m)..]
    ensures SplitLiteral(s) == Literal(SignLength(s), SignLength(s) == 1 && s[0] == '-', m, SplitExponent(x))
  {
  }

  lemma ScanDecimalExtends(t: string, rest: string)
    requires ScanDecimal(t).Some? && ScanDecimal(t).value.length == |t|
    requires rest == [] || Stops(rest[0])
    ensures ScanDecimal(t + rest) == ScanDecimal(t)
  {
    LiteralExtends(t, rest);
  }

  /** A literal starts with a sign, a digit or a point, none of which is white space. */
  lemma NumericStartNotSpace(s: string)
    requires StartsNumeric(s)
    ensures !IsJsSpace(s[0])
  {
    assert s[0] == '-' || s[0] == '+' || s[0] == '.' || IsDigit(s[0]);
  }

  /** `parseFloat` reads a literal and ignores what follows it, as in "12px". */
  lemma ParseFloatIgnoresTrailingText(t: string, rest: string)
    requires ScanDecimal(t).Some? && ScanDecimal(t).value.length == |t|
    requires rest == [] || Stops(rest[0])
    ensures ParseFloatText(t + rest) == Some(ScanDecimal(t).value.value)
  {
    assert TrimStart(t + rest) == t + rest by {
      NumericStartNotSpace(t);
      assert (t + rest)[0] == t[0];
    }
    assert ScanDecimal(t + rest) == ScanDecimal(t) by {
      ScanDecimalExtends(t, rest);
    }
  }

  /** A `0b`, `0o` or `0x` literal is read by `parseFloat` as its leading "0". */
  lemma NonDecimalPrefix(u: string)
    requires |u| >= 2 && u[0] == '0' && Radix(u[1]) > 0
    ensures ScanDecimal(u) == Some(Scan(0.0, 1))
  {
    assert LeadingDigits(u[1..]) == 0;
    assert u[..1] == "0";
    assert DigitsValue("0") == 0 by {
      assert "0"[..0] == [];
    }
    assert SplitMantissa(u) == Mantissa("0", false, "");
    assert u[1..][0] == u[1];
    assert SplitExponent(u[1..]).None?;
  }

  /** `parseFloat` reads a `0b`/`0o`/`0x` literal, with any white space around it, as 0. */
  lemma NonDecimalReadsZero(s: string)
    requires NonDecimalLiteral(Trim(s))
    ensures ParseFloatText(s) == Some(0.0)
  {
    var u := TrimStart(s);
    var t := Trim(s);
    assert t <= u;
    assert u[0] == '0' && u[1] == t[1];
    NonDecimalPrefix(u);
  }

  /** A `0b`/`0o`/`0x` literal passes the falsy-or-NaN test, and `parseFloat` reads it as 0. */
  lemma NonDecimalInput(s: string)
    requires NonDecimalLiteral(Trim(s))
    ensures NumericInput(Str(s)) && NumberOfText(s).Some?
    ensures ParseFloatText(s) == Some(0.0) && ParseFloat(Str(s)) == Some(0.0)
  {
    var t := Trim(s);
    assert s != "" && t != "" by {
      assert |t| <= |TrimStart(s)| <= |s|;
    }
    assert NumberOfText(s) == Some(RadixValue(t[2..], Radix(t[1])) as real);
    NonDecimalReadsZero(s);
  }

  lemma SpaceStops(c: char)
    requires IsJsSpace(c)
    ensures Stops(c)
  {
  }

  /** White space after a whole literal does not change what the scanner reads. */
  lemma ScanIgnoresSpaceAfter(t: string, rest: string)
    requires ScanDecimal(t).Some? && ScanDecimal(t).value.length == |t|
    requires rest == [] || IsJsSpace(rest[0])
    ensures ScanDecimal(t + rest) == ScanDecimal(t)
  {
    if rest != [] {
      SpaceStops(rest[0]);
    }
    ScanDecimalExtends(t, rest);
  }

  /** A decimal literal that `Number` reads whole is read to the same value by `parseFloat`. */
  lemma DecimalReadsAlike(s: string)
    requires NumberOfText(s).Some? && Trim(s) != "" && !NonDecimalLiteral(Trim(s))
    ensures ParseFloatText(s) == NumberOfText(s)
  {
    var t := Trim(s);
    var rest := TrimStart(s)[|t|..];
    NumberReadsWhole(s);
    TrimEndLeavesSpace(TrimStart(s));
    ScanIgnoresSpaceAfter(t, rest);
  }

  /** Where `Number` reads a decimal literal, the scanner reads all of the trimmed text. */
  lemma NumberReadsWhole(s: string)
    requires NumberOfText(s).Some? && Trim(s) != "" && !NonDecimalLiteral(Trim(s))
    ensures ScanDecimal(Trim(s)).Some? && ScanDecimal(Trim(s)).value.length == |Trim(s)|
    ensures NumberOfText(s) == Some(ScanDecimal(Trim(s)).value.value)
  {
  }

  /** Trimming the end of a text leaves a prefix followed by white space. */
  lemma TrimEndLeavesSpace(u: string)
    ensures |TrimEnd(u)| <= |u| && u == TrimEnd(u) + u[|TrimEnd(u)|..]
    ensures u[|TrimEnd(u)|..] == [] || IsJsSpace(u[|TrimEnd(u)|..][0])
  {
    var t := TrimEnd(u);
    var r := u[|t|..];
    assert t <= u && Blank(r);
    assert u == t + r;
    if r != [] {
      assert IsJsSpace(r[0]);
    }
  }

  /**
   * Where `Number` reads a text, `parseFloat` reads it to the same value, except blank text
   * (`Number` gives 0, `parseFloat` NaN) and a `0b`/`0o`/`0x` literal (`parseFloat` reads its "0").
   */
  lemma NumberTextAgreesWithParseFloat(s: string)
    requires NumberOfText(s).Some?
    ensures Blank(s) ==> ParseFloatText(s).None?
    ensures NonDecimalLiteral(Trim(s)) ==> ParseFloatText(s) == Some(0.0)
    ensures !Blank(s) && !NonDecimalLiteral(Trim(s)) ==> ParseFloatText(s) == NumberOfText(s)
  {
    TrimEmptyIffBlank(s);
    if Blank(s) {
      BlankText(s);
    } else if NonDecimalLiteral(Trim(s)) {
      NonDecimalReadsZero(s);
    } else {
      DecimalReadsAlike(s);
    }
  }

  /** The accepted inputs `parseFloat` cannot read are `true` and blank non-empty text. */
  lemma NumericInputParses(v: JsValue)
    requires NumericInput(v)
    ensures ParseFloat(v).None? <==> v == Bool(true) || (v.Str? && Blank(v.s))
    ensures v.Str? && !Blank(v.s) && !NonDecimalLiteral(Trim(v.s)) ==> ParseFloat(v) == NumberOf(v)
  {
    if v.Str? {
      NumberTextAgreesWithParseFloat(v.s);
    }
  }

  /** `Number` reads a `0b`/`0o`/`0x` literal without white space at its ends in its radix. */
  lemma ReadNonDecimal(t: string)
    requires NonDecimalLiteral(t)
    ensures Trim(t) == t
    ensures NumberOfText(t) == Some(RadixValue(t[2..], Radix(t[1])) as real)
  {
    TrimPadded("", t, "");
    assert "" + t + "" == t;
  }

  /** "0x10" is the hexadecimal literal for 16. */
  lemma HexSixteen()
    ensures NonDecimalLiteral(Trim("0x10")) && NumberOfText("0x10") == Some(16.0)
  {
    HexPieces();
    ReadNonDecimal("0x10");
  }

  lemma HexPieces()
    ensures NonDecimalLiteral("0x10") && !IsJsSpace("0x10"[3])
    ensures "0x10"[2..] == "10" && Radix("0x10"[1]) == 16 && RadixValue("10", 16) == 16
  {
    assert "10"[..1] == "1" && "1"[..0] == [];
  }

  /** The two readers disagree on a hexadecimal literal and on blank text. */
  lemma ReadersDisagree()
    ensures NumberOfText("0x10") == Some(16.0) && ParseFloatText("0x10") == Some(0.0)
    ensures NumberOfText(" ") == Some(0.0) && ParseFloatText(" ").None?
  {
    assert NumberOfText("0x10") == Some(16.0) && ParseFloatText("0x10") == Some(0.0) by {
      HexSixteen();
      NonDecimalReadsZero("0x10");
    }
    SingleSpace();
  }

  /** The text of one space is blank. */
  lemma SingleSpace()
    ensures NumberOfText(" ") == Some(0.0) && ParseFloatText(" ").None?
  {
    BlankText(" ");
  }

  // ---------------------------------------------------------------------------------
  // Reading back what is written
  //
  // The round trips below reach the readers through a chain of small lemmas (for instance
  // FractionTextRoundTrip, FractionRead, ReadWholeLiteral, ReadLiteral, ReadUnpadded,
  // Untrimmed), and a few lemmas with empty bodies (NumberReadsTrimmed, ParseFloatReadsScan,
  // ScanOfSplit, SplitLiteralOf, DigitEnds) only name one unfolding of a definition. Each
  // link keeps one proof obligation small: merged, the proofs exceed the solver's resource
  // limit on some random seeds.

  function DigitChar(d: nat): (c: char)
    requires d < 10
    ensures IsDigit(c) && DigitValue(c) == d
  {
    ('0' as int + d) as char
  }

  /** `String(n)` for a natural number: its shortest decimal digits. */
  function DecimalText(n: nat): (s: string)
    ensures s != [] && AllDigits(s)
  {
    if n < 10 then [DigitChar(n)] else DecimalText(n / 10) + [DigitChar(n % 10)]
  }

  lemma {:induction false} DigitsValueOfDecimalText(n: nat)
    ensures DigitsValue(DecimalText(n)) == n
  {
    var s := DecimalText(n);
    if n >= 10 {
      DigitsValueOfDecimalText(n / 10);
      assert s[..|s| - 1] == DecimalText(n / 10);
    }
  }

  /** Digits, then optionally a point and more digits, split into those pieces. */
  lemma SplitDigits(d: string, f: string, point: bool, rest: string)
    requires d != [] && AllDigits(d) && AllDigits(f) && (f != [] ==> point)
    requires rest == [] || MantissaStops(rest[0])
    ensures SplitMantissa((if point then d + "." + f else d) + rest) == Mantissa(d, point, f)
  {
    var t := if point then d + "." + f else d;
    assert LeadingDigits(d) == |d|;
    if point {
      assert t == d + ("." + f);
      DigitRunExtends(d, "." + f);
      assert t[..|d|] == d && t[|d|..][1..] == f;
      assert LeadingDigits(f) == |f| && f[..|f|] == f;
    } else {
      assert t[..|d|] == d && t[|d|..] == [];
    }
    MantissaExtends(t, rest);
  }

  /** A literal without white space at its ends is read by both readers as the scanner reads it. */
  lemma ReadUnpadded(t: string)
    requires t != [] && !IsJsSpace(t[0]) && !IsJsSpace(t[|t| - 1]) && !NonDecimalLiteral(t)
    requires ScanDecimal(t).Some? && ScanDecimal(t).value.length == |t|
    ensures NumberOfText(t) == Some(ScanDecimal(t).value.value)
    ensures ParseFloatText(t) == Some(ScanDecimal(t).value.value)
  {
    Untrimmed(t);
  }

  /** Text without white space at its ends is left alone by trimming. */
  lemma Untrimmed(t: string)
    requires t != [] && !IsJsSpace(t[0]) && !IsJsSpace(t[|t| - 1])
    ensures TrimStart(t) == t && Trim(t) == t
  {
    TrimPadded("", t, "");
    assert "" + t + "" == t;
  }

  /** A run of digits is read by both readers as its value. */
  lemma ReadDigits(d: string)
    requires d != [] && AllDigits(d)
    ensures NumberOfText(d) == Some(DigitsValue(d) as real)
    ensures ParseFloatText(d) == Some(DigitsValue(d) as real)
  {
    var lit := Literal(0, false, Mantissa(d, false, ""), None);
    PlainPieces(d, "", false);
    PlainEnds(d, "", false);
    ReadWholeLiteral(d, lit);
  }

  /** A whole literal without a sign or an exponent reads as its digits plus its fraction. */
  lemma ReadWholeLiteral(t: string, lit: Literal)
    requires SplitLiteral(t) == lit && t != [] && LiteralLength(lit) == |t|
    requires lit.signLength == 0 && lit.exponent.None? && lit.mantissa.whole != []
    requires !IsJsSpace(t[0]) && !IsJsSpace(t[|t| - 1]) && !NonDecimalLiteral(t)
    ensures NumberOfText(t) == Some(DigitsValue(lit.mantissa.whole) as real + FractionValue(lit.mantissa.fraction))
    ensures ParseFloatText(t) == Some(DigitsValue(lit.mantissa.whole) as real + FractionValue(lit.mantissa.fraction))
  {
    ReadLiteral(t, lit, DigitsValue(lit.mantissa.whole) as real + FractionValue(lit.mantissa.fraction));
  }

  /** Digits, an optional point and digits split into those pieces, with nothing left over. */
  lemma PlainPieces(d: string, f: string, point: bool)
    requires d != [] && AllDigits(d) && AllDigits(f) && (f != [] ==> point)
    ensures var t := if point then d + "." + f else d;
      var lit := Literal(0, false, Mantissa(d, point, f), None);
      SplitLiteral(t) == lit && LiteralLength(lit) == |t|
  {
    var t := if point then d + "." + f else d;
    SplitDigits(d, f, point, "");
    assert t + "" == t && t[|t|..] == [];
  }

  /** Such text starts with a digit and ends with a digit or a point, so it is neither padded nor `0x…`. */
  lemma PlainEnds(d: string, f: string, point: bool)
    requires d != [] && AllDigits(d) && AllDigits(f)
    ensures var t := if point then d + "." + f else d;
      !IsJsSpace(t[0]) && !IsJsSpace(t[|t| - 1]) && !NonDecimalLiteral(t)
  {
    var t := if point then d + "." + f else d;
    assert t[0] == d[0];
    assert t[|t| - 1] == (if point && f == [] then '.' else if point then f[|f| - 1] else d[|d| - 1]);
    if |t| >= 2 {
      assert t[1] == (if |d| >= 2 then d[1] else '.');
    }
  }

  /** Both readers recover a natural number from its decimal text. */
  lemma DecimalTextRoundTrip(n: nat)
    ensures NumberOfText(DecimalText(n)) == Some(n as real)
    ensures ParseFloatText(DecimalText(n)) == Some(n as real)
  {
    ReadDigits(DecimalText(n));
    DigitsValueOfDecimalText(n);
  }

  /**
   * Both readers recover a number with a fractional part: digits `d`, a point and digits `f`
   * read as d + 0.f, where 0.f is f / 10^|f|.
   */
  lemma FractionTextRoundTrip(d: string, f: string)
    requires d != [] && AllDigits(d) && AllDigits(f)
    ensures NumberOfText(d + "." + f) == Some(DigitsValue(d) as real + FractionValue(f))
    ensures ParseFloatText(d + "." + f) == Some(DigitsValue(d) as real + FractionValue(f))
  {
    var t := d + "." + f;
    assert SplitLiteral(t) == Literal(0, false, Mantissa(d, true, f), None) by {
      PlainPieces(d, f, true);
    }
    assert !IsJsSpace(t[0]) && !IsJsSpace(t[|t| - 1]) && !NonDecimalLiteral(t) by {
      PlainEnds(d, f, true);
    }
    FractionRead(d, f, t);
  }

  /** A literal that splits into digits, a point and digits reads as the digits plus the fraction. */
  lemma FractionRead(d: string, f: string, t: string)
    requires d != [] && AllDigits(d) && AllDigits(f) && |t| == |d| + 1 + |f|
    requires SplitLiteral(t) == Literal(0, false, Mantissa(d, true, f), None)
    requires !IsJsSpace(t[0]) && !IsJsSpace(t[|t| - 1]) && !NonDecimalLiteral(t)
    ensures NumberOfText(t) == Some(DigitsValue(d) as real + FractionValue(f))
    ensures ParseFloatText(t) == Some(DigitsValue(d) as real + FractionValue(f))
  {
    ReadWholeLiteral(t, Literal(0, false, Mantissa(d, true, f), None));
  }

  /** Both readers recover the negation of a natural number from its text after a minus sign. */
  lemma NegativeTextRoundTrip(n: nat)
    ensures NumberOfText("-" + DecimalText(n)) == Some(-(n as real))
    ensures ParseFloatText("-" + DecimalText(n)) == Some(-(n as real))
  {
    var d := DecimalText(n);
    NegativeLiteral(d);
    DigitsValueOfDecimalText(n);
    ReadLiteral("-" + d, Literal(1, true, Mantissa(d, false, ""), None), -(n as real));
  }

  /** A minus sign before a run of digits makes one unpadded decimal literal worth minus the digits. */
  lemma NegativeLiteral(d: string)
    requires d != [] && AllDigits(d)
    ensures var s := "-" + d;
      var lit := Literal(1, true, Mantissa(d, false, ""), None);
      SplitLiteral(s) == lit && s != [] && LiteralLength(lit) == |s|
      && !IsJsSpace(s[0]) && !IsJsSpace(s[|s| - 1]) && !NonDecimalLiteral(s)
      && LiteralValue(lit) == -(DigitsValue(d) as real)
  {
    var s := "-" + d;
    NegativeSplit(d, s);
    assert s[0] == '-' && s[|s| - 1] == d[|d| - 1];
    WholeLiteralValue(Literal(0, false, Mantissa(d, false, ""), None));
  }

  lemma NegativeSplit(d: string, s: string)
    requires d != [] && AllDigits(d) && s == "-" + d
    ensures SplitLiteral(s) == Literal(1, true, Mantissa(d, false, ""), None)
  {
    SplitDigits(d, "", false, "");
    assert d + "" == d && s[1..] == d && d[|d|..] == [];
  }

  /** An exponent mark, an optional minus and a run of digits make a whole exponent. */
  lemma ExponentOfText(k: string, negative: bool)
    requires k != [] && AllDigits(k)
    ensures var x := (if negative then "e-" else "e") + k;
      var e := ExponentPart(if negative then 1 else 0, negative, k);
      SplitExponent(x) == Some(e) && ExponentLength(Some(e)) == |x|
  {
    var x := (if negative then "e-" else "e") + k;
    if negative {
      assert x[0] == 'e' && x[1..] == "-" + k && x[1..][0] == '-' && x[2..] == k;
      WholeExponent(x, k, 1, true);
    } else {
      assert x[0] == 'e' && x[1..] == k;
      WholeExponent(x, k, 0, false);
    }
  }

  /** `e`, a sign of `signLength` characters and then only digits make an exponent of that whole text. */
  lemma WholeExponent(x: string, k: string, signLength: nat, negative: bool)
    requires k != [] && AllDigits(k) && x != [] && x[0] == 'e'
    requires SignLength(x[1..]) == signLength && |x| == 1 + signLength + |k| && x[1 + signLength..] == k
    requires negative <==> signLength == 1 && x[1] == '-'
    ensures SplitExponent(x) == Some(ExponentPart(signLength, negative, k)) && ExponentLength(SplitExponent(x)) == |x|
  {
    assert LeadingDigits(k) == |k| && k[..|k|] == k;
  }

  /**
   * Both readers apply an exponent: digits `d` of value `m`, then `e` and digits `k` of value
   * `x`, read as m × 10^x.
   */
  lemma ExponentTextRoundTrip(d: string, k: string, m: nat, x: nat)
    requires d != [] && AllDigits(d) && k != [] && AllDigits(k)
    requires m == DigitsValue(d) && x == DigitsValue(k)
    ensures NumberOfText(d + "e" + k) == Some(m as real * Pow10(x) as real)
    ensures ParseFloatText(d + "e" + k) == Some(m as real * Pow10(x) as real)
  {
    ScaleUp(m as real, x);
    ExponentTextScaled(d, k);
    assert ParseFloatText(d + "e" + k) == NumberOfText(d + "e" + k);
  }

  /** Digits `d`, then `e` and digits `k`, read as d scaled up k times by ten. */
  lemma ExponentTextScaled(d: string, k: string)
    requires d != [] && AllDigits(d) && k != [] && AllDigits(k)
    ensures NumberOfText(d + "e" + k) == Some(Scale(DigitsValue(d) as real, DigitsValue(k)))
    ensures ParseFloatText(d + "e" + k) == Some(Scale(DigitsValue(d) as real, DigitsValue(k)))
  {
    ExponentOfText(k, false);
    assert d + "e" + k == d + ("e" + k);
    ExponentRead(d, "e" + k, ExponentPart(0, false, k));
  }

  /** A negative exponent divides: digits `d`, then `e-` and digits `k`, read as d / 10^k. */
  lemma NegativeExponentTextRoundTrip(d: string, k: string)
    requires d != [] && AllDigits(d) && k != [] && AllDigits(k)
    ensures NumberOfText(d + "e-" + k) == Some(DigitsValue(d) as real / Pow10(DigitsValue(k)) as real)
    ensures ParseFloatText(d + "e-" + k) == Some(DigitsValue(d) as real / Pow10(DigitsValue(k)) as real)
  {
    ExponentOfText(k, true);
    assert d + "e-" + k == d + ("e-" + k);
    ExponentRead(d, "e-" + k, ExponentPart(1, true, k));
    ScaleDown(DigitsValue(d) as real, DigitsValue(k));
  }

  /** Without a sign and a fraction, a literal's value is its digits times 10 to its power. */
  lemma WholeLiteralValue(lit: Literal)
    requires !lit.negative && lit.mantissa.fraction == [] && AllDigits(lit.mantissa.whole)
    requires lit.exponent.Some? ==> AllDigits(lit.exponent.value.digits)
    ensures LiteralValue(lit) == Scale(DigitsValue(lit.mantissa.whole) as real, Power(lit.exponent))
  {
    assert FractionValue([]) == 0.0;
  }

  /** Digits followed by a whole exponent split into those pieces, and the text ends in a digit. */
  lemma ExponentPieces(d: string, x: string, e: ExponentPart)
    requires d != [] && AllDigits(d) && AllDigits(e.digits)
    requires SplitExponent(x) == Some(e) && ExponentLength(Some(e)) == |x|
    ensures SplitLiteral(d + x) == Literal(0, false, Mantissa(d, false, ""), Some(e))
    ensures IsDigit((d + x)[0]) && IsDigit((d + x)[|d + x| - 1])
    ensures |d + x| >= 2 ==> Radix((d + x)[1]) == 0
  {
    var s := d + x;
    assert SplitLiteral(s) == Literal(0, false, Mantissa(d, false, ""), Some(e)) by {
      SplitDigits(d, "", false, x);
      assert s[..|d|] == d && s[|d|..] == x;
    }
    ExponentEnds(d, x, e);
  }

  lemma ExponentEnds(d: string, x: string, e: ExponentPart)
    requires d != [] && AllDigits(d) && AllDigits(e.digits)
    requires SplitExponent(x) == Some(e) && ExponentLength(Some(e)) == |x|
    ensures IsDigit((d + x)[0]) && IsDigit((d + x)[|d + x| - 1])
    ensures |d + x| >= 2 ==> Radix((d + x)[1]) == 0
  {
    var s := d + x;
    assert x[1 + e.signLength..][..|e.digits|] == e.digits;
    assert s[|s| - 1] == x[|x| - 1] == e.digits[|e.digits| - 1];
    assert |s| >= 2 ==> s[1] == (if |d| >= 2 then d[1] else x[0]);
  }

  /** Digits followed by a whole exponent are read by both readers as digits × 10^power. */
  lemma {:induction false} ExponentRead(d: string, x: string, e: ExponentPart)
    requires d != [] && AllDigits(d) && AllDigits(e.digits)
    requires SplitExponent(x) == Some(e) && ExponentLength(Some(e)) == |x|
    ensures NumberOfText(d + x) == Some(Scale(DigitsValue(d) as real, Power(Some(e))))
    ensures ParseFloatText(d + x) == Some(Scale(DigitsValue(d) as real, Power(Some(e))))
  {
    var lit := Literal(0, false, Mantissa(d, false, ""), Some(e));
    ExponentLiteral(d, x, e);
    WholeLiteralValue(lit);
    ReadLiteral(d + x, lit, Scale(DigitsValue(d) as real, Power(Some(e))));
  }

  /** Digits followed by a whole exponent make one unpadded decimal literal. */
  lemma ExponentLiteral(d: string, x: string, e: ExponentPart)
    requires d != [] && AllDigits(d) && AllDigits(e.digits)
    requires SplitExponent(x) == Some(e) && ExponentLength(Some(e)) == |x|
    ensures SplitLiteral(d + x) == Literal(0, false, Mantissa(d, false, ""), Some(e))
    ensures d + x != [] && LiteralLength(Literal(0, false, Mantissa(d, false, ""), Some(e))) == |d + x|
    ensures !IsJsSpace((d + x)[0]) && !IsJsSpace((d + x)[|d + x| - 1]) && !NonDecimalLiteral(d + x)
  {
    ExponentPieces(d, x, e);
    DigitEnds(d + x);
  }

  /** A whole literal without white space at its ends is read by both readers to its value. */
  lemma ReadLiteral(s: string, lit: Literal, v: real)
    requires SplitLiteral(s) == lit && |lit.mantissa.whole| + |lit.mantissa.fraction| > 0
    requires s != [] && LiteralLength(lit) == |s|
    requires !IsJsSpace(s[0]) && !IsJsSpace(s[|s| - 1]) && !NonDecimalLiteral(s)
    requires LiteralValue(lit) == v
    ensures NumberOfText(s) == Some(v)
    ensures ParseFloatText(s) == Some(v)
  {
    ReadUnpadded(s);
  }

  /** Text that starts and ends with a digit, with no radix letter second, is not padded and not `0x…`. */
  lemma DigitEnds(s: string)
    requires s != [] && IsDigit(s[0]) && IsDigit(s[|s| - 1])
    requires |s| >= 2 ==> Radix(s[1]) == 0
    ensures !IsJsSpace(s[0]) && !IsJsSpace(s[|s| - 1]) && !NonDecimalLiteral(s)
  {
  }

  /** White space around a text is ignored by `Number`. */
  lemma NumberIgnoresPadding(pre: string, t: string, post: string)
    requires Blank(pre) && Blank(post)
    requires t != [] && !IsJsSpace(t[0]) && !IsJsSpace(t[|t| - 1])
    ensures NumberOfText(pre + t + post) == NumberOfText(t)
  {
    assert Trim(pre + t + post) == Trim(t) by {
      TrimPadded(pre, t, post);
      TrimPadded("", t, "");
      assert "" + t + "" == t;
    }
    NumberReadsTrimmed(pre + t + post, t);
  }

  /** `Number` looks only at the trimmed text. */
  lemma NumberReadsTrimmed(a: string, b: string)
    requires Trim(a) == Trim(b)
    ensures NumberOfText(a) == NumberOfText(b)
  {
  }

  /** White space around one whole literal is ignored by `parseFloat`. */
  lemma ParseFloatIgnoresPadding(pre: string, t: string, post: string)
    requires Blank(pre) && Blank(post)
    requires t != [] && !IsJsSpace(t[0]) && !IsJsSpace(t[|t| - 1])
    requires ScanDecimal(t).Some? && ScanDecimal(t).value.length == |t|
    ensures ParseFloatText(pre + t + post) == ParseFloatText(t)
  {
    assert TrimStart(pre + t + post) == t + post by {
      TrimPadded(pre, t, post);
    }
    Untrimmed(t);
    ScanIgnoresSpaceAfter(t, post);
    ParseFloatReadsScan(pre + t + post, t);
  }

  /** `parseFloat` looks only at what the scanner reads after leading white space. */
  lemma ParseFloatReadsScan(a: string, b: string)
    requires ScanDecimal(TrimStart(a)) == ScanDecimal(TrimStart(b))
    ensures ParseFloatText(a) == ParseFloatText(b)
  {
  }

  /** The scanner's result is the value and length of the literal split off. */
  lemma ScanOfSplit(s: string, lit: Literal)
    requires SplitLiteral(s) == lit && |lit.mantissa.whole| + |lit.mantissa.fraction| > 0
    ensures ScanDecimal(s) == Some(Scan(LiteralValue(lit), LiteralLength(lit)))
  {
  }

  /** A run of digits is one whole literal. */
  lemma DigitsScanWhole(d: string)
    requires d != [] && AllDigits(d)
    ensures ScanDecimal(d).Some? && ScanDecimal(d).value.length == |d|
  {
    var lit := Literal(0, false, Mantissa(d, false, ""), None);
    assert SplitLiteral(d) == lit by {
      SplitDigits(d, "", false, "");
      assert d + "" == d && d[|d|..] == [];
    }
    ScanOfSplit(d, lit);
  }

  /** White space around a natural number's text is ignored by both readers. */
  lemma PaddedTextRoundTrip(pre: string, n: nat, post: string)
    requires Blank(pre) && Blank(post)
    ensures NumberOfText(pre + DecimalText(n) + post) == Some(n as real)
    ensures ParseFloatText(pre + DecimalText(n) + post) == Some(n as real)
  {
    var d := DecimalText(n);
    assert !IsJsSpace(d[0]) && !IsJsSpace(d[|d| - 1]) by {
      assert IsDigit(d[0]) && IsDigit(d[|d| - 1]);
    }
    assert NumberOfText(pre + d + post) == NumberOfText(d) by {
      NumberIgnoresPadding(pre, d, post);
    }
    assert ParseFloatText(pre + d + post) == ParseFloatText(d) by {
      DigitsScanWhole(d);
      ParseFloatIgnoresPadding(pre, d, post);
    }
    DecimalTextRoundTrip(n);
  }
}
