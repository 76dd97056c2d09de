/** Python's numeric conversions on strings, as the engine uses them:
    `int(s)` for multi-select ranges, `float(s)` for choice weights, and
    `str(n)` for the batch splitter's names. Only ASCII digits are
    recognised. */
module Numbers {
  import opened Text
  import opened Wrappers

  predicate IsDigit(c: char)
  {
    '0' <= c <= '9'
  }

  function DigitValue(c: char): nat
    requires IsDigit(c)
  {
    (c as int - '0' as int) as nat
  }

  function DigitChar(d: nat): (c: char)
    requires d < 10
    ensures IsDigit(c) && DigitValue(c) == d
  {
    ('0' as int + d) as char
  }

  predicate AllDigits(s: string)
  {
    forall i :: 0 <= i < |s| ==> IsDigit(s[i])
  }

  /** The value of a string of decimal digits, most significant first. */
  function DigitsValue(s: string): nat
    requires AllDigits(s)
  {
    if s == [] then 0 else 10 * DigitsValue(s[..|s| - 1]) + DigitValue(s[|s| - 1])
  }

  /** Digits in which a single underscore may stand between two digits, as
      Python numeric literals allow (`1_000`). */
  predicate DigitsWithUnderscores(s: string)
  {
    |s| >= 1 &&
    forall i {:trigger s[i]} :: 0 <= i < |s| ==>
      IsDigit(s[i]) || (s[i] == '_' && 0 < i < |s| - 1 && IsDigit(s[i - 1]) && IsDigit(s[i + 1]))
  }

  lemma {:induction false} GroupedDigitsOnly(s: string)
    requires DigitsWithUnderscores(s)
    ensures forall i :: 0 <= i < |s| ==> IsDigit(s[i]) || s[i] == '_'
  {
    forall i | 0 <= i < |s| ensures IsDigit(s[i]) || s[i] == '_' {
      assert IsDigit(s[i]) || (s[i] == '_' && 0 < i < |s| - 1 && IsDigit(s[i - 1]) && IsDigit(s[i + 1]));
    }
  }

  function RemoveUnderscores(s: string): (r: string)
    ensures |r| <= |s|
    ensures (forall i :: 0 <= i < |s| ==> IsDigit(s[i]) || s[i] == '_') ==> AllDigits(r)
  {
    if s == [] then []
    else (if s[0] == '_' then [] else [s[0]]) + RemoveUnderscores(s[1..])
  }

  /** Python's `int(s)` in base 10: surrounding whitespace, an optional
      sign, then digits possibly grouped by underscores. `None` stands for
      the `ValueError` Python raises. */
  function ParseInt(s: string): (r: Option<int>)
  {
    var t := Strip(s);
    var neg := t != [] && t[0] == '-';
    var body := if t != [] && (t[0] == '+' || t[0] == '-') then t[1..] else t;
    if DigitsWithUnderscores(body) then
      GroupedDigitsOnly(body);
      var v: int := DigitsValue(RemoveUnderscores(body));
      Some(if neg then -v else v)
    else None
  }

  /** Decimal digits of a natural number, without leading zeros. */
  function NatDigits(n: nat): (s: string)
    ensures |s| >= 1
  {
    if n < 10 then [DigitChar(n)] else NatDigits(n / 10) + [DigitChar(n % 10)]
  }

  /** The digits of `n` are decimal digits, and their value is `n`. */
  lemma {:induction false} NatDigitsValue(n: nat)
    ensures AllDigits(NatDigits(n)) && DigitsValue(NatDigits(n)) == n
  {
    if n >= 10 {
      NatDigitsValue(n / 10);
      var s := NatDigits(n);
      assert s[..|s| - 1] == NatDigits(n / 10);
    }
  }

  /** Python's `str(n)` for an integer. */
  function IntToString(n: int): string
  {
    if n < 0 then "-" + NatDigits(-n) else NatDigits(n)
  }

  lemma {:induction false} RemoveUnderscoresOfDigits(s: string)
    requires AllDigits(s)
    ensures RemoveUnderscores(s) == s
  {
    if s != [] {
      RemoveUnderscoresOfDigits(s[1..]);
    }
  }

  /** `int(str(n)) == n`: the decimal text of an integer parses back to it. */
  lemma {:induction false} ParseIntOfString(n: int)
    ensures ParseInt(IntToString(n)) == Some(n)
  {
    var s := IntToString(n);
    var d := NatDigits(if n < 0 then -n else n);
    NatDigitsValue(if n < 0 then -n else n);
    StripUnpadded(s);
    RemoveUnderscoresOfDigits(d);
    var body := if s[0] == '-' then s[1..] else s;
    assert body == d;
    assert DigitsWithUnderscores(d);
  }

  lemma {:induction false} StripUnpadded(s: string)
    requires s != [] && !IsSpace(s[0]) && !IsSpace(s[|s| - 1])
    ensures Strip(s) == s
  {
    assert LStrip(s) == s;
  }

  /** A weight as Python's `float` holds it; the finite values are exact. */
  datatype Weight = Finite(v: real) | PosInf | NegInf | NaN

  function Lower(c: char): char
  {
    if 'A' <= c <= 'Z' then (c as int + 32) as char else c
  }

  function LowerAll(s: string): (r: string)
    ensures |r| == |s| && forall i :: 0 <= i < |s| ==> r[i] == Lower(s[i])
  {
    if s == [] then [] else [Lower(s[0])] + LowerAll(s[1..])
  }

  function Pow10(e: nat): (r: real)
    ensures r >= 1.0
  {
    if e == 0 then 1.0 else 10.0 * Pow10(e - 1)
  }

  /** `10 ** e` as an exact real, for any integer exponent. */
  function Scale(e: int): (r: real)
    ensures r > 0.0
  {
    if e >= 0 then Pow10(e) else 1.0 / Pow10(-e)
  }

  /** The value of an unsigned decimal literal without underscores:
      `digits [. [digits]] [exponent]` or `. digits [exponent]`. */
  function DecimalValue(s: string): Option<real>
  {
    var e := ExponentStart(s, 0);
    var mant := s[..e];
    var exp := s[e..];
    var dot := Find(mant, ".");
    var ip := if dot < 0 then mant else mant[..dot];
    var fp := if dot < 0 then "" else mant[dot + 1..];
    var expOk := exp == [] || (|exp| >= 2 && ParseExponent(exp[1..]).Some?);
    if AllDigits(ip) && AllDigits(fp) && |ip| + |fp| >= 1 && expOk then
      var m := (DigitsValue(ip + fp) as real) * Scale(-(|fp| as int));
      Some(if exp == [] then m else m * Scale(ParseExponent(exp[1..]).value))
    else None
  }

  /** Position of the first `e` or `E`, or the length. */
  function ExponentStart(s: string, k: nat): (r: nat)
    requires k <= |s|
    ensures k <= r <= |s|
    ensures r < |s| ==> Lower(s[r]) == 'e'
    decreases |s| - k
  {
    if k == |s| || Lower(s[k]) == 'e' then k else ExponentStart(s, k + 1)
  }

  /** `[sign] digits` after the exponent letter. */
  function ParseExponent(s: string): Option<int>
  {
    var neg := s != [] && s[0] == '-';
    var body := if s != [] && (s[0] == '+' || s[0] == '-') then s[1..] else s;
    if |body| >= 1 && AllDigits(body) then
      Some(if neg then -(DigitsValue(body) as int) else DigitsValue(body))
    else None
  }

  /** Every underscore stands between two digits. */
  predicate UnderscoresBetweenDigits(s: string)
  {
    forall i :: 0 <= i < |s| && s[i] == '_' ==>
      0 < i < |s| - 1 && IsDigit(s[i - 1]) && IsDigit(s[i + 1])
  }

  /** Python's `float(s)`: surrounding whitespace, an optional sign, then
      `inf`, `infinity` or `nan` in any case, or a decimal literal whose
      underscores each stand between two digits. `None` stands for the
      `ValueError` Python raises. */
  function ParseFloat(s: string): (r: Option<Weight>)
    ensures r.Some? ==> Strip(s) != []
  {
    var t := Strip(s);
    if !UnderscoresBetweenDigits(t) then None
    else
      var u := RemoveUnderscores(t);
      var neg := u != [] && u[0] == '-';
      var body := if u != [] && (u[0] == '+' || u[0] == '-') then u[1..] else u;
      var word := LowerAll(body);
      if word == "inf" || word == "infinity" then Some(if neg then NegInf else PosInf)
      else if word == "nan" then Some(NaN)
      else match DecimalValue(body)
        case None => None
        case Some(v) => Some(Finite(if neg then -v else v))
  }

  /** IEEE addition on weights, with exact finite values. */
  function Add(a: Weight, b: Weight): Weight
  {
    match (a, b)
    case (NaN, _) => NaN
    case (_, NaN) => NaN
    case (PosInf, NegInf) => NaN
    case (NegInf, PosInf) => NaN
    case (PosInf, _) => PosInf
    case (_, PosInf) => PosInf
    case (NegInf, _) => NegInf
    case (_, NegInf) => NegInf
    case (Finite(x), Finite(y)) => Finite(x + y)
  }

  /** The last cumulative weight, summed left to right. */
  function Total(ws: seq<Weight>): Weight
  {
    if ws == [] then Finite(0.0) else Add(Total(ws[..|ws| - 1]), ws[|ws| - 1])
  }

  /** `random.choices` accepts the weights: their total is finite and
      positive. */
  predicate WeightsUsable(ws: seq<Weight>)
  {
    Total(ws).Finite? && Total(ws).v > 0.0
  }

  /** A list of finite, non-negative weights with a positive one in it is
      usable; the all-default list of weight 1.0 in particular. */
  lemma {:induction false} PositiveWeightsUsable(ws: seq<Weight>, k: nat)
    requires k < |ws| && ws[k].Finite? && ws[k].v > 0.0
    requires forall i :: 0 <= i < |ws| ==> ws[i].Finite? && ws[i].v >= 0.0
    ensures WeightsUsable(ws)
  {
    NonNegativeTotal(ws[..|ws| - 1]);
    if k < |ws| - 1 {
      PositiveWeightsUsable(ws[..|ws| - 1], k);
    }
  }

  lemma {:induction false} NonNegativeTotal(ws: seq<Weight>)
    requires forall i :: 0 <= i < |ws| ==> ws[i].Finite? && ws[i].v >= 0.0
    ensures Total(ws).Finite? && Total(ws).v >= 0.0
  {
    if ws != [] {
      NonNegativeTotal(ws[..|ws| - 1]);
    }
  }
}
