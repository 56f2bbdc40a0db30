/** The values the expression evaluator works with (Java's Object results:
    null, Boolean, Integer, Double, String and the nested maps of the
    environment), with the conversions the evaluator applies to them: num,
    truthy, Objects.equals and compare. */
module Values {
  import opened Text
  import opened Tokens

  /** A Java double without rounding: a finite real, an infinity or NaN.
      Negative zero is not told apart from zero. */
  datatype Dbl = Fin(x: real) | PosInf | NegInf | NaN

  /** A value: VInt holds an Integer (the literals), VDbl a Double (every
      arithmetic result). The two tags stay apart, as Objects.equals keeps
      Integer 1 and Double 1.0 apart. */
  datatype Value =
    | VNull
    | VBool(b: bool)
    | VInt(i: int)
    | VDbl(d: Dbl)
    | VStr(s: string)
    | VMap(m: map<string, Value>)

  predicate IsNumber(v: Value) {
    v.VInt? || v.VDbl?
  }

  // ----- double arithmetic -----

  /** The sign of a number that is not NaN. */
  function Sign(d: Dbl): int
    requires !d.NaN?
  {
    match d
    case PosInf => 1
    case NegInf => -1
    case Fin(x) => if x > 0.0 then 1 else if x < 0.0 then -1 else 0
  }

  function InfinityOf(sign: int): Dbl {
    if sign >= 0 then PosInf else NegInf
  }

  function Neg(a: Dbl): (r: Dbl)
    ensures r.NaN? == a.NaN? && (!a.NaN? ==> Sign(r) == -Sign(a))
  {
    match a
    case Fin(x) => Fin(-x)
    case PosInf => NegInf
    case NegInf => PosInf
    case NaN => NaN
  }

  function Add(a: Dbl, b: Dbl): Dbl {
    if a.NaN? || b.NaN? then NaN
    else if a.Fin? && b.Fin? then Fin(a.x + b.x)
    else if a.Fin? then b
    else if b.Fin? || a == b then a
    else NaN
  }

  /** a - b, which IEEE 754 defines as a + (-b). */
  function Sub(a: Dbl, b: Dbl): Dbl {
    Add(a, Neg(b))
  }

  function Mul(a: Dbl, b: Dbl): Dbl {
    if a.NaN? || b.NaN? then NaN
    else if a.Fin? && b.Fin? then Fin(a.x * b.x)
    else if Sign(a) == 0 || Sign(b) == 0 then NaN
    else InfinityOf(Sign(a) * Sign(b))
  }

  function Div(a: Dbl, b: Dbl): Dbl {
    if a.NaN? || b.NaN? then NaN
    else if a.Fin? && b.Fin? then
      if b.x != 0.0 then Fin(a.x / b.x)
      else if a.x == 0.0 then NaN
      else InfinityOf(Sign(a))
    else if !a.Fin? && !b.Fin? then NaN
    else if a.Fin? then Fin(0.0)
    else InfinityOf(Sign(a) * (if Sign(b) < 0 then -1 else 1))
  }

  /** + and * commute, as in IEEE 754. */
  lemma AddMulCommute(a: Dbl, b: Dbl)
    ensures Add(a, b) == Add(b, a) && Mul(a, b) == Mul(b, a)
  {
  }

  /** a - b is -(b - a), and x - x is zero for a finite x and NaN for an
      infinity or NaN. */
  lemma SubLaws(a: Dbl, b: Dbl)
    ensures Sub(a, b) == Neg(Sub(b, a))
    ensures Sub(a, a) == (if a.Fin? then Fin(0.0) else NaN)
  {
  }

  /** Division by a nonzero finite number is multiplication by its
      reciprocal; a finite number divided by zero is the infinity of its
      sign, or NaN for zero itself. */
  lemma DivLaws(a: Dbl, b: Dbl)
    ensures b.Fin? && b.x != 0.0 ==> Div(a, b) == Mul(a, Fin(1.0 / b.x))
    ensures a.Fin? ==> Div(a, Fin(0.0)) == (if a.x > 0.0 then PosInf else if a.x < 0.0 then NegInf else NaN)
  {
    if b.Fin? && b.x != 0.0 {
      var r := 1.0 / b.x;
      assert Sign(Fin(r)) == Sign(b) by {
        if b.x > 0.0 { assert r > 0.0; } else { assert r < 0.0; }
      }
      if a.Fin? {
        assert a.x / b.x == a.x * r;
      }
    }
  }

  /** Double.compare: the numeric order from -Infinity to +Infinity, with NaN
      above everything and equal to itself; the result is -1, 0 or 1. */
  function DblCompare(a: Dbl, b: Dbl): int
  {
    if a.NaN? && b.NaN? then 0
    else if a.NaN? then 1
    else if b.NaN? then -1
    else if a.Fin? && b.Fin? then (if a.x < b.x then -1 else if a.x > b.x then 1 else 0)
    else if a == b then 0
    else if a == NegInf || b == PosInf then -1
    else 1
  }

  /** Double.compare is a total order on the model's doubles: antisymmetric,
      zero exactly on equal values, and transitive. */
  lemma DblCompareOrder(a: Dbl, b: Dbl, c: Dbl)
    ensures DblCompare(a, b) in {-1, 0, 1}
    ensures DblCompare(a, b) == -DblCompare(b, a)
    ensures DblCompare(a, b) == 0 <==> a == b
    ensures DblCompare(a, b) < 0 && DblCompare(b, c) < 0 ==> DblCompare(a, c) < 0
  {
  }

  // ----- Double.parseDouble -----

  /** fp with the decimal point moved count places to the left, that is
      fp divided by ten to the power count. */
  function Shifted(fp: nat, count: nat): (r: real)
    ensures r >= 0.0
  {
    if count == 0 then fp as real else Shifted(fp, count - 1) / 10.0
  }

  /** The number with integer part ip and fraction digits fp, fp having
      the given count of digits. */
  function Decimal(ip: nat, fp: nat, count: nat): real
  {
    ip as real + Shifted(fp, count)
  }

  /** digits, digits '.' digits, '.' digits or digits '.', with at least one
      digit: the value of the decimal. */
  function DecimalValue(s: string): Option<real>
  {
    var ps := SplitFirst(s, '.');
    if |ps| == 1 then
      if s != "" && AllDigits(s) then Some(DigitsValue(s) as real) else None
    else if AllDigits(ps[0]) && AllDigits(ps[1]) && ps[0] + ps[1] != "" then
      Some(Decimal(DigitsValue(ps[0]), DigitsValue(ps[1]), |ps[1]|))
    else None
  }

  /** Double.parseDouble on the forms the model covers: surrounding blanks,
      an optional sign, then NaN, Infinity or a decimal. None stands for the
      NumberFormatException. */
  function ParseDouble(s: string): Option<Dbl>
  {
    var t := JavaTrim(s);
    var neg := t != [] && t[0] == '-';
    var body := if t != [] && (t[0] == '-' || t[0] == '+') then t[1..] else t;
    if body == "NaN" then Some(NaN)
    else if body == "Infinity" then Some(if neg then NegInf else PosInf)
    else
      match DecimalValue(body)
      case Some(x) => Some(Fin(if neg then -x else x))
      case None => None
  }

  /** A digit run reads back as its value. */
  lemma DecimalOfDigits(ip: string)
    requires AllDigits(ip) && ip != ""
    ensures DecimalValue(ip) == Some(DigitsValue(ip) as real)
  {
    assert '.' !in ip by {
      assert forall k :: 0 <= k < |ip| ==> IsDigit(ip[k]);
    }
  }

  /** Digits, a '.' and digits read back as the exact decimal. */
  lemma DecimalOfFraction(ip: string, fp: string)
    requires AllDigits(ip) && AllDigits(fp) && ip != "" && fp != ""
    ensures DecimalValue(ip + "." + fp)
         == Some(Decimal(DigitsValue(ip), DigitsValue(fp), |fp|))
  {
    assert '.' !in ip by {
      assert forall k :: 0 <= k < |ip| ==> IsDigit(ip[k]);
    }
    assert '.' !in fp by {
      assert forall k :: 0 <= k < |fp| ==> IsDigit(fp[k]);
    }
    var s := ip + "." + fp;
    assert s == ip + ['.'] + fp;
    SplitFirstOfJoined(ip, '.', fp);
    var ps := SplitFirst(s, '.');
    assert ps == [ip, fp];
    assert |ps| == 2 && ps[0] + ps[1] != "";
  }

  /** Double.parseDouble reads a digit string as its value. */
  lemma ParseDigits(ip: string)
    requires AllDigits(ip) && ip != ""
    ensures ParseDouble(ip) == Some(Fin(DigitsValue(ip) as real))
  {
    var x := DigitsValue(ip) as real;
    DigitsTrimmed(ip);
    DecimalOfDigits(ip);
    assert ip != "NaN" && ip != "Infinity" by { assert IsDigit(ip[0]); }
    ParseUnsigned(ip, x);
  }

  /** A trimmed unsigned decimal reads as its value. */
  lemma ParseUnsigned(s: string, x: real)
    requires JavaTrim(s) == s && s != [] && s[0] != '-' && s[0] != '+'
    requires s != "NaN" && s != "Infinity" && DecimalValue(s) == Some(x)
    ensures ParseDouble(s) == Some(Fin(x))
  {
  }

  /** Double.parseDouble reads digits, '.' and digits as the exact decimal. */
  lemma ParseFraction(ip: string, fp: string)
    requires AllDigits(ip) && AllDigits(fp) && ip != "" && fp != ""
    ensures ParseDouble(ip + "." + fp) == Some(Fin(Decimal(DigitsValue(ip), DigitsValue(fp), |fp|)))
  {
    var d := ip + "." + fp;
    assert d[0] == ip[0] && d[|d| - 1] == fp[|fp| - 1];
    DigitsTrimmed(d);
    DecimalOfFraction(ip, fp);
    assert d != "NaN" && d != "Infinity" by { assert IsDigit(d[0]); }
    ParseUnsigned(d, Decimal(DigitsValue(ip), DigitsValue(fp), |fp|));
  }

  /** A text that starts with a digit or '-' and ends with a digit is left
      as it is by trim. */
  lemma DigitsTrimmed(s: string)
    requires s != [] && (IsDigit(s[0]) || s[0] == '-') && IsDigit(s[|s| - 1])
    ensures JavaTrim(s) == s
  {
    assert Trimmed(s);
    TrimOfTrimmed(s);
  }

  // ----- num, truthy, compare -----

  /** num: the double a value stands for in arithmetic. */
  function Num(v: Value): Dbl
  {
    match v
    case VNull => Fin(0.0)
    case VInt(n) => Fin(n as real)
    case VDbl(d) => d
    case VStr(s) => (match ParseDouble(s) case Some(d) => d case None => Fin(0.0))
    case VBool(b) => Fin(if b then 1.0 else 0.0)
    case VMap(_) => Fin(0.0)
  }

  /** truthy: null is false, a Boolean is itself, a number is true unless it
      is zero, a string unless it is empty, anything else is true. */
  function Truthy(v: Value): bool
  {
    match v
    case VNull => false
    case VBool(b) => b
    case VInt(n) => n != 0
    case VDbl(d) => d != Fin(0.0)
    case VStr(s) => s != ""
    case VMap(_) => true
  }

  /** For null, Booleans and numbers, truthiness is being nonzero under num;
      a string is truthy when non-empty, whatever number it spells. */
  lemma TruthyIsNonzero(v: Value)
    ensures !v.VStr? && !v.VMap? ==> (Truthy(v) <==> Num(v) != Fin(0.0))
  {
  }

  /** The string "0" is truthy, yet its num is zero. */
  lemma ZeroStringTruthy()
    ensures Truthy(VStr("0")) && Num(VStr("0")) == Fin(0.0)
  {
    assert JavaTrim("0") == "0";
    assert "0" != "NaN" && "0" != "Infinity";
    DecimalOfDigits("0");
    assert DigitsValue("0") == 0;
    assert ParseDouble("0") == Some(Fin(0.0));
  }

  /** String.compareTo, as its sign: lexicographic by character, a proper
      prefix first. */
  function StrCompare(a: string, b: string): (r: int)
    ensures r in {-1, 0, 1}
  {
    if a == [] && b == [] then 0
    else if a == [] then -1
    else if b == [] then 1
    else if a[0] < b[0] then -1
    else if a[0] > b[0] then 1
    else StrCompare(a[1..], b[1..])
  }

  lemma {:induction false} StrCompareAntisymmetric(a: string, b: string)
    ensures StrCompare(a, b) == -StrCompare(b, a)
    ensures StrCompare(a, b) == 0 <==> a == b
  {
    if a != [] && b != [] && a[0] == b[0] {
      StrCompareAntisymmetric(a[1..], b[1..]);
      assert a == [a[0]] + a[1..] && b == [b[0]] + b[1..];
    }
  }

  /** String.valueOf for the values the last case of compare can meet
      besides maps. */
  function Show(v: Value): string
    requires v.VBool? || v.VStr?
  {
    if v.VStr? then v.s else if v.b then "true" else "false"
  }

  /** compare: null below everything else, numbers by num when either side
      is one, strings lexicographically, Booleans false before true, and the
      printed forms otherwise; the result is -1, 0 or 1. A map met by the last
      case compares as 0. */
  function Compare(a: Value, b: Value): (r: int)
    ensures r in {-1, 0, 1}
  {
    if a == VNull && b == VNull then 0
    else if a == VNull then -1
    else if b == VNull then 1
    else if IsNumber(a) || IsNumber(b) then DblCompare(Num(a), Num(b))
    else if a.VStr? && b.VStr? then StrCompare(a.s, b.s)
    else if a.VBool? && b.VBool? then (if a.b == b.b then 0 else if b.b then -1 else 1)
    else if a.VMap? || b.VMap? then 0
    else StrCompare(Show(a), Show(b))
  }

  /** compare is antisymmetric, puts null strictly below every other value,
      and is zero on equal values. */
  lemma CompareAntisymmetric(a: Value, b: Value)
    ensures Compare(a, b) == -Compare(b, a)
    ensures a == VNull && b != VNull ==> Compare(a, b) == -1 && Compare(b, a) == 1
    ensures a == b ==> Compare(a, b) == 0
  {
    if a != VNull && b != VNull {
      if IsNumber(a) || IsNumber(b) {
        DblCompareOrder(Num(a), Num(b), Num(b));
      } else if a.VStr? && b.VStr? {
        StrCompareAntisymmetric(a.s, b.s);
      } else if !(a.VBool? && b.VBool?) && !a.VMap? && !b.VMap? {
        StrCompareAntisymmetric(Show(a), Show(b));
      }
    }
  }

  /** compare of two non-null values when either is a number is
      Double.compare of their nums: Integers and Doubles by numeric value
      (an Integer and a Double of the same value compare as 0 although
      Objects.equals tells them apart), and a Boolean or string beside a
      number by its num. */
  lemma CompareNumbers(a: Value, b: Value)
    requires a != VNull && b != VNull && (IsNumber(a) || IsNumber(b))
    ensures Compare(a, b) == DblCompare(Num(a), Num(b))
    ensures a.VInt? && b.VInt? ==> Compare(a, b) == (if a.i < b.i then -1 else if a.i > b.i then 1 else 0)
    ensures a.VInt? && b.VDbl? && b.d.Fin? ==>
      Compare(a, b) == (if (a.i as real) < b.d.x then -1 else if (a.i as real) > b.d.x then 1 else 0)
    ensures a.VInt? && b == VDbl(Fin(a.i as real)) ==> Compare(a, b) == 0 && a != b
  {
  }

  /** A Boolean met by a string compares by its printed form. */
  lemma CompareShown(b: bool, s: string)
    ensures Compare(VBool(b), VStr(s)) == StrCompare(if b then "true" else "false", s)
    ensures Compare(VStr(s), VBool(b)) == StrCompare(s, if b then "true" else "false")
  {
  }

  /** compare of two strings is String.compareTo's sign. */
  lemma CompareStrings(a: string, b: string)
    ensures Compare(VStr(a), VStr(b)) == StrCompare(a, b)
  {
  }

  /** String.compareTo's sign, from the first index k where the strings
      differ: the order of the characters there, or, when one string is a
      prefix of the other, the order of the lengths. */
  lemma {:induction false} StrCompareAt(a: string, b: string, k: nat)
    requires k <= |a| && k <= |b| && a[..k] == b[..k]
    requires k < |a| && k < |b| ==> a[k] != b[k]
    ensures k < |a| && k < |b| ==> StrCompare(a, b) == (if a[k] < b[k] then -1 else 1)
    ensures !(k < |a| && k < |b|) ==> StrCompare(a, b) == (if |a| < |b| then -1 else if |a| > |b| then 1 else 0)
    decreases k
  {
    if k > 0 {
      assert a[0] == a[..k][0] == b[..k][0] == b[0];
      assert a[1..][..k - 1] == a[1..k] == a[..k][1..];
      assert b[1..][..k - 1] == b[1..k] == b[..k][1..];
      StrCompareAt(a[1..], b[1..], k - 1);
    } else if k == |a| && k == |b| {
      assert a == [] && b == [];
    }
  }
}
