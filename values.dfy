/** The loosely typed values that flow through the platform: block payloads,
    compliance samples and the GPS records of a batch check are Python
    dictionaries from string keys to such values. Also Python's truthiness
    and the `float()` / `int()` conversions, partial where Python raises. */
module Values {
  import opened Wrappers
  import opened Text

  datatype Value =
    | VNone
    | VBool(b: bool)
    | VInt(i: int)
    | VFloat(r: real)
    | VStr(s: string)
    | VList(items: seq<Value>)
    | VDict(entries: map<string, Value>)

  /** A Python `dict` with string keys. */
  type Fields = map<string, Value>

  function Get(d: Fields, key: string): (r: Option<Value>)
    ensures r.Some? <==> key in d
    ensures r.Some? ==> r.value == d[key]
  {
    if key in d then Some(d[key]) else None
  }

  /** `bool(v)`. */
  predicate Truthy(v: Value) {
    match v
    case VNone => false
    case VBool(b) => b
    case VInt(i) => i != 0
    case VFloat(r) => r != 0.0
    case VStr(s) => s != []
    case VList(items) => items != []
    case VDict(entries) => entries != map[]
  }

  /** `bool(x)` for an optional string field (`None` and `""` are false). */
  predicate Present(o: Option<string>) {
    o.Some? && o.value != []
  }

  /** `isinstance(v, (int, float))` (a bool is an int), and the number it
      holds. */
  function AsNumber(v: Value): (r: Option<real>)
    ensures r.Some? <==> v.VBool? || v.VInt? || v.VFloat?
  {
    match v
    case VBool(b) => Some(if b then 1.0 else 0.0)
    case VInt(i) => Some(i as real)
    case VFloat(r) => Some(r)
    case _ => None
  }

  /** `isinstance(v, int)` (a bool is an int), and the integer it holds. */
  function AsInt(v: Value): (r: Option<int>)
    ensures r.Some? <==> v.VBool? || v.VInt?
  {
    match v
    case VBool(b) => Some(if b then 1 else 0)
    case VInt(i) => Some(i)
    case _ => None
  }

  /** A decimal numeral: an optional sign, digits, an optional point and
      more digits, with at least one digit in all. */
  function ParseDecimal(s: string): (r: Option<real>)
    ensures AllDigits(s) && s != [] ==> r == Some(DigitsValue(s) as real)
  {
    if s == [] then None
    else if s[0] == '-' then
      (match ParseUnsignedDecimal(s[1..]) case Some(x) => Some(-x) case None => None)
    else if s[0] == '+' then ParseUnsignedDecimal(s[1..])
    else ParseUnsignedDecimal(s)
  }

  function ParseUnsignedDecimal(s: string): (r: Option<real>)
    ensures AllDigits(s) && s != [] ==> r == Some(DigitsValue(s) as real)
    ensures r.Some? ==> r.value >= 0.0
  {
    var whole := Digits(s);
    var rest := s[|whole|..];
    if rest == [] then
      (if whole == [] then None else Some(DigitsValue(whole) as real))
    else if rest[0] != '.' then None
    else
      var frac := rest[1..];
      if !AllDigits(frac) || (whole == [] && frac == []) then None
      else Some(DecimalValue(whole, frac))
  }

  /** The value of the numeral `whole.frac`. */
  function DecimalValue(whole: string, frac: string): (r: real)
    requires AllDigits(whole) && AllDigits(frac)
    ensures r >= 0.0
  {
    DigitsValue(whole) as real + DigitsValue(frac) as real / Pow10(|frac|) as real
  }

  /** The longest prefix of decimal digits. */
  function Digits(s: string): (d: string)
    ensures |d| <= |s| && d == s[..|d|] && AllDigits(d)
    ensures |d| < |s| ==> !IsDigit(s[|d|])
    ensures AllDigits(s) ==> d == s
  {
    if s == [] || !IsDigit(s[0]) then [] else [s[0]] + Digits(s[1..])
  }

  /** A decimal integer: an optional sign and at least one digit. */
  function ParseInteger(s: string): (r: Option<int>)
    ensures AllDigits(s) && s != [] ==> r == Some(DigitsValue(s))
  {
    if s != [] && (s[0] == '-' || s[0] == '+') then
      var body := s[1..];
      if body != [] && AllDigits(body) then
        var n: int := DigitsValue(body);
        Some(if s[0] == '-' then -n else n)
      else None
    else if s != [] && AllDigits(s) then Some(DigitsValue(s))
    else None
  }

  /** Conversion of a float to int, which truncates toward zero. */
  function Truncate(r: real): (t: int)
    ensures r >= 0.0 ==> t as real <= r < t as real + 1.0
    ensures r < 0.0 ==> t as real - 1.0 < r <= t as real
  {
    if r >= 0.0 then r.Floor else -((-r).Floor)
  }

  /** `float(v)`: None where Python raises TypeError or ValueError. */
  function ToFloat(v: Value): (r: Option<real>)
    ensures v.VInt? ==> r == Some(v.i as real)
    ensures v.VFloat? ==> r == Some(v.r)
    ensures v.VNone? || v.VList? || v.VDict? ==> r == None
  {
    match v
    case VBool(b) => Some(if b then 1.0 else 0.0)
    case VInt(i) => Some(i as real)
    case VFloat(x) => Some(x)
    case VStr(s) => ParseDecimal(Strip(s))
    case _ => None
  }

  /** `int(v)`: None where Python raises TypeError or ValueError. */
  function ToInt(v: Value): (r: Option<int>)
    ensures v.VInt? ==> r == Some(v.i)
    ensures v.VNone? || v.VList? || v.VDict? ==> r == None
  {
    match v
    case VBool(b) => Some(if b then 1 else 0)
    case VInt(i) => Some(i)
    case VFloat(x) => Some(Truncate(x))
    case VStr(s) => ParseInteger(Strip(s))
    case _ => None
  }

  /** A value that passes the `isinstance` number test converts to the same
      number with `float()`, and an int-typed one with `int()`. */
  lemma NumbersConvert(v: Value)
    ensures AsNumber(v).Some? ==> AsNumber(v) == ToFloat(v)
    ensures AsInt(v).Some? ==> AsInt(v) == ToInt(v)
  {
  }

  /** `float()` and `int()` agree on a numeral without sign or point, and
      `int()` refuses a numeral with a fractional part that `float()` reads. */
  lemma ConversionsOnNumerals(digits: string)
    requires digits != [] && AllDigits(digits)
    ensures ToFloat(VStr(digits)) == Some(DigitsValue(digits) as real)
    ensures ToInt(VStr(digits)) == Some(DigitsValue(digits))
    ensures ToFloat(VStr(digits + ".5")) == Some(DigitsValue(digits) as real + 0.5)
    ensures ToInt(VStr(digits + ".5")) == None
  {
    StripUnpadded(digits);
    var s := digits + ".5";
    StripUnpadded(s);
    DecimalWithFraction(digits);
    assert !AllDigits(s) by {
      assert s[|digits|] == '.';
    }
  }

  lemma DecimalWithFraction(digits: string)
    requires digits != [] && AllDigits(digits)
    ensures ParseDecimal(digits + ".5") == Some(DigitsValue(digits) as real + 0.5)
  {
    HalfFraction(digits);
    UnsignedWithFraction(digits, "5");
    assert digits + ['.'] + "5" == digits + ".5";
  }

  /** The fraction `.5` is one half. */
  lemma HalfFraction(whole: string)
    requires AllDigits(whole)
    ensures DecimalValue(whole, "5") == DigitsValue(whole) as real + 0.5
  {
    var frac := "5";
    assert DigitsValue(frac) == 5 by {
      assert frac[..0] == [];
    }
    assert Pow10(|frac|) == 10;
  }

  lemma UnsignedWithFraction(whole: string, frac: string)
    requires whole != [] && AllDigits(whole) && AllDigits(frac)
    ensures ParseDecimal(whole + ['.'] + frac) == Some(DecimalValue(whole, frac))
  {
    var s := whole + ['.'] + frac;
    assert ParseDecimal(s) == ParseUnsignedDecimal(s) by {
      assert s[0] == whole[0];
    }
    UnsignedDecimalParts(whole, frac);
  }

  /** `whole.frac` with at least one digit on either side of the point. */
  lemma {:induction false} UnsignedDecimalParts(whole: string, frac: string)
    requires AllDigits(whole) && AllDigits(frac) && (whole != [] || frac != [])
    ensures ParseUnsignedDecimal(whole + ['.'] + frac) == Some(DecimalValue(whole, frac))
  {
    var s := whole + ['.'] + frac;
    assert Digits(s) == whole by {
      DigitsOfConcat(whole, ['.'] + frac);
      assert s == whole + (['.'] + frac);
    }
    assert s[|whole|..] == ['.'] + frac;
    assert (['.'] + frac)[1..] == frac;
  }

  /** `float()` reads a sign in front of a string of digits: `-w` and `+w`
      denote `-w` and `w`. */
  lemma {:induction false} SignedWholeDecimals(w: string)
    requires w != [] && AllDigits(w)
    ensures ParseDecimal(['-'] + w) == Some(-(DigitsValue(w) as real))
    ensures ParseDecimal(['+'] + w) == Some(DigitsValue(w) as real)
  {
    SignPrefix(w);
  }

  /** A leading `-` negates the unsigned reading of the rest, a leading `+`
      keeps it. */
  lemma {:induction false} SignPrefix(s: string)
    ensures ParseDecimal(['-'] + s) == match ParseUnsignedDecimal(s) case Some(x) => Some(-x) case None => None
    ensures ParseDecimal(['+'] + s) == ParseUnsignedDecimal(s)
  {
    assert (['-'] + s)[1..] == s;
    assert (['+'] + s)[1..] == s;
  }

  /** `float()` reads a sign in front of a numeral with a point: `-w.f` and
      `+w.f` denote `-(w + f/10^|f|)` and `w + f/10^|f|`. */
  lemma {:induction false} SignedFractions(w: string, f: string)
    requires w != [] && AllDigits(w) && AllDigits(f)
    ensures ParseDecimal(['-'] + w + ['.'] + f) == Some(-DecimalValue(w, f))
    ensures ParseDecimal(['+'] + w + ['.'] + f) == Some(DecimalValue(w, f))
  {
    var s := w + ['.'] + f;
    UnsignedDecimalParts(w, f);
    SignPrefix(s);
    assert ['-'] + w + ['.'] + f == ['-'] + s by {
      SignedConcat('-', w, f);
    }
    assert ['+'] + w + ['.'] + f == ['+'] + s by {
      SignedConcat('+', w, f);
    }
  }

  lemma SignedConcat(c: char, w: string, f: string)
    ensures [c] + w + ['.'] + f == [c] + (w + ['.'] + f)
  {
  }

  /** `float()` reads a numeral that starts with its point: `.f` denotes
      `f/10^|f|`. */
  lemma {:induction false} LeadingPoint(f: string)
    requires f != [] && AllDigits(f)
    ensures ParseDecimal(['.'] + f) == Some(DigitsValue(f) as real / Pow10(|f|) as real)
  {
    UnsignedDecimalParts([], f);
    assert [] + ['.'] + f == ['.'] + f;
  }

  /** `float()` reads a numeral that ends with its point: `w.` denotes `w`. */
  lemma {:induction false} TrailingPoint(w: string)
    requires w != [] && AllDigits(w)
    ensures ParseDecimal(w + ['.']) == Some(DigitsValue(w) as real)
  {
    UnsignedDecimalParts(w, []);
    assert w + ['.'] + [] == w + ['.'];
    assert (w + ['.'])[0] == w[0];
  }

  /** `float()` refuses a lone sign, a lone point, and the empty string. */
  lemma DecimalRejects()
    ensures ParseDecimal("") == None
    ensures ParseDecimal("-") == None
    ensures ParseDecimal("+") == None
    ensures ParseDecimal(".") == None
    ensures ParseDecimal("-.") == None
  {
    assert Digits("") == "";
    assert Digits(".") == "";
    assert "-"[1..] == "";
    assert "+"[1..] == "";
    assert "-."[1..] == ".";
  }

  /** `int()` reads a sign in front of a string of digits, and refuses a
      numeral with a point. */
  lemma {:induction false} IntegerNumerals(w: string, f: string)
    requires w != [] && AllDigits(w) && AllDigits(f)
    ensures ParseInteger(['-'] + w) == Some(-(DigitsValue(w) as int))
    ensures ParseInteger(['+'] + w) == Some(DigitsValue(w))
    ensures ParseInteger(w + ['.'] + f) == None
    ensures ParseInteger(['-'] + w + ['.'] + f) == None
    ensures ParseInteger("-") == None && ParseInteger("") == None
  {
    assert (['-'] + w)[1..] == w;
    assert (['+'] + w)[1..] == w;
    var s := w + ['.'] + f;
    assert s[0] == w[0] && s[|w|] == '.';
    var t := ['-'] + w + ['.'] + f;
    assert t[1..] == s;
    assert "-"[1..] == "";
  }

  lemma {:induction false} DigitsOfConcat(d: string, rest: string)
    requires AllDigits(d)
    requires rest == [] || !IsDigit(rest[0])
    ensures Digits(d + rest) == d
  {
    if d != [] {
      assert (d + rest)[1..] == d[1..] + rest;
      DigitsOfConcat(d[1..], rest);
    } else {
      assert d + rest == rest;
    }
  }
}
