/** PHP scalars as they reach the catalog core, the few PHP conversions the
    core relies on (`empty()`, the `(int)` cast, integer-to-string), and
    ordered request parameter lists. */
module Values {

  datatype Option<+T> = None | Some(value: T)

  /** The exceptions that reach the core. */
  datatype Error =
    | NotFound(id: int)         // ModelNotFoundException from the repository
    | IndexAlreadyExists        // the search engine refuses to create an existing index

  datatype Result<+T> = Ok(value: T) | Err(error: Error)

  /** A PHP scalar. A float/decimal is held exactly, in hundredths (prices
      have two decimals); no floating-point arithmetic is modelled. */
  datatype Value =
    | Null
    | Bool(b: bool)
    | Int(i: int)
    | Dec(hundredths: int)
    | Str(s: string)

  /** PHP's `empty()` on a scalar: null, false, 0, 0.0, "" and "0". */
  predicate Empty(v: Value)
    ensures Empty(v) <==> v in {Null, Bool(false), Int(0), Dec(0), Str(""), Str("0")}
  {
    match v
    case Null => true
    case Bool(b) => !b
    case Int(i) => i == 0
    case Dec(h) => h == 0
    case Str(s) => s == "" || s == "0"
  }

  // ---------------------------------------------------------------------
  // Ordered parameter lists (a PHP array with string keys)
  // ---------------------------------------------------------------------

  type Params = seq<(string, Value)>

  /** `$params[$key]`, or None when the key is absent. */
  function Get(ps: Params, key: string): Option<Value> {
    if ps == [] then None
    else if ps[0].0 == key then Some(ps[0].1)
    else Get(ps[1..], key)
  }

  /** A lookup finds nothing exactly when no pair has the key, and what it
      finds is a value paired with the key. */
  lemma {:induction false} GetFinds(ps: Params, key: string)
    ensures Get(ps, key).None? <==> forall i :: 0 <= i < |ps| ==> ps[i].0 != key
    ensures Get(ps, key).Some? ==> exists i :: 0 <= i < |ps| && ps[i] == (key, Get(ps, key).value)
    decreases |ps|
  {
    if ps != [] && ps[0].0 != key {
      GetFinds(ps[1..], key);
      assert forall i :: 1 <= i < |ps| ==> ps[i] == ps[1..][i - 1];
      if Get(ps, key).Some? {
        var i :| 0 <= i < |ps[1..]| && ps[1..][i] == (key, Get(ps, key).value);
        assert ps[i + 1] == (key, Get(ps, key).value);
      }
    }
  }

  /** `empty($params[$key])`: a missing key counts as empty. */
  predicate EmptyParam(ps: Params, key: string) {
    match Get(ps, key)
    case None => true
    case Some(v) => Empty(v)
  }

  /** `$params[$key]` where the caller has checked the key is there; Null otherwise. */
  function Param(ps: Params, key: string): Value {
    match Get(ps, key)
    case None => Null
    case Some(v) => v
  }

  /** `$request->get($key, $default)`: the default only when the key is absent. */
  function ParamOr(ps: Params, key: string, default: Value): (r: Value)
    ensures Get(ps, key).None? ==> r == default
    ensures Get(ps, key).Some? ==> r == Get(ps, key).value
    ensures !EmptyParam(ps, key) ==> r == Param(ps, key)
  {
    GetFinds(ps, key);
    match Get(ps, key)
    case None => default
    case Some(v) => v
  }

  // ---------------------------------------------------------------------
  // Integer to decimal string (PHP string conversion of an int)
  // ---------------------------------------------------------------------

  predicate IsDigit(c: char) { '0' <= c <= '9' }

  function DigitChar(d: nat): (c: char)
    requires d < 10
    ensures IsDigit(c) && c as int - '0' as int == d
  {
    ('0' as int + d) as char
  }

  function DigitValue(c: char): nat
    requires IsDigit(c)
  {
    c as int - '0' as int
  }

  /** Decimal rendering of a natural number, most significant digit first. */
  function NatToString(n: nat): (s: string)
    ensures |s| >= 1
    ensures forall i :: 0 <= i < |s| ==> IsDigit(s[i])
    ensures (|s| == 1) <==> n < 10
    decreases n
  {
    if n < 10 then [DigitChar(n)] else NatToString(n / 10) + [DigitChar(n % 10)]
  }

  /** PHP's string conversion of an int: a minus sign for negatives. */
  function IntToString(n: int): (s: string)
    ensures |s| >= 1
    ensures n < 0 <==> s[0] == '-'
  {
    if n < 0 then "-" + NatToString(-n) else NatToString(n)
  }

  /** Distinct naturals render differently. */
  lemma {:induction false} NatToStringInjective(a: nat, b: nat)
    requires NatToString(a) == NatToString(b)
    ensures a == b
    decreases a
  {
    var sa, sb := NatToString(a), NatToString(b);
    if a < 10 {
      assert b < 10;
      assert DigitChar(a) == sa[0] == sb[0] == DigitChar(b);
    } else {
      assert b >= 10;
      assert sa[..|sa| - 1] == NatToString(a / 10);
      assert sb[..|sb| - 1] == NatToString(b / 10);
      NatToStringInjective(a / 10, b / 10);
      assert DigitChar(a % 10) == sa[|sa| - 1] == sb[|sb| - 1] == DigitChar(b % 10);
    }
  }

  /** Distinct integers render differently, so keys built from ids never collide. */
  lemma IntToStringInjective(a: int, b: int)
    requires IntToString(a) == IntToString(b)
    ensures a == b
  {
    var s := IntToString(a);
    if a < 0 {
      assert b < 0;
      assert s[1..] == NatToString(-a) == NatToString(-b);
      NatToStringInjective(-a, -b);
    } else {
      assert b >= 0;
      NatToStringInjective(a, b);
    }
  }

  // ---------------------------------------------------------------------
  // The (int) cast
  // ---------------------------------------------------------------------

  /** Value of a string of digits, most significant first. */
  function DigitsValue(ds: string): nat
    requires forall i :: 0 <= i < |ds| ==> IsDigit(ds[i])
    decreases |ds|
  {
    if ds == [] then 0 else DigitsValue(ds[..|ds| - 1]) * 10 + DigitValue(ds[|ds| - 1])
  }

  /** The longest prefix of `s` made of digits. */
  function DigitPrefix(s: string): (p: string)
    ensures |p| <= |s| && p == s[..|p|]
    ensures forall i :: 0 <= i < |p| ==> IsDigit(p[i])
    ensures |p| < |s| ==> !IsDigit(s[|p|])
  {
    if s == [] || !IsDigit(s[0]) then [] else [s[0]] + DigitPrefix(s[1..])
  }

  predicate IsSpace(c: char) { c == ' ' || c == '\t' || c == '\n' || c == '\r' || c as int == 11 || c as int == 12 }

  function SkipSpaces(s: string): (t: string)
    ensures |t| <= |s| && t == s[|s| - |t|..]
    ensures t == [] || !IsSpace(t[0])
  {
    if s != [] && IsSpace(s[0]) then SkipSpaces(s[1..]) else s
  }

  /** `(int)` of a string: leading white space, an optional sign and the
      digits that follow; 0 when no digit follows. */
  function StringToInt(s: string): int {
    var t := SkipSpaces(s);
    if t != [] && t[0] == '-' then -(DigitsValue(DigitPrefix(t[1..])) as int)
    else if t != [] && t[0] == '+' then DigitsValue(DigitPrefix(t[1..]))
    else DigitsValue(DigitPrefix(t))
  }

  /** PHP's `(int)` cast on a scalar; a decimal is truncated toward zero. */
  function IntCast(v: Value): (r: int)
    ensures v.Null? ==> r == 0
    ensures v.Bool? ==> (r == 1 <==> v.b) && (r == 0 <==> !v.b)
    ensures v.Int? ==> r == v.i
    // a decimal loses its fraction, toward zero
    ensures v.Dec? && v.hundredths >= 0 ==> 0 <= v.hundredths - r * 100 < 100
    ensures v.Dec? && v.hundredths < 0 ==> 0 <= r * 100 - v.hundredths < 100
  {
    match v
    case Null => 0
    case Bool(b) => if b then 1 else 0
    case Int(i) => i
    case Dec(h) => if h >= 0 then h / 100 else -((-h) / 100)
    case Str(s) => StringToInt(s)
  }

  lemma {:induction false} DigitsValueOfNatToString(n: nat)
    ensures DigitsValue(NatToString(n)) == n
    decreases n
  {
    var s := NatToString(n);
    if n >= 10 {
      assert s[..|s| - 1] == NatToString(n / 10);
      DigitsValueOfNatToString(n / 10);
    }
  }

  lemma DigitPrefixOfDigits(s: string)
    requires forall i :: 0 <= i < |s| ==> IsDigit(s[i])
    ensures DigitPrefix(s) == s
  {
  }

  /** The digit run of a natural number's decimal form reads back the number. */
  lemma NatDigitsReadBack(n: nat)
    ensures DigitsValue(DigitPrefix(NatToString(n))) == n
  {
    DigitPrefixOfDigits(NatToString(n));
    DigitsValueOfNatToString(n);
  }

  /** The `(int)` cast reads back what integer-to-string wrote. */
  lemma IntCastOfIntToString(n: int)
    ensures IntCast(Str(IntToString(n))) == n
  {
    var s := IntToString(n);
    assert !IsSpace(s[0]);
    assert SkipSpaces(s) == s;
    if n < 0 {
      var m: nat := -n;
      assert s == "-" + NatToString(m);
      assert s[1..] == NatToString(m);
      NatDigitsReadBack(m);
      assert StringToInt(s) == -(m as int);
    } else {
      var m: nat := n;
      assert s == NatToString(m);
      assert s[0] != '+';
      NatDigitsReadBack(m);
      assert StringToInt(s) == m;
    }
  }

  // ---------------------------------------------------------------------
  // http_build_query, without URL encoding
  // ---------------------------------------------------------------------

  /** PHP's string form of a scalar as it appears in a query string. */
  function Render(v: Value): string {
    match v
    case Null => ""
    case Bool(b) => if b then "1" else "0"
    case Int(i) => IntToString(i)
    case Dec(h) => RenderDecimal(h)
    case Str(s) => s
  }

  /** A decimal in hundredths as PHP prints the float: no trailing zeros. */
  function RenderDecimal(h: int): string {
    var sign := if h < 0 then "-" else "";
    var m: nat := if h < 0 then -h else h;
    var whole := NatToString(m / 100);
    var frac := m % 100;
    if frac == 0 then sign + whole
    else if frac % 10 == 0 then sign + whole + "." + [DigitChar(frac / 10)]
    else sign + whole + "." + [DigitChar(frac / 10), DigitChar(frac % 10)]
  }

  /** `http_build_query`: `key=value` pairs joined by `&`, in order, pairs
      whose value is null left out. */
  function QueryString(ps: Params): (r: string)
    ensures r == "" <==> forall i :: 0 <= i < |ps| ==> ps[i].1 == Null
  {
    if ps == [] then ""
    else
      var rest := QueryString(ps[1..]);
      if ps[0].1 == Null then rest
      else
        var pair := ps[0].0 + "=" + Render(ps[0].1);
        if rest == "" then pair else pair + "&" + rest
  }

  /** A null parameter leaves no trace in the query string, wherever it sits. */
  lemma {:induction false} QueryStringSkipsNull(ps: Params, i: nat, key: string)
    requires i <= |ps|
    ensures QueryString(ps[..i] + [(key, Null)] + ps[i..]) == QueryString(ps)
    decreases i
  {
    var with := ps[..i] + [(key, Null)] + ps[i..];
    if i == 0 {
      assert with[1..] == ps;
    } else {
      QueryStringSkipsNull(ps[1..], i - 1, key);
      assert with[0] == ps[0];
      assert with[1..] == ps[1..][..i - 1] + [(key, Null)] + ps[1..][i - 1..];
    }
  }
}
