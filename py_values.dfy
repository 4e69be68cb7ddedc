/// Python-level values that the listeners read out of a decoded printer report,
/// and the few Python and SQLite conversions the core applies to them:
/// truthiness, str(), int(), int(float()) and binding a value to a TEXT column.
module PyValues {

  datatype Option<+T> = None | Some(value: T) {
    /** dict.get(key, default) once the lookup has produced an Option. */
    function GetOr(default: T): T {
      match this
      case Some(v) => v
      case None => default
    }
  }

  /** A JSON scalar as json.loads hands it over (objects, lists and
      non-integral numbers are not modelled). */
  datatype Value = Null | Bool(b: bool) | Int(i: int) | Str(s: string)

  /** Python truthiness of a scalar. */
  predicate Truthy(v: Value) {
    match v
    case Null => false
    case Bool(b) => b
    case Int(i) => i != 0
    case Str(s) => s != ""
  }

  predicate IsDigit(c: char) {
    '0' <= c <= '9'
  }

  predicate AllDigits(s: string) {
    forall i :: 0 <= i < |s| ==> IsDigit(s[i])
  }

  function DigitChar(d: nat): (c: char)
    requires d < 10
    ensures IsDigit(c) && c as int - '0' as int == d
  {
    ('0' as int + d) as char
  }

  /** Decimal digits of n, most significant first. */
  function NatToString(n: nat): (s: string)
    ensures |s| >= 1 && AllDigits(s)
  {
    if n < 10 then [DigitChar(n)] else NatToString(n / 10) + [DigitChar(n % 10)]
  }

  /** The number a string of decimal digits denotes (leading zeros allowed). */
  function DigitsValue(s: string): nat
    requires AllDigits(s)
  {
    if s == [] then 0 else DigitsValue(s[..|s| - 1]) * 10 + (s[|s| - 1] as int - '0' as int)
  }

  /** Python's str() of an int. */
  function IntToString(i: int): (s: string)
    ensures |s| >= 1
  {
    if i < 0 then "-" + NatToString(-i) else NatToString(i)
  }

  /** Python's int() of a string: an optional sign and at least one decimal
      digit; None where int() raises ValueError. */
  function ParseInt(s: string): Option<int> {
    if s != [] && (s[0] == '-' || s[0] == '+') then
      if |s| > 1 && AllDigits(s[1..]) then
        var magnitude: int := DigitsValue(s[1..]);
        Some(if s[0] == '-' then -magnitude else magnitude)
      else None
    else if s != [] && AllDigits(s) then Some(DigitsValue(s))
    else None
  }

  /** Position of the first c in s, or |s| when s has none. */
  function IndexOf(s: string, c: char): (k: nat)
    ensures k <= |s|
    ensures k < |s| ==> s[k] == c
    ensures forall j :: 0 <= j < k ==> s[j] != c
  {
    if s == [] then 0 else if s[0] == c then 0 else 1 + IndexOf(s[1..], c)
  }

  /** The exact decimal reading of int(float(s)) for an unsigned literal:
      digits, optionally a dot and more digits, at least one digit in all; the
      fraction is dropped. None where float() raises ValueError. The rounding
      of float() to 53 bits is not modelled. */
  function UnsignedDecimal(s: string): Option<nat> {
    var k := IndexOf(s, '.');
    var whole := s[..k];
    var fraction := if k < |s| then s[k + 1..] else [];
    if AllDigits(whole) && AllDigits(fraction) && |whole| + |fraction| > 0 then Some(DigitsValue(whole))
    else None
  }

  /** The exact decimal reading of int(float(s)) for a plain decimal literal:
      an optional sign, then an unsigned literal. Dropping the fraction
      truncates toward zero. It agrees with Python where float() represents
      the literal's integer part exactly and does not round the fraction up
      to the next integer. */
  function TruncatedDecimal(s: string): Option<int> {
    if s != [] && (s[0] == '-' || s[0] == '+') then
      match UnsignedDecimal(s[1..])
      case None => None
      case Some(magnitude) => Some(if s[0] == '-' then -(magnitude as int) else magnitude)
    else UnsignedDecimal(s)
  }

  /** int(float(v)) in the exact decimal reading; None where float() raises
      (None, a malformed string). */
  function TruncSeconds(v: Value): Option<int> {
    match v
    case Null => None
    case Bool(b) => Some(if b then 1 else 0)
    case Int(i) => Some(i)
    case Str(s) => TruncatedDecimal(s)
  }

  /** Python's str() of a scalar, as an f-string renders it. */
  function ToStr(v: Value): string {
    match v
    case Null => "None"
    case Bool(b) => if b then "True" else "False"
    case Int(i) => IntToString(i)
    case Str(s) => s
  }

  /** What a value bound to a TEXT column holds: None is SQL NULL, and TEXT
      affinity stores integers (booleans bind as 1 and 0) as their decimal text. */
  function SqlText(v: Value): Option<string> {
    match v
    case Null => None
    case Bool(b) => Some(if b then "1" else "0")
    case Int(i) => Some(IntToString(i))
    case Str(s) => Some(s)
  }

  /** SQL `a = b` in a WHERE clause: NULL on either side never matches. */
  predicate SqlEquals(a: Option<string>, b: Option<string>) {
    a.Some? && b.Some? && a.value == b.value
  }

  lemma {:induction false} NatToStringValue(n: nat)
    ensures DigitsValue(NatToString(n)) == n
  {
    var s := NatToString(n);
    if n < 10 {
      assert s[..|s| - 1] == [];
    } else {
      var prefix := NatToString(n / 10);
      assert s == prefix + [DigitChar(n % 10)];
      assert s[..|s| - 1] == prefix;
      NatToStringValue(n / 10);
    }
  }

  /** str() then int() gives back the integer. */
  lemma ParseIntRoundTrip(i: int)
    ensures ParseInt(IntToString(i)) == Some(i)
  {
    var s := IntToString(i);
    if i < 0 {
      var digits := NatToString(-i);
      assert s == "-" + digits && s[0] == '-';
      assert s[1..] == digits;
      NatToStringValue(-i);
      assert DigitsValue(s[1..]) == -i;
    } else {
      var digits := NatToString(i);
      assert s == digits && IsDigit(s[0]);
      NatToStringValue(i);
    }
  }

  lemma IntToStringInjective(i: int, j: int)
    ensures IntToString(i) == IntToString(j) <==> i == j
  {
    ParseIntRoundTrip(i);
    ParseIntRoundTrip(j);
  }

  /** str() of an int holds only digits and a leading minus sign. */
  lemma IntToStringChars(i: int)
    ensures forall k :: 0 <= k < |IntToString(i)| ==> IsDigit(IntToString(i)[k]) || IntToString(i)[k] == '-'
  {
  }

  lemma {:induction false} IndexOfAfterDigits(d: string, t: string)
    requires AllDigits(d)
    ensures IndexOf(d + t, '.') == |d| + IndexOf(t, '.')
  {
    if d != [] {
      assert (d + t)[1..] == d[1..] + t;
      IndexOfAfterDigits(d[1..], t);
    } else {
      assert d + t == t;
    }
  }

  /** An unsigned literal made of the digits d and then nothing or a
      fractional part splits at the end of d. */
  lemma SplitAtDot(d: string, tail: string)
    requires AllDigits(d)
    requires tail == [] || (tail[0] == '.' && AllDigits(tail[1..]))
    ensures IndexOf(d + tail, '.') == |d|
    ensures (d + tail)[..|d|] == d
    ensures |d| < |d + tail| ==> (d + tail)[|d| + 1..] == tail[1..]
  {
    IndexOfAfterDigits(d, tail);
    assert tail != [] ==> IndexOf(tail, '.') == 0;
  }

  /** An unsigned literal: its digits, then nothing or a fractional part. */
  lemma UnsignedDecimalOfDigits(digits: string, tail: string)
    requires |digits| >= 1 && AllDigits(digits)
    requires tail == [] || (tail[0] == '.' && AllDigits(tail[1..]))
    ensures UnsignedDecimal(digits + tail) == Some(DigitsValue(digits))
  {
    SplitAtDot(digits, tail);
  }

  /** A literal that starts with a digit has no sign. */
  lemma UnsignedLiteral(u: string)
    requires u != [] && IsDigit(u[0])
    ensures TruncatedDecimal(u) == UnsignedDecimal(u)
  {
  }

  /** A minus sign in front of an unsigned literal negates its value. */
  lemma NegatedLiteral(u: string, n: nat)
    requires UnsignedDecimal(u) == Some(n)
    ensures TruncatedDecimal("-" + u) == Some(-(n as int))
  {
    assert ("-" + u)[1..] == u;
  }

  /** str(i) followed by nothing or by a fractional part reads back as i. */
  lemma TruncatedDecimalOfIntText(i: int, tail: string)
    requires tail == [] || (tail[0] == '.' && AllDigits(tail[1..]))
    ensures TruncatedDecimal(IntToString(i) + tail) == Some(i)
  {
    var n: nat := if i < 0 then -i else i;
    var u := NatToString(n) + tail;
    assert UnsignedDecimal(u) == Some(n) by {
      NatToStringValue(n);
      UnsignedDecimalOfDigits(NatToString(n), tail);
    }
    if i < 0 {
      assert TruncatedDecimal(IntToString(i) + tail) == Some(i) by {
        assert IntToString(i) + tail == "-" + u;
        NegatedLiteral(u, n);
      }
    } else {
      assert TruncatedDecimal(IntToString(i) + tail) == Some(i) by {
        assert IntToString(i) + tail == u && u[0] == NatToString(n)[0];
        UnsignedLiteral(u);
      }
    }
  }

  /** In the exact decimal reading, int(float(s)) reads an integer's own text,
      and with any fractional part appended it truncates back to that integer. */
  lemma TruncatedDecimalOfInt(i: int, fraction: string)
    requires AllDigits(fraction)
    ensures TruncatedDecimal(IntToString(i)) == Some(i)
    ensures TruncatedDecimal(IntToString(i) + "." + fraction) == Some(i)
  {
    assert TruncatedDecimal(IntToString(i)) == Some(i) by {
      TruncatedDecimalOfIntText(i, []);
      assert IntToString(i) + [] == IntToString(i);
    }
    assert TruncatedDecimal(IntToString(i) + "." + fraction) == Some(i) by {
      var tail := "." + fraction;
      assert tail[0] == '.' && tail[1..] == fraction;
      TruncatedDecimalOfIntText(i, tail);
      assert IntToString(i) + "." + fraction == IntToString(i) + tail;
    }
  }

  /** int(float()) drops the fraction toward zero, so -1.5 becomes -1, not
      the floor -2. */
  lemma TruncatesTowardZero()
    ensures TruncatedDecimal("1.5") == Some(1)
    ensures TruncatedDecimal("-1.5") == Some(-1)
  {
    assert IntToString(1) == "1";
    assert IntToString(-1) == "-1";
    TruncatedDecimalOfInt(1, "5");
    TruncatedDecimalOfInt(-1, "5");
    assert IntToString(1) + "." + "5" == "1.5";
    assert IntToString(-1) + "." + "5" == "-1.5";
  }
}
