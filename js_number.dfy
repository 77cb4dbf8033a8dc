/**
 * JavaScript's `Number(x)` applied to a string or to `undefined`, for the
 * decimal literals a version property holds. A finite result is kept as the
 * floor of the decimal value written; JavaScript's rounding of that value to
 * a double is not modelled.
 */
module JsNumber {
  import opened Wrappers
  import opened JsString

  /** `NaN`, or a finite number given by its floor (the greatest integer not above the decimal value). */
  datatype Number = NaN | Finite(floor: int)

  /** `x >= k` for a whole number `k`: false for `NaN`, as in JavaScript. */
  predicate AtLeast(x: Number, k: int)
  {
    x.Finite? && x.floor >= k
  }

  predicate IsDigit(c: char)
  {
    '0' <= c <= '9'
  }

  predicate AllDigits(s: string)
  {
    forall k :: 0 <= k < |s| ==> IsDigit(s[k])
  }

  /** The value of a string of decimal digits, most significant first. */
  function DigitsValue(ds: string): nat
    requires AllDigits(ds)
  {
    if ds == [] then 0 else 10 * DigitsValue(ds[..|ds| - 1]) + (ds[|ds| - 1] as int - '0' as int)
  }

  /** The number of decimal digits `s` starts with. */
  function LeadingDigits(s: string): (n: nat)
    ensures n <= |s| && AllDigits(s[..n])
    ensures n < |s| ==> !IsDigit(s[n])
  {
    if s == [] || !IsDigit(s[0]) then 0
    else
      var n := 1 + LeadingDigits(s[1..]);
      assert forall k :: 1 <= k < n ==> s[..n][k] == s[1..][..n - 1][k - 1];
      n
  }

  /**
   * An unsigned decimal literal `digits [. digits]` or `. digits`, with at least
   * one digit: its floor, or `None` when the text is not such a literal.
   */
  function UnsignedFloor(t: string, negative: bool): Option<int>
  {
    var i := LeadingDigits(t);
    var whole: int := DigitsValue(t[..i]);
    if i == |t| then
      if i == 0 then None else Some(if negative then -whole else whole)
    else if t[i] != '.' || !AllDigits(t[i + 1..]) || (i == 0 && i + 1 == |t|) then None
    else
      var fractional := exists k :: i + 1 <= k < |t| && t[k] != '0';
      Some(if negative then (if fractional then -whole - 1 else -whole) else whole)
  }

  /**
   * `Number(x)`: `undefined` is `NaN`; surrounding whitespace is ignored; a blank
   * string is 0; a decimal literal with an optional sign is its value; anything
   * else is `NaN`.
   */
  function ToNumber(x: Option<string>): (r: Number)
    ensures x.None? ==> r == NaN
    ensures x.Some? && Trim(x.value) == [] ==> r == Finite(0)
    ensures x.Some? && Trim(x.value) != [] && AllDigits(Trim(x.value)) ==> r == Finite(DigitsValue(Trim(x.value)))
    ensures x.Some? && Trim(x.value) != [] && !IsDigit(Trim(x.value)[0]) && Trim(x.value)[0] !in "+-." ==> r == NaN
    ensures x.Some? ==> var t := Trim(x.value); var n := LeadingDigits(t);
      0 < n < |t| && t[n] != '.' ==> r == NaN
    ensures x.Some? ==> var t := Trim(x.value); var n := LeadingDigits(t);
      0 < n < |t| && t[n] == '.' ==> r == if AllDigits(t[n + 1..]) then Finite(DigitsValue(t[..n])) else NaN
    ensures x.Some? ==> var t := Trim(x.value);
      |t| > 1 && (t[0] == '+' || t[0] == '-') && AllDigits(t[1..]) ==>
      var v: int := DigitsValue(t[1..]); r == Finite(if t[0] == '-' then -v else v)
  {
    match x
    case None => NaN
    case Some(s) =>
      var t := Trim(s);
      if t == [] then Finite(0)
      else
        assert |t| > 1 && (t[0] == '+' || t[0] == '-') && AllDigits(t[1..]) ==>
          var v: int := DigitsValue(t[1..]); UnsignedFloor(t[1..], t[0] == '-') == Some(if t[0] == '-' then -v else v) by {
          if |t| > 1 && (t[0] == '+' || t[0] == '-') && AllDigits(t[1..]) { SignedDigits(t); }
        }
        assert AllDigits(t) ==> UnsignedFloor(t, false) == Some(DigitsValue(t)) by {
          if AllDigits(t) { UnsignedFloorOfDigits(t, false); }
        }
        var parsed :=
          if t[0] == '-' then UnsignedFloor(t[1..], true)
          else if t[0] == '+' then UnsignedFloor(t[1..], false)
          else UnsignedFloor(t, false);
        match parsed
        case None => NaN
        case Some(f) => Finite(f)
  }

  /** After a sign, a string of digits reads as its value with that sign. */
  lemma SignedDigits(t: string)
    requires |t| > 1 && (t[0] == '+' || t[0] == '-') && AllDigits(t[1..])
    ensures var v: int := DigitsValue(t[1..]); UnsignedFloor(t[1..], t[0] == '-') == Some(if t[0] == '-' then -v else v)
  {
    UnsignedFloorOfDigits(t[1..], t[0] == '-');
  }

  /** The decimal notation of `n`, without leading zeros. */
  function DecimalString(n: nat): (s: string)
    ensures s != [] && AllDigits(s)
  {
    var d := ['0' + (n % 10) as char];
    if n < 10 then d else DecimalString(n / 10) + d
  }

  lemma {:induction false} DecimalStringValue(n: nat)
    ensures DigitsValue(DecimalString(n)) == n
  {
    var s := DecimalString(n);
    if n >= 10 {
      DecimalStringValue(n / 10);
      assert s[..|s| - 1] == DecimalString(n / 10);
    }
  }

  /** `Number` reads back the decimal notation of every natural number. */
  lemma ToNumberOfDecimal(n: nat)
    ensures ToNumber(Some(DecimalString(n))) == Finite(n)
  {
    var s := DecimalString(n);
    assert IsDigit(s[0]) && IsDigit(s[|s| - 1]);
    TrimOfTrimmed(s);
    DecimalStringValue(n);
    UnsignedFloorOfDigits(s, false);
  }

  /** A string of digits reads as its decimal value. */
  lemma UnsignedFloorOfDigits(t: string, negative: bool)
    requires t != [] && AllDigits(t)
    ensures var v: int := DigitsValue(t); UnsignedFloor(t, negative) == Some(if negative then -v else v)
  {
    LeadingDigitsOfDigits(t);
    assert t[..|t|] == t;
  }

  lemma {:induction false} LeadingDigitsOfDigits(s: string)
    requires AllDigits(s)
    ensures LeadingDigits(s) == |s|
  {
    if s != [] {
      LeadingDigitsOfDigits(s[1..]);
    }
  }
}
