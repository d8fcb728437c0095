/**
 * JavaScript values as the actions see them: optional strings (`undefined`
 * is `None`), truthiness, the `||` operator on strings, and `Number(...)`
 * applied to the port settings.
 */
module JsValues {
  import opened JsStrings

  datatype Option<+T> = None | Some(value: T)

  /** Truthiness of a string that may be `undefined`: both `undefined` and `""` are falsy. */
  predicate Truthy(s: Option<string>) {
    s.Some? && s.value != ""
  }

  /** `a || b`: the first operand when it is truthy, else the second. */
  function Or(a: Option<string>, b: Option<string>): (r: Option<string>)
    ensures Truthy(a) ==> r == a
    ensures !Truthy(a) ==> r == b
    ensures Truthy(r) <==> Truthy(a) || Truthy(b)
  {
    if Truthy(a) then a else b
  }

  /** A JavaScript number restricted to what the port settings need: a finite integer, or not finite (NaN). */
  datatype Num = Finite(value: int) | NaN

  predicate IsDigit(c: char) {
    '0' <= c <= '9'
  }

  predicate AllDigits(s: string) {
    forall i :: 0 <= i < |s| ==> IsDigit(s[i])
  }

  /** The value of a string of decimal digits. */
  function DigitsValue(s: string): nat
    requires AllDigits(s)
  {
    if s == [] then 0
    else DigitsValue(s[..|s| - 1]) * 10 + (s[|s| - 1] as int - '0' as int)
  }

  /** The decimal spelling of a natural number, without leading zeros. */
  function Decimal(n: nat): (s: string)
    ensures s != [] && AllDigits(s)
  {
    var d := ['0' + (n % 10) as char];
    if n < 10 then d else Decimal(n / 10) + d
  }

  lemma {:induction false} DecimalValue(n: nat)
    ensures DigitsValue(Decimal(n)) == n
  {
    if n >= 10 {
      DecimalValue(n / 10);
      var s := Decimal(n);
      assert s[..|s| - 1] == Decimal(n / 10);
    }
  }

  /**
   * `Number(s)` on a setting that may be absent: `undefined` gives NaN, a blank
   * string gives 0, a decimal integer with an optional sign (surrounded by any
   * white space) gives its value, and everything else is treated as NaN.
   */
  function NumberOf(s: Option<string>): (r: Num)
    ensures s.None? ==> r == NaN
    ensures s.Some? && Trim(s.value) == "" ==> r == Finite(0)
    ensures r.Finite? ==> s.Some?
  {
    match s
    case None => NaN
    case Some(text) =>
      var t := Trim(text);
      if t == "" then Finite(0)
      else if AllDigits(t) then Finite(DigitsValue(t))
      else if |t| > 1 && t[0] == '-' && AllDigits(t[1..]) then Finite(-(DigitsValue(t[1..]) as int))
      else if |t| > 1 && t[0] == '+' && AllDigits(t[1..]) then Finite(DigitsValue(t[1..]))
      else NaN
  }

  /** A port written in decimal, with or without surrounding white space, reads back as that number. */
  lemma NumberOfDecimal(n: nat, pad: string)
    requires forall i :: 0 <= i < |pad| ==> IsSpace(pad[i])
    ensures NumberOf(Some(pad + Decimal(n) + pad)) == Finite(n)
  {
    TrimmedDecimal(n, pad);
    DecimalValue(n);
  }

  /** A decimal numeral neither starts nor ends with white space, so padding it is undone by `trim`. */
  lemma TrimmedDecimal(n: nat, pad: string)
    requires forall i :: 0 <= i < |pad| ==> IsSpace(pad[i])
    ensures Trim(pad + Decimal(n) + pad) == Decimal(n)
  {
    var d := Decimal(n);
    assert !IsSpace(d[0]) && !IsSpace(d[|d| - 1]);
    TrimPadded(pad, d, pad);
  }
}
