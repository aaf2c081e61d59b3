/** JavaScript values as far as the reactive core handles them, and the
    string conversion that `String.prototype.replace` and `+` apply to them. */
module Values {

  datatype Option<+T> = None | Some(value: T)

  /** A property value: `undefined`, an integral number or a string. */
  datatype Value = Undefined | Num(n: int) | Str(s: string)

  /** A non-empty run of decimal digits. */
  predicate IsDigits(s: string)
  {
    |s| >= 1 && forall i :: 0 <= i < |s| ==> '0' <= s[i] <= '9'
  }

  /** The number a run of decimal digits denotes, most significant first. */
  function DigitsValue(s: string): (n: nat)
    requires forall i :: 0 <= i < |s| ==> '0' <= s[i] <= '9'
    decreases |s|
  {
    if s == [] then 0 else DigitsValue(s[..|s| - 1]) * 10 + (s[|s| - 1] - '0') as nat
  }

  /** Decimal digits of a natural number, most significant first, without
      leading zeros. */
  function NatToString(n: nat): (r: string)
    ensures IsDigits(r)
    ensures r[0] == '0' ==> r == "0"
    decreases n
  {
    var d := ['0' + (n % 10) as char];
    if n < 10 then d else NatToString(n / 10) + d
  }

  /** The digits denote the number they were written for. */
  lemma {:induction false} NatToStringValue(n: nat)
    ensures DigitsValue(NatToString(n)) == n
    decreases n
  {
    var r := NatToString(n);
    if n >= 10 {
      NatToStringValue(n / 10);
      assert r[..|r| - 1] == NatToString(n / 10);
    }
  }

  /** `String(v)`: what a value turns into when spliced into text. */
  function ToString(v: Value): (r: string)
    ensures v.Str? ==> r == v.s
  {
    match v
    case Undefined => "undefined"
    case Num(n) => if n < 0 then "-" + NatToString(-n) else NatToString(n)
    case Str(s) => s
  }

  /** A numeral as `String` writes an integer: an optional minus sign, then
      digits without leading zeros; zero has no sign. */
  predicate IsNumeral(s: string)
  {
    if |s| >= 1 && s[0] == '-' then IsDigits(s[1..]) && s[1] != '0'
    else IsDigits(s) && (s[0] == '0' ==> s == "0")
  }

  /** The integer a numeral denotes. */
  function NumeralValue(s: string): (n: int)
    requires IsNumeral(s)
  {
    if s[0] == '-' then -(DigitsValue(s[1..]) as int) else DigitsValue(s)
  }

  /** A number's text is a numeral that denotes that number, so two numbers
      render alike only if they are equal. */
  lemma NumberText(n: int)
    ensures IsNumeral(ToString(Num(n)))
    ensures NumeralValue(ToString(Num(n))) == n
  {
    if n < 0 {
      NatToStringValue(-n);
      assert ("-" + NatToString(-n))[1..] == NatToString(-n);
    } else {
      NatToStringValue(n);
    }
  }

  /** Distinct numbers render as distinct texts. */
  lemma NumberTextInjective(m: int, n: int)
    requires ToString(Num(m)) == ToString(Num(n))
    ensures m == n
  {
    NumberText(m);
    NumberText(n);
  }
}
