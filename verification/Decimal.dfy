/** Decimal numerals: what `%d`, `strconv` and `itod` agree on. */
module Decimal {

  predicate IsDigit(c: char) {
    '0' <= c <= '9'
  }

  function Digit(d: nat): (c: char)
    requires d < 10
    ensures IsDigit(c) && c as nat - '0' as nat == d
  {
    '0' + d as char
  }

  predicate Digits(s: string) {
    forall i :: 0 <= i < |s| ==> IsDigit(s[i])
  }

  predicate Numeral(s: string) {
    s != [] && Digits(s)
  }

  /** The numeral of a number, without leading zeros. */
  function Render(n: nat): string {
    if n < 10 then [Digit(n)] else Render(n / 10) + [Digit(n % 10)]
  }

  /** The number a string of digits denotes. */
  function Value(s: string): nat
    requires Digits(s)
  {
    if s == [] then 0 else 10 * Value(s[..|s| - 1]) + (s[|s| - 1] as nat - '0' as nat)
  }

  lemma {:induction false} ValueOfRender(n: nat)
    ensures Numeral(Render(n)) && Value(Render(n)) == n
  {
    var r := Render(n);
    if n < 10 {
      assert r[..0] == [];
    } else {
      ValueOfRender(n / 10);
      assert r[..|r| - 1] == Render(n / 10);
    }
  }

  lemma {:induction false} RenderOfValue(s: string)
    requires Numeral(s) && (|s| > 1 ==> s[0] != '0')
    ensures Render(Value(s)) == s && (s != "0" ==> Value(s) > 0)
  {
    var p := s[..|s| - 1];
    if |s| == 1 {
      assert p == [] && s == [s[0]];
    } else {
      RenderOfValue(p);
      assert p != "0" by { assert p[0] == s[0]; }
      var d := s[|s| - 1] as nat - '0' as nat;
      assert Value(s) / 10 == Value(p) && Value(s) % 10 == d;
      assert s == p + [s[|s| - 1]];
    }
  }

  lemma RenderInjective(m: nat, n: nat)
    requires Render(m) == Render(n)
    ensures m == n
  {
    ValueOfRender(m);
    ValueOfRender(n);
  }

  function Pow10(k: nat): nat {
    if k == 0 then 1 else 10 * Pow10(k - 1)
  }
}
