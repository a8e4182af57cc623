/** Decimal rendering of non-negative integers, as Rust's `to_string` writes them. */
module Decimal {

  predicate IsDigit(c: char) { '0' <= c <= '9' }

  predicate AllDigits(s: string) { forall i :: 0 <= i < |s| ==> IsDigit(s[i]) }

  function DigitChar(d: nat): (c: char)
    requires d < 10
    ensures IsDigit(c) && c as int - '0' as int == d
  {
    ('0' as int + d) as char
  }

  function Render(n: nat): (s: string)
    ensures s != "" && AllDigits(s)
    ensures s[0] == '0' ==> s == "0" && n == 0
    decreases n
  {
    if n < 10 then [DigitChar(n)] else Render(n / 10) + [DigitChar(n % 10)]
  }

  /** The number a digit string denotes; leading zeros do not change it. */
  function Value(s: string): (n: nat)
    requires AllDigits(s)
  {
    if s == "" then 0 else 10 * Value(s[..|s| - 1]) + (s[|s| - 1] as int - '0' as int)
  }

  lemma {:induction false} RenderValue(n: nat)
    ensures Value(Render(n)) == n
    decreases n
  {
    if n >= 10 {
      var s := Render(n);
      assert s[..|s| - 1] == Render(n / 10);
      RenderValue(n / 10);
    } else {
      assert Render(n)[..0] == "";
    }
  }

  lemma RenderInjective(m: nat, n: nat)
    requires Render(m) == Render(n)
    ensures m == n
  {
    RenderValue(m);
    RenderValue(n);
  }

  /** A digit string is the rendering of its own value exactly when it is canonical. */
  lemma {:induction false} ValueRender(s: string)
    requires s != "" && AllDigits(s)
    ensures Render(Value(s)) == s <==> (s[0] != '0' || s == "0")
  {
    if s[0] != '0' || s == "0" {
      CanonicalRender(s);
    }
  }

  lemma {:induction false} CanonicalRender(s: string)
    requires s != "" && AllDigits(s)
    requires s[0] != '0' || s == "0"
    ensures Render(Value(s)) == s
    ensures |s| > 1 ==> Value(s) >= 10
  {
    if |s| > 1 {
      var t := s[..|s| - 1];
      CanonicalRender(t);
      assert t[0] == s[0];
      assert Render(Value(t))[0] != '0';
      assert s == t + [s[|s| - 1]];
    } else {
      assert s[..0] == "";
      assert Value(s) == s[0] as int - '0' as int;
    }
  }
}
