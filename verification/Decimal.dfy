/** Decimal numerals as strconv and fmt print and read them. */
module Decimal {

  predicate Digit(c: char) { '0' <= c <= '9' }

  predicate Digits(s: string) { forall i :: 0 <= i < |s| ==> Digit(s[i]) }

  function Number(s: string): nat
    requires Digits(s)
  {
    if s == "" then 0 else 10 * Number(s[..|s| - 1]) + (s[|s| - 1] as int - '0' as int)
  }

  function Pow10(n: nat): nat { if n == 0 then 1 else 10 * Pow10(n - 1) }

  lemma {:induction false} NumberBound(s: string)
    requires Digits(s)
    ensures Number(s) < Pow10(|s|)
  {
    if s != "" {
      NumberBound(s[..|s| - 1]);
    }
  }

  function Itoa(n: nat): (s: string)
    ensures s != "" && Digits(s)
  {
    if n < 10 then [(n as char) + '0'] else Itoa(n / 10) + [(n % 10) as char + '0']
  }

  lemma {:induction false} NumberOfItoa(n: nat)
    ensures Number(Itoa(n)) == n
  {
    if n < 10 {
      assert Itoa(n)[..0] == "";
    } else {
      NumberOfItoa(n / 10);
      var s := Itoa(n);
      assert s[..|s| - 1] == Itoa(n / 10);
    }
  }

  lemma {:induction false} ItoaLength(n: nat, k: nat)
    requires k >= 1 && n < Pow10(k)
    ensures |Itoa(n)| <= k
  {
    if n >= 10 {
      ItoaLength(n / 10, k - 1);
    }
  }

  /** No leading zero: 0, or a digit 1-9 followed by digits. */
  predicate Canonical(s: string) {
    s != "" && Digits(s) && (s[0] == '0' ==> |s| == 1)
  }

  /** Numerals without leading zeros determine their number, and are determined by it. */
  lemma {:induction false} ItoaOfNumber(s: string)
    requires Canonical(s)
    ensures Itoa(Number(s)) == s
  {
    var k := |s| - 1;
    var d := s[k] as int - '0' as int;
    if k == 0 {
      assert s[..0] == "";
      assert s == [s[0]];
    } else {
      assert s[..k][0] == s[0];
      ItoaOfNumber(s[..k]);
      NumberPositive(s[..k]);
      assert Number(s) / 10 == Number(s[..k]) && Number(s) % 10 == d;
      assert s == s[..k] + [s[k]];
    }
  }

  lemma {:induction false} NumberPositive(s: string)
    requires Digits(s) && s != "" && s[0] != '0'
    ensures Number(s) > 0
  {
    if |s| > 1 {
      assert s[..|s| - 1][0] == s[0];
      NumberPositive(s[..|s| - 1]);
    }
  }

  lemma SeparatorInside(x: string, r: string, y: string, s: string, sep: char)
    requires Digits(y) && x + [sep] + r == y + [sep] + s
    ensures |x| < |y| ==> Digit(sep)
  {
    var left, right := x + [sep] + r, y + [sep] + s;
    if |x| < |y| {
      assert left[|x|] == sep && right[|x|] == y[|x|];
    }
  }

  /** Digits, a separator that is no digit, and the rest: there is one way to split. */
  lemma {:induction false} SplitUnique(x: string, r: string, y: string, s: string, sep: char)
    requires Digits(x) && Digits(y) && !Digit(sep)
    requires x + [sep] + r == y + [sep] + s
    ensures x == y && r == s
  {
    SeparatorInside(x, r, y, s, sep);
    SeparatorInside(y, s, x, r, sep);
    var left, right := x + [sep] + r, y + [sep] + s;
    assert left[..|x|] == x && right[..|y|] == y;
    assert left[|x| + 1..] == r && right[|y| + 1..] == s;
  }
}
