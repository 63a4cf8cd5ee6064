/** Decimal numerals: printing, reading and zero padding. */
module Numerals {
  import opened Text

  predicate IsDigit(c: char) {
    '0' <= c <= '9'
  }

  predicate AllDigits(s: string) {
    forall i :: 0 <= i < |s| ==> IsDigit(s[i])
  }

  function Digit(n: nat): char
    requires n < 10
  {
    ('0' as int + n) as char
  }

  // As str() prints a number.
  function Print(n: nat): string {
    if n < 10 then [Digit(n)] else Print(n / 10) + [Digit(n % 10)]
  }

  // As int() reads digits.
  function Read(s: string): nat
    requires AllDigits(s)
  {
    if |s| == 0 then 0 else Read(s[..|s| - 1]) * 10 + (s[|s| - 1] as int - '0' as int)
  }

  function Zeros(n: nat): string {
    seq(n, _ => '0')
  }

  // As zfill pads digits.
  function Pad(s: string, width: nat): string {
    if |s| >= width then s else Zeros(width - |s|) + s
  }

  lemma ReadSnoc(s: string, d: nat)
    requires AllDigits(s) && d < 10
    ensures AllDigits(s + [Digit(d)]) && Read(s + [Digit(d)]) == Read(s) * 10 + d
  {
    var t := s + [Digit(d)];
    assert t[..|t| - 1] == s;
  }

  lemma {:induction false} PrintRead(n: nat)
    ensures AllDigits(Print(n)) && Read(Print(n)) == n && |Print(n)| > 0
  {
    if n < 10 {
      ReadSnoc("", n);
      assert "" + [Digit(n)] == [Digit(n)];
    } else {
      PrintRead(n / 10);
      ReadSnoc(Print(n / 10), n % 10);
    }
  }

  lemma {:induction false} ReadZeros(k: nat, s: string)
    requires AllDigits(s)
    ensures AllDigits(Zeros(k) + s) && Read(Zeros(k) + s) == Read(s)
  {
    if |s| > 0 {
      ReadZeros(k, s[..|s| - 1]);
      assert (Zeros(k) + s)[..k + |s| - 1] == Zeros(k) + s[..|s| - 1];
    } else if k > 0 {
      ReadZeros(k - 1, "");
      assert (Zeros(k) + "")[..k - 1] == Zeros(k - 1) + "";
    } else {
      assert Zeros(0) + "" == "";
    }
  }

  // Padding fills up to the width with zeros and changes nothing else.
  lemma PadRead(n: nat, width: nat)
    ensures var s := Pad(Print(n), width); AllDigits(s) && Read(s) == n && |s| > 0
    ensures |Pad(Print(n), width)| == if |Print(n)| < width then width else |Print(n)|
  {
    PrintRead(n);
    if |Print(n)| < width {
      ReadZeros(width - |Print(n)|, Print(n));
    }
  }

  function Power(k: nat): (r: nat)
    ensures r > 0
  {
    if k == 0 then 1 else 10 * Power(k - 1)
  }

  // A number prints in at most so many digits exactly when it is below that power of ten.
  lemma {:induction false} PrintLength(n: nat, k: nat)
    requires k > 0
    ensures |Print(n)| <= k <==> n < Power(k)
  {
    if n >= 10 && k > 1 {
      PrintLength(n / 10, k - 1);
      assert n < 10 * Power(k - 1) <==> n / 10 < Power(k - 1);
    } else if n >= 10 {
      assert |Print(n / 10)| > 0 by { PrintRead(n / 10); }
      assert Power(1) == 10 * Power(0);
    } else {
      assert Power(k) >= 10;
    }
  }

  /** The digits, and how a numeral grows by one at the end; a numeral of more
      than one digit does not start with a zero. */
  lemma {:induction false} PrintExactly(n: nat, d: nat)
    requires d < 10
    ensures Print(d) == ["0123456789"[d]]
    ensures n > 0 ==> Print(10 * n + d) == Print(n) + ["0123456789"[d]]
    ensures n > 0 ==> Print(n)[0] != '0'
  {
    assert Digit(d) == "0123456789"[d];
    assert n > 0 ==> (10 * n + d) / 10 == n && (10 * n + d) % 10 == d;
    if n >= 10 {
      PrintExactly(n / 10, d);
    }
  }
}
