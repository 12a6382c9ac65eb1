/** Powers of a real number. */
module Powers {
  ghost function Power(x: real, n: nat): real {
    if n == 0 then 1.0 else x * Power(x, n - 1)
  }

  lemma {:induction false} PowerNotNegative(x: real, n: nat)
    requires x >= 0.0
    ensures Power(x, n) >= 0.0
  {
    if n > 0 { PowerNotNegative(x, n - 1); }
  }
}
