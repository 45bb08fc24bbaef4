/** Which byte of a number stands where: in memory the least significant one first, on the wire the most significant one. */
module Digits {
  import opened Bytes
  import opened Wire
  import Swap

  lemma Regrouped(q: nat, b: nat)
    ensures q * (256 * b) == 256 * (q * b)
  {
  }

  lemma QuotientAndRest(m: nat, b: nat)
    requires b > 0
    ensures m == m / b * b + m % b && m % b < b
  {
  }

  /** Dividing by 256 and then by `b` is dividing by their product. */
  lemma DivideTwice(n: nat, b: nat)
    requires b > 0
    ensures n / 256 / b == n / (256 * b)
  {
    var m := n / 256;
    QuotientAndRest(m, b);
    Regrouped(m / b, b);
    var q, r: nat := m / b, 256 * (m % b) + n % 256;
    assert n == q * (256 * b) + r && r < 256 * b;
    Swap.DivModUnique(n, q, r, 256 * b);
  }

  lemma {:induction false} PowPositive(k: nat)
    ensures Pow256(k) > 0
  {
    if k > 0 { PowPositive(k - 1); }
  }

  /** In memory the byte at position `i` counts 256 to the power `i`. */
  lemma {:induction false} LEByte(n: nat, k: nat, i: nat)
    requires i < k
    ensures Pow256(i) > 0 && ToLE(n, k)[i] == n / Pow256(i) % 256
  {
    PowPositive(i);
    if i > 0 {
      LEByte(n / 256, k - 1, i - 1);
      DivideTwice(n, Pow256(i - 1));
    }
  }

  /** On the wire the most significant byte comes first. */
  lemma {:induction false} BEByte(n: nat, k: nat, i: nat)
    requires i < k
    ensures Pow256(k - 1 - i) > 0 && ToBE(n, k)[i] == n / Pow256(k - 1 - i) % 256
  {
    PowPositive(k - 1 - i);
    if i < k - 1 {
      BEByte(n / 256, k - 1, i);
      DivideTwice(n, Pow256(k - 2 - i));
    }
  }
}
