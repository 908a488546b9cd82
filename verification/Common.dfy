/** Small shared vocabulary. */
module Common {

  datatype Option<+T> = None | Some(value: T)

  function Min(a: int, b: int): int { if a < b then a else b }

  function Max(a: int, b: int): int { if a < b then b else a }

  /** Rust's `checked_sub(1)` seen as a saturating step, and `saturating_sub`. */
  function SatSub(a: nat, b: nat): nat { if a < b then 0 else a - b }

  function Pow2(n: nat): (p: nat)
    ensures p >= 1
  {
    if n == 0 then 1 else 2 * Pow2(n - 1)
  }

  // ----- quotients ------------------------------------------------------

  lemma MulMono(x: int, y: int, r: nat)
    requires x <= y
    ensures x * r <= y * r
  {
    assert y * r - x * r == (y - x) * r;
  }

  lemma DivMod(c: nat, d: nat)
    requires d >= 1
    ensures c == (c / d) * d + c % d && c % d < d
  {
  }

  lemma QuotientUnique(c: nat, d: nat, q: nat, r: nat)
    requires d >= 1 && c == q * d + r && r < d
    ensures c / d == q
  {
    var q' := c / d;
    DivMod(c, d);
    MulMono(Min(q' + 1, q), q, d);
    MulMono(Min(q + 1, q'), q', d);
    assert (q + 1) * d == q * d + d && (q' + 1) * d == q' * d + d;
  }

  lemma DivMono(a: nat, b: nat, r: nat)
    requires r >= 1 && a <= b
    ensures a / r <= b / r
  {
    DivMod(a, r);
    DivMod(b, r);
    MulMono(Min(b / r + 1, a / r), a / r, r);
    assert (b / r + 1) * r == (b / r) * r + r;
  }

  lemma DivCeil(a: nat, r: nat)
    requires r >= 1
    ensures (a + r - 1) / r * r >= a && ((a + r - 1) / r - 1) * r < a
  {
    var q := (a + r - 1) / r;
    DivMod(a + r - 1, r);
    assert (q - 1) * r == q * r - r;
  }
}
