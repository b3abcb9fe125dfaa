/** Option and Result wrappers shared by every module of the model. */
module Wrappers {

  datatype Option<T> = None | Some(value: T)

  /** The outcome of an operation that the source either completes or aborts with an exception. */
  datatype Result<T, E> = Ok(value: T) | Err(error: E)
}

/** Integer facts shared by the layout computations. */
module IntMath {

  function Pow2(k: nat): (r: nat)
    ensures r >= 1
  {
    if k == 0 then 1 else 2 * Pow2(k - 1)
  }

  lemma MulMono(a: int, b: int, p: int)
    requires a <= b && p >= 0
    ensures a * p <= b * p
  {
    assert b * p - a * p == (b - a) * p;
  }

  lemma MulAddOne(w: int, n: int)
    ensures w * (n + 1) == w * n + w
  {
  }

  /** Mixed-radix uniqueness: r + q P determines q and r when 0 <= r < P. */
  lemma DivUnique(r1: int, q1: int, r2: int, q2: int, p: int)
    requires 0 <= r1 < p && 0 <= r2 < p && r1 + q1 * p == r2 + q2 * p
    ensures q1 == q2 && r1 == r2
  {
    if q1 < q2 {
      MulMono(q1 + 1, q2, p);
    } else if q2 < q1 {
      MulMono(q2 + 1, q1, p);
    }
  }

  /** A quotient by p of a number below m p is below m. */
  lemma QuotientBound(i: nat, p: nat, m: nat)
    requires p >= 1 && i < m * p
    ensures i / p < m
  {
    if i / p >= m {
      MulMono(m, i / p, p);
    }
  }

  /** q p + r splits back into q and r when 0 <= r < p. */
  lemma DivMulAdd(q: int, r: int, p: int)
    requires 0 <= r < p
    ensures (q * p + r) / p == q && (q * p + r) % p == r
  {
    DivUnique(r, q, (q * p + r) % p, (q * p + r) / p, p);
  }
}
