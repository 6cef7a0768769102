/** Shared result types, the address check, and the few facts about integer arithmetic that several modules need. */
module Common {
  datatype Option<+T> = None | Some(value: T)

  datatype Result<+T, +E> = Ok(value: T) | Err(error: E)

  /** A Stellar public key: G followed by 55 base-32 characters. */
  predicate IsStellarAddress(address: string) {
    && |address| == 56 && address[0] == 'G'
    && forall i :: 1 <= i < |address| ==> 'A' <= address[i] <= 'Z' || '2' <= address[i] <= '7'
  }

  function Max(a: int, b: int): int {
    if a < b then b else a
  }

  function Min(a: int, b: int): int {
    if a < b then a else b
  }

  lemma MulMono(a: int, b: int, c: int)
    requires a <= b && 0 <= c
    ensures a * c <= b * c && c * a <= c * b
  {}

  lemma MulCancel(a: int, b: int, c: int)
    requires 0 < c && a * c <= b * c
    ensures a <= b
  {
    if b < a {
      MulMono(b + 1, a, c);
    }
  }

  lemma MulMonoPair(a: int, b: int, c: int, d: int)
    requires 0 <= a <= b && 0 <= c <= d
    ensures 0 <= a * c <= b * d
  {
    MulMono(a, b, c);
    MulMono(c, d, b);
    MulMono(0, a, c);
  }

  /** Floor division by a positive divisor, as the two inequalities that define it. */
  lemma FloorDiv(n: int, d: int)
    requires d > 0
    ensures (n / d) * d <= n < (n / d + 1) * d
  {
    assert n == (n / d) * d + n % d;
    assert (n / d + 1) * d == (n / d) * d + d;
  }

  /** The floor is the only integer that meets both inequalities. */
  lemma FloorDivUnique(n: int, d: int, q: int)
    requires d > 0 && q * d <= n < (q + 1) * d
    ensures n / d == q
  {
    FloorDiv(n, d);
    var e := n / d;
    if e < q {
      MulMono(e + 1, q, d);
    } else if q < e {
      MulMono(q + 1, e, d);
    }
  }

  lemma FloorDivMono(m: int, n: int, d: int)
    requires d > 0 && m <= n
    ensures m / d <= n / d
  {
    FloorDiv(m, d);
    FloorDiv(n, d);
    if n / d < m / d {
      MulMono(n / d + 1, m / d, d);
    }
  }
}
