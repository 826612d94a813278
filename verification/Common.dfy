/** Small shared datatypes and integer helpers. */
module Common {

  datatype Option<+T> = None | Some(value: T)

  datatype Result<+T, +E> = Ok(value: T) | Err(error: E)

  function Max(a: int, b: int): int { if a >= b then a else b }

  function Min(a: int, b: int): int { if a <= b then a else b }

  function Abs(a: int): nat { if a >= 0 then a else -a }

  function Sign(a: int): int { if a > 0 then 1 else if a < 0 then -1 else 0 }

  /** Rust's `i64::clamp`. */
  function Clamp(x: int, lo: int, hi: int): int { if x < lo then lo else if x > hi then hi else x }

  /** Rust's `/` on signed integers: the quotient is truncated toward zero. */
  function TruncDiv(a: int, b: int): int
    requires b != 0
  {
    if (a >= 0) == (b > 0) then Abs(a) / Abs(b) else -(Abs(a) / Abs(b))
  }

  /** The first `n` products `q[i] * v[i]`, summed. */
  function Dot(q: seq<int>, v: seq<int>, n: nat): int
    requires n <= |q| && n <= |v|
  {
    if n == 0 then 0 else Dot(q, v, n - 1) + q[n - 1] * v[n - 1]
  }

  function Zeros(n: nat): seq<int> { seq(n, _ => 0) }

  lemma {:induction false} DotUpdate(q: seq<int>, v: seq<int>, n: nat, i: nat, d: int)
    requires n <= |q| && n <= |v| && i < |q|
    ensures Dot(q[i := q[i] + d], v, n) == Dot(q, v, n) + (if i < n then d * v[i] else 0)
  {
    if n > 0 {
      DotUpdate(q, v, n - 1, i, d);
      if i == n - 1 {
        assert (q[i] + d) * v[i] == q[i] * v[i] + d * v[i];
      }
    }
  }

  lemma {:induction false} DotZeros(q: seq<int>, v: seq<int>, n: nat)
    requires n <= |q| && n <= |v|
    requires (forall i :: 0 <= i < n ==> q[i] == 0) || (forall i :: 0 <= i < n ==> v[i] == 0)
    ensures Dot(q, v, n) == 0
  {
    if n > 0 {
      DotZeros(q, v, n - 1);
    }
  }

  lemma Regroup<T>(a: seq<T>, b: seq<T>, c: seq<T>)
    ensures (a + b) + c == a + (b + c)
  {
  }

  /** A sequence and its last element. */
  lemma LastApart<T>(a: seq<T>, b: seq<T>)
    requires b != []
    ensures a + b == (a + b[..|b| - 1]) + [b[|b| - 1]] && b == b[..|b| - 1] + [b[|b| - 1]]
  {
  }

  lemma SmallMultiple(d: int, s: int)
    requires s > 0 && -s < d * s < s
    ensures d == 0
  {
  }

  /** Quotient and remainder are determined by `a == q * s + r` with a small `r`. */
  lemma DivModUnique(a: int, s: int, q: int, r: int)
    requires s > 0 && a == q * s + r && 0 <= r < s
    ensures a / s == q && a % s == r
  {
    assert a == a / s * s + a % s;
    assert (q - a / s) * s == q * s - a / s * s;
    SmallMultiple(q - a / s, s);
  }
}
