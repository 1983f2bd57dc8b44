/** Bytes, options, and facts of arithmetic that several parts of the model use. */
module Common {
  datatype Option<+T> = None | Some(value: T)

  type Byte = x: int | 0 <= x < 256
  type Bytes = seq<Byte>

  /** 256 to the power `w`: the number of values of a `w`-byte integer. */
  function Pow256(w: nat): (r: int)
    ensures r >= 1
  {
    if w == 0 then 1 else 256 * Pow256(w - 1)
  }

  lemma SmallMultiple(m: nat, k: int)
    ensures k >= 1 ==> m * k >= m
    ensures k <= -1 ==> m * k <= 0 - m
  {
    assert m * k == m * (k - 1) + m == m * (k + 1) - m;
    if k >= 1 { Nonnegative(m, k - 1); }
    if k <= -1 { Nonnegative(m, -k - 1); assert m * (k + 1) == 0 - m * (-k - 1); }
  }

  lemma Nonnegative(m: nat, k: nat)
    ensures m * k >= 0
  {}

  lemma RemainderIs(x: int, m: nat, q: int, r: nat)
    requires x == m * q + r && r < m
    ensures x % m == r
  {
    var k := q - x / m;
    assert x == m * (x / m) + x % m;
    assert m * k == m * q - m * (x / m);
    SmallMultiple(m, k);
  }
}
