/** Byte strings and the little-endian integers of the DC wire format
    (`do_pack_*` / `do_unpack_*` of DCPackerInterface). */
module DcBytes {
  import opened Common

  /** The `w` low-order bytes of `n`, least significant first. */
  function Le(n: nat, w: nat): (b: Bytes)
    ensures |b| == w
  {
    if w == 0 then [] else [n % 256] + Le(n / 256, w - 1)
  }

  function FromLe(b: Bytes): (n: nat)
    ensures n < Pow256(|b|)
  {
    if b == [] then 0 else b[0] + 256 * FromLe(b[1..])
  }

  /** Two's complement: the unsigned integer whose bytes a signed `v` shares. */
  function Wrapped(v: int, w: nat): nat
    requires -Pow256(w) <= v < Pow256(w)
  {
    if v < 0 then v + Pow256(w) else v
  }

  function Signed(n: nat, w: nat): int
    requires n < Pow256(w)
  {
    if 2 * n < Pow256(w) then n else n - Pow256(w)
  }

  lemma {:induction false} FromLeOfLe(n: nat, w: nat)
    requires n < Pow256(w)
    ensures FromLe(Le(n, w)) == n
  {
    if w > 0 {
      assert n / 256 < Pow256(w - 1);
      FromLeOfLe(n / 256, w - 1);
      assert Le(n, w)[1..] == Le(n / 256, w - 1);
    }
  }

  lemma {:induction false} LeOfFromLe(b: Bytes)
    ensures Le(FromLe(b), |b|) == b
  {
    if b != [] {
      LeOfFromLe(b[1..]);
      var n := FromLe(b);
      assert n % 256 == b[0] && n / 256 == FromLe(b[1..]);
      assert [b[0]] + b[1..] == b;
    }
  }

  lemma Pow256Even(w: nat)
    requires w > 0
    ensures Pow256(w) == 2 * (128 * Pow256(w - 1))
  {
  }
}
