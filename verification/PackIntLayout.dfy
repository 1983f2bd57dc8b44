/** What pack_int() and pack_int64() store: the scaled and reduced number in two's
    complement, and an error exactly if it is not in the type or not in the limits. */
module PackIntLayout {
  import opened Common
  import opened DcBytes
  import opened DcSchema
  import opened PackInt
  import DcLayout

  /** A number of the type. */
  predicate InType(f: Field, x: int)
    requires f.width > 0
  {
    if f.signed then -128 * Pow256(f.width - 1) <= x < 128 * Pow256(f.width - 1) else 0 <= x < Pow256(f.width)
  }

  /** The product of value and divisor, reduced by the modulus if there is one. */
  function Reduced(f: Field, value: int): int {
    if f.modulus == 0 then value * f.divisor else value * f.divisor % f.modulus
  }

  lemma BytesOfNumber(x: int, width: nat)
    requires width > 0
    ensures |LowBytes(x, width)| == width && DcLayout.LittleEndian(LowBytes(x, width), x, width)
  {
    DcLayout.RemainderIsLittleEndian(x, width);
  }

  lemma Powers()
    ensures Pow256(0) == 1 && Pow256(1) == 256 && Pow256(2) == 0x1_0000 && Pow256(3) == 0x100_0000
    ensures Pow256(4) == K32 && Pow256(7) == 0x100_0000_0000_0000 && Pow256(8) == K64
  {
    assert Pow256(6) == 0x1_0000_0000_0000;
  }

  lemma RemainderOfRemainder(x: int, m: nat, k: nat)
    requires m > 0 && k > 0
    ensures m * k > 0 && x % (m * k) % m == x % m
  {
    SmallMultiple(m, k);
    var n := m * k;
    var q, r := x / n, x % n;
    assert x == n * q + r && r == m * (r / m) + r % m;
    assert n * q == m * (k * q) by { DcLayout.Associates(m, k, q); }
    assert x == m * (k * q + r / m) + r % m by { DcLayout.Distributes(m, k * q, r / m); }
    RemainderIs(x, m, k * q + r / m, r % m);
  }

  /** The lower bytes do not depend on the width of the machine's integers. */
  lemma LowerBytes(x: int, width: nat)
    requires width in {1, 2, 4}
    ensures LowBytes(S32(x), width) == LowBytes(x, width) && LowBytes(U32(U64(x)), width) == LowBytes(x, width)
  {
    hide S32;
    Powers();
    var m := Pow256(width);
    var k := if width == 1 then 0x100_0000 else if width == 2 then 0x1_0000 else 1;
    assert m * k == K32;
    RemainderOfRemainder(x, m, k);
    RemainderOfRemainder(x, K32, K32);
    WrapsByMultiples(x);
    var n: int :| S32(x) == x + n * K32;
    RemainderOfRemainder(S32(x), m, k);
    assert (x + n * K32) % K32 == x % K32 by { RemainderIs(x + n * K32, K32, x / K32 + n, x % K32); }
  }

  /** With 64-bit arithmetic, and a modulus of up to 2^63, there is no surprise. */
  lemma Stored64(f: Field, value: int)
    requires ValidField(f) && IsInt32(value) && f.modulus <= K63
    ensures var p, x := PackInt64(f, value), Reduced(f, value);
            && |p.bytes| == f.width && DcLayout.LittleEndian(p.bytes, x, f.width)
            && (p.rangeError <==> !InType(f, x) || !DcLayout.Allowed(f.range, x))
  {
    hide Pow256, InRange, DcLayout.Allowed, DcLayout.LittleEndian, LowBytes;
    ProductIsSmall(value, f.divisor);
    var x := Reduced(f, value);
    ReducesTo(value * f.divisor, f.modulus);
    assert PackInt64(f, value) == Store64(f, x);
    assert -K63 <= x < K63;
    StoresNumber64(f, x);
  }

  lemma ReducesTo(x: int, modulus: nat)
    requires -K63 <= x < K63 && modulus <= K63
    ensures Reduce64(x, modulus) == if modulus == 0 then x else x % modulus
  {
    if modulus > 0 { Reduce64IsRemainder(x, modulus); }
  }

  lemma StoresNumber64(f: Field, x: int)
    requires ValidField(f) && -K63 <= x < K63
    ensures var p := Store64(f, x);
            && |p.bytes| == f.width && DcLayout.LittleEndian(p.bytes, x, f.width)
            && (p.rangeError <==> !InType(f, x) || !DcLayout.Allowed(f.range, x))
  {
    BytesOfNumber64(f, x);
    ErrorOfNumber64(f, x);
  }

  lemma BytesOfNumber64(f: Field, x: int)
    requires ValidField(f) && -K63 <= x < K63
    ensures |Store64(f, x).bytes| == f.width && DcLayout.LittleEndian(Store64(f, x).bytes, x, f.width)
  {
    hide Pow256, InRange, DcLayout.LittleEndian, S32, U32, U64;
    BytesOfNumber(x, f.width);
    if f.width != 8 {
      LowerBytes(x, f.width);
    } else {
      assert LowBytes(U64(x), 8) == LowBytes(x, 8) by { WideBytes(x); }
    }
  }

  lemma WideBytes(x: int)
    ensures LowBytes(U64(x), 8) == LowBytes(x, 8)
  {
    Powers();
  }

  lemma ErrorOfNumber64(f: Field, x: int)
    requires ValidField(f) && -K63 <= x < K63
    ensures Store64(f, x).rangeError <==> !InType(f, x) || !DcLayout.Allowed(f.range, x)
  {
    hide Pow256, InRange, DcLayout.Allowed, LowBytes;
    Powers();
    DcLayout.AllowedIsInRange(f.range, x);
    if f.width != 8 {
      if f.signed {
        assert FitsSigned(x, f.width) <==> InType(f, x);
        assert FitsSigned(x, f.width) ==> IsInt32(x);
      } else if 0 <= x {
        assert U64(x) == x;
        assert x < Pow256(f.width) ==> U32(x) == x;
      }
    }
  }

  /** 32-bit arithmetic is used when the product fits 32 bits, and 64-bit arithmetic
      otherwise. With 32 bits, only the lower half of the modulus counts, and a remainder of
      2^31 or more becomes negative. */
  lemma Stored32(f: Field, value: int)
    requires ValidField(f) && IsInt32(value)
    ensures !IsInt32(value * f.divisor) ==> PackInt.PackInt(f, value) == PackInt64(f, value)
    ensures IsInt32(value * f.divisor) ==>
              var p, m := PackInt.PackInt(f, value), f.modulus % K32;
              var r := if m == 0 then value * f.divisor else value * f.divisor % m;
              var x := if r >= K31 then r - K32 else r;
              && |p.bytes| == f.width && DcLayout.LittleEndian(p.bytes, if f.signed then x else x % K32, f.width)
              && (p.rangeError <==> !InType(f, x) || !DcLayout.Allowed(f.range, x))
  {
    hide Pow256, InRange, DcLayout.Allowed, DcLayout.LittleEndian, LowBytes, Overflows;
    OverflowIsDetected(value, f.divisor);
    if IsInt32(value * f.divisor) {
      ReducesTo32(value * f.divisor, f.modulus);
      StoresNumber32(f, Reduce32(value * f.divisor, f.modulus));
    }
  }

  lemma ReducesTo32(x: int, modulus: nat)
    requires IsInt32(x)
    ensures var m := modulus % K32;
            var r := if m == 0 then x else x % m;
            Reduce32(x, modulus) == if r >= K31 then r - K32 else r
  {
    hide S32;
    var m := modulus % K32;
    if m > 0 {
      WrapsAround(x % m);
      if x < 0 {
        NegativeRemainder(-x - 1, m);
        assert S32(-x - 1) == -x - 1;
      }
    }
  }

  lemma WrapsAround(r: nat)
    requires r < K32
    ensures S32(r) == if r >= K31 then r - K32 else r
  {
  }

  lemma StoresNumber32(f: Field, x: int)
    requires ValidField(f) && IsInt32(x)
    ensures var p := Store32(f, x);
            && |p.bytes| == f.width && DcLayout.LittleEndian(p.bytes, if f.signed then x else x % K32, f.width)
            && (p.rangeError <==> !InType(f, x) || !DcLayout.Allowed(f.range, x))
  {
    hide Pow256, InRange, DcLayout.Allowed, DcLayout.LittleEndian, LowBytes;
    Powers();
    BytesOfNumber(x, f.width);
    BytesOfNumber(U32(x), f.width);
    DcLayout.AllowedIsInRange(f.range, x);
  }
}
