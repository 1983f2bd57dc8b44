/** Packing a number into a fixed-point or cyclic integer field: the value is scaled by the
    field's divisor and reduced by its modulus in 32-bit arithmetic, or in 64-bit
    arithmetic when the product does not fit. */
module PackInt {
  import opened Common
  import opened DcBytes
  import opened DcSchema

  const K31: int := 0x8000_0000
  const K32: int := 0x1_0000_0000
  const K63: int := 0x8000_0000_0000_0000
  const K64: int := 0x1_0000_0000_0000_0000

  /** `modulus` is already scaled by the divisor; 0 stands for none. */
  datatype Field = Field(width: nat, signed: bool, divisor: nat, modulus: nat, range: seq<Interval>)

  ghost predicate ValidField(f: Field) {
    f.width in {1, 2, 4, 8} && 1 <= f.divisor < K31
  }

  datatype Packed = Packed(bytes: Bytes, rangeError: bool)

  predicate IsInt32(x: int) {
    -K31 <= x < K31
  }

  /* ---- Machine integers ---- */

  function U32(x: int): nat {
    x % K32
  }

  function S32(x: int): (s: int)
    ensures IsInt32(s)
    ensures IsInt32(x) ==> s == x
  {
    if x % K32 < K31 then x % K32 else x % K32 - K32
  }

  function U64(x: int): nat {
    x % K64
  }

  function S64(x: int): (s: int)
    ensures -K63 <= s < K63
    ensures -K63 <= x < K63 ==> s == x
  {
    if x % K64 < K63 then x % K64 else x % K64 - K64
  }

  function Abs(x: int): nat {
    if x < 0 then -x else x
  }

  /** Division of signed integers truncates. */
  function Truncated(a: int, b: int): int
    requires b != 0
  {
    if (a < 0) == (b < 0) then Abs(a) / Abs(b) else -(Abs(a) / Abs(b))
  }

  /* ---- The code ---- */

  /** An overflowing product does not divide back. */
  predicate Overflows(value: int, divisor: nat) {
    value != 0 && Truncated(S32(value * divisor), value) != divisor
  }

  function Reduce32(x: int, modulus: nat): int {
    var m := U32(modulus);
    if m == 0 then x
    else if x < 0 then S32(m - 1 - S32(-x - 1) % m)
    else S32(x % m)
  }

  function Reduce64(x: int, modulus: nat): int {
    if modulus == 0 then x
    else if x < 0 then S64(modulus - 1 - S64(-x - 1) % modulus)
    else S64(x % modulus)
  }

  function LowBytes(x: int, width: nat): Bytes {
    Le(x % Pow256(width), width)
  }

  predicate FitsSigned(x: int, width: nat) {
    -Pow256(width) <= 2 * x < Pow256(width)
  }

  /** pack_int() once the number to store is known. */
  function Store32(f: Field, x: int): Packed {
    if f.signed then
      Packed(LowBytes(x, f.width), !InRange(f.range, x) || (f.width < 4 && !FitsSigned(x, f.width)))
    else
      Packed(LowBytes(U32(x), f.width), x < 0 || !InRange(f.range, U32(x)) || (f.width < 4 && U32(x) >= Pow256(f.width)))
  }

  /** pack_int64() once the number to store is known. */
  function Store64(f: Field, x: int): Packed {
    if f.width == 8 then
      if f.signed then Packed(LowBytes(x, 8), !InRange(f.range, x))
      else Packed(LowBytes(U64(x), 8), x < 0 || !InRange(f.range, U64(x)))
    else if f.signed then
      Packed(LowBytes(S32(x), f.width), !InRange(f.range, S32(x)) || !FitsSigned(x, f.width))
    else
      Packed(LowBytes(U32(U64(x)), f.width), x < 0 || !InRange(f.range, U32(U64(x))) || U64(x) >= Pow256(f.width))
  }

  /** pack_int() */
  function PackInt(f: Field, value: int): Packed {
    if Overflows(value, f.divisor) then PackInt64(f, value)
    else Store32(f, Reduce32(S32(value * f.divisor), f.modulus))
  }

  /** pack_int64() */
  function PackInt64(f: Field, value: int): Packed {
    Store64(f, Reduce64(S64(value * f.divisor), f.modulus))
  }

  /* ---- Overflow ---- */

  lemma Scaled(a: int, b: nat, c: nat)
    requires a <= b
    ensures a * c <= b * c
  {}

  lemma ProductIsSmall(value: int, divisor: nat)
    requires IsInt32(value) && 1 <= divisor < K31
    ensures -K31 * K31 <= value * divisor <= K31 * K31
    ensures S64(value * divisor) == value * divisor
  {
    hide S64;
    var a := Abs(value);
    Scaled(a, K31, divisor);
    Nonnegative(a, divisor);
    if value < 0 { Negated(a, divisor); }
    var p := value * divisor;
    assert K31 * divisor <= K31 * K31 < K63;
    assert -K63 <= p < K63;
  }

  lemma Negated(a: int, b: int)
    ensures (-a) * b == -(a * b)
  {}

  lemma WrapsByMultiples(x: int)
    ensures exists k: int :: S32(x) == x + k * K32
  {
    assert x == x / K32 * K32 + x % K32;
    var k := if x % K32 < K31 then -(x / K32) else -(x / K32) - 1;
    assert S32(x) == x + k * K32;
  }

  /** Dividing back detects exactly the products that do not fit 32 bits. */
  lemma OverflowIsDetected(value: int, divisor: nat)
    requires IsInt32(value) && 1 <= divisor < K31
    ensures Overflows(value, divisor) <==> !IsInt32(value * divisor)
  {
    var p := value * divisor;
    var w := S32(p);
    if value != 0 {
      if IsInt32(p) {
        ExactDivision(value, divisor);
      } else if Truncated(w, value) == divisor {
        NearMiss(w, value, divisor);
        WrapsByMultiples(p);
        assert false;
      }
    }
  }

  lemma ExactDivision(value: int, divisor: nat)
    requires value != 0 && divisor >= 1
    ensures Truncated(value * divisor, value) == divisor
  {
    DivideOut(divisor, Abs(value));
    assert Abs(value * divisor) == Abs(value) * divisor;
    assert divisor * Abs(value) > 0;
    assert (value * divisor < 0) == (value < 0);
  }

  lemma DivideOut(q: nat, m: nat)
    requires m > 0
    ensures q * m / m == q
  {
    var d := q * m / m;
    assert q * m == m * d + q * m % m;
    assert m * (q - d) == q * m % m;
    SmallMultiple(m, q - d);
  }

  /** A quotient leaves less than the divisor over. */
  lemma NearMiss(w: int, value: int, divisor: nat)
    requires value != 0 && divisor >= 1 && Truncated(w, value) == divisor
    ensures Abs(w - value * divisor) < Abs(value)
  {
    assert Abs(w) == Abs(w) / Abs(value) * Abs(value) + Abs(w) % Abs(value);
    assert Abs(w) / Abs(value) == divisor;
  }

  /* ---- Modulus ---- */

  lemma Reduce64IsRemainder(x: int, modulus: nat)
    requires 0 < modulus <= K63 && -K63 <= x < K63
    ensures Reduce64(x, modulus) == x % modulus
  {
    var n := if x < 0 then -x - 1 else x;
    assert 0 <= n % modulus < modulus;
    if x < 0 { NegativeRemainder(n, modulus); }
  }

  lemma Reduce32IsRemainder(x: int, modulus: nat)
    requires 0 < modulus <= K31 && IsInt32(x)
    ensures Reduce32(x, modulus) == x % modulus
  {
    var n := if x < 0 then -x - 1 else x;
    assert U32(modulus) == modulus && S32(n) == n;
    assert 0 <= n % modulus < modulus;
    if x < 0 { NegativeRemainder(n, modulus); }
  }

  /** Both branches of both paths compute the non-negative remainder. */
  lemma ReduceIsRemainder(x: int, modulus: nat)
    requires 0 < modulus <= K31 && IsInt32(x)
    ensures Reduce32(x, modulus) == x % modulus == Reduce64(x, modulus)
  {
    Reduce32IsRemainder(x, modulus);
    Reduce64IsRemainder(x, modulus);
    hide Reduce32, Reduce64;
  }

  lemma NegativeRemainder(n: int, m: nat)
    requires n >= 0 && m > 0
    ensures m - 1 - n % m == (-n - 1) % m
  {
    var q: int, r: int := n / m, n % m;
    assert -n - 1 == m * (-q - 1) + (m - 1 - r);
    RemainderIs(-n - 1, m, -q - 1, m - 1 - r);
  }

  /* ---- The two paths agree ---- */

  /** The same bytes, or an error both times. */
  predicate SameOutcome(a: Packed, b: Packed) {
    a.rangeError == b.rangeError && (!a.rangeError ==> a.bytes == b.bytes)
  }

  lemma SmallPowers()
    ensures Pow256(1) == 0x100 && Pow256(2) == 0x1_0000 && Pow256(4) == K32 && Pow256(8) == K64
  {
    assert Pow256(3) == 0x100_0000;
    assert Pow256(6) == 0x1_0000_0000_0000;
  }

  /** The value that a 32-bit packing of a field stores. */
  function Stored(f: Field, value: int): int {
    Reduce32(S32(value * f.divisor), f.modulus)
  }

  lemma StoredIsReduced(f: Field, value: int)
    requires ValidField(f) && IsInt32(value) && f.modulus <= K31 && !Overflows(value, f.divisor)
    ensures var p := value * f.divisor;
            IsInt32(p) && Stored(f, value) == (if f.modulus == 0 then p else p % f.modulus) == Reduce64(S64(p), f.modulus)
    ensures IsInt32(Stored(f, value))
  {
    OverflowIsDetected(value, f.divisor);
    if f.modulus > 0 { ReduceIsRemainder(value * f.divisor, f.modulus); }
  }

  lemma StoreSame(f: Field, x: int)
    requires f.width in {1, 2, 4, 8} && IsInt32(x)
    ensures SameOutcome(Store32(f, x), Store64(f, x))
  {
    SmallPowers();
    hide InRange, LowBytes;
    assert x >= 0 ==> U32(x) == x && U64(x) == x;
    assert x >= 0 ==> U32(U64(x)) == x;
  }

  /** For a modulus of at most 2^31 the 32-bit path is the 64-bit path. */
  lemma PackIntIsPackInt64(f: Field, value: int)
    requires ValidField(f) && IsInt32(value) && f.modulus <= K31
    ensures SameOutcome(PackInt(f, value), PackInt64(f, value))
  {
    if !Overflows(value, f.divisor) {
      StoredIsReduced(f, value);
      StoreSame(f, Stored(f, value));
      hide Overflows, Reduce32, Reduce64, SameOutcome, Store32, Store64;
    }
  }

  /** What set_modulus() lets through. */
  predicate AcceptedModulus(f: Field) {
    f.modulus == 0 || (if f.signed then 2 * f.modulus <= Pow256(f.width) else f.modulus <= Pow256(f.width))
  }

  lemma LowBytesDiffer(x: int, y: int, width: nat)
    requires LowBytes(x, width) == LowBytes(y, width)
    ensures x % Pow256(width) == y % Pow256(width)
  {
    FromLeOfLe(x % Pow256(width), width);
    FromLeOfLe(y % Pow256(width), width);
  }

  lemma ImagesDiffer(x: int, y: int)
    requires IsInt32(x)
    ensures K31 <= y < K32 && x >= 0 ==> x % K32 != y % K32
    ensures K31 <= y < K63 ==> x % K64 != y % K64
  {
    RemainderIs(x, K64, if x < 0 then -1 else 0, if x < 0 then x + K64 else x);
  }

  lemma LargeDiffers(f: Field, x: int, y: int)
    requires f.width == 8 || (f.width == 4 && !f.signed)
    requires f.range == [] && IsInt32(x) && K31 <= y < (if f.width == 8 then K63 else K32)
    ensures !SameOutcome(Store32(f, x), Store64(f, y))
  {
    SmallPowers();
    ImagesDiffer(x, y);
    hide LowBytes;
    assert x >= 0 ==> U32(x) == x;
    assert U64(y) == y && (y < K32 ==> U32(y) == y);
    if SameOutcome(Store32(f, x), Store64(f, y)) {
      LowBytesDiffer(x, y, f.width);
    }
  }

  lemma MinusOne(modulus: nat)
    requires K31 < modulus <= K63
    ensures !Overflows(-1, 1) && S32(-1 * 1) == -1 && S64(-1 * 1) == -1
    ensures Reduce64(-1, modulus) == modulus - 1
  {
    OverflowIsDetected(-1, 1);
    Reduce64IsRemainder(-1, modulus);
    RemainderIs(-1, modulus, -1, modulus - 1);
    hide Overflows, Reduce64;
  }

  /** A larger modulus is truncated to 32 bits, or its remainders do not fit a signed
      number: then the paths already differ on -1. */
  lemma LargeModulusDiffers(f: Field)
    requires f.width in {1, 2, 4, 8} && f.divisor == 1 && f.range == [] && AcceptedModulus(f) && K31 < f.modulus <= K63
    ensures !SameOutcome(PackInt(f, -1), PackInt64(f, -1))
  {
    hide SameOutcome, Overflows, Store32, Store64, Reduce64, S32, S64;
    SmallPowers();
    MinusOne(f.modulus);
    ReduceFits(-1, f.modulus);
    LargeDiffers(f, Reduce32(-1, f.modulus), f.modulus - 1);
  }

  lemma ReduceFits(x: int, modulus: nat)
    requires IsInt32(x)
    ensures IsInt32(Reduce32(x, modulus))
  {}

  /** So, without divisor and ranges, the paths agree on all values exactly when the modulus
      is at most 2^31. */
  lemma PathsAgreeIffModulusIsSmall(f: Field)
    requires f.width in {1, 2, 4, 8} && f.divisor == 1 && f.range == [] && AcceptedModulus(f) && f.modulus <= K63
    ensures (forall v :: IsInt32(v) ==> SameOutcome(PackInt(f, v), PackInt64(f, v))) <==> f.modulus <= K31
  {
    if f.modulus <= K31 {
      forall v | IsInt32(v) ensures SameOutcome(PackInt(f, v), PackInt64(f, v)) { PackIntIsPackInt64(f, v); }
    } else {
      LargeModulusDiffers(f);
      assert IsInt32(-1);
    }
  }

  /* ---- Unpacking ---- */

  function ReadStored(f: Field, b: Bytes): int
    requires |b| == f.width && f.width > 0
  {
    if f.signed then Signed(FromLe(b), f.width) else FromLe(b)
  }

  /** unpack_int(): the divisor is unsigned, so that the division is. */
  function UnpackInt(f: Field, b: Bytes): Option<int>
    requires |b| == f.width && f.width > 0 && f.divisor > 0
  {
    var x := ReadStored(f, b);
    if !InRange(f.range, x) || !IsInt32(x) then None
    else Some(if f.divisor == 1 then x else S32(U32(x) / f.divisor))
  }

  lemma ReadBack(f: Field, x: int)
    requires f.width in {1, 2, 4, 8}
    requires if f.signed then FitsSigned(x, f.width) else 0 <= x < Pow256(f.width)
    ensures |LowBytes(x, f.width)| == f.width && ReadStored(f, LowBytes(x, f.width)) == x
  {
    SmallPowers();
    FromLeOfLe(x % Pow256(f.width), f.width);
    RemainderIs(x, Pow256(f.width), if x < 0 then -1 else 0, if x < 0 then x + Pow256(f.width) else x);
  }

  /** What was packed without error is read back as it was stored. */
  lemma StoredIsReadBack(f: Field, value: int)
    requires ValidField(f) && IsInt32(value) && f.modulus <= K31
    requires !Overflows(value, f.divisor) && !PackInt(f, value).rangeError
    ensures |PackInt(f, value).bytes| == f.width
    ensures ReadStored(f, PackInt(f, value).bytes) == Stored(f, value) && InRange(f.range, Stored(f, value))
    ensures !f.signed ==> Stored(f, value) >= 0
  {
    hide Overflows, Store32, InRange, LowBytes, ReadStored;
    StoredIsReduced(f, value);
    ShortIsReadBack(f, Stored(f, value));
  }

  lemma ShortIsReadBack(f: Field, x: int)
    requires f.width in {1, 2, 4, 8} && IsInt32(x) && !Store32(f, x).rangeError
    ensures |Store32(f, x).bytes| == f.width
    ensures ReadStored(f, Store32(f, x).bytes) == x && InRange(f.range, x) && (!f.signed ==> x >= 0)
  {
    SmallPowers();
    hide InRange, LowBytes, ReadStored;
    assert x >= 0 ==> U32(x) == x;
    ReadBack(f, x);
  }

  /** The same of the 64-bit path. */
  lemma WideIsReadBack(f: Field, x: int)
    requires f.width in {1, 2, 4, 8} && -K63 <= x < K63 && !Store64(f, x).rangeError
    ensures |Store64(f, x).bytes| == f.width
    ensures ReadStored(f, Store64(f, x).bytes) == x && InRange(f.range, x)
  {
    SmallPowers();
    hide InRange, LowBytes, ReadStored;
    assert f.width < 8 && f.signed ==> S32(x) == x;
    assert !f.signed ==> U64(x) == x;
    assert f.width < 8 && !f.signed ==> U32(x) == x;
    ReadBack(f, x);
  }

  /** What a product stores that does not fit 32 bits. */
  lemma OverflowIsReadBack(f: Field, value: int)
    requires ValidField(f) && IsInt32(value) && f.modulus <= K31
    requires Overflows(value, f.divisor) && !PackInt(f, value).rangeError
    ensures var p := value * f.divisor;
            var x := if f.modulus == 0 then p else p % f.modulus;
            !IsInt32(p) && |PackInt(f, value).bytes| == f.width
            && ReadStored(f, PackInt(f, value).bytes) == x && InRange(f.range, x)
  {
    hide Store64, ReadStored, InRange, Overflows, Reduce64;
    var p := value * f.divisor;
    OverflowIsDetected(value, f.divisor);
    ProductIsSmall(value, f.divisor);
    assert K31 * K31 < K63;
    if f.modulus > 0 { Reduce64IsRemainder(p, f.modulus); } else { NoModulus(p); }
    WideIsReadBack(f, Reduce64(p, f.modulus));
  }

  lemma NoModulus(x: int)
    ensures Reduce64(x, 0) == x
  {
  }

  /** Without a modulus a number comes back exactly when its product fits 32 bits, and there
      is no divisor or it is not negative: a larger product is refused when it is read, and
      the quotient of a negative one is taken of its unsigned image. */
  lemma NumbersComeBackIff(f: Field, value: int)
    requires ValidField(f) && IsInt32(value) && f.modulus == 0 && !PackInt(f, value).rangeError
    ensures |PackInt(f, value).bytes| == f.width
    ensures UnpackInt(f, PackInt(f, value).bytes) == Some(value)
       <==> !Overflows(value, f.divisor) && (f.divisor == 1 || value >= 0)
  {
    hide Overflows, PackInt, ReadStored, InRange, Stored, Reduce32, S32, U32;
    if Overflows(value, f.divisor) {
      OverflowIsReadBack(f, value);
    } else {
      StoredIsReadBack(f, value);
      StoredIsReduced(f, value);
      Divided(value, f.divisor);
    }
  }

  lemma Divided(value: int, d: nat)
    requires d >= 1 && IsInt32(value * d) && IsInt32(value) && d < K31
    ensures value >= 0 ==> S32(U32(value * d) / d) == value
    ensures value < 0 && d > 1 ==> S32(U32(value * d) / d) != value
  {
    if value >= 0 {
      Nonnegative(value, d);
      DivideOut(value, d);
    } else {
      var q := U32(value * d) / d;
      assert value * d < 0 by { Nonnegative(-value, d); }
      assert U32(value * d) == K32 + value * d;
      QuotientOfSum(K32, value, d);
      if d > 1 { QuotientIsSmall(d); }
    }
  }

  lemma QuotientOfSum(n: nat, value: int, d: nat)
    requires d >= 1 && n + value * d >= 0
    ensures (n + value * d) / d == n / d + value
  {
    var q, r := n / d, n % d;
    var x := n + value * d;
    assert n == d * q + r;
    assert x == d * (q + value) + r;
    RemainderIs(x, d, q + value, r);
    assert d * (x / d) == d * (q + value);
    SmallMultiple(d, x / d - (q + value));
  }

  lemma QuotientIsSmall(d: nat)
    requires 1 < d < K31
    ensures 1 <= K32 / d <= K31
  {
    var q := K32 / d;
    assert K32 == d * q + K32 % d;
    Scaled(2, d, q);
    assert q == 0 ==> d * q == 0;
  }

  /** With a modulus of `m` before scaling, every number comes back as its remainder, also
      one whose product does not fit 32 bits. */
  lemma RemaindersComeBack(f: Field, value: int, m: nat)
    requires ValidField(f) && IsInt32(value) && m > 0 && f.modulus == m * f.divisor <= K31
    requires !PackInt(f, value).rangeError
    ensures |PackInt(f, value).bytes| == f.width
    ensures UnpackInt(f, PackInt(f, value).bytes) == Some(value % m)
  {
    hide Overflows, PackInt, ReadStored, InRange, Stored, Reduce32, U32, S32;
    var d, r := f.divisor, value % m;
    ScaledRemainder(value, m, d);
    if Overflows(value, d) {
      OverflowIsReadBack(f, value);
    } else {
      StoredIsReadBack(f, value);
      StoredIsReduced(f, value);
    }
    assert ReadStored(f, PackInt(f, value).bytes) == r * d && InRange(f.range, r * d);
    Scaled(1, d, r);
    Divided(r, d);
  }

  lemma ScaledRemainder(value: int, m: nat, d: nat)
    requires m > 0 && d > 0
    ensures m * d > 0 && (value * d) % (m * d) == value % m * d
    ensures 0 <= value % m * d < m * d
  {
    var q, r := value / m, value % m;
    assert value == m * q + r;
    Nonnegative(r, d);
    Scaled(r + 1, m, d);
    assert value * d == (m * q) * d + r * d;
    assert (m * q) * d == (m * d) * q by { Commute(m, q, d); }
    Scaled(1, m, d);
    RemainderIs(value * d, m * d, q, r * d);
  }

  lemma Commute(m: int, q: int, d: int)
    ensures (m * q) * d == (m * d) * q
  {}

  /* ---- In place ---- */

  /** The buffer and the error flag that a packer hands to a field. */
  class PackData {
    var bytes: Bytes
    var rangeError: bool

    constructor ()
      ensures bytes == [] && !rangeError
    {
      bytes, rangeError := [], false;
    }

    method Append(b: Bytes, error: bool)
      modifies this
      ensures bytes == old(bytes) + b && rangeError == (old(rangeError) || error)
    {
      bytes := bytes + b;
      if error { rangeError := true; }
    }

    /** pack_int() */
    method AppendInt(f: Field, value: int)
      modifies this
      ensures bytes == old(bytes) + PackInt(f, value).bytes
      ensures rangeError == (old(rangeError) || PackInt(f, value).rangeError)
    {
      var x := S32(value * f.divisor);
      if value != 0 && Truncated(x, value) != f.divisor {
        AppendInt64(f, value);
        return;
      }
      var m := U32(f.modulus);
      if m != 0 {
        if x < 0 { x := S32(m - 1 - S32(-x - 1) % m); } else { x := S32(x % m); }
      }
      var error := false;
      if f.signed {
        if !InRange(f.range, x) { error := true; }
        if f.width < 4 && !FitsSigned(x, f.width) { error := true; }
        Append(LowBytes(x, f.width), error);
      } else {
        if x < 0 { error := true; }
        if !InRange(f.range, U32(x)) { error := true; }
        if f.width < 4 && U32(x) >= Pow256(f.width) { error := true; }
        Append(LowBytes(U32(x), f.width), error);
      }
    }

    /** pack_int64() */
    method AppendInt64(f: Field, value: int)
      modifies this
      ensures bytes == old(bytes) + PackInt64(f, value).bytes
      ensures rangeError == (old(rangeError) || PackInt64(f, value).rangeError)
    {
      var x := S64(value * f.divisor);
      if f.modulus != 0 {
        if x < 0 { x := S64(f.modulus - 1 - S64(-x - 1) % f.modulus); } else { x := S64(x % f.modulus); }
      }
      var packed := Store64(f, x);
      Append(packed.bytes, packed.rangeError);
    }
  }
}
