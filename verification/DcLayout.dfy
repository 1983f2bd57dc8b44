/** The wire format, byte by byte: which bytes a value of each kind of field has, and which
    fields of a switch follow its key. These laws determine the encoder of DcSchema. */
module DcLayout {
  import opened Common
  import opened DcBytes
  import opened DcSchema
  import opened DcCodec

  /* ---- Integers ---- */

  /** The first bytes are the low-order bytes of the number in two's complement, least
      significant first. */
  predicate LittleEndian(b: Bytes, n: int, width: nat) {
    width <= |b| && forall i :: 0 <= i < width ==> b[i] == n / Pow256(i) % 256
  }

  lemma {:induction false} LeAt(n: nat, w: nat, i: nat)
    requires i < w
    ensures Le(n, w)[i] == n / Pow256(i) % 256
  {
    if i > 0 {
      LeAt(n / 256, w - 1, i - 1);
      DivDiv(n, Pow256(i - 1));
    }
  }

  lemma DivDiv(n: int, m: int)
    requires m > 0
    ensures n / 256 / m == n / (256 * m)
  {
    var q, r := n / 256 / m, n / 256 % m;
    assert n == 256 * (m * q + r) + n % 256;
    assert n == (256 * m) * q + (256 * r + n % 256);
    assert 0 <= 256 * r + n % 256 < 256 * m;
    QuotientIs(n, 256 * m, q, 256 * r + n % 256);
  }

  lemma QuotientIs(x: int, m: nat, q: int, r: nat)
    requires x == m * q + r && r < m
    ensures x / m == q
  {
    var k := q - x / m;
    assert x == m * (x / m) + x % m;
    assert m * k == m * q - m * (x / m);
    SmallMultiple(m, k);
  }

  /** Adding 256^w does not change the lower bytes. */
  lemma WrappedAt(v: int, w: nat, i: nat)
    requires i < w
    ensures (v + Pow256(w)) / Pow256(i) % 256 == v / Pow256(i) % 256
  {
    PowerSplits(i, w);
    hide Pow256;
    HigherDigits(v, Pow256(i), 256 * Pow256(w - i - 1));
    RemainderIs(v / Pow256(i) + 256 * Pow256(w - i - 1), 256, v / Pow256(i) / 256 + Pow256(w - i - 1), v / Pow256(i) % 256);
  }

  lemma HigherDigits(v: int, m: nat, k: int)
    requires m > 0
    ensures (v + m * k) / m == v / m + k
  {
    Distributes(m, v / m, k);
    QuotientIs(v + m * k, m, v / m + k, v % m);
  }

  lemma Distributes(m: int, a: int, b: int)
    ensures m * (a + b) == m * a + m * b
  {
  }

  lemma {:induction false} PowerSplits(i: nat, w: nat)
    requires i < w
    ensures Pow256(w) == Pow256(i) * (256 * Pow256(w - i - 1))
  {
    if i > 0 {
      PowerSplits(i - 1, w - 1);
      Associates(256, Pow256(i - 1), 256 * Pow256(w - i - 1));
    }
  }

  lemma Associates(a: int, b: int, c: int)
    ensures a * (b * c) == (a * b) * c
  {
  }

  lemma SameBytes(a: Bytes, b: Bytes, n: int, w: nat)
    requires |a| == |b| == w && LittleEndian(a, n, w) && LittleEndian(b, n, w)
    ensures a == b
  {
    forall i | 0 <= i < w ensures a[i] == b[i] {
      assert a[i] == n / Pow256(i) % 256 && b[i] == n / Pow256(i) % 256;
    }
  }

  lemma LeIsLittleEndian(n: nat, w: nat)
    ensures LittleEndian(Le(n, w), n, w)
  {
    forall i | 0 <= i < w ensures Le(n, w)[i] == n / Pow256(i) % 256 { LeAt(n, w, i); }
  }

  /** The bytes of a number's remainder are those of the number. */
  lemma RemainderIsLittleEndian(v: int, width: nat)
    requires width > 0
    ensures 0 <= v % Pow256(width) && LittleEndian(Le(v % Pow256(width), width), v, width)
  {
    var m := Pow256(width);
    var n, q := v % m, v / m;
    assert v == m * q + n;
    LeIsLittleEndian(n, width);
    forall i | 0 <= i < width ensures n / Pow256(i) % 256 == v / Pow256(i) % 256 {
      PowerSplits(i, width);
      var p, k := Pow256(i), Pow256(width - i - 1);
      HigherBytes(n, p, k, q);
      assert p * (256 * k) * q + n == v;
    }
  }

  lemma HigherBytes(n: int, p: nat, k: nat, q: int)
    requires p > 0
    ensures (p * (256 * k) * q + n) / p % 256 == n / p % 256
  {
    var t := k * q;
    assert p * (256 * k) * q == p * (256 * t) by { Associates(p, 256 * k, q); Associates(256, k, q); }
    HigherDigits(n, p, 256 * t);
    RemainderIs(n / p + 256 * t, 256, n / p / 256 + t, n / p % 256);
  }

  /** No limits, or one of the intervals holds the number. */
  predicate Allowed(limits: seq<Interval>, n: int) {
    limits == [] || exists l :: l in limits && l.lo <= n <= l.hi
  }

  lemma AllowedIsInRange(limits: seq<Interval>, n: int)
    ensures Allowed(limits, n) <==> InRange(limits, n)
  {
    if i :| 0 <= i < |limits| && limits[i].lo <= n <= limits[i].hi { assert limits[i] in limits; }
  }

  /** An integer of the type's width and sign, within its limits, is its bytes in two's
      complement; nothing else fits. */
  lemma NumLayout(width: nat, signed: bool, limits: seq<Interval>, v: Value, b: Bytes)
    requires width > 0
    ensures Enc(Num(width, signed, limits), v) == Some(b) <==>
              && v.IntV? && Allowed(limits, v.i)
              && (if signed then -128 * Pow256(width - 1) <= v.i < 128 * Pow256(width - 1) else 0 <= v.i < Pow256(width))
              && |b| == width && LittleEndian(b, v.i, width)
  {
    var s := Num(width, signed, limits);
    assert Enc(s, v) == EncNum(s, v);
    if v.IntV? {
      AllowedIsInRange(limits, v.i);
      if InWidth(v.i, width, signed) {
        var n := Wrapped(v.i, width);
        LeIsLittleEndian(n, width);
        if v.i < 0 {
          forall i | 0 <= i < width ensures n / Pow256(i) % 256 == v.i / Pow256(i) % 256 { WrappedAt(v.i, width, i); }
        }
        assert LittleEndian(Le(n, width), v.i, width);
        if |b| == width && LittleEndian(b, v.i, width) { SameBytes(b, Le(n, width), v.i, width); }
      }
    }
  }

  /* ---- Strings and blobs ---- */

  /** One length is allowed, and no other. */
  predicate OnlyOne(lengths: seq<Interval>) {
    |lengths| == 1 && lengths[0].lo == lengths[0].hi
  }

  /** A string is its length in front of its bytes; the length is left out when the type
      allows only one. */
  lemma TextLayout(prefix: nat, lengths: seq<Interval>, v: Value, b: Bytes)
    ensures Enc(Text(prefix, lengths), v) == Some(b) <==>
              && v.TextV? && Allowed(lengths, |v.text|) && |v.text| < Pow256(prefix)
              && (if OnlyOne(lengths) then b == v.text
                  else |b| == prefix + |v.text| && LittleEndian(b, |v.text|, prefix) && b[prefix..] == v.text)
  {
    var s := Text(prefix, lengths);
    assert Enc(s, v) == EncText(s, v);
    if v.TextV? {
      AllowedIsInRange(lengths, |v.text|);
      var l := LengthBytes(s);
      LengthInFront(b, |v.text|, l, v.text);
    }
  }

  lemma LengthInFront(b: Bytes, n: nat, l: nat, body: Bytes)
    ensures b == Le(n, l) + body <==> |b| == l + |body| && LittleEndian(b, n, l) && b[l..] == body
  {
    LeIsLittleEndian(n, l);
    if |b| == l + |body| && LittleEndian(b, n, l) && b[l..] == body {
      assert LittleEndian(b[..l], n, l);
      SameBytes(b[..l], Le(n, l), n, l);
      assert b == b[..l] + b[l..];
    }
    if b == Le(n, l) + body {
      assert b[l..] == body;
      assert forall i :: 0 <= i < l ==> b[i] == Le(n, l)[i];
    }
  }

  /* ---- Records, atomic fields, classes ---- */

  /** Positions that cut `b` into `n` consecutive pieces. */
  predicate Cuts(cuts: seq<nat>, b: Bytes, n: nat) {
    && |cuts| == n + 1 && cuts[0] == 0 && cuts[n] == |b|
    && (forall i :: 0 <= i < n ==> cuts[i] <= cuts[i + 1])
    && (forall i :: 0 <= i <= n ==> cuts[i] <= |b|)
  }

  /** The piece number `i` is the item number `i`, as a field of its own. */
  predicate PieceIs(s: Schema, v: Value, b: Bytes, cuts: seq<nat>, i: nat)
    requires i + 1 < |cuts| && cuts[i] <= cuts[i + 1] <= |b|
  {
    Enc(s, v) == Some(b[cuts[i]..cuts[i + 1]])
  }

  /** The bytes of one field after the other. */
  ghost predicate OneAfterTheOther(fields: seq<Schema>, vs: seq<Value>, b: Bytes) {
    && |fields| == |vs|
    && exists cuts :: Cuts(cuts, b, |vs|) && forall i :: 0 <= i < |vs| ==> PieceIs(fields[i], vs[i], b, cuts, i)
  }

  /** The cuts behind another `n` bytes. */
  function Behind(cuts: seq<nat>, n: nat): (r: seq<nat>)
    ensures |r| == |cuts| + 1 && r[0] == 0 && forall i :: 0 <= i < |cuts| ==> r[i + 1] == n + cuts[i]
  {
    [0] + seq(|cuts|, i requires 0 <= i < |cuts| => n + cuts[i])
  }

  lemma CutsBehind(cuts: seq<nat>, first: Bytes, rest: Bytes, k: nat)
    requires Cuts(cuts, rest, k)
    ensures Cuts(Behind(cuts, |first|), first + rest, k + 1)
  {
    var r := Behind(cuts, |first|);
    forall i | 0 <= i < k + 1 ensures r[i] <= r[i + 1] { if i > 0 { assert r[i] == |first| + cuts[i - 1]; } }
    forall i | 0 <= i <= k + 1 ensures r[i] <= |first + rest| { if i > 0 { assert r[i] == |first| + cuts[i - 1]; } }
  }

  lemma PieceBehind(s: Schema, v: Value, cuts: seq<nat>, first: Bytes, rest: Bytes, i: nat)
    requires i + 1 < |cuts| && cuts[i] <= cuts[i + 1] <= |rest| && PieceIs(s, v, rest, cuts, i)
    ensures var r := Behind(cuts, |first|);
            r[i + 1] <= r[i + 2] <= |first + rest| && PieceIs(s, v, first + rest, r, i + 1)
  {
    hide Enc;
    var r := Behind(cuts, |first|);
    assert (first + rest)[r[i + 1]..r[i + 2]] == rest[cuts[i]..cuts[i + 1]];
  }

  lemma FieldGoesFirst(fields: seq<Schema>, vs: seq<Value>, first: Bytes, rest: Bytes)
    requires fields != [] && |fields| == |vs|
    requires Enc(fields[0], vs[0]) == Some(first) && OneAfterTheOther(fields[1..], vs[1..], rest)
    ensures OneAfterTheOther(fields, vs, first + rest)
  {
    hide Enc;
    var cuts :| Cuts(cuts, rest, |vs| - 1)
      && forall i :: 0 <= i < |vs| - 1 ==> PieceIs(fields[1..][i], vs[1..][i], rest, cuts, i);
    var b, moved := first + rest, Behind(cuts, |first|);
    CutsBehind(cuts, first, rest, |vs| - 1);
    assert b[0..|first|] == first && moved[1] == |first|;
    forall i | 0 <= i < |vs| ensures PieceIs(fields[i], vs[i], b, moved, i) {
      if i > 0 {
        assert PieceIs(fields[1..][i - 1], vs[1..][i - 1], rest, cuts, i - 1);
        PieceBehind(fields[i], vs[i], cuts, first, rest, i - 1);
      }
    }
  }

  lemma FieldComesFirst(fields: seq<Schema>, vs: seq<Value>, b: Bytes) returns (n: nat)
    requires fields != [] && OneAfterTheOther(fields, vs, b)
    ensures n <= |b| && Enc(fields[0], vs[0]) == Some(b[..n]) && OneAfterTheOther(fields[1..], vs[1..], b[n..])
  {
    var cuts :| Cuts(cuts, b, |vs|) && forall i :: 0 <= i < |vs| ==> PieceIs(fields[i], vs[i], b, cuts, i);
    n := cuts[1];
    assert PieceIs(fields[0], vs[0], b, cuts, 0) && b[0..n] == b[..n];
    GrowingCuts(cuts, b, |vs|, 1);
    var rest := b[n..];
    var moved := seq(|vs|, i requires 0 <= i < |vs| => (cuts[i + 1] - n) as nat);
    assert Cuts(moved, rest, |vs| - 1);
    forall i | 0 <= i < |vs| - 1 ensures PieceIs(fields[1..][i], vs[1..][i], rest, moved, i) {
      assert PieceIs(fields[i + 1], vs[i + 1], b, cuts, i + 1);
      assert rest[moved[i]..moved[i + 1]] == b[cuts[i + 1]..cuts[i + 2]];
    }
  }

  lemma {:induction false} GrowingCuts(cuts: seq<nat>, b: Bytes, n: nat, k: nat)
    requires Cuts(cuts, b, n) && k <= n
    ensures forall i :: k <= i <= n ==> cuts[k] <= cuts[i]
    decreases n - k
  {
    if k < n { GrowingCuts(cuts, b, n, k + 1); }
  }

  lemma {:induction false} AllAreConsecutive(fields: seq<Schema>, vs: seq<Value>, b: Bytes)
    ensures EncAll(fields, vs) == Some(b) <==> OneAfterTheOther(fields, vs, b)
    decreases |fields|
  {
    if fields == [] && vs == [] {
      if b == [] { assert Cuts([0], b, 0); }
    } else if fields != [] && vs != [] {
      if EncAll(fields, vs) == Some(b) {
        var first, rest := Enc(fields[0], vs[0]), EncAll(fields[1..], vs[1..]);
        AllAreConsecutive(fields[1..], vs[1..], rest.value);
        FieldGoesFirst(fields, vs, first.value, rest.value);
      }
      if OneAfterTheOther(fields, vs, b) {
        var n := FieldComesFirst(fields, vs, b);
        AllAreConsecutive(fields[1..], vs[1..], b[n..]);
        assert b == b[..n] + b[n..];
      }
    }
  }

  /** A record is its fields one after the other, one item for each. */
  lemma RecordLayout(fields: seq<Schema>, v: Value, b: Bytes)
    ensures Enc(Record(fields), v) == Some(b) <==> v.ListV? && OneAfterTheOther(fields, v.items, b)
  {
    if v.ListV? { AllAreConsecutive(fields, v.items, b); }
  }

  /* ---- Arrays ---- */

  lemma {:induction false} ElementsAreFields(elem: Schema, vs: seq<Value>)
    ensures EncRepeat(elem, vs) == EncAll(seq(|vs|, _ => elem), vs)
    decreases |vs|
  {
    if vs != [] {
      ElementsAreFields(elem, vs[1..]);
      assert seq(|vs|, _ => elem)[1..] == seq(|vs[1..]|, _ => elem);
    }
  }

  /** An array is its elements one after the other, as many as the type allows, behind the
      number of bytes they occupy; that number is left out when only one size is allowed and
      the elements have a fixed size. */
  lemma ArrayLayout(elem: Schema, size: seq<Interval>, v: Value, b: Bytes)
    ensures Enc(Array(elem, size), v) == Some(b) <==>
              && v.ListV? && Allowed(size, |v.items|)
              && (if OnlyOne(size) && FixedSize(elem).Some? then OneAfterTheOther(seq(|v.items|, _ => elem), v.items, b)
                  else 2 <= |b| < 0x1_0002 && LittleEndian(b, |b| - 2, 2)
                       && OneAfterTheOther(seq(|v.items|, _ => elem), v.items, b[2..]))
  {
    var s := Array(elem, size);
    assert Enc(s, v) == EncArray(s, v);
    if v.ListV? {
      AllowedIsInRange(size, |v.items|);
      ElementsAreFields(elem, v.items);
      var fields := seq(|v.items|, _ => elem);
      var body := EncAll(fields, v.items);
      assert Pow256(2) == 0x1_0000 by { assert Pow256(1) == 256; }
      if LengthBytes(s) == 0 {
        AllAreConsecutive(fields, v.items, b);
        if body.Some? { assert Le(|body.value|, 0) + body.value == body.value; }
      } else {
        if |b| >= 2 { AllAreConsecutive(fields, v.items, b[2..]); }
        if body.Some? { LengthInFront(b, |body.value|, 2, body.value); }
      }
    }
  }

  /* ---- Switches ---- */

  /** The first case with that value. */
  predicate IsCase(cases: seq<Case>, key: Bytes, i: nat) {
    i < |cases| && cases[i].value == key && forall j :: 0 <= j < i ==> cases[j].value != key
  }

  predicate NoCase(cases: seq<Case>, key: Bytes) {
    forall j :: 0 <= j < |cases| ==> cases[j].value != key
  }

  lemma {:induction false} CaseIsSelected(cases: seq<Case>, other: Otherwise, key: Bytes)
    ensures forall i: nat :: IsCase(cases, key, i) ==> Selected(cases, other, key) == Some(cases[i].fields)
    ensures NoCase(cases, key) ==> Selected(cases, other, key) == if other.Default? then Some(other.fields) else None
    ensures NoCase(cases, key) || exists i: nat :: IsCase(cases, key, i)
  {
    if cases != [] {
      CaseIsSelected(cases[1..], other, key);
      if cases[0].value == key {
        assert IsCase(cases, key, 0);
      } else {
        forall i: nat | IsCase(cases, key, i) ensures Selected(cases, other, key) == Some(cases[i].fields) {
          assert IsCase(cases[1..], key, i - 1);
        }
        if NoCase(cases, key) {
          assert forall j :: 0 <= j < |cases| - 1 ==> cases[1..][j] == cases[j + 1];
        } else if exists i: nat :: IsCase(cases[1..], key, i) {
          var i: nat :| IsCase(cases[1..], key, i);
          forall j | 0 <= j < i + 1 ensures cases[j].value != key { assert j > 0 ==> cases[j] == cases[1..][j - 1]; }
          assert IsCase(cases, key, i + 1);
        } else {
          assert NoCase(cases[1..], key);
          forall j | 0 <= j < |cases| ensures cases[j].value != key { assert j > 0 ==> cases[j] == cases[1..][j - 1]; }
        }
      }
    }
  }

  /** A switch is its key, followed by the fields of the first case with the key's bytes as
      its value; by the default fields, if there is no such case and there is a default; and
      with any other key it does not fit. */
  lemma SwitchLayout(key: Schema, cases: seq<Case>, other: Otherwise, v: Value, b: Bytes)
    ensures var s := Switch(key, cases, other);
            Enc(s, v) == Some(b) <==>
              v.ListV? && v.items != [] && exists n: nat :: FollowsKey(key, cases, other, v.items, b, n)
  {
    var s := Switch(key, cases, other);
    assert Enc(s, v) == EncSwitch(s, v);
    if v.ListV? && v.items != [] {
      var k, vs := Enc(key, v.items[0]), v.items[1..];
      if k.Some? {
        CaseIsSelected(cases, other, k.value);
        var chosen := Selected(cases, other, k.value);
        if chosen.Some? && Enc(s, v) == Some(b) {
          var n, rest := |k.value|, EncAll(chosen.value, vs).value;
          assert b[..n] == k.value && b[n..] == rest;
          assert Enc(Record(chosen.value), ListV(vs)) == Some(rest);
          assert FollowsKey(key, cases, other, v.items, b, n);
        }
      }
      if exists n: nat :: FollowsKey(key, cases, other, v.items, b, n) {
        var n: nat :| FollowsKey(key, cases, other, v.items, b, n);
        CaseIsSelected(cases, other, b[..n]);
        assert b == b[..n] + b[n..];
      }
    }
  }

  /** The first `n` bytes are the key, and the others the fields that it stands for. */
  ghost predicate FollowsKey(key: Schema, cases: seq<Case>, other: Otherwise, vs: seq<Value>, b: Bytes, n: nat)
    requires vs != []
  {
    && n <= |b| && Enc(key, vs[0]) == Some(b[..n])
    && (|| (exists i: nat :: IsCase(cases, b[..n], i) && Enc(Record(cases[i].fields), ListV(vs[1..])) == Some(b[n..]))
        || (NoCase(cases, b[..n]) && other.Default? && Enc(Record(other.fields), ListV(vs[1..])) == Some(b[n..])))
  }

  /** What packing a switch comes to, when its key is known: a case that is the first with
      the key's bytes as its value decides, otherwise the default, if there is one. */
  lemma SwitchPacks(key: Schema, cases: seq<Case>, other: Otherwise, k: Value, vs: seq<Value>, i: nat)
    requires Enc(key, k).Some?
    ensures var s, kb := Switch(key, cases, other), Enc(key, k).value;
            && (IsCase(cases, kb, i) ==>
                  Enc(s, ListV([k] + vs)) == InFront(kb, Enc(Record(cases[i].fields), ListV(vs))))
            && (NoCase(cases, kb) ==>
                  Enc(s, ListV([k] + vs)) == if other.Default? then InFront(kb, Enc(Record(other.fields), ListV(vs))) else None)
  {
    CaseIsSelected(cases, other, Enc(key, k).value);
    assert ([k] + vs)[1..] == vs;
    assert Enc(Switch(key, cases, other), ListV([k] + vs)) == EncSwitch(Switch(key, cases, other), ListV([k] + vs));
  }

  /** The bytes with others in front of them. */
  function InFront(first: Bytes, rest: Option<Bytes>): (r: Option<Bytes>)
    ensures r.Some? <==> rest.Some?
    ensures r.Some? ==> r.value == first + rest.value
  {
    if rest.Some? then Some(first + rest.value) else None
  }

  /** And unpacking: behind the key, the bytes are those of the case's or the default's fields. */
  lemma SwitchUnpacks(key: Schema, cases: seq<Case>, other: Otherwise, b: Bytes, i: nat)
    requires Dec(key, b).Some?
    ensures var s, k := Switch(key, cases, other), Dec(key, b).value;
            && (IsCase(cases, b[..k.used], i) ==>
                  Dec(s, b) == WithKey(k, Dec(Record(cases[i].fields), b[k.used..])))
            && (NoCase(cases, b[..k.used]) ==>
                  Dec(s, b) == if other.Default? then WithKey(k, Dec(Record(other.fields), b[k.used..])) else None)
  {
    CaseIsSelected(cases, other, b[..Dec(key, b).value.used]);
    assert Dec(Switch(key, cases, other), b) == DecSwitch(Switch(key, cases, other), b);
  }

  /** The list with the key in front, and the bytes of both. */
  function WithKey(k: Parsed<Value>, rest: Option<Parsed<Value>>): (r: Option<Parsed<Value>>)
    ensures r.Some? <==> rest.Some? && rest.value.value.ListV?
    ensures r.Some? ==> r.value.value == ListV([k.value] + rest.value.value.items) && r.value.used == k.used + rest.value.used
  {
    if rest.Some? && rest.value.value.ListV?
    then Some(Parsed(ListV([k.value] + rest.value.value.items), k.used + rest.value.used)) else None
  }

  /* ---- Fixed sizes ---- */

  /** Which fields have a fixed size; what it is, FixedSizeIsExact says. */
  lemma FieldsOfFixedSize(fields: seq<Schema>)
    ensures FixedSize(Record(fields)).Some? <==> forall f :: f in fields ==> FixedSize(f).Some?
  {
    SumsOfFixedSizes(fields);
  }

  lemma {:induction false} SumsOfFixedSizes(fields: seq<Schema>)
    ensures FixedSum(fields).Some? <==> forall f :: f in fields ==> FixedSize(f).Some?
  {
    hide FixedSize;
    if fields != [] {
      SumsOfFixedSizes(fields[1..]);
      assert FixedSum(fields) == Plus(FixedSize(fields[0]), FixedSum(fields[1..]));
      assert fields == [fields[0]] + fields[1..];
      assert fields[0] in fields;
      forall f | f in fields && f != fields[0] ensures f in fields[1..] {}
    }
  }

  lemma ArraysOfFixedSize(elem: Schema, size: seq<Interval>)
    ensures FixedSize(Array(elem, size)).Some? <==> OnlyOne(size) && size[0].lo >= 0 && FixedSize(elem).Some?
  {
  }

  lemma TextsOfFixedSize(prefix: nat, lengths: seq<Interval>)
    ensures FixedSize(Text(prefix, lengths)).Some? <==> OnlyOne(lengths) && lengths[0].lo >= 0
  {
  }

  /** A switch has one when all of its cases and its default come to the same. */
  lemma SwitchesOfFixedSize(key: Schema, cases: seq<Case>, other: Otherwise)
    ensures FixedSize(Switch(key, cases, other)).Some? <==>
              && FixedSize(key).Some?
              && (forall c :: c in cases ==> FixedSize(Record(c.fields)).Some?)
              && (forall c, d :: c in cases && d in cases ==> FixedSize(Record(c.fields)) == FixedSize(Record(d.fields)))
              && (other.Default? && cases == [] ==> FixedSize(key) == Some(0) && FixedSize(Record(other.fields)) == Some(0))
              && (other.Default? ==> FixedSize(Record(other.fields)).Some?
                                     && forall c :: c in cases ==> FixedSize(Record(c.fields)) == FixedSize(Record(other.fields)))
  {
    forall i | 0 <= i < |cases| ensures FixedSize(Record(cases[i].fields)) == FixedSum(cases[i].fields) && cases[i] in cases {}
  }
}
