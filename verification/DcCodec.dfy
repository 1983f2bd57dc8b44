/** What the wire format promises: decoding inverts encoding whatever follows,
    every accepted byte string is the encoding of the value read from it, and a
    declared fixed size is the size of every encoding. */
module DcCodec {
  import opened Common
  import opened DcBytes
  import opened DcSchema

  lemma SignedOfWrapped(v: int, w: nat, signed: bool)
    requires w > 0 && InWidth(v, w, signed)
    ensures -Pow256(w) <= v < Pow256(w)
    ensures 0 <= Wrapped(v, w) < Pow256(w)
    ensures (if signed then Signed(Wrapped(v, w), w) else Wrapped(v, w)) == v
  {
    Pow256Even(w);
  }

  lemma WrappedOfSigned(n: nat, w: nat, signed: bool)
    requires w > 0 && n < Pow256(w)
    ensures var i := if signed then Signed(n, w) else n;
            InWidth(i, w, signed) && -Pow256(w) <= i < Pow256(w) && Wrapped(i, w) == n
  {
    Pow256Even(w);
  }

  lemma SplitTake(b: Bytes, n: nat, m: nat)
    requires n <= m <= |b|
    ensures b[..m] == b[..n] + b[n..][..m - n]
  {
  }

  lemma {:induction false} EncIsPositive(s: Schema, v: Value)
    requires Legal(s) && Positive(s) && Enc(s, v).Some?
    ensures |Enc(s, v).value| > 0
    decreases s, 0
  {
    match s
    case Num(width, signed, _) => SignedOfWrapped(v.i, width, signed);
    case Text(prefix, lengths) =>
    case Array(elem, size) =>
      if LengthBytes(s) == 0 {
        assert EncRepeat(elem, v.items).Some?;
        EncIsPositive(elem, v.items[0]);
      }
    case Record(fields) => EncAllIsPositive(fields, v.items);
    case Switch(key, _, _) => EncIsPositive(key, v.items[0]);
  }

  lemma {:induction false} EncAllIsPositive(fields: seq<Schema>, vs: seq<Value>)
    requires AllLegal(fields) && AnyPositive(fields) && EncAll(fields, vs).Some?
    ensures |EncAll(fields, vs).value| > 0
    decreases fields, 0
  {
    if Positive(fields[0]) { EncIsPositive(fields[0], vs[0]); }
    else { EncAllIsPositive(fields[1..], vs[1..]); }
  }

  lemma SelectedIsLegal(s: Schema, key: Bytes)
    requires s.Switch? && Legal(s) && Selected(s.cases, s.other, key).Some?
    ensures AllLegal(Selected(s.cases, s.other, key).value)
  {
  }

  /** Unpacking what was packed gives the same value back and consumes exactly the
      packed bytes, whatever bytes follow. */
  lemma {:induction false} RoundTrip(s: Schema, v: Value, rest: Bytes)
    requires Legal(s) && Enc(s, v).Some?
    ensures Dec(s, Enc(s, v).value + rest) == Some(Parsed(v, |Enc(s, v).value|))
    decreases s, 1
  {
    match s
    case Num(_, _, _) => RoundTripNum(s, v, rest);
    case Text(_, _) => RoundTripText(s, v, rest);
    case Array(_, _) => RoundTripArray(s, v, rest);
    case Record(fields) => RoundTripAll(fields, v.items, rest);
    case Switch(_, _, _) => RoundTripSwitch(s, v, rest);
  }

  lemma RoundTripNum(s: Schema, v: Value, rest: Bytes)
    requires s.Num? && Legal(s) && Enc(s, v).Some?
    ensures Dec(s, Enc(s, v).value + rest) == Some(Parsed(v, |Enc(s, v).value|))
  {
    SignedOfWrapped(v.i, s.width, s.signed);
    FromLeOfLe(Wrapped(v.i, s.width), s.width);
    assert (Enc(s, v).value + rest)[..s.width] == Enc(s, v).value;
  }

  lemma RoundTripText(s: Schema, v: Value, rest: Bytes)
    requires s.Text? && Legal(s) && Enc(s, v).Some?
    ensures Dec(s, Enc(s, v).value + rest) == Some(Parsed(v, |Enc(s, v).value|))
  {
    var e, l := Enc(s, v).value, LengthBytes(s);
    if l > 0 { FromLeOfLe(|v.text|, l); }
    assert (e + rest)[..l] == Le(|v.text|, l);
    assert (e + rest)[l..l + |v.text|] == v.text;
  }

  lemma {:induction false} RoundTripSwitch(s: Schema, v: Value, rest: Bytes)
    requires s.Switch? && Legal(s) && Enc(s, v).Some?
    ensures Dec(s, Enc(s, v).value + rest) == Some(Parsed(v, |Enc(s, v).value|))
    decreases s, 0
  {
    var k := Enc(s.key, v.items[0]).value;
    var fields := Selected(s.cases, s.other, k).value;
    var body := EncAll(fields, v.items[1..]).value;
    Slices(k, body, rest);
    SelectedIsLegal(s, k);
    RoundTrip(s.key, v.items[0], body + rest);
    RoundTripAll(fields, v.items[1..], rest);
    DecSwitchOnce(s, k + (body + rest), Parsed(v.items[0], |k|), fields, Parsed(v.items[1..], |body|));
    assert [v.items[0]] + v.items[1..] == v.items;
  }

  lemma {:induction false} RoundTripArray(s: Schema, v: Value, rest: Bytes)
    requires s.Array? && Legal(s) && Enc(s, v).Some?
    ensures Dec(s, Enc(s, v).value + rest) == Some(Parsed(v, |Enc(s, v).value|))
    decreases s, 0
  {
    var l := LengthBytes(s);
    var body := EncRepeat(s.elem, v.items).value;
    Slices(Le(|body|, l), body, rest);
    if l == 0 {
      assert Enc(s, v).value == body && [] + (body + rest) == body + rest;
      RepeatCount(s.elem, v.items, rest);
    } else {
      FromLeOfLe(|body|, l);
      RepeatSpan(s.elem, v.items, rest);
    }
  }

  lemma Slices(a: Bytes, b: Bytes, rest: Bytes)
    ensures (a + b) + rest == a + (b + rest)
    ensures (a + (b + rest))[..|a|] == a && (a + (b + rest))[|a|..] == b + rest
  {
  }

  /* One unfolding of the decoder each. */

  lemma DecSwitchOnce(s: Schema, b: Bytes, k: Parsed<Value>, fields: seq<Schema>, r: Parsed<seq<Value>>)
    requires s.Switch? && Dec(s.key, b) == Some(k)
    requires Selected(s.cases, s.other, b[..k.used]) == Some(fields)
    requires DecAll(fields, b[k.used..]) == Some(r)
    ensures Dec(s, b) == Some(Parsed(ListV([k.value] + r.value), k.used + r.used))
  {
  }

  lemma DecAllCons(fields: seq<Schema>, b: Bytes, d: Parsed<Value>, r: Parsed<seq<Value>>)
    requires fields != [] && Dec(fields[0], b) == Some(d) && DecAll(fields[1..], b[d.used..]) == Some(r)
    ensures DecAll(fields, b) == Some(Parsed([d.value] + r.value, d.used + r.used))
  {
  }

  lemma EncAllCons(fields: seq<Schema>, vs: seq<Value>)
    requires fields != [] && EncAll(fields, vs).Some?
    ensures vs != [] && Enc(fields[0], vs[0]).Some? && EncAll(fields[1..], vs[1..]).Some?
    ensures EncAll(fields, vs).value == Enc(fields[0], vs[0]).value + EncAll(fields[1..], vs[1..]).value
  {
  }

  lemma {:induction false} RoundTripAll(fields: seq<Schema>, vs: seq<Value>, rest: Bytes)
    requires AllLegal(fields) && EncAll(fields, vs).Some?
    ensures DecAll(fields, EncAll(fields, vs).value + rest) == Some(Parsed(vs, |EncAll(fields, vs).value|))
    decreases fields, 0
  {
    if fields != [] {
      EncAllCons(fields, vs);
      var a, b := Enc(fields[0], vs[0]).value, EncAll(fields[1..], vs[1..]).value;
      Slices(a, b, rest);
      RoundTrip(fields[0], vs[0], b + rest);
      RoundTripAll(fields[1..], vs[1..], rest);
      DecAllCons(fields, a + (b + rest), Parsed(vs[0], |a|), Parsed(vs[1..], |b|));
      assert [vs[0]] + vs[1..] == vs;
    }
  }

  lemma EncRepeatSplit(elem: Schema, vs: seq<Value>)
    requires vs != [] && EncRepeat(elem, vs).Some?
    ensures Enc(elem, vs[0]).Some? && EncRepeat(elem, vs[1..]).Some?
    ensures EncRepeat(elem, vs).value == Enc(elem, vs[0]).value + EncRepeat(elem, vs[1..]).value
  {
  }

  lemma DecCountCons(elem: Schema, b: Bytes, d: Parsed<Value>, r: Parsed<seq<Value>>)
    requires Dec(elem, b) == Some(d) && DecCount(elem, b[d.used..], |r.value|) == Some(r)
    ensures DecCount(elem, b, |r.value| + 1) == Some(Parsed([d.value] + r.value, d.used + r.used))
  {
  }

  lemma DecSpanCons(elem: Schema, b: Bytes, d: Parsed<Value>, r: Parsed<seq<Value>>)
    requires Dec(elem, b) == Some(d) && d.used > 0 && DecSpan(elem, b[d.used..], r.used) == Some(r)
    ensures DecSpan(elem, b, d.used + r.used) == Some(Parsed([d.value] + r.value, d.used + r.used))
  {
  }

  lemma {:induction false} RepeatCount(elem: Schema, vs: seq<Value>, rest: Bytes)
    requires Legal(elem) && EncRepeat(elem, vs).Some?
    ensures DecCount(elem, EncRepeat(elem, vs).value + rest, |vs|)
         == Some(Parsed(vs, |EncRepeat(elem, vs).value|))
    decreases elem, |vs| + 2
  {
    if vs != [] {
      EncRepeatSplit(elem, vs);
      var a, b := Enc(elem, vs[0]).value, EncRepeat(elem, vs[1..]).value;
      Slices(a, b, rest);
      RoundTrip(elem, vs[0], b + rest);
      RepeatCount(elem, vs[1..], rest);
      DecCountCons(elem, a + (b + rest), Parsed(vs[0], |a|), Parsed(vs[1..], |b|));
      assert [vs[0]] + vs[1..] == vs;
    }
  }

  lemma {:induction false} RepeatSpan(elem: Schema, vs: seq<Value>, rest: Bytes)
    requires Legal(elem) && Positive(elem) && EncRepeat(elem, vs).Some?
    ensures DecSpan(elem, EncRepeat(elem, vs).value + rest, |EncRepeat(elem, vs).value|)
         == Some(Parsed(vs, |EncRepeat(elem, vs).value|))
    decreases elem, |vs| + 2
  {
    if vs != [] {
      EncRepeatSplit(elem, vs);
      var a, b := Enc(elem, vs[0]).value, EncRepeat(elem, vs[1..]).value;
      Slices(a, b, rest);
      EncIsPositive(elem, vs[0]);
      RoundTrip(elem, vs[0], b + rest);
      RepeatSpan(elem, vs[1..], rest);
      DecSpanCons(elem, a + (b + rest), Parsed(vs[0], |a|), Parsed(vs[1..], |b|));
      assert [vs[0]] + vs[1..] == vs;
    }
  }

  /** The converse: the bytes consumed are the encoding of the value returned. */
  lemma {:induction false} Canonical(s: Schema, b: Bytes)
    requires Legal(s) && Dec(s, b).Some?
    ensures Enc(s, Dec(s, b).value.value) == Some(b[..Dec(s, b).value.used])
    decreases s, 1, 0
  {
    match s
    case Num(_, _, _) => CanonicalNum(s, b);
    case Text(_, _) => CanonicalText(s, b);
    case Array(_, _) => CanonicalArray(s, b);
    case Record(fields) => CanonicalAll(fields, b);
    case Switch(_, _, _) => CanonicalSwitch(s, b);
  }

  lemma CanonicalNum(s: Schema, b: Bytes)
    requires s.Num? && Legal(s) && Dec(s, b).Some?
    ensures Enc(s, Dec(s, b).value.value) == Some(b[..Dec(s, b).value.used])
  {
    WrappedOfSigned(FromLe(b[..s.width]), s.width, s.signed);
    LeOfFromLe(b[..s.width]);
  }

  lemma CanonicalText(s: Schema, b: Bytes)
    requires s.Text? && Legal(s) && Dec(s, b).Some?
    ensures Enc(s, Dec(s, b).value.value) == Some(b[..Dec(s, b).value.used])
  {
    var l, used := LengthBytes(s), Dec(s, b).value.used;
    if l > 0 { LeOfFromLe(b[..l]); } else { assert s.lengths[0].hi < Pow256(s.prefix); }
    assert b[..used] == b[..l] + b[l..used];
  }

  lemma {:induction false} CanonicalArray(s: Schema, b: Bytes)
    requires s.Array? && Legal(s) && Dec(s, b).Some?
    ensures Enc(s, Dec(s, b).value.value) == Some(b[..Dec(s, b).value.used])
    decreases s, 0, 0
  {
    var l, used := LengthBytes(s), Dec(s, b).value.used;
    if l == 0 {
      CanonicalCount(s.elem, b, s.size[0].lo);
      assert Le(used, 0) + b[..used] == b[..used];
    } else {
      CanonicalSpan(s.elem, b[l..], FromLe(b[..l]));
      LeOfFromLe(b[..l]);
      SplitTake(b, l, used);
    }
  }

  lemma {:induction false} CanonicalSwitch(s: Schema, b: Bytes)
    requires s.Switch? && Legal(s) && Dec(s, b).Some?
    ensures Enc(s, Dec(s, b).value.value) == Some(b[..Dec(s, b).value.used])
    decreases s, 0, 0
  {
    hide Selected, Enc, EncAll, DecAll;
    var k := Dec(s.key, b).value;
    var fields := Selected(s.cases, s.other, b[..k.used]).value;
    var r := DecAll(fields, b[k.used..]).value;
    Canonical(s.key, b);
    SelectedIsLegal(s, b[..k.used]);
    CanonicalAll(fields, b[k.used..]);
    SplitTake(b, k.used, k.used + r.used);
    EncSwitchOnce(s, k.value, r.value, b[..k.used], fields);
  }

  lemma EncSwitchOnce(s: Schema, k: Value, vs: seq<Value>, key: Bytes, fields: seq<Schema>)
    requires s.Switch? && Enc(s.key, k) == Some(key) && Selected(s.cases, s.other, key) == Some(fields)
    ensures Enc(s, ListV([k] + vs)) == Join(Some(key), EncAll(fields, vs))
  {
    assert ([k] + vs)[1..] == vs;
  }

  lemma {:induction false} CanonicalAll(fields: seq<Schema>, b: Bytes)
    requires AllLegal(fields) && DecAll(fields, b).Some?
    ensures EncAll(fields, DecAll(fields, b).value.value) == Some(b[..DecAll(fields, b).value.used])
    decreases fields, 1, 0
  {
    if fields != [] {
      var d := Dec(fields[0], b).value;
      var r := DecAll(fields[1..], b[d.used..]).value;
      Canonical(fields[0], b);
      CanonicalAll(fields[1..], b[d.used..]);
      SplitTake(b, d.used, d.used + r.used);
      assert ([d.value] + r.value)[1..] == r.value;
    }
  }

  lemma EncRepeatCons(elem: Schema, v: Value, vs: seq<Value>)
    ensures EncRepeat(elem, [v] + vs) == Join(Enc(elem, v), EncRepeat(elem, vs))
  {
    assert ([v] + vs)[1..] == vs;
  }

  lemma {:induction false} CanonicalCount(elem: Schema, b: Bytes, count: nat)
    requires Legal(elem) && DecCount(elem, b, count).Some?
    ensures EncRepeat(elem, DecCount(elem, b, count).value.value) == Some(b[..DecCount(elem, b, count).value.used])
    decreases elem, 2, count
  {
    if count > 0 {
      var d := Dec(elem, b).value;
      var r := DecCount(elem, b[d.used..], count - 1).value;
      Canonical(elem, b);
      CanonicalCount(elem, b[d.used..], count - 1);
      SplitTake(b, d.used, d.used + r.used);
      EncRepeatCons(elem, d.value, r.value);
    }
  }

  lemma {:induction false} CanonicalSpan(elem: Schema, b: Bytes, span: nat)
    requires Legal(elem) && DecSpan(elem, b, span).Some?
    ensures EncRepeat(elem, DecSpan(elem, b, span).value.value) == Some(b[..span])
    decreases elem, 2, span
  {
    if span > 0 {
      var d := Dec(elem, b).value;
      var r := DecSpan(elem, b[d.used..], span - d.used).value;
      Canonical(elem, b);
      CanonicalSpan(elem, b[d.used..], span - d.used);
      SplitTake(b, d.used, span);
      EncRepeatCons(elem, d.value, r.value);
    }
  }

  /** A byte string is a prefix of the buffer that decodes to `v` exactly when it
      encodes `v`: encoding and decoding are one relation. */
  lemma DecodesIffEncodes(s: Schema, v: Value, b: Bytes, n: nat)
    requires Legal(s) && n <= |b|
    ensures Dec(s, b) == Some(Parsed(v, n)) <==> Enc(s, v) == Some(b[..n])
  {
    if Dec(s, b) == Some(Parsed(v, n)) { Canonical(s, b); }
    if Enc(s, v) == Some(b[..n]) {
      RoundTrip(s, v, b[n..]);
      assert b[..n] + b[n..] == b;
    }
  }

  /** `has_fixed_byte_size` is a promise about every encoding, through records,
      arrays and switches. */
  lemma {:induction false} FixedSizeIsExact(s: Schema, b: Bytes)
    requires Legal(s) && FixedSize(s).Some? && Dec(s, b).Some?
    ensures Dec(s, b).value.used == FixedSize(s).value
    decreases s, 0, 0
  {
    match s
    case Num(_, _, _) =>
    case Text(_, _) =>
    case Array(elem, size) => FixedCountIsExact(elem, b, size[0].lo);
    case Record(fields) => FixedSumIsExact(fields, b);
    case Switch(key, cases, other) =>
      var n := Dec(key, b).value.used;
      FixedSizeIsExact(key, b);
      SelectedIsLegal(s, b[..n]);
      FixedSumIsExact(Selected(cases, other, b[..n]).value, b[n..]);
  }

  lemma {:induction false} FixedSumIsExact(fields: seq<Schema>, b: Bytes)
    requires AllLegal(fields) && FixedSum(fields).Some? && DecAll(fields, b).Some?
    ensures DecAll(fields, b).value.used == FixedSum(fields).value
    decreases fields, 0, 0
  {
    if fields != [] {
      FixedSizeIsExact(fields[0], b);
      FixedSumIsExact(fields[1..], b[Dec(fields[0], b).value.used..]);
    }
  }

  lemma OneMore(k: nat, z: nat)
    ensures k * z + z == (k + 1) * z
  {
  }

  lemma {:induction false} FixedCountIsExact(elem: Schema, b: Bytes, count: nat)
    requires Legal(elem) && FixedSize(elem).Some? && DecCount(elem, b, count).Some?
    ensures DecCount(elem, b, count).value.used == count * FixedSize(elem).value
    decreases elem, 1, count
  {
    hide Dec, FixedSize, Legal;
    if count > 0 {
      var d := Dec(elem, b).value;
      FixedSizeIsExact(elem, b);
      FixedCountIsExact(elem, b[d.used..], count - 1);
      assert DecCount(elem, b, count).value.used == d.used + DecCount(elem, b[d.used..], count - 1).value.used;
      OneMore(count - 1, FixedSize(elem).value);
    }
  }

  /** Nothing but a non-empty prefix of the buffer decodes as a positive field. */
  lemma DecIsPositive(s: Schema, b: Bytes)
    requires Legal(s) && Positive(s) && Dec(s, b).Some?
    ensures Dec(s, b).value.used > 0
  {
    Canonical(s, b);
    EncIsPositive(s, Dec(s, b).value.value);
  }
}
