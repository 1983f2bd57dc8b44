/** Packing: the loop `push(); pack each item; pop();` writes the wire format. */
module DcPacking {
  import opened Common
  import opened DcBytes
  import opened DcSchema
  import opened DcCodec
  import opened DcMachine
  import opened DcReaders
  import opened DcWalk

  /** What packing `v` as the current field must achieve: a value that fits is
      appended in the wire format and the machine moves on; one that does not, or one
      too many, is an error. */
  ghost predicate Packed(m: Machine, n: Machine, v: Value) {
    && n.mode == m.mode
    && (Failed(m) ==> Failed(n))
    && (m.cur.None? ==> Failed(n))
    && (m.cur.Some? && !Failed(m) ==>
          var e := Enc(m.cur.value, v);
          if e.Some? then n == Advance(m.(out := m.out + e.value)) else Failed(n))
  }

  /** What a packing session looks like between calls, as long as nothing has failed. */
  ghost predicate Ready(m: Machine) {
    Failed(m) || (m.num == NumOf(m.parent) && (m.cur.Some? ==> Legal(m.cur.value)))
  }

  /** Lengths of texts are 32-bit numbers. */
  predicate Storable(v: Value) {
    match v
    case IntV(_) => true
    case TextV(text) => |text| < Pow256(4)
    case ListV(items) => forall i :: 0 <= i < |items| ==> Storable(items[i])
  }

  lemma ModWraps(v: int, w: nat)
    requires -Pow256(w) <= v < Pow256(w)
    ensures v % Pow256(w) == Wrapped(v, w)
  {
    ModOf(v, Pow256(w));
  }

  lemma ModOf(v: int, m: int)
    requires m > 0 && -m <= v < m
    ensures v % m == if v < 0 then v + m else v
  {
    var q := v / m;
    assert v == q * m + v % m;
    Multiples(q, m);
  }

  lemma Multiples(q: int, m: int)
    requires m > 0
    ensures (q >= 1 ==> q * m >= m) && (q <= -2 ==> q * m <= -2 * m)
  {
    if q >= 1 { assert q * m == m + (q - 1) * m; }
    else if q <= -2 { assert q * m == -2 * m + (q + 2) * m; }
  }

  lemma NumPacked(m: Machine, v: Value)
    requires m.cur.Some? && m.cur.value.Num? && (Failed(m) || Legal(m.cur.value))
    ensures Packed(m, if v.IntV? then PackNum(m, v.i) else Refuse(m), v)
  {
    var s := m.cur.value;
    AdvanceKeepsErrors(m.(packError := true));
    if v.IntV? {
      AdvanceKeepsErrors(m.(rangeError := m.rangeError || !InWidth(v.i, s.width, s.signed) || !InRange(s.limits, v.i),
                            out := m.out + Le(v.i % Pow256(s.width), s.width)));
      if !Failed(m) && InWidth(v.i, s.width, s.signed) {
        SignedOfWrapped(v.i, s.width, s.signed);
        ModWraps(v.i, s.width);
      }
    }
  }

  lemma TextPacked(m: Machine, v: Value)
    requires m.cur.Some? && m.cur.value.Text? && (Failed(m) || Legal(m.cur.value)) && Storable(v)
    ensures Packed(m, if v.TextV? then PackText(m, v.text) else Refuse(m), v)
  {
    var s := m.cur.value;
    var l := LengthBytes(s);
    AdvanceKeepsErrors(m.(packError := true));
    if v.TextV? {
      AdvanceKeepsErrors(m.(rangeError := m.rangeError || !InRange(s.lengths, |v.text|)
                                          || (s.prefix == 2 && |v.text| >= Pow256(2)),
                            out := m.out + Le(|v.text| % Pow256(l), l) + v.text));
      if l > 0 && |v.text| < Pow256(l) { ModWraps(|v.text|, l); }
      assert m.out + Le(|v.text| % Pow256(l), l) + v.text == m.out + (Le(|v.text| % Pow256(l), l) + v.text);
    }
  }

  lemma RefusedPacked(m: Machine, v: Value)
    requires m.cur.Some? ==> Enc(m.cur.value, v).None?
    ensures Packed(m, Refuse(m), v)
  {
    AdvanceKeepsErrors(m.(packError := true));
  }

  /* ---- The loop over the items of a list ---- */

  ghost predicate PackInCount(m: Machine, s: Schema)
    requires s.Array?
  {
    && m.parent == Some(s) && m.num == NumNested(s)
    && m.cur == if m.num < 0 || m.index < m.num then Some(s.elem) else None
  }

  /** Where the machine is after packing the first items, as the bytes `body`. */
  ghost predicate PackInside(s: Schema, m0: Machine, m: Machine, body: Bytes) {
    && m.mode == m0.mode && m.src == m0.src && m.p == m0.p
    && m.stack == [Frame(m0.parent, m0.index, m0.pushMark, m0.popMark)] + m0.stack
    && m.pushMark == |m0.out| && m.popMark == 0
    && m.out == m0.out + Junk(LengthBytes(s)) + body
    && match s
       case Num(_, _, _) => false
       case Text(_, _) => false
       case Array(_, _) => PackInCount(m, s)
       case Record(fields) => InFields(m, fields)
       case Switch(key, _, _) =>
         if m.parent == Some(s) then m.num == 1 && m.index == 0 && m.cur == Some(key) && body == []
         else m.parent.Some? && m.parent.value.Record? && CaseOf(s, m.parent.value.fields)
              && InFields(m, m.parent.value.fields) && m.index >= 1
  }

  /** The encoding of all items `vs`, given that those before the cursor are `body`. */
  ghost predicate Unpacked(s: Schema, m: Machine, vs: seq<Value>, body: Bytes) {
    && m.index <= |vs|
    && match s
       case Num(_, _, _) => false
       case Text(_, _) => false
       case Array(elem, _) => EncRepeat(elem, vs) == Join(Some(body), EncRepeat(elem, vs[m.index..]))
       case Record(fields) =>
         m.index <= |fields|
         && Enc(s, ListV(vs)) == Join(Some(body), EncAll(fields[m.index..], vs[m.index..]))
       case Switch(_, _, _) =>
         m.parent.Some? && m.parent.value.Record? ==>
           m.index <= |m.parent.value.fields|
           && Enc(s, ListV(vs)) == Join(Some(body), EncAll(m.parent.value.fields[m.index..], vs[m.index..]))
  }

  /** The loop invariant: an error means that the list does not fit. */
  ghost predicate PackInv(s: Schema, m0: Machine, m: Machine, vs: seq<Value>, k: nat, body: Bytes) {
    && m.mode == m0.mode
    && (Failed(m0) ==> Failed(m))
    && (!Failed(m0) ==>
          if Failed(m) then Enc(s, ListV(vs)).None?
          else m.index == k && m.num == NumOf(m.parent) && PackInside(s, m0, m, body) && Unpacked(s, m, vs, body))
  }

  lemma PackOpens(m: Machine, vs: seq<Value>)
    requires m.mode.Packing? && m.cur.Some? && (Failed(m) || Legal(m.cur.value))
    requires !m.cur.value.Num? && !m.cur.value.Text?
    ensures PackInv(m.cur.value, m, Push(m), vs, 0, [])
  {
    var s := m.cur.value;
    assert m.out + Junk(LengthBytes(s)) + [] == m.out + Junk(LengthBytes(s));
    assert vs[0..] == vs;
    match s
    case Array(elem, _) => JoinNothing(EncRepeat(elem, vs));
    case Record(fields) =>
      assert fields[0..] == fields;
      JoinNothing(EncAll(fields, vs));
    case _ =>
  }

  lemma JoinNothing(r: Option<Bytes>)
    ensures Join(Some([]), r) == r
  {
    if r.Some? { assert [] + r.value == r.value; }
  }

  lemma JoinMoves(a: Bytes, b: Bytes, r: Option<Bytes>)
    ensures Join(Some(a), Join(Some(b), r)) == Join(Some(a + b), r)
  {
    if r.Some? { assert a + (b + r.value) == a + b + r.value; }
  }

  lemma EncAllStep(fields: seq<Schema>, vs: seq<Value>, k: nat)
    requires k < |vs| && k <= |fields|
    ensures EncAll(fields[k..], vs[k..])
         == if k == |fields| then None else Join(Enc(fields[k], vs[k]), EncAll(fields[k + 1..], vs[k + 1..]))
  {
    assert vs[k..][0] == vs[k] && vs[k..][1..] == vs[k + 1..];
    if k < |fields| { assert fields[k..][0] == fields[k] && fields[k..][1..] == fields[k + 1..]; }
  }

  lemma EncRepeatStep(elem: Schema, vs: seq<Value>, k: nat)
    requires k < |vs|
    ensures EncRepeat(elem, vs[k..]) == Join(Enc(elem, vs[k]), EncRepeat(elem, vs[k + 1..]))
  {
    assert vs[k..][0] == vs[k] && vs[k..][1..] == vs[k + 1..];
  }

  /** The bytes that item `k` adds. */
  function Added(m: Machine, v: Value): Bytes {
    if m.cur.Some? && Enc(m.cur.value, v).Some? then Enc(m.cur.value, v).value else []
  }

  lemma PackStep(s: Schema, m0: Machine, m: Machine, vs: seq<Value>, k: nat, body: Bytes, n: Machine)
    requires m0.mode.Packing? && m0.cur == Some(s) && k < |vs|
    requires PackInv(s, m0, m, vs, k, body) && Packed(m, n, vs[k])
    ensures PackInv(s, m0, n, vs, k + 1, body + Added(m, vs[k]))
  {
    if !Failed(m0) && !Failed(m) {
      match s
      case Array(_, _) => PackStepArray(s, m0, m, vs, k, body, n);
      case Record(fields) => PackStepFields(s, fields, m0, m, vs, k, body, n);
      case Switch(_, _, _) =>
        if m.parent == Some(s) { PackStepKey(s, m0, m, vs, n); }
        else { PackStepFields(s, m.parent.value.fields, m0, m, vs, k, body, n); }
      case _ =>
    }
  }

  lemma PackChildReady(s: Schema, m0: Machine, m: Machine, vs: seq<Value>, k: nat, body: Bytes)
    requires Failed(m0) || Legal(s)
    requires PackInv(s, m0, m, vs, k, body)
    ensures Ready(m)
  {
    if !Failed(m) && m.cur.Some? {
      match s
      case Record(fields) => FieldIsKnown(fields, m.index);
      case Switch(_, _, _) =>
        if m.parent != Some(s) {
          var rest := m.parent.value.fields[1..];
          assert rest[m.index - 1] == m.parent.value.fields[m.index];
          assert AllLegal(rest);
          FieldIsKnown(rest, m.index - 1);
        }
      case _ =>
    }
  }

  lemma PackStepArray(s: Schema, m0: Machine, m: Machine, vs: seq<Value>, k: nat, body: Bytes, n: Machine)
    requires s.Array? && m0.mode.Packing? && !Failed(m0) && !Failed(m) && k < |vs|
    requires PackInv(s, m0, m, vs, k, body) && Packed(m, n, vs[k])
    ensures PackInv(s, m0, n, vs, k + 1, body + Added(m, vs[k]))
  {
    EncRepeatStep(s.elem, vs, k);
    if m.cur.Some? {
      var e := Enc(s.elem, vs[k]);
      if e.Some? {
        JoinMoves(body, e.value, EncRepeat(s.elem, vs[k + 1..]));
        assert m0.out + Junk(LengthBytes(s)) + body + e.value == m0.out + Junk(LengthBytes(s)) + (body + e.value);
      }
    } else {
      assert |vs| > s.size[0].hi;
    }
  }

  lemma PackStepFields(s: Schema, fields: seq<Schema>, m0: Machine, m: Machine, vs: seq<Value>, k: nat,
                       body: Bytes, n: Machine)
    requires m0.mode.Packing? && !Failed(m0) && !Failed(m) && k < |vs|
    requires (s.Record? && fields == s.fields) || (s.Switch? && m.parent == Some(Record(fields)))
    requires PackInv(s, m0, m, vs, k, body) && Packed(m, n, vs[k])
    ensures PackInv(s, m0, n, vs, k + 1, body + Added(m, vs[k]))
  {
    EncAllStep(fields, vs, k);
    if m.cur.Some? {
      var e := Enc(fields[k], vs[k]);
      if e.Some? {
        JoinMoves(body, e.value, EncAll(fields[k + 1..], vs[k + 1..]));
        assert m0.out + Junk(0) + body + e.value == m0.out + Junk(0) + (body + e.value);
      }
    }
  }

  lemma PackStepKey(s: Schema, m0: Machine, m: Machine, vs: seq<Value>, n: Machine)
    requires s.Switch? && m0.mode.Packing? && !Failed(m0) && !Failed(m) && vs != []
    requires m.parent == Some(s)
    requires PackInv(s, m0, m, vs, 0, []) && Packed(m, n, vs[0])
    ensures PackInv(s, m0, n, vs, 1, [] + Added(m, vs[0]))
  {
    var e := Enc(s.key, vs[0]);
    KeySelects(s, vs);
    if e.Some? {
      KeyAppends(s, m0.out, m, e.value);
      assert [] + e.value == e.value;
      assert vs[1..] == vs[1..][0..];
      var chosen := Selected(s.cases, s.other, e.value);
      if chosen.Some? { assert ([s.key] + chosen.value)[1..] == chosen.value; }
    }
  }

  lemma KeySelects(s: Schema, vs: seq<Value>)
    requires s.Switch? && vs != []
    ensures Enc(s.key, vs[0]).None? ==> Enc(s, ListV(vs)).None?
    ensures Enc(s.key, vs[0]).Some? ==>
              var chosen := Selected(s.cases, s.other, Enc(s.key, vs[0]).value);
              Enc(s, ListV(vs))
              == if chosen.None? then None else Join(Enc(s.key, vs[0]), EncAll(chosen.value, vs[1..]))
  {
    assert Enc(s, ListV(vs)) == EncSwitch(s, ListV(vs));
  }

  /** The machine once a switch's key has been passed. */
  function KeyPassed(m: Machine, s: Schema, key: Bytes): Machine
    requires s.Switch?
  {
    var done := m.(index := 1, cur := None);
    var chosen := Selected(s.cases, s.other, key);
    if chosen.None? then done.(rangeError := true)
    else
      var fields := [s.key] + chosen.value;
      done.(parent := Some(Record(fields)), num := |fields|, cur := if 1 < |fields| then Some(fields[1]) else None)
  }

  /** advance() after the key reads it back from the buffer and picks its case. */
  lemma KeyAppends(s: Schema, base: Bytes, m: Machine, key: Bytes)
    requires s.Switch? && m.mode.Packing? && m.pushMark == |base| && m.out == base + Junk(0) + []
    requires m.parent == Some(s) && m.num == 1 && m.index == 0
    ensures Advance(m.(out := m.out + key)) == KeyPassed(m.(out := base + Junk(0) + key), s, key)
  {
    var out := base + Junk(0) + key;
    assert m.out + key == out;
    assert Slice(out, m.pushMark, |out|) == key;
  }

  /** pop() completes the record, or notices what is missing. */
  lemma PackCloses(m0: Machine, m: Machine, vs: seq<Value>, body: Bytes)
    requires m0.mode.Packing? && m0.cur.Some? && Ready(m0)
    requires PackInv(m0.cur.value, m0, m, vs, |vs|, body)
    ensures Packed(m0, Pop(m), ListV(vs))
  {
    var s := m0.cur.value;
    if Failed(m) { PopKeepsErrors(m); }
    else {
      PackTotal(s, m0, m, vs, body);
      if Incomplete(m) { PopReports(m); } else { PackLands(s, m0, m, body); }
    }
  }

  predicate Incomplete(m: Machine)
    requires m.parent.Some?
  {
    (m.cur.Some? && m.num >= 0) || !CountAllowed(m.parent.value, m.index)
  }

  lemma PopKeepsErrors(m: Machine)
    requires Failed(m) && m.mode.Packing?
    ensures Failed(Pop(m)) && Pop(m).mode == m.mode
  {
  }

  lemma PopReports(m: Machine)
    requires m.stack != [] && m.parent.Some? && m.mode.Packing? && Incomplete(m)
    ensures Failed(Pop(m)) && Pop(m).mode == m.mode
  {
  }

  /** A record's bytes with its length in front, unless the length does not fit. */
  function Framed(l: nat, body: Bytes): Option<Bytes> {
    if l == 2 && |body| >= Pow256(2) then None else Some(Le(|body| % Pow256(l), l) + body)
  }

  lemma FramedBare(body: Bytes)
    ensures Framed(0, body) == Some(body)
  {
    assert Le(|body| % Pow256(0), 0) + body == body;
  }

  /** The encoding of the list once all of its items are packed. */
  lemma PackTotal(s: Schema, m0: Machine, m: Machine, vs: seq<Value>, body: Bytes)
    requires Legal(s) && PackInside(s, m0, m, body) && Unpacked(s, m, vs, body) && m.index == |vs|
    ensures Enc(s, ListV(vs)) == if Incomplete(m) then None else Framed(LengthBytes(s), body)
  {
    if s.Array? { PackTotalArray(s, m, vs, body); }
    else {
      FramedBare(body);
      if s.Record? || m.parent != Some(s) { PackTotalFields(s, m.parent.value.fields, m, vs, body); }
      else { assert Enc(s, ListV(vs)) == EncSwitch(s, ListV(vs)); }
    }
  }

  lemma PackTotalArray(s: Schema, m: Machine, vs: seq<Value>, body: Bytes)
    requires s.Array? && Legal(s) && PackInCount(m, s) && m.index == |vs|
    requires EncRepeat(s.elem, vs) == Join(Some(body), EncRepeat(s.elem, vs[m.index..]))
    ensures Enc(s, ListV(vs)) == if Incomplete(m) then None else Framed(LengthBytes(s), body)
  {
    assert vs[|vs|..] == [] && body + [] == body;
    assert Enc(s, ListV(vs)) == EncArray(s, ListV(vs));
    if LengthBytes(s) == 0 { FramedBare(body); FramedLength(0, body); } else { FramedLength(2, body); }
    if m.num >= 0 { assert m.cur.Some? <==> |vs| < s.size[0].lo; }
  }

  lemma FramedLength(l: nat, body: Bytes)
    ensures |body| < Pow256(l) ==> Le(|body| % Pow256(l), l) == Le(|body|, l)
    ensures l == 0 ==> Le(|body|, l) == []
  {
    if |body| < Pow256(l) { ModOf(|body|, Pow256(l)); }
  }

  lemma PackTotalFields(s: Schema, fields: seq<Schema>, m: Machine, vs: seq<Value>, body: Bytes)
    requires InFields(m, fields) && m.index == |vs|
    requires Enc(s, ListV(vs)) == Join(Some(body), EncAll(fields[m.index..], vs[m.index..]))
    ensures Enc(s, ListV(vs)) == if Incomplete(m) then None else Some(body)
  {
    assert vs[|vs|..] == [] && body + [] == body;
    if m.index == |fields| { assert fields[m.index..] == []; }
  }

  /** Filling in a reserved length prefix. */
  lemma Fill(base: Bytes, l: nat, body: Bytes, prefix: Bytes)
    requires |prefix| == l
    ensures var out := base + Junk(l) + body;
            |out| - |base| - l == |body|
            && out[..|base|] + prefix + out[|base| + l..] == base + (prefix + body)
  {
    var out := base + Junk(l) + body;
    assert out[..|base|] == base && out[|base| + l..] == body;
    assert base + prefix + body == base + (prefix + body);
  }

  /** A complete record replaces the reserved prefix by its length and is, as a whole,
      appended to what was there before. */
  lemma PackLands(s: Schema, m0: Machine, m: Machine, body: Bytes)
    requires m0.mode.Packing? && m0.cur == Some(s) && m0.num == NumOf(m0.parent) && !Failed(m0) && !Failed(m)
    requires PackInside(s, m0, m, body) && !Incomplete(m)
    ensures var e := Framed(LengthBytes(s), body);
            if e.None? then Failed(Pop(m)) && Pop(m).mode == m.mode
            else Pop(m) == Advance(m0.(out := m0.out + e.value))
  {
    var within := m.parent.value;
    assert LengthBytes(within) == LengthBytes(s);
    var e := Framed(LengthBytes(s), body);
    ClosesRecord(m, within, m0.out, body);
    var left := Leave(ClosePrefix(m, within), within);
    assert Pop(m) == Advance(left);
    AdvanceKeepsErrors(left);
    if e.Some? {
      LeaveRestores(ClosePrefix(m, within), m0.(out := m0.out + e.value), within);
      AdvanceIgnoresCur(m0.(out := m0.out + e.value), Some(within));
    }
  }

  lemma ClosesPrefixed(m: Machine, s: Schema, base: Bytes, body: Bytes)
    requires m.mode.Packing? && LengthBytes(s) == 2
    requires m.pushMark == |base| && m.out == base + Junk(2) + body
    ensures var e := Framed(2, body);
            if e.None? then ClosePrefix(m, s) == m.(rangeError := true, out := ClosePrefix(m, s).out)
            else ClosePrefix(m, s) == m.(out := base + e.value)
  {
    hide Le, LengthBytes, Pow256, Junk;
    Fill(base, 2, body, Le(|body| % Pow256(2), 2));
  }

  lemma ClosesRecord(m: Machine, s: Schema, base: Bytes, body: Bytes)
    requires m.mode.Packing? && LengthBytes(s) in {0, 2}
    requires m.pushMark == |base| && m.out == base + Junk(LengthBytes(s)) + body
    ensures var e := Framed(LengthBytes(s), body);
            if e.None? then ClosePrefix(m, s) == m.(rangeError := true, out := ClosePrefix(m, s).out)
            else ClosePrefix(m, s) == m.(out := base + e.value)
  {
    if LengthBytes(s) == 0 {
      hide LengthBytes, Framed;
      FramedBare(body);
      assert base + Junk(0) + body == base + body;
    } else {
      hide LengthBytes, Framed, ClosePrefix;
      ClosesPrefixed(m, s, base, body);
    }
  }

  lemma LeaveRestores(m: Machine, m0: Machine, within: Schema)
    requires m.stack == [Frame(m0.parent, m0.index, m0.pushMark, m0.popMark)] + m0.stack
    requires m.mode == m0.mode && m.src == m0.src && m.p == m0.p && m.out == m0.out
    requires m.packError == m0.packError && m.rangeError == m0.rangeError && m0.num == NumOf(m0.parent)
    ensures Leave(m, within) == m0.(cur := Some(within))
  {
    assert m.stack[1..] == m0.stack;
  }
}
