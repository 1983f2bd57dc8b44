/** DCPacker: the cursor machine that packs and unpacks one field, nested field by
    nested field. Its elementary operations implement DcMachine in place, and its
    drivers are proved to compute exactly the wire format of DcSchema. */
module DcPacker {
  import opened Common
  import opened DcBytes
  import opened DcSchema
  import Spec = DcMachine
  import opened DcCodec
  import opened DcReaders
  import opened DcAudit
  import opened DcWalk
  import opened DcPacking

  class DCPacker {
    var mode: Spec.Mode
    var out: Bytes
    var src: Bytes
    var p: nat
    var stack: seq<Spec.Frame>
    var cur: Option<Schema>
    var parent: Option<Schema>
    var index: nat
    var pushMark: nat
    var popMark: nat
    var num: int
    var packError: bool
    var rangeError: bool

    function State(): Spec.Machine
      reads this
    {
      Spec.Machine(mode, out, src, p, stack, cur, parent, index, pushMark, popMark, num, packError, rangeError)
    }

    constructor (mode: Spec.Mode, root: Schema, src: Bytes)
      ensures State() == Spec.Begin(mode, root, src)
    {
      this.mode, this.src, cur, parent := mode, src, Some(root), None;
      out, p, stack := [], 0, [];
      index, pushMark, popMark, num := 0, 0, 0, 0;
      packError, rangeError := false, false;
    }

    method End() returns (ok: bool)
      modifies this
      ensures State() == Spec.End(old(State()))
      ensures ok == !Spec.Failed(State())
    {
      if stack != [] || cur.Some? || parent.Some? {
        packError := true;
      }
      ok := !packError && !rangeError;
    }

    predicate MoreNested()
      reads this
    {
      cur.Some? && !packError
    }

    method HandleSwitch(s: Schema)
      requires s.Switch?
      modifies this
      ensures State() == Spec.HandleSwitch(old(State()), s)
    {
      var key := if mode.Packing? then Spec.Slice(out, pushMark, |out|) else Spec.Slice(src, pushMark, p);
      var chosen := Selected(s.cases, s.other, key);
      if chosen.None? {
        rangeError := true;
        return;
      }
      var fields := [s.key] + chosen.value;
      parent := Some(Record(fields));
      num := |fields|;
      if index < num {
        cur := Some(fields[index]);
      }
    }

    method Advance()
      modifies this
      ensures State() == Spec.Advance(old(State()))
    {
      index := index + 1;
      if num >= 0 && index >= num {
        cur := None;
        if parent.Some? && parent.value.Switch? {
          HandleSwitch(parent.value);
        }
      } else if popMark != 0 && p >= popMark {
        cur := None;
      } else {
        cur := if parent.Some? then Spec.NestedField(parent.value, index) else None;
      }
    }

    /** Reserves or reads the length prefix of the record just entered. */
    method OpenPrefix(s: Schema)
      modifies this
      ensures State() == Spec.OpenPrefix(old(State()), s)
    {
      hide LengthBytes, FromLe, Spec.NumNested, Spec.CalcNested, Spec.Junk;
      var l := LengthBytes(s);
      num := Spec.NumNested(s);
      popMark := 0;
      if mode.Packing? {
        pushMark := |out|;
        out := out + Spec.Junk(l);
      } else {
        pushMark := p;
        if l != 0 {
          if p + l > |src| {
            packError := true;
          } else {
            var length := FromLe(src[p..p + l]);
            p := p + l;
            popMark := p + length;
            num := if length == 0 then 0 else Spec.CalcNested(s, length);
          }
        }
      }
    }

    method Push()
      modifies this
      ensures State() == Spec.Push(old(State()))
    {
      if cur.None? || cur.value.Num? {
        packError := true;
      } else {
        stack := [Spec.Frame(parent, index, pushMark, popMark)] + stack;
        parent := cur;
        OpenPrefix(parent.value);
        index := 0;
        cur := if num >= 0 && index >= num then None else Spec.NestedField(parent.value, 0);
      }
    }

    /** Goes back and fills in the length prefix of the record being left. */
    method ClosePrefix(s: Schema)
      modifies this
      ensures State() == Spec.ClosePrefix(old(State()), s)
    {
      if mode.Packing? {
        var l := LengthBytes(s);
        if l != 0 && pushMark + l <= |out| {
          var length := |out| - pushMark - l;
          if l == 2 && length >= Pow256(2) {
            rangeError := true;
          }
          out := out[..pushMark] + Le(length % Pow256(l), l) + out[pushMark + l..];
        }
      }
    }

    method Pop()
      modifies this
      ensures State() == Spec.Pop(old(State()))
    {
      if cur.Some? && num >= 0 {
        packError := true;
      } else if mode.Unpacking? && popMark != 0 && p != popMark {
        packError := true;
      }
      if stack == [] || parent.None? {
        packError := true;
      } else {
        if !Spec.CountAllowed(parent.value, index) {
          packError := true;
        }
        ClosePrefix(parent.value);
        Leave(parent.value);
      }
      Advance();
    }

    /** Returns to the record that was current before the matching push(). */
    method Leave(s: Schema)
      requires stack != []
      modifies this
      ensures State() == Spec.Leave(old(State()), s)
    {
      cur := Some(s);
      parent, index := stack[0].parent, stack[0].index;
      pushMark, popMark := stack[0].pushMark, stack[0].popMark;
      num := Spec.NumOf(parent);
      stack := stack[1..];
    }

    method PackNum(v: int)
      requires cur.Some? && cur.value.Num?
      modifies this
      ensures State() == Spec.PackNum(old(State()), v)
    {
      var s := cur.value;
      if !InRange(s.limits, v) { rangeError := true; }
      if !InWidth(v, s.width, s.signed) { rangeError := true; }
      out := out + Le(v % Pow256(s.width), s.width);
      Advance();
    }

    method PackText(text: Bytes)
      requires cur.Some? && cur.value.Text?
      modifies this
      ensures State() == Spec.PackText(old(State()), text)
    {
      var s := cur.value;
      if !InRange(s.lengths, |text|) { rangeError := true; }
      if s.prefix == 2 && |text| >= Pow256(2) { rangeError := true; }
      var l := LengthBytes(s);
      if l != 0 {
        out := out + Le(|text| % Pow256(l), l);
      } else {
        assert out == out + Le(|text| % Pow256(l), l);
      }
      out := out + text;
      Advance();
    }

    method PackLiteral(data: Bytes)
      requires cur.Some?
      modifies this
      ensures State() == Spec.PackLiteral(old(State()), data)
    {
      out := out + data;
      Advance();
    }

    /** Any pack_*() that the current field does not accept. */
    method Refuse()
      modifies this
      ensures State() == Spec.Refuse(old(State()))
    {
      packError := true;
      Advance();
    }

    /** Packs a whole value through push(), pack_*() and pop(). */
    method Pack(v: Value)
      requires mode.Packing? && Ready(State()) && Storable(v)
      modifies this
      ensures Packed(old(State()), State(), v)
      decreases v
    {
      ghost var m0 := State();
      if cur.None? {
        packError := true;
      } else if cur.value.Num? {
        NumPacked(m0, v);
        if v.IntV? { PackNum(v.i); } else { Refuse(); }
      } else if cur.value.Text? {
        TextPacked(m0, v);
        if v.TextV? { PackText(v.text); } else { Refuse(); }
      } else if !v.ListV? {
        RefusedPacked(m0, v);
        Refuse();
      } else {
        ghost var s := cur.value;
        PackOpens(m0, v.items);
        Push();
        ghost var body: Bytes := [];
        for i := 0 to |v.items|
          invariant mode.Packing? && PackInv(s, m0, State(), v.items, i, body)
        {
          ghost var m := State();
          PackChildReady(s, m0, m, v.items, i, body);
          Pack(v.items[i]);
          PackStep(s, m0, m, v.items, i, body, State());
          body := body + Added(m, v.items[i]);
        }
        PackCloses(m0, State(), v.items, body);
        Pop();
      }
    }

    predicate Handles(reader: Spec.Reader)
      reads this
    {
      cur.Some? && Spec.PassField(State(), cur.value, reader).Some?
    }

    /** Passes over the current field without walking into it. */
    method PassField(reader: Spec.Reader) returns (v: Value)
      requires Handles(reader)
      modifies this
      ensures State() == Spec.Advance(Spec.PassField(old(State()), old(cur.value), reader).value.0)
      ensures v == Spec.PassField(old(State()), old(cur.value), reader).value.1
    {
      hide Spec.PassField;
      PassMovesCursor(State(), cur.value, reader);
      var (m, value) := Spec.PassField(State(), cur.value, reader).value;
      v := value;
      p, packError, rangeError := m.p, m.packError, m.rangeError;
      Advance();
    }

    /** unpack_skip(), unpack_validate(), and unpacking a whole value: one walk that
        differs in how single fields are passed. */
    method Walk(reader: Spec.Reader) returns (v: Value)
      requires mode.Unpacking? && MoreNested() && Legal(cur.value)
      modifies this
      ensures Walked(reader, old(State()), State(), v)
      ensures old(Handles(reader)) ==> State() == Spec.Advance(Spec.PassField(old(State()), old(cur.value), reader).value.0)
      decreases cur.value
    {
      ghost var m0 := State();
      ghost var s := cur.value;
      if Handles(reader) {
        FieldPasses(m0, s, reader);
        v := PassField(reader);
        var n := Spec.PassField(m0, s, reader).value.0;
        FieldWalked(reader, m0, n, v);
      } else {
        PushOpens(reader, m0);
        Push();
        var items: seq<Value> := [];
        ghost var seen: seq<Value> := [];
        while MoreNested()
          invariant mode.Unpacking? && LoopInv(reader, s, m0, State(), items, seen)
          decreases !packError, AtKey(State()), Fuel(State())
        {
          ghost var m := State();
          ChildIsKnown(s, m0, m);
          var x := Walk(reader);
          StepKeeps(reader, s, m0, m, items, seen, State(), x);
          items, seen := items + [x], seen + [Seen(reader, m, x)];
        }
        PopCloses(reader, m0, State(), items, seen);
        Pop();
        v := ListV(items);
      }
    }
  }

  /** begin_pack(), a whole value, end_pack(): it succeeds exactly on the values that
      fit the field, and leaves exactly their wire format. */
  method PackField(root: Schema, v: Value) returns (ok: bool, bytes: Bytes)
    requires Legal(root) && Storable(v)
    ensures ok <==> Enc(root, v).Some?
    ensures ok ==> Some(bytes) == Enc(root, v)
  {
    var packer := new DCPacker(Spec.Packing, root, []);
    packer.Pack(v);
    ok := packer.End();
    bytes := packer.out;
    assert Enc(root, v).Some? ==> [] + Enc(root, v).value == Enc(root, v).value;
  }

  /** A session in which one root field was walked. */
  lemma RootWalked(reader: Spec.Reader, root: Schema, bytes: Bytes, m: Spec.Machine, v: Value)
    requires Walked(reader, Spec.Begin(Spec.Unpacking, root, bytes), m, v)
    ensures var d := Dec(View(reader, root), bytes);
            && (d.Some? ==> !Spec.Failed(Spec.End(m)) && m.p == d.value.used
                            && (reader.Reading? ==> v == d.value.value))
            && (d.None? ==> Spec.Failed(Spec.End(m)) || (!reader.Reading? && m.p > |bytes|))
  {
    assert bytes[0..] == bytes;
  }

  /** begin_unpack(), a whole value, end_unpack(). */
  method UnpackField(root: Schema, bytes: Bytes) returns (ok: bool, v: Value, used: nat)
    requires Legal(root)
    ensures ok <==> Dec(root, bytes).Some?
    ensures ok ==> Dec(root, bytes) == Some(Parsed(v, used))
  {
    var packer := new DCPacker(Spec.Unpacking, root, bytes);
    v := packer.Walk(Spec.Reading);
    RootWalked(Spec.Reading, root, bytes, packer.State(), v);
    ReadingSeesAll(root);
    ok := packer.End();
    used := packer.p;
  }

  /** unpack_skip() of a whole field: on every record that unpacks, it ends where
      unpacking ends, and it stays within the buffer exactly on the records that its view
      of the field accepts. */
  method SkipField(root: Schema, bytes: Bytes) returns (ok: bool, used: nat)
    requires Legal(root)
    ensures Dec(root, bytes).Some? ==> ok && used == Dec(root, bytes).value.used
    ensures ok && used <= |bytes| <==> Dec(View(Spec.Skipping, root), bytes).Some?
    ensures ok && used <= |bytes| ==> used == Dec(View(Spec.Skipping, root), bytes).value.used
  {
    var packer := new DCPacker(Spec.Unpacking, root, bytes);
    var v := packer.Walk(Spec.Skipping);
    RootWalked(Spec.Skipping, root, bytes, packer.State(), v);
    if Dec(root, bytes).Some? { ViewAccepts(Spec.Skipping, root, bytes); }
    ok := packer.End();
    used := packer.p;
  }

  /** DCField::validate_ranges(): accepts every complete encoding of a value that fits
      and, on an auditable schema, nothing else. On any schema it accepts exactly the
      byte strings of what it takes the field for. */
  method ValidateRanges(root: Schema, bytes: Bytes) returns (ok: bool)
    requires Legal(root)
    ensures ok <==> Validates(root, bytes)
    ensures IsEncoding(root, bytes) ==> ok
    ensures Auditable(root) && ok ==> IsEncoding(root, bytes)
    ensures NeverReached(root) && ok ==> IsEncoding(root, bytes)
  {
    var packer := new DCPacker(Spec.Unpacking, root, bytes);
    var v := packer.Walk(Spec.Validating);
    RootWalked(Spec.Validating, root, bytes, packer.State(), v);
    var clean := packer.End();
    ok := clean && packer.p == |bytes|;
    if IsEncoding(root, bytes) { EncodingsValidate(root, bytes); }
    if Auditable(root) { AuditableValidatesOnlyEncodings(root); }
    ExactIffNeverReached(root);
  }
}
