/** The state of a DCPacker session and what each of its elementary operations does
    to it, as functions on that state. DcPacker implements them in place. */
module DcMachine {
  import opened Common
  import opened DcBytes
  import opened DcSchema

  datatype Mode = Packing | Unpacking

  /** A StackElement: what push() saves of the enclosing record. */
  datatype Frame = Frame(parent: Option<Schema>, index: nat, pushMark: nat, popMark: nat)

  datatype Machine = Machine(
    mode: Mode,
    out: Bytes,              // _pack_data
    src: Bytes,              // _unpack_data
    p: nat,                  // _unpack_p
    stack: seq<Frame>,
    cur: Option<Schema>,     // _current_field
    parent: Option<Schema>,  // _current_parent
    index: nat,              // _current_field_index
    pushMark: nat,
    popMark: nat,
    num: int,                // _num_nested_fields, -1 when it is not known
    packError: bool,
    rangeError: bool)

  predicate Failed(m: Machine) { m.packError || m.rangeError }

  function Begin(mode: Mode, root: Schema, src: Bytes): Machine {
    Machine(mode, [], src, 0, [], Some(root), None, 0, 0, 0, 0, false, false)
  }

  /** end_pack() and end_unpack(): anything left open is an error. */
  function End(m: Machine): Machine {
    m.(packError := m.packError || m.stack != [] || m.cur.Some? || m.parent.Some?)
  }

  /* ---- The interface that parameters present to the packer ---- */

  function NumNested(s: Schema): int {
    match s
    case Num(_, _, _) => -1
    case Text(_, _) => -1
    case Array(_, size) => if OneValue(size) then size[0].lo else -1
    case Record(fields) => |fields|
    case Switch(_, _, _) => 1
  }

  function NumOf(parent: Option<Schema>): int {
    if parent.None? then 0 else NumNested(parent.value)
  }

  function NestedField(s: Schema, i: nat): Option<Schema> {
    match s
    case Num(_, _, _) => None
    case Text(_, _) => Some(Num(1, false, []))
    case Array(elem, _) => Some(elem)
    case Record(fields) => if i < |fields| then Some(fields[i]) else None
    case Switch(key, _, _) => Some(key)
  }

  /** calc_num_nested_fields; elements of a legal array have a positive size. */
  function CalcNested(s: Schema, length: nat): int {
    match s
    case Text(_, _) => length
    case Array(elem, _) =>
      if FixedSize(elem).None? then -1
      else if FixedSize(elem).value == 0 then 0
      else length / FixedSize(elem).value
    case _ => 0
  }

  predicate CountAllowed(s: Schema, count: nat) {
    s.Array? ==> InRange(s.size, count)
  }

  /* ---- advance, push, pop ---- */

  function Slice(b: Bytes, lo: nat, hi: nat): Bytes {
    if lo <= hi <= |b| then b[lo..hi] else []
  }

  /** handle_switch(): the key has just been passed, so the case it selects takes
      the place of the switch and its fields appear. */
  function HandleSwitch(m: Machine, s: Schema): Machine
    requires s.Switch?
  {
    var key := if m.mode.Packing? then Slice(m.out, m.pushMark, |m.out|) else Slice(m.src, m.pushMark, m.p);
    var chosen := Selected(s.cases, s.other, key);
    if chosen.None? then m.(rangeError := true)
    else
      var fields := [s.key] + chosen.value;
      m.(parent := Some(Record(fields)),
         num := |fields|,
         cur := if m.index < |fields| then Some(fields[m.index]) else m.cur)
  }

  function Advance(m: Machine): Machine {
    var i := m.index + 1;
    if m.num >= 0 && i >= m.num then
      var done := m.(index := i, cur := None);
      if m.parent.Some? && m.parent.value.Switch? then HandleSwitch(done, m.parent.value) else done
    else if m.popMark != 0 && m.p >= m.popMark then m.(index := i, cur := None)
    else m.(index := i, cur := if m.parent.Some? then NestedField(m.parent.value, i) else None)
  }

  function Junk(n: nat): Bytes {
    seq(n, _ => 0)
  }

  /** The part of push() that reserves or reads the length prefix. */
  function OpenPrefix(m: Machine, s: Schema): Machine {
    var l := LengthBytes(s);
    if m.mode.Packing? then
      m.(pushMark := |m.out|, popMark := 0, out := m.out + Junk(l), num := NumNested(s))
    else
      var n := m.(pushMark := m.p, popMark := 0, num := NumNested(s));
      if l == 0 then n
      else if m.p + l > |m.src| then n.(packError := true)
      else
        var length := FromLe(m.src[m.p..m.p + l]);
        n.(p := m.p + l, popMark := m.p + l + length,
           num := if length == 0 then 0 else CalcNested(s, length))
  }

  function Push(m: Machine): Machine {
    if m.cur.None? || m.cur.value.Num? then m.(packError := true)
    else
      var s := m.cur.value;
      var n := OpenPrefix(m.(stack := [Frame(m.parent, m.index, m.pushMark, m.popMark)] + m.stack,
                             parent := Some(s)), s);
      n.(index := 0, cur := if n.num >= 0 && 0 >= n.num then None else NestedField(s, 0))
  }

  /** The part of pop() that goes back and fills in the length prefix. */
  function ClosePrefix(m: Machine, s: Schema): Machine {
    var l := LengthBytes(s);
    if m.mode.Unpacking? || l == 0 || m.pushMark + l > |m.out| then m
    else
      var length := |m.out| - m.pushMark - l;
      m.(rangeError := m.rangeError || (l == 2 && length >= Pow256(2)),
         out := m.out[..m.pushMark] + Le(length % Pow256(l), l) + m.out[m.pushMark + l..])
  }

  /** The part of pop() that returns to the enclosing record. */
  function Leave(m: Machine, s: Schema): Machine
    requires m.stack != []
  {
    var f := m.stack[0];
    m.(cur := Some(s), parent := f.parent, index := f.index, pushMark := f.pushMark, popMark := f.popMark,
       num := NumOf(f.parent), stack := m.stack[1..])
  }

  function Pop(m: Machine): Machine {
    var early := m.cur.Some? && m.num >= 0;
    var missed := m.mode.Unpacking? && m.popMark != 0 && m.p != m.popMark;
    var n := m.(packError := m.packError || early || missed);
    if n.stack == [] || n.parent.None? then Advance(n.(packError := true))
    else
      var s := n.parent.value;
      Advance(Leave(ClosePrefix(n.(packError := n.packError || !CountAllowed(s, n.index)), s), s))
  }

  /* ---- Leaves ---- */

  /** pack_int64 / pack_uint64 of an integer field. */
  function PackNum(m: Machine, v: int): Machine
    requires m.cur.Some? && m.cur.value.Num?
  {
    var s := m.cur.value;
    Advance(m.(rangeError := m.rangeError || !InWidth(v, s.width, s.signed) || !InRange(s.limits, v),
               out := m.out + Le(v % Pow256(s.width), s.width)))
  }

  /** pack_string / pack_blob of a text field; only the 2-byte length is checked. */
  function PackText(m: Machine, text: Bytes): Machine
    requires m.cur.Some? && m.cur.value.Text?
  {
    var s := m.cur.value;
    var l := LengthBytes(s);
    Advance(m.(rangeError := m.rangeError || !InRange(s.lengths, |text|)
                             || (s.prefix == 2 && |text| >= Pow256(2)),
               out := m.out + Le(|text| % Pow256(l), l) + text))
  }

  /** pack_literal_value(): bytes that are taken to be the current field's encoding. */
  function PackLiteral(m: Machine, data: Bytes): Machine {
    Advance(m.(out := m.out + data))
  }

  /** Any pack_*() that the current field does not accept. */
  function Refuse(m: Machine): Machine {
    Advance(m.(packError := true))
  }

  /* The three ways of passing over one field of the unpack buffer. Each returns
     None when the field cannot do it alone and its nested fields must be walked,
     and otherwise the state before advance(). */

  datatype Reader = Reading | Skipping | Validating

  function ReadNum(m: Machine, s: Schema): (Machine, Value)
    requires s.Num?
  {
    if m.p + s.width > |m.src| then (m.(packError := true), IntV(0))
    else
      var n := FromLe(m.src[m.p..m.p + s.width]);
      var i := if s.signed then Signed(n, s.width) else n;
      (m.(p := m.p + s.width, rangeError := m.rangeError || !InRange(s.limits, i)), IntV(i))
  }

  function ReadText(m: Machine, s: Schema): (Machine, Value)
    requires s.Text?
  {
    var l := LengthBytes(s);
    if m.p + l > |m.src| then (m.(packError := true), TextV([]))
    else
      var n := if l == 0 && OneValue(s.lengths) then s.lengths[0].lo else FromLe(m.src[m.p..m.p + l]);
      var k := m.(p := m.p + l, rangeError := m.rangeError || !InRange(s.lengths, n));
      if n < 0 || k.p + n > |m.src| then (k.(packError := true), TextV([]))
      else (k.(p := k.p + n), TextV(m.src[k.p..k.p + n]))
  }

  /** unpack_skip of DCSimpleParameter and of DCPackerInterface. A text field whose
      prefix is cut off declines; an array in the same position reports the error. */
  function SkipField(m: Machine, s: Schema): Option<Machine> {
    var l := LengthBytes(s);
    if FixedSize(s).Some? then Some(Past(m, m.p + FixedSize(s).value))
    else if !s.Text? && !s.Array? then None
    else if m.p + l > |m.src| then (if s.Text? then None else Some(m.(packError := true)))
    else Some(Past(m, m.p + l + FromLe(m.src[m.p..m.p + l])))
  }

  function Past(m: Machine, p: nat): Machine {
    m.(p := p, packError := m.packError || p > |m.src|)
  }

  /** unpack_validate of DCSimpleParameter and of DCPackerInterface. */
  function ValidateField(m: Machine, s: Schema): Option<Machine> {
    if !HasLimits(s) then SkipField(m, s)
    else if s.Num? then Some(ReadNum(m, s).0)
    else if s.Text? then
      var l := LengthBytes(s);
      if FixedSize(s).Some? then Some(m.(p := m.p + FixedSize(s).value))
      else if m.p + l > |m.src| then Some(m.(packError := true))
      else
        var n := FromLe(m.src[m.p..m.p + l]);
        Some(m.(p := m.p + l + n, rangeError := m.rangeError || !InRange(s.lengths, n)))
    else None
  }

  function PassField(m: Machine, s: Schema, reader: Reader): Option<(Machine, Value)> {
    match reader
    case Reading => if s.Num? then Some(ReadNum(m, s)) else if s.Text? then Some(ReadText(m, s)) else None
    case Skipping => if SkipField(m, s).Some? then Some((SkipField(m, s).value, ListV([]))) else None
    case Validating => if ValidateField(m, s).Some? then Some((ValidateField(m, s).value, ListV([]))) else None
  }
}
