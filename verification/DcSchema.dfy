/** The parameter trees of a .dc file, the values they describe, and the wire
    format as one recursive encoder and decoder: what one field's bytes are,
    independently of the stack machine that produces them (see DcPacker). */
module DcSchema {
  import opened Common
  import opened DcBytes

  datatype Interval = Interval(lo: int, hi: int)

  /** A DCNumericRange: no interval at all means that every number is legal. */
  predicate InRange(limits: seq<Interval>, x: int) {
    limits == [] || exists i :: 0 <= i < |limits| && limits[i].lo <= x <= limits[i].hi
  }

  predicate OneValue(limits: seq<Interval>) {
    |limits| == 1 && limits[0].lo == limits[0].hi
  }

  /** `Num` is a DCSimpleParameter of integer type with divisor 1 and no modulus,
      `Text` one of type string, blob or blob32, `Record` a DCClassParameter or
      DCAtomicField, and a `Case` one packed key value of a DCSwitch together with
      the fields that follow the key. */
  datatype Schema =
    | Num(width: nat, signed: bool, limits: seq<Interval>)
    | Text(prefix: nat, lengths: seq<Interval>)
    | Array(elem: Schema, size: seq<Interval>)
    | Record(fields: seq<Schema>)
    | Switch(key: Schema, cases: seq<Case>, other: Otherwise)

  datatype Case = Case(value: Bytes, fields: seq<Schema>)

  datatype Otherwise = NoDefault | Default(fields: seq<Schema>)

  datatype Value = IntV(i: int) | TextV(text: Bytes) | ListV(items: seq<Value>)

  /* ---- What the constructors of the parameter classes compute ---- */

  /** `_num_length_bytes`: the bytes of length prefix of a nested or text field. */
  function LengthBytes(s: Schema): nat {
    match s
    case Num(_, _, _) => 2
    case Text(prefix, lengths) => if OneValue(lengths) then 0 else prefix
    case Array(elem, size) => if OneValue(size) && FixedSize(elem).Some? then 0 else 2
    case Record(_) => 0
    case Switch(_, _, _) => 0
  }

  /** `_has_fixed_byte_size` and `_fixed_byte_size`, as one option. */
  function FixedSize(s: Schema): Option<nat>
    decreases s, 0
  {
    match s
    case Num(width, _, _) => Some(width)
    case Text(_, lengths) =>
      if OneValue(lengths) && lengths[0].lo >= 0 then Some(lengths[0].lo) else None
    case Array(elem, size) =>
      if OneValue(size) && size[0].lo >= 0 && FixedSize(elem).Some?
      then Some(size[0].lo * FixedSize(elem).value) else None
    case Record(fields) => FixedSum(fields)
    case Switch(key, cases, other) =>
      // The first case's size is the expectation that every other case must meet.
      var expected := if cases == [] then Some(0) else Plus(FixedSize(key), FixedSum(cases[0].fields));
      if && FixedSize(key).Some? && expected.Some?
         && (forall i :: 0 <= i < |cases| ==> Plus(FixedSize(key), FixedSum(cases[i].fields)) == expected)
         && (other.Default? ==> Plus(FixedSize(key), FixedSum(other.fields)) == expected)
      then expected else None
  }

  function Plus(a: Option<nat>, b: Option<nat>): Option<nat> {
    if a.Some? && b.Some? then Some(a.value + b.value) else None
  }

  function FixedSum(fields: seq<Schema>): Option<nat>
    decreases fields, 0
  {
    if fields == [] then Some(0) else Plus(FixedSize(fields[0]), FixedSum(fields[1..]))
  }

  /** `_has_range_limits`. */
  predicate HasLimits(s: Schema)
    decreases s, 0
  {
    match s
    case Num(_, _, limits) => limits != []
    case Text(_, lengths) => lengths != []
    case Array(elem, size) => !OneValue(size) || HasLimits(elem)
    case Record(fields) => AnyLimits(fields)
    case Switch(key, cases, other) =>
      || HasLimits(key)
      || (exists i :: 0 <= i < |cases| && AnyLimits(cases[i].fields))
      || (other.Default? && AnyLimits(other.fields))
  }

  predicate AnyLimits(fields: seq<Schema>)
    decreases fields, 0
  {
    fields != [] && (HasLimits(fields[0]) || AnyLimits(fields[1..]))
  }

  /* ---- Schemas the .dc parser can build ---- */

  /** No encoding of the field is empty. */
  predicate Positive(s: Schema)
    decreases s, 0
  {
    match s
    case Num(width, _, _) => width > 0
    case Text(prefix, lengths) => if OneValue(lengths) then lengths[0].lo > 0 else prefix > 0
    case Array(elem, size) => LengthBytes(s) > 0 || (size[0].lo > 0 && Positive(elem))
    case Record(fields) => AnyPositive(fields)
    case Switch(key, cases, other) => Positive(key) && (cases != [] || other.Default?)
  }

  predicate AnyPositive(fields: seq<Schema>)
    decreases fields, 0
  {
    fields != [] && (Positive(fields[0]) || AnyPositive(fields[1..]))
  }

  /** Integer widths and length prefixes that exist, limits that `set_range`
      accepts, and array elements that occupy at least one byte. */
  predicate Legal(s: Schema)
    decreases s, 0
  {
    match s
    case Num(width, _, _) => width in {1, 2, 4, 8}
    case Text(prefix, lengths) =>
      && prefix in {2, 4}
      && forall i :: 0 <= i < |lengths| ==> 0 <= lengths[i].lo <= lengths[i].hi < Pow256(prefix)
    case Array(elem, size) =>
      && Legal(elem) && Positive(elem)
      && forall i :: 0 <= i < |size| ==> 0 <= size[i].lo <= size[i].hi
    case Record(fields) => AllLegal(fields)
    case Switch(key, cases, other) =>
      && Legal(key)
      && (forall i :: 0 <= i < |cases| ==> AllLegal(cases[i].fields))
      && (other.Default? ==> AllLegal(other.fields))
  }

  predicate AllLegal(fields: seq<Schema>)
    decreases fields, 0
  {
    fields == [] || (Legal(fields[0]) && AllLegal(fields[1..]))
  }

  /* ---- The wire format ---- */

  predicate InWidth(v: int, width: nat, signed: bool) {
    if signed then -Pow256(width) <= 2 * v < Pow256(width) else 0 <= v < Pow256(width)
  }

  /** The fields selected by a packed key (`DCSwitch::apply_switch`). */
  function Selected(cases: seq<Case>, other: Otherwise, key: Bytes): (r: Option<seq<Schema>>)
    ensures other.Default? ==> r.Some?
    ensures r.Some? ==>
              || (other.Default? && r.value == other.fields)
              || exists i :: 0 <= i < |cases| && r.value == cases[i].fields
  {
    if cases == [] then (if other.Default? then Some(other.fields) else None)
    else if cases[0].value == key then Some(cases[0].fields)
    else Selected(cases[1..], other, key)
  }

  function Join(a: Option<Bytes>, b: Option<Bytes>): Option<Bytes> {
    if a.Some? && b.Some? then Some(a.value + b.value) else None
  }

  /** The bytes of `v` as a field of type `s`, or None when `v` does not fit it. */
  function Enc(s: Schema, v: Value): Option<Bytes>
    decreases s, 1, 0
  {
    match s
    case Num(_, _, _) => EncNum(s, v)
    case Text(_, _) => EncText(s, v)
    case Array(_, _) => EncArray(s, v)
    case Record(fields) => if v.ListV? then EncAll(fields, v.items) else None
    case Switch(_, _, _) => EncSwitch(s, v)
  }

  function EncNum(s: Schema, v: Value): Option<Bytes>
    requires s.Num?
  {
    if v.IntV? && InWidth(v.i, s.width, s.signed) && InRange(s.limits, v.i)
    then Some(Le(Wrapped(v.i, s.width), s.width)) else None
  }

  function EncText(s: Schema, v: Value): Option<Bytes>
    requires s.Text?
  {
    if v.TextV? && InRange(s.lengths, |v.text|) && |v.text| < Pow256(s.prefix)
    then Some(Le(|v.text|, LengthBytes(s)) + v.text) else None
  }

  function EncArray(s: Schema, v: Value): Option<Bytes>
    requires s.Array?
    decreases s, 0, 0
  {
    if v.ListV? && InRange(s.size, |v.items|) then
      var body := EncRepeat(s.elem, v.items);
      if body.Some? && (LengthBytes(s) == 0 || |body.value| < Pow256(2))
      then Some(Le(|body.value|, LengthBytes(s)) + body.value) else None
    else None
  }

  function EncSwitch(s: Schema, v: Value): Option<Bytes>
    requires s.Switch?
    decreases s, 0, 0
  {
    if v.ListV? && v.items != [] then
      var k := Enc(s.key, v.items[0]);
      if k.Some? then
        var chosen := Selected(s.cases, s.other, k.value);
        if chosen.Some? then Join(k, EncAll(chosen.value, v.items[1..])) else None
      else None
    else None
  }

  function EncAll(fields: seq<Schema>, vs: seq<Value>): Option<Bytes>
    decreases fields, 0, 0
  {
    if fields == [] && vs == [] then Some([])
    else if fields == [] || vs == [] then None
    else Join(Enc(fields[0], vs[0]), EncAll(fields[1..], vs[1..]))
  }

  function EncRepeat(elem: Schema, vs: seq<Value>): Option<Bytes>
    decreases elem, 2, |vs|
  {
    if vs == [] then Some([]) else Join(Enc(elem, vs[0]), EncRepeat(elem, vs[1..]))
  }

  /** The value at the front of `b` and the number of bytes it occupies. */
  function Dec(s: Schema, b: Bytes): (r: Option<Parsed<Value>>)
    ensures r.Some? ==> r.value.used <= |b|
    decreases s, 1, 0
  {
    match s
    case Num(_, _, _) => DecNum(s, b)
    case Text(_, _) => DecText(s, b)
    case Array(_, _) => DecArray(s, b)
    case Record(fields) => Listed(DecAll(fields, b), 0)
    case Switch(_, _, _) => DecSwitch(s, b)
  }

  /** The elements of a record, preceded by `prefix` bytes, as one value. */
  function Listed(r: Option<Parsed<seq<Value>>>, prefix: nat): Option<Parsed<Value>> {
    if r.None? then None else Some(Parsed(ListV(r.value.value), prefix + r.value.used))
  }

  function DecNum(s: Schema, b: Bytes): Option<Parsed<Value>>
    requires s.Num?
  {
    if |b| < s.width then None
    else
      var n := FromLe(b[..s.width]);
      var i := if s.signed then Signed(n, s.width) else n;
      if InRange(s.limits, i) then Some(Parsed(IntV(i), s.width)) else None
  }

  function DecText(s: Schema, b: Bytes): Option<Parsed<Value>>
    requires s.Text?
  {
    var l := LengthBytes(s);
    if |b| < l then None
    else
      var n := if OneValue(s.lengths) then s.lengths[0].lo else FromLe(b[..l]);
      if 0 <= n && InRange(s.lengths, n) && l + n <= |b|
      then Some(Parsed(TextV(b[l..l + n]), l + n)) else None
  }

  function DecArray(s: Schema, b: Bytes): (r: Option<Parsed<Value>>)
    requires s.Array?
    ensures r.Some? ==> r.value.used <= |b|
    decreases s, 0, 0
  {
    var l := LengthBytes(s);
    if |b| < l then None
    else
      var body := if l == 0 then DecCount(s.elem, b, if s.size[0].lo < 0 then 0 else s.size[0].lo)
                  else DecSpan(s.elem, b[l..], FromLe(b[..l]));
      if body.Some? && InRange(s.size, |body.value.value|) then Listed(body, l) else None
  }

  function DecSwitch(s: Schema, b: Bytes): (r: Option<Parsed<Value>>)
    requires s.Switch?
    ensures r.Some? ==> r.value.used <= |b|
    decreases s, 0, 0
  {
    var k := Dec(s.key, b);
    if k.None? then None
    else
      var chosen := Selected(s.cases, s.other, b[..k.value.used]);
      if chosen.None? then None
      else Listed(Cons(k.value, DecAll(chosen.value, b[k.value.used..])), 0)
  }

  function Cons(first: Parsed<Value>, rest: Option<Parsed<seq<Value>>>): Option<Parsed<seq<Value>>> {
    if rest.None? then None
    else Some(Parsed([first.value] + rest.value.value, first.used + rest.value.used))
  }

  function DecAll(fields: seq<Schema>, b: Bytes): (r: Option<Parsed<seq<Value>>>)
    ensures r.Some? ==> r.value.used <= |b|
    decreases fields, 0, 0
  {
    if fields == [] then Some(Parsed([], 0))
    else
      var first := Dec(fields[0], b);
      if first.None? then None
      else Cons(first.value, DecAll(fields[1..], b[first.value.used..]))
  }

  /** Exactly `count` elements: an array without a length prefix. */
  function DecCount(elem: Schema, b: Bytes, count: nat): (r: Option<Parsed<seq<Value>>>)
    ensures r.Some? ==> r.value.used <= |b| && |r.value.value| == count
    decreases elem, 2, count
  {
    if count == 0 then Some(Parsed([], 0))
    else
      var first := Dec(elem, b);
      if first.None? then None
      else Cons(first.value, DecCount(elem, b[first.value.used..], count - 1))
  }

  /** As many elements as it takes to consume exactly `span` bytes. */
  function DecSpan(elem: Schema, b: Bytes, span: nat): (r: Option<Parsed<seq<Value>>>)
    ensures r.Some? ==> r.value.used == span <= |b|
    decreases elem, 2, span
  {
    if span == 0 then Some(Parsed([], 0))
    else
      var first := Dec(elem, b);
      if first.None? || first.value.used == 0 || first.value.used > span then None
      else Cons(first.value, DecSpan(elem, b[first.value.used..], span - first.value.used))
  }

  datatype Parsed<T> = Parsed(value: T, used: nat)
}
