/** The second encoding of a field: BSON documents, and datagrams packed from them. On a
    fragment of the field types packing restores the bytes that were stored. */
module DatabaseCodec {
  import opened Common
  import opened DcBytes
  import opened DcField
  import S = DcSchema
  import Codec = DcCodec

  datatype Bson =
    | Int32(i: int)
    | Int64(i: int)
    | Text(text: Bytes)
    | Binary(data: Bytes)
    | Arr(items: seq<Bson>)
    | Doc(entries: seq<Entry>)

  datatype Entry = Entry(name: string, value: Bson)

  const MAX: nat := 0xFFFF - 2

  /* ---- Storing ---- */

  /** A 64-bit unsigned number is stored as the signed one with the same bits. */
  function StoreNumber(width: nat, signed: bool, i: int): Bson {
    if width == 8 then Int64(if !signed && i >= 0x8000_0000_0000_0000 then i - 0x1_0000_0000_0000_0000 else i)
    else if signed then Int32(i) else Int64(i)
  }

  /** FieldToBson() on an unpacked value; None where it throws. */
  function ToBson(f: Field, v: S.Value): Option<Bson>
    decreases f, 0
  {
    match f
    case Int(width, signed, _) => if v.IntV? then Some(StoreNumber(width, signed, v.i)) else None
    case Str(_) => if v.TextV? then Some(Text(v.text)) else None
    case Blob(_, _) => if v.TextV? then Some(Binary(v.text)) else None
    case IntArray(width, signed) => if v.ListV? then Listed(StoreNumbers(width, signed, v.items)) else None
    case Pairs => if v.ListV? then Listed(StorePairs(v.items)) else None
    case List(elem, _) => if v.ListV? then Listed(ToBsonEach(elem, v.items)) else None
    case Struct(members) => if v.ListV? then Documented(ToBsonAll(members, v.items)) else None
    case Atomic(members) => if v.ListV? then Listed(Values(ToBsonAll(members, v.items))) else None
    case Switch(_, _, _) => None
  }

  function Listed(items: Option<seq<Bson>>): Option<Bson> {
    if items.Some? then Some(Arr(items.value)) else None
  }

  function Documented(entries: Option<seq<Entry>>): Option<Bson> {
    if entries.Some? then Some(Doc(entries.value)) else None
  }

  function Values(entries: Option<seq<Entry>>): Option<seq<Bson>> {
    if entries.None? then None
    else Some(seq(|entries.value|, i requires 0 <= i < |entries.value| => entries.value[i].value))
  }

  function StoreNumbers(width: nat, signed: bool, vs: seq<S.Value>): Option<seq<Bson>> {
    if vs == [] then Some([])
    else
      var rest := StoreNumbers(width, signed, vs[1..]);
      if !vs[0].IntV? || rest.None? then None else Some([StoreNumber(width, signed, vs[0].i)] + rest.value)
  }

  /** The elements of a uint32uint8array are structs without field names. */
  function StorePairs(vs: seq<S.Value>): Option<seq<Bson>> {
    if vs == [] then Some([])
    else
      var rest := StorePairs(vs[1..]);
      if !vs[0].ListV? || |vs[0].items| != 2 || !vs[0].items[0].IntV? || !vs[0].items[1].IntV? || rest.None? then None
      else Some([Doc([Entry("", Int64(vs[0].items[0].i)), Entry("", Int64(vs[0].items[1].i))])] + rest.value)
  }

  function ToBsonEach(elem: Field, vs: seq<S.Value>): Option<seq<Bson>>
    decreases elem, 1, |vs|
  {
    if vs == [] then Some([])
    else
      var first := ToBson(elem, vs[0]);
      var rest := ToBsonEach(elem, vs[1..]);
      if first.None? || rest.None? then None else Some([first.value] + rest.value)
  }

  function ToBsonAll(members: seq<Member>, vs: seq<S.Value>): (r: Option<seq<Entry>>)
    ensures r.Some? ==> |r.value| == |members|
    decreases members, 0
  {
    if members == [] && vs == [] then Some([])
    else if members == [] || vs == [] then None
    else
      var first := ToBson(members[0].field, vs[0]);
      var rest := ToBsonAll(members[1..], vs[1..]);
      if first.None? || rest.None? then None else Some([Entry(members[0].name, first.value)] + rest.value)
  }

  /* ---- Packing ---- */

  /** What is added to a datagram, unless it would grow too long: then an exception is thrown. */
  function Add(dg: Bytes, b: Bytes): Option<Bytes> {
    if |dg| + |b| > MAX then None else Some(dg + b)
  }

  /** BsonToNumber(): 64-bit unsigned numbers are cast, all others must be in range. */
  function Number(width: nat, signed: bool, x: Bson): Option<int> {
    if !x.Int32? && !x.Int64? then None
    else if width == 8 && !signed then Some(x.i % 0x1_0000_0000_0000_0000)
    else if S.InWidth(x.i, width, signed) then Some(x.i)
    else None
  }

  function AddNumber(dg: Bytes, width: nat, signed: bool, x: Bson): Option<Bytes> {
    var n := Number(width, signed, x);
    if n.None? then None else Add(dg, Le(n.value % Pow256(width), width))
  }

  function AddNumbers(dg: Bytes, width: nat, signed: bool, xs: seq<Bson>): Option<Bytes>
    decreases |xs|
  {
    if xs == [] then Some(dg)
    else
      var first := AddNumber(dg, width, signed, xs[0]);
      if first.None? then None else AddNumbers(first.value, width, signed, xs[1..])
  }

  /** AddString() and AddBlob(): a 16-bit length in front. */
  function AddSized(dg: Bytes, b: Bytes): Option<Bytes> {
    Add(dg, Le(|b| % 0x1_0000, 2) + b)
  }

  function SizedInto(dg: Bytes, content: Option<Bytes>): Option<Bytes> {
    if content.None? then None else AddSized(dg, content.value)
  }

  /** A uint32uint8array is expected as a flat list, and gets an element count in front. */
  function AddPairs(dg: Bytes, xs: seq<Bson>): Option<Bytes>
    decreases |xs|
  {
    if xs == [] then Some(dg)
    else if |xs| == 1 then None
    else
      var first := AddNumber(dg, 4, false, xs[0]);
      if first.None? then None
      else
        var second := AddNumber(first.value, 1, false, xs[1]);
        if second.None? then None else AddPairs(second.value, xs[2..])
  }

  predicate IsSimple(f: Field) {
    f.Int? || f.Str? || f.Blob? || f.IntArray? || f.Pairs?
  }

  /** BsonToField() */
  function AddSimple(dg: Bytes, f: Field, x: Bson): Option<Bytes>
    requires IsSimple(f)
  {
    match f
    case Int(width, signed, _) => AddNumber(dg, width, signed, x)
    case Str(_) => if x.Text? then AddSized(dg, x.text) else None
    case Blob(_, _) => if x.Binary? then Add(dg, x.data) else None
    case IntArray(width, signed) => if x.Arr? then SizedInto(dg, AddNumbers([], width, signed, x.items)) else None
    case Pairs =>
      if !x.Arr? then None
      else
        var counted := Add(dg, Le(|x.items| % 0x1_0000, 2));
        if counted.None? then None else AddPairs(counted.value, x.items)
  }

  function Find(entries: seq<Entry>, name: string): Option<Bson> {
    if entries == [] then None
    else if entries[0].name == name then Some(entries[0].value)
    else Find(entries[1..], name)
  }

  /** PackField(). A type it does not know adds nothing. */
  function Pack(dg: Bytes, f: Field, x: Bson): Option<Bytes>
    decreases f, 0
  {
    match f
    case Atomic(members) => if x.Arr? then PackItems(dg, members, x.items, 0) else None
    case Struct(members) => if x.Doc? then PackMembers(dg, members, x.entries) else None
    case List(elem, _) =>
      if IsSimple(elem) || elem.Struct? then
        if x.Arr? then SizedInto(dg, PackEach([], elem, x.items)) else None
      else Some(dg)
    case Switch(_, _, _) => Some(dg)
    case _ => AddSimple(dg, f, x)
  }

  function PackItems(dg: Bytes, members: seq<Member>, items: seq<Bson>, i: nat): Option<Bytes>
    decreases members, 0
  {
    if members == [] then Some(dg)
    else if i >= |items| then None
    else
      var first := Pack(dg, members[0].field, items[i]);
      if first.None? then None else PackItems(first.value, members[1..], items, i + 1)
  }

  function PackMembers(dg: Bytes, members: seq<Member>, entries: seq<Entry>): Option<Bytes>
    decreases members, 0
  {
    if members == [] then Some(dg)
    else
      var x := Find(entries, members[0].name);
      if x.None? then None
      else
        var first := Pack(dg, members[0].field, x.value);
        if first.None? then None else PackMembers(first.value, members[1..], entries)
  }

  function PackEach(dg: Bytes, elem: Field, items: seq<Bson>): Option<Bytes>
    decreases elem, 1, |items|
  {
    if items == [] then Some(dg)
    else
      var first := Pack(dg, elem, items[0]);
      if first.None? then None else PackEach(first.value, elem, items[1..])
  }

  /* ---- The fragment on which the two encodings agree ---- */

  predicate DistinctNames(members: seq<Member>) {
    forall i, j :: 0 <= i < j < |members| ==> members[i].name != members[j].name
  }

  /** Strings and arrays that have a length prefix, blobs that have none, no
      uint32uint8arrays, no arrays of arrays, no switches, and structs without namesakes. */
  predicate Supported(f: Field)
    decreases f, 0
  {
    match f
    case Int(_, _, _) => true
    case Str(lengths) => !S.OneValue(lengths)
    case Blob(_, lengths) => S.OneValue(lengths)
    case IntArray(_, _) => true
    case Pairs => false
    case List(elem, size) =>
      && (IsSimple(elem) || elem.Struct?) && Supported(elem)
      && !(S.OneValue(size) && S.FixedSize(Wire(elem)).Some?)
    case Struct(members) => AllSupported(members) && DistinctNames(members)
    case Atomic(members) => AllSupported(members)
    case Switch(_, _, _) => false
  }

  predicate AllSupported(members: seq<Member>)
    decreases members, 0
  {
    members == [] || (Supported(members[0].field) && AllSupported(members[1..]))
  }

  /** The values that come back: the same, but of an array only the elements count that are
      there. */
  predicate Clean(f: Field, v: S.Value)
    decreases f, 0
  {
    match f
    case Int(_, _, _) => true
    case Str(lengths) => !S.OneValue(lengths)
    case Blob(_, lengths) => S.OneValue(lengths)
    case IntArray(_, _) => true
    case Pairs => v == S.ListV([])
    case List(elem, size) =>
      if IsSimple(elem) || elem.Struct? then
        !(S.OneValue(size) && S.FixedSize(Wire(elem)).Some?) && v.ListV? && EachClean(elem, v.items)
      else v == S.ListV([]) && S.LengthBytes(Wire(f)) == 0
    case Struct(members) => DistinctNames(members) && v.ListV? && AllClean(members, v.items)
    case Atomic(members) => v.ListV? && AllClean(members, v.items)
    case Switch(_, _, _) => false
  }

  predicate EachClean(elem: Field, vs: seq<S.Value>)
    decreases elem, 1, |vs|
  {
    vs == [] || (Clean(elem, vs[0]) && EachClean(elem, vs[1..]))
  }

  predicate AllClean(members: seq<Member>, vs: seq<S.Value>)
    decreases members, 0
  {
    members == [] || (vs != [] && Clean(members[0].field, vs[0]) && AllClean(members[1..], vs[1..]))
  }

  /** All values of a supported field do. */
  lemma {:induction false} SupportedIsClean(f: Field, v: S.Value)
    requires Supported(f) && S.Enc(Wire(f), v).Some?
    ensures Clean(f, v)
    decreases f, 2, 0
  {
    match f
    case List(elem, _) =>
      assert S.Enc(Wire(f), v) == S.EncArray(Wire(f), v);
      SupportedIsEachClean(elem, v.items);
    case Struct(members) => SupportedIsAllClean(members, v.items);
    case Atomic(members) => SupportedIsAllClean(members, v.items);
    case _ =>
  }

  lemma {:induction false} SupportedIsEachClean(elem: Field, vs: seq<S.Value>)
    requires Supported(elem) && S.EncRepeat(Wire(elem), vs).Some?
    ensures EachClean(elem, vs)
    decreases elem, 3, |vs|
  {
    if vs != [] {
      SupportedIsClean(elem, vs[0]);
      SupportedIsEachClean(elem, vs[1..]);
    }
  }

  lemma {:induction false} SupportedIsAllClean(members: seq<Member>, vs: seq<S.Value>)
    requires AllSupported(members) && S.EncAll(WireAll(members), vs).Some?
    ensures AllClean(members, vs)
    decreases members, 1
  {
    if members != [] {
      SupportedIsClean(members[0].field, vs[0]);
      SupportedIsAllClean(members[1..], vs[1..]);
    }
  }

  /** Adding one thing after another is adding both. */
  lemma AddTwice(dg: Bytes, a: Bytes, b: Bytes)
    ensures Add(dg, a + b) == if Add(dg, a).Some? then Add(Add(dg, a).value, b) else None
  {
    if |dg| + |a| <= MAX { assert dg + (a + b) == dg + a + b; }
  }

  lemma AddNothing(dg: Bytes)
    requires |dg| <= MAX
    ensures Add(dg, []) == Some(dg)
  {
    assert dg + [] == dg;
  }

  /** A number comes back from the document as the bytes it had. */
  lemma NumberReturns(dg: Bytes, width: nat, signed: bool, i: int)
    requires width in {1, 2, 4, 8} && S.InWidth(i, width, signed)
    ensures AddNumber(dg, width, signed, StoreNumber(width, signed, i)) == Add(dg, Le(Wrapped(i, width), width))
  {
    Powers();
    WrapIs(i, width);
    if width == 8 && !signed { WrapIs(i, 8); }
  }

  lemma Powers()
    ensures Pow256(1) == 0x100 && Pow256(2) == 0x1_0000 && Pow256(4) == 0x1_0000_0000 && Pow256(8) == 0x1_0000_0000_0000_0000
  {
    assert Pow256(3) == 0x100_0000;
    assert Pow256(6) == 0x1_0000_0000_0000;
  }

  lemma WrapIs(i: int, width: nat)
    requires width in {1, 2, 4, 8} && -Pow256(width) <= i < Pow256(width)
    ensures i % Pow256(width) == Wrapped(i, width)
  {
    Powers();
  }

  lemma {:induction false} NumbersReturn(dg: Bytes, width: nat, signed: bool, vs: seq<S.Value>)
    requires |dg| <= MAX && width in {1, 2, 4, 8} && S.EncRepeat(S.Num(width, signed, []), vs).Some?
    ensures StoreNumbers(width, signed, vs).Some?
    ensures AddNumbers(dg, width, signed, StoreNumbers(width, signed, vs).value)
         == Add(dg, S.EncRepeat(S.Num(width, signed, []), vs).value)
    decreases |vs|
  {
    var s := S.Num(width, signed, []);
    if vs == [] {
      AddNothing(dg);
    } else {
      var first := S.Enc(s, vs[0]).value;
      NumberReturns(dg, width, signed, vs[0].i);
      AddTwice(dg, first, S.EncRepeat(s, vs[1..]).value);
      NumbersReturn(if Add(dg, first).Some? then Add(dg, first).value else dg, width, signed, vs[1..]);
    }
  }

  lemma SizedReturns(dg: Bytes, body: Bytes)
    requires |body| < 0x1_0000
    ensures SizedInto(dg, Add([], body)) == Add(dg, Le(|body|, 2) + body)
  {
    hide Le, Pow256;
    if |body| > MAX {
      TooMuch(dg, Le(|body|, 2) + body);
    } else {
      assert Add([], body) == Some(body) by { assert [] + body == body; }
      Small(|body|);
    }
  }

  lemma TooMuch(dg: Bytes, b: Bytes)
    requires |b| > MAX
    ensures Add(dg, b) == None
  {
  }

  lemma Small(n: nat)
    requires n < 0x1_0000
    ensures n % 0x1_0000 == n
  {
  }

  /* ---- What is packed, without the document in between ---- */

  /** The value holds a switch. */
  predicate ReachesSwitch(f: Field, v: S.Value)
    decreases f, 0
  {
    match f
    case List(elem, _) => v.ListV? && SomeReachSwitch(elem, v.items)
    case Struct(members) => v.ListV? && AnyReachSwitch(members, v.items)
    case Atomic(members) => v.ListV? && AnyReachSwitch(members, v.items)
    case Switch(_, _, _) => true
    case _ => false
  }

  predicate SomeReachSwitch(elem: Field, vs: seq<S.Value>)
    decreases elem, 1, |vs|
  {
    vs != [] && (ReachesSwitch(elem, vs[0]) || SomeReachSwitch(elem, vs[1..]))
  }

  predicate AnyReachSwitch(members: seq<Member>, vs: seq<S.Value>)
    decreases members, 0
  {
    members != [] && vs != [] && (ReachesSwitch(members[0].field, vs[0]) || AnyReachSwitch(members[1..], vs[1..]))
  }

  /** Everything that fits is stored, except what holds a switch, at any depth. */
  lemma {:induction false} SwitchesAreRefused(f: Field, v: S.Value)
    requires S.Enc(Wire(f), v).Some?
    ensures ToBson(f, v).None? <==> ReachesSwitch(f, v)
    decreases f, 2, 0
  {
    match f
    case Int(_, _, _) =>
    case Str(_) =>
    case Blob(_, _) =>
    case IntArray(width, signed) =>
      assert S.Enc(Wire(f), v) == S.EncArray(Wire(f), v);
      NumbersAreStored(width, signed, v.items);
    case Pairs =>
      assert S.Enc(Wire(f), v) == S.EncArray(Wire(f), v);
      PairsAreStored(v.items);
    case List(elem, _) =>
      assert S.Enc(Wire(f), v) == S.EncArray(Wire(f), v);
      SwitchesInEach(elem, v.items);
    case Struct(members) => SwitchesInAll(members, v.items);
    case Atomic(members) => SwitchesInAll(members, v.items);
    case Switch(_, _, _) =>
  }

  lemma {:induction false} NumbersAreStored(width: nat, signed: bool, vs: seq<S.Value>)
    requires S.EncRepeat(S.Num(width, signed, []), vs).Some?
    ensures StoreNumbers(width, signed, vs).Some?
    decreases |vs|
  {
    if vs != [] { NumbersAreStored(width, signed, vs[1..]); }
  }

  const PAIR: S.Schema := S.Record([S.Num(4, false, []), S.Num(1, false, [])])

  lemma {:induction false} PairsAreStored(vs: seq<S.Value>)
    requires S.EncRepeat(PAIR, vs).Some?
    ensures StorePairs(vs).Some?
    decreases |vs|
  {
    if vs != [] {
      PairIs(vs[0]);
      PairsAreStored(vs[1..]);
    }
  }

  lemma PairIs(v: S.Value)
    requires S.Enc(PAIR, v).Some?
    ensures v.ListV? && |v.items| == 2 && v.items[0].IntV? && v.items[1].IntV?
  {
    var n, m := S.Num(4, false, []), S.Num(1, false, []);
    assert [n, m][1..] == [m] && [m][1..] == [];
    assert S.EncAll([n, m], v.items).Some?;
    assert S.EncAll([m], v.items[1..]).Some?;
    assert v.items[1..][0] == v.items[1];
    assert S.EncAll([], v.items[1..][1..]).Some?;
  }

  lemma {:induction false} SwitchesInEach(elem: Field, vs: seq<S.Value>)
    requires S.EncRepeat(Wire(elem), vs).Some?
    ensures ToBsonEach(elem, vs).None? <==> SomeReachSwitch(elem, vs)
    decreases elem, 3, |vs|
  {
    if vs != [] {
      SwitchesAreRefused(elem, vs[0]);
      SwitchesInEach(elem, vs[1..]);
    }
  }

  lemma {:induction false} SwitchesInAll(members: seq<Member>, vs: seq<S.Value>)
    requires S.EncAll(WireAll(members), vs).Some?
    ensures ToBsonAll(members, vs).None? <==> AnyReachSwitch(members, vs)
    decreases members, 1
  {
    if members != [] {
      SwitchesAreRefused(members[0].field, vs[0]);
      SwitchesInAll(members[1..], vs[1..]);
    }
  }

  /** The bytes that come out for a value: strings and arrays always with a length of two
      bytes, blobs always without, uint32uint8arrays only without elements, and arrays of
      arrays not at all. None if it is refused, on the way in or out. */
  function Echo(f: Field, v: S.Value): Option<Bytes>
    decreases f, 0
  {
    match f
    case Int(_, _, _) => S.Enc(Wire(f), v)
    case Str(_) => if v.TextV? then Some(Sized(v.text)) else None
    case Blob(_, _) => if v.TextV? then Some(v.text) else None
    case IntArray(_, _) => S.Enc(Wire(f), v)
    case Pairs => if v == S.ListV([]) then Some(Sized([])) else None
    case List(elem, _) =>
      if !v.ListV? then None
      else if IsSimple(elem) || elem.Struct? then
        var body := EchoEach(elem, v.items);
        if body.None? then None else Some(Sized(body.value))
      else if SomeReachSwitch(elem, v.items) then None
      else Some([])
    case Struct(members) => if v.ListV? then EchoAll(members, v.items) else None
    case Atomic(members) => if v.ListV? then EchoAll(members, v.items) else None
    case Switch(_, _, _) => None
  }

  function Sized(b: Bytes): Bytes {
    Le(|b| % 0x1_0000, 2) + b
  }

  function EchoEach(elem: Field, vs: seq<S.Value>): Option<Bytes>
    decreases elem, 1, |vs|
  {
    if vs == [] then Some([]) else S.Join(Echo(elem, vs[0]), EchoEach(elem, vs[1..]))
  }

  function EchoAll(members: seq<Member>, vs: seq<S.Value>): Option<Bytes>
    decreases members, 0
  {
    if members == [] || vs == [] then Some([])
    else S.Join(Echo(members[0].field, vs[0]), EchoAll(members[1..], vs[1..]))
  }

  /** No struct in the value has two unnamed members. */
  predicate Apart(f: Field, v: S.Value)
    decreases f, 0
  {
    match f
    case List(elem, _) => v.ListV? && EachApart(elem, v.items)
    case Struct(members) => DistinctNames(members) && v.ListV? && AllApart(members, v.items)
    case Atomic(members) => v.ListV? && AllApart(members, v.items)
    case _ => true
  }

  predicate EachApart(elem: Field, vs: seq<S.Value>)
    decreases elem, 1, |vs|
  {
    vs == [] || (Apart(elem, vs[0]) && EachApart(elem, vs[1..]))
  }

  predicate AllApart(members: seq<Member>, vs: seq<S.Value>)
    decreases members, 0
  {
    members == [] || (vs != [] && Apart(members[0].field, vs[0]) && AllApart(members[1..], vs[1..]))
  }

  /** Adding what is packed, if it is packed at all. */
  function AddEcho(dg: Bytes, b: Option<Bytes>): Option<Bytes> {
    if b.None? then None else Add(dg, b.value)
  }

  lemma AddJoined(dg: Bytes, a: Option<Bytes>, b: Option<Bytes>)
    ensures AddEcho(dg, S.Join(a, b))
         == (var first := AddEcho(dg, a); if first.None? then None else AddEcho(first.value, b))
  {
    if a.Some? && b.Some? { AddTwice(dg, a.value, b.value); }
  }

  /** An inner datagram that grows too long has no place in the outer one either. */
  lemma SizedIs(dg: Bytes, body: Option<Bytes>)
    ensures SizedInto(dg, AddEcho([], body)) == AddEcho(dg, if body.None? then None else Some(Sized(body.value)))
  {
    if body.Some? {
      hide Le;
      assert [] + body.value == body.value;
      assert |Sized(body.value)| == 2 + |body.value|;
    }
  }

  /** Storing and packing a value adds its echo, or the datagram overflows. */
  lemma {:induction false} EchoIsPacked(dg: Bytes, f: Field, v: S.Value)
    requires |dg| <= MAX && Apart(f, v) && S.Legal(Wire(f)) && S.Enc(Wire(f), v).Some? && ToBson(f, v).Some?
    ensures Pack(dg, f, ToBson(f, v).value) == AddEcho(dg, Echo(f, v))
    decreases f, 2, 0
  {
    match f
    case Int(width, signed, _) => NumberReturns(dg, width, signed, v.i);
    case Str(_) =>
    case Blob(_, _) =>
    case IntArray(_, _) => IntArrayReturns(dg, f, v);
    case Pairs => if v.items != [] { PairsAreRefused(dg, v); } else { NoPairsReturn(dg); }
    case List(_, _) => ListPacked(dg, f, v);
    case Struct(members) =>
      EntriesAreNamed(members, v.items);
      var entries := ToBsonAll(members, v.items).value;
      assert entries[0..] == entries;
      MembersPacked(dg, members, v.items, entries, 0);
    case Atomic(members) => ItemsPacked(dg, members, v.items, Values(ToBsonAll(members, v.items)).value, 0);
  }

  lemma IntArrayReturns(dg: Bytes, f: Field, v: S.Value)
    requires f.IntArray? && S.Legal(Wire(f)) && S.Enc(Wire(f), v).Some?
    ensures ToBson(f, v).Some? && Pack(dg, f, ToBson(f, v).value) == Add(dg, S.Enc(Wire(f), v).value)
  {
    Powers();
    NumbersReturn([], f.width, f.signed, v.items);
    SizedReturns(dg, S.EncRepeat(S.Num(f.width, f.signed, []), v.items).value);
    assert S.Enc(Wire(f), v) == S.EncArray(Wire(f), v);
  }

  lemma NoPairsReturn(dg: Bytes)
    requires |dg| <= MAX
    ensures ToBson(Pairs, S.ListV([])) == Some(Arr([]))
    ensures Pack(dg, Pairs, Arr([])) == Add(dg, Sized([]))
  {
    assert Le(0, 2) + [] == Le(0, 2);
  }

  lemma {:induction false} ListPacked(dg: Bytes, f: Field, v: S.Value)
    requires |dg| <= MAX && f.List? && Apart(f, v) && S.Legal(Wire(f)) && S.Enc(Wire(f), v).Some? && ToBson(f, v).Some?
    ensures Pack(dg, f, ToBson(f, v).value) == AddEcho(dg, Echo(f, v))
    decreases f, 1, 0
  {
    hide Le;
    assert S.Enc(Wire(f), v) == S.EncArray(Wire(f), v);
    if IsSimple(f.elem) || f.elem.Struct? {
      EachPacked([], f.elem, v.items);
      SizedIs(dg, EchoEach(f.elem, v.items));
    } else {
      SwitchesInEach(f.elem, v.items);
      AddNothing(dg);
    }
  }

  lemma {:induction false} EachPacked(dg: Bytes, elem: Field, vs: seq<S.Value>)
    requires |dg| <= MAX && EachApart(elem, vs) && S.Legal(Wire(elem)) && S.EncRepeat(Wire(elem), vs).Some?
    requires ToBsonEach(elem, vs).Some?
    ensures PackEach(dg, elem, ToBsonEach(elem, vs).value) == AddEcho(dg, EchoEach(elem, vs))
    decreases elem, 3, |vs|
  {
    if vs == [] {
      AddNothing(dg);
    } else {
      EchoIsPacked(dg, elem, vs[0]);
      var first := AddEcho(dg, Echo(elem, vs[0]));
      AddJoined(dg, Echo(elem, vs[0]), EchoEach(elem, vs[1..]));
      EachPacked(if first.Some? then first.value else dg, elem, vs[1..]);
    }
  }

  lemma {:induction false} EntriesAreNamed(members: seq<Member>, vs: seq<S.Value>)
    requires ToBsonAll(members, vs).Some?
    ensures forall i :: 0 <= i < |members| ==> ToBsonAll(members, vs).value[i].name == members[i].name
    decreases |members|
  {
    if members != [] { EntriesAreNamed(members[1..], vs[1..]); }
  }

  ghost predicate DistinctEntries(entries: seq<Entry>) {
    forall i, j :: 0 <= i < j < |entries| ==> entries[i].name != entries[j].name
  }

  lemma {:induction false} FindOwn(entries: seq<Entry>, k: nat)
    requires DistinctEntries(entries) && k < |entries|
    ensures Find(entries, entries[k].name) == Some(entries[k].value)
    decreases k
  {
    if k > 0 {
      var rest := entries[1..];
      forall i, j | 0 <= i < j < |rest| ensures rest[i].name != rest[j].name {
        assert entries[i + 1].name != entries[j + 1].name;
      }
      assert rest[k - 1] == entries[k];
      FindOwn(rest, k - 1);
    }
  }

  lemma {:induction false} MembersPacked(dg: Bytes, members: seq<Member>, vs: seq<S.Value>, entries: seq<Entry>, k: nat)
    requires |dg| <= MAX && AllApart(members, vs) && S.AllLegal(WireAll(members)) && S.EncAll(WireAll(members), vs).Some?
    requires k + |members| == |entries| && ToBsonAll(members, vs) == Some(entries[k..]) && DistinctEntries(entries)
    ensures PackMembers(dg, members, entries) == AddEcho(dg, EchoAll(members, vs))
    decreases members, 1
  {
    if members == [] {
      AddNothing(dg);
    } else {
      assert entries[k..][0] == entries[k] && entries[k..][1..] == entries[k + 1..];
      FindOwn(entries, k);
      EchoIsPacked(dg, members[0].field, vs[0]);
      var first := AddEcho(dg, Echo(members[0].field, vs[0]));
      AddJoined(dg, Echo(members[0].field, vs[0]), EchoAll(members[1..], vs[1..]));
      MembersPacked(if first.Some? then first.value else dg, members[1..], vs[1..], entries, k + 1);
    }
  }

  lemma {:induction false} ItemsPacked(dg: Bytes, members: seq<Member>, vs: seq<S.Value>, items: seq<Bson>, k: nat)
    requires |dg| <= MAX && AllApart(members, vs) && S.AllLegal(WireAll(members)) && S.EncAll(WireAll(members), vs).Some?
    requires k + |members| == |items| && ToBsonAll(members, vs).Some?
    requires forall i :: 0 <= i < |members| ==> items[k + i] == ToBsonAll(members, vs).value[i].value
    ensures PackItems(dg, members, items, k) == AddEcho(dg, EchoAll(members, vs))
    decreases members, 1
  {
    if members == [] {
      AddNothing(dg);
    } else {
      var entries, rest := ToBsonAll(members, vs).value, ToBsonAll(members[1..], vs[1..]).value;
      assert entries == [entries[0]] + rest;
      assert items[k + 0] == entries[0].value;
      forall i | 0 <= i < |members| - 1 ensures items[k + 1 + i] == rest[i].value {
        assert items[k + (i + 1)] == entries[i + 1].value;
      }
      EchoIsPacked(dg, members[0].field, vs[0]);
      var first := AddEcho(dg, Echo(members[0].field, vs[0]));
      AddJoined(dg, Echo(members[0].field, vs[0]), EchoAll(members[1..], vs[1..]));
      ItemsPacked(if first.Some? then first.value else dg, members[1..], vs[1..], items, k + 1);
    }
  }

  /* ---- The fragment comes back ---- */

  /** The echo of a clean value is its encoding. */
  lemma {:induction false} CleanEchoes(f: Field, v: S.Value)
    requires Clean(f, v) && S.Legal(Wire(f)) && S.Enc(Wire(f), v).Some?
    ensures Echo(f, v) == S.Enc(Wire(f), v) && Apart(f, v) && !ReachesSwitch(f, v)
    decreases f, 2, 0
  {
    match f
    case Int(_, _, _) =>
    case Str(_) => Powers();
    case Blob(_, _) => assert [] + v.text == v.text;
    case IntArray(_, _) =>
    case Pairs =>
      Powers();
      assert S.Enc(Wire(f), v) == S.EncArray(Wire(f), v);
    case List(_, _) => CleanListEchoes(f, v);
    case Struct(members) => CleanMembersEcho(members, v.items);
    case Atomic(members) => CleanMembersEcho(members, v.items);
  }

  lemma {:induction false} CleanListEchoes(f: Field, v: S.Value)
    requires f.List? && Clean(f, v) && S.Legal(Wire(f)) && S.Enc(Wire(f), v).Some?
    ensures Echo(f, v) == S.Enc(Wire(f), v) && Apart(f, v) && !ReachesSwitch(f, v)
    decreases f, 1, 0
  {
    Powers();
    assert S.Enc(Wire(f), v) == S.EncArray(Wire(f), v);
    if IsSimple(f.elem) || f.elem.Struct? { CleanEachEchoes(f.elem, v.items); }
    else { assert S.EncRepeat(Wire(f.elem), []) == Some([]) && Le(0, 0) + [] == []; }
  }

  lemma {:induction false} CleanEachEchoes(elem: Field, vs: seq<S.Value>)
    requires EachClean(elem, vs) && S.Legal(Wire(elem)) && S.EncRepeat(Wire(elem), vs).Some?
    ensures EchoEach(elem, vs) == S.EncRepeat(Wire(elem), vs) && EachApart(elem, vs) && !SomeReachSwitch(elem, vs)
    decreases elem, 3, |vs|
  {
    if vs != [] {
      CleanEchoes(elem, vs[0]);
      CleanEachEchoes(elem, vs[1..]);
    }
  }

  lemma {:induction false} CleanMembersEcho(members: seq<Member>, vs: seq<S.Value>)
    requires AllClean(members, vs) && S.AllLegal(WireAll(members)) && S.EncAll(WireAll(members), vs).Some?
    ensures EchoAll(members, vs) == S.EncAll(WireAll(members), vs) && AllApart(members, vs) && !AnyReachSwitch(members, vs)
    decreases members, 1
  {
    if members != [] {
      CleanEchoes(members[0].field, vs[0]);
      CleanMembersEcho(members[1..], vs[1..]);
    }
  }

  /** What was stored is packed as the bytes it was stored from, or the datagram overflows. */
  lemma RoundTrip(dg: Bytes, f: Field, v: S.Value)
    requires |dg| <= MAX && Clean(f, v) && S.Legal(Wire(f)) && S.Enc(Wire(f), v).Some?
    ensures ToBson(f, v).Some? && Pack(dg, f, ToBson(f, v).value) == Add(dg, S.Enc(Wire(f), v).value)
  {
    hide S.Enc, S.Legal, Clean, Pack, ToBson, Wire, Echo, Apart, ReachesSwitch;
    CleanEchoes(f, v);
    SwitchesAreRefused(f, v);
    EchoIsPacked(dg, f, v);
  }

  /** The same about bytes: storing a field and packing it adds the bytes it was stored
      from. */
  lemma BytesComeBack(dg: Bytes, f: Field, bytes: Bytes)
    requires |dg| <= MAX && Supported(f) && S.Legal(Wire(f)) && S.Dec(Wire(f), bytes).Some?
    ensures var d := S.Dec(Wire(f), bytes).value;
            ToBson(f, d.value).Some? && Pack(dg, f, ToBson(f, d.value).value) == Add(dg, bytes[..d.used])
  {
    hide S.Enc, S.Dec, Supported, Clean, Pack, ToBson, Wire, S.Legal;
    Codec.Canonical(Wire(f), bytes);
    SupportedIsClean(f, S.Dec(Wire(f), bytes).value.value);
    RoundTrip(dg, f, S.Dec(Wire(f), bytes).value.value);
  }

  /* ---- Outside the fragment ---- */

  /** No variable-size blob ever comes back: its length is not written. */
  lemma BlobsLoseTheirLength(dg: Bytes, f: Field, v: S.Value)
    requires f.Blob? && !Supported(f) && S.Legal(Wire(f)) && S.Enc(Wire(f), v).Some?
    requires |dg| + |S.Enc(Wire(f), v).value| <= MAX
    ensures Pack(dg, f, ToBson(f, v).value) == Some(dg + v.text) != Add(dg, S.Enc(Wire(f), v).value)
  {
    assert |S.Enc(Wire(f), v).value| == f.prefix + |v.text|;
    assert |dg + v.text| < |dg + S.Enc(Wire(f), v).value|;
  }

  /** No string of a fixed length does: it has a length written that it should not have. */
  lemma FixedStringsGainALength(dg: Bytes, f: Field, v: S.Value)
    requires f.Str? && !Supported(f) && S.Enc(Wire(f), v).Some? && |dg| + 2 + |v.text| <= MAX
    ensures Pack(dg, f, ToBson(f, v).value).Some?
    ensures Pack(dg, f, ToBson(f, v).value) != Add(dg, S.Enc(Wire(f), v).value)
  {
    var packed, stored := Pack(dg, f, ToBson(f, v).value).value, dg + S.Enc(Wire(f), v).value;
    assert |packed| == |dg| + 2 + |v.text| && |stored| == |dg| + |v.text|;
  }

  /** Nor does an array of a fixed number of fixed-size elements. */
  lemma FixedArraysGainALength(dg: Bytes, f: Field, v: S.Value)
    requires f.List? && (IsSimple(f.elem) || f.elem.Struct?) && Supported(f.elem) && !Supported(f)
    requires S.Legal(Wire(f)) && S.Enc(Wire(f), v).Some? && |dg| + 2 + |S.Enc(Wire(f), v).value| <= MAX
    ensures ToBson(f, v).Some? && Pack(dg, f, ToBson(f, v).value).Some?
    ensures Pack(dg, f, ToBson(f, v).value) != Add(dg, S.Enc(Wire(f), v).value)
  {
    assert S.Enc(Wire(f), v) == S.EncArray(Wire(f), v);
    var body := S.EncRepeat(Wire(f.elem), v.items).value;
    SupportedIsEachClean(f.elem, v.items);
    CleanEachEchoes(f.elem, v.items);
    SwitchesAreRefused(f, v);
    EchoIsPacked(dg, f, v);
    assert Le(|body|, 0) + body == body;
    assert |Sized(body)| == 2 + |body|;
    assert |dg + Sized(body)| == |dg| + 2 + |body| && |dg + body| == |dg| + |body|;
  }

  /** A uint32uint8array with elements is stored as documents, which packing refuses. */
  lemma PairsAreRefused(dg: Bytes, v: S.Value)
    requires S.Enc(Wire(Pairs), v).Some? && v.items != [] && ToBson(Pairs, v).Some?
    ensures Pack(dg, Pairs, ToBson(Pairs, v).value) == None
  {
    var items := StorePairs(v.items).value;
    assert items[0].Doc?;
    assert AddNumber(dg + Le(|items| % 0x1_0000, 2), 4, false, items[0]) == None;
  }

  /** Arrays whose elements are neither simple nor structs are left out altogether. */
  lemma ArraysOfArraysVanish(dg: Bytes, f: Field, v: S.Value, x: Bson)
    requires f.List? && !IsSimple(f.elem) && !f.elem.Struct? && S.Enc(Wire(f), v).Some?
    ensures Pack(dg, f, x) == Some(dg)
    ensures |S.Enc(Wire(f), v).value| > 0 ==> Pack(dg, f, x) != Add(dg, S.Enc(Wire(f), v).value)
  {
    if Add(dg, S.Enc(Wire(f), v).value).Some? {
      assert |dg + S.Enc(Wire(f), v).value| == |dg| + |S.Enc(Wire(f), v).value|;
    }
  }

  /* ---- Members that share a name ---- */

  /** The first member of a name. */
  function First(members: seq<Member>, name: string): (k: nat)
    requires exists i :: 0 <= i < |members| && members[i].name == name
    ensures k < |members| && members[k].name == name
    ensures forall i :: 0 <= i < k ==> members[i].name != name
  {
    if members[0].name == name then 0
    else
      assert exists i :: 0 <= i < |members[1..]| && members[1..][i].name == name by {
        var i :| 0 <= i < |members| && members[i].name == name;
        assert members[1..][i - 1] == members[i];
      }
      1 + First(members[1..], name)
  }

  /** The value under the name of member `k`: that of the first member of this name. */
  function Shared(members: seq<Member>, vs: seq<S.Value>, k: nat): S.Value
    requires k < |members| == |vs|
  {
    vs[First(members, members[k].name)]
  }

  /** What is stored for the first member of a name is found for all. Only unnamed members
      share one. */
  lemma {:induction false} FirstIsFound(members: seq<Member>, vs: seq<S.Value>, name: string)
    requires ToBsonAll(members, vs).Some? && exists i :: 0 <= i < |members| && members[i].name == name
    ensures |vs| == |members|
    ensures var j := First(members, name);
            ToBson(members[j].field, vs[j]).Some?
            && Find(ToBsonAll(members, vs).value, name) == ToBson(members[j].field, vs[j])
    decreases |members|
  {
    var entries := ToBsonAll(members, vs).value;
    var rest := ToBsonAll(members[1..], vs[1..]).value;
    assert entries[1..] == rest;
    if members[0].name != name {
      var i :| 0 <= i < |members| && members[i].name == name;
      assert members[1..][i - 1] == members[i];
      FirstIsFound(members[1..], vs[1..], name);
    } else {
      StoredLength(members, vs);
    }
  }

  lemma {:induction false} StoredLength(members: seq<Member>, vs: seq<S.Value>)
    requires ToBsonAll(members, vs).Some?
    ensures |vs| == |members|
    decreases |members|
  {
    if members != [] { StoredLength(members[1..], vs[1..]); }
  }

  /** A struct that packs each member, from the k-th on, from what was stored for the first
      member of its name. */
  function PackFirsts(dg: Bytes, members: seq<Member>, vs: seq<S.Value>, k: nat): Option<Bytes>
    requires k <= |members| == |vs| && forall i :: 0 <= i < |members| ==> ToBson(members[i].field, vs[i]).Some?
    decreases |members| - k
  {
    if k == |members| then Some(dg)
    else
      var j := First(members, members[k].name);
      var first := Pack(dg, members[k].field, ToBson(members[j].field, vs[j]).value);
      if first.None? then None else PackFirsts(first.value, members, vs, k + 1)
  }

  /** Unnamed members of a struct, wherever they are in it, are all packed from what was
      stored for the first of them. */
  lemma UnnamedShareAValue(dg: Bytes, members: seq<Member>, vs: seq<S.Value>)
    requires ToBsonAll(members, vs).Some?
    ensures |vs| == |members| && forall i :: 0 <= i < |members| ==> ToBson(members[i].field, vs[i]).Some?
    ensures Pack(dg, Struct(members), ToBson(Struct(members), S.ListV(vs)).value) == PackFirsts(dg, members, vs, 0)
  {
    hide ToBsonAll, PackFirsts;
    StoredLength(members, vs);
    EachStored(members, vs);
    assert members[0..] == members;
    MembersFromFirsts(dg, members, vs, 0);
  }

  lemma {:induction false} EachStored(members: seq<Member>, vs: seq<S.Value>)
    requires ToBsonAll(members, vs).Some? && |vs| == |members|
    ensures forall i :: 0 <= i < |members| ==> ToBson(members[i].field, vs[i]).Some?
    decreases |members|
  {
    if members != [] {
      EachStored(members[1..], vs[1..]);
      forall i | 0 <= i < |members| ensures ToBson(members[i].field, vs[i]).Some? {
        if i > 0 { assert members[1..][i - 1] == members[i] && vs[1..][i - 1] == vs[i]; }
      }
    }
  }

  lemma {:induction false} MembersFromFirsts(dg: Bytes, members: seq<Member>, vs: seq<S.Value>, k: nat)
    requires k <= |members| == |vs| && ToBsonAll(members, vs).Some?
    requires forall i :: 0 <= i < |members| ==> ToBson(members[i].field, vs[i]).Some?
    ensures PackMembers(dg, members[k..], ToBsonAll(members, vs).value) == PackFirsts(dg, members, vs, k)
    decreases |members| - k
  {
    hide Pack, ToBson, ToBsonAll, Find;
    if k < |members| {
      assert members[k..][0] == members[k] && members[k..][1..] == members[k + 1..];
      FirstIsFound(members, vs, members[k].name);
      var j := First(members, members[k].name);
      var first := Pack(dg, members[k].field, ToBson(members[j].field, vs[j]).value);
      if first.Some? { MembersFromFirsts(first.value, members, vs, k + 1); }
    }
  }

  /** Members of one name are of one type. */
  predicate Alike(members: seq<Member>) {
    forall i, j :: 0 <= i < j < |members| && members[i].name == members[j].name ==> members[i].field == members[j].field
  }

  /** A struct of supported members comes back exactly if those of one name and type are
      equal. */
  lemma UnnamedComeBackIff(dg: Bytes, members: seq<Member>, vs: seq<S.Value>)
    requires AllSupported(members) && Alike(members) && S.AllLegal(WireAll(members))
    requires S.EncAll(WireAll(members), vs).Some? && |dg| + |S.EncAll(WireAll(members), vs).value| <= MAX
    ensures |vs| == |members|
    ensures ComesBack(dg, Struct(members), S.ListV(vs))
       <==> forall i, j :: 0 <= i < j < |members| && members[i].name == members[j].name ==> vs[i] == vs[j]
  {
    hide S.EncAll, S.AllLegal, AllSupported, WireAll, ToBsonAll, PackFirsts, Pack, ToBson;
    EncodedLength(members, vs);
    SupportedAreStored(members, vs);
    UnnamedShareAValue(dg, members, vs);
    var ws := seq(|vs|, k requires 0 <= k < |vs| => Shared(members, vs, k));
    SharedEncode(members, vs, ws, 0);
    FirstsPacked(dg, members, vs, ws, 0);
    assert members[0..] == members && vs[0..] == vs && ws[0..] == ws;
    StructComesBackIff(dg, members, vs, ws);
    SharedAreEqual(members, vs, ws);
  }

  lemma {:induction false} EncodedLength(members: seq<Member>, vs: seq<S.Value>)
    requires S.EncAll(WireAll(members), vs).Some?
    ensures |vs| == |members|
    decreases |members|
  {
    if members != [] { EncodedLength(members[1..], vs[1..]); }
  }

  lemma SupportedAreStored(members: seq<Member>, vs: seq<S.Value>)
    requires AllSupported(members) && S.AllLegal(WireAll(members)) && S.EncAll(WireAll(members), vs).Some?
    ensures ToBsonAll(members, vs).Some?
  {
    SupportedIsAllClean(members, vs);
    CleanMembersEcho(members, vs);
    SwitchesInAll(members, vs);
  }

  lemma {:induction false} MemberAt(members: seq<Member>, vs: seq<S.Value>, k: nat)
    requires AllSupported(members) && S.AllLegal(WireAll(members)) && S.EncAll(WireAll(members), vs).Some?
    requires k < |members| == |vs|
    ensures Supported(members[k].field) && S.Legal(Wire(members[k].field)) && S.Enc(Wire(members[k].field), vs[k]).Some?
    decreases k
  {
    if k > 0 { MemberAt(members[1..], vs[1..], k - 1); }
  }

  /** The values found in the place of `vs` fit the members too. */
  lemma {:induction false} SharedEncode(members: seq<Member>, vs: seq<S.Value>, ws: seq<S.Value>, k: nat)
    requires AllSupported(members) && Alike(members) && S.AllLegal(WireAll(members))
    requires S.EncAll(WireAll(members), vs).Some? && k <= |members| == |vs| == |ws|
    requires forall i :: 0 <= i < |vs| ==> ws[i] == Shared(members, vs, i)
    ensures S.EncAll(WireAll(members[k..]), ws[k..]).Some?
    decreases |members| - k
  {
    if k < |members| {
      hide S.AllLegal, AllSupported, S.Enc;
      SharedFits(members, vs, k);
      SharedEncode(members, vs, ws, k + 1);
      assert members[k..][0] == members[k] && members[k..][1..] == members[k + 1..];
      assert ws[k..][0] == ws[k] && ws[k..][1..] == ws[k + 1..];
      assert WireAll(members[k..])[1..] == WireAll(members[k + 1..]);
    }
  }

  lemma SharedFits(members: seq<Member>, vs: seq<S.Value>, k: nat)
    requires AllSupported(members) && Alike(members) && S.AllLegal(WireAll(members))
    requires S.EncAll(WireAll(members), vs).Some? && k < |members| == |vs|
    ensures var j := First(members, members[k].name);
            members[j].field == members[k].field && j <= k
    ensures Supported(members[k].field) && S.Legal(Wire(members[k].field))
    ensures S.Enc(Wire(members[k].field), Shared(members, vs, k)).Some?
  {
    var j := First(members, members[k].name);
    MemberAt(members, vs, k);
    MemberAt(members, vs, j);
  }

  lemma {:induction false} FirstsPacked(dg: Bytes, members: seq<Member>, vs: seq<S.Value>, ws: seq<S.Value>, k: nat)
    requires |dg| <= MAX && AllSupported(members) && Alike(members) && S.AllLegal(WireAll(members))
    requires S.EncAll(WireAll(members), vs).Some? && k <= |members| == |vs| == |ws|
    requires forall i :: 0 <= i < |members| ==> ToBson(members[i].field, vs[i]).Some?
    requires forall i :: 0 <= i < |vs| ==> ws[i] == Shared(members, vs, i)
    requires S.EncAll(WireAll(members[k..]), ws[k..]).Some?
    ensures PackFirsts(dg, members, vs, k) == Add(dg, S.EncAll(WireAll(members[k..]), ws[k..]).value)
    decreases |members| - k
  {
    hide S.AllLegal, AllSupported, S.Enc, Pack, ToBson, Supported, Clean, S.Legal;
    if k == |members| {
      AddNothing(dg);
    } else {
      SharedFits(members, vs, k);
      assert members[k..][0] == members[k] && members[k..][1..] == members[k + 1..];
      assert ws[k..][0] == ws[k] && ws[k..][1..] == ws[k + 1..];
      assert WireAll(members[k..])[1..] == WireAll(members[k + 1..]);
      SupportedIsClean(members[k].field, ws[k]);
      RoundTrip(dg, members[k].field, ws[k]);
      var first := S.Enc(Wire(members[k].field), ws[k]).value;
      AddTwice(dg, first, S.EncAll(WireAll(members[k + 1..]), ws[k + 1..]).value);
      FirstsPacked(if Add(dg, first).Some? then Add(dg, first).value else dg, members, vs, ws, k + 1);
    }
  }

  lemma StructComesBackIff(dg: Bytes, members: seq<Member>, vs: seq<S.Value>, ws: seq<S.Value>)
    requires ToBsonAll(members, vs).Some? && S.AllLegal(WireAll(members))
    requires S.EncAll(WireAll(members), vs).Some? && S.EncAll(WireAll(members), ws).Some?
    requires |dg| + |S.EncAll(WireAll(members), vs).value| <= MAX
    requires Pack(dg, Struct(members), ToBson(Struct(members), S.ListV(vs)).value)
          == Add(dg, S.EncAll(WireAll(members), ws).value)
    ensures ComesBack(dg, Struct(members), S.ListV(vs)) <==> ws == vs
  {
    hide S.EncAll, S.AllLegal, WireAll, ToBsonAll, Pack;
    var n := WireAll(members);
    var e, d := S.EncAll(n, vs).value, S.EncAll(n, ws).value;
    Codec.RoundTripAll(n, vs, []);
    Codec.RoundTripAll(n, ws, []);
    if dg + d == dg + e { assert d == (dg + d)[|dg|..] == (dg + e)[|dg|..] == e; }
    assert S.Enc(Wire(Struct(members)), S.ListV(vs)) == Some(e);
  }

  lemma SharedAreEqual(members: seq<Member>, vs: seq<S.Value>, ws: seq<S.Value>)
    requires |members| == |vs| == |ws| && forall i :: 0 <= i < |vs| ==> ws[i] == Shared(members, vs, i)
    ensures ws == vs
       <==> forall i, j :: 0 <= i < j < |members| && members[i].name == members[j].name ==> vs[i] == vs[j]
  {
    if ws == vs {
      forall i, j | 0 <= i < j < |members| && members[i].name == members[j].name ensures vs[i] == vs[j] {
        assert Shared(members, vs, i) == Shared(members, vs, j);
      }
    } else {
      var k :| 0 <= k < |vs| && ws[k] != vs[k];
      var j := First(members, members[k].name);
      assert j < k && members[j].name == members[k].name && vs[j] != vs[k];
    }
  }

  /* ---- Exactly which values come back ---- */

  ghost predicate ComesBack(dg: Bytes, f: Field, v: S.Value) {
    S.Enc(Wire(f), v).Some? && ToBson(f, v).Some? && Pack(dg, f, ToBson(f, v).value) == Some(dg + S.Enc(Wire(f), v).value)
  }

  /** Some part of the field has bytes that are not packed. */
  predicate Shrinks(f: Field)
    decreases f, 0
  {
    match f
    case Blob(_, lengths) => !S.OneValue(lengths)
    case List(elem, _) => if IsSimple(elem) || elem.Struct? then Shrinks(elem) else true
    case Struct(members) => AnyShrinks(members)
    case Atomic(members) => AnyShrinks(members)
    case _ => false
  }

  predicate AnyShrinks(members: seq<Member>)
    decreases members, 0
  {
    members != [] && (Shrinks(members[0].field) || AnyShrinks(members[1..]))
  }

  /** Some part of the field is packed with a length that it does not have. */
  predicate Grows(f: Field)
    decreases f, 0
  {
    match f
    case Str(lengths) => S.OneValue(lengths)
    case List(elem, size) =>
      (IsSimple(elem) || elem.Struct?) && (Grows(elem) || (S.OneValue(size) && S.FixedSize(Wire(elem)).Some?))
    case Struct(members) => AnyGrows(members)
    case Atomic(members) => AnyGrows(members)
    case _ => false
  }

  predicate AnyGrows(members: seq<Member>)
    decreases members, 0
  {
    members != [] && (Grows(members[0].field) || AnyGrows(members[1..]))
  }

  /** Losses alone do not cancel. */
  lemma {:induction false} OnlyLosses(f: Field, v: S.Value)
    requires Apart(f, v) && S.Legal(Wire(f)) && S.Enc(Wire(f), v).Some? && !Grows(f) && Echo(f, v).Some?
    ensures |Echo(f, v).value| <= |S.Enc(Wire(f), v).value|
    ensures |Echo(f, v).value| == |S.Enc(Wire(f), v).value| ==> Clean(f, v)
    decreases f, 2, 0
  {
    match f
    case List(elem, size) =>
      assert S.Enc(Wire(f), v) == S.EncArray(Wire(f), v);
      if IsSimple(elem) || elem.Struct? { OnlyLossesEach(elem, v.items); }
      else if S.Enc(Wire(f), v) == Some([]) { EmptyIsClean(f, v); }
    case Struct(members) => OnlyLossesAll(members, v.items);
    case Atomic(members) => OnlyLossesAll(members, v.items);
    case Pairs => assert S.Enc(Wire(f), v) == S.EncArray(Wire(f), v);
    case _ =>
  }

  lemma EmptyIsClean(f: Field, v: S.Value)
    requires f.List? && S.Legal(Wire(f)) && S.Enc(Wire(f), v) == Some([])
    ensures v == S.ListV([]) && S.LengthBytes(Wire(f)) == 0
  {
    assert S.Enc(Wire(f), v) == S.EncArray(Wire(f), v);
    if v.items != [] { Codec.EncIsPositive(Wire(f.elem), v.items[0]); }
  }

  lemma {:induction false} OnlyLossesEach(elem: Field, vs: seq<S.Value>)
    requires EachApart(elem, vs) && S.Legal(Wire(elem)) && S.EncRepeat(Wire(elem), vs).Some?
    requires !Grows(elem) && EchoEach(elem, vs).Some?
    ensures |EchoEach(elem, vs).value| <= |S.EncRepeat(Wire(elem), vs).value|
    ensures |EchoEach(elem, vs).value| == |S.EncRepeat(Wire(elem), vs).value| ==> EachClean(elem, vs)
    decreases elem, 3, |vs|
  {
    if vs != [] {
      OnlyLosses(elem, vs[0]);
      OnlyLossesEach(elem, vs[1..]);
    }
  }

  lemma {:induction false} OnlyLossesAll(members: seq<Member>, vs: seq<S.Value>)
    requires AllApart(members, vs) && S.AllLegal(WireAll(members)) && S.EncAll(WireAll(members), vs).Some?
    requires !AnyGrows(members) && EchoAll(members, vs).Some?
    ensures |EchoAll(members, vs).value| <= |S.EncAll(WireAll(members), vs).value|
    ensures |EchoAll(members, vs).value| == |S.EncAll(WireAll(members), vs).value| ==> AllClean(members, vs)
    decreases members, 1
  {
    if members != [] {
      OnlyLosses(members[0].field, vs[0]);
      OnlyLossesAll(members[1..], vs[1..]);
    }
  }

  /** Nor do gains. */
  lemma {:induction false} OnlyGains(f: Field, v: S.Value)
    requires Apart(f, v) && S.Legal(Wire(f)) && S.Enc(Wire(f), v).Some? && !Shrinks(f) && Echo(f, v).Some?
    ensures |Echo(f, v).value| >= |S.Enc(Wire(f), v).value|
    ensures |Echo(f, v).value| == |S.Enc(Wire(f), v).value| ==> Clean(f, v)
    decreases f, 2, 0
  {
    match f
    case List(elem, size) =>
      assert S.Enc(Wire(f), v) == S.EncArray(Wire(f), v);
      OnlyGainsEach(elem, v.items);
    case Struct(members) => OnlyGainsAll(members, v.items);
    case Atomic(members) => OnlyGainsAll(members, v.items);
    case Pairs => assert S.Enc(Wire(f), v) == S.EncArray(Wire(f), v);
    case _ =>
  }

  lemma {:induction false} OnlyGainsEach(elem: Field, vs: seq<S.Value>)
    requires EachApart(elem, vs) && S.Legal(Wire(elem)) && S.EncRepeat(Wire(elem), vs).Some?
    requires !Shrinks(elem) && EchoEach(elem, vs).Some?
    ensures |EchoEach(elem, vs).value| >= |S.EncRepeat(Wire(elem), vs).value|
    ensures |EchoEach(elem, vs).value| == |S.EncRepeat(Wire(elem), vs).value| ==> EachClean(elem, vs)
    decreases elem, 3, |vs|
  {
    if vs != [] {
      OnlyGains(elem, vs[0]);
      OnlyGainsEach(elem, vs[1..]);
    }
  }

  lemma {:induction false} OnlyGainsAll(members: seq<Member>, vs: seq<S.Value>)
    requires AllApart(members, vs) && S.AllLegal(WireAll(members)) && S.EncAll(WireAll(members), vs).Some?
    requires !AnyShrinks(members) && EchoAll(members, vs).Some?
    ensures |EchoAll(members, vs).value| >= |S.EncAll(WireAll(members), vs).value|
    ensures |EchoAll(members, vs).value| == |S.EncAll(WireAll(members), vs).value| ==> AllClean(members, vs)
    decreases members, 1
  {
    if members != [] {
      OnlyGains(members[0].field, vs[0]);
      OnlyGainsAll(members[1..], vs[1..]);
    }
  }

  /** What has an echo has been stored. */
  lemma {:induction false} EchoIsStored(f: Field, v: S.Value)
    requires Echo(f, v).Some?
    ensures !ReachesSwitch(f, v)
    decreases f, 2, 0
  {
    match f
    case List(elem, _) => if IsSimple(elem) || elem.Struct? { EchoesAreStored(elem, v.items); }
    case Struct(members) => EchoIsAllStored(members, v.items);
    case Atomic(members) => EchoIsAllStored(members, v.items);
    case _ =>
  }

  lemma {:induction false} EchoesAreStored(elem: Field, vs: seq<S.Value>)
    requires EchoEach(elem, vs).Some?
    ensures !SomeReachSwitch(elem, vs)
    decreases elem, 3, |vs|
  {
    if vs != [] {
      EchoIsStored(elem, vs[0]);
      EchoesAreStored(elem, vs[1..]);
    }
  }

  lemma {:induction false} EchoIsAllStored(members: seq<Member>, vs: seq<S.Value>)
    requires EchoAll(members, vs).Some?
    ensures !AnyReachSwitch(members, vs)
    decreases members, 1
  {
    if members != [] && vs != [] {
      EchoIsStored(members[0].field, vs[0]);
      EchoIsAllStored(members[1..], vs[1..]);
    }
  }

  /** A value comes back exactly if its echo is its encoding. A clean value does, and of a
      field that does not both shrink and grow no other. */
  lemma ComesBackIff(dg: Bytes, f: Field, v: S.Value)
    requires Apart(f, v) && S.Legal(Wire(f)) && S.Enc(Wire(f), v).Some? && |dg| + |S.Enc(Wire(f), v).value| <= MAX
    ensures ComesBack(dg, f, v) <==> Echo(f, v) == S.Enc(Wire(f), v)
    ensures Clean(f, v) ==> ComesBack(dg, f, v)
    ensures !(Shrinks(f) && Grows(f)) ==> (ComesBack(dg, f, v) <==> Clean(f, v))
  {
    hide S.Enc, S.Legal, Clean, Pack, ToBson, Wire, Apart, Shrinks, Grows, Echo, ReachesSwitch;
    SwitchesAreRefused(f, v);
    if ToBson(f, v).Some? { EchoIsPacked(dg, f, v); }
    if Echo(f, v).Some? {
      EchoIsStored(f, v);
      var e, d := S.Enc(Wire(f), v).value, Echo(f, v).value;
      if dg + d == dg + e { assert d == (dg + d)[|dg|..] == (dg + e)[|dg|..] == e; }
      if !Grows(f) { OnlyLosses(f, v); } else if !Shrinks(f) { OnlyGains(f, v); }
    }
    if Clean(f, v) { CleanEchoes(f, v); }
  }

  /** No array in the value is empty. */
  predicate Full(f: Field, v: S.Value)
    decreases f, 0
  {
    match f
    case Pairs => v.ListV? && v.items != []
    case List(elem, _) => v.ListV? && v.items != [] && EachFull(elem, v.items)
    case Struct(members) => v.ListV? && AllFull(members, v.items)
    case Atomic(members) => v.ListV? && AllFull(members, v.items)
    case _ => true
  }

  predicate EachFull(elem: Field, vs: seq<S.Value>)
    decreases elem, 1, |vs|
  {
    vs == [] || (Full(elem, vs[0]) && EachFull(elem, vs[1..]))
  }

  predicate AllFull(members: seq<Member>, vs: seq<S.Value>)
    decreases members, 0
  {
    members == [] || (vs != [] && Full(members[0].field, vs[0]) && AllFull(members[1..], vs[1..]))
  }

  /** A full value is clean only if the field is supported. */
  lemma {:induction false} FullIsClean(f: Field, v: S.Value)
    requires Full(f, v) && Clean(f, v)
    ensures Supported(f)
    decreases f, 2
  {
    match f
    case List(elem, _) => FullIsClean(elem, v.items[0]);
    case Struct(members) => AllFullIsClean(members, v.items);
    case Atomic(members) => AllFullIsClean(members, v.items);
    case _ =>
  }

  lemma {:induction false} AllFullIsClean(members: seq<Member>, vs: seq<S.Value>)
    requires AllFull(members, vs) && AllClean(members, vs)
    ensures AllSupported(members)
    decreases members, 1
  {
    if members != [] {
      FullIsClean(members[0].field, vs[0]);
      AllFullIsClean(members[1..], vs[1..]);
    }
  }

  /** No struct has two unnamed members. */
  predicate NamesDiffer(f: Field)
    decreases f, 0
  {
    match f
    case List(elem, _) => NamesDiffer(elem)
    case Struct(members) => DistinctNames(members) && AllNamesDiffer(members)
    case Atomic(members) => AllNamesDiffer(members)
    case _ => true
  }

  predicate AllNamesDiffer(members: seq<Member>)
    decreases members, 0
  {
    members == [] || (NamesDiffer(members[0].field) && AllNamesDiffer(members[1..]))
  }

  lemma {:induction false} DifferentIsApart(f: Field, v: S.Value)
    requires NamesDiffer(f) && S.Enc(Wire(f), v).Some?
    ensures Apart(f, v)
    decreases f, 2, 0
  {
    match f
    case List(elem, _) =>
      assert S.Enc(Wire(f), v) == S.EncArray(Wire(f), v);
      DifferentIsEachApart(elem, v.items);
    case Struct(members) => DifferentIsAllApart(members, v.items);
    case Atomic(members) => DifferentIsAllApart(members, v.items);
    case _ =>
  }

  lemma {:induction false} DifferentIsEachApart(elem: Field, vs: seq<S.Value>)
    requires NamesDiffer(elem) && S.EncRepeat(Wire(elem), vs).Some?
    ensures EachApart(elem, vs)
    decreases elem, 3, |vs|
  {
    if vs != [] {
      DifferentIsApart(elem, vs[0]);
      DifferentIsEachApart(elem, vs[1..]);
    }
  }

  lemma {:induction false} DifferentIsAllApart(members: seq<Member>, vs: seq<S.Value>)
    requires AllNamesDiffer(members) && S.EncAll(WireAll(members), vs).Some?
    ensures AllApart(members, vs)
    decreases members, 1
  {
    if members != [] {
      DifferentIsApart(members[0].field, vs[0]);
      DifferentIsAllApart(members[1..], vs[1..]);
    }
  }

  /** The value fits its field and a datagram. */
  ghost predicate Fits(f: Field, v: S.Value) {
    S.Enc(Wire(f), v).Some? && |S.Enc(Wire(f), v).value| <= MAX
  }

  ghost predicate EveryValueComesBack(f: Field) {
    forall v :: Fits(f, v) ==> ComesBack([], f, v)
  }

  ghost predicate EveryValueIsClean(f: Field) {
    forall v :: Fits(f, v) ==> Clean(f, v)
  }

  ghost predicate EveryValueEchoes(f: Field) {
    forall v :: Fits(f, v) ==> Echo(f, v) == S.Enc(Wire(f), v)
  }

  ghost predicate HasFullValue(f: Field) {
    exists v :: Fits(f, v) && Full(f, v)
  }

  /** Of a supported field every value comes back. Of a field that does not both shrink and
      grow, every value does exactly if every value is clean, and then, if there is a full
      one, the field is supported. */
  lemma EveryValueComesBackIff(f: Field)
    requires NamesDiffer(f) && S.Legal(Wire(f))
    ensures EveryValueComesBack(f) <==> EveryValueEchoes(f)
    ensures Supported(f) ==> EveryValueComesBack(f)
    ensures !(Shrinks(f) && Grows(f)) ==> (EveryValueComesBack(f) <==> EveryValueIsClean(f))
    ensures !(Shrinks(f) && Grows(f)) && HasFullValue(f) ==> (EveryValueComesBack(f) <==> Supported(f))
  {
    hide S.Enc, S.Legal, Clean, Wire, NamesDiffer, Shrinks, Grows, Supported, Full, ComesBack, Echo;
    forall v | Fits(f, v)
      ensures ComesBack([], f, v) <==> Echo(f, v) == S.Enc(Wire(f), v)
      ensures Clean(f, v) ==> ComesBack([], f, v)
      ensures !(Shrinks(f) && Grows(f)) ==> (ComesBack([], f, v) <==> Clean(f, v))
      ensures Supported(f) ==> Clean(f, v)
      ensures Full(f, v) && Clean(f, v) ==> Supported(f)
    {
      DifferentIsApart(f, v);
      ComesBackIff([], f, v);
      if Supported(f) { SupportedIsClean(f, v); }
      if Full(f, v) && Clean(f, v) { FullIsClean(f, v); }
    }
  }

  /* ---- Fields that both shrink and grow ---- */

  function Pair(f: Field, g: Field): Field {
    Struct([Member("a", f), Member("b", g)])
  }

  lemma PairParts(f: Field, g: Field)
    ensures S.Legal(Wire(Pair(f, g))) <==> S.Legal(Wire(f)) && S.Legal(Wire(g))
    ensures NamesDiffer(Pair(f, g)) <==> NamesDiffer(f) && NamesDiffer(g)
    ensures Shrinks(Pair(f, g)) <==> Shrinks(f) || Shrinks(g)
    ensures Grows(Pair(f, g)) <==> Grows(f) || Grows(g)
    ensures Supported(Pair(f, g)) <==> Supported(f) && Supported(g)
  {
    var m, n := Member("a", f), Member("b", g);
    PairWire(f, g);
    assert [m, n][1..] == [n] && [n][1..] == [] && [Wire(f), Wire(g)][1..] == [Wire(g)] && [Wire(g)][1..] == [];
    assert AllNamesDiffer([n]) <==> NamesDiffer(g);
    assert AnyShrinks([n]) <==> Shrinks(g);
    assert AnyGrows([n]) <==> Grows(g);
    assert AllSupported([n]) <==> Supported(g);
    assert S.AllLegal([Wire(g)]) <==> S.Legal(Wire(g));
  }

  lemma PairWire(f: Field, g: Field)
    ensures Wire(Pair(f, g)) == S.Record([Wire(f), Wire(g)])
  {
    hide Wire;
    var m, n := Member("a", f), Member("b", g);
    assert [m, n][1..] == [n] && [n][1..] == [];
    assert WireAll([n]) == [Wire(g)] && WireAll([m, n]) == [Wire(f), Wire(g)];
    assert Wire(Pair(f, g)) == S.Record(WireAll([m, n])) by { PairUnfolds([m, n]); }
  }

  lemma PairUnfolds(members: seq<Member>)
    ensures Wire(Struct(members)) == S.Record(WireAll(members))
  {
  }

  lemma PairValues(f: Field, g: Field, x: S.Value, y: S.Value)
    ensures Apart(Pair(f, g), S.ListV([x, y])) <==> Apart(f, x) && Apart(g, y)
    ensures Clean(Pair(f, g), S.ListV([x, y])) <==> Clean(f, x) && Clean(g, y)
    ensures Full(Pair(f, g), S.ListV([x, y])) <==> Full(f, x) && Full(g, y)
  {
    var m, n := Member("a", f), Member("b", g);
    assert [m, n][1..] == [n] && [n][1..] == [] && [x, y][1..] == [y] && [y][1..] == [];
    assert AllApart([n], [y]) <==> Apart(g, y);
    assert AllClean([n], [y]) <==> Clean(g, y);
    assert AllFull([n], [y]) <==> Full(g, y);
  }

  lemma PairBytes(f: Field, g: Field, x: S.Value, y: S.Value)
    ensures S.Enc(Wire(Pair(f, g)), S.ListV([x, y])) == S.Join(S.Enc(Wire(f), x), S.Enc(Wire(g), y))
    ensures Echo(Pair(f, g), S.ListV([x, y])) == S.Join(Echo(f, x), Echo(g, y))
  {
    PairWire(f, g);
    var m, n := Member("a", f), Member("b", g);
    assert [m, n][1..] == [n] && [n][1..] == [] && [x, y][1..] == [y] && [y][1..] == [];
    assert [Wire(f), Wire(g)][1..] == [Wire(g)] && [Wire(g)][1..] == [];
    var e, d := S.Enc(Wire(g), y), Echo(g, y);
    if e.Some? { assert e.value + [] == e.value; }
    if d.Some? { assert d.value + [] == d.value; }
    assert S.EncAll([Wire(g)], [y]) == e;
    assert EchoAll([n], [y]) == d;
  }

  lemma PairForm(f: Field, g: Field, v: S.Value)
    requires S.Enc(Wire(Pair(f, g)), v).Some?
    ensures v.ListV? && |v.items| == 2 && v == S.ListV([v.items[0], v.items[1]])
  {
    PairWire(f, g);
    var fields, vs := [Wire(f), Wire(g)], v.items;
    assert fields[1..] == [Wire(g)] && [Wire(g)][1..] == [];
    assert S.EncAll(fields, vs).Some? && S.EncAll([Wire(g)], vs[1..]).Some? && S.EncAll([], vs[1..][1..]).Some?;
    assert vs == [vs[0], vs[1]];
  }

  const ONE: seq<S.Interval> := [S.Interval(1, 1)]
  const FIVE: seq<S.Interval> := [S.Interval(5, 5)]

  /** uint16(5)[1][1] a; string(5) b */
  const NESTED: Field := List(List(Int(2, false, FIVE), ONE), ONE)
  const FIXED: Field := Str(FIVE)

  /** The value of NESTED. */
  const THE_FIVE: S.Value := S.ListV([S.ListV([S.IntV(5)])])

  /** A loss and a gain may cancel in every value: the one number that is left out is the
      length of the string behind it. */
  lemma LossesAndGainsCancel()
    ensures var f := Pair(NESTED, FIXED);
            && S.Legal(Wire(f)) && NamesDiffer(f) && HasFullValue(f)
            && EveryValueComesBack(f) && !Supported(f)
    ensures forall v :: !ComesBack([], NESTED, v) && !ComesBack([], FIXED, v)
  {
    hide S.Enc, S.Legal, Wire, NamesDiffer, Shrinks, Grows, Supported, Full, ComesBack, Echo, Clean, Apart;
    var f := Pair(NESTED, FIXED);
    PartsOfCancelling();
    PairParts(NESTED, FIXED);
    forall v | Fits(f, v) ensures ComesBack([], f, v) {
      PairForm(NESTED, FIXED, v);
      var x, y := v.items[0], v.items[1];
      PairBytes(NESTED, FIXED, x, y);
      NestedEchoes(x);
      FixedEchoes(y);
      DifferentIsApart(f, v);
      ComesBackIff([], f, v);
    }
    FullCancelling();
    forall v ensures !ComesBack([], NESTED, v) && !ComesBack([], FIXED, v) { PartsDoNotComeBack(v); }
  }

  lemma PartsOfCancelling()
    ensures S.Legal(Wire(NESTED)) && NamesDiffer(NESTED) && !Supported(NESTED)
    ensures S.Legal(Wire(FIXED)) && NamesDiffer(FIXED)
  {
    Powers();
  }

  lemma FullCancelling()
    ensures HasFullValue(Pair(NESTED, FIXED))
  {
    var y := S.TextV([0, 0, 0, 0, 0]);
    FiveIsNested();
    FiveBytesFit(y);
    PairBytes(NESTED, FIXED, THE_FIVE, y);
    PairValues(NESTED, FIXED, THE_FIVE, y);
    FiveIsFull();
    assert Full(FIXED, y);
    assert Fits(Pair(NESTED, FIXED), S.ListV([THE_FIVE, y]));
  }

  lemma FiveIsFull()
    ensures Full(NESTED, THE_FIVE)
  {
    var number, z := Int(2, false, FIVE), S.ListV([S.IntV(5)]);
    assert [S.IntV(5)][1..] == [] && [z][1..] == [];
    assert EachFull(number, [S.IntV(5)]);
    assert EachFull(List(number, ONE), [z]);
  }

  /** An array of one element has the bytes of the element. */
  lemma OneElement(elem: S.Schema, v: S.Value)
    requires S.FixedSize(elem).Some? && S.Enc(S.Array(elem, ONE), v).Some?
    ensures v.ListV? && |v.items| == 1 && v.items == [v.items[0]] && S.Enc(S.Array(elem, ONE), v) == S.Enc(elem, v.items[0])
  {
    assert S.Enc(S.Array(elem, ONE), v) == S.EncArray(S.Array(elem, ONE), v);
    JustOne(elem, v.items[0]);
  }

  lemma OneEncodes(elem: S.Schema, x: S.Value)
    requires S.FixedSize(elem).Some? && S.Enc(elem, x).Some?
    ensures S.Enc(S.Array(elem, ONE), S.ListV([x])) == S.Enc(elem, x)
  {
    var s, v := S.Array(elem, ONE), S.ListV([x]);
    assert S.Enc(s, v) == S.EncArray(s, v);
    assert ONE[0].lo <= |v.items| <= ONE[0].hi;
    JustOne(elem, x);
  }

  lemma JustOne(elem: S.Schema, x: S.Value)
    ensures S.EncRepeat(elem, [x]) == S.Enc(elem, x)
    ensures S.Enc(elem, x).Some? ==> Le(|S.Enc(elem, x).value|, 0) + S.Enc(elem, x).value == S.Enc(elem, x).value
  {
    assert [x][1..] == [];
    if S.Enc(elem, x).Some? { assert S.Enc(elem, x).value + [] == S.Enc(elem, x).value; }
  }

  lemma FiveIsNested()
    ensures S.Enc(Wire(NESTED), THE_FIVE) == Some(Le(5, 2))
  {
    var number := S.Num(2, false, FIVE);
    Powers();
    assert FIVE[0].lo <= 5 <= FIVE[0].hi;
    OneEncodes(number, S.IntV(5));
    OneEncodes(S.Array(number, ONE), S.ListV([S.IntV(5)]));
  }

  lemma NestedEchoes(v: S.Value)
    requires S.Enc(Wire(NESTED), v).Some?
    ensures S.Enc(Wire(NESTED), v) == Some(Le(5, 2)) && Echo(NESTED, v) == Some([])
  {
    var number := S.Num(2, false, FIVE);
    OneElement(S.Array(number, ONE), v);
    OneElement(number, v.items[0]);
    assert v.items[0].items[0] == S.IntV(5);
    FiveIsNested();
    var inner, z := List(Int(2, false, FIVE), ONE), S.ListV([S.IntV(5)]);
    assert [S.IntV(5)][1..] == [] && [z][1..] == [];
    assert !SomeReachSwitch(Int(2, false, FIVE), [S.IntV(5)]);
    assert !SomeReachSwitch(inner, [z]);
  }

  lemma FiveBytesFit(v: S.Value)
    requires v.TextV? && |v.text| == 5
    ensures S.Enc(Wire(FIXED), v) == Some(v.text)
  {
    Powers();
    assert FIVE[0].lo <= |v.text| <= FIVE[0].hi;
    assert [] + v.text == v.text;
  }

  lemma FixedEchoes(v: S.Value)
    requires S.Enc(Wire(FIXED), v).Some?
    ensures v.TextV? && S.Enc(Wire(FIXED), v) == Some(v.text)
    ensures S.Join(Some([]), Echo(FIXED, v)) == S.Join(Some(Le(5, 2)), S.Enc(Wire(FIXED), v))
  {
    FiveBytesFit(v);
    assert [] + Sized(v.text) == Le(5, 2) + v.text;
  }

  lemma PartsDoNotComeBack(v: S.Value)
    ensures !ComesBack([], NESTED, v) && !ComesBack([], FIXED, v)
  {
    if S.Enc(Wire(NESTED), v).Some? && ToBson(NESTED, v).Some? {
      NestedEchoes(v);
      ArraysOfArraysVanish([], NESTED, v, ToBson(NESTED, v).value);
    }
    if S.Enc(Wire(FIXED), v).Some? { FixedStringsGainALength([], FIXED, v); }
  }

  /** And of other fields in some values: an empty blob in front of an empty string(0)
      comes back, although neither does alone. */
  lemma EmptyTextsCancel()
    ensures var e, blob, str := S.TextV([]), Blob(2, []), Str([S.Interval(0, 0)]);
            && S.Legal(Wire(Pair(blob, str))) && ComesBack([], Pair(blob, str), S.ListV([e, e]))
            && !ComesBack([], blob, e) && !ComesBack([], str, e)
  {
    var e, blob, str := S.TextV([]), Blob(2, []), Str([S.Interval(0, 0)]);
    EmptyTexts(e, blob, str);
    hide S.Enc, S.Legal, Wire, Echo, ComesBack, Apart;
    PairParts(blob, str);
    PairValues(blob, str, e, e);
    PairBytes(blob, str, e, e);
    assert [] + Le(0, 2) == Le(0, 2) + [];
    ComesBackIff([], Pair(blob, str), S.ListV([e, e]));
    ComesBackIff([], blob, e);
    ComesBackIff([], str, e);
  }

  lemma EmptyTexts(e: S.Value, blob: Field, str: Field)
    requires e == S.TextV([]) && blob == Blob(2, []) && str == Str([S.Interval(0, 0)])
    ensures S.Legal(Wire(blob)) && S.Legal(Wire(str)) && Apart(blob, e) && Apart(str, e)
    ensures S.Enc(Wire(blob), e) == Some(Le(0, 2)) && S.Enc(Wire(str), e) == Some([])
    ensures Echo(blob, e) == Some([]) && Echo(str, e) == Some(Le(0, 2))
  {
    Powers();
    assert str.lengths[0].lo <= 0 <= str.lengths[0].hi;
    assert Le(0, 2) + [] == Le(0, 2) && Le(0, 0) + [] == [];
  }

  /* ---- In place ---- */

  class Datagram {
    var buf: Bytes

    constructor ()
      ensures buf == []
    {
      buf := [];
    }

    /** EnsureLength() and the copy after it. False stands for the exception. */
    method Append(b: Bytes) returns (ok: bool)
      modifies this
      ensures Add(old(buf), b) == if ok then Some(buf) else None
    {
      if |buf| + |b| > MAX { return false; }
      buf := buf + b;
      ok := true;
    }

    method AppendNumber(width: nat, signed: bool, x: Bson) returns (ok: bool)
      modifies this
      ensures AddNumber(old(buf), width, signed, x) == if ok then Some(buf) else None
    {
      var n := Number(width, signed, x);
      if n.None? { return false; }
      ok := Append(Le(n.value % Pow256(width), width));
    }

    method AppendNumbers(width: nat, signed: bool, xs: seq<Bson>) returns (ok: bool)
      modifies this
      ensures AddNumbers(old(buf), width, signed, xs) == if ok then Some(buf) else None
    {
      assert xs[0..] == xs;
      for i := 0 to |xs|
        invariant AddNumbers(buf, width, signed, xs[i..]) == AddNumbers(old(buf), width, signed, xs)
      {
        assert xs[i..][0] == xs[i] && xs[i..][1..] == xs[i + 1..];
        ok := AppendNumber(width, signed, xs[i]);
        if !ok { return false; }
      }
      assert xs[|xs|..] == [];
      ok := true;
    }

    /** BsonToField() of a uint32uint8array. */
    method AppendPairs(xs: seq<Bson>) returns (ok: bool)
      modifies this
      ensures AddPairs(old(buf), xs) == if ok then Some(buf) else None
    {
      var i := 0;
      assert xs[0..] == xs;
      while i < |xs|
        invariant 0 <= i <= |xs|
        invariant AddPairs(buf, xs[i..]) == AddPairs(old(buf), xs)
      {
        assert xs[i..][0] == xs[i];
        if i + 1 == |xs| {
          assert |xs[i..]| == 1;
          return false;
        }
        assert xs[i..][1] == xs[i + 1] && xs[i..][2..] == xs[i + 2..];
        ok := AppendNumber(4, false, xs[i]);
        if !ok { return false; }
        ok := AppendNumber(1, false, xs[i + 1]);
        if !ok { return false; }
        i := i + 2;
      }
      assert xs[|xs|..] == [];
      ok := true;
    }

    method AppendSimple(f: Field, x: Bson) returns (ok: bool)
      requires IsSimple(f)
      modifies this
      ensures AddSimple(old(buf), f, x) == if ok then Some(buf) else None
    {
      match f
      case Int(width, signed, _) => ok := AppendNumber(width, signed, x);
      case Str(_) =>
        if !x.Text? { return false; }
        ok := Append(Le(|x.text| % 0x1_0000, 2) + x.text);
      case Blob(_, _) =>
        if !x.Binary? { return false; }
        ok := Append(x.data);
      case IntArray(width, signed) =>
        if !x.Arr? { return false; }
        var arrDg := new Datagram();
        ok := arrDg.AppendNumbers(width, signed, x.items);
        if !ok { return false; }
        ok := Append(Le(|arrDg.buf| % 0x1_0000, 2) + arrDg.buf);
      case Pairs =>
        if !x.Arr? { return false; }
        ok := Append(Le(|x.items| % 0x1_0000, 2));
        if !ok { return false; }
        ok := AppendPairs(x.items);
    }

    /** PackField() */
    method PackField(f: Field, x: Bson) returns (ok: bool)
      modifies this
      ensures Pack(old(buf), f, x) == if ok then Some(buf) else None
      decreases f, 0
    {
      match f
      case Atomic(members) =>
        if !x.Arr? { return false; }
        ok := PackElements(members, x.items);
      case Struct(members) =>
        if !x.Doc? { return false; }
        ok := PackClass(members, x.entries);
      case List(elem, _) =>
        if !IsSimple(elem) && !elem.Struct? { return true; }
        if !x.Arr? { return false; }
        var arrDg := new Datagram();
        ok := arrDg.PackArray(elem, x.items);
        if !ok { return false; }
        ok := Append(Le(|arrDg.buf| % 0x1_0000, 2) + arrDg.buf);
      case Switch(_, _, _) => ok := true;
      case _ => ok := AppendSimple(f, x);
    }

    method PackArray(elem: Field, items: seq<Bson>) returns (ok: bool)
      modifies this
      ensures PackEach(old(buf), elem, items) == if ok then Some(buf) else None
      decreases elem, 1
    {
      assert items[0..] == items;
      for i := 0 to |items|
        invariant PackEach(buf, elem, items[i..]) == PackEach(old(buf), elem, items)
      {
        assert items[i..][0] == items[i] && items[i..][1..] == items[i + 1..];
        ok := PackField(elem, items[i]);
        if !ok { return false; }
      }
      assert items[|items|..] == [];
      ok := true;
    }

    method PackElements(members: seq<Member>, items: seq<Bson>) returns (ok: bool)
      modifies this
      ensures PackItems(old(buf), members, items, 0) == if ok then Some(buf) else None
      decreases members, 0
    {
      assert members[0..] == members;
      for i := 0 to |members|
        invariant PackItems(buf, members[i..], items, i) == PackItems(old(buf), members, items, 0)
      {
        assert members[i..][0] == members[i] && members[i..][1..] == members[i + 1..];
        if i >= |items| { return false; }
        ok := PackField(members[i].field, items[i]);
        if !ok { return false; }
      }
      assert members[|members|..] == [];
      ok := true;
    }

    /** BsonToClass() */
    method PackClass(members: seq<Member>, entries: seq<Entry>) returns (ok: bool)
      modifies this
      ensures PackMembers(old(buf), members, entries) == if ok then Some(buf) else None
      decreases members, 0
    {
      assert members[0..] == members;
      for i := 0 to |members|
        invariant PackMembers(buf, members[i..], entries) == PackMembers(old(buf), members, entries)
      {
        assert members[i..][0] == members[i] && members[i..][1..] == members[i + 1..];
        var x := Find(entries, members[i].name);
        if x.None? { return false; }
        ok := PackField(members[i].field, x.value);
        if !ok { return false; }
      }
      assert members[|members|..] == [];
      ok := true;
    }
  }
}
