/** The parser's value actions on a DCPacker, and parse_string() as the inverse of
    format_data(). */
module DcParser {
  import opened Common
  import opened DcBytes
  import opened DcField
  import opened DcText
  import opened DcPacking
  import opened DcMachine
  import S = DcSchema
  import Codec = DcCodec
  import Walk = DcWalk
  import DcPacker
  import PrintedText

  /* ---- What a tree means ---- */

  /** How many values an item packs: the shorthand `x * n` packs x n times. */
  function Values(item: Item): nat {
    if item.tree.Repeat? then item.tree.times else 1
  }

  /** How many values the first `i` items pack. */
  function Start(items: seq<Item>, i: nat): nat
    requires i <= |items|
  {
    if i == 0 then 0 else Start(items, i - 1) + Values(items[i - 1])
  }

  lemma {:induction false} StartGrows(items: seq<Item>, i: nat, j: nat)
    requires i <= j <= |items|
    ensures Start(items, i) <= Start(items, j)
    decreases j
  {
    if i < j { StartGrows(items, i, j - 1); }
  }

  lemma {:induction false} StartWithoutRepeats(items: seq<Item>, i: nat)
    requires i <= |items| && forall k :: 0 <= k < i ==> !items[k].tree.Repeat?
    ensures Start(items, i) == i
  {
    if i > 0 { StartWithoutRepeats(items, i - 1); }
  }

  predicate IsLeaf(t: Tree) {
    !t.Group? && !t.Repeat?
  }

  /** Packing the tree into the field packs the value, or fails if it does not fit. A number
      means itself in any field. Nothing is said about hex strings that are not an encoding,
      which are packed as they are. */
  ghost predicate Denotes(f: Field, t: Tree, v: S.Value)
    decreases t
  {
    match t
    case NumT(i) => v == S.IntV(i)
    case StrT(text) => (f.Str? || f.Blob?) && v == S.TextV(text)
    case HexT(data) => S.Enc(Wire(f), v) == Some(data)
    case Group(items) =>
      && IsGroup(f) && v.ListV? && |v.items| == Start(items, |items|)
      && forall k :: 0 <= k < |items| ==> DenotesAt(f, items, v.items, k)
    case Repeat(leaf, times) => times == 1 && IsLeaf(leaf) && Denotes(f, leaf, v)
  }

  /** Item `k` means the value that it packs, or each of them. */
  ghost predicate DenotesAt(f: Field, items: seq<Item>, vs: seq<S.Value>, k: nat)
    requires IsGroup(f) && k < |items|
    decreases Group(items), 0
  {
    var t, start := items[k].tree, Start(items, k);
    && (t.Repeat? ==> IsLeaf(t.leaf))
    && forall j :: start <= j < start + Values(items[k]) && j < |vs| ==>
         var slot := Slot(f, ChosenBy(f, vs), j);
         slot.Some? ==> if t.Repeat? then Denotes(slot.value.field, t.leaf, vs[j]) else Denotes(slot.value.field, t, vs[j])
  }

  /** Every name in the tree is the name of the field it is written in front of. */
  ghost predicate NamesMatch(slot: Option<Member>, item: Item, v: S.Value)
    decreases item
  {
    NameMatches(slot, item) && NamesInside(slot, item.tree, v)
  }

  ghost predicate NamesInside(slot: Option<Member>, t: Tree, v: S.Value)
    decreases t
  {
    t.Group? && slot.Some? && IsGroup(slot.value.field) && v.ListV? ==>
      forall k :: 0 <= k < |t.items| ==> NamesMatchAt(slot.value.field, t.items, v.items, k)
  }

  /** The name in front of item `k`; a repeated value is named once. */
  ghost predicate NamesMatchAt(f: Field, items: seq<Item>, vs: seq<S.Value>, k: nat)
    requires IsGroup(f) && k < |items|
    decreases items, 0
  {
    var j := Start(items, k);
    NamesMatch(Slot(f, ChosenBy(f, vs), j), items[k], if j < |vs| then vs[j] else S.ListV(vs))
  }

  predicate NameMatches(slot: Option<Member>, item: Item) {
    item.name.Some? ==> item.name.value == if slot.Some? then slot.value.name else ""
  }

  lemma LeafDenotes(m: Member, v: S.Value, names: bool)
    requires Fits(m, v) && !IsGroup(m.field)
    ensures Denotes(m.field, Shown(m.field, v, names), v) && IsLeaf(Shown(m.field, v, names))
  {
  }

  lemma {:induction false} ShownDenotes(m: Member, v: S.Value, names: bool)
    requires Fits(m, v)
    ensures Denotes(m.field, Shown(m.field, v, names), v) && !Shown(m.field, v, names).Repeat?
    ensures NamesMatch(Some(m), ShownItem(m, v, names), v)
    decreases v
  {
    hide S.Enc, S.Legal, Wire, NameOk, NamesOk, Slot, ChosenBy, DenotesAt, NamesMatchAt;
    var f := m.field;
    if !IsGroup(f) {
      LeafDenotes(m, v, names);
    } else {
      GroupFits(f, v);
      var chosen, items := ChosenBy(f, v.items), Shown(f, v, names).items;
      forall k | 0 <= k < |v.items|
        ensures items[k] == ShownItem(Slot(f, chosen, k).value, v.items[k], names) && !items[k].tree.Repeat?
        ensures Denotes(Slot(f, chosen, k).value.field, items[k].tree, v.items[k])
        ensures NamesMatch(Slot(f, chosen, k), items[k], v.items[k])
      {
        ShownDenotes(Slot(f, chosen, k).value, v.items[k], names);
        ShownAt(f, chosen, v.items, 0, k, names);
      }
      StartWithoutRepeats(items, |items|);
      forall k | 0 <= k < |items| ensures DenotesAt(f, items, v.items, k) && NamesMatchAt(f, items, v.items, k) {
        StartWithoutRepeats(items, k);
        OneValueEach(f, items, v.items, k);
      }
      assert Shown(f, v, names) == Group(items);
      assert NamesInside(Some(m), Group(items), v);
    }
  }

  /** An item that is not repeated packs one value. */
  lemma OneValueEach(f: Field, items: seq<Item>, vs: seq<S.Value>, k: nat)
    requires IsGroup(f) && k < |items| == |vs| && Start(items, k) == k && !items[k].tree.Repeat?
    requires Slot(f, ChosenBy(f, vs), k).Some?
    requires Denotes(Slot(f, ChosenBy(f, vs), k).value.field, items[k].tree, vs[k])
    requires NamesMatch(Slot(f, ChosenBy(f, vs), k), items[k], vs[k])
    ensures DenotesAt(f, items, vs, k) && NamesMatchAt(f, items, vs, k)
  {
    hide Denotes, NamesMatch, Slot, ChosenBy;
  }

  lemma {:induction false} ShownAt(f: Field, chosen: Option<seq<Member>>, vs: seq<S.Value>, k: nat, j: nat, names: bool)
    requires IsGroup(f) && k <= j < |vs| && Slot(f, chosen, j).Some?
    ensures ShownFrom(f, chosen, vs, k, names)[j - k] == ShownItem(Slot(f, chosen, j).value, vs[j], names)
    decreases j - k
  {
    if k < j { ShownAt(f, chosen, vs, k + 1, j, names); }
  }

  /** Texts that fit a field have a 32-bit length. */
  lemma {:induction false} FitsIsStorable(s: S.Schema, v: S.Value)
    requires S.Legal(s) && S.Enc(s, v).Some?
    ensures Storable(v)
    decreases v
  {
    match s
    case Num(_, _, _) =>
    case Text(_, _) => assert Pow256(2) <= Pow256(4);
    case Array(elem, _) =>
      assert S.Enc(s, v) == S.EncArray(s, v);
      RepeatIsStorable(elem, v.items);
    case Record(fields) => AllIsStorable(fields, v.items);
    case Switch(_, _, _) =>
      assert S.Enc(s, v) == S.EncSwitch(s, v);
      FitsIsStorable(s.key, v.items[0]);
      var key := S.Enc(s.key, v.items[0]).value;
      Codec.SelectedIsLegal(s, key);
      AllIsStorable(S.Selected(s.cases, s.other, key).value, v.items[1..]);
      assert forall i :: 1 <= i < |v.items| ==> v.items[i] == v.items[1..][i - 1];
  }

  lemma {:induction false} RepeatIsStorable(elem: S.Schema, vs: seq<S.Value>)
    requires S.Legal(elem) && S.EncRepeat(elem, vs).Some?
    ensures forall i :: 0 <= i < |vs| ==> Storable(vs[i])
    decreases vs
  {
    if vs != [] {
      FitsIsStorable(elem, vs[0]);
      RepeatIsStorable(elem, vs[1..]);
      assert forall i :: 1 <= i < |vs| ==> vs[i] == vs[1..][i - 1];
    }
  }

  lemma {:induction false} AllIsStorable(fields: seq<S.Schema>, vs: seq<S.Value>)
    requires S.AllLegal(fields) && S.EncAll(fields, vs).Some?
    ensures forall i :: 0 <= i < |vs| ==> Storable(vs[i])
    decreases vs
  {
    if vs != [] {
      FitsIsStorable(fields[0], vs[0]);
      AllIsStorable(fields[1..], vs[1..]);
      assert forall i :: 1 <= i < |vs| ==> vs[i] == vs[1..][i - 1];
    }
  }

  /* ---- Where the packer is while a group is packed ---- */

  /** The packer is at the field `slot`, and the tree means a value there. */
  ghost predicate Expected(m: Machine, slot: Option<Member>, t: Tree, v: S.Value) {
    && Ready(m) && Storable(v) && !t.Repeat?
    && (!Failed(m) && m.cur.Some? ==>
          slot.Some? && m.cur.value == Wire(slot.value.field) && Denotes(slot.value.field, t, v))
  }

  lemma {:induction false} WireAt(members: seq<Member>, k: nat)
    requires k < |members|
    ensures WireAll(members)[k] == Wire(members[k].field)
  {
    if k > 0 { WireAt(members[1..], k - 1); }
  }

  /** Which members of a switch are showing. */
  ghost predicate Showing(f: Field, m: Machine, vs: seq<S.Value>, k: nat, chosen: Option<seq<Member>>) {
    f.Switch? && k >= 1 ==>
      && chosen == ChosenBy(f, vs) && chosen.Some?
      && m.parent == Some(S.Record([Wire(f.key.field)] + WireAll(chosen.value)))
  }

  /** The slot of item `k` is where the packer is. */
  lemma SlotIsCurrent(f: Field, m0: Machine, m: Machine, vs: seq<S.Value>, k: nat, body: Bytes,
                      chosen: Option<seq<Member>>)
    requires IsGroup(f) && !Failed(m0) && !Failed(m) && PackInv(Wire(f), m0, m, vs, k, body)
    requires Showing(f, m, vs, k, chosen)
    ensures m.cur.Some? ==> Slot(f, chosen, k).Some? && m.cur.value == Wire(Slot(f, chosen, k).value.field)
  {
    if m.cur.Some? {
      match f
      case Struct(members) => WireAt(members, k);
      case Atomic(members) => WireAt(members, k);
      case Pairs => PairIsLegal();
      case Switch(key, _, _) =>
        if k >= 1 { WireAt(chosen.value, k - 1); }
      case _ =>
    }
  }

  /** Passing the key shows the members it selects. */
  lemma KeyShows(f: Field, m0: Machine, m: Machine, vs: seq<S.Value>, n: Machine)
    requires f.Switch? && m0.mode.Packing? && !Failed(m0) && !Failed(m) && !Failed(n) && vs != []
    requires PackInv(Wire(f), m0, m, vs, 0, []) && Packed(m, n, vs[0])
    ensures Showing(f, n, vs, 1, Chosen(f.cases, f.other, Slice(n.out, n.pushMark, |n.out|)))
  {
    var s := Wire(f);
    var key := S.Enc(s.key, vs[0]).value;
    KeyAppends(s, m0.out, m, key);
    SelectedIsChosen(f.cases, f.other, key);
    assert Slice(m0.out + Junk(0) + key, |m0.out|, |m0.out + Junk(0) + key|) == key;
  }

  lemma StillShowing(f: Field, m: Machine, vs: seq<S.Value>, k: nat, n: Machine, chosen: Option<seq<Member>>)
    requires k >= 1 && !Failed(m) && !Failed(n) && k < |vs| && Packed(m, n, vs[k])
    requires Showing(f, m, vs, k, chosen)
    ensures Showing(f, n, vs, k + 1, chosen)
  {
  }

  /* ---- The actions ---- */

  /** The action of a value without nested values. */
  function Leaf(m: Machine, t: Tree): Machine {
    if m.cur.None? then m.(packError := true)
    else if t.HexT? then PackLiteral(m, t.data)
    else if t.NumT? && m.cur.value.Num? then PackNum(m, t.i)
    else if t.StrT? && m.cur.value.Text? then PackText(m, t.text)
    else Refuse(m)
  }

  lemma LeafKeepsErrors(m: Machine, t: Tree)
    ensures Leaf(m, t).mode == m.mode && (Failed(m) ==> Failed(Leaf(m, t)))
  {
    Walk.AdvanceKeepsErrors(m.(packError := true));
    if m.cur.Some? && t.HexT? {
      Walk.AdvanceKeepsErrors(m.(out := m.out + t.data));
    } else if m.cur.Some? && t.NumT? && m.cur.value.Num? {
      var s := m.cur.value;
      Walk.AdvanceKeepsErrors(m.(rangeError := m.rangeError || !S.InWidth(t.i, s.width, s.signed) || !S.InRange(s.limits, t.i),
                                 out := m.out + Le(t.i % Pow256(s.width), s.width)));
    } else if m.cur.Some? && t.StrT? && m.cur.value.Text? {
      var s := m.cur.value;
      var l := S.LengthBytes(s);
      Walk.AdvanceKeepsErrors(m.(rangeError := m.rangeError || !S.InRange(s.lengths, |t.text|)
                                               || (s.prefix == 2 && |t.text| >= Pow256(2)),
                                 out := m.out + Le(|t.text| % Pow256(l), l) + t.text));
    }
  }

  lemma LeafPacked(m: Machine, slot: Option<Member>, t: Tree, v: S.Value)
    requires Expected(m, slot, t, v) && !t.Group?
    ensures Packed(m, Leaf(m, t), v)
  {
    hide PackNum, PackText, PackLiteral, Refuse, Advance, S.Enc;
    LeafKeepsErrors(m, t);
    if !Failed(m) && m.cur.Some? {
      var f := slot.value.field;
      match t
      case NumT(i) =>
        if m.cur.value.Num? { NumPacked(m, v); }
        else if m.cur.value.Text? { TextPacked(m, v); }
        else { NumberDoesNotFit(m.cur.value, i); RefusedPacked(m, v); }
      case StrT(text) => TextPacked(m, v);
      case HexT(data) => LiteralPacked(m, data, v);
    }
  }

  lemma NumberDoesNotFit(s: S.Schema, i: int)
    requires !s.Num?
    ensures S.Enc(s, S.IntV(i)) == None
  {
  }

  lemma LiteralPacked(m: Machine, data: Bytes, v: S.Value)
    requires m.cur.Some? && !Failed(m) && S.Enc(m.cur.value, v) == Some(data)
    ensures Packed(m, PackLiteral(m, data), v)
  {
    Walk.AdvanceKeepsErrors(m.(out := m.out + data));
  }

  method PackLeaf(packer: DcPacker.DCPacker, t: Tree)
    modifies packer
    ensures packer.State() == Leaf(old(packer.State()), t)
  {
    if packer.cur.None? {
      packer.packError := true;
    } else if t.HexT? {
      packer.PackLiteral(t.data);
    } else if t.NumT? && packer.cur.value.Num? {
      packer.PackNum(t.i);
    } else if t.StrT? && packer.cur.value.Text? {
      packer.PackText(t.text);
    } else {
      packer.Refuse();
    }
  }

  /** While the values of a group are packed: how far the packer is, and which members of a
      switch are showing. */
  ghost predicate Under(f: Field, vs: seq<S.Value>, m0: Machine, m: Machine, j: nat, body: Bytes, chosen: Option<seq<Member>>) {
    IsGroup(f) && PackInv(Wire(f), m0, m, vs, j, body) && (!Failed(m) ==> Showing(f, m, vs, j, chosen))
  }

  /** While its items are packed: whether the names were right so far, as well. */
  ghost predicate Inside(f: Field, items: seq<Item>, vs: seq<S.Value>, m0: Machine, m: Machine, k: nat, body: Bytes,
                         chosen: Option<seq<Member>>, ok: bool)
    requires IsGroup(f) && k <= |items|
  {
    && Under(f, vs, m0, m, Start(items, k), body, chosen)
    && (!Failed(m) ==> (ok <==> forall i :: 0 <= i < k ==> NamesMatchAt(f, items, vs, i)))
  }

  lemma GroupOpens(f: Field, items: seq<Item>, vs: seq<S.Value>, m0: Machine)
    requires IsGroup(f)
    requires m0.mode.Packing? && m0.cur == Some(Wire(f)) && !Failed(m0) && Ready(m0)
    ensures Inside(f, items, vs, m0, Push(m0), 0, [], None, true)
  {
    hide PackInv, Push;
    PackOpens(m0, vs);
  }

  lemma SlotIsKnown(f: Field, m: Machine, vs: seq<S.Value>, k: nat, chosen: Option<seq<Member>>)
    requires IsGroup(f) && Showing(f, m, vs, k, chosen)
    ensures Slot(f, chosen, k) == Slot(f, ChosenBy(f, vs), k)
  {
  }

  /** The packer is at the slot of value `j`, which the tree means. */
  lemma ValueExpected(f: Field, t: Tree, vs: seq<S.Value>, m0: Machine, m: Machine, j: nat, body: Bytes, chosen: Option<seq<Member>>)
    requires IsGroup(f) && j < |vs| && Storable(vs[j]) && !t.Repeat?
    requires var slot := Slot(f, ChosenBy(f, vs), j); slot.Some? ==> Denotes(slot.value.field, t, vs[j])
    requires m0.cur == Some(Wire(f)) && !Failed(m0) && Ready(m0)
    requires Under(f, vs, m0, m, j, body, chosen)
    ensures Expected(m, if Failed(m) then None else Slot(f, chosen, j), t, vs[j])
  {
    hide PackInv, Slot, ChosenBy, Wire, Ready;
    assert S.Legal(Wire(f)) by { ReadyIsLegal(m0); }
    PackChildReady(Wire(f), m0, m, vs, j, body);
    if !Failed(m) {
      SlotIsCurrent(f, m0, m, vs, j, body, chosen);
      SlotIsKnown(f, m, vs, j, chosen);
    }
  }

  lemma ReadyIsLegal(m: Machine)
    requires Ready(m) && !Failed(m) && m.cur.Some?
    ensures S.Legal(m.cur.value)
  {
  }

  /** The members showing after value `j`. */
  function ShowingAfter(slot: Option<Member>, j: nat, n: Machine, chosen: Option<seq<Member>>): Option<seq<Member>> {
    if j == 0 && slot.Some? && slot.value.field.Switch?
    then Chosen(slot.value.field.cases, slot.value.field.other, Slice(n.out, n.pushMark, |n.out|)) else chosen
  }

  lemma ValuePacked(slot: Member, vs: seq<S.Value>, m0: Machine, m: Machine, j: nat, body: Bytes,
                    chosen: Option<seq<Member>>, n: Machine)
    requires IsGroup(slot.field) && j < |vs|
    requires m0.mode.Packing? && m0.cur == Some(Wire(slot.field)) && !Failed(m0)
    requires Under(slot.field, vs, m0, m, j, body, chosen)
    requires Packed(m, n, vs[j])
    ensures Under(slot.field, vs, m0, n, j + 1, body + Added(m, vs[j]), ShowingAfter(Some(slot), j, n, chosen))
  {
    hide PackInv, Slot, ChosenBy, Wire, Packed, Added;
    var f := slot.field;
    PackStep(Wire(f), m0, m, vs, j, body, n);
    if !Failed(n) {
      PackedKeepsErrors(m, n, vs[j]);
      if f.Switch? {
        if j == 0 { NoBody(f, m0, m, vs, body); KeyShows(f, m0, m, vs, n); }
        else { StillShowing(f, m, vs, j, n, chosen); }
      }
    }
  }

  lemma PackedKeepsErrors(m: Machine, n: Machine, v: S.Value)
    requires Packed(m, n, v)
    ensures Failed(m) ==> Failed(n)
  {
  }

  lemma NoBody(f: Field, m0: Machine, m: Machine, vs: seq<S.Value>, body: Bytes)
    requires f.Switch? && !Failed(m0) && !Failed(m) && PackInv(Wire(f), m0, m, vs, 0, body)
    ensures body == []
  {
  }

  /** What is known while the items of a group are packed. */
  ghost predicate Grouped(slot: Option<Member>, items: seq<Item>, v: S.Value, m0: Machine) {
    && slot.Some? && Denotes(slot.value.field, Group(items), v) && Storable(v)
    && m0.mode.Packing? && m0.cur == Some(Wire(slot.value.field)) && !Failed(m0) && Ready(m0)
  }

  lemma DenotesGroup(f: Field, items: seq<Item>, v: S.Value)
    requires Denotes(f, Group(items), v)
    ensures IsGroup(f) && v.ListV? && |v.items| == Start(items, |items|)
    ensures forall k :: 0 <= k < |items| ==> DenotesAt(f, items, v.items, k)
  {
  }

  /** The values of item `k`. */
  lemma ItemDenotes(f: Field, items: seq<Item>, v: S.Value, k: nat, j: nat)
    requires Denotes(f, Group(items), v) && Storable(v) && k < |items| && Start(items, k) <= j < Start(items, k + 1)
    ensures IsGroup(f) && v.ListV? && j < |v.items| && Storable(v.items[j])
    ensures var slot := Slot(f, ChosenBy(f, v.items), j);
            slot.Some? ==> Denotes(slot.value.field, if items[k].tree.Repeat? then items[k].tree.leaf else items[k].tree, v.items[j])
    ensures items[k].tree.Repeat? ==> IsLeaf(items[k].tree.leaf)
  {
    hide Slot, ChosenBy, Denotes;
    DenotesGroup(f, items, v);
    StartGrows(items, k + 1, |items|);
    assert DenotesAt(f, items, v.items, k);
  }

  /** One item is packed, and its name was right or wrong. */
  lemma NameIsNoted(f: Field, items: seq<Item>, vs: seq<S.Value>, m0: Machine, m: Machine, k: nat, body: Bytes,
                    chosen: Option<seq<Member>>, ok: bool, n: Machine, after: Bytes, showing: Option<seq<Member>>, fine: bool)
    requires IsGroup(f) && k < |items|
    requires Inside(f, items, vs, m0, m, k, body, chosen, ok)
    requires Under(f, vs, m0, n, Start(items, k + 1), after, showing)
    requires Failed(m) ==> Failed(n)
    requires !Failed(n) ==> (fine <==> NamesMatchAt(f, items, vs, k))
    ensures Inside(f, items, vs, m0, n, k + 1, after, showing, ok && fine)
  {
    hide Under, NamesMatchAt;
  }

  /** The same value `times` times, which is a number or a hex string. */
  method PackRepeat(packer: DcPacker.DCPacker, slot: Option<Member>, items: seq<Item>, k: nat, done: nat, known: Option<seq<Member>>,
                    ghost v: S.Value, ghost m0: Machine, ghost before: Bytes)
    returns (chosen: Option<seq<Member>>, ghost body: Bytes)
    requires packer.mode.Packing? && k < |items| && items[k].tree.Repeat?
    requires Grouped(slot, items, v, m0) ==>
               done == Start(items, k) && v.ListV? && Under(slot.value.field, v.items, m0, packer.State(), done, before, known)
    modifies packer
    ensures packer.mode.Packing? && (Failed(old(packer.State())) ==> Failed(packer.State()))
    ensures Grouped(slot, items, v, m0) ==>
              v.ListV? && Under(slot.value.field, v.items, m0, packer.State(), done + items[k].tree.times, body, chosen)
  {
    hide Slot, ChosenBy, Wire, Packed, Added, Under, Denotes, Ready, Storable, Chosen, Leaf;
    var leaf := items[k].tree.leaf;
    ghost var means := Grouped(slot, items, v, m0);
    if means { DenotesGroup(slot.value.field, items, v); }
    chosen, body := known, before;
    for i := 0 to items[k].tree.times
      invariant packer.mode.Packing? && (Failed(old(packer.State())) ==> Failed(packer.State()))
      invariant means ==> v.ListV? && Under(slot.value.field, v.items, m0, packer.State(), done + i, body, chosen)
    {
      ghost var m := packer.State();
      if means {
        ItemDenotes(slot.value.field, items, v, k, done + i);
        ValueExpected(slot.value.field, leaf, v.items, m0, m, done + i, body, chosen);
        LeafPacked(m, if Failed(m) then None else Slot(slot.value.field, chosen, done + i), leaf, v.items[done + i]);
      }
      LeafKeepsErrors(m, leaf);
      PackLeaf(packer, leaf);
      ghost var n := packer.State();
      if means {
        ValuePacked(slot.value, v.items, m0, m, done + i, body, chosen, n);
        body := body + Added(m, v.items[done + i]);
      }
      if done + i == 0 && slot.Some? && slot.value.field.Switch? {
        chosen := Chosen(slot.value.field.cases, slot.value.field.other, Slice(packer.out, packer.pushMark, |packer.out|));
      }
    }
  }

  /** A bracketed value: push(), its items, pop(). */
  method PackGroup(packer: DcPacker.DCPacker, slot: Option<Member>, t: Tree, ghost v: S.Value) returns (ok: bool)
    requires packer.mode.Packing? && t.Group?
    modifies packer
    ensures packer.mode.Packing? && (Failed(old(packer.State())) ==> Failed(packer.State()))
    ensures Expected(old(packer.State()), slot, t, v) ==> Packed(old(packer.State()), packer.State(), v)
    ensures Expected(old(packer.State()), slot, t, v) && !Failed(packer.State()) ==> (ok <==> NamesInside(slot, t, v))
    decreases t, 0
  {
    hide PackInv, Slot, ChosenBy, Wire, Packed, Added, NamesMatch, NamesMatchAt, Inside, Under, Denotes, Ready, Push, Pop, Storable, Chosen;
    ghost var m0 := packer.State();
    ghost var means := Grouped(slot, t.items, v, m0);
    assert Expected(m0, slot, t, v) && !Failed(m0) && m0.cur.Some? ==> means by { ExpectedIsGrouped(m0, slot, t, v); }
    if means { DenotesGroup(slot.value.field, t.items, v); }
    var chosen: Option<seq<Member>> := None;
    ghost var body: Bytes := [];
    PushKeepsErrors(m0);
    if means { GroupOpens(slot.value.field, t.items, v.items, m0); }
    packer.Push();
    ok := true;
    var done: nat := 0;
    for k := 0 to |t.items|
      invariant packer.mode.Packing? && done == Start(t.items, k)
      invariant Failed(m0) || m0.cur.None? ==> Failed(packer.State())
      invariant means ==> Inside(slot.value.field, t.items, v.items, m0, packer.State(), k, body, chosen, ok)
    {
      var fine;
      fine, chosen, body := PackMember(packer, slot, t.items, k, done, chosen, v, m0, body, ok);
      ok := ok && fine;
      done := done + Values(t.items[k]);
    }
    ghost var m := packer.State();
    PopKeepsFailure(m);
    if means { GroupCloses(slot.value, t, v, m0, m, body, chosen, ok); }
    packer.Pop();
    if Expected(m0, slot, t, v) && !means { FailedPacked(m0, packer.State(), v); }
  }

  lemma ExpectedIsGrouped(m: Machine, slot: Option<Member>, t: Tree, v: S.Value)
    ensures t.Group? && m.mode.Packing? && Expected(m, slot, t, v) && !Failed(m) && m.cur.Some? ==> Grouped(slot, t.items, v, m)
  {
  }

  /** Item `k` of a group, which packs the values from `done` on. */
  method PackMember(packer: DcPacker.DCPacker, slot: Option<Member>, items: seq<Item>, k: nat, done: nat, known: Option<seq<Member>>,
                    ghost v: S.Value, ghost m0: Machine, ghost before: Bytes, ghost ok: bool)
    returns (fine: bool, chosen: Option<seq<Member>>, ghost body: Bytes)
    requires packer.mode.Packing? && k < |items| && done == Start(items, k)
    requires Grouped(slot, items, v, m0) ==>
               IsGroup(slot.value.field) && v.ListV?
               && Inside(slot.value.field, items, v.items, m0, packer.State(), k, before, known, ok)
    modifies packer
    ensures packer.mode.Packing? && (Failed(old(packer.State())) ==> Failed(packer.State()))
    ensures Grouped(slot, items, v, m0) ==>
              IsGroup(slot.value.field) && v.ListV?
              && Inside(slot.value.field, items, v.items, m0, packer.State(), k + 1, body, chosen, ok && fine)
    decreases items, 1
  {
    hide Slot, ChosenBy, Wire, Packed, Added, Under, Denotes, Ready, Storable, Chosen, NamesMatch, Leaf, Expected;
    ghost var m := packer.State();
    ghost var means := Grouped(slot, items, v, m0);
    var kid := if slot.Some? && IsGroup(slot.value.field) then Slot(slot.value.field, known, done) else None;
    if means { KidIsKnown(slot.value.field, v.items, m0, m, done, before, known); }
    if items[k].tree.Repeat? {
      fine := NameMatches(kid, items[k]);
      chosen, body := PackRepeat(packer, slot, items, k, done, known, v, m0, before);
      if means { RepeatIsNamed(slot.value.field, items, v.items, k, kid); }
    } else {
      if means {
        ItemDenotes(slot.value.field, items, v, k, done);
        ValueExpected(slot.value.field, items[k].tree, v.items, m0, m, done, before, known);
        ExpectedAnywhere(m, kid, items[k].tree, v.items[done]);
      }
      fine := PackItem(packer, kid, items[k], if means then v.items[done] else v);
      ghost var n := packer.State();
      chosen, body := known, before;
      if means {
        ValuePacked(slot.value, v.items, m0, m, done, before, known, n);
        body := before + Added(m, v.items[done]);
        ItemIsNamed(slot.value.field, items, v.items, k, kid);
      }
      if done == 0 && slot.Some? && slot.value.field.Switch? {
        chosen := Chosen(slot.value.field.cases, slot.value.field.other, Slice(packer.out, packer.pushMark, |packer.out|));
      }
    }
    if means { NameIsNoted(slot.value.field, items, v.items, m0, m, k, before, known, ok, packer.State(), body, chosen, fine); }
  }

  lemma KidIsKnown(f: Field, vs: seq<S.Value>, m0: Machine, m: Machine, j: nat, body: Bytes, chosen: Option<seq<Member>>)
    requires Under(f, vs, m0, m, j, body, chosen)
    ensures !Failed(m) ==> Slot(f, chosen, j) == Slot(f, ChosenBy(f, vs), j)
  {
    if !Failed(m) { SlotIsKnown(f, m, vs, j, chosen); }
  }

  lemma RepeatIsNamed(f: Field, items: seq<Item>, vs: seq<S.Value>, k: nat, kid: Option<Member>)
    requires IsGroup(f) && k < |items| && items[k].tree.Repeat?
    ensures kid == Slot(f, ChosenBy(f, vs), Start(items, k)) ==>
              (NamesMatchAt(f, items, vs, k) <==> NameMatches(kid, items[k]))
  {
    var j := Start(items, k);
    var v := if j < |vs| then vs[j] else S.ListV(vs);
    assert NamesInside(kid, items[k].tree, v);
    assert NamesMatch(kid, items[k], v) <==> NameMatches(kid, items[k]);
  }

  lemma ItemIsNamed(f: Field, items: seq<Item>, vs: seq<S.Value>, k: nat, kid: Option<Member>)
    requires IsGroup(f) && k < |items| && Start(items, k) < |vs|
    ensures kid == Slot(f, ChosenBy(f, vs), Start(items, k)) ==>
              (NamesMatchAt(f, items, vs, k) <==> NamesMatch(kid, items[k], vs[Start(items, k)]))
  {
  }

  lemma PushKeepsErrors(m: Machine)
    requires m.mode.Packing?
    ensures Push(m).mode == m.mode && (Failed(m) || m.cur.None? ==> Failed(Push(m)))
  {
  }

  lemma PopKeepsFailure(m: Machine)
    requires m.mode.Packing?
    ensures Pop(m).mode == m.mode && (Failed(m) ==> Failed(Pop(m)))
  {
    if Failed(m) { PopKeepsErrors(m); }
  }

  /** Once something has failed, any tree will do. */
  lemma ExpectedAnywhere(m: Machine, kid: Option<Member>, t: Tree, v: S.Value)
    requires Expected(m, if Failed(m) then None else kid, t, v)
    ensures Expected(m, kid, t, v)
  {
  }

  lemma FailedPacked(m: Machine, n: Machine, v: S.Value)
    requires n.mode == m.mode && (Failed(m) || m.cur.None?) && Failed(n)
    ensures Packed(m, n, v)
  {
  }

  lemma GroupCloses(slot: Member, t: Tree, v: S.Value, m0: Machine, m: Machine, body: Bytes,
                    chosen: Option<seq<Member>>, ok: bool)
    requires IsGroup(slot.field) && t.Group? && v.ListV? && Start(t.items, |t.items|) == |v.items|
    requires m0.mode.Packing? && m0.cur == Some(Wire(slot.field)) && !Failed(m0) && Ready(m0)
    requires Inside(slot.field, t.items, v.items, m0, m, |t.items|, body, chosen, ok)
    ensures Packed(m0, Pop(m), v)
    ensures !Failed(m) ==> (ok <==> NamesInside(Some(slot), t, v))
  {
    hide PackInv, Slot, ChosenBy, Wire, Packed, NamesMatchAt, Pop, Ready;
    PackCloses(m0, m, v.items, body);
  }

  /** A number or a hex string, packed several times. */
  function Repeated(m: Machine, leaf: Tree, times: nat): Machine {
    if times == 0 then m else Leaf(Repeated(m, leaf, times - 1), leaf)
  }

  lemma {:induction false} RepeatedKeepsErrors(m: Machine, leaf: Tree, times: nat)
    ensures Repeated(m, leaf, times).mode == m.mode && (Failed(m) ==> Failed(Repeated(m, leaf, times)))
  {
    if times > 0 {
      RepeatedKeepsErrors(m, leaf, times - 1);
      LeafKeepsErrors(Repeated(m, leaf, times - 1), leaf);
    }
  }

  method PackTree(packer: DcPacker.DCPacker, slot: Option<Member>, t: Tree, ghost v: S.Value) returns (ok: bool)
    requires packer.mode.Packing?
    modifies packer
    ensures packer.mode.Packing? && (Failed(old(packer.State())) ==> Failed(packer.State()))
    ensures Expected(old(packer.State()), slot, t, v) ==> Packed(old(packer.State()), packer.State(), v)
    ensures Expected(old(packer.State()), slot, t, v) && !Failed(packer.State()) ==> (ok <==> NamesInside(slot, t, v))
    ensures t.Repeat? ==> ok && packer.State() == Repeated(old(packer.State()), t.leaf, t.times)
    decreases t, 1
  {
    hide Packed, Leaf, Ready, Storable;
    match t
    case Group(_) => ok := PackGroup(packer, slot, t, v);
    case Repeat(leaf, times) =>
      ok := true;
      for i := 0 to times
        invariant packer.mode.Packing? && packer.State() == Repeated(old(packer.State()), leaf, i)
      {
        LeafKeepsErrors(packer.State(), leaf);
        PackLeaf(packer, leaf);
      }
      RepeatedKeepsErrors(old(packer.State()), leaf, times);
    case _ =>
      ghost var m0 := packer.State();
      LeafKeepsErrors(m0, t);
      if Expected(m0, slot, t, v) { LeafPacked(m0, slot, t, v); }
      PackLeaf(packer, t);
      ok := true;
  }

  /** A value with the name, if any, in front of it: a wrong name is an error that does
      not stop the packing. */
  method PackItem(packer: DcPacker.DCPacker, slot: Option<Member>, item: Item, ghost v: S.Value) returns (ok: bool)
    requires packer.mode.Packing?
    modifies packer
    ensures packer.mode.Packing? && (Failed(old(packer.State())) ==> Failed(packer.State()))
    ensures Expected(old(packer.State()), slot, item.tree, v) ==> Packed(old(packer.State()), packer.State(), v)
    ensures Expected(old(packer.State()), slot, item.tree, v) && !Failed(packer.State()) ==>
              (ok <==> NamesMatch(slot, item, v))
    ensures item.tree.Repeat? ==>
              (ok <==> NameMatches(slot, item)) && packer.State() == Repeated(old(packer.State()), item.tree.leaf, item.tree.times)
    decreases item, 0
  {
    var named := NameMatches(slot, item);
    ok := PackTree(packer, slot, item.tree, v);
    ok := ok && named;
  }

  /* ---- parse_string() and format_data() ---- */

  lemma RootExpected(root: Member, t: Tree, v: S.Value)
    requires S.Legal(Wire(root.field)) && Denotes(root.field, t, v) && Storable(v) && !t.Repeat?
    ensures Expected(Begin(Packing, Wire(root.field), []), Some(root), t, v)
  {
  }

  lemma RootPacked(root: S.Schema, v: S.Value, n: Machine)
    requires Packed(Begin(Packing, root, []), n, v)
    ensures var e := S.Enc(root, v);
            if e.None? then Failed(End(n)) else !Failed(End(n)) && n.out == e.value
  {
    var e := S.Enc(root, v);
    if e.Some? { assert [] + e.value == e.value; }
  }

  /** At the root, only one value fits, so it cannot be repeated, but may be written `x * 1`. */
  lemma RootRepeated(root: Member, leaf: Tree, times: nat, v: S.Value)
    requires S.Legal(Wire(root.field))
    ensures var m := Begin(Packing, Wire(root.field), []);
            && (times != 1 ==> Failed(End(Repeated(m, leaf, times))))
            && (times == 1 && IsLeaf(leaf) && Denotes(root.field, leaf, v) && Storable(v) ==> Packed(m, Repeated(m, leaf, times), v))
  {
    hide Denotes, Packed, Wire, Leaf, End;
    var m := Begin(Packing, Wire(root.field), []);
    if times == 0 {
      EmptyRoot(Wire(root.field));
    } else if times == 1 {
      assert Repeated(m, leaf, 1) == Leaf(Repeated(m, leaf, 0), leaf) == Leaf(m, leaf);
      if IsLeaf(leaf) && Denotes(root.field, leaf, v) && Storable(v) {
        RootExpected(root, leaf, v);
        LeafPacked(m, Some(root), leaf, v);
      }
    } else {
      FullRoot(Wire(root.field), leaf, times);
      EndKeepsErrors(Repeated(m, leaf, times));
    }
  }

  lemma EmptyRoot(root: S.Schema)
    ensures Failed(End(Begin(Packing, root, [])))
  {
  }

  /** Behind the root field there is nothing more to pack. */
  predicate AtRoot(m: Machine) {
    m.parent.None? && m.num == 0
  }

  lemma RootAdvances(m: Machine)
    requires AtRoot(m)
    ensures AtRoot(Advance(m)) && Advance(m).cur.None? && Advance(m).packError == m.packError
  {
  }

  lemma LeafAtRoot(m: Machine, leaf: Tree)
    requires AtRoot(m)
    ensures var n := Leaf(m, leaf); AtRoot(n) && (n.cur.None? || Failed(n)) && (m.cur.None? ==> Failed(n))
  {
    hide Advance;
    if m.cur.Some? {
      RootAdvances(m.(packError := true));
      if leaf.HexT? { RootAdvances(m.(out := m.out + leaf.data)); }
      if leaf.NumT? && m.cur.value.Num? {
        var s := m.cur.value;
        RootAdvances(m.(rangeError := m.rangeError || !S.InWidth(leaf.i, s.width, s.signed) || !S.InRange(s.limits, leaf.i),
                        out := m.out + Le(leaf.i % Pow256(s.width), s.width)));
      }
      if leaf.StrT? && m.cur.value.Text? {
        var s := m.cur.value;
        var l := S.LengthBytes(s);
        RootAdvances(m.(rangeError := m.rangeError || !S.InRange(s.lengths, |leaf.text|)
                                      || (s.prefix == 2 && |leaf.text| >= Pow256(2)),
                        out := m.out + Le(|leaf.text| % Pow256(l), l) + leaf.text));
      }
    }
  }

  lemma {:induction false} FullRoot(root: S.Schema, leaf: Tree, times: nat)
    requires times >= 1
    ensures var n := Repeated(Begin(Packing, root, []), leaf, times);
            AtRoot(n) && (n.cur.None? || Failed(n)) && (times >= 2 ==> Failed(n))
  {
    hide Leaf, Failed;
    var m := Begin(Packing, root, []);
    if times == 1 {
      assert Repeated(m, leaf, 1) == Leaf(m, leaf);
      LeafAtRoot(m, leaf);
    } else {
      FullRoot(root, leaf, times - 1);
      LeafKeepsErrors(Repeated(m, leaf, times - 1), leaf);
      LeafAtRoot(Repeated(m, leaf, times - 1), leaf);
    }
  }

  /** DCField::parse_string(). Of a text that denotes a value, it makes the value's
      encoding; if there is none, or a name is wrong, an empty result. */
  method ParseString(root: Member, text: string, ghost v: S.Value) returns (ok: bool, bytes: Bytes)
    requires S.Legal(Wire(root.field))
    ensures Parse(text).None? ==> !ok
    ensures Parse(text).Some? && Denotes(root.field, Parse(text).value.tree, v) && Storable(v) ==>
              && (ok <==> S.Enc(Wire(root.field), v).Some? && NamesMatch(Some(root), Parse(text).value, v))
              && (ok ==> Some(bytes) == S.Enc(Wire(root.field), v))
    ensures Parse(text).Some? && Parse(text).value.tree.Repeat? && Parse(text).value.tree.times != 1 ==> !ok
    ensures !ok ==> bytes == []
  {
    hide S.Enc, S.Legal, Wire, Denotes, Packed, Expected, NamesMatch, Parse, Repeated;
    ok, bytes := false, [];
    var item := Parse(text);
    if item.None? { return; }
    var packer := new DcPacker.DCPacker(Packing, Wire(root.field), []);
    ghost var t := item.value.tree;
    ghost var means := Denotes(root.field, t, v) && Storable(v);
    if t.Repeat? { RootRepeated(root, t.leaf, t.times, v); }
    else if means { RootExpected(root, t, v); }
    var named := PackItem(packer, Some(root), item.value, v);
    ghost var n := packer.State();
    if means {
      if t.Repeat? { RootIsNamed(root, item.value, v); }
      RootPacked(Wire(root.field), v, n);
    }
    EndKeepsErrors(n);
    var packed := packer.End();
    ok := named && packed;
    bytes := if ok then packer.out else [];
  }

  lemma RootIsNamed(root: Member, item: Item, v: S.Value)
    requires item.tree.Repeat? && Denotes(root.field, item.tree, v)
    ensures item.tree.times == 1 && IsLeaf(item.tree.leaf) && Denotes(root.field, item.tree.leaf, v)
    ensures NamesMatch(Some(root), item, v) <==> NameMatches(Some(root), item)
  {
  }

  lemma EndKeepsErrors(n: Machine)
    ensures Failed(n) ==> Failed(End(n))
    ensures End(n).out == n.out
  {
  }

  /** DCField::format_data() of a record that unpacks. */
  method FormatData(root: Member, bytes: Bytes, names: bool) returns (text: string)
    requires S.Legal(Wire(root.field))
    ensures var d := S.Dec(Wire(root.field), bytes);
            d.Some? ==> text == FormatItem(root, d.value.value, names)
    ensures var d := S.Dec(Wire(root.field), bytes);
            if d.None? then text == ""
            else NameOk(root.name) && NamesOk(root.field) ==>
                   && Parse(text).Some?
                   && if names then PrintedText.FullyNamed(root, d.value.value, Parse(text).value)
                      else PrintedText.Nameless(Parse(text).value)
  {
    hide Parse, FormatItem, PrintedText.FullyNamed, PrintedText.Nameless, S.Enc;
    var ok, v, used := DcPacker.UnpackField(Wire(root.field), bytes);
    text := if ok then FormatItem(root, v, names) else "";
    if ok && NameOk(root.name) && NamesOk(root.field) {
      Codec.Canonical(Wire(root.field), bytes);
      PrintedText.NamesArePrinted(root, v, names);
    }
  }

  /** Printing and parsing a record gives its bytes back, with or without field names. */
  method PrintThenParse(root: Member, bytes: Bytes, names: bool) returns (back: Bytes)
    requires S.Legal(Wire(root.field)) && NameOk(root.name) && NamesOk(root.field)
    ensures var d := S.Dec(Wire(root.field), bytes);
            d.Some? ==> back == bytes[..d.value.used]
  {
    hide S.Enc, S.Dec, S.Legal, Wire, Denotes, NamesMatch, Parse, FormatItem, NamesOk, NameOk;
    var text := FormatData(root, bytes, names);
    ghost var d := S.Dec(Wire(root.field), bytes);
    ghost var v := if d.Some? then d.value.value else S.IntV(0);
    if d.Some? { PrintedIsParsed(root, v, bytes, names); }
    var ok;
    ok, back := ParseString(root, text, v);
  }

  lemma PrintedIsParsed(root: Member, v: S.Value, bytes: Bytes, names: bool)
    requires S.Legal(Wire(root.field)) && NameOk(root.name) && NamesOk(root.field)
    requires S.Dec(Wire(root.field), bytes).Some? && v == S.Dec(Wire(root.field), bytes).value.value
    ensures S.Enc(Wire(root.field), v) == Some(bytes[..S.Dec(Wire(root.field), bytes).value.used])
    ensures Parse(FormatItem(root, v, names)) == Some(ShownItem(root, v, names)) && Storable(v)
    ensures Denotes(root.field, ShownItem(root, v, names).tree, v) && NamesMatch(Some(root), ShownItem(root, v, names), v)
  {
    Codec.Canonical(Wire(root.field), bytes);
    FitsIsStorable(Wire(root.field), v);
    TextParses(root, v, names);
    ShownDenotes(root, v, names);
  }
}
