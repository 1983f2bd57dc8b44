/** What a field looks like in a document, and which bytes a document's value adds to a
    datagram, kind by kind. These laws determine ToBson and Pack. */
module DatabaseLayout {
  import opened Common
  import opened DcBytes
  import opened DcField
  import opened DatabaseCodec
  import S = DcSchema
  import DcLayout

  /* ---- In a document ---- */

  /** Signed integers of up to 32 bits are stored as such and all others in 64 bits, where
      the upper half of the unsigned ones is negative. */
  predicate IsStored(width: nat, signed: bool, i: int, x: Bson) {
    x == if signed && width != 8 then Int32(i)
         else if !signed && width == 8 && i > 0x7FFF_FFFF_FFFF_FFFF then Int64(i - 0x1_0000_0000_0000_0000)
         else Int64(i)
  }

  /** Integers, strings and blobs are one value each, and switches are never stored. */
  lemma LeavesInDocuments(f: Field, v: S.Value, x: Bson)
    ensures f.Int? ==> (ToBson(f, v) == Some(x) <==> v.IntV? && IsStored(f.width, f.signed, v.i, x))
    ensures f.Str? ==> (ToBson(f, v) == Some(x) <==> v.TextV? && x == Text(v.text))
    ensures f.Blob? ==> (ToBson(f, v) == Some(x) <==> v.TextV? && x == Binary(v.text))
    ensures f.Switch? ==> ToBson(f, v) == None
  {
  }

  lemma {:induction false} NumbersInDocuments(width: nat, signed: bool, vs: seq<S.Value>, xs: seq<Bson>)
    ensures StoreNumbers(width, signed, vs) == Some(xs) <==>
              |xs| == |vs| && forall k :: 0 <= k < |vs| ==> vs[k].IntV? && IsStored(width, signed, vs[k].i, xs[k])
  {
    if vs != [] {
      var rest := StoreNumbers(width, signed, vs[1..]);
      if xs != [] { NumbersInDocuments(width, signed, vs[1..], xs[1..]); }
      if rest.Some? { NumbersInDocuments(width, signed, vs[1..], rest.value); }
      if xs != [] { assert xs == [xs[0]] + xs[1..]; }
      assert vs == [vs[0]] + vs[1..];
    }
  }

  /** An array of integers is an array of such numbers. */
  lemma IntArraysInDocuments(width: nat, signed: bool, v: S.Value, x: Bson)
    ensures ToBson(IntArray(width, signed), v) == Some(x) <==>
              && v.ListV? && x.Arr? && |x.items| == |v.items|
              && forall k :: 0 <= k < |v.items| ==> v.items[k].IntV? && IsStored(width, signed, v.items[k].i, x.items[k])
  {
    if v.ListV? {
      if x.Arr? { NumbersInDocuments(width, signed, v.items, x.items); }
    }
  }

  /** A pair of a uint32uint8array is a document of two numbers without names. */
  predicate IsPair(v: S.Value, x: Bson) {
    && v.ListV? && |v.items| == 2 && v.items[0].IntV? && v.items[1].IntV?
    && x == Doc([Entry("", Int64(v.items[0].i)), Entry("", Int64(v.items[1].i))])
  }

  lemma {:induction false} PairsAreStored(vs: seq<S.Value>, xs: seq<Bson>)
    ensures StorePairs(vs) == Some(xs) <==> |xs| == |vs| && forall k :: 0 <= k < |vs| ==> IsPair(vs[k], xs[k])
  {
    if vs != [] {
      var rest := StorePairs(vs[1..]);
      if xs != [] { PairsAreStored(vs[1..], xs[1..]); }
      if rest.Some? { PairsAreStored(vs[1..], rest.value); }
      if xs != [] { assert xs == [xs[0]] + xs[1..]; }
      assert vs == [vs[0]] + vs[1..];
    }
  }

  lemma PairsInDocuments(v: S.Value, x: Bson)
    ensures ToBson(Pairs, v) == Some(x) <==>
              v.ListV? && x.Arr? && |x.items| == |v.items| && forall k :: 0 <= k < |v.items| ==> IsPair(v.items[k], x.items[k])
  {
    if v.ListV? && x.Arr? { PairsAreStored(v.items, x.items); }
  }

  lemma {:induction false} ElementsAreStored(elem: Field, vs: seq<S.Value>, xs: seq<Bson>)
    ensures ToBsonEach(elem, vs) == Some(xs) <==>
              |xs| == |vs| && forall k :: 0 <= k < |vs| ==> ToBson(elem, vs[k]) == Some(xs[k])
    decreases |vs|
  {
    hide ToBson;
    if vs != [] {
      var rest := ToBsonEach(elem, vs[1..]);
      if xs != [] { ElementsAreStored(elem, vs[1..], xs[1..]); }
      if rest.Some? { ElementsAreStored(elem, vs[1..], rest.value); }
      if xs != [] { assert xs == [xs[0]] + xs[1..]; }
      assert vs == [vs[0]] + vs[1..];
    }
  }

  /** An array is an array of its elements in order. */
  lemma ArraysInDocuments(elem: Field, size: seq<S.Interval>, v: S.Value, x: Bson)
    ensures ToBson(List(elem, size), v) == Some(x) <==>
              && v.ListV? && x.Arr? && |x.items| == |v.items|
              && forall k :: 0 <= k < |v.items| ==> ToBson(elem, v.items[k]) == Some(x.items[k])
  {
    if v.ListV? && x.Arr? { ElementsAreStored(elem, v.items, x.items); }
  }

  /** Entry by entry, the members with their names. */
  predicate AreMembers(members: seq<Member>, vs: seq<S.Value>, entries: seq<Entry>) {
    && |members| == |vs| == |entries|
    && forall k :: 0 <= k < |members| ==>
         entries[k].name == members[k].name && ToBson(members[k].field, vs[k]) == Some(entries[k].value)
  }

  lemma {:induction false} MembersAreStored(members: seq<Member>, vs: seq<S.Value>, entries: seq<Entry>)
    ensures ToBsonAll(members, vs) == Some(entries) <==> AreMembers(members, vs, entries)
    decreases |members|
  {
    hide ToBson;
    if members != [] && vs != [] {
      var rest := ToBsonAll(members[1..], vs[1..]);
      if entries != [] { MembersAreStored(members[1..], vs[1..], entries[1..]); }
      if rest.Some? { MembersAreStored(members[1..], vs[1..], rest.value); }
      if entries != [] { assert entries == [entries[0]] + entries[1..]; }
      assert vs == [vs[0]] + vs[1..] && members == [members[0]] + members[1..];
    }
  }

  /** A struct is a document with its members in order, under their names. */
  lemma StructsInDocuments(members: seq<Member>, v: S.Value, x: Bson)
    ensures ToBson(Struct(members), v) == Some(x) <==> v.ListV? && x.Doc? && AreMembers(members, v.items, x.entries)
  {
    if v.ListV? && x.Doc? { MembersAreStored(members, v.items, x.entries); }
  }

  /** The arguments of an atomic field are an array. */
  lemma AtomicsInDocuments(members: seq<Member>, v: S.Value, x: Bson)
    ensures ToBson(Atomic(members), v) == Some(x) <==>
              && v.ListV? && x.Arr? && |members| == |v.items| == |x.items|
              && forall k :: 0 <= k < |members| ==> ToBson(members[k].field, v.items[k]) == Some(x.items[k])
  {
    hide ToBsonAll;
    if v.ListV? {
      var all := ToBsonAll(members, v.items);
      if all.Some? {
        MembersAreStored(members, v.items, all.value);
        assert ToBson(Atomic(members), v) == Some(Arr(Values(all).value));
      }
      if x.Arr? && |members| == |v.items| == |x.items| {
        var entries := seq(|members|, k requires 0 <= k < |members| => Entry(members[k].name, x.items[k]));
        MembersAreStored(members, v.items, entries);
        if forall k :: 0 <= k < |members| ==> ToBson(members[k].field, v.items[k]) == Some(x.items[k]) {
          assert AreMembers(members, v.items, entries);
          assert Values(Some(entries)).value == x.items;
        }
      }
    }
  }

  /* ---- In a datagram ---- */

  /** The most that a datagram holds. */
  const LIMIT: nat := 65533

  /** A number of either size, which has at most 64 bits, is added in the integer's own width, if it is in the integer's
      range; a 64-bit unsigned integer takes any number by its bits. */
  lemma NumbersAreAdded(dg: Bytes, width: nat, signed: bool, limits: seq<S.Interval>, x: Bson, r: Bytes)
    requires width in {1, 2, 4, 8} && (x.Int32? || x.Int64? ==> -0x8000_0000_0000_0000 <= x.i < 0x8000_0000_0000_0000)
    ensures Pack(dg, Int(width, signed, limits), x) == Some(r) <==>
              && (x.Int32? || x.Int64?)
              && (if signed then -128 * Pow256(width - 1) <= x.i < 128 * Pow256(width - 1)
                  else width == 8 || 0 <= x.i < Pow256(width))
              && |r| == |dg| + width <= LIMIT && dg <= r && DcLayout.LittleEndian(r[|dg|..], x.i, width)
  {
    hide Pow256, Number, Le, DcLayout.LittleEndian;
    NumberIsInRange(width, signed, x);
    var n := Number(width, signed, x);
    if n.Some? {
      DcLayout.RemainderIsLittleEndian(x.i, width);
      Appended(dg, Le(x.i % Pow256(width), width), r);
      if |r| == |dg| + width && DcLayout.LittleEndian(r[|dg|..], x.i, width) {
        DcLayout.SameBytes(r[|dg|..], Le(x.i % Pow256(width), width), x.i, width);
      }
    }
  }

  lemma NumberIsInRange(width: nat, signed: bool, x: Bson)
    requires width in {1, 2, 4, 8} && (x.Int32? || x.Int64? ==> -0x8000_0000_0000_0000 <= x.i < 0x8000_0000_0000_0000)
    ensures var n := Number(width, signed, x);
            && (n.Some? <==>
                  && (x.Int32? || x.Int64?)
                  && (if signed then -128 * Pow256(width - 1) <= x.i < 128 * Pow256(width - 1)
                      else width == 8 || 0 <= x.i < Pow256(width)))
            && (n.Some? ==> n.value % Pow256(width) == x.i % Pow256(width))
  {
    PowersOf256();
  }

  lemma PowersOf256()
    ensures Pow256(1) == 256 && Pow256(2) == 0x1_0000 && Pow256(4) == 0x1_0000_0000 && Pow256(8) == 0x1_0000_0000_0000_0000
    ensures Pow256(0) == 1 && Pow256(3) == 0x100_0000 && Pow256(7) == 0x100_0000_0000_0000
  {
    assert Pow256(3) == 0x100_0000;
    assert Pow256(6) == 0x1_0000_0000_0000;
  }

  lemma Appended(dg: Bytes, b: Bytes, r: Bytes)
    ensures r == dg + b <==> |r| == |dg| + |b| && dg <= r && r[|dg|..] == b
  {
    if |r| == |dg| + |b| && dg <= r && r[|dg|..] == b { assert r == r[..|dg|] + r[|dg|..]; }
  }

  /** A string is added with its length in two bytes in front, and a blob without one. */
  lemma TextsAreAdded(dg: Bytes, lengths: seq<S.Interval>, prefix: nat, x: Bson, r: Bytes)
    ensures Pack(dg, Str(lengths), x) == Some(r) <==>
              && x.Text? && |r| == |dg| + 2 + |x.text| <= LIMIT && dg <= r
              && DcLayout.LittleEndian(r[|dg|..], |x.text|, 2) && r[|dg| + 2..] == x.text
    ensures Pack(dg, Blob(prefix, lengths), x) == Some(r) <==>
              x.Binary? && |r| == |dg| + |x.data| <= LIMIT && dg <= r && r[|dg|..] == x.data
  {
    if x.Text? { SizedIsAdded(dg, x.text, r); }
    if x.Binary? { Appended(dg, x.data, r); }
  }

  lemma SizedIsAdded(dg: Bytes, b: Bytes, r: Bytes)
    ensures AddSized(dg, b) == Some(r) <==>
              && |r| == |dg| + 2 + |b| <= LIMIT && dg <= r
              && DcLayout.LittleEndian(r[|dg|..], |b|, 2) && r[|dg| + 2..] == b
  {
    if |dg| + 2 + |b| <= LIMIT {
      Appended(dg, Le(|b|, 2) + b, r);
      if |r| >= |dg| {
        DcLayout.LengthInFront(r[|dg|..], |b|, 2, b);
        if |r| >= |dg| + 2 { assert r[|dg|..][2..] == r[|dg| + 2..]; }
      }
    }
  }

  /* ---- One thing after the other ---- */

  /** From one datagram to the next, item by item: each is what the one before becomes when
      the item is added as its field. */
  predicate Steps(dgs: seq<Bytes>, fields: seq<Field>, xs: seq<Bson>) {
    && |dgs| == |xs| + 1 && |fields| == |xs|
    && forall k :: 0 <= k < |xs| ==> Pack(dgs[k], fields[k], xs[k]) == Some(dgs[k + 1])
  }

  /** They lead from `dg` to `r`. */
  ghost predicate AddedInOrder(dg: Bytes, fields: seq<Field>, xs: seq<Bson>, r: Bytes) {
    exists dgs :: Steps(dgs, fields, xs) && dgs[0] == dg && dgs[|xs|] == r
  }

  lemma NothingIsAdded(dg: Bytes, r: Bytes)
    ensures AddedInOrder(dg, [], [], r) <==> dg == r
  {
    if dg == r { assert Steps([dg], [], []); }
  }

  lemma FirstIsAdded(dg: Bytes, fields: seq<Field>, xs: seq<Bson>, r: Bytes)
    requires |fields| == |xs| > 0
    ensures AddedInOrder(dg, fields, xs, r) <==>
              Pack(dg, fields[0], xs[0]).Some? && AddedInOrder(Pack(dg, fields[0], xs[0]).value, fields[1..], xs[1..], r)
  {
    hide Pack;
    var first := Pack(dg, fields[0], xs[0]);
    if AddedInOrder(dg, fields, xs, r) {
      var dgs :| Steps(dgs, fields, xs) && dgs[0] == dg && dgs[|xs|] == r;
      assert Pack(dgs[0], fields[0], xs[0]) == Some(dgs[1]);
      assert Steps(dgs[1..], fields[1..], xs[1..]);
      assert dgs[1..][|xs| - 1] == r;
    }
    if first.Some? && AddedInOrder(first.value, fields[1..], xs[1..], r) {
      var dgs :| Steps(dgs, fields[1..], xs[1..]) && dgs[0] == first.value && dgs[|xs| - 1] == r;
      var all := [dg] + dgs;
      forall k | 0 <= k < |xs| ensures Pack(all[k], fields[k], xs[k]) == Some(all[k + 1]) {
        if k > 0 { assert Pack(dgs[k - 1], fields[1..][k - 1], xs[1..][k - 1]) == Some(dgs[k]); }
      }
      assert Steps(all, fields, xs) && all[|xs|] == r;
    }
  }

  /** The same field `n` times. */
  function Alike(f: Field, n: nat): (r: seq<Field>)
    ensures |r| == n && forall k :: 0 <= k < n ==> r[k] == f
  {
    seq(n, _ => f)
  }

  lemma {:induction false} ElementsAreAdded(dg: Bytes, elem: Field, xs: seq<Bson>, r: Bytes)
    ensures PackEach(dg, elem, xs) == Some(r) <==> AddedInOrder(dg, Alike(elem, |xs|), xs, r)
    decreases |xs|
  {
    hide Pack, AddedInOrder;
    if xs == [] {
      assert Alike(elem, |xs|) == [];
      NothingIsAdded(dg, r);
    } else {
      var fields := Alike(elem, |xs|);
      FirstIsAdded(dg, fields, xs, r);
      assert fields[1..] == Alike(elem, |xs| - 1);
      var first := Pack(dg, elem, xs[0]);
      if first.Some? { ElementsAreAdded(first.value, elem, xs[1..], r); }
    }
  }

  /** An array whose elements are integers, strings, blobs, arrays of integers or structs is
      packed for itself and added with its length in two bytes in front; any other array adds
      nothing, whatever the document has. */
  lemma ArraysAreAdded(dg: Bytes, elem: Field, size: seq<S.Interval>, x: Bson, r: Bytes)
    ensures Pack(dg, List(elem, size), x) == Some(r) <==>
              if elem.List? || elem.Atomic? || elem.Switch? then r == dg
              else x.Arr? && exists body: Bytes :: AddedInOrder([], Alike(elem, |x.items|), x.items, body) && AddSized(dg, body) == Some(r)
  {
    hide AddedInOrder, AddSized;
    if !(elem.List? || elem.Atomic? || elem.Switch?) && x.Arr? {
      var body := PackEach([], elem, x.items);
      forall b ensures body == Some(b) <==> AddedInOrder([], Alike(elem, |x.items|), x.items, b) {
        ElementsAreAdded([], elem, x.items, b);
      }
    }
  }

  lemma {:induction false} NumbersInOrder(dg: Bytes, width: nat, signed: bool, xs: seq<Bson>, r: Bytes)
    ensures AddNumbers(dg, width, signed, xs) == Some(r) <==> AddedInOrder(dg, Alike(Int(width, signed, []), |xs|), xs, r)
    decreases |xs|
  {
    hide AddedInOrder, AddNumber;
    var fields := Alike(Int(width, signed, []), |xs|);
    if xs == [] {
      assert fields == [];
      NothingIsAdded(dg, r);
    } else {
      FirstIsAdded(dg, fields, xs, r);
      assert fields[1..] == Alike(Int(width, signed, []), |xs| - 1);
      var first := AddNumber(dg, width, signed, xs[0]);
      assert Pack(dg, fields[0], xs[0]) == first;
      if first.Some? { NumbersInOrder(first.value, width, signed, xs[1..], r); }
    }
  }

  /** An array of integers as well. */
  lemma IntArraysAreAdded(dg: Bytes, width: nat, signed: bool, x: Bson, r: Bytes)
    ensures Pack(dg, IntArray(width, signed), x) == Some(r) <==>
              x.Arr? && exists body: Bytes ::
                AddedInOrder([], Alike(Int(width, signed, []), |x.items|), x.items, body) && AddSized(dg, body) == Some(r)
  {
    hide AddedInOrder, AddSized;
    if x.Arr? {
      var body := AddNumbers([], width, signed, x.items);
      forall b ensures body == Some(b) <==> AddedInOrder([], Alike(Int(width, signed, []), |x.items|), x.items, b) {
        NumbersInOrder([], width, signed, x.items, b);
      }
    }
  }

  /** The arguments of an atomic field are added in order; what comes after the last is
      ignored, and when one is missing nothing is packed. */
  lemma AtomicsAreAdded(dg: Bytes, members: seq<Member>, x: Bson, r: Bytes)
    ensures Pack(dg, Atomic(members), x) == Some(r) <==>
              && x.Arr? && |x.items| >= |members|
              && AddedInOrder(dg, Fields(members), x.items[..|members|], r)
  {
    hide AddedInOrder;
    if x.Arr? {
      ItemsAreAdded(dg, members, x.items, 0, r);
      if members == [] { assert x.items[..0] == []; NothingIsAdded(dg, r); }
    }
  }

  function Fields(members: seq<Member>): (r: seq<Field>)
    ensures |r| == |members| && forall k :: 0 <= k < |r| ==> r[k] == members[k].field
  {
    if members == [] then [] else [members[0].field] + Fields(members[1..])
  }

  lemma {:induction false} ItemsAreAdded(dg: Bytes, members: seq<Member>, items: seq<Bson>, i: nat, r: Bytes)
    ensures PackItems(dg, members, items, i) == Some(r) <==>
              if members == [] then r == dg
              else i + |members| <= |items| && AddedInOrder(dg, Fields(members), items[i..i + |members|], r)
    decreases |members|
  {
    hide Pack, AddedInOrder;
    if members != [] && i < |items| {
      var first := Pack(dg, members[0].field, items[i]);
      if first.Some? { ItemsAreAdded(first.value, members[1..], items, i + 1, r); }
      if i + |members| <= |items| {
        var xs := items[i..i + |members|];
        FirstIsAdded(dg, Fields(members), xs, r);
        assert xs[1..] == items[i + 1..i + 1 + |members[1..]|] && Fields(members)[1..] == Fields(members[1..]);
        if first.Some? && members[1..] == [] { assert xs[1..] == []; NothingIsAdded(first.value, r); }
      }
    }
  }

  /** The first entry with that name. */
  predicate IsNamed(entries: seq<Entry>, name: string, x: Bson, i: nat) {
    i < |entries| && entries[i] == Entry(name, x) && forall j :: 0 <= j < i ==> entries[j].name != name
  }

  lemma {:induction false} FindsTheFirst(entries: seq<Entry>, name: string, x: Bson)
    ensures Find(entries, name) == Some(x) <==> exists i: nat :: IsNamed(entries, name, x, i)
  {
    if entries != [] {
      FindsTheFirst(entries[1..], name, x);
      if exists i: nat :: IsNamed(entries[1..], name, x, i) {
        var i: nat :| IsNamed(entries[1..], name, x, i);
        if entries[0].name != name {
          forall j | 0 <= j < i + 1 ensures entries[j].name != name { assert j > 0 ==> entries[j] == entries[1..][j - 1]; }
          assert IsNamed(entries, name, x, i + 1);
        }
      }
      if exists i: nat :: IsNamed(entries, name, x, i) {
        var i: nat :| IsNamed(entries, name, x, i);
        if i > 0 { assert IsNamed(entries[1..], name, x, i - 1); }
      }
      if entries[0] == Entry(name, x) { assert IsNamed(entries, name, x, 0); }
    }
  }

  ghost predicate IsFound(entries: seq<Entry>, name: string, x: Bson) {
    exists i: nat :: IsNamed(entries, name, x, i)
  }

  /** For each member, the value of the first entry with its name. */
  ghost predicate AreNamed(members: seq<Member>, entries: seq<Entry>, xs: seq<Bson>) {
    && |xs| == |members|
    && forall k :: 0 <= k < |members| ==> IsFound(entries, members[k].name, xs[k])
  }

  lemma {:induction false} MembersAreAdded(dg: Bytes, members: seq<Member>, entries: seq<Entry>, r: Bytes)
    ensures PackMembers(dg, members, entries) == Some(r) <==>
              exists xs: seq<Bson> :: AreNamed(members, entries, xs) && AddedInOrder(dg, Fields(members), xs, r)
    decreases |members|
  {
    hide Pack, AddedInOrder;
    if members == [] {
      NothingIsAdded(dg, r);
      if r == dg { assert AreNamed(members, entries, []); }
    } else {
      forall x ensures Find(entries, members[0].name) == Some(x) <==> IsFound(entries, members[0].name, x) {
        FindsTheFirst(entries, members[0].name, x);
      }
      var x := Find(entries, members[0].name);
      var first := if x.Some? then Pack(dg, members[0].field, x.value) else None;
      if first.Some? { MembersAreAdded(first.value, members[1..], entries, r); }
      if PackMembers(dg, members, entries) == Some(r) {
        var rest: seq<Bson> :| AreNamed(members[1..], entries, rest) && AddedInOrder(first.value, Fields(members[1..]), rest, r);
        NamedAsWell(members, entries, x.value, rest);
        FirstIsAdded(dg, Fields(members), [x.value] + rest, r);
        assert ([x.value] + rest)[1..] == rest && Fields(members)[1..] == Fields(members[1..]);
      }
      if exists xs: seq<Bson> :: AreNamed(members, entries, xs) && AddedInOrder(dg, Fields(members), xs, r) {
        var xs: seq<Bson> :| AreNamed(members, entries, xs) && AddedInOrder(dg, Fields(members), xs, r);
        assert x == Some(xs[0]);
        FirstIsAdded(dg, Fields(members), xs, r);
        assert Fields(members)[1..] == Fields(members[1..]);
        assert AreNamed(members[1..], entries, xs[1..]) by {
          forall k | 0 <= k < |members| - 1 ensures IsFound(entries, members[1..][k].name, xs[1..][k]) {
            assert IsFound(entries, members[k + 1].name, xs[k + 1]);
          }
        }
      }
    }
  }

  lemma NamedAsWell(members: seq<Member>, entries: seq<Entry>, x: Bson, rest: seq<Bson>)
    requires members != [] && AreNamed(members[1..], entries, rest) && IsFound(entries, members[0].name, x)
    ensures AreNamed(members, entries, [x] + rest)
  {
    hide IsFound;
    var xs := [x] + rest;
    forall k | 0 <= k < |members| ensures IsFound(entries, members[k].name, xs[k]) {
      if k > 0 { assert IsFound(entries, members[1..][k - 1].name, rest[k - 1]); }
    }
  }

  /** The members of a struct are added in their own order, each from the first entry with its
      name; when there is none, nothing is packed. */
  lemma StructsAreAdded(dg: Bytes, members: seq<Member>, x: Bson, r: Bytes)
    ensures Pack(dg, Struct(members), x) == Some(r) <==>
              x.Doc? && exists xs: seq<Bson> :: AreNamed(members, x.entries, xs) && AddedInOrder(dg, Fields(members), xs, r)
  {
    hide AddedInOrder, AreNamed;
    if x.Doc? { MembersAreAdded(dg, members, x.entries, r); }
  }

  /** Every other value is a 32-bit number, the others have 8 bits. */
  function PairFields(n: nat): (r: seq<Field>)
    ensures |r| == n
    ensures forall k :: 0 <= k < n ==> r[k] == if k % 2 == 0 then Int(4, false, []) else Int(1, false, [])
  {
    seq(n, k => if k % 2 == 0 then Int(4, false, []) else Int(1, false, []))
  }

  lemma {:induction false} PairsInOrder(dg: Bytes, xs: seq<Bson>, r: Bytes)
    ensures AddPairs(dg, xs) == Some(r) <==> |xs| % 2 == 0 && AddedInOrder(dg, PairFields(|xs|), xs, r)
    decreases |xs|
  {
    hide AddedInOrder, AddNumber;
    var fields := PairFields(|xs|);
    if xs == [] {
      NothingIsAdded(dg, r);
    } else if |xs| > 1 {
      FirstIsAdded(dg, fields, xs, r);
      var first := AddNumber(dg, 4, false, xs[0]);
      assert Pack(dg, fields[0], xs[0]) == first;
      if first.Some? {
        FirstIsAdded(first.value, fields[1..], xs[1..], r);
        var second := AddNumber(first.value, 1, false, xs[1]);
        assert Pack(first.value, fields[1..][0], xs[1..][0]) == second;
        assert fields[1..][1..] == PairFields(|xs| - 2) && xs[1..][1..] == xs[2..];
        if second.Some? { PairsInOrder(second.value, xs[2..], r); }
      }
    }
  }

  /** A uint32uint8array is expected as a flat array, and the number of its values, not of
      their bytes, is put in front. */
  lemma PairsAreAdded(dg: Bytes, x: Bson, r: Bytes)
    ensures Pack(dg, Pairs, x) == Some(r) <==>
              && x.Arr? && |x.items| % 2 == 0 && |dg| + 2 <= LIMIT
              && exists counted: Bytes ::
                   && |counted| == |dg| + 2 && dg <= counted && DcLayout.LittleEndian(counted[|dg|..], |x.items| % 0x1_0000, 2)
                   && AddedInOrder(counted, PairFields(|x.items|), x.items, r)
  {
    hide AddedInOrder;
    if x.Arr? && |dg| + 2 <= LIMIT {
      var n := |x.items| % 0x1_0000;
      var counted := dg + Le(n, 2);
      PairsInOrder(counted, x.items, r);
      DcLayout.LeIsLittleEndian(n, 2);
      assert counted[|dg|..] == Le(n, 2);
      forall c: Bytes | |c| == |dg| + 2 && dg <= c && DcLayout.LittleEndian(c[|dg|..], n, 2) ensures c == counted {
        DcLayout.SameBytes(c[|dg|..], Le(n, 2), n, 2);
        Appended(dg, Le(n, 2), c);
      }
    }
  }

  /** Switches add nothing. */
  lemma SwitchesAddNothing(dg: Bytes, f: Field, x: Bson)
    requires f.Switch?
    ensures Pack(dg, f, x) == Some(dg)
  {
  }
}
