/** What else the grammar of values allows: repeated values, and a comma behind the last. */
module ParsedText {
  import opened Common
  import opened DcField
  import opened DcLexer
  import opened DcText
  import opened DcParser
  import S = DcSchema

  /* ---- Text ---- */

  /** `x * n` is the number repeated, if n has 32 bits; with a larger n it is not a value. */
  lemma RepeatsAreParsed(i: int, n: nat, rest: string)
    requires -0x8000_0000_0000_0000 <= i < WORD && n < WORD && Stops(rest)
    ensures ParseTree(Number(i) + (" * " + (Number(n) + rest)))
         == if n < 0x1_0000_0000 then Some(Scanned(Repeat(NumT(i), n), rest)) else None
  {
    NumberScans(n, rest);
    StarScans(Number(n) + rest);
    NumberScans(i, " * " + (Number(n) + rest));
    RepeatIsParsed(NumT(i), n, rest);
  }

  /** And so is a hex string. */
  lemma HexRepeatsAreParsed(data: Bytes, n: nat, rest: string)
    requires n < WORD && Stops(rest)
    ensures ParseTree(HexString(data) + (" * " + (Number(n) + rest)))
         == if n < 0x1_0000_0000 then Some(Scanned(Repeat(HexT(data), n), rest)) else None
  {
    HexScans(data, " * " + (Number(n) + rest));
    RepeatIsParsed(HexT(data), n, rest);
  }

  lemma RepeatIsParsed(leaf: Tree, n: nat, rest: string)
    requires n < WORD && Stops(rest)
    ensures ParseRepeat(leaf, " * " + (Number(n) + rest))
         == if n < 0x1_0000_0000 then Some(Scanned(Repeat(leaf, n), rest)) else None
  {
    NumberScans(n, rest);
    StarScans(Number(n) + rest);
  }

  lemma StarScans(rest: string)
    ensures NextToken(" * " + rest) == Some(Scanned(Symbol('*'), " " + rest))
    ensures NextToken(" " + rest) == NextToken(rest)
  {
    var s := " * " + rest;
    assert s[1..][1..] == " " + rest && s[1..][0] == '*';
    assert NextToken(s) == NextToken(s[1..]) == ScanToken(s[1..]);
    assert (" " + rest)[1..] == rest;
  }

  /** A comma may follow the last value of a group, or stand alone in an empty one; without
      one between two values, or with a wrong bracket at the end, it is not a group. */
  lemma LastComma(s: string, item: Item, close: char, rest: string)
    requires close in {'}', ']', ')'} && ParseItem(s) == Some(Scanned(item, [','] + ([close] + rest)))
    ensures ParseItems(s, close) == Some(Scanned([item], rest))
    ensures ParseArray([','] + ([close] + rest), close) == Some(Scanned([], rest))
  {
    SymbolScans(',', [close] + rest);
    SymbolScans(close, rest);
  }

  lemma MissingComma(s: string, item: Item, close: char, rest: string)
    requires ParseItem(s) == Some(Scanned(item, rest))
    requires NextToken(rest).None? || NextToken(rest).value.value !in {Symbol(','), Symbol(close)}
    ensures ParseItems(s, close) == None
  {
  }

  /* ---- Meaning ---- */

  /** The values of the first `k` items in order, with repeated ones written out. */
  function WrittenOut(items: seq<Item>, k: nat): (r: seq<Tree>)
    requires k <= |items|
    ensures |r| == Start(items, k)
  {
    if k == 0 then []
    else
      var t := items[k - 1].tree;
      WrittenOut(items, k - 1) + (if t.Repeat? then seq(t.times, _ => t.leaf) else [t])
  }

  ghost predicate Means(f: Field, t: Tree, vs: seq<S.Value>, j: nat)
    requires IsGroup(f) && j < |vs|
  {
    var slot := Slot(f, ChosenBy(f, vs), j);
    slot.Some? ==> Denotes(slot.value.field, t, vs[j])
  }

  ghost predicate AllMean(f: Field, ts: seq<Tree>, vs: seq<S.Value>, from: nat)
    requires IsGroup(f)
  {
    forall i :: 0 <= i < |ts| && from + i < |vs| ==> Means(f, ts[i], vs, from + i)
  }

  lemma LastItemMeans(f: Field, items: seq<Item>, vs: seq<S.Value>, k: nat)
    requires IsGroup(f) && k < |items|
    ensures var t := items[k].tree;
            DenotesAt(f, items, vs, k) <==>
              (t.Repeat? ==> IsLeaf(t.leaf))
              && AllMean(f, if t.Repeat? then seq(t.times, _ => t.leaf) else [t], vs, Start(items, k))
  {
    hide Denotes, Slot, ChosenBy;
    var t, from := items[k].tree, Start(items, k);
    var ts := if t.Repeat? then seq(t.times, _ => t.leaf) else [t];
    if AllMean(f, ts, vs, from) && (t.Repeat? ==> IsLeaf(t.leaf)) {
      forall j | from <= j < from + Values(items[k]) && j < |vs|
        ensures var slot := Slot(f, ChosenBy(f, vs), j);
                slot.Some? ==> if t.Repeat? then Denotes(slot.value.field, t.leaf, vs[j]) else Denotes(slot.value.field, t, vs[j])
      {
        assert Means(f, ts[j - from], vs, from + (j - from));
      }
    }
    if DenotesAt(f, items, vs, k) {
      forall i | 0 <= i < |ts| && from + i < |vs| ensures Means(f, ts[i], vs, from + i) {
        var j := from + i;
        assert ts[i] == if t.Repeat? then t.leaf else t;
        assert Slot(f, ChosenBy(f, vs), j) == Slot(f, ChosenBy(f, vs), from + i);
      }
    }
  }

  lemma MeanBoth(f: Field, a: seq<Tree>, b: seq<Tree>, vs: seq<S.Value>)
    requires IsGroup(f)
    ensures AllMean(f, a + b, vs, 0) <==> AllMean(f, a, vs, 0) && AllMean(f, b, vs, |a|)
  {
    hide Means;
    if AllMean(f, a + b, vs, 0) {
      forall i | 0 <= i < |a| && 0 + i < |vs| ensures Means(f, a[i], vs, 0 + i) { assert (a + b)[i] == a[i]; }
      forall i | 0 <= i < |b| && |a| + i < |vs| ensures Means(f, b[i], vs, |a| + i) {
        assert (a + b)[|a| + i] == b[i] && Means(f, (a + b)[|a| + i], vs, 0 + (|a| + i));
      }
    }
    if AllMean(f, a, vs, 0) && AllMean(f, b, vs, |a|) {
      forall i | 0 <= i < |a + b| && 0 + i < |vs| ensures Means(f, (a + b)[i], vs, 0 + i) {
        if i < |a| { assert Means(f, a[i], vs, 0 + i); } else { assert Means(f, b[i - |a|], vs, |a| + (i - |a|)); }
      }
    }
  }

  /** Only numbers and hex strings are repeated. */
  predicate LeavesRepeat(items: seq<Item>, k: nat)
    requires k <= |items|
  {
    forall i :: 0 <= i < k && items[i].tree.Repeat? ==> IsLeaf(items[i].tree.leaf)
  }

  ghost predicate EachDenotes(f: Field, items: seq<Item>, vs: seq<S.Value>, k: nat)
    requires IsGroup(f) && k <= |items|
  {
    forall i :: 0 <= i < k ==> DenotesAt(f, items, vs, i)
  }

  lemma {:induction false} ItemsMean(f: Field, items: seq<Item>, vs: seq<S.Value>, k: nat)
    requires IsGroup(f) && k <= |items|
    ensures EachDenotes(f, items, vs, k) <==> LeavesRepeat(items, k) && AllMean(f, WrittenOut(items, k), vs, 0)
  {
    hide DenotesAt, AllMean, IsLeaf;
    if k == 0 {
      assert AllMean(f, [], vs, 0) by { NothingMeans(f, vs); }
    } else {
      ItemsMean(f, items, vs, k - 1);
      LastItemMeans(f, items, vs, k - 1);
      var t := items[k - 1].tree;
      MeanBoth(f, WrittenOut(items, k - 1), if t.Repeat? then seq(t.times, _ => t.leaf) else [t], vs);
    }
  }

  lemma NothingMeans(f: Field, vs: seq<S.Value>)
    requires IsGroup(f)
    ensures AllMean(f, [], vs, 0)
  {
  }

  lemma DenotesEach(f: Field, items: seq<Item>, v: S.Value)
    ensures Denotes(f, Group(items), v) <==>
              IsGroup(f) && v.ListV? && |v.items| == Start(items, |items|) && EachDenotes(f, items, v.items, |items|)
  {
    hide Slot, ChosenBy, Start;
    var t := Group(items);
    if Denotes(f, t, v) {
      forall i | 0 <= i < |items| ensures DenotesAt(f, items, v.items, i) {
        assert DenotesAt(f, t.items, v.items, i);
      }
    }
    if IsGroup(f) && v.ListV? && |v.items| == Start(items, |items|) && EachDenotes(f, items, v.items, |items|) {
      assert forall k :: 0 <= k < |t.items| ==> DenotesAt(f, t.items, v.items, k);
      assert Denotes(f, t, v);
    }
  }

  /** A group means what it means with its repeated numbers and hex strings written out:
      one value for each member, in order. */
  lemma GroupsAreWrittenOut(f: Field, items: seq<Item>, v: S.Value)
    ensures Denotes(f, Group(items), v) <==>
              && IsGroup(f) && v.ListV? && |v.items| == |WrittenOut(items, |items|)| && LeavesRepeat(items, |items|)
              && forall j :: 0 <= j < |v.items| ==> Means(f, WrittenOut(items, |items|)[j], v.items, j)
  {
    hide IsLeaf, Means, Denotes, EachDenotes, LeavesRepeat;
    DenotesEach(f, items, v);
    if IsGroup(f) && v.ListV? {
      ItemsMean(f, items, v.items, |items|);
      var ts := WrittenOut(items, |items|);
      if |ts| == |v.items| { AllAreMeant(f, ts, v.items); }
    }
  }

  lemma AllAreMeant(f: Field, ts: seq<Tree>, vs: seq<S.Value>)
    requires IsGroup(f) && |ts| == |vs|
    ensures AllMean(f, ts, vs, 0) <==> forall j :: 0 <= j < |vs| ==> Means(f, ts[j], vs, j)
  {
    hide Means;
    if AllMean(f, ts, vs, 0) {
      forall j | 0 <= j < |vs| ensures Means(f, ts[j], vs, j) { assert Means(f, ts[j], vs, 0 + j); }
    }
    if forall j :: 0 <= j < |vs| ==> Means(f, ts[j], vs, j) {
      forall i | 0 <= i < |ts| && 0 + i < |vs| ensures Means(f, ts[i], vs, 0 + i) {}
    }
  }

  /* ---- Names ---- */

  /** A name in front of a value must be the name of its field. */
  lemma WrongNamesAreNoticed(slot: Member, item: Item, v: S.Value)
    requires item.name.Some? && item.name.value != slot.name
    ensures !NamesMatch(Some(slot), item, v)
  {
  }

  /** And so must every name inside a group: the names in a group are right when each of its
      items is named, or not, as the member that comes next. */
  lemma NamesInGroups(slot: Member, name: Option<string>, items: seq<Item>, v: S.Value)
    requires IsGroup(slot.field) && v.ListV? && |v.items| == |items|
    requires forall k :: 0 <= k < |items| ==> !items[k].tree.Repeat? && Slot(slot.field, ChosenBy(slot.field, v.items), k).Some?
    ensures NamesMatch(Some(slot), Item(name, Group(items)), v) <==>
              && (name.None? || name.value == slot.name)
              && forall k :: 0 <= k < |items| ==>
                   NamesMatch(Slot(slot.field, ChosenBy(slot.field, v.items), k), items[k], v.items[k])
  {
    var f := slot.field;
    hide Slot, ChosenBy;
    forall k | 0 <= k < |items|
      ensures NamesMatchAt(f, items, v.items, k) <==> NamesMatch(Slot(f, ChosenBy(f, v.items), k), items[k], v.items[k])
    {
      StartWithoutRepeats(items, k);
      NameOfOne(f, items, v.items, k);
    }
    hide NamesMatchAt;
    assert NamesMatch(Some(slot), Item(name, Group(items)), v)
       <==> NameMatches(Some(slot), Item(name, Group(items))) && NamesInside(Some(slot), Group(items), v);
  }

  lemma NameOfOne(f: Field, items: seq<Item>, vs: seq<S.Value>, k: nat)
    requires IsGroup(f) && k < |items| == |vs| && Start(items, k) == k
    ensures NamesMatchAt(f, items, vs, k) <==> NamesMatch(Slot(f, ChosenBy(f, vs), k), items[k], vs[k])
  {
  }

  /** A repeated value is named once, in front. */
  lemma NamesOfRepeats(slot: Member, name: Option<string>, leaf: Tree, times: nat, v: S.Value)
    ensures NamesMatch(Some(slot), Item(name, Repeat(leaf, times)), v) <==> name.None? || name.value == slot.name
  {
    assert NamesInside(Some(slot), Repeat(leaf, times), v);
  }
}
