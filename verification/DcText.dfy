/** Values as text: what unpack_and_format() prints, and the value grammar of the parser. */
module DcText {
  import opened Common
  import opened DcBytes
  import opened DcField
  import opened DcLexer
  import S = DcSchema

  /** A parsed value. `Repeat` is the shorthand `x * n` for packing x n times. */
  datatype Tree =
    | NumT(i: int)
    | StrT(text: Bytes)
    | HexT(data: Bytes)
    | Group(items: seq<Item>)
    | Repeat(leaf: Tree, times: nat)

  /** A value with the field name, if any, written in front of it. */
  datatype Item = Item(name: Option<string>, tree: Tree)

  /* ---- Nested fields with their names ---- */

  const PAIR: Field := Struct([Member("", Int(4, false, [])), Member("", Int(1, false, []))])

  predicate IsGroup(f: Field) {
    !f.Int? && !f.Str? && !f.Blob?
  }

  /** The members that a packed key selects. */
  function Chosen(cases: seq<Case>, other: Otherwise, key: Bytes): Option<seq<Member>> {
    if cases == [] then (if other.Default? then Some(other.members) else None)
    else if cases[0].value == key then Some(cases[0].members)
    else Chosen(cases[1..], other, key)
  }

  /** The members that a switch shows once its first item is packed. */
  function ChosenBy(f: Field, vs: seq<S.Value>): Option<seq<Member>> {
    if f.Switch? && vs != [] && S.Enc(Wire(f.key.field), vs[0]).Some?
    then Chosen(f.cases, f.other, S.Enc(Wire(f.key.field), vs[0]).value) else None
  }

  /** The nested field number `k`, if there is one. */
  function Slot(f: Field, chosen: Option<seq<Member>>, k: nat): Option<Member>
    requires IsGroup(f)
  {
    match f
    case IntArray(width, signed) => Some(Member("", Int(width, signed, [])))
    case Pairs => Some(Member("", PAIR))
    case List(elem, _) => Some(Member("", elem))
    case Struct(members) => if k < |members| then Some(members[k]) else None
    case Atomic(members) => if k < |members| then Some(members[k]) else None
    case Switch(key, _, _) =>
      if k == 0 then Some(key)
      else if chosen.Some? && k - 1 < |chosen.value| then Some(chosen.value[k - 1])
      else None
  }

  /* ---- Printing ---- */

  function Open(f: Field): char {
    if f.Struct? then '{' else if f.Atomic? || f.Switch? then '(' else '['
  }

  function Close(open: char): char {
    if open == '{' then '}' else if open == '(' then ')' else ']'
  }

  /** The name that is printed in front of a field's value: parameters have one,
      atomic fields do not print theirs. */
  function Label(m: Member, names: bool): Option<string> {
    if names && m.name != "" && !m.field.Atomic? then Some(m.name) else None
  }

  /** unpack_and_format() on a value that was unpacked from the field. */
  function FormatItem(m: Member, v: S.Value, names: bool): string
    decreases v, 3, 0
  {
    var tag := Label(m, names);
    (if tag.Some? then tag.value + " = " else "") + Format(m.field, v, names)
  }

  function Format(f: Field, v: S.Value, names: bool): string
    decreases v, 2, 0
  {
    if v.IntV? then Number(v.i)
    else if f.Blob? then HexString(if S.Enc(Wire(f), v).Some? then S.Enc(Wire(f), v).value else [])
    else if v.TextV? then Enquote(v.text, '"')
    else if !IsGroup(f) then "<invalid>"
    else [Open(f)] + FormatFrom(f, ChosenBy(f, v.items), v.items, 0, names) + [Close(Open(f))]
  }

  function FormatFrom(f: Field, chosen: Option<seq<Member>>, vs: seq<S.Value>, k: nat, names: bool): string
    requires IsGroup(f)
    decreases S.ListV(vs), 1, |vs| - k
  {
    if k >= |vs| then ""
    else
      var slot := Slot(f, chosen, k);
      var item := if slot.Some? then FormatItem(slot.value, vs[k], names) else "<invalid>";
      if k + 1 < |vs| then item + (", " + FormatFrom(f, chosen, vs, k + 1, names)) else item
  }

  /** The tree that the printed text means. */
  function ShownItem(m: Member, v: S.Value, names: bool): Item
    decreases v, 3, 0
  {
    Item(Label(m, names), Shown(m.field, v, names))
  }

  function Shown(f: Field, v: S.Value, names: bool): Tree
    decreases v, 2, 0
  {
    if v.IntV? then NumT(v.i)
    else if f.Blob? then HexT(if S.Enc(Wire(f), v).Some? then S.Enc(Wire(f), v).value else [])
    else if v.TextV? then StrT(v.text)
    else if !IsGroup(f) then Group([])
    else Group(ShownFrom(f, ChosenBy(f, v.items), v.items, 0, names))
  }

  function ShownFrom(f: Field, chosen: Option<seq<Member>>, vs: seq<S.Value>, k: nat, names: bool): (r: seq<Item>)
    requires IsGroup(f)
    ensures k <= |vs| ==> |r| == |vs| - k
    decreases S.ListV(vs), 1, |vs| - k
  {
    if k >= |vs| then []
    else
      var slot := Slot(f, chosen, k);
      [if slot.Some? then ShownItem(slot.value, vs[k], names) else Item(None, Group([]))]
      + ShownFrom(f, chosen, vs, k + 1, names)
  }

  /* ---- Parsing ---- */

  predicate NextIs(s: string, c: char) {
    var t := NextToken(s);
    t.Some? && t.value.value == Symbol(c)
  }

  function After(s: string): (r: string)
    requires NextToken(s).Some?
    ensures |r| < |s|
  {
    NextToken(s).value.rest
  }

  /** parameter_value: a value, perhaps with a name in front. */
  function ParseItem(s: string): (r: Option<Scanned<Item>>)
    ensures r.Some? ==> |r.value.rest| < |s|
    decreases |s|, 2
  {
    var t := NextToken(s);
    if t.Some? && t.value.value.Identifier? then
      if NextIs(t.value.rest, '=') then Named(Some(t.value.value.name), ParseTree(After(t.value.rest))) else None
    else Named(None, ParseTree(s))
  }

  function Named(name: Option<string>, tree: Option<Scanned<Tree>>): Option<Scanned<Item>> {
    if tree.None? then None else Some(Scanned(Item(name, tree.value.value), tree.value.rest))
  }

  /** parameter_actual_value */
  function ParseTree(s: string): (r: Option<Scanned<Tree>>)
    ensures r.Some? ==> |r.value.rest| < |s|
    decreases |s|, 1
  {
    var t := NextToken(s);
    if t.None? then None
    else
      match t.value.value
      case Unsigned(n) => ParseRepeat(NumT(n), t.value.rest)
      case Signed(i) => ParseRepeat(NumT(i), t.value.rest)
      case Hexed(data) => ParseRepeat(HexT(data), t.value.rest)
      case Quoted(text) => Some(Scanned(StrT(text), t.value.rest))
      case Symbol(c) => if c in {'{', '[', '('} then Grouped(ParseArray(t.value.rest, Close(c))) else None
      case _ => None
  }

  function Grouped(items: Option<Scanned<seq<Item>>>): Option<Scanned<Tree>> {
    if items.None? then None else Some(Scanned(Group(items.value.value), items.value.rest))
  }

  function ParseRepeat(leaf: Tree, s: string): (r: Option<Scanned<Tree>>)
    ensures r.Some? ==> |r.value.rest| <= |s|
  {
    if !NextIs(s, '*') then Some(Scanned(leaf, s))
    else
      var n := NextToken(After(s));
      if n.None? || !n.value.value.Unsigned? || n.value.value.n >= 0x1_0000_0000 then None
      else Some(Scanned(Repeat(leaf, n.value.value.n), n.value.rest))
  }

  /** array: values between commas, and perhaps a comma behind the last, up to the
      closing bracket. */
  function ParseArray(s: string, close: char): (r: Option<Scanned<seq<Item>>>)
    ensures r.Some? ==> |r.value.rest| < |s|
    decreases |s|, 4
  {
    if NextIs(s, close) then Some(Scanned([], After(s)))
    else if NextIs(s, ',') then
      if NextIs(After(s), close) then Some(Scanned([], After(After(s)))) else None
    else ParseItems(s, close)
  }

  function ParseItems(s: string, close: char): (r: Option<Scanned<seq<Item>>>)
    ensures r.Some? ==> |r.value.rest| < |s|
    decreases |s|, 3
  {
    var first := ParseItem(s);
    if first.None? then None
    else
      var rest := first.value.rest;
      if NextIs(rest, close) then Some(Scanned([first.value.value], After(rest)))
      else if !NextIs(rest, ',') then None
      else if NextIs(After(rest), close) then Some(Scanned([first.value.value], After(After(rest))))
      else
        var more := ParseItems(After(rest), close);
        if more.None? then None else Some(Scanned([first.value.value] + more.value.value, more.value.rest))
  }

  /** A whole text is one value. */
  function Parse(s: string): Option<Item> {
    var r := ParseItem(s);
    if r.None? || !AtEnd(r.value.rest) then None else Some(r.value.value)
  }

  /* ---- Legal names, and values that fit ---- */

  /** Names that the .dc parser accepts for a field. */
  predicate NamesOk(f: Field)
    decreases f, 0
  {
    match f
    case List(elem, _) => NamesOk(elem)
    case Struct(members) => AllNamesOk(members)
    case Atomic(members) => AllNamesOk(members)
    case Switch(key, cases, other) =>
      && NameOk(key.name) && NamesOk(key.field)
      && (forall i :: 0 <= i < |cases| ==> AllNamesOk(cases[i].members))
      && (other.Default? ==> AllNamesOk(other.members))
    case _ => true
  }

  predicate NameOk(name: string) {
    name == "" || IsIdentifier(name)
  }

  predicate AllNamesOk(members: seq<Member>)
    decreases members, 0
  {
    members == [] || (NameOk(members[0].name) && NamesOk(members[0].field) && AllNamesOk(members[1..]))
  }

  ghost predicate Fits(m: Member, v: S.Value) {
    && NameOk(m.name) && NamesOk(m.field)
    && S.Legal(Wire(m.field)) && S.Enc(Wire(m.field), v).Some?
  }

  ghost predicate SlotsFit(f: Field, chosen: Option<seq<Member>>, vs: seq<S.Value>)
    requires IsGroup(f)
  {
    forall j :: 0 <= j < |vs| ==> Slot(f, chosen, j).Some? && Fits(Slot(f, chosen, j).value, vs[j])
  }

  lemma {:induction false} EachElementFits(elem: S.Schema, vs: seq<S.Value>, j: nat)
    requires S.EncRepeat(elem, vs).Some? && j < |vs|
    ensures S.Enc(elem, vs[j]).Some?
    decreases |vs|
  {
    if j > 0 { EachElementFits(elem, vs[1..], j - 1); }
  }

  lemma {:induction false} EachMemberFits(members: seq<Member>, vs: seq<S.Value>, j: nat)
    requires S.EncAll(WireAll(members), vs).Some? && S.AllLegal(WireAll(members)) && AllNamesOk(members) && j < |vs|
    ensures j < |members| && Fits(members[j], vs[j])
    decreases |vs|
  {
    if j > 0 { EachMemberFits(members[1..], vs[1..], j - 1); }
  }

  lemma {:induction false} SelectedIsChosen(cases: seq<Case>, other: Otherwise, key: Bytes)
    ensures S.Selected(WireCases(cases), if other.Default? then S.Default(WireAll(other.members)) else S.NoDefault, key)
         == var c := Chosen(cases, other, key); if c.None? then None else Some(WireAll(c.value))
    decreases |cases|
  {
    if cases != [] {
      assert WireCases(cases)[1..] == WireCases(cases[1..]);
      SelectedIsChosen(cases[1..], other, key);
    }
  }

  lemma {:induction false} ChosenIsLegal(cases: seq<Case>, other: Otherwise, key: Bytes)
    requires Chosen(cases, other, key).Some?
    requires forall i :: 0 <= i < |cases| ==> AllNamesOk(cases[i].members)
    requires forall i :: 0 <= i < |cases| ==> S.AllLegal(WireCases(cases)[i].fields)
    requires other.Default? ==> AllNamesOk(other.members) && S.AllLegal(WireAll(other.members))
    ensures AllNamesOk(Chosen(cases, other, key).value) && S.AllLegal(WireAll(Chosen(cases, other, key).value))
    decreases |cases|
  {
    if cases != [] {
      assert WireCases(cases)[1..] == WireCases(cases[1..]);
      assert AllNamesOk(cases[0].members) && S.AllLegal(WireCases(cases)[0].fields);
      if cases[0].value != key {
        forall i | 0 <= i < |cases| - 1 ensures AllNamesOk(cases[1..][i].members) && S.AllLegal(WireCases(cases[1..])[i].fields) {
          assert cases[1..][i] == cases[i + 1] && WireCases(cases[1..])[i] == WireCases(cases)[i + 1];
        }
        ChosenIsLegal(cases[1..], other, key);
      }
    }
  }

  lemma SwitchFits(f: Field, vs: seq<S.Value>, j: nat)
    requires f.Switch? && NamesOk(f) && S.Legal(Wire(f)) && S.Enc(Wire(f), S.ListV(vs)).Some? && j < |vs|
    ensures Slot(f, ChosenBy(f, vs), j).Some? && Fits(Slot(f, ChosenBy(f, vs), j).value, vs[j])
  {
    var s, v := Wire(f), S.ListV(vs);
    assert S.Enc(s, v) == S.EncSwitch(s, v);
    var key := S.Enc(s.key, vs[0]).value;
    SelectedIsChosen(f.cases, f.other, key);
    ChosenIsLegal(f.cases, f.other, key);
    if j > 0 { EachMemberFits(Chosen(f.cases, f.other, key).value, vs[1..], j - 1); }
  }

  /** Every item of a value that fits a group has a field, and fits that. */
  lemma GroupFits(f: Field, v: S.Value)
    requires IsGroup(f) && NamesOk(f) && S.Legal(Wire(f)) && S.Enc(Wire(f), v).Some?
    ensures v.ListV? && SlotsFit(f, ChosenBy(f, v.items), v.items)
  {
    if f.IntArray? || f.Pairs? || f.List? { assert S.Enc(Wire(f), v) == S.EncArray(Wire(f), v); }
    if f.Switch? { assert S.Enc(Wire(f), v) == S.EncSwitch(Wire(f), v); }
    forall j | 0 <= j < |v.items|
      ensures Slot(f, ChosenBy(f, v.items), j).Some? && Fits(Slot(f, ChosenBy(f, v.items), j).value, v.items[j])
    {
      match f
      case Struct(members) => EachMemberFits(members, v.items, j);
      case Atomic(members) => EachMemberFits(members, v.items, j);
      case Switch(_, _, _) => SwitchFits(f, v.items, j);
      case Pairs => PairIsLegal(); EachElementFits(Wire(f).elem, v.items, j);
      case IntArray(_, _) => EachElementFits(Wire(f).elem, v.items, j);
      case List(_, _) => EachElementFits(Wire(f).elem, v.items, j);
    }
  }

  lemma PairIsLegal()
    ensures Wire(PAIR) == Wire(Pairs).elem && S.Legal(Wire(PAIR)) && NamesOk(PAIR)
  {
    var ms := PAIR.members;
    assert ms[1..][1..] == [] && WireAll(ms[1..]) == [S.Num(1, false, [])] + WireAll([]);
    assert WireAll(ms) == [S.Num(4, false, []), S.Num(1, false, [])];
    assert S.AllLegal(WireAll(ms[1..])) && S.AllLegal(WireAll(ms));
    assert AllNamesOk(ms[1..]);
  }

  /* ---- The parser reads what was printed ---- */

  /** The first token of a printed value. */
  predicate Begins(s: string) {
    var t := NextToken(s);
    t.Some? && !t.value.value.Keyword? && (t.value.value.Symbol? ==> t.value.value.c in {'{', '[', '('})
  }

  lemma SpaceIsSkipped(s: string)
    ensures NextToken(" " + s) == NextToken(s)
    ensures ParseTree(" " + s) == ParseTree(s) && ParseItem(" " + s) == ParseItem(s)
  {
    assert (" " + s)[1..] == s;
  }

  lemma ItemsBehindSpace(s: string, close: char)
    ensures ParseItems(" " + s, close) == ParseItems(s, close)
  {
    SpaceIsSkipped(s);
  }

  /** Nothing that follows a printed value continues it. */
  lemma StopsTokens(rest: string)
    requires Stops(rest)
    ensures rest == "" ==> NextToken(rest) == None
    ensures rest != "" ==> NextToken(rest) == Some(Scanned(Symbol(rest[0]), rest[1..]))
  {
    if rest != "" {
      assert rest == [rest[0]] + rest[1..];
      SymbolScans(rest[0], rest[1..]);
    }
  }

  lemma NoRepeat(leaf: Tree, rest: string)
    requires Stops(rest)
    ensures ParseRepeat(leaf, rest) == Some(Scanned(leaf, rest))
  {
    StopsTokens(rest);
  }

  lemma WidthsFit(f: Field, v: S.Value)
    requires f.Int? && S.Legal(Wire(f)) && S.Enc(Wire(f), v).Some?
    ensures v.IntV? && -0x8000_0000_0000_0000 <= v.i < WORD
  {
    assert Pow256(3) == 0x100_0000;
    assert Pow256(6) == 0x1_0000_0000_0000;
  }

  lemma LeafParses(f: Field, v: S.Value, names: bool, rest: string)
    requires !IsGroup(f) && S.Legal(Wire(f)) && S.Enc(Wire(f), v).Some? && Stops(rest)
    ensures Begins(Format(f, v, names) + rest) && !NextToken(Format(f, v, names) + rest).value.value.Identifier?
    ensures ParseTree(Format(f, v, names) + rest) == Some(Scanned(Shown(f, v, names), rest))
  {
    match f
    case Int(_, _, _) =>
      WidthsFit(f, v);
      NumberScans(v.i, rest);
      NoRepeat(NumT(v.i), rest);
    case Str(_) => QuotedScans(v.text, rest);
    case Blob(_, _) =>
      var data := S.Enc(Wire(f), v).value;
      HexScans(data, rest);
      NoRepeat(HexT(data), rest);
  }

  /* One step of the grammar each. */

  predicate BeginsValue(s: string) {
    Begins(s) && !NextToken(s).value.value.Identifier?
  }

  lemma NamedItem(name: string, body: string)
    requires IsIdentifier(name)
    ensures var s := name + (" " + (['='] + (" " + body)));
            Begins(s) && ParseItem(s) == Named(Some(name), ParseTree(body))
  {
    NameScans(name, " " + (['='] + (" " + body)));
    SymbolScans('=', " " + body);
    SpaceIsSkipped(body);
  }

  lemma BareItem(body: string)
    requires BeginsValue(body)
    ensures Begins(body) && ParseItem(body) == Named(None, ParseTree(body))
  {
  }

  lemma OpensGroup(open: char, inside: string)
    requires open in {'{', '[', '('}
    ensures BeginsValue([open] + inside)
    ensures ParseTree([open] + inside) == Grouped(ParseArray(inside, Close(open)))
  {
    SymbolScans(open, inside);
  }

  lemma EmptyArray(close: char, rest: string)
    requires close in {'}', ']', ')'}
    ensures ParseArray([close] + rest, close) == Some(Scanned([], rest))
  {
    SymbolScans(close, rest);
  }

  lemma FullArray(s: string, close: char)
    requires Begins(s) && close in {'}', ']', ')'}
    ensures ParseArray(s, close) == ParseItems(s, close)
  {
  }

  lemma LastItem(s: string, item: Item, close: char, rest: string)
    requires close in {'}', ']', ')'} && ParseItem(s) == Some(Scanned(item, [close] + rest))
    ensures ParseItems(s, close) == Some(Scanned([item], rest))
  {
    SymbolScans(close, rest);
  }

  lemma AnotherItem(s: string, item: Item, more: string, close: char)
    requires close in {'}', ']', ')'} && ParseItem(s) == Some(Scanned(item, [','] + (" " + more)))
    requires Begins(more) && ParseItems(more, close).Some?
    ensures ParseItems(s, close)
         == Some(Scanned([item] + ParseItems(more, close).value.value, ParseItems(more, close).value.rest))
  {
    SymbolScans(',', " " + more);
    SpaceIsSkipped(more);
    ItemsBehindSpace(more, close);
    assert !NextIs(" " + more, close);
  }

  lemma {:induction false} TreeParses(f: Field, v: S.Value, names: bool, rest: string)
    requires NamesOk(f) && S.Legal(Wire(f)) && S.Enc(Wire(f), v).Some? && Stops(rest)
    ensures BeginsValue(Format(f, v, names) + rest)
    ensures ParseTree(Format(f, v, names) + rest) == Some(Scanned(Shown(f, v, names), rest))
    decreases v, 2, 1
  {
    if !IsGroup(f) {
      LeafParses(f, v, names, rest);
    } else {
      GroupParses(f, v, names, rest);
    }
  }

  lemma {:induction false} GroupParses(f: Field, v: S.Value, names: bool, rest: string)
    requires IsGroup(f) && NamesOk(f) && S.Legal(Wire(f)) && S.Enc(Wire(f), v).Some?
    ensures BeginsValue(Format(f, v, names) + rest)
    ensures ParseTree(Format(f, v, names) + rest) == Some(Scanned(Shown(f, v, names), rest))
    decreases v, 2, 0
  {
    hide NamesOk, S.Legal, S.Enc, Wire, SlotsFit, ChosenBy, NextToken, ParseTree, ParseItems, ParseArray, BeginsValue, Begins;
    GroupFits(f, v);
    var chosen, open := ChosenBy(f, v.items), Open(f);
    var tail := [Close(open)] + rest;
    var inside := FormatFrom(f, chosen, v.items, 0, names) + tail;
    assert Format(f, v, names) + rest == [open] + inside;
    OpensGroup(open, inside);
    if v.items == [] {
      assert inside == tail;
      EmptyArray(Close(open), rest);
    } else {
      ItemsParse(f, chosen, v.items, 0, names, Close(open), rest);
      FullArray(inside, Close(open));
    }
  }

  lemma {:induction false} ItemParses(m: Member, v: S.Value, names: bool, rest: string)
    requires Fits(m, v) && Stops(rest)
    ensures Begins(FormatItem(m, v, names) + rest)
    ensures ParseItem(FormatItem(m, v, names) + rest) == Some(Scanned(ShownItem(m, v, names), rest))
    decreases v, 3, 0
  {
    hide S.Enc, S.Legal, Wire, NamesOk, NextToken, ParseTree, ParseItem, BeginsValue, Begins, Format, Shown, Stops;
    TreeParses(m.field, v, names, rest);
    var body := Format(m.field, v, names) + rest;
    if Label(m, names).Some? {
      assert FormatItem(m, v, names) + rest == m.name + (" " + (['='] + (" " + body)));
      NamedItem(m.name, body);
    } else {
      assert FormatItem(m, v, names) + rest == body;
      BareItem(body);
    }
  }

  lemma {:induction false} ItemsParse(f: Field, chosen: Option<seq<Member>>, vs: seq<S.Value>, k: nat, names: bool,
                                      close: char, rest: string)
    requires IsGroup(f) && SlotsFit(f, chosen, vs) && k < |vs| && close in {'}', ']', ')'}
    ensures Begins(FormatFrom(f, chosen, vs, k, names) + ([close] + rest))
    ensures ParseItems(FormatFrom(f, chosen, vs, k, names) + ([close] + rest), close)
         == Some(Scanned(ShownFrom(f, chosen, vs, k, names), rest))
    decreases S.ListV(vs), 1, |vs| - k
  {
    hide Fits, Slot, NextToken, ParseItem, ParseItems, Begins, FormatItem, ShownItem;
    var m := Slot(f, chosen, k).value;
    var item, tail := FormatItem(m, vs[k], names), [close] + rest;
    var text := FormatFrom(f, chosen, vs, k, names) + tail;
    if k + 1 == |vs| {
      ItemParses(m, vs[k], names, tail);
      LastItem(text, ShownItem(m, vs[k], names), close, rest);
      var shown := ShownItem(m, vs[k], names);
      assert ShownFrom(f, chosen, vs, k, names) == [shown] + [];
      assert [shown] + [] == [shown];
    } else {
      var more := FormatFrom(f, chosen, vs, k + 1, names) + tail;
      var after := [','] + (" " + more);
      assert text == item + after;
      ItemParses(m, vs[k], names, after);
      ItemsParse(f, chosen, vs, k + 1, names, close, rest);
      AnotherItem(text, ShownItem(m, vs[k], names), more, close);
    }
  }

  /** The text of a value is parsed as that value. */
  lemma TextParses(m: Member, v: S.Value, names: bool)
    requires Fits(m, v)
    ensures Parse(FormatItem(m, v, names)) == Some(ShownItem(m, v, names))
  {
    hide Fits, ParseItem, FormatItem, ShownItem;
    assert FormatItem(m, v, names) + "" == FormatItem(m, v, names);
    ItemParses(m, v, names, "");
  }
}
