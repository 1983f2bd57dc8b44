/** What a printed field looks like: the characters of numbers, strings and groups, and
    which values have a name in front of them. */
module PrintedText {
  import opened Common
  import opened DcField
  import opened DcLexer
  import opened DcText
  import S = DcSchema

  /* ---- The members of a group ---- */

  /** The case with that value, before any other with it. */
  predicate IsCase(cases: seq<Case>, key: Bytes, i: nat) {
    i < |cases| && cases[i].value == key && forall j :: 0 <= j < i ==> cases[j].value != key
  }

  predicate NoCase(cases: seq<Case>, key: Bytes) {
    forall j :: 0 <= j < |cases| ==> cases[j].value != key
  }

  /** Item number `k` of the list is a value of the member: of the members of a struct or an
      atomic field in order; of an array's one element type, which has no name; of a switch,
      first the key and then the members of the case that the key's bytes select. */
  ghost predicate IsMember(f: Field, vs: seq<S.Value>, k: nat, m: Member) {
    match f
    case Struct(members) => k < |members| && m == members[k]
    case Atomic(members) => k < |members| && m == members[k]
    case List(elem, _) => m == Member("", elem)
    case IntArray(width, signed) => m == Member("", Int(width, signed, []))
    case Pairs => m == Member("", Struct([Member("", Int(4, false, [])), Member("", Int(1, false, []))]))
    case Switch(key, cases, other) =>
      if k == 0 then m == key
      else
        && vs != [] && S.Enc(Wire(key.field), vs[0]).Some?
        && IsSelected(cases, other, S.Enc(Wire(key.field), vs[0]).value, k - 1, m)
    case _ => false
  }

  ghost predicate IsSelected(cases: seq<Case>, other: Otherwise, key: Bytes, k: nat, m: Member) {
    || (exists i: nat :: IsCase(cases, key, i) && k < |cases[i].members| && m == cases[i].members[k])
    || (NoCase(cases, key) && other.Default? && k < |other.members| && m == other.members[k])
  }

  lemma {:induction false} SelectedIsMember(cases: seq<Case>, other: Otherwise, key: Bytes, k: nat, m: Member)
    ensures IsSelected(cases, other, key, k, m)
       <==> var c := Chosen(cases, other, key); c.Some? && k < |c.value| && m == c.value[k]
    decreases |cases|
  {
    if cases == [] {
    } else if cases[0].value == key {
      assert IsCase(cases, key, 0);
    } else {
      SelectedIsMember(cases[1..], other, key, k, m);
      forall i: nat ensures IsCase(cases, key, i) <==> i > 0 && IsCase(cases[1..], key, i - 1) { CaseShifts(cases, key, i); }
      assert NoCase(cases, key) <==> NoCase(cases[1..], key) by {
        assert forall j :: 0 <= j < |cases| - 1 ==> cases[1..][j] == cases[j + 1];
        if NoCase(cases[1..], key) {
          forall j | 0 <= j < |cases| ensures cases[j].value != key { assert j > 0 ==> cases[j] == cases[1..][j - 1]; }
        }
      }
      if IsSelected(cases[1..], other, key, k, m) && !NoCase(cases, key) {
        var i: nat :| IsCase(cases[1..], key, i) && k < |cases[1..][i].members| && m == cases[1..][i].members[k];
        assert IsCase(cases, key, i + 1);
      }
    }
  }

  lemma CaseShifts(cases: seq<Case>, key: Bytes, i: nat)
    requires cases != [] && cases[0].value != key
    ensures IsCase(cases, key, i) <==> i > 0 && IsCase(cases[1..], key, i - 1)
  {
    assert forall j :: 1 <= j < |cases| ==> cases[j] == cases[1..][j - 1];
    if i > 0 && IsCase(cases[1..], key, i - 1) {
      forall j | 0 <= j < i ensures cases[j].value != key { assert j > 0 ==> cases[j] == cases[1..][j - 1]; }
    }
  }

  /** The member's slot is the one it is printed from. */
  lemma SlotIsMember(f: Field, vs: seq<S.Value>, k: nat, m: Member)
    requires IsGroup(f) && k < |vs|
    ensures Slot(f, ChosenBy(f, vs), k) == Some(m) <==> IsMember(f, vs, k, m)
  {
    if f.Switch? && k > 0 && S.Enc(Wire(f.key.field), vs[0]).Some? {
      SelectedIsMember(f.cases, f.other, S.Enc(Wire(f.key.field), vs[0]).value, k - 1, m);
    }
  }

  /* ---- Names ---- */

  /** No value has a name in front of it, at any depth. */
  predicate Nameless(item: Item) {
    item.name.None? && NamelessTree(item.tree)
  }

  predicate NamelessTree(t: Tree) {
    match t
    case Group(items) => forall k :: 0 <= k < |items| ==> Nameless(items[k])
    case Repeat(leaf, _) => NamelessTree(leaf)
    case _ => true
  }

  /** Every value has its member's name in front of it, unless the member has none or is an
      atomic field; and so have the values inside. */
  ghost predicate FullyNamed(m: Member, v: S.Value, item: Item)
    decreases v, 1
  {
    && item.name == (if m.name != "" && !m.field.Atomic? then Some(m.name) else None)
    && (v.ListV? ==>
          && item.tree.Group? && |item.tree.items| == |v.items|
          && forall k :: 0 <= k < |v.items| ==> MemberIsNamed(m.field, v.items, k, item.tree.items[k]))
    && (!v.ListV? ==> NamelessTree(item.tree))
  }

  ghost predicate MemberIsNamed(f: Field, vs: seq<S.Value>, k: nat, item: Item)
    requires k < |vs|
    decreases S.ListV(vs), 0
  {
    exists m :: IsMember(f, vs, k, m) && FullyNamed(m, vs[k], item)
  }

  lemma GroupsAreShown(f: Field, v: S.Value, names: bool)
    requires v.ListV? && IsGroup(f)
    ensures Shown(f, v, names) == Group(ShownFrom(f, ChosenBy(f, v.items), v.items, 0, names))
  {
  }

  lemma {:induction false} ShownWithoutNames(m: Member, v: S.Value)
    ensures Nameless(ShownItem(m, v, false))
    decreases v, 1, 0
  {
    if v.ListV? && IsGroup(m.field) {
      GroupsAreShown(m.field, v, false);
      ShownAllWithoutNames(m.field, ChosenBy(m.field, v.items), v.items, 0);
    }
  }

  lemma {:induction false} ShownAllWithoutNames(f: Field, chosen: Option<seq<Member>>, vs: seq<S.Value>, k: nat)
    requires IsGroup(f)
    ensures forall j :: 0 <= j < |ShownFrom(f, chosen, vs, k, false)| ==> Nameless(ShownFrom(f, chosen, vs, k, false)[j])
    decreases S.ListV(vs), 0, |vs| - k
  {
    if k < |vs| {
      ShownAllWithoutNames(f, chosen, vs, k + 1);
      if Slot(f, chosen, k).Some? { ShownWithoutNames(Slot(f, chosen, k).value, vs[k]); }
    }
  }

  lemma {:induction false} ShownAt(f: Field, chosen: Option<seq<Member>>, vs: seq<S.Value>, k: nat, j: nat, names: bool)
    requires IsGroup(f) && k <= j < |vs| && Slot(f, chosen, j).Some?
    ensures ShownFrom(f, chosen, vs, k, names)[j - k] == ShownItem(Slot(f, chosen, j).value, vs[j], names)
    decreases j - k
  {
    if k < j { ShownAt(f, chosen, vs, k + 1, j, names); }
  }

  lemma LeafHasNoItems(m: Member, v: S.Value)
    requires Fits(m, v) && !IsGroup(m.field)
    ensures !v.ListV? && !Shown(m.field, v, true).Group? && !Shown(m.field, v, true).Repeat?
  {
  }

  lemma {:induction false} ShownWithNames(m: Member, v: S.Value)
    requires Fits(m, v)
    ensures FullyNamed(m, v, ShownItem(m, v, true))
    decreases v
  {
    hide S.Enc, S.Legal, Wire, NameOk, NamesOk, Slot, ChosenBy, IsMember;
    var f, item := m.field, ShownItem(m, v, true);
    if !IsGroup(f) {
      LeafHasNoItems(m, v);
    } else {
      GroupFits(f, v);
      GroupsAreShown(f, v, true);
      assert item == Item(Label(m, true), Shown(f, v, true));
      forall k | 0 <= k < |v.items|
        ensures MemberIsNamed(f, v.items, k, item.tree.items[k])
      {
        var n := Slot(f, ChosenBy(f, v.items), k).value;
        SlotIsMember(f, v.items, k, n);
        ShownWithNames(n, v.items[k]);
        ShownAt(f, ChosenBy(f, v.items), v.items, 0, k, true);
      }
    }
  }

  /** Printed without names, a value parses to a tree in which nothing has a name; printed
      with names, to one in which everything has the name that it should have. */
  lemma NamesArePrinted(m: Member, v: S.Value, names: bool)
    requires Fits(m, v)
    ensures var t := Parse(FormatItem(m, v, names));
            t.Some? && (if names then FullyNamed(m, v, t.value) else Nameless(t.value))
  {
    TextParses(m, v, names);
    if names { ShownWithNames(m, v); } else { ShownWithoutNames(m, v); }
  }

  /* ---- Characters ---- */

  /** The name that is written in front of a value. */
  function Tag(m: Member, names: bool): string {
    if names && m.name != "" && !m.field.Atomic? then m.name + " = " else ""
  }

  /** With commas between them. */
  function CommaList(parts: seq<string>): string {
    if parts == [] then ""
    else if |parts| == 1 then parts[0]
    else parts[0] + ", " + CommaList(parts[1..])
  }

  /** The parts are the texts of the items from number `k` on. */
  ghost predicate TextsFrom(f: Field, vs: seq<S.Value>, k: nat, names: bool, parts: seq<string>) {
    k + |parts| == |vs| && forall j :: 0 <= j < |parts| ==> IsTextOf(f, vs, k + j, names, parts[j])
  }

  ghost predicate IsTextOf(f: Field, vs: seq<S.Value>, k: nat, names: bool, text: string)
    requires k < |vs|
  {
    exists m :: IsMember(f, vs, k, m) && text == FormatItem(m, vs[k], names)
  }

  lemma OneMoreText(f: Field, vs: seq<S.Value>, k: nat, names: bool, text: string, rest: seq<string>)
    requires k < |vs| && IsTextOf(f, vs, k, names, text) && TextsFrom(f, vs, k + 1, names, rest)
    ensures TextsFrom(f, vs, k, names, [text] + rest)
  {
    var parts := [text] + rest;
    forall j | 0 <= j < |parts| ensures IsTextOf(f, vs, k + j, names, parts[j]) {
      if j > 0 { assert IsTextOf(f, vs, k + 1 + (j - 1), names, rest[j - 1]); }
    }
  }

  lemma NoParts()
    ensures CommaList([]) == ""
  {
  }

  lemma MoreParts(item: string, rest: seq<string>)
    ensures CommaList([item] + rest) == if rest == [] then item else item + (", " + CommaList(rest))
  {
    assert ([item] + rest)[1..] == rest;
  }

  lemma ItemIsText(f: Field, vs: seq<S.Value>, k: nat, names: bool, m: Member)
    requires k < |vs| && IsMember(f, vs, k, m)
    ensures IsTextOf(f, vs, k, names, FormatItem(m, vs[k], names))
  {
  }

  lemma {:induction false} TextsAreListed(f: Field, vs: seq<S.Value>, k: nat, names: bool) returns (parts: seq<string>)
    requires IsGroup(f) && SlotsFit(f, ChosenBy(f, vs), vs) && k <= |vs|
    ensures FormatFrom(f, ChosenBy(f, vs), vs, k, names) == CommaList(parts) && TextsFrom(f, vs, k, names, parts)
    decreases |vs| - k
  {
    hide Fits, Slot, ChosenBy, FormatItem, CommaList, IsTextOf, IsMember;
    if k == |vs| {
      assert CommaList([]) == "" by { NoParts(); }
      parts := [];
    } else {
      var m := Slot(f, ChosenBy(f, vs), k).value;
      SlotIsMember(f, vs, k, m);
      var rest := TextsAreListed(f, vs, k + 1, names);
      var item := FormatItem(m, vs[k], names);
      ItemIsText(f, vs, k, names, m);
      parts := [item] + rest;
      MoreParts(item, rest);
      OneMoreText(f, vs, k, names, item, rest);
    }
  }

  /** A group is its items with commas in between: in braces for a struct, in parentheses
      for an atomic field or a switch, in brackets for an array. */
  lemma GroupText(m: Member, v: S.Value, names: bool) returns (parts: seq<string>)
    requires Fits(m, v) && v.ListV?
    ensures TextsFrom(m.field, v.items, 0, names, parts)
    ensures FormatItem(m, v, names) == Tag(m, names) + (
              if m.field.Struct? then "{" + CommaList(parts) + "}"
              else if m.field.Atomic? || m.field.Switch? then "(" + CommaList(parts) + ")"
              else "[" + CommaList(parts) + "]")
  {
    if !IsGroup(m.field) { LeafHasNoItems(m, v); }
    hide Fits, Slot, ChosenBy, FormatFrom, SlotsFit, CommaList, TextsFrom;
    assert NamesOk(m.field) && S.Legal(Wire(m.field)) && S.Enc(Wire(m.field), v).Some? by { FittingIsLegal(m, v); }
    GroupFits(m.field, v);
    parts := TextsAreListed(m.field, v.items, 0, names);
    assert Format(m.field, v, names)
        == [Open(m.field)] + FormatFrom(m.field, ChosenBy(m.field, v.items), v.items, 0, names) + [Close(Open(m.field))];
  }

  lemma FittingIsLegal(m: Member, v: S.Value)
    requires Fits(m, v)
    ensures NamesOk(m.field) && S.Legal(Wire(m.field)) && S.Enc(Wire(m.field), v).Some?
  {
  }

  /** The number that decimal digits stand for. */
  function DecimalValue(s: string): int {
    if s == "" then 0 else 10 * DecimalValue(s[..|s| - 1]) + (s[|s| - 1] as int - '0' as int)
  }

  /** Decimal digits without a leading zero. */
  predicate IsDecimal(s: string) {
    && s != "" && (forall i :: 0 <= i < |s| ==> '0' <= s[i] <= '9')
    && (|s| > 1 ==> s[0] != '0')
  }

  lemma {:induction false} DecimalText(n: nat)
    ensures IsDecimal(Decimal(n)) && DecimalValue(Decimal(n)) == n && (n > 0 ==> Decimal(n)[0] != '0')
  {
    if n >= 10 {
      DecimalText(n / 10);
      var s := Decimal(n);
      assert s[..|s| - 1] == Decimal(n / 10);
    } else {
      assert Decimal(n)[..0] == "";
    }
  }

  /** An integer is its decimal digits, behind a minus sign if it is negative. */
  lemma NumberText(m: Member, i: int, names: bool)
    requires Fits(m, S.IntV(i))
    ensures var digits := Decimal(if i < 0 then -i else i);
            && IsDecimal(digits) && DecimalValue(digits) == (if i < 0 then -i else i)
            && FormatItem(m, S.IntV(i), names) == Tag(m, names) + (if i < 0 then "-" + digits else digits)
  {
    DecimalText(if i < 0 then -i else i);
  }

  const HEX_DIGITS := "0123456789abcdef"

  /** The pieces one after the other. */
  function Concatenated(pieces: seq<string>): string {
    if pieces == [] then "" else pieces[0] + Concatenated(pieces[1..])
  }

  /** Two hexadecimal digits for each byte. */
  predicate AreHexPairs(bs: Bytes, pieces: seq<string>) {
    |pieces| == |bs| && forall i :: 0 <= i < |bs| ==> pieces[i] == [HEX_DIGITS[bs[i] / 16], HEX_DIGITS[bs[i] % 16]]
  }

  lemma {:induction false} HexPairs(bs: Bytes) returns (pieces: seq<string>)
    ensures AreHexPairs(bs, pieces) && HexAll(bs) == Concatenated(pieces)
  {
    if bs == [] {
      pieces := [];
    } else {
      var rest := HexPairs(bs[1..]);
      pieces := [HexPair(bs[0])] + rest;
      assert pieces[1..] == rest;
    }
  }

  /** The quotation mark and the backslash behind a backslash, other printable characters as
      they are, and the rest as hexadecimal escapes. */
  predicate AreQuoted(bs: Bytes, pieces: seq<string>) {
    |pieces| == |bs| && forall i :: 0 <= i < |bs| ==>
      pieces[i] == if bs[i] == 34 then "\\\"" else if bs[i] == 92 then "\\\\"
                   else if 32 <= bs[i] <= 126 then [bs[i] as char]
                   else "\\x" + [HEX_DIGITS[bs[i] / 16], HEX_DIGITS[bs[i] % 16]]
  }

  lemma {:induction false} Quoted(bs: Bytes) returns (pieces: seq<string>)
    ensures AreQuoted(bs, pieces) && QuoteAll(bs, '"') == Concatenated(pieces)
  {
    if bs == [] {
      pieces := [];
    } else {
      var rest := Quoted(bs[1..]);
      pieces := [QuoteOne(bs[0], '"')] + rest;
      assert pieces[1..] == rest;
    }
  }

  /** A string is its characters in quotation marks. */
  lemma StringText(m: Member, text: Bytes, names: bool) returns (pieces: seq<string>)
    requires Fits(m, S.TextV(text)) && m.field.Str?
    ensures AreQuoted(text, pieces)
    ensures FormatItem(m, S.TextV(text), names) == Tag(m, names) + ("\"" + Concatenated(pieces) + "\"")
  {
    pieces := Quoted(text);
  }

  /** A blob is all of its bytes on the wire, its length included, in hexadecimal. */
  lemma BlobText(m: Member, v: S.Value, names: bool) returns (pieces: seq<string>)
    requires Fits(m, v) && m.field.Blob?
    ensures AreHexPairs(S.Enc(Wire(m.field), v).value, pieces)
    ensures FormatItem(m, v, names) == Tag(m, names) + ("<" + Concatenated(pieces) + ">")
  {
    pieces := HexPairs(S.Enc(Wire(m.field), v).value);
  }
}
