/** What unpack_validate misses. It leaps over fields without limits (DcReaders), so the
    bytes it accepts are those of its view of the schema; here it is settled which of
    them are no encoding, and for which schemas there are none. */
module DcAudit {
  import opened Common
  import opened DcBytes
  import opened DcSchema
  import opened DcCodec
  import opened DcMachine
  import opened DcReaders

  /* ---- Encodings ---- */

  /** `b` is the complete encoding of some value that fits the field. */
  ghost predicate IsEncoding(s: Schema, b: Bytes) {
    exists v :: Encodes(s, v, b)
  }

  ghost predicate Encodes(s: Schema, v: Value, b: Bytes) {
    Enc(s, v) == Some(b)
  }

  /** A byte string is an encoding exactly when it decodes and nothing is left over. */
  lemma CompleteEncoding(s: Schema, b: Bytes)
    requires Legal(s)
    ensures IsEncoding(s, b) <==> Dec(s, b).Some? && Dec(s, b).value.used == |b|
  {
    assert b[..|b|] == b;
    if IsEncoding(s, b) {
      var v :| Encodes(s, v, b);
      DecodesIffEncodes(s, v, b, |b|);
    }
    if Dec(s, b).Some? && Dec(s, b).value.used == |b| {
      DecodesIffEncodes(s, Dec(s, b).value.value, b, |b|);
      assert Encodes(s, Dec(s, b).value.value, b);
    }
  }

  /** What validating takes the field for. */
  function Audited(s: Schema): Schema {
    View(Validating, s)
  }

  /** `validate_ranges` accepts `b`. */
  predicate Validates(s: Schema, b: Bytes) {
    Dec(Audited(s), b).Some? && Dec(Audited(s), b).value.used == |b|
  }

  /* ---- Schemas on which nothing is missed ---- */

  /** The schemas on which unpack_validate misses nothing. Two shapes are skipped
      over by their size alone and so escape the check: a fixed-count array of
      variable-size elements without limits, and a switch whose cases all have one
      size, without limits and with a key that selects no case. */
  ghost predicate Auditable(s: Schema)
    decreases s, 0
  {
    match s
    case Num(_, _, _) => true
    case Text(_, _) => true
    case Array(elem, size) =>
      Auditable(elem) && (OneValue(size) && FixedSize(elem).None? ==> HasLimits(elem))
    case Record(fields) => AllAuditable(fields)
    case Switch(key, cases, other) =>
      && Auditable(key)
      && (forall i :: 0 <= i < |cases| ==> AllAuditable(cases[i].fields))
      && (other.Default? ==> AllAuditable(other.fields))
      && (FixedSize(s).Some? && !HasLimits(s) ==> EveryKeySelects(s))
  }

  ghost predicate EveryKeySelects(s: Schema)
    requires s.Switch?
  {
    forall k :: Some(|k|) == FixedSize(s.key) ==> Selected(s.cases, s.other, k).Some?
  }

  ghost predicate AllAuditable(fields: seq<Schema>)
    decreases fields, 0
  {
    fields == [] || (Auditable(fields[0]) && AllAuditable(fields[1..]))
  }

  /* ---- A view accepts what the field accepts ---- */

  lemma {:induction false} ViewAccepts(reader: Reader, s: Schema, b: Bytes)
    requires Legal(s) && Dec(s, b).Some?
    ensures Dec(View(reader, s), b).Some? && Dec(View(reader, s), b).value.used == Dec(s, b).value.used
    decreases s, 1, 0
  {
    if Leaps(reader, s) {
      LeapAccepts(s, b);
    } else {
      match s
      case Num(_, _, _) =>
      case Text(_, _) =>
      case Array(elem, size) => ViewAcceptsArray(reader, s, b);
      case Record(fields) => ViewAcceptsAll(reader, fields, b);
      case Switch(_, _, _) => ViewAcceptsSwitch(reader, s, b);
    }
  }

  lemma LeapAccepts(s: Schema, b: Bytes)
    requires Legal(s) && Dec(s, b).Some?
    ensures FixedSize(s).Some? ==>
              var d := Dec(Raw(FixedSize(s).value), b); d.Some? && d.value.used == Dec(s, b).value.used
    ensures FixedSize(s).None? && (s.Text? || s.Array?) ==>
              var d := Dec(Text(LengthBytes(s), []), b); d.Some? && d.value.used == Dec(s, b).value.used
  {
    if FixedSize(s).Some? {
      FixedSizeIsExact(s, b);
      RawDecodes(FixedSize(s).value, b);
    }
  }

  lemma {:induction false} ViewAcceptsArray(reader: Reader, s: Schema, b: Bytes)
    requires s.Array? && !Leaps(reader, s) && Legal(s) && Dec(s, b).Some?
    ensures Dec(View(reader, s), b).Some? && Dec(View(reader, s), b).value.used == Dec(s, b).value.used
    decreases s, 0, 0
  {
    var l := LengthBytes(s);
    ViewKeeps(reader, s.elem);
    if l == 0 { ViewAcceptsCount(reader, s.elem, b, s.size[0].lo); }
    else { ViewAcceptsSpan(reader, s.elem, b[l..], FromLe(b[..l])); }
  }

  lemma {:induction false} ViewAcceptsCount(reader: Reader, elem: Schema, b: Bytes, count: nat)
    requires Legal(elem) && DecCount(elem, b, count).Some?
    ensures var d, e := DecCount(View(reader, elem), b, count), DecCount(elem, b, count);
            d.Some? && d.value.used == e.value.used
    decreases elem, 2, count
  {
    hide Dec, View, Legal;
    if count > 0 {
      ViewAccepts(reader, elem, b);
      ViewAcceptsCount(reader, elem, b[Dec(elem, b).value.used..], count - 1);
    }
  }

  lemma {:induction false} ViewAcceptsSpan(reader: Reader, elem: Schema, b: Bytes, span: nat)
    requires Legal(elem) && DecSpan(elem, b, span).Some?
    ensures var d, e := DecSpan(View(reader, elem), b, span), DecSpan(elem, b, span);
            d.Some? && |d.value.value| == |e.value.value|
    decreases elem, 2, span
  {
    hide Dec, DecSpan, View, Legal;
    if span == 0 {
      EmptySpan(elem, b);
      EmptySpan(View(reader, elem), b);
    } else {
      FirstOfSpan(elem, b, span);
      var used := Dec(elem, b).value.used;
      ViewAccepts(reader, elem, b);
      FirstOfSpan(View(reader, elem), b, span);
      ViewAcceptsSpan(reader, elem, b[used..], span - used);
    }
  }

  lemma EmptySpan(elem: Schema, b: Bytes)
    ensures DecSpan(elem, b, 0) == Some(Parsed([], 0))
  {}

  lemma FirstOfSpan(elem: Schema, b: Bytes, span: nat)
    requires span > 0
    ensures var d := Dec(elem, b);
            DecSpan(elem, b, span)
            == if d.None? || d.value.used == 0 || d.value.used > span then None
               else Cons(d.value, DecSpan(elem, b[d.value.used..], span - d.value.used))
  {}

  lemma {:induction false} ViewAcceptsAll(reader: Reader, fields: seq<Schema>, b: Bytes)
    requires AllLegal(fields) && DecAll(fields, b).Some?
    ensures var d := DecAll(ViewAll(reader, fields), b);
            d.Some? && d.value.used == DecAll(fields, b).value.used
    decreases fields, 0, 0
  {
    if fields != [] {
      ViewAccepts(reader, fields[0], b);
      ViewAcceptsAll(reader, fields[1..], b[Dec(fields[0], b).value.used..]);
    }
  }

  lemma {:induction false} ViewAcceptsSwitch(reader: Reader, s: Schema, b: Bytes)
    requires s.Switch? && !Leaps(reader, s) && Legal(s) && Dec(s, b).Some?
    ensures Dec(View(reader, s), b).Some? && Dec(View(reader, s), b).value.used == Dec(s, b).value.used
    decreases s, 0, 0
  {
    var n := Dec(s.key, b).value.used;
    ViewAccepts(reader, s.key, b);
    ViewSelects(reader, s.cases, s.other, b[..n]);
    SelectedIsLegal(s, b[..n]);
    ViewAcceptsAll(reader, Selected(s.cases, s.other, b[..n]).value, b[n..]);
  }

  /** A value of the view is followed by anything, and its bytes decode as the field, if
      they do, to their end. */
  lemma SameExtent(s: Schema, w: Value, rest: Bytes)
    requires Legal(s) && Enc(Audited(s), w).Some?
    ensures var e := Enc(Audited(s), w).value;
            && Dec(Audited(s), e + rest) == Some(Parsed(w, |e|))
            && (Dec(s, e + rest).Some? ==> Dec(s, e + rest).value.used == |e|)
            && (Dec(s, e + rest).Some? <==> Dec(s, e).Some?)
  {
    var e := Enc(Audited(s), w).value;
    ViewKeeps(Validating, s);
    RoundTrip(Audited(s), w, rest);
    if Dec(s, e + rest).Some? {
      ViewAccepts(Validating, s, e + rest);
      assert (e + rest)[..|e|] == e;
      Complete(s, e + rest, []);
    }
    if Dec(s, e).Some? {
      RoundTrip(Audited(s), w, []);
      assert e + [] == e && e[..|e|] == e;
      ViewAccepts(Validating, s, e);
      Complete(s, e, rest);
    }
  }

  /** What decodes does so whatever follows the bytes it uses. */
  lemma Complete(s: Schema, b: Bytes, rest: Bytes)
    requires Legal(s) && Dec(s, b).Some?
    ensures Dec(s, b[..Dec(s, b).value.used] + rest) == Dec(s, b)
    ensures Dec(s, b[..Dec(s, b).value.used]) == Dec(s, b)
  {
    var d := Dec(s, b).value;
    Canonical(s, b);
    RoundTrip(s, d.value, rest);
    RoundTrip(s, d.value, []);
    assert b[..d.used] + [] == b[..d.used];
  }

  /* ---- Fields that are leapt over by their size ---- */

  /** A field of fixed size that does not accept all byte strings of that size: somewhere
      in it a switch key can be one that selects no case. */
  ghost predicate Flawed(s: Schema)
    decreases s, 1
  {
    match s
    case Num(_, _, _) => false
    case Text(_, _) => false
    case Array(elem, size) => OneValue(size) && size[0].lo > 0 && Flawed(elem)
    case Record(fields) => AnyFlawed(fields)
    case Switch(key, cases, other) =>
      || Flawed(key)
      || exists k: Bytes :: Some(|k|) == FixedSize(key) && Misleads(s, k)
  }

  /** The packed key selects no case, or one with a flawed field. */
  ghost predicate Misleads(s: Schema, k: Bytes)
    requires s.Switch?
    decreases s, 0
  {
    var chosen := Selected(s.cases, s.other, k);
    chosen.None? || AnyFlawed(chosen.value)
  }

  ghost predicate AnyFlawed(fields: seq<Schema>)
    decreases fields, 0
  {
    fields != [] && (Flawed(fields[0]) || AnyFlawed(fields[1..]))
  }

  lemma {:induction false} AuditableIsNotFlawed(s: Schema)
    requires Auditable(s) && FixedSize(s).Some? && !HasLimits(s)
    ensures !Flawed(s)
    decreases s, 0
  {
    match s
    case Num(_, _, _) =>
    case Text(_, _) =>
    case Array(elem, _) => AuditableIsNotFlawed(elem);
    case Record(fields) => AuditableHasNoFlawed(fields);
    case Switch(key, cases, other) =>
      AuditableIsNotFlawed(key);
      forall k: Bytes | Some(|k|) == FixedSize(key) ensures !Misleads(s, k) {
        var chosen := Selected(cases, other, k);
        assert chosen.Some?;
        AuditableHasNoFlawed(chosen.value);
      }
  }

  lemma {:induction false} AuditableHasNoFlawed(fields: seq<Schema>)
    requires AllAuditable(fields) && FixedSum(fields).Some? && !AnyLimits(fields)
    ensures !AnyFlawed(fields)
    decreases fields, 0
  {
    if fields != [] {
      AuditableIsNotFlawed(fields[0]);
      AuditableHasNoFlawed(fields[1..]);
    }
  }

  /** Without a flaw, and without limits, every byte string of the right size decodes. */
  lemma {:induction false} UnflawedDecodes(s: Schema, b: Bytes)
    requires Legal(s) && !Flawed(s) && !HasLimits(s)
    requires FixedSize(s).Some? && FixedSize(s).value <= |b|
    ensures Dec(s, b).Some?
    decreases s, 0, 0
  {
    match s
    case Num(_, _, _) =>
    case Text(_, _) =>
    case Array(elem, size) => UnflawedCount(elem, b, size[0].lo);
    case Record(fields) => UnflawedSum(fields, b);
    case Switch(key, cases, other) =>
      assert !Misleads(s, Junk(FixedSize(key).value));
      UnflawedDecodes(key, b);
      FixedSizeIsExact(key, b);
      var n := Dec(key, b).value.used;
      assert !Misleads(s, b[..n]);
      SelectedIsLegal(s, b[..n]);
      UnflawedSum(Selected(cases, other, b[..n]).value, b[n..]);
  }

  lemma {:induction false} UnflawedSum(fields: seq<Schema>, b: Bytes)
    requires AllLegal(fields) && !AnyFlawed(fields) && !AnyLimits(fields)
    requires FixedSum(fields).Some? && FixedSum(fields).value <= |b|
    ensures DecAll(fields, b).Some?
    decreases fields, 0, 0
  {
    if fields != [] {
      UnflawedDecodes(fields[0], b);
      FixedSizeIsExact(fields[0], b);
      UnflawedSum(fields[1..], b[Dec(fields[0], b).value.used..]);
    }
  }

  lemma {:induction false} UnflawedCount(elem: Schema, b: Bytes, count: nat)
    requires Legal(elem) && !HasLimits(elem) && (count > 0 ==> !Flawed(elem))
    requires FixedSize(elem).Some? && count * FixedSize(elem).value <= |b|
    ensures DecCount(elem, b, count).Some?
    decreases elem, 1, count
  {
    hide Flawed, HasLimits, Legal;
    if count > 0 {
      var k := FixedSize(elem).value;
      assert count * k == k + (count - 1) * k;
      assert (count - 1) * k >= 0;
      UnflawedDecodes(elem, b);
      FixedSizeIsExact(elem, b);
      UnflawedCount(elem, b[k..], count - 1);
    }
  }

  /** With a flaw some byte string of the right size does not. */
  lemma {:induction false} FlawedRejects(s: Schema) returns (b: Bytes)
    requires Legal(s) && Flawed(s) && !HasLimits(s) && FixedSize(s).Some?
    ensures |b| == FixedSize(s).value && Dec(s, b).None?
    decreases s, 2
  {
    match s
    case Num(_, _, _) => b := [];
    case Text(_, _) => b := [];
    case Array(elem, size) =>
      var c := FlawedRejects(elem);
      var n, k := size[0].lo, FixedSize(elem).value;
      assert n * k == k + (n - 1) * k;
      Nonnegative(n - 1, k);
      b := c + Junk((n - 1) * k);
      StillRejected(elem, c, Junk((n - 1) * k));
      assert DecCount(elem, b, n).None?;
      assert Dec(s, b) == DecArray(s, b);
    case Record(fields) => b := FlawedFields(fields);
    case Switch(_, _, _) => b := FlawedSwitch(s);
  }

  /** Bytes of the right size that do not decode do not decode with more bytes behind. */
  lemma StillRejected(s: Schema, c: Bytes, rest: Bytes)
    requires Legal(s) && FixedSize(s) == Some(|c|) && Dec(s, c).None?
    ensures Dec(s, c + rest).None?
  {
    if Dec(s, c + rest).Some? {
      FixedSizeIsExact(s, c + rest);
      assert (c + rest)[..|c|] == c;
      Complete(s, c + rest, []);
    }
  }

  lemma {:induction false} FlawedFields(fields: seq<Schema>) returns (b: Bytes)
    requires AllLegal(fields) && AnyFlawed(fields) && !AnyLimits(fields) && FixedSum(fields).Some?
    ensures |b| == FixedSum(fields).value && DecAll(fields, b).None?
    decreases fields, 1
  {
    if Flawed(fields[0]) {
      var c := FlawedRejects(fields[0]);
      b := c + Junk(FixedSum(fields[1..]).value);
      StillRejected(fields[0], c, Junk(FixedSum(fields[1..]).value));
    } else {
      var c := FlawedFields(fields[1..]);
      var k := FixedSize(fields[0]).value;
      b := Junk(k) + c;
      UnflawedDecodes(fields[0], b);
      FixedSizeIsExact(fields[0], b);
      assert b[k..] == c;
    }
  }

  lemma {:induction false} FlawedSwitch(s: Schema) returns (b: Bytes)
    requires s.Switch? && Legal(s) && Flawed(s) && !HasLimits(s) && FixedSize(s).Some?
    ensures |b| == FixedSize(s).value && Dec(s, b).None?
    decreases s, 1
  {
    var z, n := FixedSize(s).value, FixedSize(s.key).value;
    if s.cases == [] && s.other.NoDefault? {
      b := Junk(z);
    } else if Flawed(s.key) {
      var c := FlawedRejects(s.key);
      b := c + Junk(z - n);
      StillRejected(s.key, c, Junk(z - n));
    } else {
      var k :| Some(|k|) == FixedSize(s.key) && Misleads(s, k);
      b := MisledBy(s, k);
    }
    assert Dec(s, b) == DecSwitch(s, b);
  }

  lemma {:induction false} MisledBy(s: Schema, k: Bytes) returns (b: Bytes)
    requires s.Switch? && Legal(s) && !HasLimits(s) && FixedSize(s).Some?
    requires Some(|k|) == FixedSize(s.key) && Misleads(s, k) && (s.cases != [] || s.other.Default?)
    ensures |b| == FixedSize(s).value && DecSwitch(s, b).None?
    decreases s, 0
  {
    var z, n := FixedSize(s).value, FixedSize(s.key).value;
    var chosen := Selected(s.cases, s.other, k);
    if chosen.None? {
      b := k + Junk(z - n);
    } else {
      SelectedIsLegal(s, k);
      var c := FlawedFields(chosen.value);
      b := k + c;
      assert b[n..] == c;
    }
    assert b[..n] == k;
    if Dec(s.key, b).Some? { FixedSizeIsExact(s.key, b); }
  }

  /* ---- Bytes that are accepted unseen ---- */

  /** `w` is what validating takes accepted bytes for, and they are no encoding. */
  ghost predicate Deceives(s: Schema, w: Value) {
    Enc(Audited(s), w).Some? && Dec(s, Enc(Audited(s), w).value).None?
  }

  /** Among the bytes accepted as `w` validating leaps over a field where something can be
      wrong: a flawed one, or an array of a fixed number of variable-size elements, unless
      that number is 0 and there are no bytes. The key of a switch that is not leapt over
      decides what follows, so there only wrong bytes count. */
  ghost predicate Reached(s: Schema, w: Value)
    decreases s, 1, 0
  {
    if Leaps(Validating, s) then
      if FixedSize(s).Some? then Flawed(s)
      else s.Array? && w.TextV? && (s.size[0].lo > 0 || w.text != [])
    else
      w.ListV? &&
      match s
      case Num(_, _, _) => false
      case Text(_, _) => false
      case Array(elem, _) => SomeReached(elem, w.items)
      case Record(fields) => AnyReached(fields, w.items)
      case Switch(_, _, _) => w.items != [] && SwitchReached(s, w.items)
  }

  ghost predicate SwitchReached(s: Schema, ws: seq<Value>)
    requires s.Switch? && ws != []
    decreases s, 0, 0
  {
    || Deceives(s.key, ws[0])
    || (var k := Enc(Audited(s.key), ws[0]);
        && k.Some?
        && var chosen := Selected(s.cases, s.other, k.value);
        chosen.Some? && AnyReached(chosen.value, ws[1..]))
  }

  ghost predicate SomeReached(elem: Schema, ws: seq<Value>)
    decreases elem, 2, |ws|
  {
    ws != [] && (Reached(elem, ws[0]) || SomeReached(elem, ws[1..]))
  }

  ghost predicate AnyReached(fields: seq<Schema>, ws: seq<Value>)
    decreases fields, 0, 0
  {
    fields != [] && ws != [] && (Reached(fields[0], ws[0]) || AnyReached(fields[1..], ws[1..]))
  }

  /** What is accepted and does not decode was reached. */
  lemma {:induction false} MissedIsReached(s: Schema, b: Bytes)
    requires Legal(s) && Dec(Audited(s), b).Some? && Dec(s, b).None?
    ensures Reached(s, Dec(Audited(s), b).value.value)
    decreases s, 1, 0
  {
    if Leaps(Validating, s) {
      MissedLeap(s, b);
    } else {
      match s
      case Num(_, _, _) =>
      case Text(_, _) =>
      case Array(_, _) => MissedElement(s, b);
      case Record(fields) => MissedField(fields, b);
      case Switch(_, _, _) => MissedCase(s, b);
    }
  }

  lemma MissedLeap(s: Schema, b: Bytes)
    requires Leaps(Validating, s) && Legal(s) && Dec(Audited(s), b).Some? && Dec(s, b).None?
    ensures Reached(s, Dec(Audited(s), b).value.value)
  {
    if FixedSize(s).Some? {
      RawDecodes(FixedSize(s).value, b);
      if !Flawed(s) { UnflawedDecodes(s, b); }
    } else if s.Array? && s.size[0].lo == 0 && FromLe(b[..2]) == 0 {
      EmptySpan(s.elem, b[2..]);
      assert Dec(s, b) == DecArray(s, b);
    }
  }

  lemma {:induction false} MissedElement(s: Schema, b: Bytes)
    requires s.Array? && !Leaps(Validating, s) && Legal(s) && Dec(Audited(s), b).Some? && Dec(s, b).None?
    ensures Reached(s, Dec(Audited(s), b).value.value)
    decreases s, 0, 0
  {
    var l := LengthBytes(s);
    ViewKeeps(Validating, s.elem);
    if l == 0 { MissedInCount(s.elem, b, s.size[0].lo); }
    else { MissedInSpan(s.elem, b[l..], FromLe(b[..l])); }
  }

  lemma {:induction false} MissedInCount(elem: Schema, b: Bytes, count: nat)
    requires Legal(elem) && DecCount(Audited(elem), b, count).Some?
    ensures DecCount(elem, b, count).None? ==> SomeReached(elem, DecCount(Audited(elem), b, count).value.value)
    decreases elem, 2, count
  {
    hide Reached, Dec, View, Legal;
    if count > 0 {
      var d := Dec(Audited(elem), b).value;
      var r := DecCount(Audited(elem), b[d.used..], count - 1).value;
      assert ([d.value] + r.value)[1..] == r.value;
      if Dec(elem, b).None? { MissedIsReached(elem, b); }
      else {
        ViewAccepts(Validating, elem, b);
        MissedInCount(elem, b[d.used..], count - 1);
      }
    }
  }

  lemma {:induction false} MissedInSpan(elem: Schema, b: Bytes, span: nat)
    requires Legal(elem) && DecSpan(Audited(elem), b, span).Some?
    ensures var d, e := DecSpan(Audited(elem), b, span).value, DecSpan(elem, b, span);
            (e.None? ==> SomeReached(elem, d.value)) && (e.Some? ==> |e.value.value| == |d.value|)
    decreases elem, 2, span
  {
    hide Reached, Dec, DecSpan, View, Legal;
    if span == 0 {
      EmptySpan(elem, b);
      EmptySpan(Audited(elem), b);
    } else {
      FirstOfSpan(elem, b, span);
      FirstOfSpan(Audited(elem), b, span);
      var d := Dec(Audited(elem), b).value;
      var r := DecSpan(Audited(elem), b[d.used..], span - d.used).value;
      assert ([d.value] + r.value)[1..] == r.value;
      if Dec(elem, b).None? { MissedIsReached(elem, b); }
      else {
        ViewAccepts(Validating, elem, b);
        MissedInSpan(elem, b[d.used..], span - d.used);
      }
    }
  }

  lemma {:induction false} MissedField(fields: seq<Schema>, b: Bytes)
    requires AllLegal(fields) && DecAll(ViewAll(Validating, fields), b).Some? && DecAll(fields, b).None?
    ensures AnyReached(fields, DecAll(ViewAll(Validating, fields), b).value.value)
    decreases fields, 0, 0
  {
    var d := Dec(Audited(fields[0]), b).value;
    var r := DecAll(ViewAll(Validating, fields[1..]), b[d.used..]).value;
    assert ([d.value] + r.value)[1..] == r.value;
    if Dec(fields[0], b).None? { MissedIsReached(fields[0], b); }
    else {
      ViewAccepts(Validating, fields[0], b);
      MissedField(fields[1..], b[d.used..]);
    }
  }

  /** The bytes taken for a key are those of its view, and the key's own or a deception. */
  lemma KeyIsRead(key: Schema, b: Bytes)
    requires Legal(key) && Dec(Audited(key), b).Some?
    ensures var d := Dec(Audited(key), b).value;
            && Enc(Audited(key), d.value) == Some(b[..d.used])
            && (if Dec(key, b).Some? then Dec(key, b).value.used == d.used else Deceives(key, d.value))
  {
    hide Dec, Enc, View, Legal;
    var d := Dec(Audited(key), b).value;
    ViewKeeps(Validating, key);
    Canonical(Audited(key), b);
    SameExtent(key, d.value, b[d.used..]);
    assert b[..d.used] + b[d.used..] == b;
  }

  lemma {:induction false} MissedCase(s: Schema, b: Bytes)
    requires s.Switch? && !Leaps(Validating, s) && Legal(s) && Dec(Audited(s), b).Some? && Dec(s, b).None?
    ensures Reached(s, Dec(Audited(s), b).value.value)
    decreases s, 0, 0
  {
    hide Leaps, HasLimits, FixedSize, Enc, AnyReached, Selected, Deceives;
    var w := Audited(s);
    var d := Dec(w.key, b).value;
    var k := b[..d.used];
    KeyIsRead(s.key, b);
    ViewSelects(Validating, s.cases, s.other, k);
    if Dec(s.key, b).Some? {
      SelectedIsLegal(s, k);
      var r := DecAll(Selected(w.cases, w.other, k).value, b[d.used..]).value;
      assert ([d.value] + r.value)[1..] == r.value;
      MissedField(Selected(s.cases, s.other, k).value, b[d.used..]);
    }
  }

  /* ---- Where something can be wrong, bytes that are wrong are accepted too ---- */

  /** Some bytes, no longer than those of `w`, that are accepted and are no encoding. */
  lemma {:induction false} Deceive(s: Schema, w: Value) returns (x: Value)
    requires Legal(s) && Enc(Audited(s), w).Some? && Reached(s, w)
    ensures Deceives(s, x) && |Enc(Audited(s), x).value| <= |Enc(Audited(s), w).value|
    decreases s, 1, 0
  {
    if Leaps(Validating, s) {
      x := DeceiveLeap(s, w);
    } else {
      match s
      case Num(_, _, _) => x := w;
      case Text(_, _) => x := w;
      case Array(_, _) => x := DeceiveArray(s, w);
      case Record(fields) =>
        var xs := DeceiveFields(fields, w.items);
        x := ListV(xs);
      case Switch(_, _, _) => x := DeceiveSwitch(s, w);
    }
  }

  lemma DeceiveLeap(s: Schema, w: Value) returns (x: Value)
    requires Leaps(Validating, s) && Legal(s) && Enc(Audited(s), w).Some? && Reached(s, w)
    ensures Deceives(s, x) && |Enc(Audited(s), x).value| <= |Enc(Audited(s), w).value|
  {
    ViewKeeps(Validating, s);
    if FixedSize(s).Some? {
      var z := FixedSize(s).value;
      var b := FlawedRejects(s);
      RawDecodes(z, b);
      x := Dec(Raw(z), b).value.value;
      Canonical(Raw(z), b);
      assert b[..z] == b;
      RoundTrip(Raw(z), w, []);
      RawDecodes(z, Enc(Raw(z), w).value + []);
    } else {
      x := if s.size[0].lo > 0 then TextV([]) else w;
      CountIsWrong(s, x.text);
    }
  }

  /** No bytes are not the elements of an array that must have some, and some are not
      those of an array that must have none. */
  lemma CountIsWrong(s: Schema, text: Bytes)
    requires s.Array? && OneValue(s.size) && s.size[0].lo >= 0 && LengthBytes(s) == 2
    requires |text| < Pow256(2) && (s.size[0].lo > 0 <==> text == [])
    ensures Dec(s, Le(|text|, 2) + text).None?
  {
    hide FromLe, Le, FixedSize;
    var b := Le(|text|, 2) + text;
    FromLeOfLe(|text|, 2);
    assert b[..2] == Le(|text|, 2) && b[2..] == text;
    NotTheCount(s, text);
    assert Dec(s, b) == DecArray(s, b);
  }

  lemma NotTheCount(s: Schema, text: Bytes)
    requires s.Array? && OneValue(s.size) && s.size[0].lo >= 0 && (s.size[0].lo > 0 <==> text == [])
    ensures var d := DecSpan(s.elem, text, |text|); d.None? || !InRange(s.size, |d.value.value|)
  {
    hide Dec;
    EmptySpan(s.elem, text);
    if text != [] && DecSpan(s.elem, text, |text|).Some? { NonemptySpan(s.elem, text, |text|); }
  }

  lemma NonemptySpan(elem: Schema, b: Bytes, span: nat)
    requires span > 0 && DecSpan(elem, b, span).Some?
    ensures |DecSpan(elem, b, span).value.value| > 0
  {}

  lemma {:induction false} DeceiveFields(fields: seq<Schema>, ws: seq<Value>) returns (xs: seq<Value>)
    requires AllLegal(fields) && EncAll(ViewAll(Validating, fields), ws).Some? && AnyReached(fields, ws)
    ensures var v := ViewAll(Validating, fields);
            && EncAll(v, xs).Some? && |EncAll(v, xs).value| <= |EncAll(v, ws).value|
            && DecAll(fields, EncAll(v, xs).value).None?
    decreases fields, 0, 0
  {
    hide Reached, Legal, View;
    var v := ViewAll(Validating, fields);
    EncAllCons(v, ws);
    if Reached(fields[0], ws[0]) {
      var x := Deceive(fields[0], ws[0]);
      xs := [x] + ws[1..];
      assert xs[1..] == ws[1..];
      SameExtent(fields[0], x, EncAll(v[1..], ws[1..]).value);
    } else {
      var ys := DeceiveFields(fields[1..], ws[1..]);
      xs := [ws[0]] + ys;
      assert xs[1..] == ys;
      BehindTheFirst(fields, ws[0], EncAll(v[1..], ys).value);
    }
  }

  /** Bytes that the remaining fields reject are rejected behind the first one too. */
  lemma BehindTheFirst(fields: seq<Schema>, w: Value, rest: Bytes)
    requires fields != [] && AllLegal(fields) && Enc(Audited(fields[0]), w).Some? && DecAll(fields[1..], rest).None?
    ensures DecAll(fields, Enc(Audited(fields[0]), w).value + rest).None?
  {
    var e := Enc(Audited(fields[0]), w).value;
    SameExtent(fields[0], w, rest);
    assert (e + rest)[|e|..] == rest;
  }

  lemma {:induction false} DeceiveArray(s: Schema, w: Value) returns (x: Value)
    requires s.Array? && !Leaps(Validating, s) && Legal(s) && Enc(Audited(s), w).Some? && Reached(s, w)
    ensures Deceives(s, x) && |Enc(Audited(s), x).value| <= |Enc(Audited(s), w).value|
    decreases s, 0, 0
  {
    var xs := DeceiveElements(s.elem, w.items);
    x := ListV(xs);
    var body, l := EncRepeat(Audited(s.elem), xs).value, LengthBytes(s);
    ViewKeeps(Validating, s.elem);
    assert Enc(Audited(s), x) == Some(Le(|body|, l) + body);
    RejectedBody(s, |xs|, body);
  }

  lemma RejectedBody(s: Schema, count: nat, body: Bytes)
    requires s.Array? && InRange(s.size, count) && (LengthBytes(s) == 0 || |body| < Pow256(2))
    requires DecCount(s.elem, body, count).None? && DecSpan(s.elem, body, |body|).None?
    ensures Dec(s, Le(|body|, LengthBytes(s)) + body).None?
  {
    hide Le, FromLe, Dec, DecCount, DecSpan, FixedSize;
    var l := LengthBytes(s);
    var b := Le(|body|, l) + body;
    assert b[..l] == Le(|body|, l) && b[l..] == body;
    if l > 0 { FromLeOfLe(|body|, l); } else { assert b == body && s.size[0].lo == count; }
    ArraysDecode(s, b);
  }

  lemma ArraysDecode(s: Schema, b: Bytes)
    requires s.Array?
    ensures Dec(s, b) == DecArray(s, b)
  {
  }

  lemma {:induction false} DeceiveElements(elem: Schema, ws: seq<Value>) returns (xs: seq<Value>)
    requires Legal(elem) && Positive(elem) && EncRepeat(Audited(elem), ws).Some? && SomeReached(elem, ws)
    ensures |xs| == |ws|
    ensures var d, e := EncRepeat(Audited(elem), xs), EncRepeat(Audited(elem), ws).value;
            && d.Some? && |d.value| <= |e|
            && DecCount(elem, d.value, |xs|).None? && DecSpan(elem, d.value, |d.value|).None?
    decreases elem, 2, |ws|
  {
    hide Reached, Legal, View, Positive;
    EncRepeatSplit(Audited(elem), ws);
    if Reached(elem, ws[0]) {
      var x := Deceive(elem, ws[0]);
      xs := [x] + ws[1..];
      EncRepeatCons(Audited(elem), x, ws[1..]);
      FirstRejected(elem, x, EncRepeat(Audited(elem), ws[1..]).value, |ws|);
    } else {
      var ys := DeceiveElements(elem, ws[1..]);
      xs := [ws[0]] + ys;
      EncRepeatCons(Audited(elem), ws[0], ys);
      OthersRejected(elem, ws[0], EncRepeat(Audited(elem), ys).value, |ys|);
    }
  }

  lemma ViewIsPositive(s: Schema, w: Value)
    requires Legal(s) && Positive(s) && Enc(Audited(s), w).Some?
    ensures |Enc(Audited(s), w).value| > 0
  {
    ViewKeeps(Validating, s);
    EncIsPositive(Audited(s), w);
  }

  lemma FirstRejected(elem: Schema, x: Value, rest: Bytes, count: nat)
    requires Legal(elem) && Positive(elem) && Deceives(elem, x) && count > 0
    ensures var b := Enc(Audited(elem), x).value + rest;
            DecCount(elem, b, count).None? && DecSpan(elem, b, |b|).None?
  {
    ViewIsPositive(elem, x);
    SameExtent(elem, x, rest);
  }

  lemma OthersRejected(elem: Schema, w: Value, rest: Bytes, count: nat)
    requires Legal(elem) && Positive(elem) && Enc(Audited(elem), w).Some?
    requires DecCount(elem, rest, count).None? && DecSpan(elem, rest, |rest|).None?
    ensures var b := Enc(Audited(elem), w).value + rest;
            DecCount(elem, b, count + 1).None? && DecSpan(elem, b, |b|).None?
  {
    hide Dec, Enc, DecSpan, View, Legal, Positive;
    var e := Enc(Audited(elem), w).value;
    ViewIsPositive(elem, w);
    SameExtent(elem, w, rest);
    assert (e + rest)[|e|..] == rest;
    FirstOfSpan(elem, e + rest, |e + rest|);
  }

  lemma {:induction false} DeceiveSwitch(s: Schema, w: Value) returns (x: Value)
    requires s.Switch? && !Leaps(Validating, s) && Legal(s) && Enc(Audited(s), w).Some? && Reached(s, w)
    ensures Deceives(s, x) && |Enc(Audited(s), x).value| <= |Enc(Audited(s), w).value|
    decreases s, 0, 0
  {
    var v, ws := Audited(s), w.items;
    var k := Enc(v.key, ws[0]).value;
    ViewSelects(Validating, s.cases, s.other, k);
    if Deceives(s.key, ws[0]) {
      x := w;
      SameExtent(s.key, ws[0], EncAll(Selected(v.cases, v.other, k).value, ws[1..]).value);
    } else {
      var chosen := Selected(s.cases, s.other, k).value;
      SelectedIsLegal(s, k);
      var xs := DeceiveFields(chosen, ws[1..]);
      x := ListV([ws[0]] + xs);
      EncSwitchOnce(v, ws[0], xs, k, ViewAll(Validating, chosen));
      CaseRejected(s, ws[0], chosen, EncAll(ViewAll(Validating, chosen), xs).value);
    }
  }

  lemma CaseRejected(s: Schema, w: Value, chosen: seq<Schema>, rest: Bytes)
    requires s.Switch? && Legal(s) && Enc(Audited(s.key), w).Some?
    requires Selected(s.cases, s.other, Enc(Audited(s.key), w).value) == Some(chosen) && DecAll(chosen, rest).None?
    ensures Dec(s, Enc(Audited(s.key), w).value + rest).None?
  {
    var k := Enc(Audited(s.key), w).value;
    SameExtent(s.key, w, rest);
    assert (k + rest)[..|k|] == k && (k + rest)[|k|..] == rest;
  }

  /* ---- Exactly when validating misses nothing ---- */

  ghost predicate ValidatesOnlyEncodings(s: Schema) {
    forall b :: Validates(s, b) ==> IsEncoding(s, b)
  }

  ghost predicate NeverReached(s: Schema) {
    forall w :: Enc(Audited(s), w).Some? ==> !Reached(s, w)
  }

  /** validate_ranges() accepts encodings only, exactly if no record it accepts leads it
      to a field where something can be wrong unseen. */
  lemma ExactIffNeverReached(s: Schema)
    requires Legal(s)
    ensures ValidatesOnlyEncodings(s) <==> NeverReached(s)
  {
    hide Reached;
    ViewKeeps(Validating, s);
    if ValidatesOnlyEncodings(s) {
      forall w | Enc(Audited(s), w).Some? ensures !Reached(s, w) {
        if Reached(s, w) { var b := Escape(s, w); }
      }
    }
    if NeverReached(s) {
      forall b | Validates(s, b) ensures IsEncoding(s, b) {
        Canonical(Audited(s), b);
        if Dec(s, b).None? { MissedIsReached(s, b); } else { ViewAccepts(Validating, s, b); }
        CompleteEncoding(s, b);
      }
    }
  }

  lemma Escape(s: Schema, w: Value) returns (b: Bytes)
    requires Legal(s) && Enc(Audited(s), w).Some? && Reached(s, w)
    ensures Validates(s, b) && !IsEncoding(s, b)
  {
    hide Reached;
    var x := Deceive(s, w);
    b := Enc(Audited(s), x).value;
    SameExtent(s, x, []);
    assert b + [] == b;
    CompleteEncoding(s, b);
  }

  /** An encoding always validates. */
  lemma EncodingsValidate(s: Schema, b: Bytes)
    requires Legal(s) && IsEncoding(s, b)
    ensures Validates(s, b)
  {
    CompleteEncoding(s, b);
    ViewAccepts(Validating, s, b);
  }

  /** In an auditable schema there is no field to be reached. */
  lemma {:induction false} AuditableIsNotReached(s: Schema, w: Value)
    requires Legal(s) && Auditable(s) && Enc(Audited(s), w).Some?
    ensures !Reached(s, w)
    decreases s, 1, 0
  {
    if Leaps(Validating, s) {
      if FixedSize(s).Some? { AuditableIsNotFlawed(s); }
    } else {
      match s
      case Num(_, _, _) =>
      case Text(_, _) =>
      case Array(elem, _) => AuditableElements(elem, w.items);
      case Record(fields) => AuditableFields(fields, w.items);
      case Switch(_, _, _) => AuditableSwitch(s, w.items);
    }
  }

  lemma {:induction false} AuditableElements(elem: Schema, ws: seq<Value>)
    requires Legal(elem) && Auditable(elem) && EncRepeat(Audited(elem), ws).Some?
    ensures !SomeReached(elem, ws)
    decreases elem, 2, |ws|
  {
    if ws != [] {
      AuditableIsNotReached(elem, ws[0]);
      AuditableElements(elem, ws[1..]);
    }
  }

  lemma {:induction false} AuditableFields(fields: seq<Schema>, ws: seq<Value>)
    requires AllLegal(fields) && AllAuditable(fields) && EncAll(ViewAll(Validating, fields), ws).Some?
    ensures !AnyReached(fields, ws)
    decreases fields, 0, 0
  {
    if fields != [] {
      AuditableIsNotReached(fields[0], ws[0]);
      AuditableFields(fields[1..], ws[1..]);
    }
  }

  lemma {:induction false} AuditableSwitch(s: Schema, ws: seq<Value>)
    requires s.Switch? && !Leaps(Validating, s) && Legal(s) && Auditable(s)
    requires ws != [] && Enc(Audited(s), ListV(ws)).Some?
    ensures !SwitchReached(s, ws)
    decreases s, 0, 0
  {
    var k := Enc(Audited(s.key), ws[0]).value;
    AuditableIsNotReached(s.key, ws[0]);
    SameExtent(s.key, ws[0], []);
    assert k + [] == k;
    if Dec(s.key, k).None? { MissedIsReached(s.key, k); }
    ViewSelects(Validating, s.cases, s.other, k);
    var chosen := Selected(s.cases, s.other, k);
    if chosen.Some? {
      SelectedIsLegal(s, k);
      assert AllAuditable(chosen.value);
      AuditableFields(chosen.value, ws[1..]);
    }
  }

  lemma AuditableValidatesOnlyEncodings(s: Schema)
    requires Legal(s) && Auditable(s)
    ensures ValidatesOnlyEncodings(s)
  {
    hide Reached;
    forall w | Enc(Audited(s), w).Some? ensures !Reached(s, w) { AuditableIsNotReached(s, w); }
    ExactIffNeverReached(s);
  }

  /* ---- A schema that is not auditable, where a fitting value uses the field ---- */

  /** The two kinds of field that Auditable excludes. */
  ghost predicate Unaudited(s: Schema) {
    || (s.Array? && OneValue(s.size) && FixedSize(s.elem).None? && !HasLimits(s.elem))
    || (s.Switch? && FixedSize(s).Some? && !HasLimits(s) && !EveryKeySelects(s))
  }

  /** The value contains such a field; of an array at least one element of it. */
  ghost predicate Uses(s: Schema, v: Value)
    decreases s, 1, 0
  {
    v.ListV? && v.items != [] &&
    (Unaudited(s) ||
     match s
     case Num(_, _, _) => false
     case Text(_, _) => false
     case Array(elem, _) => SomeUses(elem, v.items)
     case Record(fields) => AnyUses(fields, v.items)
     case Switch(key, cases, other) =>
       var k := Enc(key, v.items[0]);
       && k.Some?
       && var chosen := Selected(cases, other, k.value);
       chosen.Some? && AnyUses(chosen.value, v.items[1..]))
  }

  ghost predicate SomeUses(elem: Schema, vs: seq<Value>)
    decreases elem, 2, |vs|
  {
    vs != [] && (Uses(elem, vs[0]) || SomeUses(elem, vs[1..]))
  }

  ghost predicate AnyUses(fields: seq<Schema>, vs: seq<Value>)
    decreases fields, 0, 0
  {
    fields != [] && vs != [] && (Uses(fields[0], vs[0]) || AnyUses(fields[1..], vs[1..]))
  }

  lemma {:induction false} UsedIsFlawed(s: Schema, v: Value)
    requires Legal(s) && Enc(s, v).Some? && Uses(s, v) && FixedSize(s).Some? && !HasLimits(s)
    ensures Flawed(s)
    decreases s, 1, 0
  {
    match s
    case Num(_, _, _) =>
    case Text(_, _) =>
    case Array(elem, _) => UsedElementIsFlawed(elem, v.items);
    case Record(fields) => UsedFieldIsFlawed(fields, v.items);
    case Switch(key, cases, other) =>
      if EveryKeySelects(s) {
        var k := Enc(key, v.items[0]).value;
        KeySize(key, v.items[0]);
        SelectedIsLegal(s, k);
        UsedFieldIsFlawed(Selected(cases, other, k).value, v.items[1..]);
        assert Misleads(s, k);
      } else {
        var k :| Some(|k|) == FixedSize(key) && Selected(cases, other, k).None?;
        assert Misleads(s, k);
      }
  }

  lemma KeySize(key: Schema, v: Value)
    requires Legal(key) && FixedSize(key).Some? && Enc(key, v).Some?
    ensures Some(|Enc(key, v).value|) == FixedSize(key)
  {
    RoundTrip(key, v, []);
    FixedSizeIsExact(key, Enc(key, v).value + []);
  }

  lemma {:induction false} UsedElementIsFlawed(elem: Schema, vs: seq<Value>)
    requires Legal(elem) && EncRepeat(elem, vs).Some? && SomeUses(elem, vs)
    requires FixedSize(elem).Some? && !HasLimits(elem)
    ensures Flawed(elem)
    decreases elem, 2, |vs|
  {
    if Uses(elem, vs[0]) { UsedIsFlawed(elem, vs[0]); } else { UsedElementIsFlawed(elem, vs[1..]); }
  }

  lemma {:induction false} UsedFieldIsFlawed(fields: seq<Schema>, vs: seq<Value>)
    requires AllLegal(fields) && EncAll(fields, vs).Some? && AnyUses(fields, vs)
    requires FixedSum(fields).Some? && !AnyLimits(fields)
    ensures AnyFlawed(fields)
    decreases fields, 0, 0
  {
    if Uses(fields[0], vs[0]) { UsedIsFlawed(fields[0], vs[0]); } else { UsedFieldIsFlawed(fields[1..], vs[1..]); }
  }

  /** What validating takes the bytes of a value for. */
  function Taken(s: Schema, v: Value, rest: Bytes): Value
    requires Legal(s) && Enc(s, v).Some?
  {
    RoundTrip(s, v, rest);
    ViewAccepts(Validating, s, Enc(s, v).value + rest);
    Dec(Audited(s), Enc(s, v).value + rest).value.value
  }

  lemma {:induction false} UsedIsReached(s: Schema, v: Value, rest: Bytes)
    requires Legal(s) && Enc(s, v).Some? && Uses(s, v)
    ensures Reached(s, Taken(s, v, rest))
    decreases s, 1, 0
  {
    RoundTrip(s, v, rest);
    ViewAccepts(Validating, s, Enc(s, v).value + rest);
    if Leaps(Validating, s) {
      if FixedSize(s).Some? { UsedIsFlawed(s, v); } else { assert s.size[0].lo == |v.items|; }
    } else {
      match s
      case Num(_, _, _) =>
      case Text(_, _) =>
      case Array(_, _) => UsedInArray(s, v, rest);
      case Record(fields) => UsedInFields(fields, v.items, rest);
      case Switch(_, _, _) => UsedInSwitch(s, v, rest);
    }
  }

  lemma {:induction false} UsedInFields(fields: seq<Schema>, vs: seq<Value>, rest: Bytes)
    requires AllLegal(fields) && EncAll(fields, vs).Some? && AnyUses(fields, vs)
    ensures var d := DecAll(ViewAll(Validating, fields), EncAll(fields, vs).value + rest);
            d.Some? && AnyReached(fields, d.value.value)
    decreases fields, 0, 0
  {
    hide Reached, Uses, Legal, View;
    EncAllCons(fields, vs);
    var a, b := Enc(fields[0], vs[0]).value, EncAll(fields[1..], vs[1..]).value;
    Slices(a, b, rest);
    RoundTripAll(fields, vs, rest);
    ViewAcceptsAll(Validating, fields, a + (b + rest));
    RoundTrip(fields[0], vs[0], b + rest);
    ViewAccepts(Validating, fields[0], a + (b + rest));
    var d := Dec(Audited(fields[0]), a + (b + rest)).value;
    var r := DecAll(ViewAll(Validating, fields[1..]), b + rest).value;
    assert ([d.value] + r.value)[1..] == r.value;
    if Uses(fields[0], vs[0]) { UsedIsReached(fields[0], vs[0], b + rest); }
    else { UsedInFields(fields[1..], vs[1..], rest); }
  }

  lemma {:induction false} UsedInArray(s: Schema, v: Value, rest: Bytes)
    requires s.Array? && !Leaps(Validating, s) && Legal(s) && Enc(s, v).Some? && v.ListV? && SomeUses(s.elem, v.items)
    ensures var d := Dec(Audited(s), Enc(s, v).value + rest); d.Some? && Reached(s, d.value.value)
    decreases s, 0, 0
  {
    var l, body := LengthBytes(s), EncRepeat(s.elem, v.items).value;
    RoundTrip(s, v, rest);
    ViewAccepts(Validating, s, Enc(s, v).value + rest);
    ViewKeeps(Validating, s.elem);
    Slices(Le(|body|, l), body, rest);
    UsedInElements(s.elem, v.items, rest);
    if l == 0 { assert Le(|body|, 0) + (body + rest) == body + rest; } else { FromLeOfLe(|body|, l); }
  }

  lemma {:induction false} UsedInElements(elem: Schema, vs: seq<Value>, rest: Bytes)
    requires Legal(elem) && Positive(elem) && EncRepeat(elem, vs).Some? && SomeUses(elem, vs)
    ensures var b := EncRepeat(elem, vs).value;
            var c, d := DecCount(Audited(elem), b + rest, |vs|), DecSpan(Audited(elem), b + rest, |b|);
            && (c.Some? ==> SomeReached(elem, c.value.value))
            && (d.Some? ==> SomeReached(elem, d.value.value))
    decreases elem, 2, |vs|
  {
    hide Reached, Uses, Legal, View, DecCount, DecSpan;
    EncRepeatSplit(elem, vs);
    var a, b := Enc(elem, vs[0]).value, EncRepeat(elem, vs[1..]).value;
    Slices(a, b, rest);
    EncIsPositive(elem, vs[0]);
    RoundTrip(elem, vs[0], b + rest);
    ViewAccepts(Validating, elem, a + (b + rest));
    if Uses(elem, vs[0]) { UsedIsReached(elem, vs[0], b + rest); }
    else { UsedInElements(elem, vs[1..], rest); }
    HeadOfList(elem, a + (b + rest), |vs|, |a + b|);
  }

  /** The elements of a list are the first and the elements of the rest. */
  lemma HeadOfList(elem: Schema, b: Bytes, count: nat, span: nat)
    requires Dec(Audited(elem), b).Some? && count > 0 && Dec(Audited(elem), b).value.used > 0
    ensures var d := Dec(Audited(elem), b).value;
            var c, r := DecCount(Audited(elem), b, count), DecCount(Audited(elem), b[d.used..], count - 1);
            c.Some? ==> r.Some? && c.value.value[0] == d.value && c.value.value[1..] == r.value.value
    ensures var d := Dec(Audited(elem), b).value;
            var c := DecSpan(Audited(elem), b, span);
            c.Some? && span > 0 ==>
              d.used <= span &&
              var r := DecSpan(Audited(elem), b[d.used..], span - d.used);
              r.Some? && c.value.value != [] && c.value.value[0] == d.value && c.value.value[1..] == r.value.value
  {}

  lemma {:induction false} UsedInSwitch(s: Schema, v: Value, rest: Bytes)
    requires s.Switch? && !Leaps(Validating, s) && Legal(s) && Enc(s, v).Some? && Uses(s, v)
    ensures var d := Dec(Audited(s), Enc(s, v).value + rest); d.Some? && Reached(s, d.value.value)
    decreases s, 0, 0
  {
    var w, k := Audited(s), Enc(s.key, v.items[0]).value;
    var chosen := Selected(s.cases, s.other, k).value;
    var body := EncAll(chosen, v.items[1..]).value;
    Slices(k, body, rest);
    SelectedIsLegal(s, k);
    RoundTrip(s.key, v.items[0], body + rest);
    ViewAccepts(Validating, s.key, k + (body + rest));
    ViewSelects(Validating, s.cases, s.other, k);
    ViewKeeps(Validating, s.key);
    Canonical(w.key, k + (body + rest));
    UsedInFields(chosen, v.items[1..], rest);
    var d := Dec(w.key, k + (body + rest)).value;
    var r := DecAll(ViewAll(Validating, chosen), body + rest).value;
    DecSwitchOnce(w, k + (body + rest), d, ViewAll(Validating, chosen), r);
    assert ([d.value] + r.value)[1..] == r.value;
  }

  /** Whenever a fitting value contains one of the two kinds of field, some bytes that
      validate are no encoding. */
  lemma UsedFieldsEscape(s: Schema, v: Value) returns (b: Bytes)
    requires Legal(s) && Enc(s, v).Some? && Uses(s, v)
    ensures Validates(s, b) && !IsEncoding(s, b)
  {
    hide Reached, Uses;
    var e := Enc(s, v).value;
    UsedIsReached(s, v, []);
    RoundTrip(s, v, []);
    ViewAccepts(Validating, s, e + []);
    ViewKeeps(Validating, s);
    Canonical(Audited(s), e + []);
    b := Escape(s, Taken(s, v, []));
  }

  /* ---- The two kinds, and what is left over ---- */

  /** Any array of a fixed number of variable-size elements without limits: the length
      prefix is believed, and the number of elements is not looked at. */
  lemma FixedCountArraysEscape(elem: Schema, n: nat) returns (b: Bytes)
    requires Legal(Array(elem, [Interval(n, n)])) && FixedSize(elem).None? && !HasLimits(elem)
    ensures Validates(Array(elem, [Interval(n, n)]), b) && !IsEncoding(Array(elem, [Interval(n, n)]), b)
  {
    var s := Array(elem, [Interval(n, n)]);
    b := Escape(s, TextV(if n > 0 then [] else [0]));
  }

  /** Any switch whose cases all have one size, without limits, when the key is one that
      selects no case. */
  lemma UnknownKeysEscape(s: Schema, key: Bytes) returns (b: Bytes)
    requires Legal(s) && s.Switch? && FixedSize(s).Some? && !HasLimits(s)
    requires Some(|key|) == FixedSize(s.key) && |key| <= FixedSize(s).value && Selected(s.cases, s.other, key).None?
    ensures key <= b && Validates(s, b) && !IsEncoding(s, b)
  {
    b := key + Junk(FixedSize(s).value - |key|);
    RawDecodes(FixedSize(s).value, b);
    CompleteEncoding(s, b);
    if Dec(s.key, b).Some? {
      FixedSizeIsExact(s.key, b);
      assert b[..|key|] == key;
    }
  }

  /** No elements, nothing missed: an array of 0 elements of fixed size validates exactly
      its encodings, whatever its elements are. */
  lemma NoElementsNothingMissed(elem: Schema)
    requires Legal(Array(elem, [Interval(0, 0)])) && FixedSize(elem).Some?
    ensures ValidatesOnlyEncodings(Array(elem, [Interval(0, 0)]))
  {
    var s := Array(elem, [Interval(0, 0)]);
    forall w | Enc(Audited(s), w).Some? ensures !Reached(s, w) {
      if !Leaps(Validating, s) {
        assert Audited(s) == Array(Audited(elem), s.size);
        assert Enc(Audited(s), w) == EncArray(Audited(s), w);
        assert InRange(s.size, |w.items|);
      }
    }
    ExactIffNeverReached(s);
  }
}
