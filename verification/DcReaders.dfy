/** Passing over one field without walking into it. Unpacking, skipping and validating
    each agree with the decoder of DcSchema on what they look at. */
module DcReaders {
  import opened Common
  import opened DcBytes
  import opened DcSchema
  import opened DcCodec
  import opened DcMachine

  /** A reader leaps over a field when it goes by the field's size or length prefix alone. */
  predicate Leaps(reader: Reader, s: Schema) {
    && (reader.Skipping? || (reader.Validating? && !HasLimits(s)))
    && (FixedSize(s).Some? || s.Text? || s.Array?)
  }

  /** So many bytes of any kind. */
  function Raw(n: nat): Schema {
    Array(Num(1, false, []), [Interval(n, n)])
  }

  /** What a reader takes the field for: where it leaps, the bytes may be anything. */
  function View(reader: Reader, s: Schema): Schema
    decreases s, 0
  {
    if Leaps(reader, s) then
      if FixedSize(s).Some? then Raw(FixedSize(s).value) else Text(LengthBytes(s), [])
    else
      match s
      case Num(_, _, _) => s
      case Text(_, _) => s
      case Array(elem, size) => Array(View(reader, elem), size)
      case Record(fields) => Record(ViewAll(reader, fields))
      case Switch(key, cases, other) =>
        Switch(View(reader, key), ViewCases(reader, cases),
               if other.Default? then Default(ViewAll(reader, other.fields)) else NoDefault)
  }

  function ViewAll(reader: Reader, fields: seq<Schema>): (r: seq<Schema>)
    ensures |r| == |fields|
    decreases fields, 0
  {
    if fields == [] then [] else [View(reader, fields[0])] + ViewAll(reader, fields[1..])
  }

  function ViewCases(reader: Reader, cases: seq<Case>): (r: seq<Case>)
    ensures |r| == |cases|
    decreases cases, 0
  {
    if cases == [] then []
    else [Case(cases[0].value, ViewAll(reader, cases[0].fields))] + ViewCases(reader, cases[1..])
  }

  lemma {:induction false} ViewFieldAt(reader: Reader, fields: seq<Schema>, k: nat)
    requires k < |fields|
    ensures ViewAll(reader, fields)[k] == View(reader, fields[k])
    decreases k
  {
    if k > 0 { ViewFieldAt(reader, fields[1..], k - 1); }
  }

  lemma {:induction false} ViewCaseAt(reader: Reader, cases: seq<Case>, i: nat)
    requires i < |cases|
    ensures ViewCases(reader, cases)[i] == Case(cases[i].value, ViewAll(reader, cases[i].fields))
    decreases i
  {
    if i > 0 { ViewCaseAt(reader, cases[1..], i - 1); }
  }

  /** A view has the size and the prefix of the field. */
  lemma {:induction false} ViewKeeps(reader: Reader, s: Schema)
    requires Legal(s)
    ensures Legal(View(reader, s)) && FixedSize(View(reader, s)) == FixedSize(s)
    ensures Positive(s) ==> Positive(View(reader, s))
    decreases s, 1
  {
    if Leaps(reader, s) {
      if Positive(s) && FixedSize(s).Some? { PositiveSize(s); }
    } else {
      match s
      case Num(_, _, _) =>
      case Text(_, _) =>
      case Array(elem, _) => ViewKeeps(reader, elem);
      case Record(fields) => ViewAllKeeps(reader, fields);
      case Switch(_, _, _) => ViewSwitchKeeps(reader, s);
    }
  }

  lemma {:induction false} ViewAllKeeps(reader: Reader, fields: seq<Schema>)
    requires AllLegal(fields)
    ensures AllLegal(ViewAll(reader, fields)) && FixedSum(ViewAll(reader, fields)) == FixedSum(fields)
    ensures AnyPositive(fields) ==> AnyPositive(ViewAll(reader, fields))
    decreases fields, 1
  {
    if fields != [] {
      ViewKeeps(reader, fields[0]);
      ViewAllKeeps(reader, fields[1..]);
    }
  }

  lemma {:induction false} ViewSwitchKeeps(reader: Reader, s: Schema)
    requires s.Switch? && Legal(s) && !Leaps(reader, s)
    ensures Legal(View(reader, s)) && FixedSize(View(reader, s)) == FixedSize(s)
    ensures Positive(s) ==> Positive(View(reader, s))
    decreases s, 0
  {
    var v := View(reader, s);
    ViewKeeps(reader, s.key);
    forall i | 0 <= i < |s.cases|
      ensures v.cases[i].fields == ViewAll(reader, s.cases[i].fields)
      ensures AllLegal(v.cases[i].fields) && FixedSum(v.cases[i].fields) == FixedSum(s.cases[i].fields)
    {
      ViewCaseAt(reader, s.cases, i);
      ViewAllKeeps(reader, s.cases[i].fields);
    }
    if s.other.Default? { ViewAllKeeps(reader, s.other.fields); }
  }

  /** The same case is selected. */
  lemma {:induction false} ViewSelects(reader: Reader, cases: seq<Case>, other: Otherwise, key: Bytes)
    ensures var other' := if other.Default? then Default(ViewAll(reader, other.fields)) else NoDefault;
            var chosen := Selected(cases, other, key);
            Selected(ViewCases(reader, cases), other', key)
            == if chosen.None? then None else Some(ViewAll(reader, chosen.value))
  {
    if cases != [] { ViewSelects(reader, cases[1..], other, key); }
  }

  /** Plain reading sees the field itself. */
  lemma {:induction false} ReadingSeesAll(s: Schema)
    ensures View(Reading, s) == s
    decreases s, 0
  {
    match s
    case Num(_, _, _) =>
    case Text(_, _) =>
    case Array(elem, _) => ReadingSeesAll(elem);
    case Record(fields) => ReadingSeesFields(fields);
    case Switch(key, cases, other) =>
      ReadingSeesAll(key);
      ReadingSeesCases(cases);
      if other.Default? { ReadingSeesFields(other.fields); }
  }

  lemma {:induction false} ReadingSeesFields(fields: seq<Schema>)
    ensures ViewAll(Reading, fields) == fields
    decreases fields, 0
  {
    if fields != [] {
      ReadingSeesAll(fields[0]);
      ReadingSeesFields(fields[1..]);
    }
  }

  lemma {:induction false} ReadingSeesCases(cases: seq<Case>)
    ensures ViewCases(Reading, cases) == cases
    decreases cases, 0
  {
    if cases != [] {
      ReadingSeesFields(cases[0].fields);
      ReadingSeesCases(cases[1..]);
    }
  }

  lemma {:induction false} PositiveSize(s: Schema)
    requires Legal(s) && Positive(s) && FixedSize(s).Some?
    ensures FixedSize(s).value > 0
    decreases s, 0
  {
    match s
    case Num(_, _, _) =>
    case Text(_, _) =>
    case Array(elem, _) => PositiveSize(elem);
    case Record(fields) => PositiveSum(fields);
    case Switch(key, _, _) => PositiveSize(key);
  }

  lemma {:induction false} PositiveSum(fields: seq<Schema>)
    requires AllLegal(fields) && AnyPositive(fields) && FixedSum(fields).Some?
    ensures FixedSum(fields).value > 0
    decreases fields, 0
  {
    if Positive(fields[0]) { PositiveSize(fields[0]); } else { PositiveSum(fields[1..]); }
  }

  lemma {:induction false} RawDecodes(n: nat, b: Bytes)
    ensures Dec(Raw(n), b).Some? <==> n <= |b|
    ensures n <= |b| ==> Dec(Raw(n), b).value.used == n
  {
    RawCount(n, b);
  }

  lemma {:induction false} RawCount(n: nat, b: Bytes)
    ensures DecCount(Num(1, false, []), b, n).Some? <==> n <= |b|
    ensures n <= |b| ==> DecCount(Num(1, false, []), b, n).value.used == n
    decreases n
  {
    if n > 0 && b != [] { RawCount(n - 1, b[1..]); }
  }

  /** An error is noted, or the cursor has left the buffer (which plain reading never
      lets happen). */
  predicate Lost(reader: Reader, m: Machine) {
    Failed(m) || (!reader.Reading? && m.p > |m.src|)
  }

  /** What one PassField step did, relative to the decoder of what the reader sees. */
  ghost predicate Passed(reader: Reader, s: Schema, m: Machine, n: Machine, v: Value) {
    && n == m.(p := n.p, packError := n.packError, rangeError := n.rangeError)
    && n.p >= m.p
    && (m.packError ==> n.packError) && (m.rangeError ==> n.rangeError)
    && (n.packError || !Positive(s) || n.p > m.p)
    && (m.p <= |m.src| ==>
          var d := Dec(View(reader, s), m.src[m.p..]);
          && (d.Some? ==> n == m.(p := m.p + d.value.used) && (reader.Reading? ==> v == d.value.value))
          && (d.None? ==> Lost(reader, n)))
  }

  lemma SliceOfTail(b: Bytes, p: nat, i: nat, j: nat)
    requires p + i <= p + j <= |b|
    ensures b[p..][i..j] == b[p + i..p + j]
  {
  }

  lemma ReadNumPasses(m: Machine, s: Schema)
    requires Legal(s) && s.Num?
    ensures var (n, v) := ReadNum(m, s);
            Passed(Reading, s, m, n, v) && (HasLimits(s) ==> Passed(Validating, s, m, n, ListV([])))
  {
    if m.p <= |m.src| && m.p + s.width <= |m.src| {
      assert m.src[m.p..][..s.width] == m.src[m.p..m.p + s.width];
    }
  }

  lemma ReadTextPasses(m: Machine, s: Schema)
    requires Legal(s) && s.Text?
    ensures var (n, v) := ReadText(m, s); Passed(Reading, s, m, n, v)
  {
    hide Dec, Positive, HasLimits, InRange, FromLe;
    if Positive(s) { PositiveText(s); }
    if m.p + LengthBytes(s) <= |m.src| { TextAt(s, m.src, m.p); }
    else if m.p <= |m.src| { TextCutOff(s, m.src[m.p..]); }
  }

  lemma PositiveText(s: Schema)
    requires Legal(s) && s.Text? && Positive(s)
    ensures LengthBytes(s) > 0 || s.lengths[0].lo > 0
  {
  }

  lemma TextCutOff(s: Schema, b: Bytes)
    requires s.Text? && |b| < LengthBytes(s)
    ensures Dec(s, b).None?
  {
  }

  /** The decoder's view of a text field, in buffer coordinates. */
  lemma TextAt(s: Schema, src: Bytes, p: nat)
    requires Legal(s) && s.Text? && p + LengthBytes(s) <= |src|
    ensures var l := LengthBytes(s);
            var n := if l == 0 then s.lengths[0].lo else FromLe(src[p..p + l]);
            n >= 0 && Dec(s, src[p..])
            == if InRange(s.lengths, n) && p + l + n <= |src|
               then Some(Parsed(TextV(src[p + l..p + l + n]), l + n)) else None
  {
    var l := LengthBytes(s);
    assert src[p..][..l] == src[p..p + l];
    var n := if l == 0 then s.lengths[0].lo else FromLe(src[p..p + l]);
    if p + l + n <= |src| { SliceOfTail(src, p, l, l + n); }
  }

  /** Skipping, and validating a field without limits, is a leap or the report of a
      prefix that is cut off. */
  lemma SkipPasses(reader: Reader, m: Machine, s: Schema)
    requires Legal(s) && SkipField(m, s).Some?
    requires reader.Skipping? || (reader.Validating? && !HasLimits(s))
    ensures Passed(reader, s, m, SkipField(m, s).value, ListV([]))
  {
    hide Passed, Positive, HasLimits, Dec, Legal, Past;
    if FixedSize(s).Some? { SizePasses(reader, m, s); } else { PrefixPasses(reader, m, s); }
  }

  lemma PrefixPasses(reader: Reader, m: Machine, s: Schema)
    requires Legal(s) && FixedSize(s).None? && SkipField(m, s).Some?
    requires reader.Skipping? || (reader.Validating? && !HasLimits(s))
    ensures Passed(reader, s, m, SkipField(m, s).value, ListV([]))
  {
    hide HasLimits, Dec, Legal, FromLe, FixedSize, LengthBytes, Positive;
    HasPrefix(s);
    PrefixDecodes(LengthBytes(s), m.src, m.p);
  }

  lemma HasPrefix(s: Schema)
    requires Legal(s) && FixedSize(s).None? && (s.Text? || s.Array?)
    ensures LengthBytes(s) > 0
  {
  }

  lemma SizePasses(reader: Reader, m: Machine, s: Schema)
    requires Legal(s) && FixedSize(s).Some?
    requires reader.Skipping? || (reader.Validating? && !HasLimits(s))
    ensures Passed(reader, s, m, Past(m, m.p + FixedSize(s).value), ListV([]))
  {
    hide FixedSize, HasLimits, Dec, Legal, Positive;
    if Positive(s) { PositiveSize(s); }
    if m.p <= |m.src| { RawDecodes(FixedSize(s).value, m.src[m.p..]); }
  }

  /** A length prefix tells where the field ends. */
  lemma PrefixDecodes(l: nat, src: Bytes, p: nat)
    ensures p <= |src| ==>
              Dec(Text(l, []), src[p..])
              == if p + l <= |src| && p + l + FromLe(src[p..p + l]) <= |src|
                 then Some(Parsed(TextV(src[p + l..p + l + FromLe(src[p..p + l])]), l + FromLe(src[p..p + l])))
                 else None
  {
    if p + l <= |src| {
      assert src[p..][..l] == src[p..p + l];
      var n := FromLe(src[p..p + l]);
      if p + l + n <= |src| { SliceOfTail(src, p, l, l + n); }
    }
  }

  lemma ValidatePasses(m: Machine, s: Schema)
    requires Legal(s) && ValidateField(m, s).Some?
    ensures Passed(Validating, s, m, ValidateField(m, s).value, ListV([]))
  {
    hide Passed, Positive, Dec, Legal, FixedSize, SkipField;
    if !HasLimits(s) {
      SkipPasses(Validating, m, s);
    } else if s.Num? {
      ReadNumPasses(m, s);
    } else {
      TextValidates(m, s);
    }
  }

  lemma TextValidates(m: Machine, s: Schema)
    requires Legal(s) && s.Text? && HasLimits(s)
    ensures ValidateField(m, s).Some? && Passed(Validating, s, m, ValidateField(m, s).value, ListV([]))
  {
    hide Dec, Positive, FromLe;
    if Positive(s) { PositiveText(s); }
    if m.p + LengthBytes(s) <= |m.src| { TextAt(s, m.src, m.p); }
    else if m.p <= |m.src| { TextCutOff(s, m.src[m.p..]); }
  }

  lemma FieldPasses(m: Machine, s: Schema, reader: Reader)
    requires Legal(s) && PassField(m, s, reader).Some?
    ensures var (n, v) := PassField(m, s, reader).value; Passed(reader, s, m, n, v)
  {
    match reader
    case Reading => if s.Num? { ReadNumPasses(m, s); } else { ReadTextPasses(m, s); }
    case Skipping => SkipPasses(Skipping, m, s);
    case Validating => ValidatePasses(m, s);
  }

  /** Passing over a field only moves the cursor and sets error flags. */
  lemma PassMovesCursor(m: Machine, s: Schema, reader: Reader)
    ensures var r := PassField(m, s, reader);
            r.Some? ==> r.value.0 == m.(p := r.value.0.p, packError := r.value.0.packError, rangeError := r.value.0.rangeError)
  {
    hide FixedSize, LengthBytes, HasLimits, FromLe, Signed, InRange, OneValue, SkipField, ValidateField;
    match reader
    case Reading =>
    case Skipping => SkipMovesCursor(m, s);
    case Validating => ValidateMovesCursor(m, s);
  }

  lemma SkipMovesCursor(m: Machine, s: Schema)
    ensures var r := SkipField(m, s); r.Some? ==> r.value == m.(p := r.value.p, packError := r.value.packError)
  {
    hide FixedSize, LengthBytes, FromLe;
  }

  lemma ValidateMovesCursor(m: Machine, s: Schema)
    ensures var r := ValidateField(m, s);
            r.Some? ==> r.value == m.(p := r.value.p, packError := r.value.packError, rangeError := r.value.rangeError)
  {
    hide FixedSize, LengthBytes, HasLimits, FromLe, Signed, InRange, SkipField;
    SkipMovesCursor(m, s);
  }
}
