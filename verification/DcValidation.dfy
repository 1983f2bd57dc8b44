/** What skipping and validating look at, field by field. */
module DcValidation {
  import opened Common
  import opened DcBytes
  import opened DcSchema
  import opened DcMachine
  import opened DcReaders
  import DcLayout

  /* ---- Limits ---- */

  /** Numbers, strings and blobs have limits when they are given. */
  lemma LimitsOfLeaves(width: nat, signed: bool, limits: seq<Interval>, prefix: nat, lengths: seq<Interval>)
    ensures HasLimits(Num(width, signed, limits)) <==> limits != []
    ensures HasLimits(Text(prefix, lengths)) <==> lengths != []
  {
  }

  /** Arrays have limits when their elements have, or when more than one size is allowed. */
  lemma LimitsOfArrays(elem: Schema, size: seq<Interval>)
    ensures HasLimits(Array(elem, size)) <==> HasLimits(elem) || !DcLayout.OnlyOne(size)
  {
  }

  /** Records have limits when one of their fields has. */
  lemma LimitsOfRecords(fields: seq<Schema>)
    ensures HasLimits(Record(fields)) <==> exists f :: f in fields && HasLimits(f)
  {
    AnyHasLimits(fields);
  }

  lemma {:induction false} AnyHasLimits(fields: seq<Schema>)
    ensures AnyLimits(fields) <==> exists f :: f in fields && HasLimits(f)
  {
    hide HasLimits;
    if fields != [] {
      AnyHasLimits(fields[1..]);
      assert fields == [fields[0]] + fields[1..];
      assert AnyLimits(fields) <==> HasLimits(fields[0]) || AnyLimits(fields[1..]);
      forall f | f in fields && f != fields[0] ensures f in fields[1..] {}
    }
  }

  /** Switches have limits when their key has, or a field of a case or of the default. */
  lemma LimitsOfSwitches(key: Schema, cases: seq<Case>, other: Otherwise)
    ensures HasLimits(Switch(key, cases, other)) <==>
              || HasLimits(key)
              || (exists c :: c in cases && HasLimits(Record(c.fields)))
              || (other.Default? && HasLimits(Record(other.fields)))
  {
    hide HasLimits, AnyLimits;
    SwitchLimits(key, cases, other);
    forall c | c in cases ensures HasLimits(Record(c.fields)) <==> AnyLimits(c.fields) { RecordLimits(c.fields); }
    if other.Default? { RecordLimits(other.fields); }
    if exists i :: 0 <= i < |cases| && AnyLimits(cases[i].fields) {
      var i :| 0 <= i < |cases| && AnyLimits(cases[i].fields);
      assert cases[i] in cases;
    }
    if exists c :: c in cases && HasLimits(Record(c.fields)) {
      var c :| c in cases && HasLimits(Record(c.fields));
      var i :| 0 <= i < |cases| && cases[i] == c;
      assert AnyLimits(cases[i].fields);
    }
  }

  lemma RecordLimits(fields: seq<Schema>)
    ensures HasLimits(Record(fields)) <==> AnyLimits(fields)
  {
  }

  lemma SwitchLimits(key: Schema, cases: seq<Case>, other: Otherwise)
    ensures HasLimits(Switch(key, cases, other)) <==>
              || HasLimits(key)
              || (exists i :: 0 <= i < |cases| && AnyLimits(cases[i].fields))
              || (other.Default? && AnyLimits(other.fields))
  {
  }

  /* ---- Passing over ---- */

  /** The reader need not look inside: it only skips, or there is nothing to validate. */
  predicate NeedNotLook(reader: Reader, s: Schema) {
    reader.Skipping? || (reader.Validating? && !HasLimits(s))
  }

  /** A field of fixed size that need not be looked at is passed over whatever its bytes are,
      when there are enough of them. */
  lemma FixedSizesArePassed(reader: Reader, s: Schema, b: Bytes)
    requires NeedNotLook(reader, s) && FixedSize(s).Some?
    ensures var d, n := Dec(View(reader, s), b), FixedSize(s).value;
            (d.Some? <==> n <= |b|) && (d.Some? ==> d.value.used == n)
  {
    RawTakesAnything(FixedSize(s).value, b);
  }

  lemma RawTakesAnything(n: nat, b: Bytes)
    ensures var d := Dec(Raw(n), b);
            (d.Some? <==> n <= |b|) && (d.Some? ==> d.value.used == n)
  {
    assert Dec(Raw(n), b) == DecArray(Raw(n), b);
    assert b[0..] == b;
    AnyBytes(b, n);
  }

  lemma {:induction false} AnyBytes(b: Bytes, n: nat)
    ensures var d := DecCount(Num(1, false, []), b, n);
            (d.Some? <==> n <= |b|) && (d.Some? ==> d.value.used == n)
    decreases n
  {
    if n > 0 {
      assert Dec(Num(1, false, []), b) == DecNum(Num(1, false, []), b);
      if b != [] { AnyBytes(b[1..], n - 1); }
    }
  }

  /** The number that the first bytes stand for, the lowest first. */
  function Prefix(b: Bytes, l: nat): nat
    requires l <= |b|
  {
    if l == 0 then 0
    else
      var low: nat := b[0];
      low + 256 * Prefix(b[1..], l - 1)
  }

  lemma {:induction false} PrefixIsRead(b: Bytes, l: nat)
    requires l <= |b|
    ensures FromLe(b[..l]) == Prefix(b, l)
    decreases l
  {
    if l > 0 {
      PrefixIsRead(b[1..], l - 1);
      assert b[..l][1..] == b[1..][..l - 1];
    }
  }

  /** Of other strings, blobs and arrays, the length in front is believed. */
  lemma LengthsAreBelieved(reader: Reader, s: Schema, b: Bytes)
    requires NeedNotLook(reader, s) && FixedSize(s).None? && (s.Text? || s.Array?)
    ensures var d, l := Dec(View(reader, s), b), LengthBytes(s);
            && (d.Some? <==> l <= |b| && l + Prefix(b, l) <= |b|)
            && (d.Some? ==> d.value.used == l + Prefix(b, l))
  {
    var l := LengthBytes(s);
    assert View(reader, s) == Text(l, []);
    if l <= |b| { PrefixIsRead(b, l); }
  }

  /* ---- Walking into ---- */

  /** Numbers, strings and blobs are checked as they are, and of groups each field is passed
      over or walked into in turn. */
  predicate IsWalkedInto(reader: Reader, s: Schema, w: Schema) {
    match s
    case Num(_, _, _) => w == s
    case Text(_, _) => w == s
    case Array(elem, size) => w == Array(View(reader, elem), size)
    case Record(fields) => w.Record? && FieldsAreWalked(reader, fields, w.fields)
    case Switch(key, cases, other) =>
      && w.Switch? && w.key == View(reader, key) && |w.cases| == |cases|
      && (forall i :: 0 <= i < |cases| ==> CaseIsWalked(reader, cases[i], w.cases[i]))
      && (w.other.Default? <==> other.Default?)
      && (other.Default? ==> FieldsAreWalked(reader, other.fields, w.other.fields))
  }

  /** Everything that is not passed over is walked into. */
  lemma OthersAreWalkedInto(reader: Reader, s: Schema)
    requires !(NeedNotLook(reader, s) && (FixedSize(s).Some? || s.Text? || s.Array?))
    ensures IsWalkedInto(reader, s, View(reader, s))
  {
    match s
    case Record(fields) => AllAreWalked(reader, fields);
    case Switch(_, cases, other) =>
      forall i | 0 <= i < |cases| ensures CaseIsWalked(reader, cases[i], View(reader, s).cases[i]) {
        ViewCaseAt(reader, cases, i);
        AllAreWalked(reader, cases[i].fields);
      }
      if other.Default? { AllAreWalked(reader, other.fields); }
    case _ =>
  }

  predicate FieldsAreWalked(reader: Reader, fields: seq<Schema>, views: seq<Schema>) {
    |views| == |fields| && forall i :: 0 <= i < |fields| ==> views[i] == View(reader, fields[i])
  }

  predicate CaseIsWalked(reader: Reader, c: Case, view: Case) {
    view.value == c.value && FieldsAreWalked(reader, c.fields, view.fields)
  }

  lemma AllAreWalked(reader: Reader, fields: seq<Schema>)
    ensures FieldsAreWalked(reader, fields, ViewAll(reader, fields))
  {
    forall i | 0 <= i < |fields| ensures ViewAll(reader, fields)[i] == View(reader, fields[i]) { ViewFieldAt(reader, fields, i); }
  }
}
