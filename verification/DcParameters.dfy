/** The size and range flags that the constructors of the parameter classes work out,
    field by field, against the recursive definitions of DcSchema. */
module DcParameters {
  import opened Common
  import opened DcBytes
  import opened DcSchema

  /** `_has_fixed_byte_size` and `_fixed_byte_size` as one option. The size means
      nothing unless the flag is set. */
  function AsOption(fixed: bool, size: nat): Option<nat> {
    if fixed then Some(size) else None
  }

  function SizeOr0(s: Option<nat>): nat {
    if s.Some? then s.value else 0
  }

  lemma {:induction false} SumSnoc(fields: seq<Schema>, f: Schema)
    ensures FixedSum(fields + [f]) == Plus(FixedSum(fields), FixedSize(f))
    ensures AnyLimits(fields + [f]) <==> AnyLimits(fields) || HasLimits(f)
    decreases |fields|
  {
    hide FixedSize, HasLimits;
    if fields == [] {
      assert [] + [f] == [f] && [f][1..] == [];
      assert FixedSum([f]) == Plus(FixedSize(f), FixedSum([]));
      assert AnyLimits([f]) <==> HasLimits(f) || AnyLimits([]);
    } else {
      assert (fields + [f])[1..] == fields[1..] + [f];
      SumSnoc(fields[1..], f);
    }
  }

  /** A DCAtomicField, element by element. */
  class AtomicField {
    var elements: seq<Schema>
    var fixed: bool
    var size: nat
    var limits: bool

    ghost predicate Valid()
      reads this
    {
      && FixedSize(Record(elements)) == AsOption(fixed, size)
      && (limits <==> HasLimits(Record(elements)))
    }

    constructor ()
      ensures Valid() && elements == []
    {
      elements, fixed, size, limits := [], true, 0, false;
    }

    method AddElement(e: Schema)
      requires Valid()
      modifies this
      ensures Valid() && elements == old(elements) + [e]
    {
      hide FixedSum, AnyLimits;
      SumSnoc(elements, e);
      elements := elements + [e];
      if fixed {
        fixed := FixedSize(e).Some?;
        size := size + SizeOr0(FixedSize(e));
      }
      if !limits { limits := HasLimits(e); }
    }
  }

  /** The loop of DCClassParameter's constructor. */
  method ClassSizes(fields: seq<Schema>) returns (fixed: bool, size: nat, limits: bool)
    ensures AsOption(fixed, size) == FixedSize(Record(fields))
    ensures limits <==> HasLimits(Record(fields))
  {
    hide FixedSum, AnyLimits;
    fixed, size, limits := true, 0, false;
    NothingInside();
    assert fields[..0] == [];
    for i := 0 to |fields|
      invariant AsOption(fixed, size) == FixedSum(fields[..i])
      invariant limits <==> AnyLimits(fields[..i])
    {
      SumSnoc(fields[..i], fields[i]);
      assert fields[..i + 1] == fields[..i] + [fields[i]];
      fixed := fixed && FixedSize(fields[i]).Some?;
      size := size + SizeOr0(FixedSize(fields[i]));
      limits := limits || HasLimits(fields[i]);
    }
    assert fields[..|fields|] == fields;
  }

  lemma NothingInside()
    ensures FixedSum([]) == Some(0) && !AnyLimits([])
  {
  }

  /** Of a case, with the key in front: what SwitchFields holds. */
  function CaseSize(key: Schema, fields: seq<Schema>): Option<nat> {
    Plus(FixedSize(key), FixedSum(fields))
  }

  /** DCSwitchParameter's constructor: the first case's size is what all others, and the
      default, are compared with. */
  method SwitchSizes(key: Schema, cases: seq<Case>, other: Otherwise) returns (fixed: bool, size: nat, limits: bool)
    ensures AsOption(fixed, size) == FixedSize(Switch(key, cases, other))
    ensures limits <==> HasLimits(Switch(key, cases, other))
  {
    hide FixedSum, AnyLimits;
    fixed, size, limits := FixedSize(key).Some?, 0, HasLimits(key);
    if cases != [] { size := SizeOr0(CaseSize(key, cases[0].fields)); }
    for i := 0 to |cases|
      invariant fixed <==> FixedSize(key).Some? && forall j :: 0 <= j < i ==> CaseSize(key, cases[j].fields) == Some(size)
      invariant limits <==> HasLimits(key) || exists j :: 0 <= j < i && AnyLimits(cases[j].fields)
    {
      var c := CaseSize(key, cases[i].fields);
      if c.None? || SizeOr0(c) != size { fixed := false; }
      limits := limits || HasLimits(key) || AnyLimits(cases[i].fields);
    }
    if other.Default? {
      var c := CaseSize(key, other.fields);
      if c.None? || SizeOr0(c) != size { fixed := false; }
      limits := limits || HasLimits(key) || AnyLimits(other.fields);
    }
    if cases != [] { assert fixed ==> CaseSize(key, cases[0].fields) == Some(size); }
  }

  /** DCArrayParameter's constructor, and the length prefix it asks for. */
  method ArraySizes(elem: Schema, size: seq<Interval>) returns (fixed: bool, bytes: nat, limits: bool, prefix: nat)
    requires forall i :: 0 <= i < |size| ==> size[i].lo >= 0
    ensures AsOption(fixed, bytes) == FixedSize(Array(elem, size))
    ensures limits <==> HasLimits(Array(elem, size))
    ensures prefix == LengthBytes(Array(elem, size))
  {
    fixed, bytes, limits, prefix := false, 0, false, 0;
    var count := -1;
    if OneValue(size) { count := size[0].lo; } else { limits := true; }
    if count >= 0 && FixedSize(elem).Some? {
      fixed, bytes := true, count * FixedSize(elem).value;
    } else {
      prefix := 2;
    }
    if HasLimits(elem) { limits := true; }
  }
}
