/** Building a switch: cases that follow each other share one set of fields on the heap,
    yet every case ends up with the fields a C switch would run through. */
module DcSwitch {
  import opened Common
  import opened DcBytes

  /** What a switch needs to know of a field. */
  datatype Field = Field(name: string, fixed: bool, size: nat, limits: bool)

  datatype Event = Case(value: Bytes) | Default | Declare(field: Field) | Break

  /* ---- What a C switch would do ---- */

  /** The fields declared after position `i`, up to the next break. */
  function Declared(h: seq<Event>, i: nat): seq<Field>
    decreases |h| - i
  {
    if i + 1 >= |h| || h[i + 1].Break? then []
    else if h[i + 1].Declare? then [h[i + 1].field] + Declared(h, i + 1)
    else Declared(h, i + 1)
  }

  /** A name that is already taken is not added again; fields without a name always are. */
  predicate Taken(fields: seq<Field>, name: string) {
    name != "" && exists f :: f in fields && f.name == name
  }

  function AddTo(fields: seq<Field>, f: Field): seq<Field> {
    if Taken(fields, f.name) then fields else fields + [f]
  }

  function AddAll(fields: seq<Field>, more: seq<Field>): seq<Field>
    decreases |more|
  {
    if more == [] then fields else AddAll(AddTo(fields, more[0]), more[1..])
  }

  /** The fields of a case whose label is at position `i`. */
  function FallThrough(key: Field, h: seq<Event>, i: nat): seq<Field> {
    AddAll([key], Declared(h, i))
  }

  /** The first position of a label. */
  function First(h: seq<Event>, e: Event): (i: nat)
    requires e in h
    ensures i < |h| && h[i] == e
  {
    if h[0] == e then 0 else 1 + First(h[1..], e)
  }

  function Resolve(key: Field, h: seq<Event>, value: Bytes): Option<seq<Field>> {
    if Case(value) in h then Some(FallThrough(key, h, First(h, Case(value))))
    else if Default in h then Some(FallThrough(key, h, First(h, Default)))
    else None
  }

  predicate DistinctNames(fields: seq<Field>) {
    forall i, j :: 0 <= i < j < |fields| && fields[i].name != "" ==> fields[i].name != fields[j].name
  }

  lemma {:induction false} AddAllDistinct(fields: seq<Field>, more: seq<Field>)
    requires DistinctNames(fields + more)
    ensures AddAll(fields, more) == fields + more
    decreases |more|
  {
    if more == [] {
      assert fields + more == fields;
    } else {
      var all := fields + more;
      assert all[|fields|] == more[0];
      forall f | f in fields ensures f.name == "" || f.name != more[0].name {
        var i :| 0 <= i < |fields| && fields[i] == f;
        assert all[i] == f;
      }
      assert fields + [more[0]] + more[1..] == all;
      AddAllDistinct(fields + [more[0]], more[1..]);
    }
  }

  /** With distinct names a case has the key and everything declared up to the break. */
  lemma DistinctNamesAllKept(key: Field, h: seq<Event>, i: nat)
    requires DistinctNames([key] + Declared(h, i))
    ensures FallThrough(key, h, i) == [key] + Declared(h, i)
  {
    AddAllDistinct([key], Declared(h, i));
  }

  /* ---- One more event ---- */

  ghost predicate Open(h: seq<Event>, i: nat) {
    forall j :: i < j < |h| ==> !h[j].Break?
  }

  ghost predicate Quiet(h: seq<Event>, i: nat, j: int) {
    i <= j < |h| && forall k :: i < k <= j ==> !h[k].Break? && !h[k].Declare?
  }

  lemma {:induction false} DeclaredGrows(h: seq<Event>, e: Event, i: nat)
    requires i < |h|
    ensures Declared(h + [e], i) == if e.Declare? && Open(h, i) then Declared(h, i) + [e.field] else Declared(h, i)
    decreases |h| - i
  {
    var g := h + [e];
    if i + 1 == |h| {
      assert g[i + 1] == e && Declared(g, i + 1) == [];
    } else {
      DeclaredGrows(h, e, i + 1);
      assert g[i + 1] == h[i + 1];
      assert Open(h, i) <==> Open(h, i + 1) && !h[i + 1].Break?;
    }
  }

  lemma {:induction false} DeclaredQuiet(h: seq<Event>, i: nat, j: int)
    requires Quiet(h, i, j)
    ensures Declared(h, i) == Declared(h, j)
    decreases j - i
  {
    if i < j { DeclaredQuiet(h, i + 1, j); }
  }

  lemma {:induction false} AddAllSnoc(fields: seq<Field>, more: seq<Field>, f: Field)
    ensures AddAll(fields, more + [f]) == AddTo(AddAll(fields, more), f)
    decreases |more|
  {
    if more == [] {
      assert more + [f] == [f] && [f][1..] == [];
    } else {
      assert (more + [f])[1..] == more[1..] + [f];
      AddAllSnoc(AddTo(fields, more[0]), more[1..], f);
    }
  }

  lemma FallThroughGrows(key: Field, h: seq<Event>, e: Event, i: nat)
    requires i < |h|
    ensures FallThrough(key, h + [e], i)
         == if e.Declare? && Open(h, i) then AddTo(FallThrough(key, h, i), e.field) else FallThrough(key, h, i)
  {
    DeclaredGrows(h, e, i);
    if e.Declare? { AddAllSnoc([key], Declared(h, i), e.field); }
  }

  lemma {:induction false} FirstStays(h: seq<Event>, e: Event, target: Event)
    requires target in h
    ensures First(h + [e], target) == First(h, target)
  {
    if h[0] != target {
      assert (h + [e])[1..] == h[1..] + [e];
      FirstStays(h[1..], e, target);
    }
  }

  lemma {:induction false} FirstIsNew(h: seq<Event>, target: Event)
    requires target !in h
    ensures First(h + [target], target) == |h|
  {
    if h != [] {
      assert (h + [target])[1..] == h[1..] + [target];
      FirstIsNew(h[1..], target);
    }
  }

  /* ---- The set of fields of one or more cases ---- */

  function SumOfSizes(fields: seq<Field>): nat {
    if fields == [] then 0 else SumOfSizes(fields[..|fields| - 1]) + fields[|fields| - 1].size
  }

  class SwitchFields {
    var fields: seq<Field>
    var fieldsByName: map<string, Field>
    var hasFixedByteSize: bool
    var fixedByteSize: nat
    var hasRangeLimits: bool
    /** The position of the label it was created for. */
    ghost const born: nat

    /** The flags say what is true of all fields together. */
    ghost predicate Valid()
      reads this
    {
      && (forall name :: name in fieldsByName <==> Taken(fields, name))
      && (hasFixedByteSize <==> forall f :: f in fields ==> f.fixed)
      && (hasFixedByteSize ==> fixedByteSize == SumOfSizes(fields))
      && (hasRangeLimits <==> exists f :: f in fields && f.limits)
    }

    constructor (ghost born: nat)
      ensures Valid() && fields == [] && this.born == born
    {
      fields, fieldsByName, hasFixedByteSize, fixedByteSize, hasRangeLimits := [], map[], true, 0, false;
      this.born := born;
    }

    method AddField(f: Field) returns (added: bool)
      requires Valid()
      modifies this
      ensures Valid() && fields == AddTo(old(fields), f) && added == !Taken(old(fields), f.name)
    {
      if f.name != "" {
        if f.name in fieldsByName { return false; }
        fieldsByName := fieldsByName[f.name := f];
      }
      assert (fields + [f])[..|fields|] == fields;
      fields := fields + [f];
      if hasFixedByteSize {
        hasFixedByteSize := f.fixed;
        fixedByteSize := fixedByteSize + f.size;
      }
      if !hasRangeLimits { hasRangeLimits := f.limits; }
      assert f in fields;
      assert forall g :: g in old(fields) ==> g in fields;
      added := true;
    }
  }

  class DCSwitch {
    const key: Field
    var cases: seq<SwitchFields>
    var casesByValue: map<Bytes, nat>
    var defaultCase: SwitchFields?
    var caseFields: seq<SwitchFields>
    var currentFields: seq<SwitchFields>
    var fieldsAdded: bool
    ghost var history: seq<Event>

    /** The set holds what its first label falls through to. */
    ghost predicate Right(s: SwitchFields, h: seq<Event>)
      reads s
    {
      s.Valid() && s.born < |h| && s.fields == FallThrough(key, h, s.born)
    }

    ghost predicate AllRight(h: seq<Event>)
      reads `caseFields, caseFields
    {
      forall s :: s in caseFields ==> Right(s, h)
    }

    /** The current sets are those that no break has closed; the last of them has no field
        of its own yet unless one was just added. */
    ghost predicate CurrentAreOpen(h: seq<Event>)
      reads `caseFields, `currentFields, `fieldsAdded
    {
      && (forall s :: s in caseFields ==> (s in currentFields <==> Open(h, s.born)))
      && (forall s :: s in currentFields ==> s in caseFields)
      && (forall i, j :: 0 <= i < j < |currentFields| ==> currentFields[i] != currentFields[j])
      && (currentFields != [] && !fieldsAdded ==> Quiet(h, currentFields[|currentFields| - 1].born, |h| - 1))
    }

    ghost predicate SetsAreRight()
      reads `caseFields, caseFields, `currentFields, `fieldsAdded, `history
    {
      AllRight(history) && CurrentAreOpen(history)
    }

    /** The set is shared by the label at position `i`. */
    ghost predicate Serves(s: SwitchFields, i: int)
      reads `caseFields, `history
    {
      s in caseFields && Quiet(history, s.born, i)
    }

    ghost predicate CasesAreRight()
      reads this
    {
      && (forall v :: v in casesByValue <==> Case(v) in history)
      && (forall v :: v in casesByValue ==>
            casesByValue[v] < |cases| && Serves(cases[casesByValue[v]], First(history, Case(v))))
      && (defaultCase != null <==> Default in history)
      && (defaultCase != null ==> Serves(defaultCase, First(history, Default)))
    }

    ghost predicate Valid()
      reads this, caseFields
    {
      SetsAreRight() && CasesAreRight()
    }

    constructor (key: Field)
      ensures Valid() && this.key == key && history == [] && caseFields == []
    {
      this.key := key;
      cases, casesByValue, defaultCase, caseFields, currentFields := [], map[], null, [], [];
      fieldsAdded, history := false, [];
    }

    predicate IsLabel(e: Event) {
      e.Case? || e.Default?
    }

    /** A new set after a break or a field; otherwise the set of the previous label. */
    method StartNewCase(ghost e: Event) returns (s: SwitchFields)
      requires SetsAreRight() && IsLabel(e)
      modifies `caseFields, `currentFields, `fieldsAdded, `history
      ensures SetsAreRight() && history == old(history) + [e]
      ensures Serves(s, |old(history)|)
      ensures forall x :: x in old(caseFields) ==> x in caseFields
      ensures forall x :: x in caseFields ==> x in old(caseFields) || fresh(x)
    {
      hide FallThrough, Open, Quiet;
      ghost var h := history;
      LabelKeeps(key, h, e);
      if currentFields == [] || fieldsAdded {
        s := NewFields();
        caseFields := caseFields + [s];
        currentFields := currentFields + [s];
      } else {
        s := currentFields[|currentFields| - 1];
      }
      fieldsAdded := false;
      history := history + [e];
      assert currentFields[|currentFields| - 1] == s;
    }

    method NewFields() returns (s: SwitchFields)
      ensures fresh(s) && s.Valid() && s.born == |history| && s.fields == [key]
    {
      s := new SwitchFields(|history|);
      var added := s.AddField(key);
    }

    /** No case, when the value is already taken. */
    method AddCase(value: Bytes) returns (index: Option<nat>)
      requires Valid()
      modifies `cases, `casesByValue, `caseFields, `currentFields, `fieldsAdded, `history
      ensures Valid() && history == old(history) + [Case(value)]
      ensures index == if Case(value) in old(history) then None else Some(|old(cases)|)
      ensures forall x :: x in caseFields ==> x in old(caseFields) || fresh(x)
    {
      hide Quiet, First, AllRight, CurrentAreOpen;
      LabelsStay(history, Case(value));
      if Case(value) !in history { FirstIsNew(history, Case(value)); }
      var s := StartNewCase(Case(value));
      assert forall v :: v in casesByValue ==> Serves(cases[casesByValue[v]], First(history, Case(v)));
      if value in casesByValue { return None; }
      index := Some(|cases|);
      AppendCase(value, s);
    }

    /** The new case is the last. */
    method AppendCase(value: Bytes, s: SwitchFields)
      requires value !in casesByValue && forall v :: v in casesByValue ==> casesByValue[v] < |cases|
      modifies `cases, `casesByValue
      ensures forall v :: v in casesByValue <==> v == value || v in old(casesByValue)
      ensures forall v :: v in casesByValue ==>
                casesByValue[v] < |cases|
                && cases[casesByValue[v]] == if v == value then s else old(cases)[old(casesByValue)[v]]
    {
      casesByValue := casesByValue[value := |cases|];
      cases := cases + [s];
    }

    /** False when there already is a default. */
    method AddDefault() returns (added: bool)
      requires Valid()
      modifies `defaultCase, `caseFields, `currentFields, `fieldsAdded, `history
      ensures Valid() && history == old(history) + [Default] && added == (Default !in old(history))
      ensures forall x :: x in caseFields ==> x in old(caseFields) || fresh(x)
    {
      hide Quiet, First, AllRight, CurrentAreOpen;
      LabelsStay(history, Default);
      if Default !in history { FirstIsNew(history, Default); }
      var s := StartNewCase(Default);
      if defaultCase != null { return false; }
      defaultCase := s;
      added := true;
    }

    /** Every current set gets the field once; no other set is touched. */
    method AddToCurrent(f: Field) returns (ok: bool)
      requires forall s :: s in caseFields ==> s.Valid()
      requires forall s :: s in currentFields ==> s in caseFields
      requires forall i, j :: 0 <= i < j < |currentFields| ==> currentFields[i] != currentFields[j]
      modifies currentFields
      ensures ok <==> forall s :: s in currentFields ==> !Taken(old(s.fields), f.name)
      ensures forall s :: s in caseFields ==>
                s.Valid() && s.fields == if s in currentFields then AddTo(old(s.fields), f) else old(s.fields)
    {
      hide SwitchFields.Valid, Taken, AddTo;
      ok := true;
      for i := 0 to |currentFields|
        invariant ok <==> forall s :: s in currentFields[..i] ==> !Taken(old(s.fields), f.name)
        invariant forall s :: s in caseFields ==>
          s.Valid() && s.fields == if s in currentFields[..i] then AddTo(old(s.fields), f) else old(s.fields)
      {
        var s := currentFields[i];
        assert s in currentFields && s !in currentFields[..i];
        assert currentFields[..i + 1] == currentFields[..i] + [s];
        var added := s.AddField(f);
        if !added { ok := false; }
      }
      assert currentFields[..|currentFields|] == currentFields;
    }

    method Distribute(f: Field) returns (ok: bool)
      requires SetsAreRight()
      modifies `fieldsAdded, `history, currentFields
      ensures SetsAreRight() && history == old(history) + [Declare(f)]
      ensures ok <==> old(currentFields) != []
                      && forall s :: s in old(currentFields) ==> !Taken(old(s.fields), f.name)
    {
      hide FallThrough, Open, Quiet, SwitchFields.Valid, Taken, AddTo;
      assert forall s :: s in caseFields ==> Right(s, history);
      FieldGoesToOpen(key, history, f);
      ok := AddToCurrent(f);
      if currentFields == [] { ok := false; } else { fieldsAdded := true; }
      history := history + [Declare(f)];
    }

    /** Goes to every current set; a set that already has the name does without. */
    method AddField(f: Field) returns (ok: bool)
      requires Valid()
      modifies `fieldsAdded, `history, currentFields
      ensures Valid() && history == old(history) + [Declare(f)]
      ensures ok <==> old(currentFields) != []
                      && forall s :: s in old(currentFields) ==> !Taken(old(s.fields), f.name)
    {
      hide Quiet, First, SetsAreRight, Taken;
      LabelsStay(history, Declare(f));
      ok := Distribute(f);
    }

    method AddBreak()
      requires Valid()
      modifies `currentFields, `fieldsAdded, `history
      ensures Valid() && history == old(history) + [Break]
    {
      LabelsStay(history, Break);
      BreakCloses(key, history);
      currentFields := [];
      fieldsAdded := false;
      history := history + [Break];
    }

    /** The fields that a value selects. */
    method ApplySwitch(value: Bytes) returns (fields: Option<seq<Field>>)
      requires Valid()
      ensures fields == Resolve(key, history, value)
    {
      if value in casesByValue {
        var s := cases[casesByValue[value]];
        DeclaredQuiet(history, s.born, First(history, Case(value)));
        return Some(s.fields);
      }
      if defaultCase != null {
        DeclaredQuiet(history, defaultCase.born, First(history, Default));
        return Some(defaultCase.fields);
      }
      return None;
    }
  }

  /** Whatever is written in a switch, every value selects what a C switch would run through. */
  method Build(key: Field, events: seq<Event>) returns (s: DCSwitch)
    ensures fresh(s) && s.Valid() && s.key == key && s.history == events
  {
    s := new DCSwitch(key);
    for i := 0 to |events|
      invariant fresh(s) && s.Valid() && s.key == key && s.history == events[..i]
      invariant forall x :: x in s.caseFields ==> fresh(x)
    {
      assert events[..i + 1] == events[..i] + [events[i]];
      assert forall x :: x in s.currentFields ==> x in s.caseFields;
      assert forall j :: 0 <= j < |s.currentFields| ==> s.currentFields[j] in s.currentFields;
      hide DCSwitch.Valid;
      match events[i]
      case Case(value) => var index := s.AddCase(value);
      case Default => var added := s.AddDefault();
      case Declare(f) => var ok := s.AddField(f);
      case Break => s.AddBreak();
    }
    assert events[..|events|] == events;
  }

  lemma FieldGoesToOpen(key: Field, h: seq<Event>, f: Field)
    ensures forall i: nat :: i < |h| ==>
      FallThrough(key, h + [Declare(f)], i) == if Open(h, i) then AddTo(FallThrough(key, h, i), f) else FallThrough(key, h, i)
    ensures forall i: nat :: i < |h| ==> (Open(h + [Declare(f)], i) <==> Open(h, i))
  {
    forall i: nat | i < |h|
      ensures FallThrough(key, h + [Declare(f)], i) == if Open(h, i) then AddTo(FallThrough(key, h, i), f) else FallThrough(key, h, i)
      ensures Open(h + [Declare(f)], i) <==> Open(h, i)
    {
      FallThroughGrows(key, h, Declare(f), i);
      OpenStays(h, Declare(f), i);
    }
  }

  lemma BreakCloses(key: Field, h: seq<Event>)
    ensures forall i: nat :: i < |h| ==> FallThrough(key, h + [Break], i) == FallThrough(key, h, i) && !Open(h + [Break], i)
  {
    forall i: nat | i < |h| ensures FallThrough(key, h + [Break], i) == FallThrough(key, h, i) && !Open(h + [Break], i) {
      FallThroughGrows(key, h, Break, i);
      OpenStays(h, Break, i);
    }
  }

  /** A label changes no case before it and starts out with the key alone. */
  lemma LabelKeeps(key: Field, h: seq<Event>, e: Event)
    requires e.Case? || e.Default?
    ensures forall i: nat :: i < |h| ==> FallThrough(key, h + [e], i) == FallThrough(key, h, i)
    ensures forall i: nat :: i < |h| ==> (Open(h + [e], i) <==> Open(h, i))
    ensures forall i: nat :: Quiet(h, i, |h| - 1) ==> Quiet(h + [e], i, |h|)
    ensures FallThrough(key, h + [e], |h|) == [key] && Open(h + [e], |h|) && Quiet(h + [e], |h|, |h|)
  {
    forall i: nat | i < |h| ensures FallThrough(key, h + [e], i) == FallThrough(key, h, i) && (Open(h + [e], i) <==> Open(h, i)) {
      FallThroughGrows(key, h, e, i);
      OpenStays(h, e, i);
    }
  }

  lemma OpenStays(h: seq<Event>, e: Event, i: nat)
    requires i < |h|
    ensures Open(h + [e], i) <==> Open(h, i) && !e.Break?
  {
    assert (h + [e])[|h|] == e;
    if Open(h + [e], i) {
      forall j | i < j < |h| ensures !h[j].Break? { assert (h + [e])[j] == h[j]; }
    }
  }

  /** Labels keep their first position, and stretches without breaks and fields stay so. */
  lemma LabelsStay(h: seq<Event>, e: Event)
    ensures forall v :: Case(v) in h ==> First(h + [e], Case(v)) == First(h, Case(v))
    ensures Default in h ==> First(h + [e], Default) == First(h, Default)
    ensures forall i, j :: Quiet(h, i, j) ==> Quiet(h + [e], i, j)
  {
    forall v | Case(v) in h ensures First(h + [e], Case(v)) == First(h, Case(v)) { FirstStays(h, e, Case(v)); }
    if Default in h { FirstStays(h, e, Default); }
  }
}