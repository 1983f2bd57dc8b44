/** What a .dc switch means, event by event, and that the packer selects the same fields
    as the switch that was built. */
module DcSwitchWire {
  import opened Common
  import opened DcSwitch
  import S = DcSchema
  import DcLayout

  /* ---- Labels, fields, breaks ---- */

  /** Position `i` holds the first label of that kind. */
  predicate IsFirst(h: seq<Event>, e: Event, i: nat) {
    i < |h| && h[i] == e && forall j :: 0 <= j < i ==> h[j] != e
  }

  lemma {:induction false} FirstIsFirst(h: seq<Event>, e: Event)
    requires e in h
    ensures IsFirst(h, e, First(h, e))
  {
    if h[0] != e {
      FirstIsFirst(h[1..], e);
      forall j | 0 <= j < First(h, e) ensures h[j] != e { assert j > 0 ==> h[j] == h[1..][j - 1]; }
    }
  }

  lemma OnlyOneIsFirst(h: seq<Event>, e: Event, i: nat)
    requires IsFirst(h, e, i)
    ensures e in h && First(h, e) == i
  {
    FirstIsFirst(h, e);
  }

  /** A value selects what its first label falls through to; a value without a label what
      the first default label falls through to; and nothing without a default. */
  lemma ValuesSelect(key: Field, h: seq<Event>, value: Bytes)
    ensures forall i: nat :: IsFirst(h, Event.Case(value), i) ==> Resolve(key, h, value) == Some(FallThrough(key, h, i))
    ensures Event.Case(value) !in h ==>
              forall i: nat :: IsFirst(h, Event.Default, i) ==> Resolve(key, h, value) == Some(FallThrough(key, h, i))
    ensures Event.Case(value) !in h && Event.Default !in h ==> Resolve(key, h, value) == None
  {
    forall i: nat | IsFirst(h, Event.Case(value), i) ensures Resolve(key, h, value) == Some(FallThrough(key, h, i)) {
      OnlyOneIsFirst(h, Event.Case(value), i);
    }
    if Event.Case(value) !in h {
      forall i: nat | IsFirst(h, Event.Default, i) ensures Resolve(key, h, value) == Some(FallThrough(key, h, i)) {
        OnlyOneIsFirst(h, Event.Default, i);
      }
    }
  }

  /** The declaration at `j` belongs to the label at `i`: no break lies between them. */
  predicate Reached(h: seq<Event>, i: nat, j: nat) {
    i < j < |h| && h[j].Declare? && forall k :: i < k < j ==> !h[k].Break?
  }

  predicate Increasing(at: seq<nat>) {
    forall m, n :: 0 <= m < n < |at| ==> at[m] < at[n]
  }

  /** The positions list, in order, the declarations that the label at `i` reaches. */
  ghost predicate Lists(h: seq<Event>, i: nat, at: seq<nat>) {
    && Increasing(at)
    && (forall m :: 0 <= m < |at| ==> Reached(h, i, at[m]))
    && (forall j: nat :: Reached(h, i, j) ==> j in at)
  }

  lemma ReachedFromNext(h: seq<Event>, i: nat, j: nat)
    requires i + 1 < |h| && !h[i + 1].Break?
    ensures Reached(h, i, j) <==> Reached(h, i + 1, j) || (j == i + 1 && h[j].Declare?)
  {
  }

  lemma ListsFromNext(h: seq<Event>, i: nat, rest: seq<nat>)
    requires i + 1 < |h| && !h[i + 1].Break? && Lists(h, i + 1, rest)
    ensures Lists(h, i, if h[i + 1].Declare? then [i + 1] + rest else rest)
  {
    var at := if h[i + 1].Declare? then [i + 1] + rest else rest;
    forall j: nat ensures Reached(h, i, j) <==> Reached(h, i + 1, j) || (j == i + 1 && h[j].Declare?) {
      ReachedFromNext(h, i, j);
    }
    hide Reached;
    forall j | j in rest ensures i + 1 < j { LaterIsReached(h, i + 1, rest, j); }
    assert forall m :: 0 <= m < |rest| ==> rest[m] in rest;
  }

  lemma LaterIsReached(h: seq<Event>, i: nat, at: seq<nat>, j: nat)
    requires Lists(h, i, at) && j in at
    ensures i < j && Reached(h, i, j)
  {
  }

  /** The declarations at those positions are the fields. */
  predicate AreDeclared(h: seq<Event>, at: seq<nat>, fields: seq<Field>) {
    |at| == |fields| && forall m :: 0 <= m < |at| ==> at[m] < |h| && h[at[m]] == Declare(fields[m])
  }

  lemma OneMoreDeclared(h: seq<Event>, k: nat, at: seq<nat>, f: Field, fields: seq<Field>)
    requires AreDeclared(h, at, fields) && k < |h| && h[k] == Declare(f)
    ensures AreDeclared(h, [k] + at, [f] + fields)
  {
  }

  /** Behind a label, everything up to the next break is declared for it, in order. */
  lemma {:induction false} DeclaredUpToBreak(h: seq<Event>, i: nat) returns (at: seq<nat>)
    requires i < |h|
    ensures Lists(h, i, at) && AreDeclared(h, at, Declared(h, i))
    decreases |h| - i
  {
    if i + 1 >= |h| || h[i + 1].Break? {
      at := [];
    } else {
      hide Lists, Reached, AreDeclared;
      var rest := DeclaredUpToBreak(h, i + 1);
      ListsFromNext(h, i, rest);
      if h[i + 1].Declare? {
        at := [i + 1] + rest;
        OneMoreDeclared(h, i + 1, rest, h[i + 1].field, Declared(h, i + 1));
      } else {
        at := rest;
      }
    }
  }

  /** The field at `j` has a name that occurs neither before it nor among `fields`. */
  predicate IsNew(fields: seq<Field>, more: seq<Field>, j: nat)
    requires j < |more|
  {
    more[j].name == ""
    || ((forall f :: f in fields ==> f.name != more[j].name) && (forall k :: 0 <= k < j ==> more[k].name != more[j].name))
  }

  /** The positions list, in order, the fields that are new. */
  ghost predicate ListsNew(fields: seq<Field>, more: seq<Field>, at: seq<nat>) {
    && Increasing(at)
    && (forall m :: 0 <= m < |at| ==> at[m] < |more| && IsNew(fields, more, at[m]))
    && (forall j: nat :: j < |more| && IsNew(fields, more, j) ==> j in at)
  }

  /** All are the fields, followed by the others at those positions. */
  predicate ArePicked(all: seq<Field>, fields: seq<Field>, more: seq<Field>, at: seq<nat>) {
    && fields <= all && |all| == |fields| + |at|
    && forall m :: 0 <= m < |at| ==> at[m] < |more| && all[|fields| + m] == more[at[m]]
  }

  /** Of several fields with one name the first is kept, and all those without a name. */
  lemma {:induction false} FirstOfEachName(fields: seq<Field>, more: seq<Field>) returns (at: seq<nat>)
    ensures ListsNew(fields, more, at) && ArePicked(AddAll(fields, more), fields, more, at)
    decreases |more|
  {
    if more == [] {
      at := [];
    } else {
      var front := more[..|more| - 1];
      var before := FirstOfEachName(fields, front);
      assert front + [more[|more| - 1]] == more;
      at := LastOfEachName(fields, front, before, more[|more| - 1]);
    }
  }

  lemma LastOfEachName(fields: seq<Field>, front: seq<Field>, before: seq<nat>, f: Field) returns (at: seq<nat>)
    requires ListsNew(fields, front, before) && ArePicked(AddAll(fields, front), fields, front, before)
    ensures ListsNew(fields, front + [f], at) && ArePicked(AddAll(fields, front + [f]), fields, front + [f], at)
  {
    hide IsNew, Taken, AddAll, ArePicked, ListsNew;
    var all := AddAll(fields, front);
    AddAllSnoc(fields, front, f);
    LastIsTaken(fields, front, before, all, f);
    NewStays(fields, front, before, f);
    PickedMore(all, fields, front, f, before);
    at := if IsNew(fields, front + [f], |front|) then before + [|front|] else before;
  }

  lemma PickedMore(all: seq<Field>, fields: seq<Field>, front: seq<Field>, f: Field, before: seq<nat>)
    requires ArePicked(all, fields, front, before)
    ensures ArePicked(all, fields, front + [f], before)
    ensures ArePicked(all + [f], fields, front + [f], before + [|front|])
  {
  }

  lemma SameSoFar(fields: seq<Field>, front: seq<Field>, f: Field, j: nat)
    requires j < |front|
    ensures IsNew(fields, front, j) <==> IsNew(fields, front + [f], j)
  {
    assert forall k :: 0 <= k <= j ==> (front + [f])[k] == front[k];
  }

  lemma NewStays(fields: seq<Field>, front: seq<Field>, before: seq<nat>, f: Field)
    requires ListsNew(fields, front, before)
    ensures var more := front + [f];
            ListsNew(fields, more, if IsNew(fields, more, |front|) then before + [|front|] else before)
  {
    var more := front + [f];
    forall j: nat | j < |front| ensures IsNew(fields, front, j) <==> IsNew(fields, more, j) {
      SameSoFar(fields, front, f, j);
    }
    hide IsNew;
    var at := if IsNew(fields, more, |front|) then before + [|front|] else before;
    forall j: nat | j < |more| && IsNew(fields, more, j) ensures j in at {
      if j == |front| { assert at[|before|] == j; } else { assert j in before; }
    }
  }

  /** A name is taken when it is among the fields or among the others so far. */
  lemma LastIsTaken(fields: seq<Field>, front: seq<Field>, before: seq<nat>, all: seq<Field>, f: Field)
    requires ListsNew(fields, front, before) && ArePicked(all, fields, front, before)
    ensures Taken(all, f.name) <==> !IsNew(fields, front + [f], |front|)
  {
    assert (front + [f])[|front|] == f;
    assert forall k :: 0 <= k < |front| ==> (front + [f])[k] == front[k];
    if f.name != "" {
      if exists k :: 0 <= k < |front| && front[k].name == f.name {
        var k :| 0 <= k < |front| && front[k].name == f.name;
        NamesArePicked(fields, front, before, all, k);
      }
      forall g | g in fields ensures g in all {}
      if exists g :: g in all && g.name == f.name {
        var g :| g in all && g.name == f.name;
        if g !in fields {
          var n :| 0 <= n < |all| && all[n] == g;
          assert all[|fields| + (n - |fields|)] == front[before[n - |fields|]];
        }
      }
    }
  }

  lemma NamesArePicked(fields: seq<Field>, front: seq<Field>, before: seq<nat>, all: seq<Field>, k: nat)
    requires ListsNew(fields, front, before) && ArePicked(all, fields, front, before)
    requires k < |front| && front[k].name != ""
    ensures exists g :: g in all && g.name == front[k].name
  {
    if exists g :: g in fields && g.name == front[k].name {
      var g :| g in fields && g.name == front[k].name;
      assert g in all;
    } else {
      var j := FirstNamed(front, k);
      assert IsNew(fields, front, j);
      var m :| 0 <= m < |before| && before[m] == j;
      assert all[|fields| + m] == front[j];
      assert front[j] in all;
    }
  }

  lemma {:induction false} FirstNamed(front: seq<Field>, k: nat) returns (j: nat)
    requires k < |front|
    ensures j <= k && front[j].name == front[k].name && forall i :: 0 <= i < j ==> front[i].name != front[k].name
  {
    if exists i :: 0 <= i < k && front[i].name == front[k].name {
      var i :| 0 <= i < k && front[i].name == front[k].name;
      j := FirstNamed(front, i);
    } else {
      j := k;
    }
  }

  /* ---- What the packer makes of it ---- */

  /** The key is a field of every case and comes first. */
  lemma {:induction false} KeyComesFirst(fields: seq<Field>, more: seq<Field>)
    requires fields != []
    ensures AddAll(fields, more) != [] && AddAll(fields, more)[0] == fields[0]
    decreases |more|
  {
    if more != [] { KeyComesFirst(AddTo(fields, more[0]), more[1..]); }
  }

  function Schemas(schema: Field -> S.Schema, fields: seq<Field>): (r: seq<S.Schema>)
    ensures |r| == |fields| && forall i :: 0 <= i < |fields| ==> r[i] == schema(fields[i])
  {
    if fields == [] then [] else [schema(fields[0])] + Schemas(schema, fields[1..])
  }

  /** The fields behind the key that the label at `i` falls through to. */
  function CaseFields(schema: Field -> S.Schema, key: Field, h: seq<Event>, i: nat): seq<S.Schema> {
    KeyComesFirst([key], Declared(h, i));
    Schemas(schema, FallThrough(key, h, i)[1..])
  }

  /** The cases with a label among the first `n` events, in order; a value that is used
      again gets no second case. */
  function CasesUpTo(schema: Field -> S.Schema, key: Field, h: seq<Event>, n: nat): seq<S.Case>
    requires n <= |h|
  {
    if n == 0 then []
    else CasesUpTo(schema, key, h, n - 1)
         + if h[n - 1].Case? && h[n - 1] !in h[..n - 1]
           then [S.Case(h[n - 1].value, CaseFields(schema, key, h, n - 1))] else []
  }

  /** The switch, with the key and the fields as the packer knows them. */
  function Built(schema: Field -> S.Schema, key: Field, h: seq<Event>): S.Schema {
    S.Switch(schema(key), CasesUpTo(schema, key, h, |h|),
             if Event.Default in h then S.Default(CaseFields(schema, key, h, First(h, Event.Default))) else S.NoDefault)
  }

  ghost predicate HasCase(cases: seq<S.Case>, value: Bytes, fields: seq<S.Schema>) {
    exists i: nat :: DcLayout.IsCase(cases, value, i) && cases[i].fields == fields
  }

  lemma MoreCases(cases: seq<S.Case>, more: seq<S.Case>, value: Bytes, fields: seq<S.Schema>)
    requires HasCase(cases, value, fields)
    ensures HasCase(cases + more, value, fields)
  {
    var i: nat :| DcLayout.IsCase(cases, value, i) && cases[i].fields == fields;
    assert forall j :: 0 <= j <= i ==> (cases + more)[j] == cases[j];
    assert DcLayout.IsCase(cases + more, value, i);
  }

  lemma OneMoreCase(cases: seq<S.Case>, value: Bytes, fields: seq<S.Schema>)
    requires DcLayout.NoCase(cases, value)
    ensures HasCase(cases + [S.Case(value, fields)], value, fields)
  {
    assert DcLayout.IsCase(cases + [S.Case(value, fields)], value, |cases|);
  }

  lemma {:induction false} CasesHaveTheirFields(schema: Field -> S.Schema, key: Field, h: seq<Event>, n: nat, value: Bytes)
    requires n <= |h|
    ensures var cases := CasesUpTo(schema, key, h, n);
            if Event.Case(value) in h[..n]
            then HasCase(cases, value, CaseFields(schema, key, h, First(h, Event.Case(value))))
            else DcLayout.NoCase(cases, value)
  {
    if n > 0 {
      var e := Event.Case(value);
      var before := CasesUpTo(schema, key, h, n - 1);
      CasesHaveTheirFields(schema, key, h, n - 1, value);
      assert h[..n] == h[..n - 1] + [h[n - 1]];
      hide CaseFields, HasCase;
      if e in h[..n - 1] {
        var last := if h[n - 1].Case? && h[n - 1] !in h[..n - 1] then [S.Case(h[n - 1].value, CaseFields(schema, key, h, n - 1))] else [];
        MoreCases(before, last, value, CaseFields(schema, key, h, First(h, e)));
      } else if h[n - 1] == e {
        assert forall j :: 0 <= j < n - 1 ==> h[j] == h[..n - 1][j];
        OnlyOneIsFirst(h, e, n - 1);
        OneMoreCase(before, value, CaseFields(schema, key, h, n - 1));
      }
    }
  }

  /** A switch packs as the record of the fields that apply_switch() returns for its key:
      the key, and what the key's label falls through to. A key that selects nothing does
      not pack. */
  lemma PacksWhatIsApplied(schema: Field -> S.Schema, key: Field, h: seq<Event>, k: S.Value, vs: seq<S.Value>)
    requires S.Enc(schema(key), k).Some?
    ensures var fields := Resolve(key, h, S.Enc(schema(key), k).value);
            S.Enc(Built(schema, key, h), S.ListV([k] + vs))
            == if fields.Some? then S.Enc(S.Record(Schemas(schema, fields.value)), S.ListV([k] + vs)) else None
  {
    var kb, s := S.Enc(schema(key), k).value, Built(schema, key, h);
    CasesHaveTheirFields(schema, key, h, |h|, kb);
    assert h[..|h|] == h;
    if Event.Case(kb) in h {
      var i: nat :| DcLayout.IsCase(s.cases, kb, i)
        && s.cases[i].fields == CaseFields(schema, key, h, First(h, Event.Case(kb)));
      DcLayout.SwitchPacks(s.key, s.cases, s.other, k, vs, i);
      KeyThenCase(schema, key, h, First(h, Event.Case(kb)), k, vs);
    } else {
      DcLayout.SwitchPacks(s.key, s.cases, s.other, k, vs, 0);
      if Event.Default in h { KeyThenCase(schema, key, h, First(h, Event.Default), k, vs); }
    }
  }

  lemma KeyThenCase(schema: Field -> S.Schema, key: Field, h: seq<Event>, i: nat, k: S.Value, vs: seq<S.Value>)
    requires S.Enc(schema(key), k).Some?
    ensures S.Enc(S.Record(Schemas(schema, FallThrough(key, h, i))), S.ListV([k] + vs))
         == DcLayout.InFront(S.Enc(schema(key), k).value, S.Enc(S.Record(CaseFields(schema, key, h, i)), S.ListV(vs)))
  {
    KeyComesFirst([key], Declared(h, i));
    var all := Schemas(schema, FallThrough(key, h, i));
    assert all[0] == schema(key) && all[1..] == CaseFields(schema, key, h, i);
    assert ([k] + vs)[1..] == vs;
    assert S.EncAll(all, [k] + vs) == S.Join(S.Enc(all[0], k), S.EncAll(all[1..], vs));
  }
}
