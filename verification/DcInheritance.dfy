/** Which field a class has under a name or a number, and which fields it lists: its own,
    and otherwise those of the first parent that has one. */
module DcInheritance {
  import opened Common
  import opened DcClass

  /* ---- Declaring ---- */

  /** A declaration adds one field, with the next number, or a constructor without a number,
      to one class and leaves the others alone. */
  lemma DeclarationsAdd(cs: Classes, c: nat, name: string, count: nat)
    requires c < |cs|
    ensures var ds := WithField(cs, c, Field(name, count));
            && |ds| == |cs| && (forall d :: 0 <= d < |cs| && d != c ==> ds[d] == cs[d])
            && ds[c].fields == cs[c].fields + [Field(name, count)]
            && ds[c].name == cs[c].name && ds[c].parents == cs[c].parents && ds[c].ctor == cs[c].ctor
    ensures var ds := WithConstructor(cs, c);
            && |ds| == |cs| && (forall d :: 0 <= d < |cs| && d != c ==> ds[d] == cs[d])
            && ds[c].ctor == Some(Field(cs[c].name, -1))
            && ds[c].name == cs[c].name && ds[c].parents == cs[c].parents && ds[c].fields == cs[c].fields
  {
  }

  lemma ParentsAreAdded(cs: Classes, c: nat, p: nat, name: string)
    requires c < |cs|
    ensures var ds := WithParent(cs, c, p);
            && |ds| == |cs| && (forall d :: 0 <= d < |cs| && d != c ==> ds[d] == cs[d])
            && ds[c].parents == cs[c].parents + [p]
            && ds[c].name == cs[c].name && ds[c].fields == cs[c].fields && ds[c].ctor == cs[c].ctor
    ensures NewClass(name).name == name && NewClass(name).parents == [] && NewClass(name).fields == [] && NewClass(name).ctor == None
  {
  }

  /* ---- By name ---- */

  /** The class declares the field itself. Its constructor has its own name. */
  predicate Declares(class_: Class, name: string, f: Field) {
    if class_.ctor.Some? && class_.ctor.value.name == name then f == class_.ctor.value
    else name != "" && f in class_.fields && f.name == name
  }

  predicate DeclaresNone(class_: Class, name: string) {
    && (class_.ctor.Some? ==> class_.ctor.value.name != name)
    && (name != "" ==> forall f :: f in class_.fields ==> f.name != name)
  }

  lemma OwnIsDeclared(class_: Class, name: string)
    requires UniqueNames(class_.fields)
    ensures forall f :: Declares(class_, name, f) ==> OwnName(class_, name) == Some(f)
    ensures DeclaresNone(class_, name) ==> OwnName(class_, name) == None
  {
    forall f ensures FindName(class_.fields, name) == Some(f) <==> name != "" && f in class_.fields && f.name == name {
      FindNameIs(class_.fields, name, f);
    }
  }

  /** The first parent under which something is found. */
  predicate FindsFirst(cs: Classes, c: nat, name: string, k: nat)
    requires Acyclic(cs) && c < |cs|
  {
    && k < |cs[c].parents| && LookupName(cs, cs[c].parents[k], name).Some?
    && forall j :: 0 <= j < k ==> LookupName(cs, cs[c].parents[j], name).None?
  }

  lemma {:induction false} FirstIsFound(cs: Classes, c: nat, i: nat, name: string)
    requires Acyclic(cs) && c < |cs| && i <= |cs[c].parents|
    requires forall j :: 0 <= j < i ==> LookupName(cs, cs[c].parents[j], name).None?
    ensures forall k: nat :: FindsFirst(cs, c, name, k) ==>
              FirstName(cs, c, cs[c].parents[i..], name) == LookupName(cs, cs[c].parents[k], name)
    ensures (forall j :: 0 <= j < |cs[c].parents| ==> LookupName(cs, cs[c].parents[j], name).None?) ==>
              FirstName(cs, c, cs[c].parents[i..], name) == None
    decreases |cs[c].parents| - i
  {
    hide LookupName;
    var ps := cs[c].parents;
    if i < |ps| {
      assert ps[i..][0] == ps[i] && ps[i..][1..] == ps[i + 1..];
      if LookupName(cs, ps[i], name).None? { FirstIsFound(cs, c, i + 1, name); }
    }
  }

  /** What the class declares itself is found. Otherwise what its first parent finds that
      finds anything; and when none does, nothing. */
  lemma FoundByName(cs: Classes, c: nat, name: string)
    requires WellFormed(cs) && c < |cs|
    ensures forall f :: Declares(cs[c], name, f) ==> LookupName(cs, c, name) == Some(f)
    ensures DeclaresNone(cs[c], name) ==> forall k: nat :: FindsFirst(cs, c, name, k) ==>
              LookupName(cs, c, name) == LookupName(cs, cs[c].parents[k], name)
    ensures DeclaresNone(cs[c], name) && (forall j :: 0 <= j < |cs[c].parents| ==> LookupName(cs, cs[c].parents[j], name).None?) ==>
              LookupName(cs, c, name) == None
  {
    hide OwnName;
    OwnIsDeclared(cs[c], name);
    assert cs[c].parents[0..] == cs[c].parents;
    FirstIsFound(cs, c, 0, name);
    assert LookupName(cs, c, name)
        == if OwnName(cs[c], name).Some? then OwnName(cs[c], name) else FirstName(cs, c, cs[c].parents, name);
  }

  /* ---- By number ---- */

  predicate FindsNumberFirst(cs: Classes, c: nat, number: int, k: nat)
    requires Acyclic(cs) && c < |cs|
  {
    && k < |cs[c].parents| && LookupNumber(cs, cs[c].parents[k], number).Some?
    && forall j :: 0 <= j < k ==> LookupNumber(cs, cs[c].parents[j], number).None?
  }

  lemma {:induction false} FirstNumberIsFound(cs: Classes, c: nat, i: nat, number: int)
    requires Acyclic(cs) && c < |cs| && i <= |cs[c].parents|
    requires forall j :: 0 <= j < i ==> LookupNumber(cs, cs[c].parents[j], number).None?
    ensures forall k: nat :: FindsNumberFirst(cs, c, number, k) ==>
              FirstNumber(cs, c, cs[c].parents[i..], number) == LookupNumber(cs, cs[c].parents[k], number)
    ensures (forall j :: 0 <= j < |cs[c].parents| ==> LookupNumber(cs, cs[c].parents[j], number).None?) ==>
              FirstNumber(cs, c, cs[c].parents[i..], number) == None
    decreases |cs[c].parents| - i
  {
    hide LookupNumber;
    var ps := cs[c].parents;
    if i < |ps| {
      assert ps[i..][0] == ps[i] && ps[i..][1..] == ps[i + 1..];
      if LookupNumber(cs, ps[i], number).None? { FirstNumberIsFound(cs, c, i + 1, number); }
    }
  }

  /** The class's own field of that number, or else what its first parent finds that finds
      anything. */
  lemma FoundByNumber(cs: Classes, c: nat, number: int)
    requires WellFormed(cs) && c < |cs|
    ensures forall f :: f in cs[c].fields && f.number == number ==> LookupNumber(cs, c, number) == Some(f)
    ensures (forall f :: f in cs[c].fields ==> f.number != number) ==> forall k: nat :: FindsNumberFirst(cs, c, number, k) ==>
              LookupNumber(cs, c, number) == LookupNumber(cs, cs[c].parents[k], number)
    ensures && (forall f :: f in cs[c].fields ==> f.number != number)
            && (forall j :: 0 <= j < |cs[c].parents| ==> LookupNumber(cs, cs[c].parents[j], number).None?) ==>
              LookupNumber(cs, c, number) == None
  {
    FindNumberIs(cs[c].fields, number);
    var own := FindNumber(cs[c].fields, number);
    forall f | f in cs[c].fields && f.number == number ensures own == Some(f) {
      var i, j :| 0 <= i < |cs[c].fields| && 0 <= j < |cs[c].fields| && cs[c].fields[i] == f && cs[c].fields[j] == own.value;
    }
    assert cs[c].parents[0..] == cs[c].parents;
    FirstNumberIsFound(cs, c, 0, number);
    assert LookupNumber(cs, c, number) == if own.Some? then own else FirstNumber(cs, c, cs[c].parents, number);
  }

  /* ---- The list ---- */

  /** The field is in the list of parent `k`, and no earlier parent has one of its name. */
  predicate ComesFrom(cs: Classes, c: nat, f: Field, k: nat)
    requires Acyclic(cs) && c < |cs|
  {
    && k < |cs[c].parents| && f in Inherit(cs, cs[c].parents[k])
    && forall j :: 0 <= j < k ==> forall g :: g in Inherit(cs, cs[c].parents[j]) ==> g.name != f.name
  }

  /** Of the parents from `i` on. */
  predicate ComesFromLater(cs: Classes, c: nat, f: Field, i: nat, k: nat)
    requires Acyclic(cs) && c < |cs|
  {
    && i <= k < |cs[c].parents| && f in Inherit(cs, cs[c].parents[k])
    && forall j :: i <= j < k ==> forall g :: g in Inherit(cs, cs[c].parents[j]) ==> g.name != f.name
  }

  ghost predicate ComesFromSome(cs: Classes, c: nat, f: Field, i: nat)
    requires Acyclic(cs) && c < |cs|
  {
    exists k: nat :: ComesFromLater(cs, c, f, i, k)
  }

  lemma {:induction false} GatheredComeFrom(cs: Classes, c: nat, i: nat, acc: seq<Field>, f: Field)
    requires WellFormed(cs) && c < |cs| && i <= |cs[c].parents| && NamedOnce(acc)
    ensures f in GatherAll(cs, c, cs[c].parents[i..], acc) <==>
              f in acc || (f.name != "" && f.name !in Names(acc) && ComesFromSome(cs, c, f, i))
    decreases |cs[c].parents| - i
  {
    hide Inherit, Gather;
    var ps := cs[c].parents;
    if i < |ps| {
      assert ps[i..][0] == ps[i] && ps[i..][1..] == ps[i + 1..];
      var add := Inherit(cs, ps[i]);
      InheritedOnce(cs, ps[i]);
      GatherMembers(acc, add);
      GatheredComeFrom(cs, c, i + 1, Gather(acc, add), f);
      OneMoreParent(cs, c, i, acc, Gather(acc, add), f);
    }
  }

  lemma OneMoreParent(cs: Classes, c: nat, i: nat, acc: seq<Field>, next: seq<Field>, f: Field)
    requires Acyclic(cs) && c < |cs| && i < |cs[c].parents|
    requires forall g :: g in next <==> g in acc || (g in Inherit(cs, cs[c].parents[i]) && g.name != "" && g.name !in Names(acc))
    ensures (f in next || (f.name != "" && f.name !in Names(next) && ComesFromSome(cs, c, f, i + 1)))
       <==> (f in acc || (f.name != "" && f.name !in Names(acc) && ComesFromSome(cs, c, f, i)))
  {
    hide Inherit;
    var add := Inherit(cs, cs[c].parents[i]);
    assert f.name in Names(next) <==> f.name in Names(acc) || (f.name != "" && exists g :: g in add && g.name == f.name) by {
      if f.name in Names(next) { var g :| g in next && g.name == f.name; }
      if f.name in Names(acc) { var g :| g in acc && g.name == f.name; assert g in next; }
      else if f.name != "" && exists g :: g in add && g.name == f.name { var g :| g in add && g.name == f.name; assert g in next; }
    }
    if f in add { assert ComesFromLater(cs, c, f, i, i); }
    if f.name != "" && f.name !in Names(next) && ComesFromSome(cs, c, f, i + 1) {
      var k: nat :| ComesFromLater(cs, c, f, i + 1, k);
      assert ComesFromLater(cs, c, f, i, k);
    }
    if f !in next && f.name != "" && f.name !in Names(acc) && ComesFromSome(cs, c, f, i) {
      var k: nat :| ComesFromLater(cs, c, f, i, k);
      assert k != i;
      assert ComesFromLater(cs, c, f, i + 1, k);
    }
  }

  /** A class lists its own fields, and of each other name the one that the first of its
      parents lists that has it. Fields without a name are not inherited. */
  lemma ListedFields(cs: Classes, c: nat, f: Field)
    requires WellFormed(cs) && c < |cs|
    ensures f in Inherit(cs, c) <==>
              || f in cs[c].fields
              || (&& f.name != "" && (forall g :: g in cs[c].fields ==> g.name != f.name)
                  && exists k: nat :: ComesFrom(cs, c, f, k))
  {
    hide Inherit, GatherAll;
    var above, fields := GatherAll(cs, c, cs[c].parents, []), cs[c].fields;
    assert cs[c].parents[0..] == cs[c].parents;
    GatheredOnce(cs, c, cs[c].parents, []);
    GatheredComeFrom(cs, c, 0, [], f);
    LocalMembers(above, fields);
    InheritIs(cs, c);
    SortMembers(AddLocal(above, fields));
    SameMembers(Inherit(cs, c), AddLocal(above, fields));
    if exists k: nat :: ComesFrom(cs, c, f, k) {
      var k: nat :| ComesFrom(cs, c, f, k);
      assert ComesFromLater(cs, c, f, 0, k);
    }
    if exists k: nat :: ComesFromLater(cs, c, f, 0, k) {
      var k: nat :| ComesFromLater(cs, c, f, 0, k);
      assert ComesFrom(cs, c, f, k);
    }
  }
}
