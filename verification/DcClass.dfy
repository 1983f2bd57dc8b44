/** Inheritance between the classes of a .dc file: the list of inherited fields that is
    built and cached per class, and the searches by name and by number. */
module DcClass {
  import opened Common
  import opened DcBytes

  /** A number is unique in the file; a constructor has none. */
  datatype Field = Field(name: string, number: int)

  /** Parents are known by their position, and were declared earlier. */
  datatype Class = Class(name: string, parents: seq<nat>, fields: seq<Field>, ctor: Option<Field>)

  type Classes = seq<Class>

  /* ---- Searching ---- */

  predicate Acyclic(cs: Classes) {
    forall c, k :: 0 <= c < |cs| && 0 <= k < |cs[c].parents| ==> cs[c].parents[k] < c
  }

  /** `_fields_by_name`: unnamed fields are not in it. */
  function FindName(fields: seq<Field>, name: string): Option<Field> {
    if fields == [] || name == "" then None
    else if fields[0].name == name then Some(fields[0])
    else FindName(fields[1..], name)
  }

  function OwnName(class_: Class, name: string): Option<Field> {
    if class_.ctor.Some? && class_.ctor.value.name == name then class_.ctor else FindName(class_.fields, name)
  }

  /** get_field_by_name(): the class itself, then its parents in order, depth first. */
  function LookupName(cs: Classes, c: nat, name: string): Option<Field>
    requires Acyclic(cs) && c < |cs|
    decreases c, 1, 0
  {
    if OwnName(cs[c], name).Some? then OwnName(cs[c], name) else FirstName(cs, c, cs[c].parents, name)
  }

  predicate Below(ps: seq<nat>, c: nat) {
    forall k :: 0 <= k < |ps| ==> ps[k] < c
  }

  function FirstName(cs: Classes, c: nat, ps: seq<nat>, name: string): Option<Field>
    requires Acyclic(cs) && c < |cs| && Below(ps, c)
    decreases c, 0, |ps|
  {
    if ps == [] then None
    else if LookupName(cs, ps[0], name).Some? then LookupName(cs, ps[0], name)
    else FirstName(cs, c, ps[1..], name)
  }

  function FindNumber(fields: seq<Field>, number: int): Option<Field> {
    if fields == [] then None
    else if fields[0].number == number then Some(fields[0])
    else FindNumber(fields[1..], number)
  }

  /** get_field_by_index() without its cache. */
  function LookupNumber(cs: Classes, c: nat, number: int): Option<Field>
    requires Acyclic(cs) && c < |cs|
    decreases c, 1, 0
  {
    if FindNumber(cs[c].fields, number).Some? then FindNumber(cs[c].fields, number)
    else FirstNumber(cs, c, cs[c].parents, number)
  }

  function FirstNumber(cs: Classes, c: nat, ps: seq<nat>, number: int): Option<Field>
    requires Acyclic(cs) && c < |cs| && Below(ps, c)
    decreases c, 0, |ps|
  {
    if ps == [] then None
    else if LookupNumber(cs, ps[0], number).Some? then LookupNumber(cs, ps[0], number)
    else FirstNumber(cs, c, ps[1..], number)
  }

  /* ---- The list of inherited fields ---- */

  function Names(s: seq<Field>): set<string> {
    set f | f in s :: f.name
  }

  /** A parent's fields: the earlier parent shadows the later one, and unnamed fields are
      not inherited when fields are sorted by their order in the file. */
  function Gather(acc: seq<Field>, add: seq<Field>): seq<Field>
    decreases |add|
  {
    if add == [] then acc
    else if add[0].name == "" || add[0].name in Names(acc) then Gather(acc, add[1..])
    else Gather(acc + [add[0]], add[1..])
  }

  /** shadow_inherited_field() */
  function Erase(s: seq<Field>, name: string): seq<Field> {
    if s == [] then [] else if s[0].name == name then s[1..] else [s[0]] + Erase(s[1..], name)
  }

  /** The list without the field that `f` shadows. */
  function Shadowed(acc: seq<Field>, f: Field): seq<Field> {
    if f.name != "" && f.name in Names(acc) then Erase(acc, f.name) else acc
  }

  /** The class's own fields, which shadow inherited ones of the same name. */
  function AddLocal(acc: seq<Field>, fields: seq<Field>): seq<Field>
    decreases |fields|
  {
    if fields == [] then acc
    else AddLocal(Shadowed(acc, fields[0]) + [fields[0]], fields[1..])
  }

  function Insert(f: Field, s: seq<Field>): seq<Field> {
    if s == [] || f.number < s[0].number then [f] + s else [s[0]] + Insert(f, s[1..])
  }

  function Sort(s: seq<Field>): seq<Field> {
    if s == [] then [] else Insert(s[0], Sort(s[1..]))
  }

  function Inherit(cs: Classes, c: nat): seq<Field>
    requires Acyclic(cs) && c < |cs|
    decreases c, 1, 0
  {
    Sort(AddLocal(GatherAll(cs, c, cs[c].parents, []), cs[c].fields))
  }

  function GatherAll(cs: Classes, c: nat, ps: seq<nat>, acc: seq<Field>): seq<Field>
    requires Acyclic(cs) && c < |cs| && Below(ps, c)
    decreases c, 0, |ps|
  {
    if ps == [] then acc else GatherAll(cs, c, ps[1..], Gather(acc, Inherit(cs, ps[0])))
  }

  /* ---- What add_field() keeps ---- */

  predicate UniqueNames(s: seq<Field>) {
    forall i, j :: 0 <= i < j < |s| && s[i].name != "" ==> s[i].name != s[j].name
  }

  /** Names are unique in a class and numbers in the file. */
  predicate WellFormed(cs: Classes) {
    && Acyclic(cs)
    && (forall c :: 0 <= c < |cs| ==> UniqueNames(cs[c].fields) && (cs[c].ctor.Some? ==> cs[c].name != "" && cs[c].ctor.value == Field(cs[c].name, -1)))
    && (forall c, i :: 0 <= c < |cs| && 0 <= i < |cs[c].fields| ==> cs[c].fields[i].number >= 0)
    && (forall c, d, i, j :: 0 <= c < |cs| && 0 <= d < |cs| && 0 <= i < |cs[c].fields| && 0 <= j < |cs[d].fields| ==>
          cs[c].fields[i].number == cs[d].fields[j].number ==> c == d && i == j)
  }

  /** `b` is the class `c` or above it. */
  predicate Reaches(cs: Classes, c: nat, b: nat)
    requires Acyclic(cs) && c < |cs|
    decreases c
  {
    b == c || exists k :: 0 <= k < |cs[c].parents| && Reaches(cs, cs[c].parents[k], b)
  }

  /* ---- Members of the list ---- */

  predicate NamedOnce(s: seq<Field>) {
    && (forall i :: 0 <= i < |s| ==> s[i].name != "")
    && (forall i, j :: 0 <= i < j < |s| ==> s[i].name != s[j].name)
  }

  lemma {:induction false} GatherMembers(acc: seq<Field>, add: seq<Field>)
    requires NamedOnce(acc) && UniqueNames(add)
    ensures NamedOnce(Gather(acc, add))
    ensures forall f :: f in Gather(acc, add) <==> f in acc || (f in add && f.name != "" && f.name !in Names(acc))
    decreases |add|
  {
    if add != [] {
      var f, rest := add[0], add[1..];
      assert forall g :: g in add <==> g == f || g in rest;
      if f.name == "" || f.name in Names(acc) {
        GatherMembers(acc, rest);
      } else {
        assert forall g :: g in acc + [f] <==> g in acc || g == f;
        assert forall n :: n in Names(acc + [f]) <==> n in Names(acc) || n == f.name;
        assert NamedOnce(acc + [f]) by { assert forall i :: 0 <= i < |acc| ==> acc[i].name in Names(acc); }
        GatherMembers(acc + [f], rest);
        forall g | g in rest ensures g.name != f.name || f.name == "" {
          var k :| 0 <= k < |rest| && rest[k] == g;
          assert add[k + 1] == g;
        }
      }
    }
  }

  lemma {:induction false} ConsUnique(f: Field, s: seq<Field>)
    requires UniqueNames(s) && forall g :: g in s && f.name != "" ==> g.name != f.name
    ensures UniqueNames([f] + s)
  {
  }

  lemma {:induction false} RestUnique(s: seq<Field>)
    requires UniqueNames(s) && s != []
    ensures UniqueNames(s[1..]) && forall g :: g in s[1..] && s[0].name != "" ==> g.name != s[0].name
  {
    forall g | g in s[1..] && s[0].name != "" ensures g.name != s[0].name {
      var k :| 0 <= k < |s| - 1 && s[1..][k] == g;
      assert s[k + 1] == g;
    }
  }

  lemma {:induction false} EraseMembers(s: seq<Field>, name: string)
    requires name != "" && UniqueNames(s)
    ensures UniqueNames(Erase(s, name))
    ensures forall f :: f in Erase(s, name) <==> f in s && f.name != name
  {
    if s != [] {
      hide UniqueNames;
      RestUnique(s);
      assert forall g :: g in s <==> g == s[0] || g in s[1..];
      if s[0].name != name {
        EraseMembers(s[1..], name);
        ConsUnique(s[0], Erase(s[1..], name));
      }
    }
  }

  lemma {:induction false} ShadowedMembers(acc: seq<Field>, f: Field)
    requires UniqueNames(acc)
    ensures UniqueNames(Shadowed(acc, f) + [f])
    ensures forall g :: g in Shadowed(acc, f) + [f] <==> g == f || (g in acc && (f.name == "" || g.name != f.name))
  {
    if f.name != "" { EraseMembers(acc, f.name); }
    var s := Shadowed(acc, f);
    assert forall g :: g in s <==> g in acc && (f.name == "" || g.name != f.name);
    forall k | 0 <= k < |s| ensures f.name != "" ==> s[k].name != f.name { assert s[k] in s; }
  }

  lemma {:induction false} LocalMembers(acc: seq<Field>, fields: seq<Field>)
    requires UniqueNames(acc) && UniqueNames(fields)
    ensures UniqueNames(AddLocal(acc, fields))
    ensures forall f :: f in AddLocal(acc, fields) <==>
                        f in fields || (f in acc && (f.name == "" || f.name !in Names(fields)))
    decreases |fields|
  {
    if fields != [] {
      hide UniqueNames, Erase;
      var f, rest := fields[0], fields[1..];
      assert forall g :: g in fields <==> g == f || g in rest;
      assert forall n :: n in Names(fields) <==> n == f.name || n in Names(rest);
      ShadowedMembers(acc, f);
      RestUnique(fields);
      assert f.name != "" ==> f.name !in Names(rest);
      LocalMembers(Shadowed(acc, f) + [f], rest);
    }
  }

  lemma {:induction false} InsertMembers(f: Field, s: seq<Field>)
    ensures multiset(Insert(f, s)) == multiset(s) + multiset{f}
  {
    if !(s == [] || f.number < s[0].number) {
      InsertMembers(f, s[1..]);
      assert s == [s[0]] + s[1..];
    }
  }

  lemma {:induction false} SortMembers(s: seq<Field>)
    ensures multiset(Sort(s)) == multiset(s)
  {
    if s != [] {
      SortMembers(s[1..]);
      InsertMembers(s[0], Sort(s[1..]));
      assert s == [s[0]] + s[1..];
    }
  }

  predicate StrictlySorted(s: seq<Field>) {
    forall i, j :: 0 <= i < j < |s| ==> s[i].number < s[j].number
  }

  predicate DistinctNumbers(s: seq<Field>) {
    forall i, j :: 0 <= i < j < |s| ==> s[i].number != s[j].number
  }

  lemma {:induction false} ConsSorted(f: Field, s: seq<Field>)
    requires StrictlySorted(s) && forall g :: g in s ==> f.number < g.number
    ensures StrictlySorted([f] + s)
  {
  }

  lemma {:induction false} InsertSorts(f: Field, s: seq<Field>)
    requires StrictlySorted(s) && forall g :: g in s ==> g.number != f.number
    ensures StrictlySorted(Insert(f, s))
  {
    if s == [] || f.number < s[0].number {
      ConsSorted(f, s);
    } else {
      var t := Insert(f, s[1..]);
      InsertSorts(f, s[1..]);
      InsertMembers(f, s[1..]);
      forall g | g in t ensures s[0].number < g.number {
        assert g in multiset(t);
      }
      ConsSorted(s[0], t);
    }
  }

  lemma {:induction false} SortSorts(s: seq<Field>)
    requires DistinctNumbers(s)
    ensures StrictlySorted(Sort(s))
  {
    if s != [] {
      var rest := Sort(s[1..]);
      SortSorts(s[1..]);
      SortMembers(s[1..]);
      forall g | g in rest ensures g.number != s[0].number {
        assert g in multiset(rest);
        var k :| 0 <= k < |s| - 1 && s[1..][k] == g;
        assert s[k + 1] == g;
      }
      InsertSorts(s[0], rest);
    }
  }

  /* ---- The list and the searches agree ---- */

  /** `f` is declared in a class before `c`. */
  predicate Within(cs: Classes, c: nat, f: Field)
    requires c <= |cs|
  {
    exists b :: 0 <= b < c && f in cs[b].fields
  }

  lemma {:induction false} NumberIdentifies(cs: Classes, f: Field, g: Field)
    requires WellFormed(cs) && Within(cs, |cs|, f) && Within(cs, |cs|, g)
    ensures f.number == g.number ==> f == g
  {
    var b, c :| 0 <= b < |cs| && 0 <= c < |cs| && f in cs[b].fields && g in cs[c].fields;
    var i, j :| 0 <= i < |cs[b].fields| && 0 <= j < |cs[c].fields| && cs[b].fields[i] == f && cs[c].fields[j] == g;
  }

  lemma {:induction false} FindNameIs(fields: seq<Field>, name: string, f: Field)
    requires UniqueNames(fields)
    ensures FindName(fields, name) == Some(f) <==> name != "" && f in fields && f.name == name
  {
    if fields != [] && name != "" {
      FindNameIs(fields[1..], name, f);
      if f in fields[1..] {
        var k :| 0 <= k < |fields| - 1 && fields[1..][k] == f;
        assert fields[k + 1].name == f.name;
      }
    }
  }

  lemma {:induction false} InheritIs(cs: Classes, c: nat)
    requires Acyclic(cs) && c < |cs|
    ensures Inherit(cs, c) == Sort(AddLocal(GatherAll(cs, c, cs[c].parents, []), cs[c].fields))
  {
  }

  lemma {:induction false} EraseDistinct(s: seq<Field>, name: string)
    requires DistinctNumbers(s)
    ensures DistinctNumbers(Erase(s, name)) && forall f :: f in Erase(s, name) ==> f in s
  {
    if s != [] && s[0].name != name {
      EraseDistinct(s[1..], name);
      var e := Erase(s[1..], name);
      forall k | 0 <= k < |e| ensures e[k].number != s[0].number {
        assert e[k] in s[1..];
        var j :| 0 <= j < |s| - 1 && s[1..][j] == e[k];
        assert s[j + 1] == e[k];
      }
    }
  }

  lemma {:induction false} LocalDistinct(acc: seq<Field>, fields: seq<Field>)
    requires DistinctNumbers(acc) && DistinctNumbers(fields)
    requires forall f, g :: f in acc && g in fields ==> f.number != g.number
    ensures DistinctNumbers(AddLocal(acc, fields))
    decreases |fields|
  {
    if fields != [] {
      var f, rest := fields[0], fields[1..];
      EraseDistinct(acc, f.name);
      var shadowed := Shadowed(acc, f);
      forall k | 0 <= k < |shadowed| ensures shadowed[k].number != f.number { assert shadowed[k] in acc; }
      forall g, h | g in shadowed + [f] && h in rest ensures g.number != h.number {
        if g == f {
          var k :| 0 <= k < |rest| && rest[k] == h;
          assert fields[k + 1] == h;
        }
      }
      LocalDistinct(shadowed + [f], rest);
    }
  }

  lemma {:induction false} SameMembers(s: seq<Field>, t: seq<Field>)
    requires multiset(s) == multiset(t)
    ensures forall f :: f in s <==> f in t
  {
    assert forall f :: f in s <==> f in multiset(s);
    assert forall f :: f in t <==> f in multiset(t);
  }

  lemma {:induction false} GatherSubset(acc: seq<Field>, add: seq<Field>)
    ensures forall f :: f in Gather(acc, add) ==> f in acc || f in add
    decreases |add|
  {
    if add != [] {
      if add[0].name == "" || add[0].name in Names(acc) { GatherSubset(acc, add[1..]); }
      else { GatherSubset(acc + [add[0]], add[1..]); }
    }
  }

  lemma {:induction false} EraseSubset(s: seq<Field>, name: string)
    ensures forall f :: f in Erase(s, name) ==> f in s
  {
    if s != [] { EraseSubset(s[1..], name); }
  }

  lemma {:induction false} LocalSubset(acc: seq<Field>, fields: seq<Field>)
    ensures forall f :: f in AddLocal(acc, fields) ==> f in acc || f in fields
    decreases |fields|
  {
    if fields != [] {
      EraseSubset(acc, fields[0].name);
      LocalSubset(Shadowed(acc, fields[0]) + [fields[0]], fields[1..]);
    }
  }

  lemma {:induction false} InheritedAreDeclared(cs: Classes, c: nat, f: Field)
    requires Acyclic(cs) && c < |cs| && f in Inherit(cs, c)
    ensures Within(cs, c + 1, f)
    decreases c, 1, 0
  {
    hide Inherit;
    InheritIs(cs, c);
    var above := GatherAll(cs, c, cs[c].parents, []);
    SortMembers(AddLocal(above, cs[c].fields));
    SameMembers(Inherit(cs, c), AddLocal(above, cs[c].fields));
    LocalSubset(above, cs[c].fields);
    if f !in cs[c].fields {
      GatheredAreDeclared(cs, c, cs[c].parents, [], f);
      var b :| 0 <= b < c && f in cs[b].fields;
    }
  }

  lemma {:induction false} GatheredAreDeclared(cs: Classes, c: nat, ps: seq<nat>, acc: seq<Field>, f: Field)
    requires Acyclic(cs) && c < |cs| && Below(ps, c) && f in GatherAll(cs, c, ps, acc) && f !in acc
    ensures Within(cs, c, f)
    decreases c, 0, |ps|
  {
    if ps != [] {
      var next := Gather(acc, Inherit(cs, ps[0]));
      GatherSubset(acc, Inherit(cs, ps[0]));
      if f in next {
        InheritedAreDeclared(cs, ps[0], f);
        var b :| 0 <= b < ps[0] + 1 && f in cs[b].fields;
      } else {
        GatheredAreDeclared(cs, c, ps[1..], next, f);
      }
    }
  }

  /** Whatever the constructors, the list is sorted by number, no name is in it twice, and its
      unnamed fields are the class's own. */
  lemma {:induction false} InheritedOnce(cs: Classes, c: nat)
    requires WellFormed(cs) && c < |cs|
    ensures StrictlySorted(Inherit(cs, c)) && UniqueNames(Inherit(cs, c))
    ensures forall f: Field :: f.name == "" ==> (f in Inherit(cs, c) <==> f in cs[c].fields)
    decreases c, 1, 0
  {
    hide Inherit;
    var fields := cs[c].fields;
    var above := GatherAll(cs, c, cs[c].parents, []);
    GatheredOnce(cs, c, cs[c].parents, []);
    LocalMembers(above, fields);
    AboveIsDistinct(cs, c, above);
    LocalDistinct(above, fields);
    var all := AddLocal(above, fields);
    InheritIs(cs, c);
    SortMembers(all);
    SortSorts(all);
    SameMembers(Inherit(cs, c), all);
    SortedOnce(Inherit(cs, c), all);
  }

  lemma {:induction false} GatheredOnce(cs: Classes, c: nat, ps: seq<nat>, acc: seq<Field>)
    requires WellFormed(cs) && c < |cs| && Below(ps, c) && NamedOnce(acc)
    ensures NamedOnce(GatherAll(cs, c, ps, acc))
    decreases c, 0, |ps|
  {
    if ps != [] {
      InheritedOnce(cs, ps[0]);
      GatherMembers(acc, Inherit(cs, ps[0]));
      GatheredOnce(cs, c, ps[1..], Gather(acc, Inherit(cs, ps[0])));
    }
  }

  lemma {:induction false} SortedOnce(s: seq<Field>, all: seq<Field>)
    requires StrictlySorted(s) && UniqueNames(all) && forall f :: f in s <==> f in all
    ensures UniqueNames(s)
  {
    forall i, j | 0 <= i < j < |s| && s[i].name != "" ensures s[i].name != s[j].name {
      assert s[i] in all && s[j] in all;
      var k, l :| 0 <= k < |all| && 0 <= l < |all| && all[k] == s[i] && all[l] == s[j];
      assert s[i].number < s[j].number;
      assert k < l || l < k;
    }
  }

  lemma {:induction false} AboveIsDistinct(cs: Classes, c: nat, above: seq<Field>)
    requires WellFormed(cs) && c < |cs| && NamedOnce(above) && above == GatherAll(cs, c, cs[c].parents, [])
    ensures DistinctNumbers(above) && DistinctNumbers(cs[c].fields)
    ensures forall f, g :: f in above && g in cs[c].fields ==> f.number != g.number
  {
    hide GatherAll;
    forall f | f in above ensures Within(cs, c, f) { GatheredAreDeclared(cs, c, cs[c].parents, [], f); }
    forall i, j | 0 <= i < j < |above| ensures above[i].number != above[j].number {
      assert above[i] in above && above[j] in above;
      NumberIdentifies(cs, above[i], above[j]);
    }
    forall f, g | f in above && g in cs[c].fields ensures f.number != g.number {
      var b :| 0 <= b < c && f in cs[b].fields;
      var i, j :| 0 <= i < |cs[b].fields| && 0 <= j < |cs[c].fields| && cs[b].fields[i] == f && cs[c].fields[j] == g;
    }
  }

  /** What is listed under a name, by what the search finds for it; a constructor that is
      found says nothing about the list. */
  ghost predicate Listed(list: seq<Field>, name: string, found: Option<Field>) {
    && (found.None? ==> forall g :: g in list ==> g.name != name)
    && (found.Some? && found.value.number >= 0 ==>
          found.value.name == name && forall g: Field :: g.name == name ==> (g in list <==> g == found.value))
  }

  lemma {:induction false} OwnOverAbove(above: seq<Field>, fields: seq<Field>, list: seq<Field>, name: string,
                                        own: Option<Field>, up: Option<Field>)
    requires name != "" && Listed(above, name, up)
    requires own.None? ==> name !in Names(fields)
    requires own.Some? && own.value.number >= 0 ==>
               own.value.name == name && own.value in fields && forall g :: g in fields && g.name == name ==> g == own.value
    requires forall g :: g in list <==> g in fields || (g in above && (g.name == "" || g.name !in Names(fields)))
    ensures Listed(list, name, if own.Some? then own else up)
  {
  }

  lemma {:induction false} NameIsListed(cs: Classes, c: nat, name: string)
    requires WellFormed(cs) && c < |cs| && name != ""
    ensures Listed(Inherit(cs, c), name, LookupName(cs, c, name))
    decreases c, 1, 0
  {
    hide Inherit, GatherAll, Listed, AddLocal, FirstName, OwnName;
    var fields := cs[c].fields;
    var above := GatherAll(cs, c, cs[c].parents, []);
    GatheredOnce(cs, c, cs[c].parents, []);
    GatheredIsListed(cs, c, cs[c].parents, [], name);
    LocalMembers(above, fields);
    InheritIs(cs, c);
    SortMembers(AddLocal(above, fields));
    SameMembers(Inherit(cs, c), AddLocal(above, fields));
    OwnIsListed(cs, c, name);
    OwnOverAbove(above, fields, Inherit(cs, c), name, OwnName(cs[c], name), FirstName(cs, c, cs[c].parents, name));
  }

  /** The class's own fields of a name: at most one, and then the search finds it unless
      there is a constructor of that name. */
  lemma {:induction false} OwnIsListed(cs: Classes, c: nat, name: string)
    requires WellFormed(cs) && c < |cs| && name != ""
    ensures var own := OwnName(cs[c], name);
            && (own.None? ==> name !in Names(cs[c].fields))
            && (own.Some? && own.value.number >= 0 ==>
                  own.value.name == name && own.value in cs[c].fields
                  && forall g :: g in cs[c].fields && g.name == name ==> g == own.value)
  {
    var fields := cs[c].fields;
    var found := FindName(fields, name);
    if found.Some? { FindNameIs(fields, name, found.value); }
    forall g | g in fields && g.name == name ensures found == Some(g) { FindNameIs(fields, name, g); }
  }

  lemma {:induction false} GatheredIsListed(cs: Classes, c: nat, ps: seq<nat>, acc: seq<Field>, name: string)
    requires WellFormed(cs) && c < |cs| && Below(ps, c) && NamedOnce(acc) && name != ""
    ensures name in Names(acc) ==> forall g: Field :: g.name == name ==> (g in GatherAll(cs, c, ps, acc) <==> g in acc)
    ensures name !in Names(acc) ==> Listed(GatherAll(cs, c, ps, acc), name, FirstName(cs, c, ps, name))
    decreases c, 0, |ps|
  {
    if ps != [] {
      hide Inherit, Gather, LookupName;
      var p, add := ps[0], Inherit(cs, ps[0]);
      var next := Gather(acc, add);
      InheritedOnce(cs, p);
      NameIsListed(cs, p, name);
      GatherMembers(acc, add);
      GatheredIsListed(cs, c, ps[1..], next, name);
      GatherStep(acc, add, next, name, LookupName(cs, p, name));
    }
  }

  /** What one parent adds under a name. */
  lemma {:induction false} GatherStep(acc: seq<Field>, add: seq<Field>, next: seq<Field>, name: string, found: Option<Field>)
    requires name != "" && Listed(add, name, found)
    requires forall g :: g in next <==> g in acc || (g in add && g.name != "" && g.name !in Names(acc))
    ensures name in Names(acc) ==> name in Names(next) && forall g: Field :: g.name == name ==> (g in next <==> g in acc)
    ensures name !in Names(acc) && found.None? ==> name !in Names(next)
    ensures name !in Names(acc) && found.Some? && found.value.number >= 0 ==>
              name in Names(next) && forall g: Field :: g.name == name ==> (g in next <==> g == found.value)
  {
    if name in Names(acc) {
      var g :| g in acc && g.name == name;
      assert g in next;
    } else if found.Some? && found.value.number >= 0 {
      assert found.value in next;
    }
  }

  /** The named fields of the list are exactly what the search by name finds. */
  ghost predicate NamesAgree(cs: Classes, c: nat)
    requires Acyclic(cs) && c < |cs|
  {
    forall f: Field :: f.name != "" ==> (f in Inherit(cs, c) <==> LookupName(cs, c, f.name) == Some(f))
  }

  /** Looking up the name of a class above, or of this one, finds its constructor. */
  predicate FindsConstructor(cs: Classes, c: nat, b: nat)
    requires Acyclic(cs) && c < |cs| && b < |cs|
  {
    cs[b].ctor.Some? && Reaches(cs, c, b) && LookupName(cs, c, cs[b].name) == cs[b].ctor
  }

  /** A search finds a field with a number, or the constructor of a class above. */
  lemma {:induction false} FoundIsFieldOrConstructor(cs: Classes, c: nat, name: string)
    requires WellFormed(cs) && c < |cs|
    ensures var r := LookupName(cs, c, name);
            r.Some? ==> r.value.name == name != ""
                        && (r.value.number >= 0 || exists b :: 0 <= b <= c && Reaches(cs, c, b) && cs[b].ctor == r)
    decreases c, 1, 0
  {
    var own := FindName(cs[c].fields, name);
    if cs[c].ctor.Some? && cs[c].name == name {
      assert Reaches(cs, c, c);
    } else if own.Some? {
      FindNameIs(cs[c].fields, name, own.value);
    } else {
      FirstIsFieldOrConstructor(cs, c, cs[c].parents, 0, name);
      assert cs[c].parents[0..] == cs[c].parents;
    }
  }

  lemma {:induction false} FirstIsFieldOrConstructor(cs: Classes, c: nat, ps: seq<nat>, i: nat, name: string)
    requires WellFormed(cs) && c < |cs| && ps == cs[c].parents && i <= |ps| && Below(ps, c)
    ensures var r := FirstName(cs, c, ps[i..], name);
            r.Some? ==> r.value.name == name != ""
                        && (r.value.number >= 0 || exists b :: 0 <= b <= c && Reaches(cs, c, b) && cs[b].ctor == r)
    decreases c, 0, |ps| - i
  {
    if i < |ps| {
      assert ps[i..][0] == ps[i] && ps[i..][1..] == ps[i + 1..];
      FoundIsFieldOrConstructor(cs, ps[i], name);
      FirstIsFieldOrConstructor(cs, c, ps, i + 1, name);
      assert forall b :: Reaches(cs, ps[i], b) ==> Reaches(cs, c, b);
    }
  }

  lemma {:induction false} ConstructorIsFound(cs: Classes, c: nat, name: string)
    requires WellFormed(cs) && c < |cs|
    requires LookupName(cs, c, name).Some? && LookupName(cs, c, name).value.number < 0
    ensures exists b :: 0 <= b <= c && FindsConstructor(cs, c, b)
  {
    var r := LookupName(cs, c, name);
    FoundIsFieldOrConstructor(cs, c, name);
    var b :| 0 <= b <= c && Reaches(cs, c, b) && cs[b].ctor == r;
    assert cs[b].name == name;
    assert FindsConstructor(cs, c, b);
  }

  /** List and search agree exactly if no constructor, of this class or above, is what the
      search finds for its name. */
  lemma {:induction false} NamesAgreeIff(cs: Classes, c: nat)
    requires WellFormed(cs) && c < |cs|
    ensures NamesAgree(cs, c) <==> forall b :: 0 <= b <= c ==> !FindsConstructor(cs, c, b)
  {
    hide Inherit, LookupName, Reaches;
    forall b | 0 <= b <= c && FindsConstructor(cs, c, b) ensures !NamesAgree(cs, c) {
      var f := cs[b].ctor.value;
      assert f.name != "" && LookupName(cs, c, f.name) == Some(f);
      if f in Inherit(cs, c) {
        InheritedAreDeclared(cs, c, f);
      }
    }
    if forall b :: 0 <= b <= c ==> !FindsConstructor(cs, c, b) {
      forall f: Field | f.name != "" ensures f in Inherit(cs, c) <==> LookupName(cs, c, f.name) == Some(f) {
        NameIsListed(cs, c, f.name);
        FoundIsFieldOrConstructor(cs, c, f.name);
        var r := LookupName(cs, c, f.name);
        if r.Some? && r.value.number < 0 { ConstructorIsFound(cs, c, f.name); }
      }
    }
  }

  /** So without constructors the two agree, and with a constructor of its own they never
      do. */
  lemma {:induction false} InheritedAreFound(cs: Classes, c: nat)
    requires WellFormed(cs) && c < |cs|
    ensures StrictlySorted(Inherit(cs, c)) && UniqueNames(Inherit(cs, c))
    ensures forall f: Field :: f.name == "" ==> (f in Inherit(cs, c) <==> f in cs[c].fields)
    ensures (forall b :: 0 <= b <= c && Reaches(cs, c, b) ==> cs[b].ctor.None?) ==> NamesAgree(cs, c)
    ensures cs[c].ctor.Some? ==> !NamesAgree(cs, c)
  {
    hide Inherit;
    InheritedOnce(cs, c);
    NamesAgreeIff(cs, c);
    if cs[c].ctor.Some? {
      assert Reaches(cs, c, c);
      assert FindsConstructor(cs, c, c);
    }
  }

  /* ---- Searching by number ---- */

  lemma {:induction false} FindNumberIs(fields: seq<Field>, number: int)
    ensures FindNumber(fields, number).Some? ==>
              FindNumber(fields, number).value in fields && FindNumber(fields, number).value.number == number
    ensures FindNumber(fields, number).None? ==> forall f :: f in fields ==> f.number != number
  {
    if fields != [] { FindNumberIs(fields[1..], number); }
  }

  lemma {:induction false} NumberFinds(cs: Classes, c: nat, number: int)
    requires Acyclic(cs) && c < |cs|
    ensures var r := LookupNumber(cs, c, number); r.Some? ==> r.value.number == number && Within(cs, c + 1, r.value)
    decreases c, 1, 0
  {
    FindNumberIs(cs[c].fields, number);
    if FindNumber(cs[c].fields, number).None? { FirstNumberFinds(cs, c, cs[c].parents, number); }
  }

  lemma {:induction false} FirstNumberFinds(cs: Classes, c: nat, ps: seq<nat>, number: int)
    requires Acyclic(cs) && c < |cs| && Below(ps, c)
    ensures var r := FirstNumber(cs, c, ps, number); r.Some? ==> r.value.number == number && Within(cs, c, r.value)
    decreases c, 0, |ps|
  {
    if ps != [] {
      NumberFinds(cs, ps[0], number);
      FirstNumberFinds(cs, c, ps[1..], number);
    }
  }

  /** Later declarations only add fields and parents. */
  predicate Extends(cs: Classes, ds: Classes) {
    && |cs| <= |ds|
    && forall c :: 0 <= c < |cs| ==> cs[c].fields <= ds[c].fields && cs[c].parents <= ds[c].parents
  }

  lemma {:induction false} StillFound(cs: Classes, ds: Classes, c: nat, number: int)
    requires Acyclic(cs) && Acyclic(ds) && Extends(cs, ds) && c < |cs| && LookupNumber(cs, c, number).Some?
    ensures LookupNumber(ds, c, number).Some?
    decreases c, 1, 0
  {
    FindNumberIs(cs[c].fields, number);
    FindNumberIs(ds[c].fields, number);
    var own := FindNumber(cs[c].fields, number);
    assert own.Some? ==> own.value in ds[c].fields;
    if own.None? { StillFirst(cs, ds, c, cs[c].parents, ds[c].parents, number); }
  }

  lemma {:induction false} StillFirst(cs: Classes, ds: Classes, c: nat, ps: seq<nat>, qs: seq<nat>, number: int)
    requires Acyclic(cs) && Acyclic(ds) && Extends(cs, ds) && c < |cs| && Below(ps, c) && Below(qs, c) && ps <= qs
    requires FirstNumber(cs, c, ps, number).Some?
    ensures FirstNumber(ds, c, qs, number).Some?
    decreases c, 0, |ps|
  {
    if LookupNumber(cs, ps[0], number).Some? { StillFound(cs, ds, ps[0], number); }
    else { StillFirst(cs, ds, c, ps[1..], qs[1..], number); }
  }

  /** Why results may be cached: whatever is declared later, a number that was found is
      found again, and it is the same field. */
  lemma {:induction false} FoundForever(cs: Classes, ds: Classes, c: nat, number: int)
    requires Acyclic(cs) && WellFormed(ds) && Extends(cs, ds) && c < |cs| && LookupNumber(cs, c, number).Some?
    ensures LookupNumber(ds, c, number) == LookupNumber(cs, c, number)
  {
    hide LookupNumber;
    StillFound(cs, ds, c, number);
    NumberFinds(cs, c, number);
    NumberFinds(ds, c, number);
    var f, g := LookupNumber(cs, c, number).value, LookupNumber(ds, c, number).value;
    var b :| 0 <= b < c + 1 && f in cs[b].fields;
    assert f in ds[b].fields;
    NumberIdentifies(ds, f, g);
  }

  /** Every listed field is found by its number. */
  lemma {:induction false} ListedAreFoundByNumber(cs: Classes, c: nat, f: Field)
    requires WellFormed(cs) && c < |cs| && f in Inherit(cs, c)
    ensures LookupNumber(cs, c, f.number) == Some(f)
    decreases c, 1, 0
  {
    hide Inherit;
    InheritIs(cs, c);
    var above := GatherAll(cs, c, cs[c].parents, []);
    SortMembers(AddLocal(above, cs[c].fields));
    SameMembers(Inherit(cs, c), AddLocal(above, cs[c].fields));
    LocalSubset(above, cs[c].fields);
    FindNumberIs(cs[c].fields, f.number);
    if f !in cs[c].fields { GatheredAreFoundByNumber(cs, c, cs[c].parents, [], f); }
    NumberFinds(cs, c, f.number);
    InheritedAreDeclared(cs, c, f);
    NumberIdentifies(cs, f, LookupNumber(cs, c, f.number).value);
  }

  lemma {:induction false} GatheredAreFoundByNumber(cs: Classes, c: nat, ps: seq<nat>, acc: seq<Field>, f: Field)
    requires WellFormed(cs) && c < |cs| && Below(ps, c) && f in GatherAll(cs, c, ps, acc) && f !in acc
    ensures FirstNumber(cs, c, ps, f.number).Some?
    decreases c, 0, |ps|
  {
    if ps != [] {
      var next := Gather(acc, Inherit(cs, ps[0]));
      GatherSubset(acc, Inherit(cs, ps[0]));
      if f in next { ListedAreFoundByNumber(cs, ps[0], f); } else { GatheredAreFoundByNumber(cs, c, ps[1..], next, f); }
    }
  }

  /* ---- What declarations keep ---- */

  predicate Numbered(cs: Classes, count: nat) {
    forall c, i :: 0 <= c < |cs| && 0 <= i < |cs[c].fields| ==> cs[c].fields[i].number < count
  }

  /** What a list of inherited fields holds when it is not empty. */
  ghost predicate Cached(cs: Classes, inherited: seq<seq<Field>>, n: nat)
    requires Acyclic(cs) && n <= |cs| == |inherited|
  {
    forall c :: 0 <= c < n ==> inherited[c] == [] || inherited[c] == Inherit(cs, c)
  }

  /** `_fields_by_index` has the class's own fields, and only what a search would find. */
  ghost predicate Remembered(cs: Classes, byNumber: seq<map<int, Field>>)
    requires Acyclic(cs) && |byNumber| == |cs|
  {
    && (forall c, k :: 0 <= c < |cs| && k in byNumber[c] ==> LookupNumber(cs, c, k) == Some(byNumber[c][k]))
    && (forall c, i :: 0 <= c < |cs| && 0 <= i < |cs[c].fields| ==> cs[c].fields[i].number in byNumber[c])
  }

  function NewClass(name: string): Class {
    Class(name, [], [], None)
  }

  lemma {:induction false} AddClassKeeps(cs: Classes, name: string, count: nat)
    requires WellFormed(cs) && Numbered(cs, count)
    ensures WellFormed(cs + [NewClass(name)]) && Numbered(cs + [NewClass(name)], count)
    ensures Extends(cs, cs + [NewClass(name)])
  {
  }

  function WithParent(cs: Classes, c: nat, p: nat): Classes
    requires c < |cs|
  {
    cs[c := cs[c].(parents := cs[c].parents + [p])]
  }

  lemma {:induction false} AddParentKeeps(cs: Classes, c: nat, p: nat, count: nat)
    requires WellFormed(cs) && Numbered(cs, count) && p < c < |cs|
    ensures WellFormed(WithParent(cs, c, p)) && Numbered(WithParent(cs, c, p), count)
    ensures Extends(cs, WithParent(cs, c, p))
  {
  }

  function WithField(cs: Classes, c: nat, f: Field): Classes
    requires c < |cs|
  {
    cs[c := cs[c].(fields := cs[c].fields + [f])]
  }

  lemma {:induction false} AddFieldKeeps(cs: Classes, c: nat, name: string, count: nat)
    requires WellFormed(cs) && Numbered(cs, count) && c < |cs| && FindName(cs[c].fields, name).None?
    ensures WellFormed(WithField(cs, c, Field(name, count))) && Numbered(WithField(cs, c, Field(name, count)), count + 1)
    ensures Extends(cs, WithField(cs, c, Field(name, count)))
  {
    forall i | 0 <= i < |cs[c].fields| && name != "" ensures cs[c].fields[i].name != name {
      FindNameIs(cs[c].fields, name, cs[c].fields[i]);
    }
    var ds := WithField(cs, c, Field(name, count));
    forall b, d, i, j | 0 <= b < |ds| && 0 <= d < |ds| && 0 <= i < |ds[b].fields| && 0 <= j < |ds[d].fields|
      ensures ds[b].fields[i].number == ds[d].fields[j].number ==> b == d && i == j
    {
      assert i < |cs[b].fields| ==> ds[b].fields[i] == cs[b].fields[i];
      assert j < |cs[d].fields| ==> ds[d].fields[j] == cs[d].fields[j];
    }
  }

  function WithConstructor(cs: Classes, c: nat): Classes
    requires c < |cs|
  {
    cs[c := cs[c].(ctor := Some(Field(cs[c].name, -1)))]
  }

  lemma {:induction false} AddConstructorKeeps(cs: Classes, c: nat, count: nat)
    requires WellFormed(cs) && Numbered(cs, count) && c < |cs| && cs[c].name != ""
    ensures WellFormed(WithConstructor(cs, c)) && Numbered(WithConstructor(cs, c), count)
    ensures Extends(cs, WithConstructor(cs, c))
  {
  }

  /** Nothing that was remembered becomes wrong. */
  lemma {:induction false} StillRemembered(cs: Classes, ds: Classes, byNumber: seq<map<int, Field>>, c: nat, k: int)
    requires Acyclic(cs) && WellFormed(ds) && Extends(cs, ds) && |byNumber| == |cs| && Remembered(cs, byNumber)
    requires c < |cs| && k in byNumber[c]
    ensures LookupNumber(ds, c, k) == Some(byNumber[c][k])
  {
    FoundForever(cs, ds, c, k);
  }

  /** Classes that are added behind the others change no list. */
  lemma {:induction false} ListExtends(cs: Classes, ds: Classes, c: nat)
    requires Acyclic(cs) && Acyclic(ds) && cs <= ds && c < |cs|
    ensures Inherit(ds, c) == Inherit(cs, c)
    decreases c, 1, 0
  {
    GatherExtends(cs, ds, c, cs[c].parents, []);
  }

  lemma {:induction false} GatherExtends(cs: Classes, ds: Classes, c: nat, ps: seq<nat>, acc: seq<Field>)
    requires Acyclic(cs) && Acyclic(ds) && cs <= ds && c < |cs| && Below(ps, c)
    ensures GatherAll(ds, c, ps, acc) == GatherAll(cs, c, ps, acc)
    decreases c, 0, |ps|
  {
    if ps != [] {
      ListExtends(cs, ds, ps[0]);
      GatherExtends(cs, ds, c, ps[1..], Gather(acc, Inherit(cs, ps[0])));
    }
  }

  lemma {:induction false} ListsExtend(cs: Classes, ds: Classes)
    requires Acyclic(cs) && Acyclic(ds) && cs <= ds
    ensures forall c :: 0 <= c < |cs| ==> Inherit(ds, c) == Inherit(cs, c)
  {
    forall c | 0 <= c < |cs| ensures Inherit(ds, c) == Inherit(cs, c) { ListExtends(cs, ds, c); }
  }

  lemma {:induction false} AddClassLeavesLists(cs: Classes, name: string, inherited: seq<seq<Field>>)
    requires WellFormed(cs) && WellFormed(cs + [NewClass(name)]) && |inherited| == |cs| && Cached(cs, inherited, |cs|)
    ensures Cached(cs + [NewClass(name)], inherited + [[]], |cs| + 1)
  {
    ListsExtend(cs, cs + [NewClass(name)]);
  }

  lemma {:induction false} AddClassRemembers(cs: Classes, name: string, byNumber: seq<map<int, Field>>)
    requires WellFormed(cs) && WellFormed(cs + [NewClass(name)]) && |byNumber| == |cs| && Remembered(cs, byNumber)
    ensures Remembered(cs + [NewClass(name)], byNumber + [map[]])
  {
    var ds := cs + [NewClass(name)];
    forall c, k | 0 <= c < |cs| && k in byNumber[c] ensures LookupNumber(ds, c, k) == Some(byNumber[c][k]) {
      StillRemembered(cs, ds, byNumber, c, k);
    }
  }

  lemma {:induction false} ExtendingRemembers(cs: Classes, ds: Classes, byNumber: seq<map<int, Field>>)
    requires WellFormed(cs) && WellFormed(ds) && Extends(cs, ds) && |byNumber| == |cs| == |ds| && Remembered(cs, byNumber)
    requires forall c :: 0 <= c < |cs| ==> ds[c].fields == cs[c].fields
    ensures Remembered(ds, byNumber)
  {
    forall c, k | 0 <= c < |cs| && k in byNumber[c] ensures LookupNumber(ds, c, k) == Some(byNumber[c][k]) {
      StillRemembered(cs, ds, byNumber, c, k);
    }
  }

  lemma {:induction false} AddFieldRemembers(cs: Classes, c: nat, f: Field, byNumber: seq<map<int, Field>>)
    requires WellFormed(cs) && c < |cs| && WellFormed(WithField(cs, c, f)) && Extends(cs, WithField(cs, c, f))
    requires |byNumber| == |cs| && Remembered(cs, byNumber)
    ensures Remembered(WithField(cs, c, f), byNumber[c := byNumber[c][f.number := f]])
  {
    var ds := WithField(cs, c, f);
    var after := byNumber[c := byNumber[c][f.number := f]];
    forall b, k | 0 <= b < |ds| && k in after[b] ensures LookupNumber(ds, b, k) == Some(after[b][k]) {
      if b == c && k == f.number {
        OwnNumberFound(ds, c, |cs[c].fields|);
      } else {
        StillRemembered(cs, ds, byNumber, b, k);
      }
    }
    forall b, i | 0 <= b < |ds| && 0 <= i < |ds[b].fields| ensures ds[b].fields[i].number in after[b] {
      assert i < |cs[b].fields| ==> ds[b].fields[i] == cs[b].fields[i];
    }
  }

  lemma {:induction false} OwnNumberFound(cs: Classes, c: nat, i: nat)
    requires WellFormed(cs) && c < |cs| && i < |cs[c].fields|
    ensures LookupNumber(cs, c, cs[c].fields[i].number) == Some(cs[c].fields[i])
  {
    var f := cs[c].fields[i];
    FindNumberIs(cs[c].fields, f.number);
    assert f in cs[c].fields;
    var g := FindNumber(cs[c].fields, f.number).value;
    var j :| 0 <= j < |cs[c].fields| && cs[c].fields[j] == g;
  }

  /* ---- In place ---- */

  /** A DCFile and its classes. */
  class DCFile {
    var classes: Classes
    var inherited: seq<seq<Field>>       // _inherited_fields of each class; empty when it is not known
    var byNumber: seq<map<int, Field>>   // _fields_by_index of each class, with cached results
    var order: seq<nat>                  // _classes
    var stale: bool
    var count: nat                       // the number of fields that have a number

    ghost predicate Valid()
      reads this
    {
      && WellFormed(classes) && Numbered(classes, count)
      && |inherited| == |byNumber| == |classes| && Remembered(classes, byNumber)
      && (forall c :: c in order <==> 0 <= c < |classes|)
      && (!stale ==> Cached(classes, inherited, |classes|))
    }

    constructor ()
      ensures Valid() && classes == []
    {
      classes, inherited, byNumber, order := [], [], [], [];
      stale, count := false, 0;
    }

    method AddClass(name: string) returns (c: nat)
      requires Valid()
      modifies this
      ensures Valid() && c == |old(classes)| && classes == old(classes) + [NewClass(name)]
    {
      hide WellFormed, Numbered, Remembered, Cached, Extends;
      AddClassKeeps(classes, name, count);
      AddClassRemembers(classes, name, byNumber);
      if !stale { AddClassLeavesLists(classes, name, inherited); }
      c := |classes|;
      classes := classes + [NewClass(name)];
      inherited, byNumber, order := inherited + [[]], byNumber + [map[]], order + [c];
    }

    method AddParent(c: nat, p: nat)
      requires Valid() && p < c < |classes|
      modifies this
      ensures Valid() && classes == WithParent(old(classes), c, p)
    {
      hide WellFormed, Numbered, Remembered, Cached, Extends;
      AddParentKeeps(classes, c, p, count);
      ExtendingRemembers(classes, WithParent(classes, c, p), byNumber);
      classes := WithParent(classes, c, p);
      stale := true;
    }

    /** add_field(): a field named like its class is its constructor. */
    method AddField(c: nat, name: string, atomic: bool) returns (ok: bool)
      requires Valid() && c < |classes|
      modifies this
      ensures Valid()
      ensures classes ==
                if !ok then old(classes)
                else if name != "" && name == old(classes)[c].name then WithConstructor(old(classes), c)
                else WithField(old(classes), c, Field(name, old(count)))
      ensures ok <==> if name != "" && name == old(classes)[c].name then old(classes)[c].ctor.None? && atomic
                      else FindName(old(classes)[c].fields, name).None?
    {
      hide WellFormed, Numbered, Remembered, Cached, Extends;
      stale := true;
      if name != "" && name == classes[c].name {
        if classes[c].ctor.Some? || !atomic { return false; }
        AddConstructorKeeps(classes, c, count);
        ExtendingRemembers(classes, WithConstructor(classes, c), byNumber);
        classes := WithConstructor(classes, c);
        return true;
      }
      if FindName(classes[c].fields, name).Some? { return false; }
      var f := Field(name, count);
      AddFieldKeeps(classes, c, name, count);
      AddFieldRemembers(classes, c, f, byNumber);
      count := count + 1;
      byNumber := byNumber[c := byNumber[c][f.number := f]];
      classes := WithField(classes, c, f);
      ok := true;
    }

    /** get_field_by_name() */
    method FieldByName(c: nat, name: string) returns (r: Option<Field>)
      requires Acyclic(classes) && c < |classes|
      ensures r == LookupName(classes, c, name)
      decreases c
    {
      r := OwnName(classes[c], name);
      if r.Some? { return; }
      var ps := classes[c].parents;
      assert ps[0..] == ps;
      for i := 0 to |ps|
        invariant FirstName(classes, c, ps, name) == FirstName(classes, c, ps[i..], name)
      {
        assert ps[i..][0] == ps[i] && ps[i..][1..] == ps[i + 1..];
        r := FieldByName(ps[i], name);
        if r.Some? { return; }
      }
      r := None;
    }

    /** get_field_by_index(): what is found above is remembered here. */
    method FieldByNumber(c: nat, k: int) returns (r: Option<Field>)
      requires Valid() && c < |classes|
      modifies `byNumber
      ensures Valid() && r == LookupNumber(classes, c, k)
      decreases c
    {
      hide WellFormed, Numbered, Remembered, Cached, LookupNumber;
      assert Acyclic(classes) by { WellFormedIsAcyclic(classes); }
      RememberedIsRight(classes, byNumber, c, k);
      if k in byNumber[c] { return Some(byNumber[c][k]); }
      var ps := classes[c].parents;
      assert ps[0..] == ps;
      for i := 0 to |ps|
        invariant Valid() && FirstNumber(classes, c, ps, k) == FirstNumber(classes, c, ps[i..], k)
      {
        assert ps[i..][0] == ps[i] && ps[i..][1..] == ps[i + 1..];
        r := FieldByNumber(ps[i], k);
        if r.Some? {
          RememberOne(classes, byNumber, c, k, r.value);
          byNumber := byNumber[c := byNumber[c][k := r.value]];
          return;
        }
      }
      r := None;
    }

    /** rebuild_inherited_fields() of a class. The lists of its parents are rebuilt first
        where they are not known. */
    method Rebuild(c: nat)
      requires Acyclic(classes) && c < |classes| == |inherited| && Cached(classes, inherited, c)
      modifies `inherited
      ensures |inherited| == |classes| && inherited[c] == Inherit(classes, c)
      ensures forall b :: 0 <= b < c ==> inherited[b] == old(inherited[b]) || inherited[b] == Inherit(classes, b)
      ensures forall b :: c < b < |classes| ==> inherited[b] == old(inherited[b])
      decreases c
    {
      hide Inherit, Gather, AddLocal;
      InheritIs(classes, c);
      var ps, fields := classes[c].parents, classes[c].fields;
      inherited := inherited[c := []];
      var list: seq<Field> := [];
      var names: set<string> := {};
      assert ps[0..] == ps;
      for k := 0 to |ps|
        invariant |inherited| == |classes| && names == Names(list)
        invariant forall b :: 0 <= b < c ==> inherited[b] == old(inherited[b]) || inherited[b] == Inherit(classes, b)
        invariant forall b :: c < b < |classes| ==> inherited[b] == old(inherited[b])
        invariant GatherAll(classes, c, ps[k..], list) == GatherAll(classes, c, ps, [])
      {
        assert ps[k..][0] == ps[k] && ps[k..][1..] == ps[k + 1..];
        if inherited[ps[k]] == [] { Rebuild(ps[k]); }
        list, names := GatherList(list, names, inherited[ps[k]]);
      }
      list := AddLocals(list, names, fields);
      inherited := inherited[c := Sort(list)];
    }

    method GatherList(acc: seq<Field>, seen: set<string>, add: seq<Field>) returns (list: seq<Field>, names: set<string>)
      requires seen == Names(acc)
      ensures list == Gather(acc, add) && names == Names(list)
    {
      list, names := acc, seen;
      assert add[0..] == add;
      for i := 0 to |add|
        invariant names == Names(list) && Gather(list, add[i..]) == Gather(acc, add)
      {
        assert add[i..][0] == add[i] && add[i..][1..] == add[i + 1..];
        var f := add[i];
        if f.name != "" && f.name !in names {
          assert Names(list + [f]) == names + {f.name} by { NamesOfMore(list, f); }
          names, list := names + {f.name}, list + [f];
        }
      }
    }

    method AddLocals(acc: seq<Field>, seen: set<string>, fields: seq<Field>) returns (list: seq<Field>)
      requires seen == Names(acc)
      ensures list == AddLocal(acc, fields)
    {
      var names := seen;
      list := acc;
      assert fields[0..] == fields;
      for i := 0 to |fields|
        invariant AddLocal(list, fields[i..]) == AddLocal(acc, fields)
        invariant forall n :: n != "" ==> (n in names <==> n in Names(list))
      {
        assert fields[i..][0] == fields[i] && fields[i..][1..] == fields[i + 1..];
        var f := fields[i];
        if f.name != "" {
          if f.name in names { NamesOfErased(list, f.name); list := Erase(list, f.name); }
          names := names + {f.name};
        }
        NamesOfMore(list, f);
        list := list + [f];
      }
    }

    /** DCFile::rebuild_inherited_fields(): the order of the classes does not matter. */
    method RebuildAll()
      requires Valid()
      modifies `inherited, `stale
      ensures Valid() && !stale
      ensures forall c :: 0 <= c < |classes| ==> inherited[c] == Inherit(classes, c)
    {
      hide Remembered, Inherit, Numbered;
      stale := false;
      inherited := seq(|classes|, _ => []);
      for i := 0 to |order|
        invariant !stale && |inherited| == |classes| && Cached(classes, inherited, |classes|)
        invariant forall j :: 0 <= j < i ==> order[j] < |classes| && inherited[order[j]] == Inherit(classes, order[j])
      {
        assert order[i] in order;
        Rebuild(order[i]);
      }
      forall c | 0 <= c < |classes| ensures inherited[c] == Inherit(classes, c) {
        assert c in order;
        var j :| 0 <= j < |order| && order[j] == c;
      }
    }

    /** get_num_inherited_fields() and get_inherited_field() */
    method InheritedFields(c: nat) returns (list: seq<Field>)
      requires Valid() && c < |classes|
      modifies `inherited, `stale
      ensures Valid() && list == Inherit(classes, c)
    {
      hide Remembered, Inherit, Numbered, WellFormed;
      assert Acyclic(classes) by { WellFormedIsAcyclic(classes); }
      if stale { RebuildAll(); }
      if inherited[c] == [] { Rebuild(c); }
      list := inherited[c];
    }
  }

  lemma {:induction false} WellFormedIsAcyclic(cs: Classes)
    requires WellFormed(cs)
    ensures Acyclic(cs)
  {
  }

  lemma {:induction false} RememberedIsRight(cs: Classes, byNumber: seq<map<int, Field>>, c: nat, k: int)
    requires Acyclic(cs) && |byNumber| == |cs| && Remembered(cs, byNumber) && c < |cs|
    ensures k in byNumber[c] ==> LookupNumber(cs, c, k) == Some(byNumber[c][k])
    ensures k !in byNumber[c] ==> LookupNumber(cs, c, k) == FirstNumber(cs, c, cs[c].parents, k)
  {
    FindNumberIs(cs[c].fields, k);
    var own := FindNumber(cs[c].fields, k);
    if own.Some? {
      var i :| 0 <= i < |cs[c].fields| && cs[c].fields[i] == own.value;
    }
  }

  lemma {:induction false} RememberOne(cs: Classes, byNumber: seq<map<int, Field>>, c: nat, k: int, f: Field)
    requires Acyclic(cs) && |byNumber| == |cs| && Remembered(cs, byNumber) && c < |cs|
    requires LookupNumber(cs, c, k) == Some(f)
    ensures Remembered(cs, byNumber[c := byNumber[c][k := f]])
  {
  }

  lemma {:induction false} NamesOfMore(s: seq<Field>, f: Field)
    ensures Names(s + [f]) == Names(s) + {f.name}
  {
    assert forall g :: g in s + [f] <==> g in s || g == f;
  }

  /** Erasing one field of a name takes no other name away. */
  lemma {:induction false} NamesOfErased(s: seq<Field>, name: string)
    ensures Names(Erase(s, name)) + {name} == Names(s) + {name}
  {
    if s != [] {
      assert forall g :: g in s <==> g == s[0] || g in s[1..];
      assert Names(s) == {s[0].name} + Names(s[1..]);
      if s[0].name != name {
        NamesOfErased(s[1..], name);
        assert forall g :: g in Erase(s, name) <==> g == s[0] || g in Erase(s[1..], name);
        assert Names(Erase(s, name)) == {s[0].name} + Names(Erase(s[1..], name));
      }
    }
  }
}
