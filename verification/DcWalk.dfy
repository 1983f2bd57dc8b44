/** Walking into a field: the loop `push(); while (more_nested_fields()) ...; pop();`
    that unpacking, skipping and validating share, and the invariant that ties the
    cursor machine to the recursive decoder. */
module DcWalk {
  import opened Common
  import opened DcBytes
  import opened DcSchema
  import opened DcCodec
  import opened DcMachine
  import opened DcReaders

  /** The machine after the current field moved the cursor to `p`. `k` is the number
      of siblings it then believes in: what push() computed, or what an inner pop()
      has recomputed meanwhile. */
  function After(m: Machine, p: nat, k: int): Machine {
    Advance(m.(p := p, num := k))
  }

  ghost predicate Settled(m: Machine, n: Machine, p: nat) {
    n == After(m, p, m.num) || n == After(m, p, NumOf(m.parent))
  }

  function Quiet(m: Machine): Machine {
    m.(rangeError := false)
  }

  /** Settled, except that a range error may have been noted on the way. */
  ghost predicate Landed(m: Machine, n: Machine) {
    LandedAs(m, n, m.num) || LandedAs(m, n, NumOf(m.parent))
  }

  ghost predicate LandedAs(m: Machine, n: Machine, k: int) {
    var a := After(m, n.p, k);
    Quiet(n) == Quiet(a) && (a.rangeError ==> n.rangeError)
  }

  /** What walking over the current field of `m` must achieve, by the decoder of what
      the reader sees: on a field it accepts, the cursor lands where the decoder does and
      nothing else happens; on a field it rejects, the reader reports an error or runs
      off the buffer. */
  ghost predicate Walked(reader: Reader, m: Machine, n: Machine, v: Value)
    requires m.cur.Some?
  {
    && n.mode == m.mode && n.src == m.src && n.p >= m.p
    && (m.packError ==> n.packError) && (m.rangeError ==> n.rangeError)
    && (n.packError || Landed(m, n))
    && (n.packError || !Positive(m.cur.value) || n.p > m.p)
    && (m.p <= |m.src| ==> Decoded(reader, m.cur.value, m, n, v))
  }

  ghost predicate Decoded(reader: Reader, s: Schema, m: Machine, n: Machine, v: Value)
    requires m.p <= |m.src|
  {
    var d := Dec(View(reader, s), m.src[m.p..]);
    && (d.Some? ==> Settled(m, n, m.p + d.value.used) && (reader.Reading? ==> v == d.value.value))
    && (d.None? ==> Lost(reader, n))
  }

  /** advance() neither reads nor clears the error flags. */
  lemma AdvanceKeepsErrors(m: Machine)
    ensures var a := Advance(m.(packError := false, rangeError := false));
            Advance(m) == a.(packError := m.packError, rangeError := a.rangeError || m.rangeError)
    ensures Advance(m).p == m.p && Advance(m).src == m.src && Advance(m).mode == m.mode
  {
  }

  lemma AdvanceLands(m: Machine, p: nat, k: int, range: bool)
    requires !m.packError && (m.rangeError ==> range) && p >= m.p && (k == m.num || k == NumOf(m.parent))
    ensures var n := Advance(m.(p := p, num := k, rangeError := range));
            Landed(m, n) && n.p == p && !n.packError && (m.rangeError ==> n.rangeError)
  {
    AdvanceKeepsErrors(m.(p := p, num := k, rangeError := range));
    AdvanceKeepsErrors(m.(p := p, num := k));
  }

  lemma FieldWalked(reader: Reader, m: Machine, n: Machine, v: Value)
    requires m.cur.Some? && !m.packError && Passed(reader, m.cur.value, m, n, v)
    ensures Walked(reader, m, Advance(n), v)
  {
    hide View, Dec, Positive, HandleSwitch, NestedField;
    AdvanceKeepsErrors(n);
    if !n.packError {
      assert n == m.(p := n.p, num := m.num, rangeError := n.rangeError);
      AdvanceLands(m, n.p, m.num, n.rangeError);
    }
  }

  /* ---- The loop state ---- */

  predicate CaseOf(s: Schema, fields: seq<Schema>)
    requires s.Switch?
  {
    && fields != [] && fields[0] == s.key
    && (|| (s.other.Default? && fields[1..] == s.other.fields)
        || exists i :: 0 <= i < |s.cases| && fields[1..] == s.cases[i].fields)
  }

  ghost predicate InFields(m: Machine, fields: seq<Schema>) {
    && m.parent == Some(Record(fields)) && m.num == |fields| && m.popMark == 0
    && m.index <= |fields|
    && m.cur == if m.index < |fields| then Some(fields[m.index]) else None
  }

  ghost predicate InCount(m: Machine, s: Schema)
    requires s.Array? && OneValue(s.size)
  {
    && m.parent == Some(s) && m.num == s.size[0].lo && m.popMark == 0
    && m.index <= m.num
    && m.cur == if m.index < m.num then Some(s.elem) else None
  }

  /** The byte length that the prefix at `p` announces. */
  function Span(src: Bytes, p: nat, l: nat): nat {
    if p + l <= |src| then FromLe(src[p..p + l]) else 0
  }

  ghost predicate InSpan(m: Machine, s: Schema, m0: Machine)
    requires s.Array?
  {
    var l := LengthBytes(s);
    var span := Span(m.src, m0.p, l);
    && m0.p + l <= |m.src| && m.p >= m0.p + l
    && m.parent == Some(s) && m.popMark == m0.p + l + span
    && (m.num == (if span == 0 then 0 else CalcNested(s, span)) || m.num == NumNested(s))
    && (|| (m.cur == Some(s.elem) && (m.num < 0 || m.index < m.num) && m.p < m.popMark)
        || (m.cur == None && ((m.num >= 0 && m.index >= m.num) || m.p >= m.popMark)))
  }

  /** Where the machine is while the nested fields of `s`, entered at `m0`, are open. */
  ghost predicate Inside(s: Schema, m0: Machine, m: Machine) {
    && m.stack == [Frame(m0.parent, m0.index, m0.pushMark, m0.popMark)] + m0.stack
    && m.pushMark == m0.p && m.out == m0.out
    && match s
       case Num(_, _, _) => false
       case Text(_, _) => false
       case Array(_, _) =>
         if LengthBytes(s) == 0 then OneValue(s.size) && InCount(m, s) else InSpan(m, s, m0)
       case Record(fields) => InFields(m, fields)
       case Switch(key, _, _) =>
         if m.parent == Some(s) then
           && m.num == 1 && m.popMark == 0
           && (|| (m.index == 0 && m.cur == Some(key))
               || (m.index == 1 && m.cur == None && m.rangeError))
         else m.parent.Some? && m.parent.value.Record? && CaseOf(s, m.parent.value.fields)
              && InFields(m, m.parent.value.fields) && m.index >= 1
  }

  function Prepend(vs: seq<Value>, n: int, r: Option<Parsed<seq<Value>>>): Option<Parsed<seq<Value>>> {
    if r.None? || n < 0 then None else Some(Parsed(vs + r.value.value, n + r.value.used))
  }

  /* What the decoder of `s` returns, given the values `vs` passed so far: they come
     first, and it continues where the cursor is. */

  ghost predicate PendingFields(s: Schema, fields: seq<Schema>, m0: Machine, m: Machine, vs: seq<Value>)
    requires m0.p <= m.p <= |m.src|
  {
    && |vs| == m.index <= |fields|
    && Dec(s, m.src[m0.p..]) == Listed(Prepend(vs, m.p - m0.p, DecAll(fields[m.index..], m.src[m.p..])), 0)
  }

  ghost predicate PendingCount(s: Schema, m0: Machine, m: Machine, vs: seq<Value>)
    requires s.Array? && m0.p <= m.p <= |m.src|
  {
    && |vs| == m.index && OneValue(s.size) && s.size[0].lo >= m.index
    && DecCount(s.elem, m.src[m0.p..], s.size[0].lo)
       == Prepend(vs, m.p - m0.p, DecCount(s.elem, m.src[m.p..], s.size[0].lo - m.index))
  }

  ghost predicate PendingSpan(s: Schema, m0: Machine, m: Machine, vs: seq<Value>)
    requires s.Array? && m0.p <= m.p <= |m.src|
  {
    var l := LengthBytes(s);
    && |vs| == m.index && m0.p + l <= m.p
    && SpanSplit(s.elem, m.src, m0.p + l, Span(m.src, m0.p, l), m.p, m.popMark, vs)
  }

  /** A span of elements that starts at `start`, seen from `p` after the elements `vs`. */
  ghost predicate SpanSplit(elem: Schema, src: Bytes, start: nat, span: nat, p: nat, end: nat, vs: seq<Value>)
    requires start <= p <= |src|
  {
    && DecSpan(elem, src[start..], span) == SpanRest(elem, src, start, p, end, vs)
    && (FixedSize(elem).Some? ==> p == start + |vs| * FixedSize(elem).value)
  }

  function SpanRest(elem: Schema, src: Bytes, start: nat, p: nat, end: nat, vs: seq<Value>): Option<Parsed<seq<Value>>>
    requires start <= p <= |src|
  {
    if p > end then None else Prepend(vs, p - start, DecSpan(elem, src[p..], end - p))
  }

  ghost predicate Pending(reader: Reader, s: Schema, m0: Machine, m: Machine, vs: seq<Value>)
    requires m0.p <= m.p <= |m.src|
  {
    var w := View(reader, s);
    !Leaps(reader, s) &&
    match s
    case Num(_, _, _) => false
    case Text(_, _) => false
    case Array(_, _) =>
      if LengthBytes(s) == 0 then PendingCount(w, m0, m, vs) else PendingSpan(w, m0, m, vs)
    case Record(fields) => PendingFields(w, ViewAll(reader, fields), m0, m, vs)
    case Switch(_, _, _) =>
      if m.parent.Some? && m.parent.value.Record?
      then PendingFields(w, ViewAll(reader, m.parent.value.fields), m0, m, vs)
      else |vs| == m.index && if m.index == 0 then m.p == m0.p else Dec(w, m.src[m0.p..]).None?
  }

  ghost predicate Live(reader: Reader, s: Schema, m0: Machine, m: Machine, vs: seq<Value>, seen: seq<Value>) {
    && m0.p <= m.p <= |m.src| && !m.packError
    && Pending(reader, s, m0, m, seen) && (reader.Reading? ==> vs == seen)
  }

  ghost predicate Progress(s: Schema, m0: Machine, m: Machine) {
    match s
    case Num(_, _, _) => true
    case Text(_, _) => true
    case Array(_, _) => m.index > 0 || LengthBytes(s) > 0 ==> m.p > m0.p
    case Record(fields) => m.index <= |fields| && (AnyPositive(fields) ==> m.p > m0.p || AnyPositive(fields[m.index..]))
    case Switch(key, _, _) => m.index > 0 && Positive(key) ==> m.p > m0.p
  }

  /** The loop invariant. `vs` is what the reader collected and `seen` what the
      decoder found in the same place. */
  ghost predicate LoopInv(reader: Reader, s: Schema, m0: Machine, m: Machine, vs: seq<Value>, seen: seq<Value>) {
    && m.mode == m0.mode && m.src == m0.src && m.p >= m0.p
    && (m0.rangeError ==> m.rangeError)
    && (m.packError || (Inside(s, m0, m) && Progress(s, m0, m)))
    && (m0.p <= |m0.src| ==> Tracked(reader, s, m0, m, vs, seen))
  }

  /** The loop keeps up with a decoder that accepts, and loses track of one that
      rejects only by failing. */
  ghost predicate Tracked(reader: Reader, s: Schema, m0: Machine, m: Machine, vs: seq<Value>, seen: seq<Value>)
    requires m0.p <= |m0.src|
  {
    var d := Dec(View(reader, s), m0.src[m0.p..]);
    && (d.Some? ==> Live(reader, s, m0, m, vs, seen) && m.rangeError == m0.rangeError)
    && (d.None? ==> Lost(reader, m) || Live(reader, s, m0, m, vs, seen))
  }

  /** The loop's termination measure while no error is set. */
  function Fuel(m: Machine): nat {
    if m.popMark != 0 then (if m.popMark > m.p then m.popMark - m.p else 0)
    else if m.num > m.index then m.num - m.index else 0
  }

  predicate AtKey(m: Machine) {
    m.parent.Some? && m.parent.value.Switch?
  }

  /* ---- push() establishes it ---- */

  lemma PushOpens(reader: Reader, m: Machine)
    requires m.mode.Unpacking? && m.cur.Some? && !m.packError && Legal(m.cur.value)
    requires PassField(m, m.cur.value, reader).None?
    ensures !m.cur.value.Num?
    ensures LoopInv(reader, m.cur.value, m, Push(m), [], [])
  {
    var s := m.cur.value;
    match s
    case Num(_, _, _) =>
    case Text(_, _) => PushOpensText(reader, m);
    case Array(_, _) => PushOpensArray(reader, m);
    case Record(fields) => if m.p <= |m.src| { PushOpensFields(reader, fields, m); }
    case Switch(_, _, _) =>
  }

  /** A text field is entered only when its length prefix is cut off, which is an error. */
  lemma PushOpensText(reader: Reader, m: Machine)
    requires m.mode.Unpacking? && m.cur.Some? && !m.packError && Legal(m.cur.value) && m.cur.value.Text?
    requires PassField(m, m.cur.value, reader).None?
    ensures LoopInv(reader, m.cur.value, m, Push(m), [], [])
  {
    var s := m.cur.value;
    assert m.p + LengthBytes(s) > |m.src|;
    if m.p <= |m.src| { TextCutOff(View(reader, s), m.src[m.p..]); }
  }

  lemma PushOpensFields(reader: Reader, fields: seq<Schema>, m: Machine)
    requires m.p <= |m.src|
    requires !Leaps(reader, Record(fields))
    ensures var v := ViewAll(reader, fields);
            Dec(View(reader, Record(fields)), m.src[m.p..]) == Listed(Prepend([], 0, DecAll(v[0..], m.src[m.p..])), 0)
  {
    var v := ViewAll(reader, fields);
    assert v[0..] == v;
    PrependNothing(DecAll(v, m.src[m.p..]));
  }

  lemma PushOpensArray(reader: Reader, m: Machine)
    requires m.mode.Unpacking? && m.cur.Some? && !m.packError && Legal(m.cur.value) && m.cur.value.Array?
    requires !Leaps(reader, m.cur.value)
    ensures LoopInv(reader, m.cur.value, m, Push(m), [], [])
  {
    var s := m.cur.value;
    var w := View(reader, s);
    ViewKeeps(reader, s.elem);
    if LengthBytes(s) == 0 { PushOpensCount(s, w.elem, m); }
    else if m.p + LengthBytes(s) <= |m.src| { PushOpensSpan(s, w.elem, m); }
  }

  lemma PushOpensCount(s: Schema, elem: Schema, m: Machine)
    requires m.mode.Unpacking? && m.cur == Some(s) && !m.packError && Legal(s) && s.Array? && LengthBytes(s) == 0
    ensures var n := Push(m);
            !n.packError && n.p == m.p && n.index == 0 && n.rangeError == m.rangeError && Inside(s, m, n)
    ensures m.p <= |m.src| ==> PendingCount(Array(elem, s.size), m, Push(m), [])
  {
    if m.p <= |m.src| { PrependNothing(DecCount(elem, m.src[m.p..], s.size[0].lo)); }
  }

  lemma PushOpensSpan(s: Schema, elem: Schema, m: Machine)
    requires m.mode.Unpacking? && m.cur == Some(s) && !m.packError && Legal(s) && s.Array?
    requires LengthBytes(s) > 0 && m.p + LengthBytes(s) <= |m.src|
    requires FixedSize(elem) == FixedSize(s.elem)
    ensures var n := Push(m);
            !n.packError && n.p == m.p + LengthBytes(s) && n.rangeError == m.rangeError && Inside(s, m, n)
    ensures PendingSpan(Array(elem, s.size), m, Push(m), [])
  {
    var l := LengthBytes(s);
    PositiveElem(s);
    PrependNothing(DecSpan(elem, m.src[m.p + l..], Span(m.src, m.p, l)));
  }

  lemma PrependNothing(r: Option<Parsed<seq<Value>>>)
    ensures Prepend([], 0, r) == r
  {
    if r.Some? { assert [] + r.value.value == r.value.value; }
  }

  lemma PrependOne(vs: seq<Value>, n: nat, first: Parsed<Value>, rest: Option<Parsed<seq<Value>>>)
    ensures Prepend(vs, n, Cons(first, rest)) == Prepend(vs + [first.value], n + first.used, rest)
  {
    if rest.Some? { assert vs + ([first.value] + rest.value.value) == vs + [first.value] + rest.value.value; }
  }

  lemma PositiveElem(s: Schema)
    requires Legal(s) && s.Array?
    ensures FixedSize(s.elem).Some? ==> FixedSize(s.elem).value > 0
  {
    if FixedSize(s.elem).Some? { PositiveSize(s.elem); }
  }

  /* ---- One iteration keeps it ---- */

  /** What the decoder finds in the current field, or what the reader made of it. */
  function Seen(reader: Reader, m: Machine, v: Value): Value
    requires m.cur.Some?
  {
    var d := if m.p <= |m.src| then Dec(View(reader, m.cur.value), m.src[m.p..]) else None;
    if d.Some? then d.value.value else v
  }

  lemma ChildIsKnown(s: Schema, m0: Machine, m: Machine)
    requires Legal(s) && Inside(s, m0, m) && m.cur.Some?
    ensures s decreases to m.cur.value
    ensures Legal(m.cur.value)
  {
    match s
    case Num(_, _, _) =>
    case Text(_, _) =>
    case Array(_, _) =>
    case Record(fields) => FieldIsKnown(fields, m.index);
    case Switch(key, cases, other) =>
      if m.index > 0 {
        var fields := m.parent.value.fields;
        var rest := fields[1..];
        assert rest[m.index - 1] == fields[m.index];
        assert AllLegal(rest);
        FieldIsKnown(rest, m.index - 1);
      }
  }

  lemma {:induction false} FieldIsKnown(fields: seq<Schema>, k: nat)
    requires k < |fields| && AllLegal(fields)
    ensures Legal(fields[k])
    decreases k
  {
    if k > 0 { FieldIsKnown(fields[1..], k - 1); }
  }

  lemma StepKeeps(reader: Reader, s: Schema, m0: Machine, m: Machine, vs: seq<Value>, seen: seq<Value>,
                  n: Machine, v: Value)
    requires m0.mode.Unpacking? && m0.cur == Some(s) && !m0.packError && Legal(s)
    requires LoopInv(reader, s, m0, m, vs, seen)
    requires m.cur.Some? && !m.packError && Walked(reader, m, n, v)
    ensures LoopInv(reader, s, m0, n, vs + [v], seen + [Seen(reader, m, v)])
    ensures n.packError || (AtKey(m) && !AtKey(n)) || (AtKey(m) == AtKey(n) && Fuel(n) < Fuel(m))
  {
    ChildIsKnown(s, m0, m);
    if !n.packError { StepStaysInside(reader, s, m0, m, n, v); }
    if m0.p <= |m0.src| { StepTracks(reader, s, m0, m, vs, seen, n, v); }
  }

  lemma StepTracks(reader: Reader, s: Schema, m0: Machine, m: Machine, vs: seq<Value>, seen: seq<Value>,
                   n: Machine, v: Value)
    requires Legal(s) && m.mode.Unpacking? && m.src == m0.src && m0.p <= |m0.src| && m0.p <= m.p
    requires Inside(s, m0, m) && Tracked(reader, s, m0, m, vs, seen)
    requires m.cur.Some? && !m.packError && n.src == m.src && n.p >= m.p && (m.rangeError ==> n.rangeError)
    requires m.p <= |m.src| ==> Decoded(reader, m.cur.value, m, n, v)
    ensures Tracked(reader, s, m0, n, vs + [v], seen + [Seen(reader, m, v)])
  {
    hide Inside, Tracked, Legal, Dec, View, Leaps, Pending, Settled;
    var live := Live(reader, s, m0, m, vs, seen);
    var d := if m.p <= |m.src| then Dec(View(reader, m.cur.value), m.src[m.p..]) else None;
    if live && d.Some? {
      StepAccepted(reader, s, m0, m, vs, seen, n, v, d.value);
    } else {
      StepLost(reader, s, m0, m, vs, seen, n, vs + [v], seen + [Seen(reader, m, v)]);
    }
  }

  lemma StepAccepted(reader: Reader, s: Schema, m0: Machine, m: Machine, vs: seq<Value>, seen: seq<Value>,
                     n: Machine, v: Value, d: Parsed<Value>)
    requires Legal(s) && m.mode.Unpacking? && m.src == m0.src && m0.p <= |m0.src| && m0.p <= m.p <= |m.src|
    requires Inside(s, m0, m) && Tracked(reader, s, m0, m, vs, seen) && Live(reader, s, m0, m, vs, seen)
    requires m.cur.Some? && n.src == m.src && n.p >= m.p
    requires Dec(View(reader, m.cur.value), m.src[m.p..]) == Some(d) && Settled(m, n, m.p + d.used)
    requires reader.Reading? ==> v == d.value
    ensures Tracked(reader, s, m0, n, vs + [v], seen + [d.value])
  {
    StepStaysLive(reader, s, m0, m, seen, n, d);
    TrackLive(reader, s, m0, m, vs, seen, n, vs + [v], seen + [d.value]);
  }

  lemma StepLost(reader: Reader, s: Schema, m0: Machine, m: Machine, vs: seq<Value>, seen: seq<Value>,
                 n: Machine, vs': seq<Value>, seen': seq<Value>)
    requires Legal(s) && m.src == m0.src && m0.p <= |m0.src| && m0.p <= m.p
    requires Inside(s, m0, m) && Tracked(reader, s, m0, m, vs, seen)
    requires m.cur.Some? && !m.packError && n.src == m.src && n.p >= m.p && (m.rangeError ==> n.rangeError)
    requires Live(reader, s, m0, m, vs, seen) ==>
               Dec(View(reader, m.cur.value), m.src[m.p..]).None? && Lost(reader, n)
    ensures Tracked(reader, s, m0, n, vs', seen')
  {
    if Live(reader, s, m0, m, vs, seen) { RejectedChild(reader, s, m0, m, seen); }
    TrackLost(reader, s, m0, n, vs', seen');
  }

  lemma TrackLive(reader: Reader, s: Schema, m0: Machine, m: Machine, vs: seq<Value>, seen: seq<Value>,
                  n: Machine, vs': seq<Value>, seen': seq<Value>)
    requires m0.p <= |m0.src| && Tracked(reader, s, m0, m, vs, seen)
    requires Live(reader, s, m0, n, vs', seen') && (Dec(View(reader, s), m0.src[m0.p..]).Some? ==> n.rangeError == m.rangeError)
    ensures Tracked(reader, s, m0, n, vs', seen')
  {
  }

  lemma TrackLost(reader: Reader, s: Schema, m0: Machine, n: Machine, vs: seq<Value>, seen: seq<Value>)
    requires m0.p <= |m0.src| && Dec(View(reader, s), m0.src[m0.p..]).None? && Lost(reader, n)
    ensures Tracked(reader, s, m0, n, vs, seen)
  {
  }

  /** The structural half: the machine is still among the fields of `s`. */
  lemma StepStaysInside(reader: Reader, s: Schema, m0: Machine, m: Machine, n: Machine, v: Value)
    requires Legal(s) && m0.mode.Unpacking? && m.mode.Unpacking? && m.src == m0.src && m.p >= m0.p
    requires Inside(s, m0, m) && Progress(s, m0, m)
    requires m.cur.Some? && !m.packError && Walked(reader, m, n, v) && !n.packError
    ensures Inside(s, m0, n) && Progress(s, m0, n)
    ensures (AtKey(m) && !AtKey(n)) || (AtKey(m) == AtKey(n) && Fuel(n) < Fuel(m))
  {
    if s.Array? { ArrayStaysInside(s, m0, m, n); }
    else if s.Record? || m.parent != Some(s) {
      var fields := m.parent.value.fields;
      assert fields[m.index..][0] == fields[m.index] && fields[m.index..][1..] == fields[m.index + 1..];
      FieldsStayInside(fields, m, n);
    } else { KeyStaysInside(s, m0, m, n); }
  }

  lemma ArrayStaysInside(s: Schema, m0: Machine, m: Machine, n: Machine)
    requires s.Array? && Legal(s) && m.src == m0.src && m.p >= m0.p && Inside(s, m0, m)
    requires m.cur.Some? && !m.packError && Landed(m, n) && n.p > m.p
    ensures Inside(s, m0, n) && n.p > m0.p
    ensures AtKey(m) == AtKey(n) && Fuel(n) < Fuel(m)
  {
    if LengthBytes(s) > 0 { SpanStaysInside(s, m0, m, n); } else { CountStaysInside(s, m, n); }
  }

  lemma CountStaysInside(s: Schema, m: Machine, n: Machine)
    requires s.Array? && OneValue(s.size) && InCount(m, s)
    requires m.cur.Some? && !m.packError && Landed(m, n) && n.p > m.p
    ensures InCount(n, s) && n.stack == m.stack && n.pushMark == m.pushMark && n.out == m.out
    ensures AtKey(m) == AtKey(n) && Fuel(n) < Fuel(m)
  {
  }

  lemma SpanStaysInside(s: Schema, m0: Machine, m: Machine, n: Machine)
    requires s.Array? && LengthBytes(s) > 0 && InSpan(m, s, m0)
    requires m.cur.Some? && !m.packError && Landed(m, n) && n.p > m.p
    ensures InSpan(n, s, m0) && n.stack == m.stack && n.pushMark == m.pushMark && n.out == m.out
    ensures AtKey(m) == AtKey(n) && Fuel(n) < Fuel(m)
  {
    hide FromLe, FixedSize, Legal;
    assert m.popMark > 0;
  }

  lemma FieldsStayInside(fields: seq<Schema>, m: Machine, n: Machine)
    requires InFields(m, fields) && m.cur.Some? && !m.packError && Landed(m, n) && n.p >= m.p
    ensures InFields(n, fields) && n.index == m.index + 1
    ensures n.parent == m.parent && n.stack == m.stack && n.pushMark == m.pushMark && n.out == m.out
    ensures AtKey(m) == AtKey(n) && Fuel(n) < Fuel(m)
  {
  }

  lemma KeyStaysInside(s: Schema, m0: Machine, m: Machine, n: Machine)
    requires s.Switch? && Inside(s, m0, m) && m.parent == Some(s) && m.mode.Unpacking?
    requires m.cur.Some? && !m.packError && Landed(m, n) && n.p >= m.p
    ensures Inside(s, m0, n) && n.index == 1
    ensures (AtKey(m) && !AtKey(n)) || (AtKey(m) == AtKey(n) && Fuel(n) < Fuel(m))
  {
    var chosen := Selected(s.cases, s.other, Slice(m.src, m.pushMark, n.p));
    if chosen.Some? {
      assert ([s.key] + chosen.value)[1..] == chosen.value;
      assert n.parent == Some(Record([s.key] + chosen.value));
    }
  }

  /** The decoding half: an accepted child leaves the rest of the field pending. */
  lemma StepStaysLive(reader: Reader, s: Schema, m0: Machine, m: Machine, seen: seq<Value>, n: Machine, d: Parsed<Value>)
    requires Legal(s) && m.mode.Unpacking? && m0.p <= m.p <= |m.src|
    requires Inside(s, m0, m) && Pending(reader, s, m0, m, seen)
    requires m.cur.Some? && !m.packError
    requires Dec(View(reader, m.cur.value), m.src[m.p..]) == Some(d) && Settled(m, n, m.p + d.used)
    ensures m0.p <= n.p <= |n.src| && !n.packError && Pending(reader, s, m0, n, seen + [d.value])
    ensures Dec(View(reader, s), m.src[m0.p..]).Some? ==> n.rangeError == m.rangeError
  {
    if s.Array? {
      assert m.src[m.p..][d.used..] == m.src[m.p + d.used..];
      ArrayStaysLive(reader, s, m0, m, seen, n, d);
    } else {
      RecordStaysLive(reader, s, m0, m, seen, n, d);
    }
  }

  lemma ArrayStaysLive(reader: Reader, s: Schema, m0: Machine, m: Machine, seen: seq<Value>, n: Machine, d: Parsed<Value>)
    requires s.Array? && Legal(s) && m0.p <= m.p <= |m.src|
    requires Inside(s, m0, m) && Pending(reader, s, m0, m, seen) && m.cur.Some? && !m.packError
    requires Dec(View(reader, s.elem), m.src[m.p..]) == Some(d) && Settled(m, n, m.p + d.used)
    requires m.src[m.p..][d.used..] == m.src[m.p + d.used..]
    ensures m0.p <= n.p <= |n.src| && !n.packError && n.rangeError == m.rangeError
    ensures Pending(reader, s, m0, n, seen + [d.value])
  {
    hide Dec, FixedSize, HasLimits, Leaps, FromLe, PendingCount, PendingSpan, PendingFields, SpanSplit;
    ViewKeeps(reader, s.elem);
    var w := View(reader, s);
    if LengthBytes(s) == 0 {
      CountAdvance(m, n, s, m.p + d.used);
      CountGoesOn(w, m0, m, seen, n, d);
    } else {
      SpanAdvance(m, n, s, m0, m.p + d.used);
      SpanStaysLive(w, m0, m, seen, n, d);
    }
  }

  lemma SpanStaysLive(s: Schema, m0: Machine, m: Machine, seen: seq<Value>, n: Machine, d: Parsed<Value>)
    requires s.Array? && Legal(s.elem) && Positive(s.elem) && m0.p <= m.p <= |m.src| && m.p < m.popMark
    requires PendingSpan(s, m0, m, seen)
    requires Dec(s.elem, m.src[m.p..]) == Some(d)
    requires n.p == m.p + d.used && n.src == m.src && n.index == m.index + 1 && n.popMark == m.popMark
    requires m.src[m.p..][d.used..] == m.src[m.p + d.used..]
    ensures PendingSpan(s, m0, n, seen + [d.value])
  {
    hide Legal, Positive, FixedSize, LengthBytes, Dec, DecSpan, SpanSplit, FromLe;
    var l := LengthBytes(s);
    SpanGoesOn(s.elem, m.src, m0.p + l, Span(m.src, m0.p, l), m.p, m.popMark, seen, d);
  }

  lemma RecordStaysLive(reader: Reader, s: Schema, m0: Machine, m: Machine, seen: seq<Value>, n: Machine, d: Parsed<Value>)
    requires Legal(s) && !s.Array? && m0.p <= m.p <= |m.src| && m.mode.Unpacking?
    requires Inside(s, m0, m) && Pending(reader, s, m0, m, seen) && m.cur.Some? && !m.packError
    requires Dec(View(reader, m.cur.value), m.src[m.p..]) == Some(d) && Settled(m, n, m.p + d.used)
    ensures m0.p <= n.p <= |n.src| && !n.packError && Pending(reader, s, m0, n, seen + [d.value])
    ensures Dec(View(reader, s), m.src[m0.p..]).Some? ==> n.rangeError == m.rangeError
  {
    hide Legal, Settled, Dec, DecAll;
    if m.parent == Some(s) && s.Switch? {
      KeyAdvance(s, m, n, m.p + d.used);
      KeyGoesOn(reader, s, m0, m, n, d);
      assert seen + [d.value] == [d.value];
    } else {
      var fields := m.parent.value.fields;
      FieldsAdvance(m, n, fields, m.p + d.used);
      ViewFieldAt(reader, fields, m.index);
      FieldsGoOn(View(reader, s), ViewAll(reader, fields), m0, m, seen, n, d);
    }
  }

  lemma DecAllStep(fields: seq<Schema>, k: nat, src: Bytes, p: nat)
    requires k < |fields| && p <= |src|
    ensures var d := Dec(fields[k], src[p..]);
            DecAll(fields[k..], src[p..])
            == if d.None? then None else Cons(d.value, DecAll(fields[k + 1..], src[p + d.value.used..]))
  {
    assert fields[k..][0] == fields[k] && fields[k..][1..] == fields[k + 1..];
    var d := Dec(fields[k], src[p..]);
    if d.Some? { assert src[p..][d.value.used..] == src[p + d.value.used..]; }
  }

  /* Where advance() leaves the machine, spelled out for each kind of parent. */

  lemma FieldsAdvance(m: Machine, n: Machine, fields: seq<Schema>, p: nat)
    requires InFields(m, fields) && m.cur.Some? && Settled(m, n, p)
    ensures n == m.(p := p, index := m.index + 1,
                    cur := if m.index + 1 < |fields| then Some(fields[m.index + 1]) else None)
  {
  }

  lemma CountAdvance(m: Machine, n: Machine, s: Schema, p: nat)
    requires s.Array? && OneValue(s.size) && InCount(m, s) && m.cur.Some? && Settled(m, n, p)
    ensures n == m.(p := p, index := m.index + 1, cur := if m.index + 1 < m.num then Some(s.elem) else None)
  {
  }

  lemma SpanAdvance(m: Machine, n: Machine, s: Schema, m0: Machine, p: nat)
    requires s.Array? && InSpan(m, s, m0) && m.cur.Some? && Settled(m, n, p)
    ensures n == m.(p := p, index := m.index + 1, cur := n.cur, num := n.num)
  {
  }

  lemma FieldsGoOn(s: Schema, fields: seq<Schema>, m0: Machine, m: Machine, seen: seq<Value>,
                   n: Machine, d: Parsed<Value>)
    requires m0.p <= m.p <= |m.src| && m.index < |fields|
    requires PendingFields(s, fields, m0, m, seen)
    requires Dec(fields[m.index], m.src[m.p..]) == Some(d)
    requires n.src == m.src && n.p == m.p + d.used && n.index == m.index + 1
    ensures PendingFields(s, fields, m0, n, seen + [d.value])
  {
    FieldsUnroll(fields, m.index, m.src, m.p, seen, m.p - m0.p, d);
  }

  lemma FieldsUnroll(fields: seq<Schema>, k: nat, src: Bytes, p: nat, seen: seq<Value>, at: nat, d: Parsed<Value>)
    requires k < |fields| && p <= |src| && Dec(fields[k], src[p..]) == Some(d)
    ensures Prepend(seen, at, DecAll(fields[k..], src[p..]))
         == Prepend(seen + [d.value], at + d.used, DecAll(fields[k + 1..], src[p + d.used..]))
  {
    DecAllStep(fields, k, src, p);
    PrependOne(seen, at, d, DecAll(fields[k + 1..], src[p + d.used..]));
  }

  lemma CountGoesOn(s: Schema, m0: Machine, m: Machine, seen: seq<Value>, n: Machine, d: Parsed<Value>)
    requires s.Array? && m0.p <= m.p <= |m.src| && OneValue(s.size) && m.index < s.size[0].lo
    requires PendingCount(s, m0, m, seen)
    requires Dec(s.elem, m.src[m.p..]) == Some(d)
    requires n.src == m.src && n.p == m.p + d.used && n.index == m.index + 1
    requires m.src[m.p..][d.used..] == m.src[n.p..]
    ensures PendingCount(s, m0, n, seen + [d.value])
  {
    PrependOne(seen, m.p - m0.p, d, DecCount(s.elem, m.src[n.p..], s.size[0].lo - m.index - 1));
  }

  lemma SpanGoesOn(elem: Schema, src: Bytes, start: nat, span: nat, p: nat, end: nat, vs: seq<Value>,
                   d: Parsed<Value>)
    requires Legal(elem) && Positive(elem) && start <= p <= |src| && p < end
    requires SpanSplit(elem, src, start, span, p, end, vs)
    requires Dec(elem, src[p..]) == Some(d) && src[p..][d.used..] == src[p + d.used..]
    ensures SpanSplit(elem, src, start, span, p + d.used, end, vs + [d.value])
  {
    DecIsPositive(elem, src[p..]);
    SpanRestUnrolls(elem, src, start, p, end, vs, d);
    if FixedSize(elem).Some? { FixedAt(elem, src[p..], |vs|, |vs + [d.value]|); }
  }

  lemma FixedAt(elem: Schema, b: Bytes, k: nat, k': nat)
    requires Legal(elem) && FixedSize(elem).Some? && Dec(elem, b).Some? && k' == k + 1
    ensures k * FixedSize(elem).value + Dec(elem, b).value.used == k' * FixedSize(elem).value
  {
    FixedSizeIsExact(elem, b);
    OneMore(k, FixedSize(elem).value);
  }

  lemma SpanRestUnrolls(elem: Schema, src: Bytes, start: nat, p: nat, end: nat, vs: seq<Value>, d: Parsed<Value>)
    requires start <= p <= |src| && p < end && Dec(elem, src[p..]) == Some(d) && d.used > 0
    requires src[p..][d.used..] == src[p + d.used..]
    ensures SpanRest(elem, src, start, p, end, vs) == SpanRest(elem, src, start, p + d.used, end, vs + [d.value])
  {
    if p + d.used <= end {
      PrependOne(vs, p - start, d, DecSpan(elem, src[p + d.used..], end - p - d.used));
    }
  }

  lemma KeyAdvance(s: Schema, m: Machine, n: Machine, p: nat)
    requires s.Switch? && m.mode.Unpacking? && m.pushMark <= p <= |m.src|
    requires m.parent == Some(s) && m.index == 0 && m.num == 1 && Settled(m, n, p)
    ensures n.p == p && n.packError == m.packError && n.src == m.src && n.index == 1
    ensures var chosen := Selected(s.cases, s.other, m.src[m.pushMark..p]);
            if chosen.None? then n.rangeError && n.parent == Some(s)
            else n.rangeError == m.rangeError && n.parent == Some(Record([s.key] + chosen.value))
  {
  }

  lemma KeyGoesOn(reader: Reader, s: Schema, m0: Machine, m: Machine, n: Machine, d: Parsed<Value>)
    requires s.Switch? && !Leaps(reader, s) && m0.p == m.p <= |m.src|
    requires Dec(View(reader, s.key), m.src[m.p..]) == Some(d)
    requires n.p == m.p + d.used && n.src == m.src && n.index == 1
    requires var chosen := Selected(s.cases, s.other, m.src[m.p..n.p]);
             n.parent == if chosen.None? then Some(s) else Some(Record([s.key] + chosen.value))
    ensures Dec(View(reader, s), m.src[m0.p..]).Some? ==> Selected(s.cases, s.other, m.src[m.p..n.p]).Some?
    ensures Pending(reader, s, m0, n, [d.value])
  {
    hide Dec, DecAll, Selected, FixedSize, HasLimits, Leaps, PendingCount, PendingSpan;
    var w, key := View(reader, s), m.src[m.p..n.p];
    KeyDecides(w, m.src, m.p, d);
    ViewSelects(reader, s.cases, s.other, key);
    var chosen := Selected(s.cases, s.other, key);
    if chosen.Some? { FieldsAfterKey(reader, s.key, chosen.value, m.src[n.p..], d); }
  }

  /** After the key, the selected fields decide. */
  lemma KeyDecides(w: Schema, src: Bytes, p: nat, d: Parsed<Value>)
    requires w.Switch? && p <= |src| && Dec(w.key, src[p..]) == Some(d)
    ensures var chosen := Selected(w.cases, w.other, src[p..p + d.used]);
            Dec(w, src[p..])
            == if chosen.None? then None else Listed(Cons(d, DecAll(chosen.value, src[p + d.used..])), 0)
  {
    assert src[p..][..d.used] == src[p..p + d.used];
    assert src[p..][d.used..] == src[p + d.used..];
    assert Dec(w, src[p..]) == DecSwitch(w, src[p..]);
  }

  lemma FieldsAfterKey(reader: Reader, key: Schema, chosen: seq<Schema>, b: Bytes, d: Parsed<Value>)
    ensures var v := ViewAll(reader, [key] + chosen);
            |v| == 1 + |chosen| && v[1..] == ViewAll(reader, chosen)
    ensures Cons(d, DecAll(ViewAll(reader, chosen), b))
         == Prepend([d.value], d.used, DecAll(ViewAll(reader, [key] + chosen)[1..], b))
  {
    assert ([key] + chosen)[1..] == chosen;
    assert ViewAll(reader, [key] + chosen)[1..] == ViewAll(reader, chosen);
  }

  /** A child the decoder rejects is a field it rejects. */
  lemma RejectedChild(reader: Reader, s: Schema, m0: Machine, m: Machine, seen: seq<Value>)
    requires Legal(s) && m0.p <= m.p <= |m.src| && Inside(s, m0, m) && Pending(reader, s, m0, m, seen)
    requires m.cur.Some? && Dec(View(reader, m.cur.value), m.src[m.p..]).None?
    ensures Dec(View(reader, s), m.src[m0.p..]).None?
  {
    match s
    case Num(_, _, _) =>
    case Text(_, _) =>
    case Array(elem, _) =>
      ViewKeeps(reader, elem);
      RejectedElement(View(reader, s), m0, m, seen);
    case Record(fields) =>
      ViewFieldAt(reader, fields, m.index);
      DecAllStep(ViewAll(reader, fields), m.index, m.src, m.p);
    case Switch(_, _, _) =>
      if m.parent != Some(s) {
        var fields := m.parent.value.fields;
        ViewFieldAt(reader, fields, m.index);
        DecAllStep(ViewAll(reader, fields), m.index, m.src, m.p);
      }
  }

  lemma RejectedElement(w: Schema, m0: Machine, m: Machine, seen: seq<Value>)
    requires w.Array? && m0.p <= m.p <= |m.src| && Dec(w.elem, m.src[m.p..]).None?
    requires if LengthBytes(w) == 0 then PendingCount(w, m0, m, seen) && m.index < w.size[0].lo
             else PendingSpan(w, m0, m, seen) && m.p < m.popMark
    ensures Dec(w, m.src[m0.p..]).None?
  {
    var b, l := m.src[m0.p..], LengthBytes(w);
    if l > 0 && l <= |b| {
      assert b[..l] == m.src[m0.p..m0.p + l];
      assert b[l..] == m.src[m0.p + l..];
    }
  }

  /* ---- pop() turns it into the result ---- */

  lemma PopCloses(reader: Reader, m0: Machine, m: Machine, vs: seq<Value>, seen: seq<Value>)
    requires m0.mode.Unpacking? && m0.cur.Some? && !m0.packError && Legal(m0.cur.value)
    requires LoopInv(reader, m0.cur.value, m0, m, vs, seen)
    requires m.cur.None? || m.packError
    ensures Walked(reader, m0, Pop(m), ListV(vs))
  {
    var s := m0.cur.value;
    if m.packError { PopOfError(m); }
    else {
      PopLands(s, m0, m);
      if Positive(s) { PopProgress(s, m0, m); }
      LandedWalks(reader, s, m0, m, vs, seen, Pop(m));
    }
  }

  lemma LandedWalks(reader: Reader, s: Schema, m0: Machine, m: Machine, vs: seq<Value>, seen: seq<Value>, n: Machine)
    requires m0.mode.Unpacking? && m0.cur == Some(s) && !m0.packError && Legal(s)
    requires LoopInv(reader, s, m0, m, vs, seen) && m.cur.None? && !m.packError
    requires n == Advance(m0.(p := m.p, num := NumOf(m0.parent), rangeError := m.rangeError,
                              packError := Missed(m) || !CountAllowed(s, m.index)))
    requires Positive(s) ==> m.p > m0.p
    ensures Walked(reader, m0, n, ListV(vs))
  {
    LandsOrFails(m0, m.p, m.rangeError, Missed(m) || !CountAllowed(s, m.index));
    if m0.p <= |m0.src| {
      LoopDecides(reader, s, m0, m, vs, seen);
      LandedDecodes(reader, s, m0, m, vs, n);
    }
  }

  lemma LandedDecodes(reader: Reader, s: Schema, m0: Machine, m: Machine, vs: seq<Value>, n: Machine)
    requires m0.p <= |m0.src| && Decides(reader, s, m0, m, vs) && !m.packError
    requires n.p == m.p && n.src == m.src == m0.src && n.packError == (Missed(m) || !CountAllowed(s, m.index))
    requires m.rangeError ==> n.rangeError
    requires !n.packError && m.rangeError == m0.rangeError ==> Settled(m0, n, m.p)
    ensures Decoded(reader, s, m0, n, ListV(vs))
  {
    hide Dec, View, CountAllowed, Missed, Settled;
  }

  lemma LandsOrFails(m0: Machine, p: nat, range: bool, bad: bool)
    requires !m0.packError && (m0.rangeError ==> range) && p >= m0.p
    ensures var n := Advance(m0.(p := p, num := NumOf(m0.parent), rangeError := range, packError := bad));
            && n.p == p && n.src == m0.src && n.mode == m0.mode && n.packError == bad
            && (range ==> n.rangeError) && (bad || Landed(m0, n))
            && (!bad && range == m0.rangeError ==> Settled(m0, n, p))
  {
    AdvanceKeepsErrors(m0.(p := p, num := NumOf(m0.parent), rangeError := range, packError := bad));
    if !bad { AdvanceLands(m0, p, NumOf(m0.parent), range); }
  }

  /** What the whole loop and its pop() say about the field, error by error. */
  ghost predicate Decides(reader: Reader, s: Schema, m0: Machine, m: Machine, vs: seq<Value>)
    requires m0.p <= |m0.src|
  {
    var d := Dec(View(reader, s), m0.src[m0.p..]);
    && (d.Some? ==> d.value.used == m.p - m0.p && m.rangeError == m0.rangeError
                    && !Missed(m) && CountAllowed(s, m.index)
                    && (reader.Reading? ==> ListV(vs) == d.value.value))
    && (d.None? ==> Lost(reader, m) || Missed(m) || !CountAllowed(s, m.index))
  }

  lemma LoopDecides(reader: Reader, s: Schema, m0: Machine, m: Machine, vs: seq<Value>, seen: seq<Value>)
    requires m0.p <= |m0.src| && Legal(s)
    requires LoopInv(reader, s, m0, m, vs, seen) && m.cur.None? && !m.packError
    ensures Decides(reader, s, m0, m, vs)
  {
    if m0.p <= m.p <= |m.src| && Pending(reader, s, m0, m, seen) { LoopEnds(reader, s, m0, m, seen); }
  }

  lemma PopOfError(m: Machine)
    requires m.packError && m.mode.Unpacking?
    ensures var n := Pop(m); n.packError && n.p == m.p && n.src == m.src && n.mode == m.mode
    ensures m.rangeError ==> Pop(m).rangeError
  {
  }

  predicate Missed(m: Machine) {
    m.popMark != 0 && m.p != m.popMark
  }

  lemma AdvanceIgnoresCur(m: Machine, c: Option<Schema>)
    ensures Advance(m.(cur := c)) == Advance(m)
  {
  }

  /** Leaving an unpacked record restores what push() saved and moves the cursor. */
  lemma PopLands(s: Schema, m0: Machine, m: Machine)
    requires m0.mode.Unpacking? && m0.cur == Some(s) && !m0.packError
    requires m.mode == m0.mode && m.src == m0.src && m.p >= m0.p
    requires Inside(s, m0, m) && m.cur.None? && !m.packError
    ensures Pop(m) == Advance(m0.(p := m.p, num := NumOf(m0.parent), rangeError := m.rangeError,
                                  packError := Missed(m) || !CountAllowed(s, m.index)))
  {
    var within := m.parent.value;
    assert within == s || within.Record?;
    var checked := m.(packError := Missed(m) || !CountAllowed(within, m.index));
    var landed := m0.(p := m.p, num := NumOf(m0.parent), rangeError := m.rangeError,
                      packError := Missed(m) || !CountAllowed(s, m.index));
    assert m.stack[1..] == m0.stack;
    assert Leave(checked, within) == landed.(cur := Some(within));
    AdvanceIgnoresCur(landed, Some(within));
  }

  lemma PopProgress(s: Schema, m0: Machine, m: Machine)
    requires Legal(s) && Inside(s, m0, m) && Progress(s, m0, m) && m.cur.None? && Positive(s)
    ensures m.p > m0.p
  {
    match s
    case Record(fields) => assert fields[m.index..] == [];
    case _ =>
  }

  /** At the end of the loop the decoder accepts exactly when pop() does. */
  lemma LoopEnds(reader: Reader, s: Schema, m0: Machine, m: Machine, seen: seq<Value>)
    requires Legal(s) && m0.p <= m.p <= |m.src|
    requires Inside(s, m0, m) && m.cur.None? && Pending(reader, s, m0, m, seen)
    ensures Dec(View(reader, s), m.src[m0.p..])
         == if !Missed(m) && CountAllowed(s, m.index) && m.parent.value.Switch? == false
            then Some(Parsed(ListV(seen), m.p - m0.p)) else None
  {
    hide FromLe, HasLimits, Leaps, Dec, DecCount, DecSpan, SpanSplit;
    assert seen + [] == seen;
    match s
    case Num(_, _, _) =>
    case Text(_, _) =>
    case Array(elem, _) =>
      ViewKeeps(reader, elem);
      if LengthBytes(s) == 0 { CountEnds(View(reader, s), m0, m, seen); }
      else { SpanEnds(s, View(reader, elem), m0, m, seen); }
    case Record(fields) => assert ViewAll(reader, fields)[m.index..] == [];
    case Switch(_, _, _) =>
      if m.parent != Some(s) { assert ViewAll(reader, m.parent.value.fields)[m.index..] == []; }
  }

  lemma CountEnds(w: Schema, m0: Machine, m: Machine, seen: seq<Value>)
    requires w.Array? && OneValue(w.size) && LengthBytes(w) == 0
    requires m.index == w.size[0].lo && m0.p <= m.p <= |m.src| && PendingCount(w, m0, m, seen)
    ensures CountAllowed(w, m.index)
    ensures Dec(w, m.src[m0.p..]) == Some(Parsed(ListV(seen), m.p - m0.p))
  {
    assert seen + [] == seen;
    assert w.size[0].lo <= m.index <= w.size[0].hi;
  }

  /** When the loop stops short of the announced end, the decoder fails too. */
  lemma SpanEnds(s: Schema, elem: Schema, m0: Machine, m: Machine, seen: seq<Value>)
    requires Legal(s) && s.Array? && LengthBytes(s) > 0
    requires Legal(elem) && FixedSize(elem) == FixedSize(s.elem)
    requires InSpan(m, s, m0) && m.cur.None? && m0.p <= m.p <= |m.src| && PendingSpan(Array(elem, s.size), m0, m, seen)
    ensures Dec(Array(elem, s.size), m.src[m0.p..])
         == if m.p == m.popMark && CountAllowed(s, m.index) then Some(Parsed(ListV(seen), m.p - m0.p)) else None
  {
    var b, l := m.src[m0.p..], LengthBytes(s);
    assert b[..l] == m.src[m0.p..m0.p + l];
    assert b[l..] == m.src[m0.p + l..];
    assert seen + [] == seen;
    if m.p < m.popMark { ShortSpan(s, elem, m0, m, seen); }
  }

  lemma ShortSpan(s: Schema, elem: Schema, m0: Machine, m: Machine, seen: seq<Value>)
    requires Legal(s) && s.Array? && LengthBytes(s) > 0 && m0.p <= m.p <= |m.src|
    requires Legal(elem) && FixedSize(elem) == FixedSize(s.elem)
    requires InSpan(m, s, m0) && m.cur.None? && m.p < m.popMark && PendingSpan(Array(elem, s.size), m0, m, seen)
    ensures var r := DecSpan(elem, m.src[m0.p + LengthBytes(s)..], Span(m.src, m0.p, LengthBytes(s)));
            r.Some? ==> !CountAllowed(s, |r.value.value|)
  {
    hide Legal, FromLe, Dec, FixedSize;
    if FixedSize(elem).Some? { ShortFixedSpan(s, elem, m0, m, seen); }
  }

  lemma ShortFixedSpan(s: Schema, elem: Schema, m0: Machine, m: Machine, seen: seq<Value>)
    requires Legal(s) && s.Array? && LengthBytes(s) > 0 && m0.p <= m.p <= |m.src|
    requires Legal(elem) && FixedSize(elem) == FixedSize(s.elem) && FixedSize(elem).Some?
    requires InSpan(m, s, m0) && m.cur.None? && m.p < m.popMark && PendingSpan(Array(elem, s.size), m0, m, seen)
    ensures var r := DecSpan(elem, m.src[m0.p + LengthBytes(s)..], Span(m.src, m0.p, LengthBytes(s)));
            r.Some? ==> !CountAllowed(s, |r.value.value|)
  {
    hide Legal, FromLe, Dec, FixedSize;
    var span, z := Span(m.src, m0.p, LengthBytes(s)), FixedSize(elem).value;
    PositiveElem(s);
    WholeElements(span, z, m.index);
    if m.num == CalcNested(s, span) {
      assert m.index >= span / z;
      assert m.popMark - m.p < z;
      if Dec(elem, m.src[m.p..]).Some? { FixedSizeIsExact(elem, m.src[m.p..]); }
    }
  }

  lemma WholeElements(span: nat, z: nat, k: nat)
    requires z > 0
    ensures k >= span / z ==> span < k * z + z
  {
    if k >= span / z {
      assert span == z * (span / z) + span % z;
      assert z * (span / z) <= z * k;
    }
  }
}
