/** The two kinds of error that a packer tells apart: the calls do not fit the field
    (`packError`), or a value is not allowed in it (`rangeError`). */
module DcErrors {
  import opened Common
  import opened DcBytes
  import opened DcSchema
  import opened DcMachine
  import DcLayout

  /** The bytes of a switch's key, which has just been passed. */
  function KeyBytes(m: Machine): Bytes {
    if m.mode.Packing? then Slice(m.out, m.pushMark, |m.out|) else Slice(m.src, m.pushMark, m.p)
  }

  /** The key of a switch has been passed, and selects nothing. */
  predicate SelectsNothing(m: Machine) {
    && m.parent.Some? && m.parent.value.Switch? && 0 <= m.num <= m.index + 1
    && DcLayout.NoCase(m.parent.value.cases, KeyBytes(m)) && m.parent.value.other.NoDefault?
  }

  /** Going on to the next field never fails, except behind a key that selects nothing. */
  lemma AdvanceErrors(m: Machine)
    ensures Advance(m).packError == m.packError
    ensures Advance(m).rangeError <==> m.rangeError || SelectsNothing(m)
    ensures Advance(m).out == m.out && Advance(m).p == m.p && Advance(m).mode == m.mode && Advance(m).src == m.src
  {
    if m.parent.Some? && m.parent.value.Switch? {
      var s := m.parent.value;
      DcLayout.CaseIsSelected(s.cases, s.other, KeyBytes(m));
      assert KeyBytes(m.(index := m.index + 1, cur := None)) == KeyBytes(m);
    }
  }

  /** Numbers, strings and bytes are appended, whether they are allowed or not. A number out
      of its type or its limits is a range error. */
  lemma NumberErrors(m: Machine, v: int) returns (k: Machine)
    requires m.cur.Some? && m.cur.value.Num? && m.cur.value.width > 0
    ensures PackNum(m, v) == Advance(k) && k == m.(out := k.out, rangeError := k.rangeError)
    ensures var s := m.cur.value;
            k.rangeError <==> m.rangeError || !DcLayout.Allowed(s.limits, v)
                              || !(if s.signed then -128 * Pow256(s.width - 1) <= v < 128 * Pow256(s.width - 1)
                                   else 0 <= v < Pow256(s.width))
    ensures |k.out| == |m.out| + m.cur.value.width && m.out <= k.out
  {
    var s := m.cur.value;
    k := m.(rangeError := m.rangeError || !InWidth(v, s.width, s.signed) || !InRange(s.limits, v),
            out := m.out + Le(v % Pow256(s.width), s.width));
    DcLayout.AllowedIsInRange(s.limits, v);
  }

  /** A string or blob of a length that is not allowed is one as well; a length that does not
      fit is only noticed in two bytes. */
  lemma TextErrors(m: Machine, text: Bytes) returns (k: Machine)
    requires m.cur.Some? && m.cur.value.Text?
    ensures PackText(m, text) == Advance(k) && k == m.(out := k.out, rangeError := k.rangeError)
    ensures var s := m.cur.value;
            && (k.rangeError <==> m.rangeError || !DcLayout.Allowed(s.lengths, |text|) || (s.prefix == 2 && |text| > 0xFFFF))
            && |k.out| == |m.out| + (if DcLayout.OnlyOne(s.lengths) then 0 else s.prefix) + |text|
            && m.out <= k.out && k.out[|k.out| - |text|..] == text
  {
    var s := m.cur.value;
    var l := LengthBytes(s);
    k := m.(rangeError := m.rangeError || !InRange(s.lengths, |text|) || (s.prefix == 2 && |text| >= Pow256(2)),
            out := m.out + Le(|text| % Pow256(l), l) + text);
    DcLayout.AllowedIsInRange(s.lengths, |text|);
    assert Pow256(1) == 256;
  }

  /** A value of another kind is a pack error, and bytes are taken as they are. */
  lemma OtherErrors(m: Machine, data: Bytes)
    ensures Refuse(m) == Advance(m.(packError := true)) && PackLiteral(m, data) == Advance(m.(out := m.out + data))
  {
  }

  /** Only what has nested fields can be entered, and only if its length is there. */
  lemma PushErrors(m: Machine)
    ensures var n := Push(m);
            && n.rangeError == m.rangeError
            && (n.packError <==>
                  || m.packError || m.cur.None? || m.cur.value.Num?
                  || (m.mode.Unpacking? && LengthBytes(m.cur.value) > 0 && m.p + LengthBytes(m.cur.value) > |m.src|))
  {
  }

  /** What is left must be complete: no field still to come, no bytes left over or read too
      far, and as many elements as the array allows. A packed length of more than 65535 is a
      range error. */
  lemma PopErrors(m: Machine) returns (k: Machine)
    ensures Pop(m) == Advance(k) && k.mode == m.mode && k.src == m.src && k.p == m.p
    ensures k.packError <==>
              || m.packError || m.stack == [] || m.parent.None?
              || (m.cur.Some? && m.num >= 0)
              || (m.mode.Unpacking? && m.popMark != 0 && m.p != m.popMark)
              || (m.parent.value.Array? && !DcLayout.Allowed(m.parent.value.size, m.index))
    ensures k.rangeError <==>
              || m.rangeError
              || (&& m.stack != [] && m.parent.Some? && m.mode.Packing? && LengthBytes(m.parent.value) == 2
                  && |m.out| >= m.pushMark + 2 + 0x1_0000)
  {
    assert Pow256(2) == 0x1_0000 by { assert Pow256(1) == 256; }
    var early := m.cur.Some? && m.num >= 0;
    var missed := m.mode.Unpacking? && m.popMark != 0 && m.p != m.popMark;
    var n := m.(packError := m.packError || early || missed);
    if n.stack == [] || n.parent.None? {
      k := n.(packError := true);
    } else {
      var s := n.parent.value;
      if s.Array? { DcLayout.AllowedIsInRange(s.size, n.index); }
      k := Leave(ClosePrefix(n.(packError := n.packError || !CountAllowed(s, n.index)), s), s);
    }
  }

  /** Reading and validating a number that is cut off is a pack error, and one that is not
      allowed a range error. */
  lemma ReadNumberErrors(m: Machine, s: Schema)
    requires s.Num?
    ensures var n := ReadNum(m, s).0;
            if m.p + s.width > |m.src| then n == m.(packError := true)
            else && n == m.(p := m.p + s.width, rangeError := n.rangeError)
                 && (n.rangeError <==> m.rangeError || !DcLayout.Allowed(s.limits, ReadNum(m, s).1.i))
    ensures ReadNum(m, s).1.IntV?
  {
    if m.p + s.width <= |m.src| { DcLayout.AllowedIsInRange(s.limits, ReadNum(m, s).1.i); }
  }

  /** The same for strings and blobs: a length that is not allowed is a range error, even if
      it reaches beyond the end as well, which is a pack error. */
  lemma ReadTextErrors(m: Machine, s: Schema)
    requires s.Text? && !DcLayout.OnlyOne(s.lengths) && m.p + s.prefix <= |m.src|
    ensures var n := ReadText(m, s).0;
            var length := FromLe(m.src[m.p..m.p + s.prefix]);
            && (n.rangeError <==> m.rangeError || !DcLayout.Allowed(s.lengths, length))
            && (n.packError <==> m.packError || m.p + s.prefix + length > |m.src|)
            && (!n.packError ==> n.p == m.p + s.prefix + length)
  {
    DcLayout.AllowedIsInRange(s.lengths, FromLe(m.src[m.p..m.p + s.prefix]));
  }

  /** Skipping never looks at a value, and notices only the end of the bytes. */
  lemma SkipErrors(m: Machine, s: Schema)
    ensures SkipField(m, s).Some? ==>
              var n := SkipField(m, s).value;
              && n == m.(p := n.p, packError := n.packError) && (n.packError ==> m.packError || n.p > |m.src| || n.p == m.p)
              && (n.p > |m.src| && n.p > m.p ==> n.packError)
  {
  }
}
