/** Fields with the types and names a .dc file gives them, and what they look like to the
    packer. DcSchema forgets what only the printer and the database care about. */
module DcField {
  import opened Common
  import opened DcBytes
  import DcSchema

  /** Integer types have divisor 1 and no modulus. `IntArray` is int8array and its like,
      `Pairs` is uint32uint8array. */
  datatype Field =
    | Int(width: nat, signed: bool, limits: seq<DcSchema.Interval>)
    | Str(lengths: seq<DcSchema.Interval>)
    | Blob(prefix: nat, lengths: seq<DcSchema.Interval>)
    | IntArray(width: nat, signed: bool)
    | Pairs
    | List(elem: Field, size: seq<DcSchema.Interval>)
    | Struct(members: seq<Member>)
    | Atomic(members: seq<Member>)
    | Switch(key: Member, cases: seq<Case>, other: Otherwise)

  datatype Member = Member(name: string, field: Field)

  datatype Case = Case(value: Bytes, members: seq<Member>)

  datatype Otherwise = NoDefault | Default(members: seq<Member>)

  function Wire(f: Field): DcSchema.Schema
    decreases f, 0
  {
    match f
    case Int(width, signed, limits) => DcSchema.Num(width, signed, limits)
    case Str(lengths) => DcSchema.Text(2, lengths)
    case Blob(prefix, lengths) => DcSchema.Text(prefix, lengths)
    case IntArray(width, signed) => DcSchema.Array(DcSchema.Num(width, signed, []), [])
    case Pairs => DcSchema.Array(DcSchema.Record([DcSchema.Num(4, false, []), DcSchema.Num(1, false, [])]), [])
    case List(elem, size) => DcSchema.Array(Wire(elem), size)
    case Struct(members) => DcSchema.Record(WireAll(members))
    case Atomic(members) => DcSchema.Record(WireAll(members))
    case Switch(key, cases, other) =>
      DcSchema.Switch(Wire(key.field), WireCases(cases),
                      if other.Default? then DcSchema.Default(WireAll(other.members)) else DcSchema.NoDefault)
  }

  function WireAll(members: seq<Member>): (s: seq<DcSchema.Schema>)
    ensures |s| == |members|
    decreases members, 0
  {
    if members == [] then [] else [Wire(members[0].field)] + WireAll(members[1..])
  }

  function WireCases(cases: seq<Case>): (s: seq<DcSchema.Case>)
    ensures |s| == |cases|
    decreases cases, 0
  {
    if cases == [] then [] else [DcSchema.Case(cases[0].value, WireAll(cases[0].members))] + WireCases(cases[1..])
  }
}
