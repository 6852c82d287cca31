/** PV structures: field descriptions, values, and when a value fits a description. */
module PvData {
  import opened Types

  datatype ScalarType =
    | Boolean | Byte | Short | Int | Long | UByte | UShort | UInt | ULong | Float | Double | String

  /** A floating-point value is opaque: its bits, or the number a conversion started from. */
  datatype FloatValue = Bits(bits: int) | OfInteger(i: int) | OfOtherWidth(bits: int)

  datatype Scalar = BoolV(b: bool) | IntV(i: int) | FloatV(f: FloatValue) | StringV(s: string)

  datatype Member = Member(name: string, desc: FieldDesc)

  datatype FieldDesc =
    | ScalarDesc(t: ScalarType)
    | ScalarArrayDesc(t: ScalarType)
    | StructDesc(members: seq<Member>)
    | StructArrayDesc(members: seq<Member>)
    | UnionDesc(members: seq<Member>)
    | UnionArrayDesc(members: seq<Member>)

  /** The values of a structure are in the order of its members; `sel` is the selected member of a union. */
  datatype PV =
    | ScalarPV(v: Scalar)
    | ScalarArrayPV(vs: seq<Scalar>)
    | StructPV(fields: seq<PV>)
    | StructArrayPV(elems: seq<PV>)
    | UndefinedPV
    | UnionPV(sel: nat, value: PV)
    | UnionArrayPV(elems: seq<PV>)

  predicate InRange(t: ScalarType, i: int) {
    match t
    case Byte => -0x80 <= i < 0x80
    case Short => -0x8000 <= i < 0x8000
    case Int => -0x8000_0000 <= i < 0x8000_0000
    case Long => -0x8000_0000_0000_0000 <= i < 0x8000_0000_0000_0000
    case UByte => 0 <= i < 0x100
    case UShort => 0 <= i < 0x1_0000
    case UInt => 0 <= i < 0x1_0000_0000
    case ULong => 0 <= i < 0x1_0000_0000_0000_0000
    case _ => false
  }

  predicate ScalarFits(v: Scalar, t: ScalarType) {
    match t
    case Boolean => v.BoolV?
    case Float => v.FloatV? && v.f.Bits?
    case Double => v.FloatV? && v.f.Bits?
    case String => v.StringV?
    case _ => v.IntV? && InRange(t, v.i)
  }

  /** Names are unique and not empty, at every level. */
  ghost predicate ProperMembers(ms: seq<Member>)
    decreases ms
  {
    && (forall i, j :: 0 <= i < j < |ms| ==> ms[i].name != ms[j].name)
    && (forall i :: 0 <= i < |ms| ==> ms[i].name != "" && ProperDesc(ms[i].desc))
  }

  ghost predicate ProperDesc(d: FieldDesc)
    decreases d
  {
    (d.StructDesc? || d.StructArrayDesc? || d.UnionDesc? || d.UnionArrayDesc?) ==> ProperMembers(d.members)
  }

  ghost predicate StructFits(fields: seq<PV>, ms: seq<Member>)
    decreases fields
  {
    |fields| == |ms| && forall i :: 0 <= i < |fields| ==> Fits(fields[i], ms[i].desc)
  }

  /** The value has the type the description gives. */
  ghost predicate Fits(pv: PV, d: FieldDesc)
    decreases pv
  {
    match d
    case ScalarDesc(t) => pv.ScalarPV? && ScalarFits(pv.v, t)
    case ScalarArrayDesc(t) => pv.ScalarArrayPV? && forall i :: 0 <= i < |pv.vs| ==> ScalarFits(pv.vs[i], t)
    case StructDesc(ms) => pv.StructPV? && StructFits(pv.fields, ms)
    case StructArrayDesc(ms) =>
      pv.StructArrayPV? && forall i :: 0 <= i < |pv.elems| ==> pv.elems[i].StructPV? && StructFits(pv.elems[i].fields, ms)
    case UnionDesc(ms) => pv.UndefinedPV? || (pv.UnionPV? && pv.sel < |ms| && Fits(pv.value, ms[pv.sel].desc))
    case UnionArrayDesc(ms) =>
      pv.UnionArrayPV? && forall i :: 0 <= i < |pv.elems| ==>
        pv.elems[i].UndefinedPV? ||
        (pv.elems[i].UnionPV? && pv.elems[i].sel < |ms| && Fits(pv.elems[i].value, ms[pv.elems[i].sel].desc))
  }

  function DefaultScalar(t: ScalarType): Scalar {
    match t
    case Boolean => BoolV(false)
    case Float => FloatV(Bits(0))
    case Double => FloatV(Bits(0))
    case String => StringV("")
    case _ => IntV(0)
  }

  /** What createPVStructure puts in a new field. */
  function Default(d: FieldDesc): PV
    decreases d
  {
    match d
    case ScalarDesc(t) => ScalarPV(DefaultScalar(t))
    case ScalarArrayDesc(_) => ScalarArrayPV([])
    case StructDesc(ms) => StructPV(DefaultFields(ms))
    case StructArrayDesc(_) => StructArrayPV([])
    case UnionDesc(_) => UndefinedPV
    case UnionArrayDesc(_) => UnionArrayPV([])
  }

  function DefaultFields(ms: seq<Member>): (fs: seq<PV>)
    ensures |fs| == |ms|
    decreases ms
  {
    seq(|ms|, i requires 0 <= i < |ms| => Default(ms[i].desc))
  }

  /** getField: the position of the member with this name. */
  function IndexOf(ms: seq<Member>, name: string): (r: Option<nat>)
    ensures r.Some? ==> r.value < |ms| && ms[r.value].name == name
    ensures r.None? ==> forall i :: 0 <= i < |ms| ==> ms[i].name != name
  {
    if ms == [] then None
    else if ms[|ms| - 1].name == name then Some(|ms| - 1)
    else IndexOf(ms[..|ms| - 1], name)
  }
}
