/**
  MsgpackEpicsConverter at the level of MessagePack tokens and objects: the packer writes tokens, a
  decoder turns tokens into an object, and the converter rebuilds a PV structure from the object.
 */
module Msgpack {
  import opened Types
  import opened PvData

  /** What the packer writes: a scalar, or the head of an array or a map. */
  datatype Token =
    | NilToken
    | BoolToken(b: bool)
    | IntToken(i: int)
    | Float32Token(bits: int)
    | Float64Token(bits: int)
    | StrToken(s: string)
    | ArrayHead(n: nat)
    | MapHead(n: nat)

  datatype Object =
    | Nil
    | Bool(b: bool)
    | Int(i: int)
    | Float32(bits: int)
    | Float64(bits: int)
    | Str(s: string)
    | Array(elems: seq<Object>)
    | Map(entries: seq<Entry>)

  datatype Entry = Entry(key: Object, val: Object)

  /** Ok, or what the converter throws (or the null it dereferences). */
  datatype Result<+T> = Ok(value: T) | Failed

  // ---------------------------------------------------------------- packing

  function PackedScalar(v: Scalar, t: ScalarType): Token
    requires ScalarFits(v, t)
  {
    match t
    case Boolean => BoolToken(v.b)
    case Float => Float32Token(v.f.bits)
    case Double => Float64Token(v.f.bits)
    case String => StrToken(v.s)
    case _ => IntToken(v.i)
  }

  /** Elements of short arrays are read as unsigned 16-bit values. */
  function PackedElement(v: Scalar, t: ScalarType): Token
    requires ScalarFits(v, t)
  {
    if t == Short then IntToken(v.i % 0x1_0000) else PackedScalar(v, t)
  }

  function PackedElements(vs: seq<Scalar>, t: ScalarType, n: nat): seq<Token>
    requires n <= |vs| && forall i :: 0 <= i < |vs| ==> ScalarFits(vs[i], t)
  {
    if n == 0 then [] else PackedElements(vs, t, n - 1) + [PackedElement(vs[n - 1], t)]
  }

  function PackedField(pv: PV, d: FieldDesc): seq<Token>
    requires Fits(pv, d)
    decreases pv, 2
  {
    match d
    case ScalarDesc(t) => [PackedScalar(pv.v, t)]
    case ScalarArrayDesc(t) => [ArrayHead(|pv.vs|)] + PackedElements(pv.vs, t, |pv.vs|)
    case StructDesc(ms) => PackedStruct(pv, ms)
    case StructArrayDesc(ms) => [ArrayHead(|pv.elems|)] + PackedStructs(pv.elems, ms, |pv.elems|)
    case UnionDesc(ms) => PackedUnion(pv, ms)
    case UnionArrayDesc(ms) => [ArrayHead(|pv.elems|)] + PackedUnions(pv.elems, ms, |pv.elems|)
  }

  function PackedStruct(pv: PV, ms: seq<Member>): seq<Token>
    requires pv.StructPV? && StructFits(pv.fields, ms)
    decreases pv, 1
  {
    [MapHead(|ms|)] + PackedMembers(pv.fields, ms, |ms|)
  }

  function PackedMembers(fields: seq<PV>, ms: seq<Member>, n: nat): seq<Token>
    requires StructFits(fields, ms) && n <= |ms|
    decreases fields, n
  {
    if n == 0 then []
    else PackedMembers(fields, ms, n - 1) + ([StrToken(ms[n - 1].name)] + PackedField(fields[n - 1], ms[n - 1].desc))
  }

  function PackedStructs(elems: seq<PV>, ms: seq<Member>, n: nat): seq<Token>
    requires n <= |elems| && forall i :: 0 <= i < |elems| ==> elems[i].StructPV? && StructFits(elems[i].fields, ms)
    decreases elems, n
  {
    if n == 0 then [] else PackedStructs(elems, ms, n - 1) + PackedStruct(elems[n - 1], ms)
  }

  /** An undefined union has no selected name and packs as an empty name with nil. */
  function PackedUnion(pv: PV, ms: seq<Member>): seq<Token>
    requires Fits(pv, UnionDesc(ms))
    decreases pv, 1
  {
    if pv.UndefinedPV? then [MapHead(1), StrToken(""), NilToken]
    else [MapHead(1), StrToken(ms[pv.sel].name)] + PackedField(pv.value, ms[pv.sel].desc)
  }

  function PackedUnions(elems: seq<PV>, ms: seq<Member>, n: nat): seq<Token>
    requires n <= |elems| && forall i :: 0 <= i < |elems| ==> Fits(elems[i], UnionDesc(ms))
    decreases elems, n
  {
    if n == 0 then [] else PackedUnions(elems, ms, n - 1) + PackedUnion(elems[n - 1], ms)
  }

  // ---------------------------------------------------------------- the packer

  class Packer {
    var out: seq<Token>

    constructor ()
      ensures out == []
    {
      out := [];
    }

    method Pack(t: Token)
      modifies this
      ensures out == old(out) + [t]
    {
      out := out + [t];
    }
  }

  method EpicsToMsgpack(pv: PV, ms: seq<Member>, pk: Packer)
    requires pv.StructPV? && StructFits(pv.fields, ms)
    modifies pk
    ensures pk.out == old(pk.out) + PackedStruct(pv, ms)
    decreases pv, 1
  {
    pk.Pack(MapHead(|ms|));
    var i := 0;
    while i < |ms|
      invariant 0 <= i <= |ms|
      invariant pk.out == old(pk.out) + ([MapHead(|ms|)] + PackedMembers(pv.fields, ms, i))
    {
      pk.Pack(StrToken(ms[i].name));
      PackField(pv.fields[i], ms[i].desc, pk);
      i := i + 1;
    }
  }

  method PackField(pv: PV, d: FieldDesc, pk: Packer)
    requires Fits(pv, d)
    modifies pk
    ensures pk.out == old(pk.out) + PackedField(pv, d)
    decreases pv, 2
  {
    match d
    case ScalarDesc(t) =>
      pk.Pack(PackedScalar(pv.v, t));
    case ScalarArrayDesc(t) =>
      PackScalars(pv.vs, t, pk);
    case StructDesc(ms) =>
      EpicsToMsgpack(pv, ms, pk);
    case StructArrayDesc(ms) =>
      PackStructs(pv.elems, ms, pk);
    case UnionDesc(ms) =>
      PackUnion(pv, ms, pk);
    case UnionArrayDesc(ms) =>
      PackUnions(pv.elems, ms, pk);
  }

  // The arrays, element by element.

  method PackStructs(elems: seq<PV>, ms: seq<Member>, pk: Packer)
    requires forall i :: 0 <= i < |elems| ==> elems[i].StructPV? && StructFits(elems[i].fields, ms)
    modifies pk
    ensures pk.out == old(pk.out) + ([ArrayHead(|elems|)] + PackedStructs(elems, ms, |elems|))
    decreases elems, 2
  {
    pk.Pack(ArrayHead(|elems|));
    var i := 0;
    while i < |elems|
      invariant 0 <= i <= |elems|
      invariant pk.out == old(pk.out) + ([ArrayHead(|elems|)] + PackedStructs(elems, ms, i))
    {
      EpicsToMsgpack(elems[i], ms, pk);
      i := i + 1;
    }
  }

  method PackUnions(elems: seq<PV>, ms: seq<Member>, pk: Packer)
    requires forall i :: 0 <= i < |elems| ==> Fits(elems[i], UnionDesc(ms))
    modifies pk
    ensures pk.out == old(pk.out) + ([ArrayHead(|elems|)] + PackedUnions(elems, ms, |elems|))
    decreases elems, 2
  {
    pk.Pack(ArrayHead(|elems|));
    var i := 0;
    while i < |elems|
      invariant 0 <= i <= |elems|
      invariant pk.out == old(pk.out) + ([ArrayHead(|elems|)] + PackedUnions(elems, ms, i))
    {
      PackUnion(elems[i], ms, pk);
      i := i + 1;
    }
  }

  method PackScalars(vs: seq<Scalar>, t: ScalarType, pk: Packer)
    requires forall i :: 0 <= i < |vs| ==> ScalarFits(vs[i], t)
    modifies pk
    ensures pk.out == old(pk.out) + ([ArrayHead(|vs|)] + PackedElements(vs, t, |vs|))
  {
    pk.Pack(ArrayHead(|vs|));
    var i := 0;
    while i < |vs|
      invariant 0 <= i <= |vs|
      invariant pk.out == old(pk.out) + ([ArrayHead(|vs|)] + PackedElements(vs, t, i))
    {
      pk.Pack(PackedElement(vs[i], t));
      i := i + 1;
    }
  }

  method PackUnion(pv: PV, ms: seq<Member>, pk: Packer)
    requires Fits(pv, UnionDesc(ms))
    modifies pk
    ensures pk.out == old(pk.out) + PackedUnion(pv, ms)
    decreases pv, 1
  {
    pk.Pack(MapHead(1));
    if pv.UndefinedPV? {
      pk.Pack(StrToken(""));
      pk.Pack(NilToken);
    } else {
      pk.Pack(StrToken(ms[pv.sel].name));
      PackField(pv.value, ms[pv.sel].desc, pk);
    }
  }

  // ---------------------------------------------------------------- decoding tokens

  /** One object from the front of the tokens, and what follows it. */
  function Decode(ts: seq<Token>): (r: Option<(Object, seq<Token>)>)
    ensures r.Some? ==> |r.value.1| < |ts|
    decreases |ts|, 0
  {
    if ts == [] then None
    else
      match ts[0]
      case NilToken => Some((Nil, ts[1..]))
      case BoolToken(b) => Some((Bool(b), ts[1..]))
      case IntToken(i) => Some((Object.Int(i), ts[1..]))
      case Float32Token(bits) => Some((Float32(bits), ts[1..]))
      case Float64Token(bits) => Some((Float64(bits), ts[1..]))
      case StrToken(s) => Some((Str(s), ts[1..]))
      case ArrayHead(n) =>
        var r := DecodeMany(n, ts[1..]);
        if r.None? then None else Some((Array(r.value.0), r.value.1))
      case MapHead(n) =>
        var r := DecodePairs(n, ts[1..]);
        if r.None? then None else Some((Map(r.value.0), r.value.1))
  }

  function DecodeMany(n: nat, ts: seq<Token>): (r: Option<(seq<Object>, seq<Token>)>)
    ensures r.Some? ==> |r.value.1| <= |ts|
    decreases |ts|, n + 1
  {
    if n == 0 then Some(([], ts))
    else
      var first := Decode(ts);
      if first.None? then None
      else
        var rest := DecodeMany(n - 1, first.value.1);
        if rest.None? then None else Some(([first.value.0] + rest.value.0, rest.value.1))
  }

  function DecodePairs(n: nat, ts: seq<Token>): (r: Option<(seq<Entry>, seq<Token>)>)
    ensures r.Some? ==> |r.value.1| <= |ts|
    decreases |ts|, n + 1
  {
    if n == 0 then Some(([], ts))
    else
      var key := Decode(ts);
      if key.None? then None
      else
        var val := Decode(key.value.1);
        if val.None? then None
        else
          var rest := DecodePairs(n - 1, val.value.1);
          if rest.None? then None else Some(([Entry(key.value.0, val.value.0)] + rest.value.0, rest.value.1))
  }

  // ---------------------------------------------------------------- unpacking

  /** obj.as<T>() for the C++ type of a scalar. */
  function AsScalar(o: Object, t: ScalarType): Result<Scalar> {
    match t
    case Boolean => if o.Bool? then Ok(BoolV(o.b)) else Failed
    case String => if o.Str? then Ok(StringV(o.s)) else Failed
    case Float =>
      if o.Float32? then Ok(FloatV(Bits(o.bits)))
      else if o.Float64? then Ok(FloatV(OfOtherWidth(o.bits)))
      else if o.Int? then Ok(FloatV(OfInteger(o.i)))
      else Failed
    case Double =>
      if o.Float64? then Ok(FloatV(Bits(o.bits)))
      else if o.Float32? then Ok(FloatV(OfOtherWidth(o.bits)))
      else if o.Int? then Ok(FloatV(OfInteger(o.i)))
      else Failed
    case _ => if o.Int? && InRange(t, o.i) then Ok(IntV(o.i)) else Failed
  }

  function AsScalars(os: seq<Object>, t: ScalarType, n: nat): Result<seq<Scalar>>
    requires n <= |os|
  {
    if n == 0 then Ok([])
    else
      var before := AsScalars(os, t, n - 1);
      if before.Failed? then Failed
      else
        var v := AsScalar(os[n - 1], t);
        if v.Failed? then Failed else Ok(before.value + [v.value])
  }

  /** msgpackToEpics: a new structure, filled from the entries whose key the schema knows. */
  function Rebuilt(o: Object, ms: seq<Member>): Result<PV>
    decreases o, 1
  {
    if !o.Map? then Ok(StructPV(DefaultFields(ms)))
    else
      var fields := Filled(o.entries, ms, |o.entries|);
      if fields.Failed? then Failed else Ok(StructPV(fields.value))
  }

  /** The fields after the first n entries. */
  function Filled(entries: seq<Entry>, ms: seq<Member>, n: nat): (r: Result<seq<PV>>)
    requires n <= |entries|
    ensures r.Ok? ==> |r.value| == |ms|
    decreases entries, n
  {
    if n == 0 then Ok(DefaultFields(ms))
    else
      var before := Filled(entries, ms, n - 1);
      var kv := entries[n - 1];
      if before.Failed? || !kv.key.Str? then Failed
      else
        var at := IndexOf(ms, kv.key.s);
        if at.None? then before
        else
          assert kv in entries && kv.val < kv;
          var v := Unpacked(kv.val, ms[at.value].desc);
          if v.Failed? then Failed
          else if v.value.None? then before
          else Ok(before.value[at.value := v.value.value])
  }

  /** unpackMsgpackToPVField; Ok(None) is the null pointer it returns for what it does not understand. */
  function Unpacked(o: Object, d: FieldDesc): Result<Option<PV>>
    decreases o, 2
  {
    match d
    case ScalarDesc(t) =>
      var v := AsScalar(o, t);
      if v.Failed? then Failed else Ok(Some(ScalarPV(v.value)))
    case ScalarArrayDesc(t) =>
      if !o.Array? then Ok(Some(ScalarArrayPV([])))
      else
        var vs := AsScalars(o.elems, t, |o.elems|);
        if vs.Failed? then Failed else Ok(Some(ScalarArrayPV(vs.value)))
    case StructDesc(ms) =>
      var s := Rebuilt(o, ms);
      if s.Failed? then Failed else Ok(Some(s.value))
    case StructArrayDesc(ms) =>
      if !o.Array? then Failed
      else
        var ss := RebuiltMany(o.elems, ms, |o.elems|);
        if ss.Failed? then Failed else Ok(Some(StructArrayPV(ss.value)))
    case UnionDesc(ms) => UnpackedUnion(o, ms)
    case UnionArrayDesc(ms) =>
      if !o.Array? then Failed
      else
        var us := UnpackedUnions(o.elems, ms, |o.elems|);
        if us.Failed? then Failed else Ok(Some(UnionArrayPV(us.value)))
  }

  function RebuiltMany(os: seq<Object>, ms: seq<Member>, n: nat): Result<seq<PV>>
    requires n <= |os|
    decreases os, n
  {
    if n == 0 then Ok([])
    else
      var before := RebuiltMany(os, ms, n - 1);
      if before.Failed? then Failed
      else
        var s := Rebuilt(os[n - 1], ms);
        if s.Failed? then Failed else Ok(before.value + [s.value])
  }

  /** A one-entry map whose key names a member; anything else is null. A null member value is dereferenced. */
  function UnpackedUnion(o: Object, ms: seq<Member>): Result<Option<PV>>
    decreases o, 1
  {
    if !o.Map? || |o.entries| != 1 then Ok(None)
    else if !o.entries[0].key.Str? then Failed
    else
      var at := IndexOf(ms, o.entries[0].key.s);
      if at.None? then Ok(None)
      else
        var v := Unpacked(o.entries[0].val, ms[at.value].desc);
        if v.Failed? || v.value.None? then Failed else Ok(Some(UnionPV(at.value, v.value.value)))
  }

  /** Elements that are null are left out. */
  function UnpackedUnions(os: seq<Object>, ms: seq<Member>, n: nat): Result<seq<PV>>
    requires n <= |os|
    decreases os, n
  {
    if n == 0 then Ok([])
    else
      var before := UnpackedUnions(os, ms, n - 1);
      if before.Failed? then Failed
      else
        var u := UnpackedUnion(os[n - 1], ms);
        if u.Failed? then Failed else if u.value.None? then before else Ok(before.value + [u.value.value])
  }

  method MsgpackToEpics(o: Object, ms: seq<Member>) returns (r: Result<PV>)
    ensures r == Rebuilt(o, ms)
    decreases o, 1
  {
    var fields := DefaultFields(ms);
    if !o.Map? {
      return Ok(StructPV(fields));
    }
    var i := 0;
    while i < |o.entries|
      invariant 0 <= i <= |o.entries| && |fields| == |ms|
      invariant Filled(o.entries, ms, i) == Ok(fields)
    {
      var kv := o.entries[i];
      if !kv.key.Str? {
        FilledFails(o.entries, ms, i + 1, |o.entries|);
        return Failed;
      }
      var at := IndexOf(ms, kv.key.s);
      if at.Some? {
        var value := UnpackMsgpackToPVField(kv.val, ms[at.value].desc);
        if value.Failed? {
          FilledFails(o.entries, ms, i + 1, |o.entries|);
          return Failed;
        }
        if value.value.Some? {
          fields := fields[at.value := value.value.value];
        }
      }
      i := i + 1;
    }
    return Ok(StructPV(fields));
  }

  lemma {:induction false} FilledFails(entries: seq<Entry>, ms: seq<Member>, n: nat, m: nat)
    requires n <= m <= |entries| && Filled(entries, ms, n).Failed?
    ensures Filled(entries, ms, m).Failed?
  {
    if n < m {
      FilledFails(entries, ms, n, m - 1);
    }
  }

  lemma {:induction false} ScalarsFail(os: seq<Object>, t: ScalarType, n: nat, m: nat)
    requires n <= m <= |os| && AsScalars(os, t, n).Failed?
    ensures AsScalars(os, t, m).Failed?
  {
    if n < m {
      ScalarsFail(os, t, n, m - 1);
    }
  }

  lemma {:induction false} StructsFail(os: seq<Object>, ms: seq<Member>, n: nat, m: nat)
    requires n <= m <= |os| && RebuiltMany(os, ms, n).Failed?
    ensures RebuiltMany(os, ms, m).Failed?
  {
    if n < m {
      StructsFail(os, ms, n, m - 1);
    }
  }

  lemma {:induction false} UnionsFail(os: seq<Object>, ms: seq<Member>, n: nat, m: nat)
    requires n <= m <= |os| && UnpackedUnions(os, ms, n).Failed?
    ensures UnpackedUnions(os, ms, m).Failed?
  {
    if n < m {
      UnionsFail(os, ms, n, m - 1);
    }
  }

  method UnpackMsgpackToPVField(o: Object, d: FieldDesc) returns (r: Result<Option<PV>>)
    ensures r == Unpacked(o, d)
    decreases o, 2
  {
    match d
    case ScalarDesc(t) =>
      var v := AsScalar(o, t);
      r := if v.Failed? then Failed else Ok(Some(ScalarPV(v.value)));
    case ScalarArrayDesc(t) =>
      r := UnpackScalars(o, t);
    case StructDesc(ms) =>
      var s := MsgpackToEpics(o, ms);
      r := if s.Failed? then Failed else Ok(Some(s.value));
    case StructArrayDesc(ms) =>
      r := UnpackStructs(o, ms);
    case UnionDesc(ms) =>
      r := UnpackUnion(o, ms);
    case UnionArrayDesc(ms) =>
      r := UnpackUnions(o, ms);
  }

  method UnpackScalars(o: Object, t: ScalarType) returns (r: Result<Option<PV>>)
    ensures r == Unpacked(o, ScalarArrayDesc(t))
  {
    var vals: seq<Scalar> := [];
    if o.Array? {
      var i := 0;
      while i < |o.elems|
        invariant 0 <= i <= |o.elems|
        invariant AsScalars(o.elems, t, i) == Ok(vals)
      {
        var v := AsScalar(o.elems[i], t);
        if v.Failed? {
          ScalarsFail(o.elems, t, i + 1, |o.elems|);
          return Failed;
        }
        vals := vals + [v.value];
        i := i + 1;
      }
    }
    r := Ok(Some(ScalarArrayPV(vals)));
  }

  method UnpackStructs(o: Object, ms: seq<Member>) returns (r: Result<Option<PV>>)
    ensures r == Unpacked(o, StructArrayDesc(ms))
    decreases o, 1
  {
    if !o.Array? {
      return Failed;
    }
    var elements: seq<PV> := [];
    var i := 0;
    while i < |o.elems|
      invariant 0 <= i <= |o.elems|
      invariant RebuiltMany(o.elems, ms, i) == Ok(elements)
    {
      var s := MsgpackToEpics(o.elems[i], ms);
      if s.Failed? {
        StructsFail(o.elems, ms, i + 1, |o.elems|);
        return Failed;
      }
      elements := elements + [s.value];
      i := i + 1;
    }
    r := Ok(Some(StructArrayPV(elements)));
  }

  method UnpackUnion(o: Object, ms: seq<Member>) returns (r: Result<Option<PV>>)
    ensures r == UnpackedUnion(o, ms)
    decreases o, 1
  {
    if !o.Map? || |o.entries| != 1 {
      return Ok(None);
    }
    if !o.entries[0].key.Str? {
      return Failed;
    }
    var at := IndexOf(ms, o.entries[0].key.s);
    if at.None? {
      return Ok(None);
    }
    var value := UnpackMsgpackToPVField(o.entries[0].val, ms[at.value].desc);
    if value.Failed? || value.value.None? {
      return Failed;
    }
    r := Ok(Some(UnionPV(at.value, value.value.value)));
  }

  method UnpackUnions(o: Object, ms: seq<Member>) returns (r: Result<Option<PV>>)
    ensures r == Unpacked(o, UnionArrayDesc(ms))
    decreases o, 1
  {
    if !o.Array? {
      return Failed;
    }
    var result: seq<PV> := [];
    var i := 0;
    while i < |o.elems|
      invariant 0 <= i <= |o.elems|
      invariant UnpackedUnions(o.elems, ms, i) == Ok(result)
    {
      var u := UnpackUnion(o.elems[i], ms);
      if u.Failed? {
        UnionsFail(o.elems, ms, i + 1, |o.elems|);
        return Failed;
      }
      if u.value.Some? {
        result := result + [u.value.value];
      }
      i := i + 1;
    }
    r := Ok(Some(UnionArrayPV(result)));
  }
}
