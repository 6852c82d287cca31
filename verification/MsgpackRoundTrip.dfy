/** From a PV structure to tokens, to an object, and back: exactly when the way back gives the structure. */
module MsgpackRoundTrip {
  import opened Types
  import opened PvData
  import opened Msgpack

  // ---------------------------------------------------------------- the object a structure stands for

  function ScalarObject(v: Scalar, t: ScalarType): Object
    requires ScalarFits(v, t)
  {
    match t
    case Boolean => Bool(v.b)
    case Float => Float32(v.f.bits)
    case Double => Float64(v.f.bits)
    case String => Str(v.s)
    case _ => Object.Int(v.i)
  }

  function ElementObject(v: Scalar, t: ScalarType): Object
    requires ScalarFits(v, t)
  {
    if t == Short then Object.Int(v.i % 0x1_0000) else ScalarObject(v, t)
  }

  function ElementObjects(vs: seq<Scalar>, t: ScalarType): seq<Object>
    requires forall i :: 0 <= i < |vs| ==> ScalarFits(vs[i], t)
  {
    seq(|vs|, i requires 0 <= i < |vs| => ElementObject(vs[i], t))
  }

  function FieldObject(pv: PV, d: FieldDesc): Object
    requires Fits(pv, d)
    decreases pv, 2
  {
    match d
    case ScalarDesc(t) => ScalarObject(pv.v, t)
    case ScalarArrayDesc(t) => Array(ElementObjects(pv.vs, t))
    case StructDesc(ms) => StructObject(pv, ms)
    case StructArrayDesc(ms) => Array(StructObjects(pv.elems, ms))
    case UnionDesc(ms) => UnionObject(pv, ms)
    case UnionArrayDesc(ms) => Array(UnionObjects(pv.elems, ms))
  }

  function StructObject(pv: PV, ms: seq<Member>): Object
    requires pv.StructPV? && StructFits(pv.fields, ms)
    decreases pv, 1
  {
    Map(MemberEntries(pv.fields, ms))
  }

  function MemberEntries(fields: seq<PV>, ms: seq<Member>): (es: seq<Entry>)
    requires StructFits(fields, ms)
    ensures |es| == |ms|
    decreases fields
  {
    seq(|ms|, i requires 0 <= i < |ms| => Entry(Str(ms[i].name), FieldObject(fields[i], ms[i].desc)))
  }

  function StructObjects(elems: seq<PV>, ms: seq<Member>): (os: seq<Object>)
    requires forall i :: 0 <= i < |elems| ==> elems[i].StructPV? && StructFits(elems[i].fields, ms)
    ensures |os| == |elems|
    decreases elems
  {
    seq(|elems|, i requires 0 <= i < |elems| => StructObject(elems[i], ms))
  }

  function UnionObject(pv: PV, ms: seq<Member>): Object
    requires Fits(pv, UnionDesc(ms))
    decreases pv, 1
  {
    if pv.UndefinedPV? then Map([Entry(Str(""), Nil)])
    else Map([Entry(Str(ms[pv.sel].name), FieldObject(pv.value, ms[pv.sel].desc))])
  }

  function UnionObjects(elems: seq<PV>, ms: seq<Member>): (os: seq<Object>)
    requires forall i :: 0 <= i < |elems| ==> Fits(elems[i], UnionDesc(ms))
    ensures |os| == |elems|
    decreases elems
  {
    seq(|elems|, i requires 0 <= i < |elems| => UnionObject(elems[i], ms))
  }

  // ---------------------------------------------------------------- the tokens decode to that object

  lemma DecodeScalar(v: Scalar, t: ScalarType, rest: seq<Token>)
    requires ScalarFits(v, t)
    ensures Decode([PackedScalar(v, t)] + rest) == Some((ScalarObject(v, t), rest))
    ensures Decode([PackedElement(v, t)] + rest) == Some((ElementObject(v, t), rest))
  {
    assert ([PackedScalar(v, t)] + rest)[1..] == rest;
    assert ([PackedElement(v, t)] + rest)[1..] == rest;
  }

  /** Decoding n objects and then m more is decoding n + m. */
  lemma {:induction false} DecodeManyAppend(n: nat, ts: seq<Token>, os: seq<Object>, mid: seq<Token>, o: Object, rest: seq<Token>)
    requires DecodeMany(n, ts) == Some((os, mid)) && Decode(mid) == Some((o, rest))
    ensures DecodeMany(n + 1, ts) == Some((os + [o], rest))
  {
    if n == 0 {
      assert DecodeMany(0, rest) == Some(([], rest));
      assert [o] + [] == [] + [o];
    } else {
      var first := Decode(ts).value;
      var more := DecodeMany(n - 1, first.1).value;
      DecodeManyAppend(n - 1, first.1, more.0, mid, o, rest);
      assert [first.0] + (more.0 + [o]) == ([first.0] + more.0) + [o];
    }
  }

  lemma {:induction false} DecodePairsAppend(n: nat, ts: seq<Token>, es: seq<Entry>, mid: seq<Token>, key: Object, mid2: seq<Token>,
                                             val: Object, rest: seq<Token>)
    requires DecodePairs(n, ts) == Some((es, mid)) && Decode(mid) == Some((key, mid2)) && Decode(mid2) == Some((val, rest))
    ensures DecodePairs(n + 1, ts) == Some((es + [Entry(key, val)], rest))
  {
    if n == 0 {
      assert DecodePairs(0, rest) == Some(([], rest));
      assert [Entry(key, val)] + [] == [] + [Entry(key, val)];
    } else {
      var k := Decode(ts).value;
      var v := Decode(k.1).value;
      var more := DecodePairs(n - 1, v.1).value;
      DecodePairsAppend(n - 1, v.1, more.0, mid, key, mid2, val, rest);
      assert [Entry(k.0, v.0)] + (more.0 + [Entry(key, val)]) == ([Entry(k.0, v.0)] + more.0) + [Entry(key, val)];
    }
  }

  lemma {:induction false} DecodeElements(vs: seq<Scalar>, t: ScalarType, n: nat, rest: seq<Token>)
    requires n <= |vs| && forall i :: 0 <= i < |vs| ==> ScalarFits(vs[i], t)
    ensures DecodeMany(n, PackedElements(vs, t, n) + rest) == Some((ElementObjects(vs, t)[..n], rest))
  {
    if n == 0 {
      assert [] + rest == rest;
    } else {
      var last := [PackedElement(vs[n - 1], t)];
      assert PackedElements(vs, t, n) + rest == PackedElements(vs, t, n - 1) + (last + rest);
      DecodeElements(vs, t, n - 1, last + rest);
      DecodeScalar(vs[n - 1], t, rest);
      assert ElementObjects(vs, t)[..n] == ElementObjects(vs, t)[..n - 1] + [ElementObject(vs[n - 1], t)];
      DecodeManyAppend(n - 1, PackedElements(vs, t, n) + rest, ElementObjects(vs, t)[..n - 1], last + rest,
                       ElementObject(vs[n - 1], t), rest);
    }
  }

  /** An array is its head and its elements. */
  lemma DecodeArray(n: nat, body: seq<Token>, os: seq<Object>, rest: seq<Token>)
    requires |os| == n && DecodeMany(n, body + rest) == Some((os[..n], rest))
    ensures Decode([ArrayHead(n)] + body + rest) == Some((Array(os), rest))
  {
    var ts := [ArrayHead(n)] + body + rest;
    assert ts[0] == ArrayHead(n) && ts[1..] == body + rest && os[..n] == os;
  }

  lemma DecodeMap(n: nat, body: seq<Token>, es: seq<Entry>, rest: seq<Token>)
    requires |es| == n && DecodePairs(n, body + rest) == Some((es[..n], rest))
    ensures Decode([MapHead(n)] + body + rest) == Some((Map(es), rest))
  {
    var ts := [MapHead(n)] + body + rest;
    assert ts[0] == MapHead(n) && ts[1..] == body + rest && es[..n] == es;
  }

  lemma {:induction false} DecodeField(pv: PV, d: FieldDesc, rest: seq<Token>)
    requires Fits(pv, d)
    ensures Decode(PackedField(pv, d) + rest) == Some((FieldObject(pv, d), rest))
    decreases pv, 2
  {
    match d
    case ScalarDesc(t) => DecodeScalar(pv.v, t, rest);
    case ScalarArrayDesc(t) =>
      DecodeElements(pv.vs, t, |pv.vs|, rest);
      DecodeArray(|pv.vs|, PackedElements(pv.vs, t, |pv.vs|), ElementObjects(pv.vs, t), rest);
    case StructDesc(ms) => DecodeStruct(pv, ms, rest);
    case StructArrayDesc(ms) =>
      DecodeStructs(pv.elems, ms, |pv.elems|, rest);
      DecodeArray(|pv.elems|, PackedStructs(pv.elems, ms, |pv.elems|), StructObjects(pv.elems, ms), rest);
    case UnionDesc(ms) => DecodeUnion(pv, ms, rest);
    case UnionArrayDesc(ms) =>
      DecodeUnions(pv.elems, ms, |pv.elems|, rest);
      DecodeArray(|pv.elems|, PackedUnions(pv.elems, ms, |pv.elems|), UnionObjects(pv.elems, ms), rest);
  }

  lemma {:induction false} DecodeStruct(pv: PV, ms: seq<Member>, rest: seq<Token>)
    requires pv.StructPV? && StructFits(pv.fields, ms)
    ensures Decode(PackedStruct(pv, ms) + rest) == Some((StructObject(pv, ms), rest))
    decreases pv, 1
  {
    DecodeMembers(pv.fields, ms, |ms|, rest);
    DecodeMap(|ms|, PackedMembers(pv.fields, ms, |ms|), MemberEntries(pv.fields, ms), rest);
  }

  lemma {:induction false} DecodeMembers(fields: seq<PV>, ms: seq<Member>, n: nat, rest: seq<Token>)
    requires StructFits(fields, ms) && n <= |ms|
    ensures DecodePairs(n, PackedMembers(fields, ms, n) + rest) == Some((MemberEntries(fields, ms)[..n], rest))
    decreases fields, n
  {
    if n == 0 {
      assert [] + rest == rest;
    } else {
      var key := [StrToken(ms[n - 1].name)];
      var val := PackedField(fields[n - 1], ms[n - 1].desc);
      assert PackedMembers(fields, ms, n) + rest == PackedMembers(fields, ms, n - 1) + (key + (val + rest));
      DecodeMembers(fields, ms, n - 1, key + (val + rest));
      assert (key + (val + rest))[1..] == val + rest;
      DecodeField(fields[n - 1], ms[n - 1].desc, rest);
      assert MemberEntries(fields, ms)[..n] == MemberEntries(fields, ms)[..n - 1] + [MemberEntries(fields, ms)[n - 1]];
      DecodePairsAppend(n - 1, PackedMembers(fields, ms, n) + rest, MemberEntries(fields, ms)[..n - 1], key + (val + rest),
                        Str(ms[n - 1].name), val + rest, FieldObject(fields[n - 1], ms[n - 1].desc), rest);
    }
  }

  lemma {:induction false} DecodeStructs(elems: seq<PV>, ms: seq<Member>, n: nat, rest: seq<Token>)
    requires n <= |elems| && forall i :: 0 <= i < |elems| ==> elems[i].StructPV? && StructFits(elems[i].fields, ms)
    ensures DecodeMany(n, PackedStructs(elems, ms, n) + rest) == Some((StructObjects(elems, ms)[..n], rest))
    decreases elems, n
  {
    if n == 0 {
      assert [] + rest == rest;
    } else {
      var last := PackedStruct(elems[n - 1], ms);
      assert PackedStructs(elems, ms, n) + rest == PackedStructs(elems, ms, n - 1) + (last + rest);
      DecodeStructs(elems, ms, n - 1, last + rest);
      DecodeStruct(elems[n - 1], ms, rest);
      assert StructObjects(elems, ms)[..n] == StructObjects(elems, ms)[..n - 1] + [StructObject(elems[n - 1], ms)];
      DecodeManyAppend(n - 1, PackedStructs(elems, ms, n) + rest, StructObjects(elems, ms)[..n - 1], last + rest,
                       StructObject(elems[n - 1], ms), rest);
    }
  }

  /** A union is a map of one entry: a name and what `val` decodes to. */
  lemma DecodeOneEntry(name: string, val: seq<Token>, o: Object, rest: seq<Token>)
    requires Decode(val + rest) == Some((o, rest))
    ensures Decode([MapHead(1), StrToken(name)] + val + rest) == Some((Map([Entry(Str(name), o)]), rest))
  {
    var key := [StrToken(name)];
    var body := key + val;
    assert [MapHead(1), StrToken(name)] + val + rest == [MapHead(1)] + body + rest;
    assert (body + rest)[1..] == val + rest;
    assert DecodePairs(0, body + rest) == Some(([], body + rest));
    DecodePairsAppend(0, body + rest, [], body + rest, Str(name), val + rest, o, rest);
    assert [] + [Entry(Str(name), o)] == [Entry(Str(name), o)][..1];
    DecodeMap(1, body, [Entry(Str(name), o)], rest);
  }

  lemma {:induction false} DecodeUnion(pv: PV, ms: seq<Member>, rest: seq<Token>)
    requires Fits(pv, UnionDesc(ms))
    ensures Decode(PackedUnion(pv, ms) + rest) == Some((UnionObject(pv, ms), rest))
    decreases pv, 1
  {
    if pv.UndefinedPV? {
      assert ([NilToken] + rest)[1..] == rest;
      DecodeOneEntry("", [NilToken], Nil, rest);
      assert PackedUnion(pv, ms) == [MapHead(1), StrToken("")] + [NilToken];
    } else {
      DecodeField(pv.value, ms[pv.sel].desc, rest);
      DecodeOneEntry(ms[pv.sel].name, PackedField(pv.value, ms[pv.sel].desc), FieldObject(pv.value, ms[pv.sel].desc), rest);
    }
  }

  lemma {:induction false} DecodeUnions(elems: seq<PV>, ms: seq<Member>, n: nat, rest: seq<Token>)
    requires n <= |elems| && forall i :: 0 <= i < |elems| ==> Fits(elems[i], UnionDesc(ms))
    ensures DecodeMany(n, PackedUnions(elems, ms, n) + rest) == Some((UnionObjects(elems, ms)[..n], rest))
    decreases elems, n
  {
    if n == 0 {
      assert [] + rest == rest;
    } else {
      var last := PackedUnion(elems[n - 1], ms);
      assert PackedUnions(elems, ms, n) + rest == PackedUnions(elems, ms, n - 1) + (last + rest);
      DecodeUnions(elems, ms, n - 1, last + rest);
      DecodeUnion(elems[n - 1], ms, rest);
      assert UnionObjects(elems, ms)[..n] == UnionObjects(elems, ms)[..n - 1] + [UnionObject(elems[n - 1], ms)];
      DecodeManyAppend(n - 1, PackedUnions(elems, ms, n) + rest, UnionObjects(elems, ms)[..n - 1], last + rest,
                       UnionObject(elems[n - 1], ms), rest);
    }
  }

  // ---------------------------------------------------------------- which values survive

  /** No short array has a negative element. */
  predicate ShortsSurvive(vs: seq<Scalar>, t: ScalarType) {
    t == Short ==> forall i :: 0 <= i < |vs| && vs[i].IntV? ==> vs[i].i >= 0
  }

  /**
    The values that come back unchanged: short arrays are not negative, and a union is undefined at
    most as a field of a structure, not inside a union or an array of unions.
   */
  ghost predicate Survives(pv: PV, d: FieldDesc)
    requires Fits(pv, d)
    decreases pv, 0
  {
    match d
    case ScalarDesc(_) => true
    case ScalarArrayDesc(t) => ShortsSurvive(pv.vs, t)
    case StructDesc(ms) => FieldsSurvive(pv.fields, ms)
    case StructArrayDesc(ms) => forall i :: 0 <= i < |pv.elems| ==> FieldsSurvive(pv.elems[i].fields, ms)
    case UnionDesc(ms) => pv.UndefinedPV? || MemberSurvives(pv.value, ms[pv.sel].desc)
    case UnionArrayDesc(ms) =>
      forall i :: 0 <= i < |pv.elems| ==>
        pv.elems[i].UnionPV? && MemberSurvives(pv.elems[i].value, ms[pv.elems[i].sel].desc)
  }

  ghost predicate FieldsSurvive(fields: seq<PV>, ms: seq<Member>)
    requires StructFits(fields, ms)
    decreases fields
  {
    forall i :: 0 <= i < |ms| ==> Survives(fields[i], ms[i].desc)
  }

  ghost predicate MemberSurvives(pv: PV, d: FieldDesc)
    requires Fits(pv, d)
    decreases pv, 1
  {
    !pv.UndefinedPV? && Survives(pv, d)
  }

  /** What unpacking the object of a value must yield: the value, or null for an undefined union. */
  ghost predicate ComesBack(pv: PV, d: FieldDesc)
    requires Fits(pv, d)
  {
    Unpacked(FieldObject(pv, d), d) == Ok(if pv.UndefinedPV? then None else Some(pv))
  }

  // ---------------------------------------------------------------- the way back

  lemma IndexOfMember(ms: seq<Member>, i: nat)
    requires ProperMembers(ms) && i < |ms|
    ensures IndexOf(ms, ms[i].name) == Some(i)
  {
    var r := IndexOf(ms, ms[i].name);
    assert r.Some? && ms[r.value].name == ms[i].name;
  }

  lemma EmptyNameUnknown(ms: seq<Member>)
    requires ProperMembers(ms)
    ensures IndexOf(ms, "").None?
  {
  }

  lemma ScalarBack(v: Scalar, t: ScalarType)
    requires ScalarFits(v, t)
    ensures AsScalar(ScalarObject(v, t), t) == Ok(v)
    ensures t == Short && v.i < 0 ==> AsScalar(ElementObject(v, t), t).Failed?
    ensures t == Short && v.i >= 0 ==> AsScalar(ElementObject(v, t), t) == Ok(v)
  {
  }

  lemma {:induction false} ScalarsBack(vs: seq<Scalar>, t: ScalarType, n: nat)
    requires n <= |vs| && forall i :: 0 <= i < |vs| ==> ScalarFits(vs[i], t)
    ensures var r := AsScalars(ElementObjects(vs, t), t, n);
            if ShortsSurvive(vs[..n], t) then r == Ok(vs[..n]) else r.Failed?
  {
    if n > 0 {
      ScalarsBack(vs, t, n - 1);
      ScalarBack(vs[n - 1], t);
      assert vs[..n] == vs[..n - 1] + [vs[n - 1]];
      if t == Short {
        assert ShortsSurvive(vs[..n], t) ==> vs[..n][n - 1].i >= 0;
        assert forall i :: 0 <= i < n - 1 ==> vs[..n - 1][i] == vs[..n][i];
      }
    }
  }

  ghost predicate FirstSurvive(fields: seq<PV>, ms: seq<Member>, n: nat)
    requires StructFits(fields, ms) && n <= |ms|
  {
    forall i :: 0 <= i < n ==> Survives(fields[i], ms[i].desc)
  }

  /** The first n fields are there, and the others still have their defaults. */
  ghost predicate FilledSoFar(r: Result<seq<PV>>, fields: seq<PV>, n: nat)
    requires r.Ok? ==> n <= |fields| == |r.value|
  {
    r.Ok? && forall i :: 0 <= i < n ==> r.value[i] == fields[i]
  }

  ghost predicate RestDefault(r: Result<seq<PV>>, ms: seq<Member>, n: nat) {
    r.Ok? ==> |r.value| == |ms| && forall i :: n <= i < |ms| ==> r.value[i] == Default(ms[i].desc)
  }

  /** The effect of one entry on the fields: the object of field n-1 is unpacked into place n-1. */
  function Placed(before: Result<seq<PV>>, v: Result<Option<PV>>, n: nat): Result<seq<PV>>
    requires before.Ok? ==> 0 < n <= |before.value|
  {
    if before.Failed? || v.Failed? then Failed
    else if v.value.None? then before
    else Ok(before.value[n - 1 := v.value.value])
  }

  lemma FilledStep(fields: seq<PV>, ms: seq<Member>, n: nat)
    requires StructFits(fields, ms) && ProperMembers(ms) && 0 < n <= |ms|
    ensures var es := MemberEntries(fields, ms);
            Filled(es, ms, n) == Placed(Filled(es, ms, n - 1),
                                        Unpacked(FieldObject(fields[n - 1], ms[n - 1].desc), ms[n - 1].desc), n)
  {
    var es := MemberEntries(fields, ms);
    IndexOfMember(ms, n - 1);
    assert es[n - 1] == Entry(Str(ms[n - 1].name), FieldObject(fields[n - 1], ms[n - 1].desc));
  }

  lemma PlacedSoFar(before: Result<seq<PV>>, pv: PV, d: FieldDesc, fields: seq<PV>, ms: seq<Member>, n: nat)
    requires 0 < n <= |ms| == |fields| && RestDefault(before, ms, n - 1)
    requires Fits(pv, d) && fields[n - 1] == pv && ms[n - 1].desc == d
    requires pv.UndefinedPV? ==> ComesBack(pv, d)
    ensures var r := Placed(before, Unpacked(FieldObject(pv, d), d), n);
            && RestDefault(r, ms, n)
            && (FilledSoFar(r, fields, n) <==> FilledSoFar(before, fields, n - 1) && ComesBack(pv, d))
  {
    if !ComesBack(pv, d) {
      UnpackedDiffers(pv, d);
    }
  }

  lemma OneMoreSurvives(fields: seq<PV>, ms: seq<Member>, n: nat)
    requires StructFits(fields, ms) && 0 < n <= |ms|
    ensures FirstSurvive(fields, ms, n) <==> FirstSurvive(fields, ms, n - 1) && Survives(fields[n - 1], ms[n - 1].desc)
  {
  }

  /** The first n fields were filled in, exactly if they all survive; the others keep their defaults. */
  ghost predicate BackSoFar(r: Result<seq<PV>>, fields: seq<PV>, ms: seq<Member>, n: nat)
    requires StructFits(fields, ms) && n <= |ms|
  {
    RestDefault(r, ms, n) && (FilledSoFar(r, fields, n) <==> FirstSurvive(fields, ms, n))
  }

  lemma BackStep(before: Result<seq<PV>>, fields: seq<PV>, ms: seq<Member>, n: nat)
    requires StructFits(fields, ms) && 0 < n <= |ms| && BackSoFar(before, fields, ms, n - 1)
    requires Survives(fields[n - 1], ms[n - 1].desc) <==> ComesBack(fields[n - 1], ms[n - 1].desc)
    ensures BackSoFar(Placed(before, Unpacked(FieldObject(fields[n - 1], ms[n - 1].desc), ms[n - 1].desc), n), fields, ms, n)
  {
    PlacedSoFar(before, fields[n - 1], ms[n - 1].desc, fields, ms, n);
    OneMoreSurvives(fields, ms, n);
  }

  lemma FieldsBackStep(fields: seq<PV>, ms: seq<Member>, n: nat)
    requires StructFits(fields, ms) && ProperMembers(ms) && 0 < n <= |ms|
    requires BackSoFar(Filled(MemberEntries(fields, ms), ms, n - 1), fields, ms, n - 1)
    requires Survives(fields[n - 1], ms[n - 1].desc) <==> ComesBack(fields[n - 1], ms[n - 1].desc)
    ensures BackSoFar(Filled(MemberEntries(fields, ms), ms, n), fields, ms, n)
  {
    FilledStep(fields, ms, n);
    BackStep(Filled(MemberEntries(fields, ms), ms, n - 1), fields, ms, n);
  }

  lemma {:induction false} FieldsBack(fields: seq<PV>, ms: seq<Member>, n: nat)
    requires StructFits(fields, ms) && ProperMembers(ms) && n <= |ms|
    ensures BackSoFar(Filled(MemberEntries(fields, ms), ms, n), fields, ms, n)
    decreases fields, n
  {
    if n > 0 {
      FieldsBack(fields, ms, n - 1);
      FieldBack(fields[n - 1], ms[n - 1].desc);
      FieldsBackStep(fields, ms, n);
    }
  }

  /** A value that does not come back is not replaced by an equal default either. */
  lemma UnpackedDiffers(pv: PV, d: FieldDesc)
    requires Fits(pv, d) && !ComesBack(pv, d) && !pv.UndefinedPV?
    ensures var v := Unpacked(FieldObject(pv, d), d);
            v.Ok? ==> (if v.value.None? then Default(d) else v.value.value) != pv
  {
    if d.UnionDesc? {
      assert Default(d) == UndefinedPV;
    }
  }

  lemma {:induction false} FieldBack(pv: PV, d: FieldDesc)
    requires Fits(pv, d) && ProperDesc(d)
    ensures Survives(pv, d) <==> ComesBack(pv, d)
    decreases pv, 2
  {
    match d
    case ScalarDesc(t) => ScalarBack(pv.v, t);
    case ScalarArrayDesc(t) =>
      ScalarsBack(pv.vs, t, |pv.vs|);
      assert pv.vs[..|pv.vs|] == pv.vs;
    case StructDesc(ms) => StructBack(pv, ms);
    case StructArrayDesc(ms) =>
      StructsBack(pv.elems, ms, |pv.elems|);
      assert pv.elems[..|pv.elems|] == pv.elems;
    case UnionDesc(ms) => UnionBack(pv, ms);
    case UnionArrayDesc(ms) =>
      UnionsBack(pv.elems, ms, |pv.elems|);
      assert pv.elems[..|pv.elems|] == pv.elems;
  }

  lemma {:induction false} StructBack(pv: PV, ms: seq<Member>)
    requires pv.StructPV? && StructFits(pv.fields, ms) && ProperMembers(ms)
    ensures FieldsSurvive(pv.fields, ms) <==> Rebuilt(StructObject(pv, ms), ms) == Ok(pv)
    decreases pv, 1
  {
    FieldsBack(pv.fields, ms, |ms|);
    var r := Filled(MemberEntries(pv.fields, ms), ms, |ms|);
    if FilledSoFar(r, pv.fields, |ms|) {
      assert r.value == pv.fields;
    }
  }

  /** One more rebuilt element. */
  function Extended(before: Result<seq<PV>>, one: Result<PV>): Result<seq<PV>> {
    if before.Failed? || one.Failed? then Failed else Ok(before.value + [one.value])
  }

  lemma ExtendedIs(before: Result<seq<PV>>, one: Result<PV>, elems: seq<PV>, n: nat)
    requires 0 < n <= |elems| && (before.Ok? ==> |before.value| == n - 1)
    ensures Extended(before, one) == Ok(elems[..n]) <==> before == Ok(elems[..n - 1]) && one == Ok(elems[n - 1])
  {
    assert elems[..n] == elems[..n - 1] + [elems[n - 1]];
    if before.Ok? && one.Ok? {
      assert (before.value + [one.value])[..n - 1] == before.value;
      assert (before.value + [one.value])[n - 1] == one.value;
    }
  }

  ghost predicate StructsSurvive(elems: seq<PV>, ms: seq<Member>, n: nat)
    requires n <= |elems| && forall i :: 0 <= i < |elems| ==> elems[i].StructPV? && StructFits(elems[i].fields, ms)
  {
    forall i :: 0 <= i < n ==> FieldsSurvive(elems[i].fields, ms)
  }

  /** The first n structures come back exactly if they survive. */
  ghost predicate StructsMatch(r: Result<seq<PV>>, elems: seq<PV>, ms: seq<Member>, n: nat)
    requires n <= |elems| && forall i :: 0 <= i < |elems| ==> elems[i].StructPV? && StructFits(elems[i].fields, ms)
  {
    (r.Ok? ==> |r.value| == n) && (StructsSurvive(elems, ms, n) <==> r == Ok(elems[..n]))
  }

  lemma StructsStep(before: Result<seq<PV>>, one: Result<PV>, elems: seq<PV>, ms: seq<Member>, n: nat)
    requires 0 < n <= |elems| && forall i :: 0 <= i < |elems| ==> elems[i].StructPV? && StructFits(elems[i].fields, ms)
    requires StructsMatch(before, elems, ms, n - 1) && (FieldsSurvive(elems[n - 1].fields, ms) <==> one == Ok(elems[n - 1]))
    ensures StructsMatch(Extended(before, one), elems, ms, n)
  {
    ExtendedIs(before, one, elems, n);
  }

  lemma {:induction false} StructsBack(elems: seq<PV>, ms: seq<Member>, n: nat)
    requires n <= |elems| && ProperMembers(ms)
    requires forall i :: 0 <= i < |elems| ==> elems[i].StructPV? && StructFits(elems[i].fields, ms)
    ensures StructsMatch(RebuiltMany(StructObjects(elems, ms), ms, n), elems, ms, n)
    decreases elems, n
  {
    if n > 0 {
      StructsBack(elems, ms, n - 1);
      StructBack(elems[n - 1], ms);
      var os := StructObjects(elems, ms);
      StructsStep(RebuiltMany(os, ms, n - 1), Rebuilt(StructObject(elems[n - 1], ms), ms), elems, ms, n);
    }
  }

  lemma {:induction false} UnionBack(pv: PV, ms: seq<Member>)
    requires Fits(pv, UnionDesc(ms)) && ProperMembers(ms)
    ensures var r := UnpackedUnion(UnionObject(pv, ms), ms);
            && (pv.UndefinedPV? ==> r == Ok(None))
            && (pv.UnionPV? ==> (MemberSurvives(pv.value, ms[pv.sel].desc) <==> r == Ok(Some(pv))) && (r.Ok? ==> r.value.Some?))
    decreases pv, 1
  {
    if pv.UndefinedPV? {
      EmptyNameUnknown(ms);
    } else {
      IndexOfMember(ms, pv.sel);
      FieldBack(pv.value, ms[pv.sel].desc);
    }
  }

  ghost predicate UnionsSurvive(elems: seq<PV>, ms: seq<Member>, n: nat)
    requires n <= |elems| && forall i :: 0 <= i < |elems| ==> Fits(elems[i], UnionDesc(ms))
  {
    forall i :: 0 <= i < n ==>
      assert Fits(elems[i], UnionDesc(ms));
      elems[i].UnionPV? && MemberSurvives(elems[i].value, ms[elems[i].sel].desc)
  }

  /** One more union: an undefined one is dropped, so the result is too short from then on. */
  lemma UnionStep(before: Result<seq<PV>>, u: Result<Option<PV>>, elems: seq<PV>, n: nat)
    requires 0 < n <= |elems| && (before.Ok? ==> |before.value| <= n - 1)
    ensures var r := if before.Failed? || u.Failed? then Failed else if u.value.None? then before else Ok(before.value + [u.value.value]);
            && (r.Ok? ==> |r.value| <= n)
            && (r == Ok(elems[..n]) <==> before == Ok(elems[..n - 1]) && u == Ok(Some(elems[n - 1])))
  {
    if before.Ok? && |before.value| == n - 1 && u.Ok? && u.value.Some? {
      ExtendedIs(before, Ok(u.value.value), elems, n);
    }
  }

  lemma OneMoreUnion(elems: seq<PV>, ms: seq<Member>, n: nat)
    requires 0 < n <= |elems| && forall i :: 0 <= i < |elems| ==> Fits(elems[i], UnionDesc(ms))
    ensures UnionsSurvive(elems, ms, n) <==>
              UnionsSurvive(elems, ms, n - 1) && elems[n - 1].UnionPV? && elems[n - 1].sel < |ms|
              && Fits(elems[n - 1].value, ms[elems[n - 1].sel].desc)
              && MemberSurvives(elems[n - 1].value, ms[elems[n - 1].sel].desc)
  {
    assert Fits(elems[n - 1], UnionDesc(ms));
  }

  /** The first n unions come back exactly if they survive. */
  ghost predicate UnionsMatch(r: Result<seq<PV>>, elems: seq<PV>, ms: seq<Member>, n: nat)
    requires n <= |elems| && forall i :: 0 <= i < |elems| ==> Fits(elems[i], UnionDesc(ms))
  {
    (r.Ok? ==> |r.value| <= n) && (UnionsSurvive(elems, ms, n) <==> r == Ok(elems[..n]))
  }

  /** What became of one union is right. */
  ghost predicate UnionMatches(u: Result<Option<PV>>, pv: PV, ms: seq<Member>)
    requires Fits(pv, UnionDesc(ms))
  {
    && (pv.UndefinedPV? ==> u == Ok(None))
    && (pv.UnionPV? ==> (MemberSurvives(pv.value, ms[pv.sel].desc) <==> u == Ok(Some(pv))) && (u.Ok? ==> u.value.Some?))
  }

  lemma UnionsStep(before: Result<seq<PV>>, u: Result<Option<PV>>, elems: seq<PV>, ms: seq<Member>, n: nat)
    requires 0 < n <= |elems| && forall i :: 0 <= i < |elems| ==> Fits(elems[i], UnionDesc(ms))
    requires UnionsMatch(before, elems, ms, n - 1) && UnionMatches(u, elems[n - 1], ms)
    ensures UnionsMatch(if before.Failed? || u.Failed? then Failed else if u.value.None? then before else Ok(before.value + [u.value.value]),
                        elems, ms, n)
  {
    OneMoreUnion(elems, ms, n);
    UnionStep(before, u, elems, n);
  }

  lemma {:induction false} UnionsBack(elems: seq<PV>, ms: seq<Member>, n: nat)
    requires n <= |elems| && ProperMembers(ms)
    requires forall i :: 0 <= i < |elems| ==> Fits(elems[i], UnionDesc(ms))
    ensures UnionsMatch(UnpackedUnions(UnionObjects(elems, ms), ms, n), elems, ms, n)
    decreases elems, n
  {
    if n > 0 {
      UnionsBack(elems, ms, n - 1);
      UnionBack(elems[n - 1], ms);
      var os := UnionObjects(elems, ms);
      UnionsStep(UnpackedUnions(os, ms, n - 1), UnpackedUnion(UnionObject(elems[n - 1], ms), ms), elems, ms, n);
    }
  }

  // ---------------------------------------------------------------- main results

  /** The packed structure, followed by anything, decodes to one object and leaves exactly the rest. */
  lemma PackedDecodes(pv: PV, ms: seq<Member>, rest: seq<Token>)
    requires pv.StructPV? && StructFits(pv.fields, ms)
    ensures Decode(PackedStruct(pv, ms) + rest) == Some((StructObject(pv, ms), rest))
  {
    DecodeStruct(pv, ms, rest);
  }

  /** Packing, decoding and unpacking under the same schema gives the structure back exactly for the values that survive. */
  lemma RoundTripIff(pv: PV, ms: seq<Member>, rest: seq<Token>)
    requires pv.StructPV? && StructFits(pv.fields, ms) && ProperMembers(ms)
    ensures var d := Decode(PackedStruct(pv, ms) + rest);
            && d.Some? && d.value.1 == rest
            && (Rebuilt(d.value.0, ms) == Ok(pv) <==> FieldsSurvive(pv.fields, ms))
  {
    DecodeStruct(pv, ms, rest);
    StructBack(pv, ms);
  }

  /** A short array with a negative element: the converter throws on its own output. */
  lemma NegativeShortFails()
    ensures var ms := [Member("value", ScalarArrayDesc(Short))];
            var pv := StructPV([ScalarArrayPV([IntV(-1)])]);
            && StructFits(pv.fields, ms)
            && Rebuilt(StructObject(pv, ms), ms).Failed?
  {
    var ms := [Member("value", ScalarArrayDesc(Short))];
    var pv := StructPV([ScalarArrayPV([IntV(-1)])]);
    var entries := MemberEntries(pv.fields, ms);
    assert entries[0].val == Array([Object.Int(65535)]);
    ScalarsBack([IntV(-1)], Short, 1);
    IndexOfMember(ms, 0);
    assert Filled(entries, ms, 1).Failed?;
  }
}
