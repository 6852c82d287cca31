/**
  Objects that the converter has not packed itself: entries in any order, some of them unknown, and
  values of other types than the schema asks for.
 */
module MsgpackForeign {
  import opened Types
  import opened PvData
  import opened Msgpack

  // ---------------------------------------------------------------- entries in any order

  /** Entry j is for member i. */
  predicate IsFor(entries: seq<Entry>, j: nat, ms: seq<Member>, i: nat) {
    j < |entries| && i < |ms| && entries[j].key == Str(ms[i].name)
  }

  /** All keys are strings, and what is for a member can be read as one. */
  ghost predicate Readable(entries: seq<Entry>, ms: seq<Member>, n: nat)
    requires n <= |entries|
  {
    forall j: nat :: j < n ==> EntryReads(entries, j, ms)
  }

  ghost predicate EntryReads(entries: seq<Entry>, j: nat, ms: seq<Member>)
    requires j < |entries|
  {
    entries[j].key.Str? && forall i: nat :: IsFor(entries, j, ms, i) ==> Unpacked(entries[j].val, ms[i].desc).Ok?
  }

  /** Entry j gives member i a value, not null. */
  predicate Gives(entries: seq<Entry>, j: nat, ms: seq<Member>, i: nat) {
    IsFor(entries, j, ms, i) && Unpacked(entries[j].val, ms[i].desc).Ok? && Unpacked(entries[j].val, ms[i].desc).value.Some?
  }

  /** The field has the value of the last entry that gives it one, or its default. */
  ghost predicate HasLastValue(entries: seq<Entry>, ms: seq<Member>, n: nat, i: nat, field: PV)
    requires i < |ms|
  {
    || ((forall j: nat :: j < n ==> !Gives(entries, j, ms, i)) && field == Default(ms[i].desc))
    || exists j: nat :: j < n && Gives(entries, j, ms, i) && field == Unpacked(entries[j].val, ms[i].desc).value.value
                        && forall k: nat :: j < k < n ==> !Gives(entries, k, ms, i)
  }

  ghost predicate AllLast(entries: seq<Entry>, ms: seq<Member>, n: nat, fields: seq<PV>) {
    |fields| == |ms| && forall i: nat :: i < |ms| ==> HasLastValue(entries, ms, n, i, fields[i])
  }

  lemma LastValueMore(entries: seq<Entry>, ms: seq<Member>, n: nat, i: nat, field: PV)
    requires n < |entries| && i < |ms|
    requires if Gives(entries, n, ms, i) then field == Unpacked(entries[n].val, ms[i].desc).value.value
             else HasLastValue(entries, ms, n, i, field)
    ensures HasLastValue(entries, ms, n + 1, i, field)
  {
    if !Gives(entries, n, ms, i) && exists j: nat :: j < n && Gives(entries, j, ms, i) {
      var j: nat :| j < n && Gives(entries, j, ms, i) && field == Unpacked(entries[j].val, ms[i].desc).value.value
                    && forall k: nat :: j < k < n ==> !Gives(entries, k, ms, i);
      assert forall k: nat :: j < k < n + 1 ==> !Gives(entries, k, ms, i);
    }
  }

  /** An entry can be read if it is for no member, or can be read as that one. */
  lemma EntryReadsIff(entries: seq<Entry>, j: nat, ms: seq<Member>)
    requires ProperMembers(ms) && j < |entries| && entries[j].key.Str?
    ensures var at := IndexOf(ms, entries[j].key.s);
            && (EntryReads(entries, j, ms) <==> (at.Some? ==> Unpacked(entries[j].val, ms[at.value].desc).Ok?))
            && forall i: nat :: IsFor(entries, j, ms, i) <==> at == Some(i)
  {
    var at := IndexOf(ms, entries[j].key.s);
    if at.Some? {
      assert IsFor(entries, j, ms, at.value);
    }
  }

  /**
    A map is read exactly if all its keys are strings and what it has for each member can be read;
    then every field has the value of the last entry that gives it one, or its default. Entries for
    no member do not matter, nor does the order of entries for different ones.
   */
  lemma {:induction false} FilledIff(entries: seq<Entry>, ms: seq<Member>, n: nat)
    requires ProperMembers(ms) && n <= |entries|
    ensures Filled(entries, ms, n).Ok? <==> Readable(entries, ms, n)
    ensures Filled(entries, ms, n).Ok? ==> AllLast(entries, ms, n, Filled(entries, ms, n).value)
  {
    if n > 0 {
      FilledIff(entries, ms, n - 1);
      assert Readable(entries, ms, n) <==> Readable(entries, ms, n - 1) && EntryReads(entries, n - 1, ms);
      if entries[n - 1].key.Str? {
        EntryReadsIff(entries, n - 1, ms);
        if Filled(entries, ms, n).Ok? {
          OneMoreEntry(entries, ms, n - 1);
        }
      }
    }
  }

  lemma OneMoreEntry(entries: seq<Entry>, ms: seq<Member>, j: nat)
    requires ProperMembers(ms) && j < |entries| && entries[j].key.Str? && Filled(entries, ms, j + 1).Ok?
    requires AllLast(entries, ms, j, Filled(entries, ms, j).value)
    ensures AllLast(entries, ms, j + 1, Filled(entries, ms, j + 1).value)
  {
    EntryReadsIff(entries, j, ms);
    var n, fields := j + 1, Filled(entries, ms, j + 1).value;
    forall i: nat | i < |ms| ensures HasLastValue(entries, ms, n, i, fields[i]) {
      LastValueMore(entries, ms, j, i, fields[i]);
    }
  }

  /** A scalar member that the map has nothing for is false, zero or empty. */
  lemma MissingIsZero(entries: seq<Entry>, ms: seq<Member>, i: nat)
    requires ProperMembers(ms) && i < |ms| && ms[i].desc.ScalarDesc? && Filled(entries, ms, |entries|).Ok?
    requires forall j :: 0 <= j < |entries| ==> entries[j].key != Str(ms[i].name)
    ensures var field := Filled(entries, ms, |entries|).value[i];
            && field.ScalarPV?
            && field.v == match ms[i].desc.t
                          case Boolean => BoolV(false)
                          case String => StringV("")
                          case Float => FloatV(Bits(0))
                          case Double => FloatV(Bits(0))
                          case _ => IntV(0)
  {
    FilledIff(entries, ms, |entries|);
    var field := Filled(entries, ms, |entries|).value[i];
    assert HasLastValue(entries, ms, |entries|, i, field);
  }

  lemma {:induction false} FilledPrefix(a: seq<Entry>, b: seq<Entry>, ms: seq<Member>, n: nat)
    requires n <= |a| && n <= |b| && a[..n] == b[..n]
    ensures Filled(a, ms, n) == Filled(b, ms, n)
  {
    if n > 0 {
      assert a[..n - 1] == a[..n][..n - 1] && b[..n - 1] == b[..n][..n - 1];
      FilledPrefix(a, b, ms, n - 1);
      assert a[n - 1] == a[..n][n - 1] == b[n - 1];
    }
  }

  lemma {:induction false} FilledWithout(before: seq<Entry>, e: Entry, after: seq<Entry>, ms: seq<Member>, n: nat)
    requires e.key.Str? && IndexOf(ms, e.key.s).None? && n <= |after|
    ensures Filled(before + [e] + after, ms, |before| + 1 + n) == Filled(before + after, ms, |before| + n)
  {
    var more, less := before + [e] + after, before + after;
    if n == 0 {
      assert more[..|before|] == before == less[..|before|];
      FilledPrefix(more, less, ms, |before|);
      assert more[|before|] == e;
    } else {
      FilledWithout(before, e, after, ms, n - 1);
      assert more[|before| + n] == after[n - 1] == less[|before| + n - 1];
    }
  }

  /** An entry for no member changes nothing, wherever it is. */
  lemma UnknownEntryIgnored(before: seq<Entry>, e: Entry, after: seq<Entry>, ms: seq<Member>)
    requires e.key.Str? && forall i :: 0 <= i < |ms| ==> ms[i].name != e.key.s
    ensures Rebuilt(Map(before + [e] + after), ms) == Rebuilt(Map(before + after), ms)
  {
    FilledWithout(before, e, after, ms, |after|);
  }

  // ---------------------------------------------------------------- values of other types

  predicate IsInteger(t: ScalarType) {
    t in {Byte, Short, ScalarType.Int, Long, UByte, UShort, UInt, ULong}
  }

  predicate IsFloating(t: ScalarType) {
    t == Float || t == Double
  }

  /** What becomes of a scalar that was packed as one type and is read as another. */
  lemma ScalarReadAs(v: Scalar, t: ScalarType, t': ScalarType)
    requires ScalarFits(v, t)
    ensures Decode([PackedScalar(v, t)]).Some?
    ensures var read := AsScalar(Decode([PackedScalar(v, t)]).value.0, t');
            if t' == t then read == Ok(v)
            else if IsInteger(t) && IsInteger(t') then read == if InRange(t', v.i) then Ok(v) else Failed
            else if IsInteger(t) && IsFloating(t') then read == Ok(FloatV(OfInteger(v.i)))
            else if IsFloating(t) && IsFloating(t') then read == Ok(FloatV(OfOtherWidth(v.f.bits)))
            else read == Failed
  {
  }

  /** A union is read as null, which leaves its field as it is, exactly if it is not a map of one entry, or the entry is for no member. */
  lemma NullUnionIff(o: Object, ms: seq<Member>)
    ensures UnpackedUnion(o, ms) == Ok(None) <==>
              || !o.Map? || |o.entries| != 1
              || (o.entries[0].key.Str? && forall i :: 0 <= i < |ms| ==> ms[i].name != o.entries[0].key.s)
  {
  }

  /** In an array of unions such an element is left out, and the others stay in order. */
  lemma {:induction false} NullElementDropped(before: seq<Object>, o: Object, after: seq<Object>, ms: seq<Member>, n: nat)
    requires UnpackedUnion(o, ms) == Ok(None) && n <= |after|
    ensures UnpackedUnions(before + [o] + after, ms, |before| + 1 + n) == UnpackedUnions(before + after, ms, |before| + n)
  {
    var more, less := before + [o] + after, before + after;
    if n == 0 {
      assert more[..|before|] == before == less[..|before|];
      UnionsPrefix(more, less, ms, |before|);
      assert more[|before|] == o;
    } else {
      NullElementDropped(before, o, after, ms, n - 1);
      assert more[|before| + n] == after[n - 1] == less[|before| + n - 1];
    }
  }

  lemma {:induction false} UnionsPrefix(a: seq<Object>, b: seq<Object>, ms: seq<Member>, n: nat)
    requires n <= |a| && n <= |b| && a[..n] == b[..n]
    ensures UnpackedUnions(a, ms, n) == UnpackedUnions(b, ms, n)
  {
    if n > 0 {
      assert a[..n - 1] == a[..n][..n - 1] && b[..n - 1] == b[..n][..n - 1];
      UnionsPrefix(a, b, ms, n - 1);
      assert a[n - 1] == a[..n][n - 1] == b[n - 1];
    }
  }

  /** Where an array of scalars is asked for anything else reads as an empty one, and anything but a map as a structure of defaults. */
  lemma OtherShapes(o: Object, t: ScalarType, ms: seq<Member>)
    ensures !o.Array? ==> Unpacked(o, ScalarArrayDesc(t)) == Ok(Some(ScalarArrayPV([])))
    ensures !o.Map? ==> Unpacked(o, StructDesc(ms)) == Ok(Some(StructPV(DefaultFields(ms))))
  {
  }
}
