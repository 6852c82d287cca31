/**
  Merging named fields of several PV structures into one new structure: first the schema is built,
  field by field, then the values are copied into it.

  Names are plain member names; a source without a structure is skipped, as is a name it lacks.
 */
module StructureMerger {
  import opened Types
  import opened PvData

  /** A PV structure: its members and their values. */
  datatype Source = Source(members: seq<Member>, fields: seq<PV>)

  datatype Item = Item(structure: Option<Source>, names: seq<string>)

  datatype Outcome = Nothing | Merged(members: seq<Member>, fields: seq<PV>) | Failed

  /** A field that is asked for and there. */
  datatype Offer = Offer(member: Member, value: PV)

  ghost predicate ProperSource(s: Source) {
    ProperMembers(s.members) && StructFits(s.fields, s.members)
  }

  ghost predicate ProperItems(items: seq<Item>) {
    forall i :: 0 <= i < |items| && items[i].structure.Some? ==> ProperSource(items[i].structure.value)
  }

  // ---------------------------------------------------------------- what is merged

  function OfferOf(s: Source, name: string): seq<Offer> {
    match IndexOf(s.members, name)
    case None => []
    case Some(i) => if i < |s.fields| then [Offer(s.members[i], s.fields[i])] else []
  }

  function OffersOf(s: Source, names: seq<string>): seq<Offer> {
    if names == [] then [] else OffersOf(s, names[..|names| - 1]) + OfferOf(s, names[|names| - 1])
  }

  function ItemOffers(item: Item, n: nat): seq<Offer>
    requires n <= |item.names|
  {
    if item.structure.None? then [] else OffersOf(item.structure.value, item.names[..n])
  }

  /** Everything asked for and there, in the order of the items and of their lists. */
  function Offers(items: seq<Item>): seq<Offer> {
    if items == [] then []
    else Offers(items[..|items| - 1]) + ItemOffers(items[|items| - 1], |items[|items| - 1].names|)
  }

  function MemberNames(ms: seq<Member>): set<string> {
    set i | 0 <= i < |ms| :: ms[i].name
  }

  /** The members of the merged structure: the first offer of every name. */
  function FirstMembers(os: seq<Offer>): seq<Member> {
    if os == [] then []
    else
      var before := FirstMembers(os[..|os| - 1]);
      var m := os[|os| - 1].member;
      if m.name in MemberNames(before) then before else before + [m]
  }

  /** The value of a name: its last offer. */
  function LastValue(os: seq<Offer>, name: string): Option<PV> {
    if os == [] then None
    else if os[|os| - 1].member.name == name then Some(os[|os| - 1].value)
    else LastValue(os[..|os| - 1], name)
  }

  // ---------------------------------------------------------------- the schema

  predicate IsUnion(d: FieldDesc) {
    d.UnionDesc? || d.UnionArrayDesc?
  }

  /** No union has a member that is itself a union or an array of unions. */
  predicate Copyable(d: FieldDesc)
    decreases d
  {
    match d
    case ScalarDesc(_) => true
    case ScalarArrayDesc(_) => true
    case StructDesc(ms) => AllCopyable(ms)
    case StructArrayDesc(ms) => AllCopyable(ms)
    case UnionDesc(ms) => AllCopyable(ms) && NoUnions(ms)
    case UnionArrayDesc(ms) => AllCopyable(ms) && NoUnions(ms)
  }

  predicate AllCopyable(ms: seq<Member>)
    decreases ms
  {
    forall i :: 0 <= i < |ms| ==> Copyable(ms[i].desc)
  }

  predicate NoUnions(ms: seq<Member>) {
    forall i :: 0 <= i < |ms| ==> !IsUnion(ms[i].desc)
  }

  /** The field builder: the members added so far. */
  class FieldBuilder {
    var members: seq<Member>

    constructor ()
      ensures members == []
    {
      members := [];
    }

    method Add(name: string, d: FieldDesc)
      modifies this
      ensures members == old(members) + [Member(name, d)]
    {
      members := members + [Member(name, d)];
    }

    /** addFieldToBuilder: the field's description is rebuilt, level by level. */
    method AddField(name: string, d: FieldDesc) returns (ok: bool)
      modifies this
      ensures ok == Copyable(d)
      ensures ok ==> members == old(members) + [Member(name, d)]
      decreases d, 1
    {
      ok := true;
      assert forall ms: seq<Member> :: [] + ms == ms;
      match d
      case ScalarDesc(t) => Add(name, ScalarDesc(t));
      case ScalarArrayDesc(t) => Add(name, ScalarArrayDesc(t));
      case StructDesc(ms) =>
        var nested := new FieldBuilder();
        ok := nested.CopyStructureDefinition(ms);
        Add(name, StructDesc(nested.members));
      case StructArrayDesc(ms) =>
        var nested := new FieldBuilder();
        ok := nested.CopyStructureDefinition(ms);
        Add(name, StructArrayDesc(nested.members));
      case UnionDesc(ms) =>
        var nested := new FieldBuilder();
        ok := nested.CopyUnionDefinition(ms);
        Add(name, UnionDesc(nested.members));
      case UnionArrayDesc(ms) =>
        var nested := new FieldBuilder();
        ok := nested.CopyUnionDefinition(ms);
        Add(name, UnionArrayDesc(nested.members));
    }

    method CopyStructureDefinition(ms: seq<Member>) returns (ok: bool)
      modifies this
      ensures ok == AllCopyable(ms)
      ensures ok ==> members == old(members) + ms
      decreases ms, 0
    {
      for i := 0 to |ms|
        invariant members == old(members) + ms[..i]
        invariant forall j :: 0 <= j < i ==> Copyable(ms[j].desc)
      {
        var added := AddField(ms[i].name, ms[i].desc);
        if !added {
          return false;
        }
        assert ms[..i + 1] == ms[..i] + [ms[i]];
      }
      assert ms[..|ms|] == ms;
      return true;
    }

    /** As above, but a union or an array of unions is refused. */
    method CopyUnionDefinition(ms: seq<Member>) returns (ok: bool)
      modifies this
      ensures ok == (AllCopyable(ms) && NoUnions(ms))
      ensures ok ==> members == old(members) + ms
      decreases ms, 0
    {
      for i := 0 to |ms|
        invariant members == old(members) + ms[..i]
        invariant forall j :: 0 <= j < i ==> Copyable(ms[j].desc) && !IsUnion(ms[j].desc)
      {
        if IsUnion(ms[i].desc) {
          return false;
        }
        var added := AddField(ms[i].name, ms[i].desc);
        if !added {
          return false;
        }
        assert ms[..i + 1] == ms[..i] + [ms[i]];
      }
      assert ms[..|ms|] == ms;
      return true;
    }
  }

  // ---------------------------------------------------------------- the values

  predicate SameKind(a: FieldDesc, b: FieldDesc) {
    match a
    case ScalarDesc(_) => b.ScalarDesc?
    case ScalarArrayDesc(_) => b.ScalarArrayDesc?
    case StructDesc(_) => b.StructDesc?
    case StructArrayDesc(_) => b.StructArrayDesc?
    case UnionDesc(_) => b.UnionDesc?
    case UnionArrayDesc(_) => b.UnionArrayDesc?
  }

  /**
    What the client library's copyUnchecked leaves in a field of the first description for a field of
    the second, both of one kind other than a structure; nothing when it throws.
   */
  type Library = (FieldDesc, PV, FieldDesc, PV) -> Option<PV>

  /** Between fields of one description it copies the value. Nothing is asked of it otherwise. */
  ghost predicate Faithful(lib: Library) {
    forall d, dest, src {:trigger lib(d, dest, d, src)} :: Fits(src, d) ==> lib(d, dest, d, src) == Some(src)
  }

  /** The structures a copy walks through are there; what the other fields hold does not matter to it. */
  ghost predicate HasShape(pv: PV, d: FieldDesc)
    decreases pv
  {
    d.StructDesc? ==> pv.StructPV? && ShapeFits(pv.fields, d.members)
  }

  ghost predicate ShapeFits(fields: seq<PV>, ms: seq<Member>)
    decreases fields
  {
    |fields| == |ms| && forall i :: 0 <= i < |fields| ==> HasShape(fields[i], ms[i].desc)
  }

  lemma {:induction false} FitsHasShape(pv: PV, d: FieldDesc)
    requires Fits(pv, d)
    ensures HasShape(pv, d)
    decreases pv
  {
    if d.StructDesc? {
      FieldsHaveShape(pv.fields, d.members);
    }
  }

  lemma {:induction false} FieldsHaveShape(fields: seq<PV>, ms: seq<Member>)
    requires StructFits(fields, ms)
    ensures ShapeFits(fields, ms)
    decreases fields
  {
    forall i | 0 <= i < |fields| ensures HasShape(fields[i], ms[i].desc) {
      FitsHasShape(fields[i], ms[i].desc);
    }
  }

  /** copyFieldValue: fields of different kinds do not match, a structure goes child by child. */
  ghost function Copied(dest: PV, dd: FieldDesc, src: PV, sd: FieldDesc, lib: Library): (r: Option<PV>)
    requires HasShape(dest, dd) && Fits(src, sd) && Faithful(lib)
    ensures r.Some? ==> HasShape(r.value, dd)
    decreases src, 0
  {
    if !SameKind(dd, sd) then None
    else if sd.StructDesc? then
      match CopiedFields(dest.fields, dd.members, src.fields, sd.members, |sd.members|, lib)
      case None => None
      case Some(fields) => Some(StructPV(fields))
    else lib(dd, dest, sd, src)
  }

  /** copyStructureValue, the first n children: each goes to the destination's field of its name, if there is one. */
  ghost function CopiedFields(dest: seq<PV>, dms: seq<Member>, src: seq<PV>, sms: seq<Member>, n: nat, lib: Library): (r: Option<seq<PV>>)
    requires ShapeFits(dest, dms) && StructFits(src, sms) && n <= |sms| && Faithful(lib)
    ensures r.Some? ==> ShapeFits(r.value, dms)
    decreases src, n
  {
    if n == 0 then Some(dest)
    else
      match CopiedFields(dest, dms, src, sms, n - 1, lib)
      case None => None
      case Some(fields) =>
        match IndexOf(dms, sms[n - 1].name)
        case None => Some(fields)
        case Some(at) =>
          match Copied(fields[at], dms[at].desc, src[n - 1], sms[n - 1].desc, lib)
          case None => None
          case Some(copy) => Some(fields[at := copy])
  }

  method CopyFieldValue(dest: PV, dd: FieldDesc, src: PV, sd: FieldDesc, lib: Library) returns (r: Option<PV>)
    requires HasShape(dest, dd) && Fits(src, sd) && Faithful(lib)
    ensures r == Copied(dest, dd, src, sd, lib)
    decreases src, 1
  {
    if !SameKind(dd, sd) {
      return None;
    }
    if sd.StructDesc? {
      var fields := CopyStructureValue(dest.fields, dd.members, src.fields, sd.members, lib);
      return if fields.None? then None else Some(StructPV(fields.value));
    }
    return lib(dd, dest, sd, src);
  }

  method CopyStructureValue(dest: seq<PV>, dms: seq<Member>, src: seq<PV>, sms: seq<Member>, lib: Library) returns (r: Option<seq<PV>>)
    requires ShapeFits(dest, dms) && StructFits(src, sms) && Faithful(lib)
    ensures r == CopiedFields(dest, dms, src, sms, |sms|, lib)
    decreases src, 0
  {
    var fields := dest;
    for i := 0 to |sms|
      invariant ShapeFits(fields, dms)
      invariant CopiedFields(dest, dms, src, sms, i, lib) == Some(fields)
    {
      var at := IndexOf(dms, sms[i].name);
      if at.Some? {
        var copy := CopyFieldValue(fields[at.value], dms[at.value].desc, src[i], sms[i].desc, lib);
        if copy.None? {
          CopyFails(dest, dms, src, sms, i + 1, |sms|, lib);
          return None;
        }
        fields := fields[at.value := copy.value];
      }
    }
    return Some(fields);
  }

  lemma {:induction false} CopyFails(dest: seq<PV>, dms: seq<Member>, src: seq<PV>, sms: seq<Member>, n: nat, m: nat, lib: Library)
    requires ShapeFits(dest, dms) && StructFits(src, sms) && n <= m <= |sms| && Faithful(lib)
    requires CopiedFields(dest, dms, src, sms, n, lib).None?
    ensures CopiedFields(dest, dms, src, sms, m, lib).None?
    decreases m
  {
    if n < m {
      CopyFails(dest, dms, src, sms, n, m - 1, lib);
    }
  }

  /** The first n fields are the source's, the others the destination's. */
  ghost predicate CopiedSoFar(r: Option<seq<PV>>, dest: seq<PV>, src: seq<PV>, n: nat) {
    && r.Some? && |r.value| == |dest| == |src|
    && (forall i :: 0 <= i < n && i < |src| ==> r.value[i] == src[i])
    && (forall i :: n <= i < |dest| ==> r.value[i] == dest[i])
  }

  /** Between fields of one description the copy is the source value. */
  lemma {:induction false} SameDescCopies(dest: PV, src: PV, d: FieldDesc, lib: Library)
    requires HasShape(dest, d) && Fits(src, d) && ProperDesc(d) && Faithful(lib)
    ensures Copied(dest, d, src, d, lib) == Some(src)
    decreases src, 0
  {
    if d.StructDesc? {
      SameMembersCopy(dest.fields, src.fields, d.members, |d.members|, lib);
      assert CopiedFields(dest.fields, d.members, src.fields, d.members, |d.members|, lib).value == src.fields;
    }
  }

  lemma {:induction false} SameMembersCopy(dest: seq<PV>, src: seq<PV>, ms: seq<Member>, n: nat, lib: Library)
    requires ShapeFits(dest, ms) && StructFits(src, ms) && ProperMembers(ms) && n <= |ms| && Faithful(lib)
    ensures CopiedSoFar(CopiedFields(dest, ms, src, ms, n, lib), dest, src, n)
    decreases src, n
  {
    if n > 0 {
      SameMembersCopy(dest, src, ms, n - 1, lib);
      var fields := CopiedFields(dest, ms, src, ms, n - 1, lib).value;
      var at := IndexOf(ms, ms[n - 1].name);
      assert at == Some(n - 1);
      SameDescCopies(fields[n - 1], src[n - 1], ms[n - 1].desc, lib);
    }
  }

  // ---------------------------------------------------------------- merging

  /** Offers of one name have one description, or descriptions of different kinds. */
  ghost predicate Comparable(os: seq<Offer>) {
    forall i, j :: 0 <= i < |os| && 0 <= j < |os| && os[i].member.name == os[j].member.name ==>
      os[i].member == os[j].member || !SameKind(os[i].member.desc, os[j].member.desc)
  }

  /** Every offer has the description of the first one of its name. */
  ghost predicate Agreeing(os: seq<Offer>) {
    forall k :: 0 <= k < |os| ==> os[k].member in FirstMembers(os)
  }

  /** The values of the merged structure: the defaults, and then every offer copied to the field of its name. */
  ghost function Poured(ms: seq<Member>, os: seq<Offer>, lib: Library): (r: Option<seq<PV>>)
    requires ProperOffers(os) && Faithful(lib)
    ensures r.Some? ==> ShapeFits(r.value, ms)
  {
    if os == [] then
      DefaultsFit(ms);
      Some(DefaultFields(ms))
    else
      match Poured(ms, os[..|os| - 1], lib)
      case None => None
      case Some(fields) => PouredOne(ms, fields, os[|os| - 1], lib)
  }

  ghost function PouredOne(ms: seq<Member>, fields: seq<PV>, o: Offer, lib: Library): (r: Option<seq<PV>>)
    requires ShapeFits(fields, ms) && Fits(o.value, o.member.desc) && Faithful(lib)
    ensures r.Some? ==> ShapeFits(r.value, ms)
  {
    match IndexOf(ms, o.member.name)
    case None => Some(fields)
    case Some(at) =>
      match Copied(fields[at], ms[at].desc, o.value, o.member.desc, lib)
      case None => None
      case Some(copy) => Some(fields[at := copy])
  }

  ghost predicate ProperOffers(os: seq<Offer>) {
    forall k :: 0 <= k < |os| ==>
      os[k].member.name != "" && ProperDesc(os[k].member.desc) && Fits(os[k].value, os[k].member.desc)
  }

  lemma OfferIsProper(s: Source, name: string)
    requires ProperSource(s)
    ensures ProperOffers(OfferOf(s, name)) && forall k :: 0 <= k < |OfferOf(s, name)| ==> OfferOf(s, name)[k].member.name == name
  {
  }

  lemma {:induction false} OffersAreProper(items: seq<Item>)
    requires ProperItems(items)
    ensures ProperOffers(Offers(items))
  {
    if items != [] {
      var last := items[|items| - 1];
      OffersAreProper(items[..|items| - 1]);
      if last.structure.Some? {
        SourceOffersProper(last.structure.value, last.names[..|last.names|]);
      }
    }
  }

  lemma {:induction false} SourceOffersProper(s: Source, names: seq<string>)
    requires ProperSource(s)
    ensures ProperOffers(OffersOf(s, names))
  {
    if names != [] {
      SourceOffersProper(s, names[..|names| - 1]);
      OfferIsProper(s, names[|names| - 1]);
    }
  }

  lemma {:induction false} FirstMembersNames(os: seq<Offer>)
    ensures forall i, j :: 0 <= i < j < |FirstMembers(os)| ==> FirstMembers(os)[i].name != FirstMembers(os)[j].name
    ensures forall n :: n in MemberNames(FirstMembers(os)) <==> exists k :: 0 <= k < |os| && os[k].member.name == n
    ensures forall m :: m in FirstMembers(os) ==> exists k :: 0 <= k < |os| && os[k].member == m
  {
    if os != [] {
      var init := os[..|os| - 1];
      FirstMembersNames(init);
      assert forall k :: 0 <= k < |init| ==> os[k] == init[k];
      forall n ensures n in MemberNames(FirstMembers(os)) <==> exists k :: 0 <= k < |os| && os[k].member.name == n {
        NamesGrow(FirstMembers(init), os[|os| - 1].member, n);
      }
    }
  }

  lemma NamesGrow(ms: seq<Member>, m: Member, n: string)
    ensures n in MemberNames(ms + [m]) <==> n in MemberNames(ms) || n == m.name
  {
    if n in MemberNames(ms) {
      var i :| 0 <= i < |ms| && ms[i].name == n;
      assert (ms + [m])[i].name == n;
    }
    assert (ms + [m])[|ms|].name == m.name;
  }

  lemma {:induction false} FirstMembersGrow(os: seq<Offer>, more: seq<Offer>)
    ensures FirstMembers(os) <= FirstMembers(os + more)
  {
    if more == [] {
      assert os + more == os;
    } else {
      var init := more[..|more| - 1];
      assert (os + more)[..|os + more| - 1] == os + init;
      FirstMembersGrow(os, init);
    }
  }

  /** The offers met so far in the loops over the items and their names. */
  function OffersUntil(items: seq<Item>, a: nat, b: nat): seq<Offer>
    requires a < |items| && b <= |items[a].names|
  {
    Offers(items[..a]) + ItemOffers(items[a], b)
  }

  lemma NextItem(items: seq<Item>, a: nat)
    requires a < |items|
    ensures Offers(items[..a + 1]) == OffersUntil(items, a, |items[a].names|)
  {
    assert items[..a + 1][..a] == items[..a];
  }

  lemma NextName(items: seq<Item>, a: nat, b: nat)
    requires a < |items| && b < |items[a].names| && items[a].structure.Some?
    ensures OffersUntil(items, a, b + 1) == OffersUntil(items, a, b) + OfferOf(items[a].structure.value, items[a].names[b])
  {
    var names := items[a].names;
    assert names[..b + 1][..b] == names[..b];
  }

  lemma {:induction false} OffersGrow(items: seq<Item>, a: nat)
    requires a <= |items|
    ensures Offers(items[..a]) <= Offers(items)
    decreases |items| - a
  {
    if a < |items| {
      NextItem(items, a);
      OffersGrow(items, a + 1);
    } else {
      assert items[..a] == items;
    }
  }

  lemma {:induction false} SourceOffersGrow(s: Source, names: seq<string>, b: nat)
    requires b <= |names|
    ensures OffersOf(s, names[..b]) <= OffersOf(s, names)
    decreases |names| - b
  {
    if b < |names| {
      assert names[..b + 1][..b] == names[..b];
      SourceOffersGrow(s, names, b + 1);
    } else {
      assert names[..b] == names;
    }
  }

  lemma UntilIsPrefix(items: seq<Item>, a: nat, b: nat)
    requires a < |items| && b <= |items[a].names|
    ensures OffersUntil(items, a, b) <= Offers(items)
  {
    NextItem(items, a);
    OffersGrow(items, a + 1);
    if items[a].structure.Some? {
      SourceOffersGrow(items[a].structure.value, items[a].names, b);
      assert items[a].names[..|items[a].names|] == items[a].names;
    }
  }

  lemma PrefixMembers(os: seq<Offer>, all: seq<Offer>)
    requires os <= all
    ensures FirstMembers(os) <= FirstMembers(all)
  {
    assert all == os + all[|os|..];
    FirstMembersGrow(os, all[|os|..]);
  }

  lemma FirstName(items: seq<Item>, a: nat)
    requires a < |items|
    ensures OffersUntil(items, a, 0) == Offers(items[..a])
    ensures items[a].structure.None? ==> Offers(items[..a + 1]) == Offers(items[..a])
  {
    NextItem(items, a);
    assert items[a].names[..0] == [];
    assert Offers(items[..a]) + [] == Offers(items[..a]);
  }

  /** The members so far, after one more name of an item. */
  lemma SchemaStep(items: seq<Item>, a: nat, b: nat)
    requires a < |items| && b < |items[a].names| && items[a].structure.Some? && ProperSource(items[a].structure.value)
    ensures var s, name, ms := items[a].structure.value, items[a].names[b], FirstMembers(OffersUntil(items, a, b));
            var found := IndexOf(s.members, name);
            FirstMembers(OffersUntil(items, a, b + 1)) ==
            if found.Some? && name !in MemberNames(ms) then ms + [s.members[found.value]] else ms
  {
    NextName(items, a, b);
    var os, o := OffersUntil(items, a, b), OfferOf(items[a].structure.value, items[a].names[b]);
    if o == [] {
      assert os + o == os;
    } else {
      assert (os + o)[..|os|] == os;
    }
  }

  class PVStructureMerger {
    constructor () {}

    /** The body of the inner loop of the first pass: a name that is new and there becomes a member. */
    method AddName(s: Source, name: string, builder: FieldBuilder, before: set<string>) returns (ok: bool, added: set<string>)
      requires before == MemberNames(builder.members) && AllCopyable(builder.members)
      modifies builder
      ensures var found, ms := IndexOf(s.members, name), old(builder.members);
              if found.Some? && name !in MemberNames(ms) then
                ok == Copyable(s.members[found.value].desc) && (ok ==> builder.members == ms + [s.members[found.value]])
              else ok && builder.members == ms
      ensures ok ==> added == MemberNames(builder.members) && AllCopyable(builder.members)
    {
      ok, added := true, before;
      var found := IndexOf(s.members, name);
      if name !in added && found.Some? {
        AddedNames(builder.members, s.members[found.value]);
        ok := builder.AddField(name, s.members[found.value].desc);
        added := added + {name};
      }
    }

    /** The inner loop of the first pass. */
    method AddItem(items: seq<Item>, a: nat, builder: FieldBuilder, before: set<string>) returns (ok: bool, added: set<string>)
      requires ProperItems(items) && a < |items| && items[a].structure.Some?
      requires builder.members == FirstMembers(OffersUntil(items, a, 0))
      requires before == MemberNames(builder.members) && AllCopyable(builder.members)
      modifies builder
      ensures !ok ==> !AllCopyable(FirstMembers(Offers(items)))
      ensures ok ==> builder.members == FirstMembers(OffersUntil(items, a, |items[a].names|))
                     && added == MemberNames(builder.members) && AllCopyable(builder.members)
    {
      added := before;
      var s, names := items[a].structure.value, items[a].names;
      for b := 0 to |names|
        invariant builder.members == FirstMembers(OffersUntil(items, a, b))
        invariant added == MemberNames(builder.members) && AllCopyable(builder.members)
      {
        SchemaStep(items, a, b);
        ok, added := AddName(s, names[b], builder, added);
        if !ok {
          RefusedMember(items, a, b);
          return;
        }
      }
      ok := true;
    }

    /** The first pass of mergeStructureAndValue. */
    method BuildSchema(items: seq<Item>) returns (ok: bool, members: seq<Member>)
      requires ProperItems(items)
      ensures ok == AllCopyable(FirstMembers(Offers(items)))
      ensures ok ==> members == FirstMembers(Offers(items))
    {
      var builder := new FieldBuilder();
      var added: set<string> := {};
      for a := 0 to |items|
        invariant builder.members == FirstMembers(Offers(items[..a]))
        invariant added == MemberNames(builder.members) && AllCopyable(builder.members)
      {
        FirstName(items, a);
        NextItem(items, a);
        if items[a].structure.Some? {
          ok, added := AddItem(items, a, builder, added);
          if !ok {
            return false, [];
          }
        }
      }
      assert items[..|items|] == items;
      return true, builder.members;
    }

    /** The body of the second pass: copy the field, when both structures have it. */
    method CopyName(s: Source, name: string, ms: seq<Member>, fields: seq<PV>, lib: Library) returns (r: Option<seq<PV>>)
      requires ProperSource(s) && ShapeFits(fields, ms) && Faithful(lib)
      ensures var o := OfferOf(s, name);
              (o != [] ==> Fits(o[0].value, o[0].member.desc)) && r == if o == [] then Some(fields) else PouredOne(ms, fields, o[0], lib)
    {
      var src, dest := IndexOf(s.members, name), IndexOf(ms, name);
      if src.Some? && dest.Some? {
        var copy := CopyFieldValue(fields[dest.value], ms[dest.value].desc, s.fields[src.value], s.members[src.value].desc, lib);
        return if copy.None? then None else Some(fields[dest.value := copy.value]);
      }
      return Some(fields);
    }

    /** The inner loop of the second pass. */
    method CopyItem(items: seq<Item>, a: nat, ms: seq<Member>, before: seq<PV>, lib: Library) returns (r: Option<seq<PV>>)
      requires ProperItems(items) && a < |items| && items[a].structure.Some? && Faithful(lib)
      requires PouredSoFar(items, a, 0, ms, lib) == Some(before)
      ensures r == PouredSoFar(items, a, |items[a].names|, ms, lib)
    {
      var fields := before;
      var s, names := items[a].structure.value, items[a].names;
      for b := 0 to |names|
        invariant ShapeFits(fields, ms) && PouredSoFar(items, a, b, ms, lib) == Some(fields)
      {
        PourStep(items, a, b, ms, fields, lib);
        var next := CopyName(s, names[b], ms, fields, lib);
        if next.None? {
          PouredStaysNone(items, a, b + 1, |names|, ms, lib);
          return None;
        }
        fields := next.value;
      }
      return Some(fields);
    }

    /** The second pass of mergeStructureAndValue. */
    method CopyValues(items: seq<Item>, ms: seq<Member>, lib: Library) returns (r: Option<seq<PV>>)
      requires ProperItems(items) && Faithful(lib)
      ensures ProperOffers(Offers(items)) && r == Poured(ms, Offers(items), lib)
    {
      var fields := DefaultFields(ms);
      DefaultsFit(ms);
      OffersAreProper(items);
      for a := 0 to |items|
        invariant ProperOffers(Offers(items[..a])) && Poured(ms, Offers(items[..a]), lib) == Some(fields)
      {
        OffersAreProper(items[..a + 1]);
        FirstName(items, a);
        NextItem(items, a);
        if items[a].structure.Some? {
          UntilIsProper(items, a, 0);
          var next := CopyItem(items, a, ms, fields, lib);
          if next.None? {
            OffersGrow(items, a + 1);
            NoneGrows(ms, Offers(items[..a + 1]), Offers(items), lib);
            return None;
          }
          fields := next.value;
        }
      }
      assert items[..|items|] == items;
      return Some(fields);
    }

    /**
      mergeStructureAndValue: nothing for no sources; otherwise the schema of the first offers with all
      offers poured into it, unless a field cannot be rebuilt or a copy fails.
     */
    method MergeStructureAndValue(items: seq<Item>, lib: Library) returns (r: Outcome)
      requires ProperItems(items) && Faithful(lib)
      ensures ProperOffers(Offers(items))
      ensures items == [] ==> r == Nothing
      ensures items != [] ==>
                var ms := FirstMembers(Offers(items));
                var fields := Poured(ms, Offers(items), lib);
                r == if AllCopyable(ms) && fields.Some? then Merged(ms, fields.value) else Failed
      ensures items != [] ==> IsMergeOf(items, r)
    {
      OffersAreProper(items);
      if items == [] {
        return Nothing;
      }
      MergedIsAsked(items, lib);
      var ok, ms := BuildSchema(items);
      if !ok {
        return Failed;
      }
      var fields := CopyValues(items, ms, lib);
      r := if fields.Some? then Merged(ms, fields.value) else Failed;
    }
  }

  lemma UntilIsProper(items: seq<Item>, a: nat, b: nat)
    requires ProperItems(items) && a < |items| && b <= |items[a].names|
    ensures ProperOffers(OffersUntil(items, a, b))
  {
    OffersAreProper(items);
    UntilIsPrefix(items, a, b);
  }

  ghost function PouredSoFar(items: seq<Item>, a: nat, b: nat, ms: seq<Member>, lib: Library): (r: Option<seq<PV>>)
    requires ProperItems(items) && a < |items| && b <= |items[a].names| && Faithful(lib)
    ensures r.Some? ==> ShapeFits(r.value, ms)
  {
    UntilIsProper(items, a, b);
    Poured(ms, OffersUntil(items, a, b), lib)
  }

  /** One more name in the second pass. */
  lemma PourStep(items: seq<Item>, a: nat, b: nat, ms: seq<Member>, fields: seq<PV>, lib: Library)
    requires ProperItems(items) && a < |items| && b < |items[a].names| && items[a].structure.Some? && Faithful(lib)
    requires ShapeFits(fields, ms) && PouredSoFar(items, a, b, ms, lib) == Some(fields)
    ensures var o := OfferOf(items[a].structure.value, items[a].names[b]);
            && (o != [] ==> Fits(o[0].value, o[0].member.desc))
            && PouredSoFar(items, a, b + 1, ms, lib) == if o == [] then Some(fields) else PouredOne(ms, fields, o[0], lib)
  {
    var os, o := OffersUntil(items, a, b), OfferOf(items[a].structure.value, items[a].names[b]);
    NextName(items, a, b);
    UntilIsProper(items, a, b + 1);
    UntilIsProper(items, a, b);
    OfferIsProper(items[a].structure.value, items[a].names[b]);
    if o == [] {
      assert os + o == os;
    } else {
      assert (os + o)[..|os|] == os && (os + o)[|os|] == o[0];
    }
  }

  /** Once a copy has failed, all has. */
  lemma {:induction false} NoneGrows(ms: seq<Member>, os: seq<Offer>, all: seq<Offer>, lib: Library)
    requires ProperOffers(all) && os <= all && Faithful(lib) && ProperOffers(os) && Poured(ms, os, lib).None?
    ensures Poured(ms, all, lib).None?
  {
    if os != all {
      assert ProperOffers(all[..|all| - 1]);
      NoneGrows(ms, os, all[..|all| - 1], lib);
    }
  }

  lemma PouredStaysNone(items: seq<Item>, a: nat, b: nat, c: nat, ms: seq<Member>, lib: Library)
    requires ProperItems(items) && a < |items| && b <= c <= |items[a].names| && Faithful(lib)
    requires PouredSoFar(items, a, b, ms, lib).None?
    ensures PouredSoFar(items, a, c, ms, lib).None?
  {
    UntilIsProper(items, a, b);
    UntilIsProper(items, a, c);
    UntilGrows(items, a, b, c);
    NoneGrows(ms, OffersUntil(items, a, b), OffersUntil(items, a, c), lib);
  }

  lemma UntilGrows(items: seq<Item>, a: nat, b: nat, c: nat)
    requires a < |items| && b <= c <= |items[a].names|
    ensures OffersUntil(items, a, b) <= OffersUntil(items, a, c)
  {
    if items[a].structure.Some? {
      SourceOffersGrow(items[a].structure.value, items[a].names[..c], b);
      assert items[a].names[..c][..b] == items[a].names[..b];
    }
  }

  // ---------------------------------------------------------------- what pouring gives

  lemma OnlyOneNamed(ms: seq<Member>, i: nat, m: Member)
    requires ProperMembers(ms) && i < |ms| && ms[i].name == m.name
    ensures m in ms <==> ms[i] == m
  {
  }

  /** Every field has the last value offered for its name, or its default. All these offers agree with the schema. */
  ghost predicate Filled(ms: seq<Member>, os: seq<Offer>, fields: seq<PV>) {
    && StructFits(fields, ms)
    && (forall k :: 0 <= k < |os| ==> os[k].member in ms)
    && forall i :: 0 <= i < |ms| ==>
         fields[i] == match LastValue(os, ms[i].name) case None => Default(ms[i].desc) case Some(v) => v
  }

  lemma {:induction false} DefaultsFit(ms: seq<Member>)
    ensures StructFits(DefaultFields(ms), ms) && ShapeFits(DefaultFields(ms), ms)
    decreases ms
  {
    forall i | 0 <= i < |ms| ensures Fits(DefaultFields(ms)[i], ms[i].desc) {
      DefaultFits(ms[i].desc);
    }
    FieldsHaveShape(DefaultFields(ms), ms);
  }

  lemma {:induction false} DefaultFits(d: FieldDesc)
    ensures Fits(Default(d), d)
    decreases d
  {
    if d.StructDesc? {
      DefaultsFit(d.members);
    }
  }

  lemma SchemaIsProper(os: seq<Offer>)
    requires ProperOffers(os)
    ensures ProperMembers(FirstMembers(os))
  {
    FirstMembersNames(os);
    var ms := FirstMembers(os);
    forall i | 0 <= i < |ms| ensures ms[i].name != "" && ProperDesc(ms[i].desc) {
      assert ms[i] in ms;
    }
  }

  lemma FilledOne(ms: seq<Member>, os: seq<Offer>, o: Offer, fields: seq<PV>)
    requires ProperMembers(ms) && Filled(ms, os, fields) && o.member in ms && Fits(o.value, o.member.desc)
    requires IndexOf(ms, o.member.name).Some?
    ensures Filled(ms, os + [o], fields[IndexOf(ms, o.member.name).value := o.value])
  {
    var at := IndexOf(ms, o.member.name).value;
    OnlyOneNamed(ms, at, o.member);
    assert (os + [o])[..|os|] == os;
    assert forall k :: 0 <= k < |os| ==> (os + [o])[k] == os[k];
  }

  /** Offers that agree with the schema: every field ends up with the last value offered for its name. */
  lemma {:induction false} AgreeingPours(ms: seq<Member>, os: seq<Offer>, lib: Library)
    requires ProperOffers(os) && ProperMembers(ms) && Faithful(lib)
    requires forall k :: 0 <= k < |os| ==> os[k].member in ms
    ensures Poured(ms, os, lib).Some? && Filled(ms, os, Poured(ms, os, lib).value)
  {
    if os == [] {
      DefaultsFit(ms);
    } else {
      var n := |os| - 1;
      AgreeingPours(ms, os[..n], lib);
      var fields := Poured(ms, os[..n], lib).value;
      FieldsHaveShape(fields, ms);
      var at := IndexOf(ms, os[n].member.name).value;
      OnlyOneNamed(ms, at, os[n].member);
      SameDescCopies(fields[at], os[n].value, ms[at].desc, lib);
      FilledOne(ms, os[..n], os[n], fields);
      assert os[..n] + [os[n]] == os;
    }
  }

  /**
    When offers of one name have one description or differ in kind, the values are copied exactly if
    every offer has the description of the first of its name; then each field has the last value.
   */
  lemma ComparableMergeIff(os: seq<Offer>, lib: Library)
    requires ProperOffers(os) && Comparable(os) && Faithful(lib)
    ensures Poured(FirstMembers(os), os, lib).Some? <==> Agreeing(os)
    ensures Agreeing(os) ==> Filled(FirstMembers(os), os, Poured(FirstMembers(os), os, lib).value)
  {
    var ms := FirstMembers(os);
    SchemaIsProper(os);
    if Agreeing(os) {
      AgreeingPours(ms, os, lib);
    } else {
      var k :| 0 <= k < |os| && os[k].member !in ms;
      OtherKindFails(os, k, lib);
    }
  }

  lemma {:induction false} OtherKindFails(os: seq<Offer>, k: nat, lib: Library)
    requires ProperOffers(os) && Comparable(os) && Faithful(lib) && k < |os| && os[k].member !in FirstMembers(os)
    ensures Poured(FirstMembers(os), os, lib).None?
  {
    var ms := FirstMembers(os);
    FirstMembersNames(os);
    assert os[k].member.name in MemberNames(ms);
    var at := IndexOf(ms, os[k].member.name).value;
    assert ms[at] in ms;
    var f :| 0 <= f < |os| && os[f].member == ms[at];
    assert !SameKind(os[f].member.desc, os[k].member.desc);
    assert os[..k + 1][..k] == os[..k] && ProperOffers(os[..k + 1]);
    assert Poured(ms, os[..k + 1], lib).None?;
    NoneGrows(ms, os[..k + 1], os, lib);
  }

  lemma AddedNames(ms: seq<Member>, m: Member)
    ensures MemberNames(ms + [m]) == MemberNames(ms) + {m.name}
  {
    forall n ensures n in MemberNames(ms + [m]) <==> n in MemberNames(ms) + {m.name} {
      NamesGrow(ms, m, n);
    }
  }

  lemma RefusedMember(items: seq<Item>, a: nat, b: nat)
    requires a < |items| && b < |items[a].names| && items[a].structure.Some? && ProperSource(items[a].structure.value)
    requires items[a].names[b] !in MemberNames(FirstMembers(OffersUntil(items, a, b)))
    requires var o := OfferOf(items[a].structure.value, items[a].names[b]); o != [] && !Copyable(o[0].member.desc)
    ensures !AllCopyable(FirstMembers(Offers(items)))
  {
    NextName(items, a, b);
    UntilIsPrefix(items, a, b + 1);
    PrefixMembers(OffersUntil(items, a, b + 1), Offers(items));
    var ms := FirstMembers(OffersUntil(items, a, b + 1));
    OfferIsProper(items[a].structure.value, items[a].names[b]);
    assert OffersUntil(items, a, b + 1)[..|OffersUntil(items, a, b)|] == OffersUntil(items, a, b);
    assert FirstMembers(Offers(items))[|ms| - 1] == ms[|ms| - 1];
  }

  // ---------------------------------------------------------------- the merged structure, in terms of the items

  /** A place in the lists, and the member of the source that has that name. */
  datatype Ask = Ask(item: nat, at: nat, member: nat)

  /** A field that is asked for and there. */
  predicate IsAsk(items: seq<Item>, q: Ask) {
    && q.item < |items| && items[q.item].structure.Some? && q.at < |items[q.item].names|
    && var s := items[q.item].structure.value;
    && q.member < |s.members| && q.member < |s.fields| && s.members[q.member].name == items[q.item].names[q.at]
  }

  function AskedMember(items: seq<Item>, q: Ask): Member
    requires IsAsk(items, q)
  {
    items[q.item].structure.value.members[q.member]
  }

  function AskedValue(items: seq<Item>, q: Ask): PV
    requires IsAsk(items, q)
  {
    items[q.item].structure.value.fields[q.member]
  }

  predicate Before(q: Ask, q': Ask) {
    q.item < q'.item || (q.item == q'.item && q.at < q'.at)
  }

  predicate SameName(items: seq<Item>, q: Ask, q': Ask) {
    IsAsk(items, q) && IsAsk(items, q') && AskedMember(items, q).name == AskedMember(items, q').name
  }

  ghost predicate AsksFirst(items: seq<Item>, q: Ask) {
    IsAsk(items, q) && forall q' :: SameName(items, q, q') ==> !Before(q', q)
  }

  ghost predicate AsksLast(items: seq<Item>, q: Ask) {
    IsAsk(items, q) && forall q' :: SameName(items, q, q') ==> !Before(q, q')
  }

  /** Fields that are asked for under one name have one description. */
  ghost predicate OneDescription(items: seq<Item>) {
    forall q, q' :: SameName(items, q, q') ==> AskedMember(items, q) == AskedMember(items, q')
  }

  /** They have one description, or descriptions of different kinds. */
  ghost predicate ComparableItems(items: seq<Item>) {
    forall q, q' :: SameName(items, q, q') ==>
      AskedMember(items, q) == AskedMember(items, q') || !SameKind(AskedMember(items, q).desc, AskedMember(items, q').desc)
  }

  /** Members exactly for the fields that are asked for and there: each once, as it is first asked for, in that order. */
  ghost predicate MembersAsked(items: seq<Item>, ms: seq<Member>) {
    && (forall q :: IsAsk(items, q) ==> HasName(ms, AskedMember(items, q).name))
    && (forall m :: m in ms ==> IsIntroduced(items, m))
    && InOrderAsked(items, ms)
  }

  /** The member comes from the first field of its name that is asked for. */
  ghost predicate IsIntroduced(items: seq<Item>, m: Member) {
    exists q :: AsksFirst(items, q) && m == AskedMember(items, q)
  }

  ghost predicate HasName(ms: seq<Member>, name: string) {
    exists k :: 0 <= k < |ms| && ms[k].name == name
  }

  ghost predicate IsFirstFor(items: seq<Item>, ms: seq<Member>, k: nat, q: Ask) {
    k < |ms| && AsksFirst(items, q) && ms[k].name == AskedMember(items, q).name
  }

  ghost predicate InOrderAsked(items: seq<Item>, ms: seq<Member>) {
    forall q, q', k: nat, k': nat :: IsFirstFor(items, ms, k, q) && IsFirstFor(items, ms, k', q') && k < k' ==> Before(q, q')
  }

  /** Each with the value of the source that is asked for it last. */
  ghost predicate ValuesAsked(items: seq<Item>, ms: seq<Member>, fields: seq<PV>) {
    && |fields| == |ms|
    && forall k, q :: 0 <= k < |ms| && AsksLast(items, q) && ms[k].name == AskedMember(items, q).name ==> fields[k] == AskedValue(items, q)
  }

  /** The position of an ask among the offers. */
  function PositionOf(items: seq<Item>, q: Ask): nat
    requires IsAsk(items, q)
  {
    |OffersUntil(items, q.item, q.at)|
  }

  lemma AskIsOffer(items: seq<Item>, q: Ask)
    requires ProperItems(items) && IsAsk(items, q)
    ensures PositionOf(items, q) < |Offers(items)|
    ensures Offers(items)[PositionOf(items, q)] == Offer(AskedMember(items, q), AskedValue(items, q))
    ensures |OffersUntil(items, q.item, q.at + 1)| == PositionOf(items, q) + 1
  {
    var s, name := items[q.item].structure.value, items[q.item].names[q.at];
    assert ProperSource(s);
    assert IndexOf(s.members, name) == Some(q.member);
    NextName(items, q.item, q.at);
    UntilIsPrefix(items, q.item, q.at + 1);
    assert OffersUntil(items, q.item, q.at + 1)[PositionOf(items, q)] == Offer(s.members[q.member], s.fields[q.member]);
  }

  lemma {:induction false} NameOfOffer(s: Source, names: seq<string>, p: nat) returns (b: nat)
    requires p < |OffersOf(s, names)|
    ensures b < |names| && |OffersOf(s, names[..b])| == p && OfferOf(s, names[b]) != []
  {
    var n := |names| - 1;
    if p < |OffersOf(s, names[..n])| {
      b := NameOfOffer(s, names[..n], p);
      assert names[..n][..b] == names[..b];
    } else {
      b := n;
    }
  }

  lemma UntilOfPrefix(items: seq<Item>, n: nat, a: nat, b: nat)
    requires a < n <= |items| && b <= |items[a].names|
    ensures OffersUntil(items[..n], a, b) == OffersUntil(items, a, b)
  {
    assert items[..n][..a] == items[..a];
  }

  lemma {:induction false} OfferPlace(items: seq<Item>, p: nat) returns (q: Ask)
    requires ProperItems(items) && p < |Offers(items)|
    ensures IsAsk(items, q) && PositionOf(items, q) == p
  {
    var n := |items| - 1;
    if p < |Offers(items[..n])| {
      q := OfferPlace(items[..n], p);
      UntilOfPrefix(items, n, q.item, q.at);
    } else {
      var s, names := items[n].structure.value, items[n].names;
      assert names[..|names|] == names && ProperSource(s);
      var b := NameOfOffer(s, names, p - |Offers(items[..n])|);
      q := Ask(n, b, IndexOf(s.members, names[b]).value);
    }
  }

  lemma OfferIsAsk(items: seq<Item>, p: nat) returns (q: Ask)
    requires ProperItems(items) && p < |Offers(items)|
    ensures IsAsk(items, q) && PositionOf(items, q) == p && Offers(items)[p] == Offer(AskedMember(items, q), AskedValue(items, q))
  {
    q := OfferPlace(items, p);
    AskIsOffer(items, q);
  }

  /** Offers are in the order of the lists. */
  lemma AskOrder(items: seq<Item>, q: Ask, q': Ask)
    requires ProperItems(items) && IsAsk(items, q) && IsAsk(items, q') && Before(q, q')
    ensures PositionOf(items, q) < PositionOf(items, q')
  {
    AskIsOffer(items, q);
    if q.item == q'.item {
      UntilGrows(items, q.item, q.at + 1, q'.at);
    } else {
      EarlierItem(items, q.item, q.at + 1, q'.item);
    }
  }

  lemma EarlierItem(items: seq<Item>, a: nat, b: nat, a': nat)
    requires a < a' <= |items| && b <= |items[a].names|
    ensures OffersUntil(items, a, b) <= Offers(items[..a'])
  {
    UntilOfPrefix(items, a', a, b);
    UntilIsPrefix(items[..a'], a, b);
  }

  /** Where a member of the schema was first offered. */
  lemma {:induction false} FirstOffer(os: seq<Offer>, k: nat) returns (p: nat)
    requires k < |FirstMembers(os)|
    ensures p < |os| && os[p].member == FirstMembers(os)[k] && |FirstMembers(os[..p])| == k
    ensures forall q :: 0 <= q < p ==> os[q].member.name != os[p].member.name
  {
    var n := |os| - 1;
    if k < |FirstMembers(os[..n])| {
      p := FirstOffer(os[..n], k);
      assert os[..n][..p] == os[..p];
      assert forall q :: 0 <= q < p ==> os[..n][q] == os[q];
    } else {
      p := n;
      FirstMembersNames(os[..n]);
      forall q | 0 <= q < n ensures os[q].member.name != os[n].member.name {
        assert os[..n][q] == os[q];
      }
    }
  }

  lemma FirstOfferOrder(os: seq<Offer>, p: nat, p': nat)
    requires p < |os| && p' < |os| && |FirstMembers(os[..p])| < |FirstMembers(os[..p'])|
    ensures p < p'
  {
    if p' <= p {
      assert os[..p] == os[..p'] + os[p'..p];
      FirstMembersGrow(os[..p'], os[p'..p]);
    }
  }

  lemma {:induction false} LastOffer(os: seq<Offer>, p: nat)
    requires p < |os| && forall q :: p < q < |os| ==> os[q].member.name != os[p].member.name
    ensures LastValue(os, os[p].member.name) == Some(os[p].value)
  {
    if p < |os| - 1 {
      LastOffer(os[..|os| - 1], p);
    }
  }

  /** A member of the schema, where it is asked for first. */
  lemma FirstAsk(items: seq<Item>, k: nat) returns (q: Ask)
    requires ProperItems(items) && k < |FirstMembers(Offers(items))|
    ensures AsksFirst(items, q) && FirstMembers(Offers(items))[k] == AskedMember(items, q)
    ensures PositionOf(items, q) < |Offers(items)| && |FirstMembers(Offers(items)[..PositionOf(items, q)])| == k
  {
    var os := Offers(items);
    var p := FirstOffer(os, k);
    q := OfferIsAsk(items, p);
    forall q' | SameName(items, q, q') ensures !Before(q', q) {
      AskIsOffer(items, q');
      if Before(q', q) {
        AskOrder(items, q', q);
      }
    }
  }

  lemma OneFirstAsk(items: seq<Item>, q: Ask, q': Ask)
    requires ProperItems(items) && AsksFirst(items, q) && AsksFirst(items, q') && SameName(items, q, q')
    ensures q == q'
  {
    assert SameName(items, q', q);
    assert ProperSource(items[q.item].structure.value);
  }

  lemma FirstIsThat(items: seq<Item>, k: nat, q: Ask)
    requires ProperItems(items) && IsFirstFor(items, FirstMembers(Offers(items)), k, q)
    ensures FirstMembers(Offers(items))[k] == AskedMember(items, q)
    ensures PositionOf(items, q) < |Offers(items)| && |FirstMembers(Offers(items)[..PositionOf(items, q)])| == k
  {
    var q' := FirstAsk(items, k);
    OneFirstAsk(items, q, q');
  }

  lemma InAskOrder(items: seq<Item>, k: nat, k': nat, q: Ask, q': Ask)
    requires ProperItems(items) && k < k'
    requires var ms := FirstMembers(Offers(items)); IsFirstFor(items, ms, k, q) && IsFirstFor(items, ms, k', q')
    ensures Before(q, q')
  {
    FirstIsThat(items, k, q);
    FirstIsThat(items, k', q');
    FirstOfferOrder(Offers(items), PositionOf(items, q), PositionOf(items, q'));
    if Before(q', q) {
      AskOrder(items, q', q);
    }
  }

  lemma AskHasName(items: seq<Item>, q: Ask)
    requires ProperItems(items) && IsAsk(items, q)
    ensures HasName(FirstMembers(Offers(items)), AskedMember(items, q).name)
  {
    AskIsOffer(items, q);
    FirstMembersNames(Offers(items));
    assert AskedMember(items, q).name in MemberNames(FirstMembers(Offers(items)));
  }

  lemma SchemaInOrder(items: seq<Item>)
    requires ProperItems(items)
    ensures InOrderAsked(items, FirstMembers(Offers(items)))
  {
    var ms := FirstMembers(Offers(items));
    forall q, q', k: nat, k': nat | IsFirstFor(items, ms, k, q) && IsFirstFor(items, ms, k', q') && k < k' ensures Before(q, q') {
      InAskOrder(items, k, k', q, q');
    }
  }

  /** The schema has exactly the members that are asked for. */
  lemma SchemaIsAsked(items: seq<Item>)
    requires ProperItems(items)
    ensures MembersAsked(items, FirstMembers(Offers(items)))
  {
    var ms := FirstMembers(Offers(items));
    forall q | IsAsk(items, q) ensures HasName(ms, AskedMember(items, q).name) {
      AskHasName(items, q);
    }
    forall m | m in ms ensures IsIntroduced(items, m) {
      var k: nat :| k < |ms| && ms[k] == m;
      var q := FirstAsk(items, k);
      assert m == AskedMember(items, q);
    }
    SchemaInOrder(items);
  }

  lemma OneDescriptionAgrees(items: seq<Item>, p: nat)
    requires ProperItems(items) && OneDescription(items) && p < |Offers(items)|
    ensures Offers(items)[p].member in FirstMembers(Offers(items))
  {
    var ms := FirstMembers(Offers(items));
    var q := OfferIsAsk(items, p);
    FirstMembersNames(Offers(items));
    assert Offers(items)[p].member.name in MemberNames(ms);
    var k: nat :| k < |ms| && ms[k].name == AskedMember(items, q).name;
    var q' := FirstAsk(items, k);
    assert SameName(items, q, q');
  }

  lemma AgreesIsOneDescription(items: seq<Item>, q: Ask, q': Ask)
    requires ProperItems(items) && Agreeing(Offers(items)) && SameName(items, q, q')
    ensures AskedMember(items, q) == AskedMember(items, q')
  {
    AskIsOffer(items, q);
    AskIsOffer(items, q');
    FirstMembersNames(Offers(items));
  }

  lemma ComparableOffers(items: seq<Item>)
    requires ProperItems(items) && ComparableItems(items)
    ensures Comparable(Offers(items))
  {
    var os := Offers(items);
    forall i, j | 0 <= i < |os| && 0 <= j < |os| && os[i].member.name == os[j].member.name
      ensures os[i].member == os[j].member || !SameKind(os[i].member.desc, os[j].member.desc)
    {
      var q := OfferIsAsk(items, i);
      var q' := OfferIsAsk(items, j);
      assert SameName(items, q, q');
    }
  }

  /** Offers agree exactly if the fields asked for under one name have one description. */
  lemma AgreeingIff(items: seq<Item>)
    requires ProperItems(items)
    ensures Agreeing(Offers(items)) <==> OneDescription(items)
  {
    if OneDescription(items) {
      forall p | 0 <= p < |Offers(items)| ensures Offers(items)[p].member in FirstMembers(Offers(items)) {
        OneDescriptionAgrees(items, p);
      }
    }
    if Agreeing(Offers(items)) {
      forall q, q' | SameName(items, q, q') ensures AskedMember(items, q) == AskedMember(items, q') {
        AgreesIsOneDescription(items, q, q');
      }
    }
  }

  lemma LastAskIsValue(items: seq<Item>, q: Ask)
    requires ProperItems(items) && AsksLast(items, q)
    ensures LastValue(Offers(items), AskedMember(items, q).name) == Some(AskedValue(items, q))
  {
    var os, p := Offers(items), PositionOf(items, q);
    AskIsOffer(items, q);
    forall r | p < r < |os| ensures os[r].member.name != os[p].member.name {
      var q' := OfferIsAsk(items, r);
      if SameName(items, q, q') && Before(q', q) {
        AskOrder(items, q', q);
      }
    }
    LastOffer(os, p);
  }

  lemma ValuesAreAsked(items: seq<Item>, ms: seq<Member>, fields: seq<PV>)
    requires ProperItems(items) && Filled(ms, Offers(items), fields)
    ensures ValuesAsked(items, ms, fields)
  {
    forall k, q | 0 <= k < |ms| && AsksLast(items, q) && ms[k].name == AskedMember(items, q).name
      ensures fields[k] == AskedValue(items, q)
    {
      LastAskIsValue(items, q);
    }
  }

  /** All fields that are asked for can be rebuilt. */
  ghost predicate AllRebuilt(items: seq<Item>) {
    forall q :: AsksFirst(items, q) ==> Copyable(AskedMember(items, q).desc)
  }

  ghost predicate IsMergeOf(items: seq<Item>, r: Outcome) {
    && (r.Merged? ==> MembersAsked(items, r.members))
    && (OneDescription(items) ==> if AllRebuilt(items) then r.Merged? && ValuesAsked(items, r.members, r.fields) else r == Failed)
    && (ComparableItems(items) && !OneDescription(items) ==> r == Failed)
  }

  /**
    What the merge gives, in terms of the items. The members are exactly the fields that are asked for
    and there, in the order of the lists. If the fields asked for under one name have one description
    the values are copied, and each is the value of the source asked for it last; if one has another
    description, of another kind, the copy fails.
   */
  lemma MergedIsAsked(items: seq<Item>, lib: Library)
    requires ProperItems(items) && ProperOffers(Offers(items)) && Faithful(lib)
    ensures var ms, fields := FirstMembers(Offers(items)), Poured(FirstMembers(Offers(items)), Offers(items), lib);
            IsMergeOf(items, if AllCopyable(ms) && fields.Some? then Merged(ms, fields.value) else Failed)
  {
    SchemaIsAsked(items);
    RebuiltIff(items);
    PouredIsAsked(items, lib);
  }

  lemma PouredIsAsked(items: seq<Item>, lib: Library)
    requires ProperItems(items) && ProperOffers(Offers(items)) && Faithful(lib)
    ensures var ms, fields := FirstMembers(Offers(items)), Poured(FirstMembers(Offers(items)), Offers(items), lib);
            && (OneDescription(items) ==> fields.Some? && ValuesAsked(items, ms, fields.value))
            && (ComparableItems(items) && fields.Some? ==> OneDescription(items))
  {
    var os, ms := Offers(items), FirstMembers(Offers(items));
    AgreeingIff(items);
    if OneDescription(items) {
      SchemaIsProper(os);
      AgreeingPours(ms, os, lib);
      ValuesAreAsked(items, ms, Poured(ms, os, lib).value);
    } else if ComparableItems(items) {
      ComparableOffers(items);
      ComparableMergeIff(os, lib);
    }
  }

  lemma RebuiltIff(items: seq<Item>)
    requires ProperItems(items)
    ensures AllCopyable(FirstMembers(Offers(items))) <==> AllRebuilt(items)
  {
    var ms := FirstMembers(Offers(items));
    SchemaIsAsked(items);
    if AllCopyable(ms) {
      forall q | AsksFirst(items, q) ensures Copyable(AskedMember(items, q).desc) {
        assert HasName(ms, AskedMember(items, q).name);
        var k: nat :| k < |ms| && ms[k].name == AskedMember(items, q).name;
        FirstIsThat(items, k, q);
      }
    }
    if AllRebuilt(items) {
      forall k | 0 <= k < |ms| ensures Copyable(ms[k].desc) {
        assert IsIntroduced(items, ms[k]);
      }
    }
  }

  /** No field is asked for twice. */
  ghost predicate DisjointLists(items: seq<Item>) {
    forall q, q' :: SameName(items, q, q') ==> q == q'
  }

  /**
    With disjoint lists whose fields can be rebuilt, every field that is asked for and there is in the
    merged structure, with the type and the value its source has; no other field is, and the fields
    are in the order of the lists.
   */
  lemma DisjointMerge(items: seq<Item>, r: Outcome)
    requires DisjointLists(items) && IsMergeOf(items, r) && forall q :: IsAsk(items, q) ==> Copyable(AskedMember(items, q).desc)
    ensures r.Merged? && |r.fields| == |r.members| && InOrderAsked(items, r.members)
    ensures forall q :: IsAsk(items, q) ==> IsThere(r.members, r.fields, AskedMember(items, q), AskedValue(items, q))
    ensures forall m :: m in r.members ==> exists q :: IsAsk(items, q) && m == AskedMember(items, q)
  {
    assert OneDescription(items);
    forall q | IsAsk(items, q) ensures IsThere(r.members, r.fields, AskedMember(items, q), AskedValue(items, q)) {
      assert HasName(r.members, AskedMember(items, q).name);
      var k: nat :| k < |r.members| && r.members[k].name == AskedMember(items, q).name;
      assert IsIntroduced(items, r.members[k]);
      var q' :| AsksFirst(items, q') && r.members[k] == AskedMember(items, q');
      assert SameName(items, q, q');
      assert AsksLast(items, q);
    }
    forall m | m in r.members ensures exists q :: IsAsk(items, q) && m == AskedMember(items, q) {
      assert IsIntroduced(items, m);
    }
  }

  ghost predicate IsThere(ms: seq<Member>, fields: seq<PV>, m: Member, value: PV)
    requires |fields| == |ms|
  {
    exists k :: 0 <= k < |ms| && ms[k] == m && fields[k] == value
  }

  // ---------------------------------------------------------------- what can be rebuilt, and what goes where

  /** Description e is d, or occurs in it. */
  ghost predicate Contains(d: FieldDesc, e: FieldDesc)
    decreases d
  {
    d == e ||
    ((d.StructDesc? || d.StructArrayDesc? || d.UnionDesc? || d.UnionArrayDesc?) &&
     exists i :: 0 <= i < |d.members| && Contains(d.members[i].desc, e))
  }

  ghost predicate UnionInUnion(u: FieldDesc) {
    (u.UnionDesc? || u.UnionArrayDesc?) && exists m :: m in u.members && (m.desc.UnionDesc? || m.desc.UnionArrayDesc?)
  }

  /** A field cannot be rebuilt exactly if a union, or an array of unions, is somewhere directly inside another. */
  lemma {:induction false} CopyableIff(d: FieldDesc)
    ensures Copyable(d) <==> forall u :: Contains(d, u) ==> !UnionInUnion(u)
    decreases d
  {
    if !d.ScalarDesc? && !d.ScalarArrayDesc? {
      var ms := d.members;
      assert Contains(d, d);
      forall i | 0 <= i < |ms| ensures Copyable(ms[i].desc) <==> forall u :: Contains(ms[i].desc, u) ==> !UnionInUnion(u) {
        CopyableIff(ms[i].desc);
      }
      if i :| 0 <= i < |ms| && !Copyable(ms[i].desc) {
        var u :| Contains(ms[i].desc, u) && UnionInUnion(u);
        assert Contains(d, u);
      }
      if (d.UnionDesc? || d.UnionArrayDesc?) && !NoUnions(ms) {
        var i :| 0 <= i < |ms| && IsUnion(ms[i].desc);
        assert ms[i] in d.members && UnionInUnion(d);
      }
    }
  }

  /** A copy between fields of different kinds throws. */
  lemma OtherKindThrows(dest: PV, dd: FieldDesc, src: PV, sd: FieldDesc, lib: Library)
    requires HasShape(dest, dd) && Fits(src, sd) && Faithful(lib)
    requires || dd.ScalarDesc? != sd.ScalarDesc? || dd.ScalarArrayDesc? != sd.ScalarArrayDesc? || dd.StructDesc? != sd.StructDesc?
             || dd.StructArrayDesc? != sd.StructArrayDesc? || dd.UnionDesc? != sd.UnionDesc? || dd.UnionArrayDesc? != sd.UnionArrayDesc?
    ensures Copied(dest, dd, src, sd, lib) == None
  {
  }

  /** Child j of the source and field i of the destination have one name. */
  predicate Meets(dms: seq<Member>, i: nat, sms: seq<Member>, j: nat) {
    i < |dms| && j < |sms| && dms[i].name == sms[j].name
  }

  /** The first n children are copied: each to the field of its name, and no other field changes; or some copy throws. */
  ghost predicate CopiedByName(dest: seq<PV>, dms: seq<Member>, src: seq<PV>, sms: seq<Member>, n: nat, lib: Library, r: Option<seq<PV>>)
    requires ShapeFits(dest, dms) && StructFits(src, sms) && n <= |sms| && Faithful(lib)
  {
    match r
    case None =>
      exists i: nat, j: nat :: j < n && Meets(dms, i, sms, j) && Copied(dest[i], dms[i].desc, src[j], sms[j].desc, lib).None?
    case Some(fields) =>
      && |fields| == |dest|
      && (forall i: nat, j: nat :: j < n && Meets(dms, i, sms, j) ==>
            Copied(dest[i], dms[i].desc, src[j], sms[j].desc, lib) == Some(fields[i]))
      && (forall i: nat :: i < |dest| && (forall j: nat :: j < n ==> !Meets(dms, i, sms, j)) ==> fields[i] == dest[i])
  }

  /** copyStructureValue, whatever the two structures: children meet by name, in any order. */
  lemma {:induction false} CopyByName(dest: seq<PV>, dms: seq<Member>, src: seq<PV>, sms: seq<Member>, n: nat, lib: Library)
    requires ShapeFits(dest, dms) && StructFits(src, sms) && n <= |sms| && Faithful(lib) && ProperMembers(dms) && ProperMembers(sms)
    ensures CopiedByName(dest, dms, src, sms, n, lib, CopiedFields(dest, dms, src, sms, n, lib))
  {
    if n > 0 {
      CopyByName(dest, dms, src, sms, n - 1, lib);
      var before := CopiedFields(dest, dms, src, sms, n - 1, lib);
      var at := IndexOf(dms, sms[n - 1].name);
      if before.Some? && at.Some? {
        assert Meets(dms, at.value, sms, n - 1);
        OneMeeting(dms, at.value, sms, n - 1);
        assert before.value[at.value] == dest[at.value];
      }
    }
  }

  lemma OneMeeting(dms: seq<Member>, i: nat, sms: seq<Member>, j: nat)
    requires ProperMembers(dms) && ProperMembers(sms) && Meets(dms, i, sms, j)
    ensures forall i': nat {:trigger Meets(dms, i', sms, j)} :: Meets(dms, i', sms, j) ==> i' == i
    ensures forall j': nat {:trigger Meets(dms, i, sms, j')} :: Meets(dms, i, sms, j') ==> j' == j
  {
  }
}
