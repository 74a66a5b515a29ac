/**
  vllm/scalar_type.py: the packed identifier of a scalar type, how it reads back, and its registry.
*/
module ScalarTypes {
  import opened Options
  import opened Bits

  datatype NanRepr = NoNan | Ieee754 | ExtdRangeMaxMin {
    function Value(): nat {
      match this case NoNan => 0 case Ieee754 => 1 case ExtdRangeMaxMin => 2
    }
  }

  datatype ScalarType = ScalarType(
    exponent: int, mantissa: int, signed: bool, bias: int, finiteValuesOnly: bool, nanRepr: NanRepr)

  // ----- The identifier -----

  function Bit(b: bool): int {
    if b then 1 else 0
  }

  function Fields(t: ScalarType): seq<Field> {
    [(t.exponent, 8), (t.mantissa, 8), (Bit(t.signed), 1), (t.bias, 32), (Bit(t.finiteValuesOnly), 1),
     (t.nanRepr.Value(), 8)]
  }

  /** The local state of `id`: the value so far and the next free bit. */
  class Packer {
    var val: int
    var offset: nat

    constructor ()
      ensures val == Pack([]) && offset == Width([])
    {
      val, offset := 0, 0;
    }

    method OrAndAdvance(member: int, bitWidth: nat, ghost before: seq<Field>)
      requires val == Pack(before) && offset == Width(before)
      modifies this
      ensures val == Pack(before + [(member, bitWidth)]) && offset == Width(before + [(member, bitWidth)])
    {
      assert (before + [(member, bitWidth)])[..|before|] == before;
      var bitMask := Pow2(bitWidth) - 1;
      PackStep(val, Masked((member, bitWidth)), bitWidth, offset) by {
        PackFits(before);
      }
      val := Or(val, Shl(And(member, bitMask), offset));
      offset := offset + bitWidth;
    }
  }

  function Id(t: ScalarType): int {
    Pack(Fields(t))
  }

  lemma {:induction false} Offsets(t: ScalarType)
    ensures var fs := Fields(t);
            && Width(fs[..0]) == 0 && Width(fs[..1]) == 8 && Width(fs[..2]) == 16 && Width(fs[..3]) == 17
            && Width(fs[..4]) == 49 && Width(fs[..5]) == 50 && Width(fs) == 58
  {
    var fs := Fields(t);
    assert forall i | 0 <= i < 6 :: fs[..i + 1][..i] == fs[..i];
    assert fs[..6] == fs;
  }

  method ComputeId(t: ScalarType) returns (id: int)
    ensures id == Id(t) && 0 <= id < Pow2(64)
  {
    var fields := Fields(t);
    var p := new Packer();
    for i := 0 to |fields|
      invariant p.val == Pack(fields[..i]) && p.offset == Width(fields[..i])
    {
      assert fields[..i + 1] == fields[..i] + [fields[i]];
      p.OrAndAdvance(fields[i].0, fields[i].1, fields[..i]);
    }
    assert fields[..|fields|] == fields;
    Offsets(t);
    assert p.offset <= 64;
    id := p.val;
    PackFits(fields);
    Pow2Monotone(58, 64);
  }

  /** Where each member starts in the identifier, and how many bits it has. */
  function Offset(i: nat): nat
    requires i < 6
  {
    if i == 0 then 0 else if i == 1 then 8 else if i == 2 then 16 else if i == 3 then 17 else if i == 4 then 49 else 50
  }

  function Size(i: nat): nat
    requires i < 6
  {
    if i == 2 || i == 4 then 1 else if i == 3 then 32 else 8
  }

  function Members(id: int): seq<nat> {
    seq(6, i requires 0 <= i < 6 => Extract(id, Offset(i), Size(i)))
  }

  function FromMembers(m: seq<nat>): Option<ScalarType>
    requires |m| == 6
  {
    var bias: int := m[3];
    match NanOf(m[5])
    case None => None
    case Some(nan) =>
      Some(ScalarType(m[0], m[1], m[2] == 1, if bias < 0x8000_0000 then bias else bias - 0x1_0000_0000, m[4] == 1, nan))
  }

  /** The inverse, as from_id of csrc/core/scalar_type.hpp extracts the members again. */
  function FromBits(id: int): Option<ScalarType> {
    FromMembers(Members(id))
  }

  function NanOf(v: nat): Option<NanRepr> {
    if v == 0 then Some(NoNan) else if v == 1 then Some(Ieee754) else if v == 2 then Some(ExtdRangeMaxMin) else None
  }

  /** The members fit the bits they are given. */
  predicate InRange(t: ScalarType) {
    && 0 <= t.exponent < 256 && 0 <= t.mantissa < 256
    && -0x8000_0000 <= t.bias < 0x8000_0000
  }

  /** What is left of a type once every member is cut to its bits. */
  function Truncated(t: ScalarType): ScalarType {
    var b := t.bias % 0x1_0000_0000;
    t.(exponent := t.exponent % 256, mantissa := t.mantissa % 256,
       bias := if b < 0x8000_0000 then b else b - 0x1_0000_0000)
  }

  lemma {:induction false} Powers()
    ensures Pow2(1) == 2 && Pow2(8) == 256 && Pow2(32) == 0x1_0000_0000
  {
    assert Pow2(4) == 16;
    Pow2Add(4, 4);
    Pow2Add(8, 8);
    Pow2Add(16, 16);
  }

  /** Each member modulo the bits it has. */
  function Reduced(t: ScalarType): (m: seq<nat>)
    ensures |m| == 6 && forall i | 0 <= i < 6 :: m[i] == Masked(Fields(t)[i])
  {
    seq(6, i requires 0 <= i < 6 => Masked(Fields(t)[i]))
  }

  lemma {:induction false} LayoutAt(t: ScalarType, i: nat)
    requires i < 6
    ensures Offset(i) == Width(Fields(t)[..i]) && Size(i) == Fields(t)[i].1
  {
    Offsets(t);
  }

  lemma {:induction false} MembersOfId(t: ScalarType)
    ensures Members(Id(t)) == Reduced(t)
  {
    forall i | 0 <= i < 6 ensures Extract(Id(t), Offset(i), Size(i)) == Masked(Fields(t)[i]) {
      LayoutAt(t, i);
      ExtractPack(Fields(t), i);
    }
  }

  lemma {:induction false} ReducedAt(t: ScalarType, i: nat, member: int, p: nat)
    requires i < 6 && Fields(t)[i].0 == member && Pow2(Fields(t)[i].1) == p
    ensures Reduced(t)[i] == member % p
  {
    AndMask(Fields(t)[i].0, Fields(t)[i].1);
  }

  lemma {:induction false} ReducedWhole(t: ScalarType, i: nat, member: nat, p: nat)
    requires i < 6 && Fields(t)[i].0 == member && Pow2(Fields(t)[i].1) == p && member < p
    ensures Reduced(t)[i] == member
  {
    ReducedAt(t, i, member, p);
    DivModUnique(member, p, 0, member);
  }

  lemma {:induction false} ReducedFirst(t: ScalarType)
    ensures Reduced(t)[0] == t.exponent % 256 && Reduced(t)[1] == t.mantissa % 256 && Reduced(t)[2] == Bit(t.signed)
  {
    Powers();
    ReducedAt(t, 0, t.exponent, 256);
    ReducedAt(t, 1, t.mantissa, 256);
    ReducedWhole(t, 2, Bit(t.signed), 2);
  }

  lemma {:induction false} ReducedBias(t: ScalarType)
    ensures Reduced(t)[3] == t.bias % 0x1_0000_0000
  {
    Powers();
    ReducedAt(t, 3, t.bias, 0x1_0000_0000);
  }

  lemma {:induction false} ReducedFinite(t: ScalarType)
    ensures Reduced(t)[4] == Bit(t.finiteValuesOnly)
  {
    Powers();
    ReducedWhole(t, 4, Bit(t.finiteValuesOnly), 2);
  }

  lemma {:induction false} ReducedNan(t: ScalarType)
    ensures Reduced(t)[5] == t.nanRepr.Value()
  {
    Powers();
    ReducedWhole(t, 5, t.nanRepr.Value(), 256);
  }

  lemma {:induction false} SixMembers(m: seq<nat>)
    requires |m| == 6
    ensures m == [m[0], m[1], m[2], m[3], m[4], m[5]]
  {
  }

  lemma {:induction false} ReducedMembers(t: ScalarType)
    ensures Reduced(t) == [t.exponent % 256, t.mantissa % 256, Bit(t.signed), t.bias % 0x1_0000_0000,
                           Bit(t.finiteValuesOnly), t.nanRepr.Value()]
  {
    ReducedFirst(t);
    ReducedBias(t);
    ReducedFinite(t);
    ReducedNan(t);
    SixMembers(Reduced(t));
  }

  lemma {:induction false} FromReduced(t: ScalarType, m: seq<nat>)
    requires m == [t.exponent % 256, t.mantissa % 256, Bit(t.signed), t.bias % 0x1_0000_0000,
                   Bit(t.finiteValuesOnly), t.nanRepr.Value()]
    ensures FromMembers(m) == Some(Truncated(t))
  {
  }

  /** Reading an identifier back gives the type cut to its bits. */
  lemma {:induction false} FromBitsOfId(t: ScalarType)
    ensures FromBits(Id(t)) == Some(Truncated(t))
  {
    MembersOfId(t);
    ReducedMembers(t);
    FromReduced(t, Reduced(t));
  }

  lemma {:induction false} TruncatedIsSame(t: ScalarType)
    ensures Truncated(t) == t <==> InRange(t)
  {
  }

  /** Round trip: the type comes back exactly when its members are in range. */
  lemma {:induction false} RoundTripIffInRange(t: ScalarType)
    ensures FromBits(Id(t)) == Some(t) <==> InRange(t)
  {
    FromBitsOfId(t);
    TruncatedIsSame(t);
  }

  lemma {:induction false} SameBits(s: ScalarType, t: ScalarType)
    requires Truncated(s) == Truncated(t)
    ensures Id(s) == Id(t)
  {
    ReducedMembers(s);
    ReducedMembers(t);
    assert Reduced(s) == Reduced(t);
    PackCongruent(Fields(s), Fields(t));
  }

  /** Two types share an identifier exactly when they agree on the kept bits; in range, when they are equal. */
  lemma {:induction false} SameIdIff(s: ScalarType, t: ScalarType)
    ensures Id(s) == Id(t) <==> Truncated(s) == Truncated(t)
    ensures InRange(s) && InRange(t) && Id(s) == Id(t) ==> s == t
  {
    FromBitsOfId(s);
    FromBitsOfId(t);
    TruncatedIsSame(s);
    TruncatedIsSame(t);
    if Truncated(s) == Truncated(t) {
      SameBits(s, t);
    }
  }

  // ----- The registry -----

  datatype Result<T> = Ok(value: T) | ValueError | AssertionError

  /** Registering `t` replaces entry `k` exactly if that is another type with the same kept bits. */
  ghost predicate Displaces(types: map<int, ScalarType>, t: ScalarType, k: int)
    requires k in types
  {
    && (types[Id(t) := t][k] != types[k] <==> types[k] != t && Truncated(types[k]) == Truncated(t))
    && (InRange(types[k]) && InRange(t) ==> types[Id(t) := t][k] == types[k])
  }

  lemma {:induction false} DisplacesIff(types: map<int, ScalarType>, t: ScalarType, k: int)
    requires k in types && Id(types[k]) == k
    ensures Displaces(types, t, k)
  {
    SameIdIff(types[k], t);
  }

  /** One ScalarType object: its members, and the identifier once it has been read. */
  class TypeObject {
    const value: ScalarType
    var cachedId: Option<int>

    ghost predicate Valid()
      reads this
    {
      cachedId.Some? ==> cachedId.value == Id(value)
    }

    constructor (value: ScalarType)
      ensures Valid() && this.value == value && cachedId == None
    {
      this.value, cachedId := value, None;
    }
  }

  /** _SCALAR_TYPES_ID_MAP and the operations that touch it. */
  class Registry {
    var types: map<int, ScalarType>

    ghost predicate Valid()
      reads this
    {
      forall k <- types :: Id(types[k]) == k
    }

    ghost predicate AllInRange()
      reads this
    {
      forall k <- types :: InRange(types[k])
    }

    constructor ()
      ensures Valid() && types == map[]
    {
      types := map[];
    }

    /**
      The first reading of `id` registers the type; later ones only return it.  Another type is
      displaced exactly when it agrees with the new one on the kept bits, so never while all types
      are in range.
    */
    method ReadId(o: TypeObject) returns (id: int)
      requires Valid() && o.Valid()
      modifies this, o
      ensures Valid() && o.cachedId == Some(Id(o.value)) && id == Id(o.value)
      ensures types == if old(o.cachedId).Some? then old(types) else old(types)[id := o.value]
      ensures old(o.cachedId) == None ==> forall k <- old(types) :: Displaces(old(types), o.value, k)
      ensures old(AllInRange()) && InRange(o.value) ==>
                AllInRange() && forall k <- old(types) :: types[k] == old(types)[k]
    {
      if o.cachedId.Some? {
        return o.cachedId.value;
      }
      id := ComputeId(o.value);
      forall k | k in types ensures Displaces(types, o.value, k) {
        DisplacesIff(types, o.value, k);
      }
      types := types[id := o.value];
      o.cachedId := Some(id);
    }

    method FromId(id: int) returns (r: Result<ScalarType>)
      requires Valid()
      ensures r == if id in types then Ok(types[id]) else ValueError
      ensures r.Ok? ==> FromBits(id) == Some(Truncated(r.value))
      ensures r.Ok? && AllInRange() ==> FromBits(id) == Some(r.value)
    {
      if id !in types {
        return ValueError;
      }
      FromBitsOfId(types[id]);
      RoundTripIffInRange(types[id]);
      return Ok(types[id]);
    }

    /** A new object whose identifier has been read. */
    method Construct(t: ScalarType) returns (o: TypeObject)
      requires Valid()
      modifies this
      ensures Valid() && fresh(o) && o.value == t && o.cachedId == Some(Id(t)) && types == old(types)[Id(t) := t]
      ensures old(AllInRange()) && InRange(t) ==> AllInRange() && forall k <- old(types) :: types[k] == old(types)[k]
    {
      o := new TypeObject(t);
      var _ := ReadId(o);
    }

    method Int(sizeBits: int, bias: Option<int>) returns (o: TypeObject)
      requires Valid()
      modifies this
      ensures Valid() && fresh(o) && o.value == ScalarType(0, sizeBits - 1, true, Default(bias), false, Ieee754)
      ensures o.cachedId == Some(Id(o.value)) && types == old(types)[Id(o.value) := o.value]
      ensures old(AllInRange()) && InRange(o.value) ==> forall k <- old(types) :: types[k] == old(types)[k]
    {
      o := Construct(ScalarType(0, sizeBits - 1, true, Default(bias), false, Ieee754));
    }

    method Uint(sizeBits: int, bias: Option<int>) returns (o: TypeObject)
      requires Valid()
      modifies this
      ensures Valid() && fresh(o) && o.value == ScalarType(0, sizeBits, false, Default(bias), false, Ieee754)
      ensures o.cachedId == Some(Id(o.value)) && types == old(types)[Id(o.value) := o.value]
      ensures old(AllInRange()) && InRange(o.value) ==> forall k <- old(types) :: types[k] == old(types)[k]
    {
      o := Construct(ScalarType(0, sizeBits, false, Default(bias), false, Ieee754));
    }

    method FloatIeee754(exponent: int, mantissa: int) returns (r: Result<TypeObject>)
      requires Valid()
      modifies this
      ensures Valid() && (r.Ok? <==> mantissa > 0 && exponent > 0)
      ensures (!r.Ok? ==> r == AssertionError && types == old(types))
      ensures r.Ok? ==>
                && fresh(r.value) && r.value.value == ScalarType(exponent, mantissa, true, 0, false, Ieee754)
                && types == old(types)[Id(r.value.value) := r.value.value]
      ensures old(AllInRange()) && exponent < 256 && mantissa < 256 ==>
                forall k <- old(types) :: types[k] == old(types)[k]
    {
      if mantissa <= 0 || exponent <= 0 {
        return AssertionError;
      }
      var o := Construct(ScalarType(exponent, mantissa, true, 0, false, Ieee754));
      return Ok(o);
    }

    method Float(exponent: int, mantissa: int, finiteOnly: bool, nan: NanRepr) returns (r: Result<TypeObject>)
      requires Valid()
      modifies this
      ensures Valid() && (r.Ok? <==> mantissa > 0 && exponent > 0 && !nan.Ieee754?)
      ensures !r.Ok? ==> r == AssertionError && types == old(types)
      ensures r.Ok? ==>
                && fresh(r.value) && r.value.value == ScalarType(exponent, mantissa, true, 0, finiteOnly, nan)
                && types == old(types)[Id(r.value.value) := r.value.value]
      ensures old(AllInRange()) && exponent < 256 && mantissa < 256 ==>
                forall k <- old(types) :: types[k] == old(types)[k]
    {
      if mantissa <= 0 || exponent <= 0 || nan.Ieee754? {
        return AssertionError;
      }
      var o := Construct(ScalarType(exponent, mantissa, true, 0, finiteOnly, nan));
      return Ok(o);
    }
  }

  function Default(bias: Option<int>): int {
    match bias case None => 0 case Some(b) => b
  }

  // ----- Runs of identifier readings -----

  /** The registry, and which objects hold a cached identifier. */
  datatype Readings = Readings(types: map<int, ScalarType>, cached: set<nat>)

  function ReadOne(objects: seq<ScalarType>, r: Readings, i: nat): Readings
    requires i < |objects|
  {
    if i in r.cached then r else Readings(r.types[Id(objects[i]) := objects[i]], r.cached + {i})
  }

  predicate ListsObjects(objects: seq<ScalarType>, order: seq<nat>) {
    forall k | 0 <= k < |order| :: order[k] < |objects|
  }

  /** What is left after reading the identifiers of these objects in turn, some of them repeatedly. */
  function AfterReading(objects: seq<ScalarType>, order: seq<nat>): Readings
    requires ListsObjects(objects, order)
  {
    if order == [] then Readings(map[], {})
    else ReadOne(objects, AfterReading(objects, order[..|order| - 1]), order[|order| - 1])
  }

  lemma {:induction false} InOrder(order: seq<nat>, i: nat)
    requires order != []
    ensures i in order <==> i in order[..|order| - 1] || i == order[|order| - 1]
  {
    assert order == order[..|order| - 1] + [order[|order| - 1]];
  }

  lemma {:induction false} CachedAreRead(objects: seq<ScalarType>, order: seq<nat>, i: nat)
    requires ListsObjects(objects, order)
    ensures i in AfterReading(objects, order).cached <==> i in order
  {
    if order != [] {
      CachedAreRead(objects, order[..|order| - 1], i);
      InOrder(order, i);
    }
  }

  /** The identifier of object `i` leads back to its type. */
  ghost predicate LeadsBack(objects: seq<ScalarType>, r: Readings, i: nat) {
    i < |objects| && Id(objects[i]) in r.types && r.types[Id(objects[i])] == objects[i]
  }

  /** Objects that agree on the kept bits have the same type. */
  ghost predicate NoClash(objects: seq<ScalarType>) {
    forall i, j | 0 <= i < |objects| && 0 <= j < |objects| && Truncated(objects[i]) == Truncated(objects[j]) ::
      objects[i] == objects[j]
  }

  lemma {:induction false} ReadOneLeadsBack(objects: seq<ScalarType>, r: Readings, j: nat, i: nat)
    requires i < |objects| && j < |objects| && NoClash(objects) && (i in r.cached ==> LeadsBack(objects, r, i))
    ensures var r1 := ReadOne(objects, r, j); i in r1.cached ==> LeadsBack(objects, r1, i)
  {
    SameIdIff(objects[j], objects[i]);
  }

  lemma {:induction false} AllLeadBack(objects: seq<ScalarType>, order: seq<nat>, i: nat)
    requires i < |objects| && ListsObjects(objects, order) && NoClash(objects)
    ensures i in AfterReading(objects, order).cached ==> LeadsBack(objects, AfterReading(objects, order), i)
  {
    if order != [] {
      AllLeadBack(objects, order[..|order| - 1], i);
      ReadOneLeadsBack(objects, AfterReading(objects, order[..|order| - 1]), order[|order| - 1], i);
    }
  }

  /** After this run of readings from_id(t.id) is t for every object read. */
  ghost predicate AllFound(objects: seq<ScalarType>, order: seq<nat>) {
    ListsObjects(objects, order) ==> forall i <- order :: LeadsBack(objects, AfterReading(objects, order), i)
  }

  lemma {:induction false} NoClashFinds(objects: seq<ScalarType>, order: seq<nat>)
    requires NoClash(objects)
    ensures AllFound(objects, order)
  {
    if ListsObjects(objects, order) {
      forall i | i in order ensures LeadsBack(objects, AfterReading(objects, order), i) {
        CachedAreRead(objects, order, i);
        AllLeadBack(objects, order, i);
      }
    }
  }

  lemma {:induction false} ReadTwo(objects: seq<ScalarType>, i: nat, j: nat)
    requires i < |objects| && j < |objects| && i != j
    ensures AfterReading(objects, [i, j]).types == map[Id(objects[i]) := objects[i]][Id(objects[j]) := objects[j]]
  {
    assert [i, j][..1] == [i] && [i][..0] == [];
    assert AfterReading(objects, [i]) == ReadOne(objects, AfterReading(objects, []), i);
  }

  /** Two objects that agree on the kept bits only: reading one after the other displaces the first. */
  lemma {:induction false} ClashDisplaces(objects: seq<ScalarType>, i: nat, j: nat)
    requires i < |objects| && j < |objects| && objects[i] != objects[j]
    requires Truncated(objects[i]) == Truncated(objects[j])
    ensures !AllFound(objects, [i, j])
  {
    SameIdIff(objects[i], objects[j]);
    ReadTwo(objects, i, j);
    assert i in [i, j] && !LeadsBack(objects, AfterReading(objects, [i, j]), i);
  }

  /** Every run of readings finds every type read if and only if no two objects clash. */
  lemma {:induction false} FoundAfterAnyRunIff(objects: seq<ScalarType>)
    ensures (forall order :: AllFound(objects, order)) <==> NoClash(objects)
  {
    if NoClash(objects) {
      forall order ensures AllFound(objects, order) {
        NoClashFinds(objects, order);
      }
    } else {
      var i, j :| 0 <= i < |objects| && 0 <= j < |objects|
                  && Truncated(objects[i]) == Truncated(objects[j]) && objects[i] != objects[j];
      ClashDisplaces(objects, i, j);
    }
  }

  /** In particular for in-range types. */
  lemma {:induction false} FromIdAfterAnyRun(objects: seq<ScalarType>, order: seq<nat>)
    requires forall j | 0 <= j < |objects| :: InRange(objects[j])
    ensures NoClash(objects) && AllFound(objects, order)
  {
    forall i, j | 0 <= i < |objects| && 0 <= j < |objects| && Truncated(objects[i]) == Truncated(objects[j])
      ensures objects[i] == objects[j]
    {
      SameIdIff(objects[i], objects[j]);
    }
    NoClashFinds(objects, order);
  }

  lemma {:induction false} Wraps(e: int)
    ensures (e + 256) % 256 == e % 256
  {
  }

  /** Out of range the promise fails: a type with one exponent bit too many has the identifier of another. */
  lemma {:induction false} OutOfRangeCollides(t: ScalarType)
    ensures var u := t.(exponent := t.exponent + 256); u != t && Id(u) == Id(t) && !(InRange(t) && InRange(u))
  {
    var u := t.(exponent := t.exponent + 256);
    Wraps(t.exponent);
    assert Truncated(t) == Truncated(u);
    SameBits(u, t);
  }

  /** The displaced type does not come back when its identifier is read again, whatever was read before. */
  lemma {:induction false} DisplacedStaysDisplaced(t: ScalarType, r: Readings)
    requires 0 !in r.cached && 1 !in r.cached
    ensures var u := t.(exponent := t.exponent + 256);
            var objects := [t, u];
            var after := ReadOne(objects, ReadOne(objects, ReadOne(objects, r, 0), 1), 0);
            u != t && Id(t) in after.types && after.types[Id(t)] == u
  {
    OutOfRangeCollides(t);
  }
}
