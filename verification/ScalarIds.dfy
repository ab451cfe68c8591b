/** The packed id of a scalar type and the registry behind `from_id` (vllm/scalar_type.py, with the
    decoder of csrc/core/scalar_type.hpp). */
module ScalarIds {
  import opened Blocks
  import opened Options
  import opened Powers
  import opened ScalarTypes

  // ---- Masking --------------------------------------------------------------------------------

  /** Bitwise and, of an integer in two's complement and a mask. */
  function And(x: int, y: nat): nat
    decreases y
  {
    if y == 0 then 0 else (if x % 2 == 1 && y % 2 == 1 then 1 else 0) + 2 * And(x / 2, y / 2)
  }

  /** Masking the low bits of an integer, negative or not, is reducing it. */
  lemma {:induction false} AndMask(x: int, w: nat)
    ensures Pow2(w) > 0 && And(x, Pow2(w) - 1) == x % Pow2(w)
    decreases w
  {
    hide Pow2, And;
    if w == 0 {
      Pow2Next(0);
      AndZero(x);
    } else {
      var q := Pow2(w - 1);
      Pow2Positive(w - 1);
      Pow2Next(w - 1);
      AndMask(x / 2, w - 1);
      AndStep(x, q);
      ModDouble(x, q);
    }
  }

  lemma {:induction false} AndZero(x: int)
    ensures And(x, 0) == 0 && x % 1 == 0
  {
  }

  lemma {:induction false} AndStep(x: int, q: nat)
    requires q > 0
    ensures And(x, 2 * q - 1) == x % 2 + 2 * And(x / 2, q - 1)
  {
    assert (2 * q - 1) / 2 == q - 1;
  }

  lemma {:induction false} ModDouble(x: int, q: int)
    requires q > 0
    ensures x % (2 * q) == x % 2 + 2 * (x / 2 % q)
  {
    var y := x / 2;
    var a, b := y / q, y % q;
    DivIs(y, q);
    var p := a * q;
    assert a * (2 * q) == 2 * p;
    DivUnique(x, 2 * q, a, 2 * b + x % 2);
  }

  lemma {:induction false} DivIs(y: int, q: int)
    requires q > 0
    ensures y == y / q * q + y % q && 0 <= y % q < q
  {
  }

  function Low(x: int, w: nat): nat {
    Pow2Positive(w);
    x % Pow2(w)
  }

  /** `or_and_advance` */
  method OrAndAdvance(val: nat, offset: nat, member: int, width: nat) returns (val': nat, offset': nat)
    requires val < Pow2(offset)
    ensures val' == val + At(Low(member, width), Pow2(offset)) && offset' == offset + width && val' < Pow2(offset')
  {
    Pow2Positive(width);
    var mask := Pow2(width) - 1;
    AndMask(member, width);
    OrDisjoint(val, Low(member, width), offset);
    val' := Or(val, At(And(member, mask), Pow2(offset)));
    offset' := offset + width;
    Advanced(val, offset, Low(member, width), width);
  }

  lemma {:induction false} Advanced(val: nat, offset: nat, x: nat, width: nat)
    requires val < Pow2(offset) && x < Pow2(width)
    ensures val + At(x, Pow2(offset)) < Pow2(offset + width)
  {
    Pow2Add(width, offset);
    var p, q := Pow2(width), Pow2(offset);
    assert Pow2(offset + width) == At(p, q);
    hide Pow2, At;
    AtSum(x, p - x, q);
    AtPositive(p - x, q);
  }

  lemma {:induction false} AtPositive(x: nat, q: nat)
    requires x > 0
    ensures At(x, q) >= q
  {
    AtSum(1, x - 1, q);
  }

  // ---- The id ---------------------------------------------------------------------------------

  function NanCode(n: NanRepr): nat {
    match n
    case NoNans => 0
    case Ieee754 => 1
    case ExtendedRange => 2
  }

  function Bit(b: bool): nat {
    if b then 1 else 0
  }

  /** Six fields of 8, 8, 1, 32, 1 and 8 bits, from the lowest on. */
  function Packed(exponent: nat, mantissa: nat, signed: nat, bias: nat, finiteOnly: nat, nan: nat): nat {
    exponent + 0x100 * (mantissa + 0x100 * (signed + 2 * (bias + 0x1_0000_0000 * (finiteOnly + 2 * nan))))
  }

  function Id(t: ScalarType): nat {
    Packed(t.exponent % 0x100, t.mantissa % 0x100, Bit(t.signed), t.bias % 0x1_0000_0000, Bit(t.finiteOnly),
           NanCode(t.nanRepr))
  }

  /** Where the fields are: the exponent lowest, then the mantissa, the sign, the bias, and whether the type has finite
      values only, and the code of its NaNs on top. */
  lemma {:induction false} IdIs(t: ScalarType)
    ensures Id(t) == t.exponent % 0x100 + 0x100 * (t.mantissa % 0x100) + (if t.signed then 0x1_0000 else 0) +
                     0x2_0000 * (t.bias % 0x1_0000_0000) + (if t.finiteOnly then 0x2_0000_0000_0000 else 0) +
                     (match t.nanRepr
                      case NoNans => 0
                      case Ieee754 => 0x4_0000_0000_0000
                      case ExtendedRange => 0x8_0000_0000_0000)
  {
  }

  /** `id`: the steps put every field at its place, in 58 bits. */
  method ComputeId(t: ScalarType) returns (val: nat)
    ensures val == Id(t) && val < 0x400_0000_0000_0000
  {
    PowersUsed();
    hide Pow2, At, Packed;
    var offset;
    val, offset := OrAndAdvance(0, 0, t.exponent, 8);
    val, offset := OrAndAdvance(val, offset, t.mantissa, 8);
    val, offset := OrAndAdvance(val, offset, Bit(t.signed), 1);
    val, offset := OrAndAdvance(val, offset, t.bias, 32);
    val, offset := OrAndAdvance(val, offset, Bit(t.finiteOnly), 1);
    val, offset := OrAndAdvance(val, offset, NanCode(t.nanRepr), 8);
    assert offset <= 64;
    Places(t.exponent % 0x100, t.mantissa % 0x100, Bit(t.signed), t.bias % 0x1_0000_0000, Bit(t.finiteOnly),
           NanCode(t.nanRepr));
  }

  lemma {:induction false} Places(a: nat, b: nat, c: nat, d: nat, f: nat, n: nat)
    ensures Packed(a, b, c, d, f, n) ==
            At(a, 1) + At(b, 0x100) + At(c, 0x1_0000) + At(d, 0x2_0000) + At(f, 0x2_0000_0000_0000) +
              At(n, 0x4_0000_0000_0000)
  {
  }

  lemma {:induction false} PowersUsed()
    ensures Pow2(0) == 1 && Pow2(1) == 2 && Pow2(8) == 0x100 && Pow2(16) == 0x1_0000 && Pow2(17) == 0x2_0000
    ensures Pow2(32) == 0x1_0000_0000 && Pow2(49) == 0x2_0000_0000_0000 && Pow2(50) == 0x4_0000_0000_0000
    ensures Pow2(58) == 0x400_0000_0000_0000
  {
    assert Pow2(8) == 0x100;
    hide Pow2;
    Pow2Add(8, 8);
    Pow2Add(16, 1);
    Pow2Add(16, 16);
    Pow2Add(32, 17);
    Pow2Add(49, 1);
    Pow2Add(50, 8);
  }

  // ---- Decoding -------------------------------------------------------------------------------

  /** Fields that fit their widths. */
  predicate InRange(t: ScalarType) {
    0 <= t.exponent < 0x100 && 0 <= t.mantissa < 0x100 && -0x8000_0000 <= t.bias < 0x8000_0000
  }

  function AsSigned32(x: nat): int {
    if x < 0x8000_0000 then x else x - 0x1_0000_0000
  }

  function NanOf(code: nat): NanRepr {
    if code == 0 then NoNans else if code == 1 then Ieee754 else ExtendedRange
  }

  /** The decoder: it shifts past one field after the other and masks, and takes the bias as a signed
      32-bit integer. */
  function Decode(id: nat): ScalarType {
    var r1 := id / 0x100;
    var r2 := r1 / 0x100;
    var r3 := r2 / 2;
    var r4 := r3 / 0x1_0000_0000;
    ScalarType(id % 0x100, r1 % 0x100, r2 % 2 == 1, AsSigned32(r3 % 0x1_0000_0000), r4 % 2 == 1, NanOf(r4 / 2 % 0x100))
  }

  /** The lowest field, and the rest. */
  lemma {:induction false} Peel(x: nat, rest: nat, base: nat, id: nat)
    requires x < base && id == x + base * rest
    ensures id % base == x && id / base == rest
  {
    DivUnique(id, base, rest, x);
  }

  lemma {:induction false} Unpack(a: nat, b: nat, c: nat, d: nat, f: nat, n: nat)
    requires a < 0x100 && b < 0x100 && c < 2 && d < 0x1_0000_0000 && f < 2 && n < 0x100
    ensures var r0 := Packed(a, b, c, d, f, n);
            var r1 := r0 / 0x100;
            var r2 := r1 / 0x100;
            var r3 := r2 / 2;
            var r4 := r3 / 0x1_0000_0000;
            r0 % 0x100 == a && r1 % 0x100 == b && r2 % 2 == c && r3 % 0x1_0000_0000 == d && r4 % 2 == f && r4 / 2 == n
  {
    var r4 := f + 2 * n;
    var r3 := d + 0x1_0000_0000 * r4;
    var r2 := c + 2 * r3;
    var r1 := b + 0x100 * r2;
    Peel(a, r1, 0x100, a + 0x100 * r1);
    Peel(b, r2, 0x100, r1);
    Peel(c, r3, 2, r2);
    Peel(d, r4, 0x1_0000_0000, r3);
    Peel(f, n, 2, r4);
  }

  lemma {:induction false} SignedBack(bias: int)
    requires -0x8000_0000 <= bias < 0x8000_0000
    ensures AsSigned32(bias % 0x1_0000_0000) == bias
  {
  }

  /** The id decodes back to the type. */
  lemma {:induction false} RoundTrip(t: ScalarType)
    requires InRange(t)
    ensures Decode(Id(t)) == t
  {
    hide Packed;
    SignedBack(t.bias);
    Unpack(t.exponent % 0x100, t.mantissa % 0x100, Bit(t.signed), t.bias % 0x1_0000_0000, Bit(t.finiteOnly),
           NanCode(t.nanRepr));
  }

  /** Any two types share an id exactly when their fields agree up to the widths. */
  lemma {:induction false} SameIdIff(t: ScalarType, u: ScalarType)
    ensures Id(t) == Id(u) <==>
            && t.exponent % 0x100 == u.exponent % 0x100 && t.mantissa % 0x100 == u.mantissa % 0x100
            && t.signed == u.signed && t.bias % 0x1_0000_0000 == u.bias % 0x1_0000_0000
            && t.finiteOnly == u.finiteOnly && t.nanRepr == u.nanRepr
  {
    hide Packed;
    Unpack(t.exponent % 0x100, t.mantissa % 0x100, Bit(t.signed), t.bias % 0x1_0000_0000, Bit(t.finiteOnly),
           NanCode(t.nanRepr));
    Unpack(u.exponent % 0x100, u.mantissa % 0x100, Bit(u.signed), u.bias % 0x1_0000_0000, Bit(u.finiteOnly),
           NanCode(u.nanRepr));
  }

  // ---- The registry ---------------------------------------------------------------------------

  /** The registry, with the types whose ids were asked for, in order. */
  class Registry {
    var byId: map<int, ScalarType>
    ghost var constructed: seq<ScalarType>

    ghost predicate Valid()
      reads this
    {
      byId == Registered(constructed, |constructed|)
    }

    constructor ()
      ensures Valid() && constructed == []
    {
      byId, constructed := map[], [];
    }

    /** The first use of `id` on a type, which also records the type. */
    method TypeId(t: ScalarType) returns (id: nat)
      requires Valid()
      modifies this
      ensures Valid() && id == Id(t) && constructed == old(constructed) + [t]
    {
      hide Id;
      id := ComputeId(t);
      RegisteredNext(constructed, t);
      byId := byId[id := t];
      constructed := constructed + [t];
    }

    /** `from_id`, where `None` is the error: it knows exactly the ids of constructed types, finds the last one
        constructed with that id, and if all fields were in range that is the type the id encodes. */
    method FromId(id: int) returns (r: Option<ScalarType>)
      requires Valid()
      ensures r.None? <==> forall i :: 0 <= i < |constructed| ==> Id(constructed[i]) != id
      ensures r.Some? ==> LastWithId(constructed, id, r.value)
      ensures r.Some? && AllInRange(constructed) ==> id >= 0 && r == Some(Decode(id))
    {
      hide Id, Decode, Registered, LastWithId;
      FoundIff(constructed, |constructed|, id);
      if id in byId {
        FoundDecodes(constructed, id);
      }
      r := if id in byId then Some(byId[id]) else None;
    }

    /** Constructs types one after the other. */
    method ConstructAll(ts: seq<ScalarType>)
      requires Valid()
      modifies this
      ensures Valid() && constructed == old(constructed) + ts
    {
      hide Id;
      for i := 0 to |ts|
        invariant Valid() && constructed == old(constructed) + ts[..i]
      {
        var id := TypeId(ts[i]);
      }
    }
  }

  predicate AllInRange(ts: seq<ScalarType>) {
    forall k :: 0 <= k < |ts| ==> InRange(ts[k])
  }

  /** `t` is the last type with this id. */
  predicate LastWithId(ts: seq<ScalarType>, id: int, t: ScalarType) {
    exists j :: 0 <= j < |ts| && ts[j] == t && Id(ts[j]) == id && forall k :: j < k < |ts| ==> Id(ts[k]) != id
  }

  /** What the registry holds after the first `n` types are constructed. */
  function Registered(ts: seq<ScalarType>, n: nat): map<int, ScalarType>
    requires n <= |ts|
  {
    if n == 0 then map[] else Registered(ts, n - 1)[Id(ts[n - 1]) := ts[n - 1]]
  }

  lemma {:induction false} RegisteredNext(ts: seq<ScalarType>, t: ScalarType)
    ensures Registered(ts + [t], |ts| + 1) == Registered(ts, |ts|)[Id(t) := t]
  {
    hide Id;
    RegisteredPrefix(ts, t, |ts|);
  }

  lemma {:induction false} RegisteredPrefix(ts: seq<ScalarType>, t: ScalarType, n: nat)
    requires n <= |ts|
    ensures Registered(ts + [t], n) == Registered(ts, n)
  {
    hide Id;
    if n == 0 {
    } else {
      RegisteredPrefix(ts, t, n - 1);
    }
  }

  /** The ids that are known are those of the constructed types. */
  lemma {:induction false} FoundIff(ts: seq<ScalarType>, n: nat, id: int)
    requires n <= |ts|
    ensures id in Registered(ts, n) <==> exists i :: 0 <= i < n && Id(ts[i]) == id
  {
    hide Id;
    if n == 0 {
    } else {
      FoundIff(ts, n - 1, id);
    }
  }

  lemma {:induction false} FoundDecodes(ts: seq<ScalarType>, id: int)
    requires id in Registered(ts, |ts|)
    ensures LastWithId(ts, id, Registered(ts, |ts|)[id])
    ensures AllInRange(ts) ==> id >= 0 && Registered(ts, |ts|)[id] == Decode(id)
  {
    hide Id, Decode, Registered;
    FoundIff(ts, |ts|, id);
    var i :| 0 <= i < |ts| && Id(ts[i]) == id;
    var j := LastWins(ts, |ts|, i);
    if AllInRange(ts) {
      RoundTrip(ts[j]);
    }
  }

  /** A look-up by the id of a constructed type finds the last one constructed with that id. */
  lemma {:induction false} LastWins(ts: seq<ScalarType>, n: nat, i: nat) returns (j: nat)
    requires i < n <= |ts|
    ensures i <= j < n && Id(ts[j]) == Id(ts[i]) && Id(ts[i]) in Registered(ts, n)
    ensures Registered(ts, n)[Id(ts[i])] == ts[j] && forall k :: j < k < n ==> Id(ts[k]) != Id(ts[i])
  {
    hide Id;
    if Id(ts[n - 1]) == Id(ts[i]) {
      j := n - 1;
    } else {
      j := LastWins(ts, n - 1, i);
    }
  }

  /** After any constructions of types with fields in range, every id leads back to its type. */
  lemma {:induction false} FromIdOfId(ts: seq<ScalarType>, i: nat)
    requires i < |ts| && forall k :: 0 <= k < |ts| ==> InRange(ts[k])
    ensures Id(ts[i]) in Registered(ts, |ts|) && Registered(ts, |ts|)[Id(ts[i])] == ts[i]
  {
    hide Id, Decode;
    var j := LastWins(ts, |ts|, i);
    RoundTrip(ts[i]);
    RoundTrip(ts[j]);
  }

  /** Constructs the types, takes the id of one and looks it up: the type comes back when all fields are in range,
      and in any case the last one with that id does. */
  method ConstructAndFind(ts: seq<ScalarType>, i: nat) returns (r: Option<ScalarType>)
    requires i < |ts|
    ensures r.Some? && LastWithId(ts, Id(ts[i]), r.value)
    ensures AllInRange(ts) ==> r == Some(ts[i])
  {
    hide Id, Decode, LastWithId, Registered;
    var registry := new Registry();
    registry.ConstructAll(ts);
    assert registry.constructed == ts;
    var id := ComputeId(ts[i]);
    r := registry.FromId(id);
    if AllInRange(ts) {
      RoundTrip(ts[i]);
    }
  }

  /** Out of range it can fail: a bias of a whole 32-bit word is lost, and the later type is found. */
  lemma {:induction false} BiasOutOfRange(bias: int) returns (t: ScalarType, u: ScalarType)
    ensures t.bias == bias && t != u && Id(t) == Id(u) && Registered([t, u], 2)[Id(t)] == u
  {
    t := ScalarType(0, 4, false, bias, false, Ieee754);
    u := t.(bias := bias + 0x1_0000_0000);
    assert u.bias % 0x1_0000_0000 == t.bias % 0x1_0000_0000;
    SameIdIff(t, u);
    hide Id;
    assert Registered([t, u], 2) == Registered([t, u], 1)[Id(u) := u];
  }
}
