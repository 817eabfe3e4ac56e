/** Seeded randomness and the per-node modifier flags (src/game/modifiers.js):
    the 32-bit FNV-1a string hash, the mod-2^32 linear congruential generator
    behind `seededRandom`, the draw of one or two modifier flags per node,
    and the difficulty/reward impact of a flag set. */
module Modifiers {
  import opened Wrappers
  import opened JsInt
  import opened MapNodes

  /** A UTF-16 code unit, as `charCodeAt` returns it. */
  type CodeUnit = c: int | 0 <= c < 0x10000

  const FNV_OFFSET: int := 2166136261
  const FNV_PRIME: int := 16777619

  /** One step of 32-bit FNV-1a: xor in the code unit, multiply by the
      FNV prime modulo 2^32. */
  function FnvStep(h: int, c: CodeUnit): (r: int)
    requires 0 <= h < TWO32
    ensures 0 <= r < TWO32
  {
    (XorU32(h, c) * FNV_PRIME) % TWO32
  }

  /** 32-bit FNV-1a over a sequence of code units, folded from the left. */
  function Fnv1a(input: seq<CodeUnit>): (r: int)
    ensures 0 <= r < TWO32
  {
    if input == [] then FNV_OFFSET
    else FnvStep(Fnv1a(input[..|input| - 1]), input[|input| - 1])
  }

  /** The hash's loop body, `h ^= c; h += (h << 1) + (h << 4) + (h << 7) +
      (h << 8) + (h << 24)`, agrees with an FNV-1a step modulo 2^32:
      the shifts add up to multiplying by 16777619. */
  lemma StepIsFnv(h: int, c: CodeUnit)
    ensures var x := ToInt32(XorU32(ToUint32(h), c));
      ToUint32(x + (Shl(x, 1) + Shl(x, 4) + Shl(x, 7) + Shl(x, 8) + Shl(x, 24))) == FnvStep(ToUint32(h), c)
  {
    var X := XorU32(ToUint32(h), c);
    var x := ToInt32(X);
    assert Pow2(1) == 2 && Pow2(4) == 16 && Pow2(7) == 128 && Pow2(8) == 256;
    assert Pow2(24) == 16777216 by { assert Pow2(16) == 65536; }
    ShlCong(x, 1); ShlCong(x, 4); ShlCong(x, 7); ShlCong(x, 8); ShlCong(x, 24);
    var a, b, d, e, f := Shl(x, 1), Shl(x, 4), Shl(x, 7), Shl(x, 8), Shl(x, 24);
    CongAdd(a, x * 2, b, x * 16);
    CongAdd(a + b, x * 2 + x * 16, d, x * 128);
    CongAdd(a + b + d, x * 2 + x * 16 + x * 128, e, x * 256);
    CongAdd(a + b + d + e, x * 2 + x * 16 + x * 128 + x * 256, f, x * 16777216);
    assert Cong(x, x);
    CongAdd(x, x, a + b + d + e + f, x * 2 + x * 16 + x * 128 + x * 256 + x * 16777216);
    assert x + (x * 2 + x * 16 + x * 128 + x * 256 + x * 16777216) == x * FNV_PRIME;
    ToInt32Cong(X);
    CongMul(x, X, FNV_PRIME);
    CongTrans(x + (a + b + d + e + f), x * FNV_PRIME, X * FNV_PRIME);
    CongUint32(x + (a + b + d + e + f), X * FNV_PRIME);
  }

  /** `hashString`: the loop over the code units with JavaScript's 32-bit
      operators, returning `h >>> 0`. It computes 32-bit FNV-1a. */
  method HashString(input: seq<CodeUnit>) returns (r: int)
    ensures r == Fnv1a(input)
    ensures 0 <= r < TWO32
  {
    var h := FNV_OFFSET;
    for i := 0 to |input|
      invariant ToUint32(h) == Fnv1a(input[..i])
    {
      FnvPrefix(input, i);
      h := Mix(h, input[i]);
    }
    assert input[..|input|] == input;
    r := ToUint32(h);
  }

  /** The loop body, `h ^= c; h += (h << 1) + (h << 4) + (h << 7) +
      (h << 8) + (h << 24)`, on JavaScript's 32-bit operators. */
  function Mix(h: int, c: CodeUnit): (r: int)
    ensures ToUint32(r) == FnvStep(ToUint32(h), c)
  {
    var x := ToInt32(XorU32(ToUint32(h), c));
    StepIsFnv(h, c);
    x + (Shl(x, 1) + Shl(x, 4) + Shl(x, 7) + Shl(x, 8) + Shl(x, 24))
  }

  /** The hash of one more code unit is one more step. */
  lemma FnvPrefix(input: seq<CodeUnit>, i: nat)
    requires i < |input|
    ensures Fnv1a(input[..i + 1]) == FnvStep(Fnv1a(input[..i]), input[i])
  {
    assert input[..i + 1][..i] == input[..i];
  }

  /** The empty string hashes to the FNV offset basis, and "a" to the
      published 32-bit FNV-1a value 0xe40c292c. */
  lemma HashExamples()
    ensures Fnv1a([]) == 2166136261
    ensures Fnv1a([97]) == 0xe40c292c
  {
    assert [97 as CodeUnit][..0] == [];
    assert XorU32(FNV_OFFSET, 97) == 0x811c9da4;
  }

  const LCG_MULTIPLIER: int := 1664525
  const LCG_INCREMENT: int := 1013904223

  /** The generator's state step, `(value * 1664525 + 1013904223) >>> 0`.
      The product stays below 2^53, so the JavaScript arithmetic is exact. */
  function LcgStep(v: int): (r: int)
    requires 0 <= v < TWO32
    ensures 0 <= r < TWO32
    ensures r == (v * LCG_MULTIPLIER + LCG_INCREMENT) % TWO32
  {
    ToUint32(v * LCG_MULTIPLIER + LCG_INCREMENT)
  }

  /** An output of the generator, `value / 4294967296`. */
  function Unit(s: int): (r: real)
    requires 0 <= s < TWO32
    ensures 0.0 <= r < 1.0
  {
    s as real / TWO32 as real
  }

  /** `Math.floor(rng() * n)` for the generator state s, computed on
      integers (DrawIndexExact relates it to the real-valued draw). */
  function DrawIndex(s: int, n: nat): (r: int)
    requires 0 <= s < TWO32
    ensures n > 0 ==> 0 <= r < n
  {
    QuotientBelow(s, n);
    s * n / TWO32
  }

  /** The real-valued `Math.floor(rng() * n)` is the integer quotient
      `s * n / 2^32`. */
  lemma DrawIndexExact(s: int, n: nat)
    requires 0 <= s < TWO32
    ensures (Unit(s) * n as real).Floor == DrawIndex(s, n)
  {
    var q := s * n / TWO32;
    var r := s * n % TWO32;
    assert s * n == q * TWO32 + r;
    assert Unit(s) * n as real == (s * n) as real / TWO32 as real;
    assert (s * n) as real / TWO32 as real == q as real + r as real / TWO32 as real;
  }

  lemma QuotientBelow(s: int, n: nat)
    requires 0 <= s < TWO32
    ensures n > 0 ==> 0 <= s * n / TWO32 < n
  {
    if n > 0 {
      assert s * n < TWO32 * n;
    }
  }

  /** `rng() < p` for p = num/den, computed on integers. */
  lemma UnitBelow(s: int, num: nat, den: nat)
    requires 0 <= s < TWO32 && den > 0
    ensures Unit(s) < num as real / den as real <==> s * den < num * TWO32
  {
  }

  /** `seededRandom(seed)`: a closure over the mutable state `value`. */
  class Lcg {
    var value: int

    constructor(seed: int)
      ensures value == ToUint32(seed)
    {
      value := ToUint32(seed);
    }

    /** One call of the generator: advance the state, return it scaled
        into [0, 1). */
    method Next() returns (x: real)
      requires 0 <= value < TWO32
      modifies this
      ensures 0 <= value < TWO32
      ensures value == LcgStep(old(value))
      ensures x == Unit(value)
    {
      value := LcgStep(value);
      x := Unit(value);
    }
  }

  datatype Flag = HighCallVolume | LimitedResources | PediatricSpike | WeatherImpact | EquipmentFailure

  /** MODIFIERS, in the order a draw indexes them. */
  const MODIFIERS: seq<Flag> := [HighCallVolume, LimitedResources, PediatricSpike, WeatherImpact, EquipmentFailure]

  /** A node's modifier record: one boolean per flag. */
  datatype ModifierSet = ModifierSet(
    highCallVolume: bool,
    limitedResources: bool,
    pediatricSpike: bool,
    weatherImpact: bool,
    equipmentFailure: bool)

  /** The record with no flag set, as `modifierImpact` reads both `{}` and
      an absent record. */
  const NO_MODIFIERS: ModifierSet := ModifierSet(false, false, false, false, false)

  /** `picked.has(...)` for each flag. */
  function FromPicked(picked: set<Flag>): ModifierSet {
    ModifierSet(HighCallVolume in picked, LimitedResources in picked, PediatricSpike in picked,
      WeatherImpact in picked, EquipmentFailure in picked)
  }

  /** The set of flags a record has switched on. */
  function FlagsOf(m: ModifierSet): set<Flag> {
    var s1 := AddIf({}, m.highCallVolume, HighCallVolume);
    var s2 := AddIf(s1, m.limitedResources, LimitedResources);
    var s3 := AddIf(s2, m.pediatricSpike, PediatricSpike);
    var s4 := AddIf(s3, m.weatherImpact, WeatherImpact);
    AddIf(s4, m.equipmentFailure, EquipmentFailure)
  }

  /** Recording a picked set then reading it back gives the same set. */
  lemma FlagsOfPicked(picked: set<Flag>)
    ensures FlagsOf(FromPicked(picked)) == picked
  {
    forall f: Flag ensures f in picked <==> f in FlagsOf(FromPicked(picked)) {
      match f
      case HighCallVolume =>
      case LimitedResources =>
      case PediatricSpike =>
      case WeatherImpact =>
      case EquipmentFailure =>
    }
  }

  function B2I(b: bool): nat { if b then 1 else 0 }

  /** The number of flags a record has switched on. */
  lemma FlagsOfSize(m: ModifierSet)
    ensures |FlagsOf(m)| == B2I(m.highCallVolume) + B2I(m.limitedResources) + B2I(m.pediatricSpike) +
      B2I(m.weatherImpact) + B2I(m.equipmentFailure)
  {
  }

  /** `s` with `f` added when `b` holds; f is new to s. */
  function AddIf(s: set<Flag>, b: bool, f: Flag): (r: set<Flag>)
    requires f !in s
    ensures |r| == |s| + B2I(b)
    ensures forall g :: g in r <==> g in s || (b && g == f)
  {
    if b then s + {f} else s
  }

  datatype Impact = Impact(difficultyShift: int, rewardMult: real)

  /** `modifierImpact`: one difficulty step per active flag; +0.15 reward
      for limited resources or weather, +0.1 for a high call volume. */
  function ModifierImpact(m: ModifierSet): (r: Impact)
    ensures r.difficultyShift == |FlagsOf(m)|
    ensures 0 <= r.difficultyShift <= 5
    ensures r.rewardMult in {1.0, 1.1, 1.15, 1.25}
    ensures r.rewardMult == 1.0 + (if m.limitedResources || m.weatherImpact then 0.15 else 0.0) +
      (if m.highCallVolume then 0.1 else 0.0)
  {
    FlagsOfSize(m);
    var shift := B2I(m.highCallVolume) + B2I(m.limitedResources) + B2I(m.weatherImpact) +
      B2I(m.equipmentFailure) + B2I(m.pediatricSpike);
    var mult := 1.0 + (if m.limitedResources || m.weatherImpact then 0.15 else 0.0);
    var mult' := mult + (if m.highCallVolume then 0.1 else 0.0);
    Impact(shift, mult')
  }

  /** An absent or empty modifier record has no impact. */
  lemma NoModifiersNoImpact()
    ensures ModifierImpact(NO_MODIFIERS) == Impact(0, 1.0)
  {
  }

  /** The generator never needs more than 2^32 draws to meet a new flag:
      its step is a bijection on 2^32 states, so if that many draws bring
      nothing new, none ever will and the source loops forever. */
  const MAX_DRAWS: nat := TWO32

  /** The inner `while (picked.size < count)` loop: keep drawing a flag
      until `count` distinct ones are picked. None means the draw budget
      ran out. Returns the picked set and the generator state after it. */
  function PickFlags(state: int, picked: set<Flag>, count: nat, fuel: nat): (r: Option<(set<Flag>, int)>)
    requires 0 <= state < TWO32
    ensures r.Some? ==> 0 <= r.value.1 < TWO32
    decreases fuel
  {
    if |picked| >= count then Some((picked, state))
    else if fuel == 0 then None
    else
      var s := LcgStep(state);
      PickFlags(s, picked + {MODIFIERS[DrawIndex(s, 5)]}, count, fuel - 1)
  }

  /** `rng() < 0.65 ? 1 : 2`, with 0.65 = 13/20. */
  function FlagCount(s: int): nat
    requires 0 <= s < TWO32
  {
    if s * 20 < 13 * TWO32 then 1 else 2
  }

  /** The draws for one node: the flag count, then the flags. */
  function NodeDraw(state: int): (r: Option<(ModifierSet, int)>)
    requires 0 <= state < TWO32
    ensures r.Some? ==> 0 <= r.value.1 < TWO32
  {
    var s := LcgStep(state);
    match PickFlags(s, {}, FlagCount(s), MAX_DRAWS)
    case None => None
    case Some((picked, s')) => Some((FromPicked(picked), s'))
  }

  /** The reduce over the node ids, from generator state `state` and the
      entries built so far. */
  function BuildFrom(ids: seq<string>, state: int, acc: map<string, ModifierSet>): Option<map<string, ModifierSet>>
    requires 0 <= state < TWO32
    decreases |ids|
  {
    if ids == [] then Some(acc)
    else
      match NodeDraw(state)
      case None => None
      case Some((m, s')) => BuildFrom(ids[1..], s', acc[ids[0] := m])
  }

  /** A picked set grows by at most one per draw, so the loop stops at
      exactly `count` flags, keeping every flag it started with. */
  lemma {:induction false} PickFlagsSize(state: int, picked: set<Flag>, count: nat, fuel: nat)
    requires 0 <= state < TWO32 && |picked| <= count
    ensures PickFlags(state, picked, count, fuel).Some? ==>
      |PickFlags(state, picked, count, fuel).value.0| == count &&
      0 <= PickFlags(state, picked, count, fuel).value.1 < TWO32
    decreases fuel
  {
    if |picked| < count && fuel > 0 {
      var s := LcgStep(state);
      var f := MODIFIERS[DrawIndex(s, 5)];
      assert |picked + {f}| <= |picked| + 1;
      PickFlagsSize(s, picked + {f}, count, fuel - 1);
    }
  }

  /** Each node's record has one or two flags switched on. */
  lemma NodeDrawFlags(state: int)
    requires 0 <= state < TWO32
    ensures NodeDraw(state).Some? ==>
      1 <= |FlagsOf(NodeDraw(state).value.0)| <= 2 && 0 <= NodeDraw(state).value.1 < TWO32
  {
    var s := LcgStep(state);
    PickFlagsSize(s, {}, FlagCount(s), MAX_DRAWS);
    var r := PickFlags(s, {}, FlagCount(s), MAX_DRAWS);
    if r.Some? {
      FlagsOfPicked(r.value.0);
    }
  }

  /** Entry i of the result is the record drawn for that id, later ids
      overwriting earlier ones; every id gets a record of one or two flags,
      and no other key appears. */
  lemma {:induction false} BuildFromEntries(ids: seq<string>, state: int, acc: map<string, ModifierSet>)
    requires 0 <= state < TWO32
    requires forall k :: k in acc ==> 1 <= |FlagsOf(acc[k])| <= 2
    ensures BuildFrom(ids, state, acc).Some? ==>
      var m := BuildFrom(ids, state, acc).value;
      (forall id :: id in m <==> id in acc || id in ids) &&
      forall k :: k in m ==> 1 <= |FlagsOf(m[k])| <= 2
    decreases |ids|
  {
    if ids != [] {
      NodeDrawFlags(state);
      var d := NodeDraw(state);
      if d.Some? {
        var acc' := acc[ids[0] := d.value.0];
        BuildFromEntries(ids[1..], d.value.1, acc');
        if BuildFrom(ids, state, acc).Some? {
          var m := BuildFrom(ids, state, acc).value;
          assert m == BuildFrom(ids[1..], d.value.1, acc').value;
          forall id ensures id in ids <==> id == ids[0] || id in ids[1..] {
            if id in ids && id != ids[0] {
              var i :| 0 <= i < |ids| && ids[i] == id;
              assert ids[1..][i - 1] == id;
            }
          }
        }
      }
    }
  }

  /** `buildNodeModifiers(nodes, seed)` as a function of its inputs. */
  function BuildSpec(ids: seq<string>, seed: int): Option<map<string, ModifierSet>> {
    BuildFrom(ids, ToUint32(seed), map[])
  }

  /** The source's keys are exactly the node ids, each with one or two
      flags. */
  lemma BuildSpecEntries(ids: seq<string>, seed: int)
    ensures BuildSpec(ids, seed).Some? ==>
      var m := BuildSpec(ids, seed).value;
      (forall id :: id in m <==> id in ids) &&
      forall k :: k in m ==> 1 <= |FlagsOf(m[k])| <= 2
  {
    BuildFromEntries(ids, ToUint32(seed), map[]);
  }

  /** The draws for one node inside the reduce: `rng() < 0.65 ? 1 : 2`,
      then `picked.add(MODIFIERS[Math.floor(rng() * 5)])` until `picked`
      holds that many flags. None when the draw budget runs out. */
  method DrawNodeFlags(rng: Lcg) returns (m: Option<ModifierSet>)
    requires 0 <= rng.value < TWO32
    modifies rng
    ensures 0 <= rng.value < TWO32
    ensures m.None? <==> NodeDraw(old(rng.value)).None?
    ensures m.Some? ==> NodeDraw(old(rng.value)) == Some((m.value, rng.value))
  {
    var u := rng.Next();
    var count := if u < 0.65 then 1 else 2;
    ghost var s0 := rng.value;
    UnitBelow(s0, 13, 20);
    assert count == FlagCount(s0);
    var picked: set<Flag> := {};
    var tries: nat := 0;
    while |picked| < count
      invariant 0 <= rng.value < TWO32
      invariant tries <= MAX_DRAWS
      invariant PickFlags(rng.value, picked, count, MAX_DRAWS - tries) == PickFlags(s0, {}, count, MAX_DRAWS)
      decreases MAX_DRAWS - tries
    {
      if tries == MAX_DRAWS {
        return None;
      }
      PickFlagsStep(rng.value, picked, count, MAX_DRAWS - tries);
      var v := rng.Next();
      var k := (v * 5 as real).Floor;
      DrawIndexExact(rng.value, 5);
      picked := picked + {MODIFIERS[k]};
      tries := tries + 1;
    }
    m := Some(FromPicked(picked));
  }

  /** `buildNodeModifiers`: one generator for the whole run, then the
      draws for each node in turn; a later duplicate id overwrites. */
  method BuildNodeModifiers(nodes: seq<Node>, seed: int) returns (r: Option<map<string, ModifierSet>>)
    ensures r == BuildSpec(Ids(nodes), seed)
  {
    ghost var ids := Ids(nodes);
    var rng := new Lcg(seed);
    var acc: map<string, ModifierSet> := map[];
    var i := 0;
    while i < |nodes|
      invariant 0 <= i <= |nodes|
      invariant 0 <= rng.value < TWO32
      invariant BuildFrom(ids[i..], rng.value, acc) == BuildSpec(ids, seed)
    {
      ghost var before := rng.value;
      var m := DrawNodeFlags(rng);
      if m.None? {
        NodeDrawNone(ids[i..], before, acc);
        return None;
      }
      NodeDrawSome(ids[i..], before, acc, m.value, rng.value);
      assert ids[i..][1..] == ids[i + 1..];
      acc := acc[nodes[i].nodeId := m.value];
      i := i + 1;
    }
    r := Some(acc);
  }

  lemma PickFlagsStep(state: int, picked: set<Flag>, count: nat, fuel: nat)
    requires 0 <= state < TWO32 && |picked| < count && fuel > 0
    ensures var s := LcgStep(state);
      PickFlags(state, picked, count, fuel) == PickFlags(s, picked + {MODIFIERS[DrawIndex(s, 5)]}, count, fuel - 1)
  {
  }

  lemma NodeDrawNone(ids: seq<string>, state: int, acc: map<string, ModifierSet>)
    requires 0 <= state < TWO32 && ids != [] && NodeDraw(state).None?
    ensures BuildFrom(ids, state, acc) == None
  {
  }

  lemma NodeDrawSome(ids: seq<string>, state: int, acc: map<string, ModifierSet>, m: ModifierSet, s': int)
    requires 0 <= state < TWO32 && ids != [] && NodeDraw(state) == Some((m, s'))
    ensures 0 <= s' < TWO32
    ensures BuildFrom(ids, state, acc) == BuildFrom(ids[1..], s', acc[ids[0] := m])
  {
  }
}
