/** District state of the city map (src/game/mapSystem.js): the default
    district records, the risk score, node enrichment with risk and
    modifiers, and the consequences of an encounter for the districts. */
module MapSystem {
  import opened Wrappers
  import opened Numeric
  import opened Domains
  import opened MapNodes
  import opened Modifiers

  /** A district's condition. */
  datatype DistrictEntry = DistrictEntry(stabilityLevel: int, systemStress: int, recentFailures: int)

  const DEFAULT_ENTRY: DistrictEntry := DistrictEntry(70, 30, 0)

  /** `[...new Set(xs)]` with `seen` already taken: first occurrences, in order. */
  function DistinctFrom(xs: seq<string>, seen: set<string>): (r: seq<string>)
    ensures forall x :: x in r <==> x in xs && x !in seen
    ensures forall i, j :: 0 <= i < j < |r| ==> r[i] != r[j]
  {
    if xs == [] then []
    else if xs[0] in seen then DistinctFrom(xs[1..], seen)
    else [xs[0]] + DistinctFrom(xs[1..], seen + {xs[0]})
  }

  /** `uniqueDistricts`: each district of the map once, in order of first
      appearance. */
  function UniqueDistricts(): (r: seq<string>)
    ensures forall d :: d in r <==> d in Districts(MAP_NODES)
    ensures forall i, j :: 0 <= i < j < |r| ==> r[i] != r[j]
  {
    DistinctFrom(Districts(MAP_NODES), {})
  }

  /** `defaultDistrictState`: one record {70, 30, 0} per district. */
  method DefaultDistrictState() returns (acc: map<string, DistrictEntry>)
    ensures forall d :: d in acc <==> d in Districts(MAP_NODES)
    ensures forall d :: d in acc ==> acc[d] == DEFAULT_ENTRY
  {
    var ds := UniqueDistricts();
    acc := map[];
    for i := 0 to |ds|
      invariant forall d :: d in acc <==> d in ds[..i]
      invariant forall d :: d in acc ==> acc[d] == DEFAULT_ENTRY
    {
      assert ds[..i + 1] == ds[..i] + [ds[i]];
      acc := acc[ds[i] := DEFAULT_ENTRY];
    }
    assert ds[..|ds|] == ds;
  }

  /** `districtRiskScore`: stress plus eight per recent failure, as a
      fraction of 100, kept in 0..1. */
  function DistrictRiskScore(e: DistrictEntry): (r: real)
    ensures 0.0 <= r <= 1.0
  {
    MinReal(1.0, MaxReal(0.0, (e.systemStress + e.recentFailures * 8) as real / 100.0))
  }

  /** More stress or more recent failures never lower the risk score. */
  lemma RiskMonotone(a: DistrictEntry, b: DistrictEntry)
    requires a.systemStress <= b.systemStress && a.recentFailures <= b.recentFailures
    ensures DistrictRiskScore(a) <= DistrictRiskScore(b)
  {
  }

  datatype RiskLevel = Low | Moderate | High

  /** 'low' below 0.34, 'moderate' below 0.67, 'high' from there on. */
  function RiskLevelOf(risk: real): (l: RiskLevel)
    ensures l == Low <==> risk < 0.34
    ensures l == High <==> risk >= 0.67
  {
    if risk < 0.34 then Low else if risk < 0.67 then Moderate else High
  }

  /** A map node with its district snapshot, modifiers and derived risk. */
  datatype EnrichedNode = EnrichedNode(
    node: Node,
    nodeModifiers: ModifierSet,
    districtSnapshot: DistrictEntry,
    riskLevel: RiskLevel,
    dynamicDifficulty: int,
    rewardMultiplier: real)

  /** `nodeModifiers[nodeId] || {}`: an absent record means no flags. */
  function ModifiersFor(mods: map<string, ModifierSet>, nodeId: string): ModifierSet {
    if nodeId in mods then mods[nodeId] else NO_MODIFIERS
  }

  /** The district's risk raised by 0.08 per active modifier, capped at 1. */
  function NodeRisk(entry: DistrictEntry, m: ModifierSet): (r: real)
    ensures DistrictRiskScore(entry) <= r <= 1.0
    ensures ModifierImpact(m).difficultyShift == 0 ==> r == DistrictRiskScore(entry)
  {
    MinReal(1.0, DistrictRiskScore(entry) + ModifierImpact(m).difficultyShift as real * 0.08)
  }

  /** One node of `enrichNodesWithMapSystems`. */
  function EnrichNode(node: Node, entry: DistrictEntry, m: ModifierSet): (e: EnrichedNode)
    ensures e.node == node && e.nodeModifiers == m && e.districtSnapshot == entry
    ensures e.riskLevel == RiskLevelOf(NodeRisk(entry, m))
    ensures 1 <= e.dynamicDifficulty <= 5
    ensures ModifierImpact(m).rewardMult <= e.rewardMultiplier <= ModifierImpact(m).rewardMult + 0.5
    ensures 1.0 <= e.rewardMultiplier <= 1.75
  {
    var impact := ModifierImpact(m);
    var risk := NodeRisk(entry, m);
    EnrichedNode(
      node, m, entry, RiskLevelOf(risk),
      Clamp(1, 5, node.difficultyTier + Round(impact.difficultyShift as real / 2.0) + Round(risk * 2.0)),
      1.0 + risk * 0.5 + (impact.rewardMult - 1.0))
  }

  /** Modifiers and district risk never make a node easier than its tier
      (kept in 1..5). */
  lemma EnrichmentNeverEasier(node: Node, entry: DistrictEntry, m: ModifierSet)
    ensures EnrichNode(node, entry, m).dynamicDifficulty >= Clamp(1, 5, node.difficultyTier)
  {
    var impact := ModifierImpact(m);
    var risk := NodeRisk(entry, m);
    RoundMonotone(0.0, impact.difficultyShift as real / 2.0);
    RoundMonotone(0.0, risk * 2.0);
    RoundOfInt(0);
    ClampMonotone(1, 5, node.difficultyTier,
      node.difficultyTier + Round(impact.difficultyShift as real / 2.0) + Round(risk * 2.0));
  }

  /** `enrichNodesWithMapSystems`: fails (the source throws reading a missing
      district record) when a node's district has no record. */
  function EnrichNodesWithMapSystems(nodes: seq<Node>, districtState: map<string, DistrictEntry>,
                                     nodeModifiers: map<string, ModifierSet>): (r: Option<seq<EnrichedNode>>)
    ensures r.None? <==> exists i :: 0 <= i < |nodes| && nodes[i].district !in districtState
    ensures r.Some? ==> |r.value| == |nodes|
    ensures r.Some? ==> forall i :: 0 <= i < |nodes| ==>
      r.value[i] == EnrichNode(nodes[i], districtState[nodes[i].district], ModifiersFor(nodeModifiers, nodes[i].nodeId))
  {
    if nodes == [] then Some([])
    else if nodes[0].district !in districtState then None
    else
      match EnrichNodesWithMapSystems(nodes[1..], districtState, nodeModifiers)
      case None =>
        assert forall i :: 0 <= i < |nodes| - 1 ==> nodes[1..][i] == nodes[i + 1];
        None
      case Some(rest) =>
        assert forall i :: 0 <= i < |nodes| - 1 ==> nodes[1..][i] == nodes[i + 1];
        Some([EnrichNode(nodes[0], districtState[nodes[0].district], ModifiersFor(nodeModifiers, nodes[0].nodeId))] + rest)
  }

  /** The owning district after an encounter. */
  function OwnerAfter(e: DistrictEntry, success: bool): (r: DistrictEntry)
    ensures success ==> r.stabilityLevel >= MinInt(e.stabilityLevel, 100) && r.systemStress <= MaxInt(e.systemStress, 0)
    ensures !success ==> r.stabilityLevel <= MaxInt(e.stabilityLevel, 0) && r.systemStress >= MinInt(e.systemStress, 100)
    ensures success ==> r.recentFailures == MaxInt(0, e.recentFailures - 1)
    ensures !success ==> r.recentFailures == e.recentFailures + 1
    ensures success ==> r.stabilityLevel == MinInt(100, e.stabilityLevel + 4) && r.systemStress == MaxInt(0, e.systemStress - 6)
    ensures !success ==> r.stabilityLevel == MaxInt(0, e.stabilityLevel - 8) && r.systemStress == MinInt(100, e.systemStress + 10)
  {
    if success then
      DistrictEntry(MinInt(100, e.stabilityLevel + 4), MaxInt(0, e.systemStress - 6), MaxInt(0, e.recentFailures - 1))
    else
      DistrictEntry(MaxInt(0, e.stabilityLevel - 8), MinInt(100, e.systemStress + 10), e.recentFailures + 1)
  }

  /** Another district after a failure elsewhere: two more stress, capped. */
  function Spill(e: DistrictEntry): (r: DistrictEntry)
    ensures r.stabilityLevel == e.stabilityLevel && r.recentFailures == e.recentFailures
    ensures e.systemStress <= 98 ==> r.systemStress == e.systemStress + 2
    ensures e.systemStress > 98 ==> r.systemStress == 100
  {
    e.(systemStress := MinInt(100, e.systemStress + 2))
  }

  /** The district records after an encounter in `district`. */
  function Consequences(ds: map<string, DistrictEntry>, district: string, success: bool): (r: map<string, DistrictEntry>)
    requires district in ds
    ensures r.Keys == ds.Keys
    ensures r[district] == OwnerAfter(ds[district], success)
    ensures success ==> forall d :: d in ds && d != district ==> r[d] == ds[d]
    ensures !success ==> forall d :: d in ds && d != district ==> r[d] == Spill(ds[d])
  {
    map d | d in ds :: if d == district then OwnerAfter(ds[d], success) else if success then ds[d] else Spill(ds[d])
  }

  predicate InRange(e: DistrictEntry) {
    0 <= e.stabilityLevel <= 100 && 0 <= e.systemStress <= 100 && e.recentFailures >= 0
  }

  /** Stability and stress stay in 0..100 and failures non-negative. */
  lemma ConsequencesKeepRange(ds: map<string, DistrictEntry>, district: string, success: bool)
    requires district in ds
    requires forall d :: d in ds ==> InRange(ds[d])
    ensures forall d :: d in Consequences(ds, district, success) ==> InRange(Consequences(ds, district, success)[d])
  {
  }

  /** `applyEncounterConsequences`: the owner record is updated, then after
      a failure every other district takes the spill-over stress. */
  method ApplyEncounterConsequences(districtState: map<string, DistrictEntry>, node: Node, success: bool)
    returns (next: map<string, DistrictEntry>)
    requires node.district in districtState
    ensures next == Consequences(districtState, node.district, success)
  {
    next := districtState;
    var district := next[node.district];
    if success {
      district := district.(stabilityLevel := MinInt(100, district.stabilityLevel + 4));
      district := district.(systemStress := MaxInt(0, district.systemStress - 6));
      district := district.(recentFailures := MaxInt(0, district.recentFailures - 1));
    } else {
      district := district.(stabilityLevel := MaxInt(0, district.stabilityLevel - 8));
      district := district.(systemStress := MinInt(100, district.systemStress + 10));
      district := district.(recentFailures := district.recentFailures + 1);
    }
    next := next[node.district := district];
    if !success {
      var pending := next.Keys;
      while pending != {}
        invariant pending <= next.Keys
        invariant next.Keys == districtState.Keys
        invariant next[node.district] == OwnerAfter(districtState[node.district], success)
        invariant forall d :: d in next && d != node.district ==>
          next[d] == if d in pending then districtState[d] else Spill(districtState[d])
        decreases |pending|
      {
        var d :| d in pending;
        if d != node.district {
          next := next[d := Spill(next[d])];
        }
        pending := pending - {d};
      }
    }
  }
}
