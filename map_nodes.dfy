/** The static scenario-node table (src/data/mapNodes.js) and the shape of a
    node. Each node belongs to a district, is gated by a minimum readiness
    and a list of prerequisite node ids, and carries an initial
    completion state that refreshNodeStates later overwrites. */
module MapNodes {
  import opened Domains

  datatype NodeType = Standard | Chain | Boss | Certification
  datatype CompletionState = Completed | Available | Locked
  datatype PatientMix = PatientMix(adult: real, pediatric: real)
  datatype Prerequisites = Prerequisites(minReadiness: int, completedNodes: seq<string>)
  datatype Rewards = Rewards(xp: int, domainXp: seq<(string, int)>)
  datatype Position = Position(x: int, y: int)

  datatype Node = Node(
    nodeId: string,
    district: string,
    primaryDomain: string,
    secondaryDomains: seq<string>,
    difficultyTier: int,
    nodeType: NodeType,
    patientMix: PatientMix,
    encounterLength: int,
    prerequisites: Prerequisites,
    rewards: Rewards,
    completionState: CompletionState,
    pos: Position)

  const MAP_NODES: seq<Node> := [
    Node("DT-CARD-01", DOWNTOWN, CARDIOLOGY, [AIRWAY], 1, Standard, PatientMix(0.8, 0.2), 1,
      Prerequisites(0, []), Rewards(80, [(CARDIOLOGY, 60)]), Available, Position(27, 34)),
    Node("DT-CARD-03", DOWNTOWN, CARDIOLOGY, [AIRWAY], 3, Chain, PatientMix(0.85, 0.15), 2,
      Prerequisites(62, ["DT-CARD-01"]), Rewards(120, [(CARDIOLOGY, 80)]), Locked, Position(36, 25)),
    Node("RES-MED-01", RESIDENTIAL, MEDICAL, [EMS_OPERATIONS], 1, Standard, PatientMix(0.9, 0.1), 1,
      Prerequisites(10, []), Rewards(85, [(MEDICAL, 70)]), Locked, Position(56, 62)),
    Node("RES-MED-02", RESIDENTIAL, MEDICAL, [CARDIOLOGY], 2, Chain, PatientMix(0.85, 0.15), 2,
      Prerequisites(45, ["RES-MED-01"]), Rewards(110, [(MEDICAL, 80)]), Locked, Position(65, 58)),
    Node("HW-TRA-01", HIGHWAYS, TRAUMA, [EMS_OPERATIONS], 2, Standard, PatientMix(0.92, 0.08), 1,
      Prerequisites(25, ["DT-CARD-01"]), Rewards(100, [(TRAUMA, 75)]), Locked, Position(44, 50)),
    Node("HW-TRA-03", HIGHWAYS, TRAUMA, [AIRWAY], 3, Chain, PatientMix(0.86, 0.14), 2,
      Prerequisites(60, ["HW-TRA-01"]), Rewards(130, [(TRAUMA, 90)]), Locked, Position(53, 46)),
    Node("PORT-OPS-01", PORT, EMS_OPERATIONS, [TRAUMA], 2, Standard, PatientMix(0.88, 0.12), 1,
      Prerequisites(30, ["DT-CARD-01"]), Rewards(95, [(EMS_OPERATIONS, 75)]), Locked, Position(75, 43)),
    Node("PORT-OPS-02", PORT, EMS_OPERATIONS, [MEDICAL], 3, Chain, PatientMix(0.9, 0.1), 2,
      Prerequisites(68, ["PORT-OPS-01"]), Rewards(125, [(EMS_OPERATIONS, 90)]), Locked, Position(81, 50)),
    Node("BEACH-AIR-01", BEACHES, AIRWAY, [TRAUMA], 2, Standard, PatientMix(0.83, 0.17), 1,
      Prerequisites(32, ["DT-CARD-01"]), Rewards(100, [(AIRWAY, 80)]), Locked, Position(88, 30)),
    Node("BEACH-AIR-03", BEACHES, AIRWAY, [MEDICAL], 3, Chain, PatientMix(0.82, 0.18), 2,
      Prerequisites(66, ["BEACH-AIR-01"]), Rewards(132, [(AIRWAY, 95)]), Locked, Position(92, 38)),
    Node("HOSP-BOSS-01", HOSPITALS, CARDIOLOGY, [MEDICAL, AIRWAY], 4, Boss, PatientMix(0.9, 0.1), 4,
      Prerequisites(78, ["DT-CARD-03", "RES-MED-02", "HW-TRA-03", "PORT-OPS-02", "BEACH-AIR-03"]),
      Rewards(250, [(CARDIOLOGY, 120)]), Locked, Position(48, 18)),
    Node("HOSP-CERT-01", HOSPITALS, MEDICAL, [CARDIOLOGY, EMS_OPERATIONS], 5, Certification, PatientMix(0.88, 0.12), 5,
      Prerequisites(92, ["HOSP-BOSS-01"]), Rewards(350, [(MEDICAL, 140)]), Locked, Position(57, 15))
  ]

  const NODE_IDS: seq<string> := [
    "DT-CARD-01", "DT-CARD-03", "RES-MED-01", "RES-MED-02", "HW-TRA-01", "HW-TRA-03",
    "PORT-OPS-01", "PORT-OPS-02", "BEACH-AIR-01", "BEACH-AIR-03", "HOSP-BOSS-01", "HOSP-CERT-01"
  ]

  function Ids(nodes: seq<Node>): (r: seq<string>)
    ensures |r| == |nodes|
    ensures forall i :: 0 <= i < |nodes| ==> r[i] == nodes[i].nodeId
  {
    if nodes == [] then [] else [nodes[0].nodeId] + Ids(nodes[1..])
  }

  lemma IdsOfMapNodes()
    ensures Ids(MAP_NODES) == NODE_IDS
  {
  }

  /** The position of the node with a given id, or -1. */
  function IndexOfId(ids: seq<string>, id: string): (r: int)
    ensures -1 <= r < |ids|
    ensures r >= 0 ==> ids[r] == id && forall k :: 0 <= k < r ==> ids[k] != id
    ensures r == -1 ==> id !in ids
  {
    if ids == [] then -1
    else if ids[0] == id then 0
    else var k := IndexOfId(ids[1..], id); if k == -1 then -1 else k + 1
  }

  /** A proof device: each table id is told apart from the others by its
      first characters and its last digit, and this picks its table slot. */
  function Slot(id: string): int
  {
    if |id| < 6 then -1
    else if id[0] == 'D' then (if id[|id| - 1] == '1' then 0 else 1)
    else if id[0] == 'R' then (if id[|id| - 1] == '1' then 2 else 3)
    else if id[0] == 'P' then (if id[|id| - 1] == '1' then 6 else 7)
    else if id[0] == 'B' then (if id[|id| - 1] == '1' then 8 else 9)
    else if id[0] == 'H' && id[1] == 'W' then (if id[|id| - 1] == '1' then 4 else 5)
    else if id[0] == 'H' then (if id[5] == 'B' then 10 else 11)
    else -1
  }

  lemma SlotIsIndex()
    ensures forall k :: 0 <= k < |NODE_IDS| ==> Slot(NODE_IDS[k]) == k
  {
    assert Slot(NODE_IDS[0]) == 0;
    assert Slot(NODE_IDS[1]) == 1;
    assert Slot(NODE_IDS[2]) == 2;
    assert Slot(NODE_IDS[3]) == 3;
    assert Slot(NODE_IDS[4]) == 4;
    assert Slot(NODE_IDS[5]) == 5;
    assert Slot(NODE_IDS[6]) == 6;
    assert Slot(NODE_IDS[7]) == 7;
    assert Slot(NODE_IDS[8]) == 8;
    assert Slot(NODE_IDS[9]) == 9;
    assert Slot(NODE_IDS[10]) == 10;
    assert Slot(NODE_IDS[11]) == 11;
  }

  /** Node ids are pairwise distinct. */
  lemma NodeIdsDistinct()
    ensures forall i, j :: 0 <= i < j < |MAP_NODES| ==> MAP_NODES[i].nodeId != MAP_NODES[j].nodeId
  {
    IdsOfMapNodes();
    SlotIsIndex();
  }

  lemma IndexOfDistinct(ids: seq<string>, k: int)
    requires 0 <= k < |ids|
    requires forall i, j :: 0 <= i < j < |ids| ==> ids[i] != ids[j]
    ensures IndexOfId(ids, ids[k]) == k
  {
    var r := IndexOfId(ids, ids[k]);
    assert r >= 0;
  }

  function PrereqLists(nodes: seq<Node>): (r: seq<seq<string>>)
    ensures |r| == |nodes|
    ensures forall i :: 0 <= i < |nodes| ==> r[i] == nodes[i].prerequisites.completedNodes
  {
    if nodes == [] then [] else [nodes[0].prerequisites.completedNodes] + PrereqLists(nodes[1..])
  }

  /** The prerequisite lists of the table, as table positions. */
  function PrereqSlotList(): seq<seq<int>>
  {
    [[], [0], [], [2], [0], [4], [0], [6], [0], [8], [1, 3, 5, 7, 9], [10]]
  }

  function IdsAt(slots: seq<int>): (r: seq<string>)
    requires forall k :: 0 <= k < |slots| ==> 0 <= slots[k] < |NODE_IDS|
  {
    if slots == [] then [] else [NODE_IDS[slots[0]]] + IdsAt(slots[1..])
  }

  lemma SlotListBefore()
    ensures forall i, k :: 0 <= i < |PrereqSlotList()| && 0 <= k < |PrereqSlotList()[i]| ==>
      0 <= PrereqSlotList()[i][k] < i
  {
  }

  lemma PrereqListsOfMapNodes()
    ensures |PrereqSlotList()| == |MAP_NODES|
    ensures forall i :: 0 <= i < |MAP_NODES| ==>
      MAP_NODES[i].prerequisites.completedNodes == IdsAt(PrereqSlotList()[i])
  {
    var ps := PrereqLists(MAP_NODES);
    assert ps == [[], [NODE_IDS[0]], [], [NODE_IDS[2]], [NODE_IDS[0]], [NODE_IDS[4]], [NODE_IDS[0]],
      [NODE_IDS[6]], [NODE_IDS[0]], [NODE_IDS[8]],
      [NODE_IDS[1], NODE_IDS[3], NODE_IDS[5], NODE_IDS[7], NODE_IDS[9]], [NODE_IDS[10]]];
  }

  /** Every prerequisite id names a node listed earlier in the table, so
      the prerequisite graph has no cycle. */
  lemma PrerequisitesPrecede()
    ensures forall i, p :: 0 <= i < |MAP_NODES| && p in MAP_NODES[i].prerequisites.completedNodes ==>
      0 <= IndexOfId(NODE_IDS, p) < i
  {
    SlotIsIndex();
    PrereqListsOfMapNodes();
    SlotListBefore();
    var sl := PrereqSlotList();
    forall i, p | 0 <= i < |MAP_NODES| && p in MAP_NODES[i].prerequisites.completedNodes
      ensures 0 <= IndexOfId(NODE_IDS, p) < i
    {
      IdsAtMember(sl[i], p);
      var k :| 0 <= k < |sl[i]| && NODE_IDS[sl[i][k]] == p;
      IndexOfDistinct(NODE_IDS, sl[i][k]);
      assert IndexOfId(NODE_IDS, p) == sl[i][k];
    }
  }

  lemma {:induction false} IdsAtMember(slots: seq<int>, p: string)
    requires forall k :: 0 <= k < |slots| ==> 0 <= slots[k] < |NODE_IDS|
    requires p in IdsAt(slots)
    ensures exists k :: 0 <= k < |slots| && NODE_IDS[slots[k]] == p
  {
    if NODE_IDS[slots[0]] != p {
      IdsAtMember(slots[1..], p);
      var k :| 0 <= k < |slots[1..]| && NODE_IDS[slots[1..][k]] == p;
      assert NODE_IDS[slots[k + 1]] == p;
    }
  }

  /** Tiers lie in 1..5, readiness gates in 0..100, and every encounter has
      at least one question. */
  lemma NodeBounds()
    ensures forall i :: 0 <= i < |MAP_NODES| ==>
      1 <= MAP_NODES[i].difficultyTier <= 5 &&
      0 <= MAP_NODES[i].prerequisites.minReadiness <= 100 &&
      MAP_NODES[i].encounterLength >= 1
  {
  }

  function MinReadinessList(nodes: seq<Node>): (r: seq<int>)
    ensures |r| == |nodes|
    ensures forall i :: 0 <= i < |nodes| ==> r[i] == nodes[i].prerequisites.minReadiness
  {
    if nodes == [] then [] else [nodes[0].prerequisites.minReadiness] + MinReadinessList(nodes[1..])
  }

  function MinReadinessSlots(): seq<int>
  {
    [0, 62, 10, 45, 25, 60, 30, 68, 32, 66, 78, 92]
  }

  lemma MinReadinessOfMapNodes()
    ensures MinReadinessList(MAP_NODES) == MinReadinessSlots()
  {
    var mr := MinReadinessList(MAP_NODES);
    assert mr == [0, 62, 10, 45, 25, 60, 30, 68, 32, 66, 78, 92];
  }

  lemma SlotGatesMonotone()
    ensures |PrereqSlotList()| == |MinReadinessSlots()|
    ensures forall i, k :: 0 <= i < |PrereqSlotList()| && 0 <= k < |PrereqSlotList()[i]| ==>
      0 <= PrereqSlotList()[i][k] < i &&
      MinReadinessSlots()[PrereqSlotList()[i][k]] <= MinReadinessSlots()[i]
  {
  }

  /** A node's readiness gate is at least that of each of its prerequisites. */
  lemma MinReadinessMonotone()
    ensures forall i, p :: 0 <= i < |MAP_NODES| && p in MAP_NODES[i].prerequisites.completedNodes ==>
      0 <= IndexOfId(NODE_IDS, p) < i &&
      MAP_NODES[IndexOfId(NODE_IDS, p)].prerequisites.minReadiness <= MAP_NODES[i].prerequisites.minReadiness
  {
    SlotIsIndex();
    PrereqListsOfMapNodes();
    SlotGatesMonotone();
    MinReadinessOfMapNodes();
    var mr := MinReadinessList(MAP_NODES);
    var sl := PrereqSlotList();
    forall i, p | 0 <= i < |MAP_NODES| && p in MAP_NODES[i].prerequisites.completedNodes
      ensures 0 <= IndexOfId(NODE_IDS, p) < i && mr[IndexOfId(NODE_IDS, p)] <= mr[i]
    {
      IdsAtMember(sl[i], p);
      var k :| 0 <= k < |sl[i]| && NODE_IDS[sl[i][k]] == p;
      IndexOfDistinct(NODE_IDS, sl[i][k]);
    }
  }

  /** DT-CARD-01 is the only node open from the start: readiness gate 0 and
      no prerequisites. */
  lemma OnlyEntryNode()
    ensures MAP_NODES[0].nodeId == "DT-CARD-01"
    ensures forall i :: 0 <= i < |MAP_NODES| ==>
      (MAP_NODES[i].prerequisites.minReadiness == 0 && MAP_NODES[i].prerequisites.completedNodes == [] <==> i == 0)
  {
    MinReadinessOfMapNodes();
  }

  function NodeTypes(nodes: seq<Node>): (r: seq<NodeType>)
    ensures |r| == |nodes|
    ensures forall i :: 0 <= i < |nodes| ==> r[i] == nodes[i].nodeType
  {
    if nodes == [] then [] else [nodes[0].nodeType] + NodeTypes(nodes[1..])
  }

  /** Exactly one boss node and one certification node, and the
      certification node's only prerequisite is the boss. */
  lemma SingleBossAndCertification()
    ensures forall i :: 0 <= i < |MAP_NODES| ==> (MAP_NODES[i].nodeType == Boss <==> i == 10)
    ensures forall i :: 0 <= i < |MAP_NODES| ==> (MAP_NODES[i].nodeType == Certification <==> i == 11)
    ensures MAP_NODES[11].prerequisites.completedNodes == [MAP_NODES[10].nodeId]
  {
    var ts := NodeTypes(MAP_NODES);
    assert ts == [Standard, Chain, Standard, Chain, Standard, Chain, Standard, Chain, Standard, Chain,
      Boss, Certification];
  }

  /** Every primary and secondary domain of a node is a weighted domain. */
  lemma NodeDomainsAreWeighted()
    ensures forall i :: 0 <= i < |MAP_NODES| ==>
      MAP_NODES[i].primaryDomain in Keys(DOMAIN_WEIGHTS) &&
      forall d :: d in MAP_NODES[i].secondaryDomains ==> d in Keys(DOMAIN_WEIGHTS)
  {
    DomainKeys();
  }

  function Districts(nodes: seq<Node>): (r: seq<string>)
    ensures |r| == |nodes|
    ensures forall i :: 0 <= i < |nodes| ==> r[i] == nodes[i].district
  {
    if nodes == [] then [] else [nodes[0].district] + Districts(nodes[1..])
  }

  /** The districts named by the heat table are exactly those of the nodes. */
  lemma DistrictTableMatchesNodes()
    ensures forall d :: d in Keys(DISTRICT_DOMAIN_MAP) <==> d in Districts(MAP_NODES)
  {
    var ds := Districts(MAP_NODES);
    assert ds == [DOWNTOWN, DOWNTOWN, RESIDENTIAL, RESIDENTIAL, HIGHWAYS, HIGHWAYS, PORT, PORT,
      BEACHES, BEACHES, HOSPITALS, HOSPITALS];
    var ks := Keys(DISTRICT_DOMAIN_MAP);
    assert ks == [DOWNTOWN, RESIDENTIAL, HIGHWAYS, PORT, BEACHES, HOSPITALS];
  }
}
