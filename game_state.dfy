/** The base profile and the recomputation of every map node's completion
    state (src/game/state.js). */
module GameState {
  import opened Domains
  import opened Archetypes
  import opened MapNodes
  import opened Profiles
  import opened GameReadiness

  /** The profile a new learner starts from. */
  const BASE_PROFILE: Profile := Profile(
    DEFAULT_ARCHETYPE_ID, 0, map[], [],
    map[AIRWAY := 52, CARDIOLOGY := 55, TRAUMA := 54, MEDICAL := 56, EMS_OPERATIONS := 58],
    0, 0.0, 0, "study")

  /** A node's completion state for a completed-node list and a readiness. */
  function StateFor(node: Node, completed: seq<string>, readiness: int): CompletionState {
    if node.nodeId in completed then Completed
    else if readiness >= node.prerequisites.minReadiness &&
            forall p :: p in node.prerequisites.completedNodes ==> p in completed
    then Available
    else Locked
  }

  /** The nodes with their completion states recomputed; nothing else about
      a node changes. */
  function RefreshStates(nodes: seq<Node>, completed: seq<string>, readiness: int): (r: seq<Node>)
    ensures |r| == |nodes|
    ensures forall i :: 0 <= i < |nodes| ==> r[i] == nodes[i].(completionState := r[i].completionState)
    ensures forall i :: 0 <= i < |nodes| ==> (r[i].completionState == Completed <==> nodes[i].nodeId in completed)
    ensures forall i :: 0 <= i < |nodes| ==>
      (r[i].completionState == Available <==>
        nodes[i].nodeId !in completed && readiness >= nodes[i].prerequisites.minReadiness &&
        forall p :: p in nodes[i].prerequisites.completedNodes ==> p in completed)
  {
    seq(|nodes|, i requires 0 <= i < |nodes| => nodes[i].(completionState := StateFor(nodes[i], completed, readiness)))
  }

  /** `refreshNodeStates` over the fixed city map. */
  function RefreshNodeStates(profile: Profile, readiness: int): (r: seq<Node>)
    ensures |r| == |MAP_NODES|
  {
    RefreshStates(MAP_NODES, profile.completedNodes, readiness)
  }

  /** Ordering of completion states: locked, then available, then completed. */
  function Rank(c: CompletionState): int {
    match c
    case Locked => 0
    case Available => 1
    case Completed => 2
  }

  /** Completing more nodes or gaining readiness never moves a node back
      toward locked. */
  lemma RefreshMonotone(nodes: seq<Node>, c1: seq<string>, c2: seq<string>, r1: int, r2: int)
    requires forall id :: id in c1 ==> id in c2
    requires r1 <= r2
    ensures forall i :: 0 <= i < |nodes| ==>
      Rank(RefreshStates(nodes, c1, r1)[i].completionState) <= Rank(RefreshStates(nodes, c2, r2)[i].completionState)
  {
  }

  /** On the city map a node only opens once every node it names as a
      prerequisite is itself marked completed on the refreshed map. */
  lemma AvailableAfterPrerequisites(profile: Profile, readiness: int)
    ensures var r := RefreshNodeStates(profile, readiness);
      forall i, p :: 0 <= i < |r| && r[i].completionState == Available && p in MAP_NODES[i].prerequisites.completedNodes ==>
        var j := IndexOfId(NODE_IDS, p);
        0 <= j < i && r[j].nodeId == p && r[j].completionState == Completed
  {
    PrerequisitesPrecede();
    IdsOfMapNodes();
  }

  /** The entry node DT-CARD-01 is never locked at a non-negative readiness. */
  lemma EntryNeverLocked(profile: Profile, readiness: int)
    requires readiness >= 0
    ensures RefreshNodeStates(profile, readiness)[0].nodeId == "DT-CARD-01"
    ensures RefreshNodeStates(profile, readiness)[0].completionState != Locked
  {
    OnlyEntryNode();
  }

  /** The base profile's study-mode readiness is 44: the weighted scores
      make 54.88, scaled by the study factor 0.8. */
  lemma BaseReadiness()
    ensures CalculateReadiness(BASE_PROFILE, "study") == 44
  {
    var s := BASE_PROFILE.domainScores;
    var t := DOMAIN_WEIGHTS;
    assert Weighted(s, t[4..]) == 6.96 by { assert t[4..][1..] == []; }
    assert Weighted(s, t[3..]) == 22.64 by { assert t[3..][1..] == t[4..]; }
    assert Weighted(s, t[2..]) == 31.28 by { assert t[2..][1..] == t[3..]; }
    assert Weighted(s, t[1..]) == 44.48 by { assert t[1..][1..] == t[2..]; }
    assert Weighted(s, t) == 54.88;
    assert RawReadiness(BASE_PROFILE, "study") == 43.904;
  }

  /** A new learner sees exactly two open nodes: DT-CARD-01 and the other
      node without prerequisites, whose gate (10) is below 44. */
  lemma FreshStartStates()
    ensures var nodes := RefreshNodeStates(BASE_PROFILE, CalculateReadiness(BASE_PROFILE, BASE_PROFILE.mode));
      forall i :: 0 <= i < |nodes| ==>
        (nodes[i].completionState == Available <==> i == 0 || i == 2) &&
        nodes[i].completionState != Completed
  {
    BaseReadiness();
    PrereqListsOfMapNodes();
    MinReadinessOfMapNodes();
    var nodes := RefreshNodeStates(BASE_PROFILE, 44);
    assert MinReadinessList(MAP_NODES) == [0, 62, 10, 45, 25, 60, 30, 68, 32, 66, 78, 92];
    forall i | 0 <= i < |nodes|
      ensures (nodes[i].completionState == Available <==> i == 0 || i == 2)
    {
      assert MinReadinessList(MAP_NODES)[i] == MAP_NODES[i].prerequisites.minReadiness;
      if i != 0 && i != 2 && MAP_NODES[i].prerequisites.minReadiness <= 44 {
        assert PrereqSlotList()[i] != [];
        assert MAP_NODES[i].prerequisites.completedNodes != [];
      }
    }
  }
}
