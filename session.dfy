/** The encounter session of the map game (src/main.js): the learner's
    state, the running encounter and the stability vector, advanced one
    answer at a time, with XP, completion and failure bookkeeping at the
    end of an encounter. Rendering and saving are not part of the model. */
module Session {
  import opened Wrappers
  import opened Numeric
  import opened Domains
  import opened Archetypes
  import opened MapNodes
  import opened Profiles
  import opened GameQuestions
  import opened Stability
  import opened GameReadiness
  import opened GameState
  import opened EngineAdapter

  /** What the outcome screen shows: success and the XP awarded. */
  datatype Outcome = Outcome(success: bool, xp: int)

  /** Everything the session holds, as one value. */
  datatype World = World(
    profile: Profile,
    readiness: int,
    nodes: seq<Node>,
    encounter: Option<Encounter>,
    stability: StabilityVector)

  /** `arch?.stabilityTolerance || 1`: an unknown archetype (or a zero
      tolerance) counts as 1. */
  function ToleranceFor(archetypeId: string): (t: real)
    ensures 0.0 < t <= 1.0
    ensures FindArchetype(archetypeId).None? ==> t == 1.0
  {
    TolerancesInRange();
    match FindArchetype(archetypeId)
    case None => 1.0
    case Some(a) => if a.stabilityTolerance == 0.0 then 1.0 else a.stabilityTolerance
  }

  /** `arch?.xpModifiers[domain] || 1` */
  function XpModifierFor(archetypeId: string, domain: string): (m: real)
    ensures 0.95 <= m <= 1.1
    ensures FindArchetype(archetypeId).None? ==> m == 1.0
  {
    match FindArchetype(archetypeId)
    case None => 1.0
    case Some(a) =>
      match Lookup(a.xpModifiers, domain)
      case None => 1.0
      case Some(v) =>
        ModifierInRange(a, domain, v);
        if v == 0.0 then 1.0 else v
  }

  lemma ModifierInRange(a: Archetype, domain: string, v: real)
    requires a in ARCHETYPES && (domain, v) in a.xpModifiers
    ensures 0.95 <= v <= 1.1
  {
    XpModifiersWellFormed();
    var k :| 0 <= k < |ARCHETYPES| && ARCHETYPES[k] == a;
    var i :| 0 <= i < |a.xpModifiers| && a.xpModifiers[i] == (domain, v);
    assert ModifiersWellFormed(ARCHETYPES[k].xpModifiers);
  }

  /** The XP for finishing (or failing) an encounter at a node:
      reward times the archetype's modifier, times 1.1 for a success after
      recent failures, times 0.35 for a failure, rounded. */
  function XpAward(node: Node, archetypeId: string, recentFailures: int, success: bool): int {
    Award(node.rewards.xp, XpModifierFor(archetypeId, node.primaryDomain), success && recentFailures > 0, success)
  }

  /** `Math.round(xp * modifier * bonus * (success ? 1 : 0.35))` */
  function Award(xp: int, modifier: real, bonus: bool, success: bool): int {
    Round(xp as real * modifier * (if bonus then 1.1 else 1.0) * (if success then 1.0 else 0.35))
  }

  /** For a non-negative reward a failure never earns more than a success,
      and neither earns a negative amount. */
  lemma FailureEarnsLess(node: Node, archetypeId: string, recentFailures: int)
    requires node.rewards.xp >= 0
    ensures 0 <= XpAward(node, archetypeId, recentFailures, false) <= XpAward(node, archetypeId, recentFailures, true)
  {
    AwardOrder(node.rewards.xp, XpModifierFor(archetypeId, node.primaryDomain), recentFailures > 0);
  }

  lemma AwardOrder(xp: int, modifier: real, bonus: bool)
    requires xp >= 0 && modifier >= 0.0
    ensures 0 <= Award(xp, modifier, false, false) <= Award(xp, modifier, bonus, true)
  {
    var base := xp as real * modifier;
    MulMonotone(0.0, xp as real, modifier);
    var factor := if bonus then 1.1 else 1.0;
    MulMonotone(0.35, factor, base);
    assert base * 1.0 * 0.35 == 0.35 * base;
    assert base * factor * 1.0 == factor * base;
    RoundMonotone(0.0, base * 1.0 * 0.35);
    RoundOfInt(0);
    RoundMonotone(base * 1.0 * 0.35, base * factor * 1.0);
  }

  /** `completedNodes.push(id)` unless already there, on success only. */
  function AddCompleted(completed: seq<string>, id: string, success: bool): (r: seq<string>)
    ensures completed <= r && |r| <= |completed| + 1
    ensures forall x :: x in r <==> x in completed || (success && x == id)
  {
    if success && id !in completed then completed + [id] else completed
  }

  predicate NoDuplicates(s: seq<string>) {
    forall i, j :: 0 <= i < j < |s| ==> s[i] != s[j]
  }

  lemma AddCompletedNoDuplicates(completed: seq<string>, id: string, success: bool)
    requires NoDuplicates(completed)
    ensures NoDuplicates(AddCompleted(completed, id, success))
  {
  }

  /** The profile after an encounter ends. */
  function AfterCompletion(p: Profile, node: Node, success: bool): (q: Profile)
    ensures q.xp == p.xp + XpAward(node, p.archetypeId, p.recentFailures, success)
    ensures q.completedNodes == AddCompleted(p.completedNodes, node.nodeId, success)
    ensures success ==> q.recentFailures == MaxInt(0, p.recentFailures - 1)
    ensures !success ==> q.recentFailures == p.recentFailures + 1
    ensures q.(xp := p.xp, completedNodes := p.completedNodes, recentFailures := p.recentFailures) == p
  {
    p.(xp := p.xp + XpAward(node, p.archetypeId, p.recentFailures, success),
       completedNodes := AddCompleted(p.completedNodes, node.nodeId, success),
       recentFailures := if success then MaxInt(0, p.recentFailures - 1) else p.recentFailures + 1)
  }

  /** The profile after one answer: a miss counts a clinical-judgment error
      for clinical items and adds 0.08 to the priority error rate (kept to
      two decimals); every answer moves the domain score. */
  function AfterAnswer(p: Profile, r: AnswerResult): (q: Profile)
    ensures q.domainScores == UpdateDomainScore(p.domainScores, r.correct, r.domain, r.clinicalJudgment)
    ensures r.correct ==> q.clinicalJudgmentErrors == p.clinicalJudgmentErrors && q.priorityErrorRate == p.priorityErrorRate
    ensures !r.correct ==> q.clinicalJudgmentErrors == p.clinicalJudgmentErrors + (if r.clinicalJudgment then 1 else 0)
    ensures !r.correct ==> q.priorityErrorRate == ToFixed2(p.priorityErrorRate + 0.08)
    ensures q.(domainScores := p.domainScores, clinicalJudgmentErrors := p.clinicalJudgmentErrors,
               priorityErrorRate := p.priorityErrorRate) == p
  {
    var p1 := if r.correct then p
      else p.(clinicalJudgmentErrors := p.clinicalJudgmentErrors + (if r.clinicalJudgment then 1 else 0),
              priorityErrorRate := ToFixed2(p.priorityErrorRate + 0.08));
    p1.(domainScores := UpdateDomainScore(p1.domainScores, r.correct, r.domain, r.clinicalJudgment))
  }

  /** A miss raises a two-decimal error rate by exactly 0.08, with no cap. */
  lemma ErrorRateStep(p: Profile, r: AnswerResult)
    requires !r.correct && IsHundredths(p.priorityErrorRate)
    ensures AfterAnswer(p, r).priorityErrorRate == p.priorityErrorRate + 0.08
  {
    assert 0.08 == Hundredths(8);
    HundredthsAdd(p.priorityErrorRate, 0.08);
    ToFixed2OfHundredths(p.priorityErrorRate + 0.08);
  }

  /** `completeEncounter(success)`: XP, completed set and failures updated,
      then readiness and the map recomputed. */
  function CompleteSpec(w: World, success: bool): (World, int)
    requires w.encounter.Some?
  {
    var node := w.encounter.value.node;
    var p := AfterCompletion(w.profile, node, success);
    var readiness := CalculateReadiness(p, p.mode);
    (w.(profile := p, readiness := readiness, nodes := RefreshNodeStates(p, readiness)),
     XpAward(node, w.profile.archetypeId, w.profile.recentFailures, success))
  }

  /** The stability after an answer: a miss applies its error type at the
      archetype's tolerance. */
  function StabilityAfter(s: StabilityVector, archetypeId: string, r: AnswerResult): StabilityVector {
    if r.correct || r.errorType.None? then s
    else ApplyErrorToStability(s, r.errorType.value, ToleranceFor(archetypeId))
  }

  predicate CanAnswer(w: World) {
    w.encounter.Some? && 0 <= w.encounter.value.currentIndex < |w.encounter.value.questions|
  }

  /** The first half of an answer: log the result, then update stability
      and profile. */
  function Record(w: World, selectedIndex: int): World
    requires CanAnswer(w)
  {
    var e := w.encounter.value;
    var r := ScoreAnswer(e.questions[e.currentIndex], selectedIndex);
    w.(profile := AfterAnswer(w.profile, r),
       encounter := Some(e.(answers := e.answers + [r])),
       stability := StabilityAfter(w.stability, w.profile.archetypeId, r))
  }

  /** `handleAnswer(selectedIndex)`: log the result, update stability and
      profile, then end in failure, end in success after the last question,
      or move to the next question. */
  function AnswerSpec(w: World, selectedIndex: int): (World, Option<Outcome>)
    requires CanAnswer(w)
  {
    var e := w.encounter.value;
    var w1 := Record(w, selectedIndex);
    var s := w1.stability;
    if IsEncounterFailure(s) then
      var done := CompleteSpec(w1, false);
      (done.0, Some(Outcome(false, done.1)))
    else
      var w2 := w1.(encounter := Some(w1.encounter.value.(currentIndex := e.currentIndex + 1)));
      if e.currentIndex + 1 >= |e.questions| then
        var done := CompleteSpec(w2, true);
        (done.0, Some(Outcome(true, done.1)))
      else
        (w2.(stability := if e.node.nodeType != Boss then CreateStability(FULL) else s), None)
  }

  /** Each answer appends exactly its scored result to the log. */
  lemma AnswerIsLogged(w: World, selectedIndex: int)
    requires CanAnswer(w)
    ensures var e := w.encounter.value;
      var e' := AnswerSpec(w, selectedIndex).0.encounter;
      e'.Some? && e'.value.answers == e.answers + [ScoreAnswer(e.questions[e.currentIndex], selectedIndex)] &&
      e'.value.questions == e.questions && e'.value.node == e.node
  {
  }

  /** A broken stability ends the encounter as a failure before the index
      advances; otherwise the index advances and the encounter succeeds
      exactly when it reaches the number of questions. */
  lemma AnswerOutcome(w: World, selectedIndex: int)
    requires CanAnswer(w)
    ensures var e := w.encounter.value;
      var r := ScoreAnswer(e.questions[e.currentIndex], selectedIndex);
      var s := StabilityAfter(w.stability, w.profile.archetypeId, r);
      var (w', outcome) := AnswerSpec(w, selectedIndex);
      (IsEncounterFailure(s) ==>
         outcome.Some? && !outcome.value.success && w'.encounter.value.currentIndex == e.currentIndex) &&
      (!IsEncounterFailure(s) ==>
         w'.encounter.value.currentIndex == e.currentIndex + 1 &&
         (outcome.Some? <==> e.currentIndex + 1 == |e.questions|) &&
         (outcome.Some? ==> outcome.value.success))
  {
  }

  /** Between questions a non-boss node restores full stability, while a
      boss node carries the damage forward. */
  lemma StabilityBetweenQuestions(w: World, selectedIndex: int)
    requires CanAnswer(w)
    requires AnswerSpec(w, selectedIndex).1.None?
    ensures var e := w.encounter.value;
      var r := ScoreAnswer(e.questions[e.currentIndex], selectedIndex);
      AnswerSpec(w, selectedIndex).0.stability ==
        (if e.node.nodeType == Boss then StabilityAfter(w.stability, w.profile.archetypeId, r)
         else StabilityVector(100, 100, 100))
  {
  }

  /** What stays true of the session between calls. */
  predicate Inv(w: World) {
    w.profile.recentFailures >= 0 &&
    w.profile.clinicalJudgmentErrors >= 0 &&
    w.profile.priorityErrorRate >= 0.0 && IsHundredths(w.profile.priorityErrorRate) &&
    NoDuplicates(w.profile.completedNodes) &&
    0 <= w.readiness <= 100 &&
    w.nodes == RefreshNodeStates(w.profile, w.readiness) &&
    (w.encounter.Some? ==> 0 <= w.encounter.value.currentIndex <= |w.encounter.value.questions|)
  }

  /** The session a new learner starts in. */
  function InitialWorld(): World {
    var readiness := CalculateReadiness(BASE_PROFILE, BASE_PROFILE.mode);
    World(BASE_PROFILE, readiness, RefreshNodeStates(BASE_PROFILE, readiness), None, CreateStability(FULL))
  }

  lemma InitialInv()
    ensures Inv(InitialWorld())
  {
    assert 0.0 == Hundredths(0);
  }

  /** Ending an encounter keeps the invariant, grows the completed set only
      on success, and never makes the failure count negative. */
  lemma CompleteKeepsInv(w: World, success: bool)
    requires w.encounter.Some? && Inv(w.(readiness := 0, nodes := RefreshNodeStates(w.profile, 0)))
    ensures Inv(CompleteSpec(w, success).0)
    ensures w.profile.completedNodes <= CompleteSpec(w, success).0.profile.completedNodes
    ensures w.encounter.value.node.nodeId in CompleteSpec(w, success).0.profile.completedNodes <==>
      success || w.encounter.value.node.nodeId in w.profile.completedNodes
  {
    AddCompletedNoDuplicates(w.profile.completedNodes, w.encounter.value.node.nodeId, success);
  }

  /** Answering keeps the invariant. */
  lemma AnswerKeepsInv(w: World, selectedIndex: int)
    requires Inv(w) && CanAnswer(w)
    ensures Inv(AnswerSpec(w, selectedIndex).0)
  {
    var e := w.encounter.value;
    var r := ScoreAnswer(e.questions[e.currentIndex], selectedIndex);
    var p := AfterAnswer(w.profile, r);
    if !r.correct {
      assert p.priorityErrorRate == ToFixed2(w.profile.priorityErrorRate + 0.08);
    }
    var s := StabilityAfter(w.stability, w.profile.archetypeId, r);
    var w1 := w.(profile := p, encounter := Some(e.(answers := e.answers + [r])), stability := s);
    if IsEncounterFailure(s) {
      CompleteKeepsInv(w1, false);
    } else if e.currentIndex + 1 >= |e.questions| {
      CompleteKeepsInv(w1.(encounter := Some(w1.encounter.value.(currentIndex := e.currentIndex + 1))), true);
    }
  }

  /** The session state of src/main.js. */
  class Session {
    var profile: Profile
    var readiness: int
    var nodes: seq<Node>
    var encounter: Option<Encounter>
    var stability: StabilityVector
    const bank: seq<Question>

    function Snapshot(): World
      reads this
    {
      World(profile, readiness, nodes, encounter, stability)
    }

    predicate Valid()
      reads this
    {
      Inv(Snapshot())
    }

    /** A new learner's session: base profile, no encounter, full stability. */
    constructor(bank: seq<Question>)
      ensures Valid() && Snapshot() == InitialWorld() && this.bank == bank
    {
      InitialInv();
      profile := BASE_PROFILE;
      readiness := CalculateReadiness(BASE_PROFILE, BASE_PROFILE.mode);
      nodes := RefreshNodeStates(BASE_PROFILE, CalculateReadiness(BASE_PROFILE, BASE_PROFILE.mode));
      encounter := None;
      stability := CreateStability(FULL);
      this.bank := bank;
    }

    /** The archetype dialog's callback: set the archetype and refresh. */
    method SelectArchetype(archetypeId: string)
      requires Valid()
      modifies this
      ensures Valid()
      ensures profile == old(profile).(archetypeId := archetypeId)
      ensures readiness == CalculateReadiness(profile, profile.mode)
      ensures nodes == RefreshNodeStates(profile, readiness)
      ensures encounter == old(encounter) && stability == old(stability)
    {
      profile := profile.(archetypeId := archetypeId);
      readiness := CalculateReadiness(profile, profile.mode);
      nodes := RefreshNodeStates(profile, readiness);
    }

    /** `startNodeEncounter(node)`: a fresh encounter and full stability. */
    method StartNodeEncounter(node: Node)
      requires Valid()
      modifies this
      ensures Valid()
      ensures encounter == Some(LaunchEncounter(node, profile, bank))
      ensures stability == CreateStability(FULL)
      ensures profile == old(profile) && readiness == old(readiness) && nodes == old(nodes)
    {
      encounter := Some(LaunchEncounter(node, profile, bank));
      stability := CreateStability(FULL);
    }

    /** `completeEncounter(success)` */
    method CompleteEncounter(success: bool) returns (xpAward: int)
      requires encounter.Some?
      modifies this
      ensures (Snapshot(), xpAward) == CompleteSpec(old(Snapshot()), success)
    {
      var node := encounter.value.node;
      ghost var before := profile;
      xpAward := XpAward(node, profile.archetypeId, profile.recentFailures, success);
      profile := profile.(xp := profile.xp + xpAward);
      if success && node.nodeId !in profile.completedNodes {
        profile := profile.(completedNodes := profile.completedNodes + [node.nodeId]);
      }
      if !success {
        profile := profile.(recentFailures := profile.recentFailures + 1);
      } else {
        profile := profile.(recentFailures := MaxInt(0, profile.recentFailures - 1));
      }
      assert profile == AfterCompletion(before, node, success);
      readiness := CalculateReadiness(profile, profile.mode);
      nodes := RefreshNodeStates(profile, readiness);
    }

    /** The logging and bookkeeping half of `handleAnswer`. */
    method RecordAnswer(selectedIndex: int)
      requires CanAnswer(Snapshot())
      modifies this
      ensures Snapshot() == Record(old(Snapshot()), selectedIndex)
    {
      var e := encounter.value;
      var question := e.questions[e.currentIndex];
      var result := ScoreAnswer(question, selectedIndex);
      e := e.(answers := e.answers + [result]);
      encounter := Some(e);

      var p := profile;
      if !result.correct {
        stability := ApplyErrorToStability(stability, result.errorType.value, ToleranceFor(p.archetypeId));
        if result.clinicalJudgment {
          p := p.(clinicalJudgmentErrors := p.clinicalJudgmentErrors + 1);
        }
        p := p.(priorityErrorRate := ToFixed2(p.priorityErrorRate + 0.08));
      }
      p := p.(domainScores := UpdateDomainScore(p.domainScores, result.correct, result.domain, result.clinicalJudgment));
      assert p == AfterAnswer(profile, result);
      profile := p;
    }

    /** `handleAnswer(selectedIndex)` */
    method HandleAnswer(selectedIndex: int) returns (outcome: Option<Outcome>)
      requires Valid() && CanAnswer(Snapshot())
      modifies this
      ensures Valid()
      ensures (Snapshot(), outcome) == AnswerSpec(old(Snapshot()), selectedIndex)
    {
      AnswerKeepsInv(Snapshot(), selectedIndex);
      RecordAnswer(selectedIndex);

      if IsEncounterFailure(stability) {
        var xp := CompleteEncounter(false);
        return Some(Outcome(false, xp));
      }

      var e := encounter.value;
      e := e.(currentIndex := e.currentIndex + 1);
      encounter := Some(e);
      if e.currentIndex >= |e.questions| {
        var xp := CompleteEncounter(true);
        return Some(Outcome(true, xp));
      }

      if e.node.nodeType != Boss {
        stability := CreateStability(FULL);
      }
      outcome := None;
    }
  }
}
