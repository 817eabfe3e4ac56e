/** Encounter launch and answer scoring for the map game
    (src/game/engineAdapter.js). */
module EngineAdapter {
  import opened Wrappers
  import opened Numeric
  import opened MapNodes
  import opened Profiles
  import opened GameQuestions

  /** The outcome of one answer. */
  datatype AnswerResult = AnswerResult(
    correct: bool,
    rationale: string,
    errorType: Option<string>,
    domain: string,
    clinicalJudgment: bool)

  /** A running encounter at a map node. */
  datatype Encounter = Encounter(
    node: Node,
    currentIndex: int,
    questions: seq<Question>,
    answers: seq<AnswerResult>)

  /** The difficulty ceiling: one tier easier after any previous error,
      kept in 1..5. */
  function TargetDifficulty(node: Node, previousErrors: int): (r: int)
    ensures 1 <= r <= 5
    ensures 1 <= node.difficultyTier <= 5 && previousErrors <= 0 ==> r == node.difficultyTier
    ensures 2 <= node.difficultyTier <= 6 && previousErrors > 0 ==> r == node.difficultyTier - 1
    ensures node.difficultyTier <= 1 ==> r == 1
    ensures node.difficultyTier >= (if previousErrors > 0 then 6 else 5) ==> r == 5
  {
    Clamp(1, 5, node.difficultyTier + (if previousErrors > 0 then -1 else 0))
  }

  /** Bank questions of the node's primary domain no harder than one above
      the target difficulty. */
  function PrimaryPicks(bank: seq<Question>, node: Node, previousErrors: int): seq<Question> {
    var target := TargetDifficulty(node, previousErrors);
    Filter(bank, (q: Question) => q.domain == node.primaryDomain && q.difficulty <= target + 1)
  }

  /** Bank questions of any of the node's secondary domains. */
  function SecondaryPicks(bank: seq<Question>, node: Node): seq<Question> {
    Filter(bank, (q: Question) => q.domain in node.secondaryDomains)
  }

  /** `arr.slice(0, end)`, with JavaScript's reading of a negative end as
      counting back from the length. */
  function SliceTo<T>(arr: seq<T>, end: int): (r: seq<T>)
    ensures end >= 0 ==> |r| == MinInt(end, |arr|)
    ensures end < 0 ==> |r| == MaxInt(0, |arr| + end)
    ensures r <= arr
  {
    if end >= 0 then arr[..MinInt(end, |arr|)]
    else arr[..MaxInt(0, |arr| + end)]
  }

  /** `selectQuestions`: primary picks first, then secondary picks, cut to
      the node's encounter length. */
  function SelectQuestions(node: Node, bank: seq<Question>, previousErrors: int): (r: seq<Question>)
    ensures r <= PrimaryPicks(bank, node, previousErrors) + SecondaryPicks(bank, node)
    ensures node.encounterLength >= 0 ==>
      |r| == MinInt(node.encounterLength, |PrimaryPicks(bank, node, previousErrors)| + |SecondaryPicks(bank, node)|)
    ensures forall q :: q in r ==> q in bank
  {
    SliceTo(PrimaryPicks(bank, node, previousErrors) + SecondaryPicks(bank, node), node.encounterLength)
  }

  /** Every selected question before the end of the primary picks is of the
      primary domain and at most one above the target difficulty; every one
      after it is of a secondary domain. */
  lemma SelectionOrder(node: Node, bank: seq<Question>, previousErrors: int)
    ensures var r := SelectQuestions(node, bank, previousErrors);
      var np := |PrimaryPicks(bank, node, previousErrors)|;
      forall i :: 0 <= i < |r| ==>
        if i < np then
          r[i].domain == node.primaryDomain && r[i].difficulty <= TargetDifficulty(node, previousErrors) + 1
        else r[i].domain in node.secondaryDomains
  {
    var p := PrimaryPicks(bank, node, previousErrors);
    var s := SecondaryPicks(bank, node);
    var r := SelectQuestions(node, bank, previousErrors);
    forall i | 0 <= i < |r|
      ensures if i < |p| then
          r[i].domain == node.primaryDomain && r[i].difficulty <= TargetDifficulty(node, previousErrors) + 1
        else r[i].domain in node.secondaryDomains
    {
      assert r[i] == (p + s)[i];
      if i < |p| {
        assert p[i] in p;
      } else {
        assert s[i - |p|] in s;
      }
    }
  }

  /** After a previous error the primary picks are a subset of those with
      a clean record: failing never admits harder questions. */
  lemma ErrorsNeverHarden(node: Node, bank: seq<Question>, previousErrors: int)
    ensures forall q :: q in PrimaryPicks(bank, node, previousErrors) ==> q in PrimaryPicks(bank, node, 0)
  {
    assert TargetDifficulty(node, previousErrors) <= TargetDifficulty(node, 0) by {
      ClampMonotone(1, 5, node.difficultyTier + (if previousErrors > 0 then -1 else 0), node.difficultyTier);
    }
  }

  /** `launchEncounter`: a fresh encounter at the node, questions chosen
      with the profile's recent failures. */
  function LaunchEncounter(node: Node, profile: Profile, bank: seq<Question>): (e: Encounter)
    ensures e.node == node && e.currentIndex == 0 && e.answers == []
    ensures e.questions == SelectQuestions(node, bank, profile.recentFailures)
  {
    Encounter(node, 0, SelectQuestions(node, bank, profile.recentFailures), [])
  }

  /** `scoreAnswer`: correct exactly when the selected index is the keyed
      one; an error type is reported exactly for a wrong answer. */
  function ScoreAnswer(q: Question, selectedIndex: int): (r: AnswerResult)
    ensures r.correct <==> selectedIndex == q.correct
    ensures r.errorType.None? <==> r.correct
    ensures r.errorType.Some? ==> r.errorType.value == q.errorType
    ensures r.rationale == q.rationale && r.domain == q.domain && r.clinicalJudgment == q.clinicalJudgment
  {
    var correct := selectedIndex == q.correct;
    AnswerResult(correct, q.rationale, if correct then None else Some(q.errorType), q.domain, q.clinicalJudgment)
  }
}
