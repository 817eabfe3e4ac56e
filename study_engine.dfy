/** The study app's answer evaluation and adaptive session state
    (engine.ts): an answer is judged against the question's key, a wrong
    answer is classified by the wording of the option chosen, and the
    session's target difficulty follows a streak of correct answers. */
module StudyEngine {
  import opened Numeric
  import opened Text

  datatype Domain = Airway | Cardiology | Trauma | Medical | Ops | Pharm
  datatype PromptType = First | Next | Suspect | BestAction
  datatype ChoiceKey = A | B | C | D | E

  datatype Question = Question(
    id: string,
    domain: Domain,
    difficulty: int,
    promptType: PromptType,
    stem: string,
    choices: map<ChoiceKey, string>,
    correct: ChoiceKey,
    rationale: string)

  /** The assessment order every explanation recalls. */
  const HIERARCHY: seq<string> :=
    ["mental status", "life threats / ABCs", "chief complaint", "vital trends"]

  /** `parts.join(sep)` */
  function Join(parts: seq<string>, sep: string): (r: string)
    ensures |parts| == 1 ==> r == parts[0]
    ensures |parts| == 0 ==> r == ""
  {
    if |parts| == 0 then ""
    else if |parts| == 1 then parts[0]
    else parts[0] + sep + Join(parts[1..], sep)
  }

  const TAKEAWAY: string := "NREMT takeaway: " + Join(HIERARCHY, " \U{2192} ") + "."

  /** The takeaway lists the hierarchy in order, joined by arrows. */
  lemma TakeawayText()
    ensures TAKEAWAY ==
      "NREMT takeaway: " + "mental status" + " \U{2192} " + "life threats / ABCs" + " \U{2192} " +
      "chief complaint" + " \U{2192} " + "vital trends" + "."
  {
    var sep := " \U{2192} ";
    assert Join(HIERARCHY[3..], sep) == "vital trends";
    assert Join(HIERARCHY[2..], sep) == "chief complaint" + sep + "vital trends" by {
      assert HIERARCHY[2..][1..] == HIERARCHY[3..];
    }
    assert Join(HIERARCHY[1..], sep) == "life threats / ABCs" + sep + "chief complaint" + sep + "vital trends" by {
      assert HIERARCHY[1..][1..] == HIERARCHY[2..];
    }
    assert Join(HIERARCHY, sep) ==
      "mental status" + sep + "life threats / ABCs" + sep + "chief complaint" + sep + "vital trends";
    assert TAKEAWAY == "NREMT takeaway: " + Join(HIERARCHY, sep) + ".";
  }

  /** `s.replaceAll(from, to)` for one-character patterns. */
  function ReplaceAll(s: string, from: char, to: char): (r: string)
    ensures |r| == |s|
    ensures forall i :: 0 <= i < |s| ==> r[i] == (if s[i] == from then to else s[i])
    ensures from !in r || from == to
  {
    if s == [] then [] else [if s[0] == from then to else s[0]] + ReplaceAll(s[1..], from, to)
  }

  /** The error type a wrong answer reflects, judged from the chosen
      option's wording without regard to ASCII letter case; the tests run
      in this order and the first that matches wins. */
  function Classify(selected: string): (r: string)
    ensures var low := ToLowerAscii(selected);
      (r == "scope_error" <==> Contains(low, "outside") || Contains(low, "scope")) &&
      (r == "delayed_intervention" <==>
        !(Contains(low, "outside") || Contains(low, "scope")) && Contains(low, "delay")) &&
      (r == "assessment_order_error" <==>
        !(Contains(low, "outside") || Contains(low, "scope") || Contains(low, "delay")) &&
        Contains(low, "lower-priority")) &&
      (r == "priority_error" <==>
        !(Contains(low, "outside") || Contains(low, "scope") || Contains(low, "delay") ||
          Contains(low, "lower-priority")))
    ensures r != "none"
  {
    var low := ToLowerAscii(selected);
    if Contains(low, "outside") || Contains(low, "scope") then "scope_error"
    else if Contains(low, "delay") then "delayed_intervention"
    else if Contains(low, "lower-priority") then "assessment_order_error"
    else "priority_error"
  }

  /** Letter case does not change the classification. */
  lemma ClassifyIgnoresCase(s: string)
    ensures Classify(ToLowerAscii(s)) == Classify(s)
  {
    LowerIdempotent(s);
  }

  /** An option with no wording is a plain priority error. */
  lemma {:induction false} EmptyOptionIsPriorityError()
    ensures Classify("") == "priority_error"
  {
    assert ToLowerAscii("") == "";
    if Contains("", "outside") { ContainsInEmpty("outside"); }
    if Contains("", "scope") { ContainsInEmpty("scope"); }
    if Contains("", "delay") { ContainsInEmpty("delay"); }
    if Contains("", "lower-priority") { ContainsInEmpty("lower-priority"); }
  }

  /** `question.choices[answer] ?? ""` */
  function SelectedText(q: Question, answer: ChoiceKey): (r: string)
    ensures answer in q.choices ==> r == q.choices[answer]
    ensures answer !in q.choices ==> r == ""
  {
    if answer in q.choices then q.choices[answer] else ""
  }

  datatype Evaluation = Evaluation(
    isCorrect: bool,
    explanation: string,
    takeaway: string,
    appliedRule: string,
    errorType: string)

  function EvaluateAnswer(q: Question, answer: ChoiceKey): (r: Evaluation)
    ensures r.isCorrect <==> answer == q.correct
    ensures r.errorType == "none" <==> r.isCorrect
    ensures !r.isCorrect ==> r.errorType == Classify(SelectedText(q, answer))
    ensures r.isCorrect ==> r.explanation == q.rationale
    ensures !r.isCorrect ==>
      r.explanation == q.rationale + " Your selected option likely reflects " +
        ReplaceAll(r.errorType, '_', ' ') + "."
    ensures r.takeaway == TAKEAWAY
    ensures r.appliedRule ==
      (if r.isCorrect then "Priority hierarchy applied correctly." else "Priority hierarchy violated.")
  {
    var isCorrect := q.correct == answer;
    var errorType := if isCorrect then "none" else Classify(SelectedText(q, answer));
    Evaluation(
      isCorrect,
      if isCorrect then q.rationale
      else q.rationale + " Your selected option likely reflects " + ReplaceAll(errorType, '_', ' ') + ".",
      TAKEAWAY,
      if isCorrect then "Priority hierarchy applied correctly." else "Priority hierarchy violated.",
      errorType)
  }

  /** A wrong answer whose option is missing from the question counts as a
      priority error. */
  lemma MissingChoiceIsPriorityError(q: Question, answer: ChoiceKey)
    requires answer != q.correct && answer !in q.choices
    ensures EvaluateAnswer(q, answer).errorType == "priority_error"
  {
    EmptyOptionIsPriorityError();
  }

  datatype SessionState = SessionState(
    difficulty: int,
    weakDomains: map<Domain, int>,
    errorTypes: map<string, int>,
    consecutiveCorrect: int)

  /** `(m[k] ?? 0) + 1` stored back at `k`. */
  function Bump<K>(m: map<K, int>, k: K): (r: map<K, int>)
    ensures r.Keys == m.Keys + {k}
    ensures r[k] == (if k in m then m[k] else 0) + 1
    ensures forall j :: j in m && j != k ==> r[j] == m[j]
  {
    m[k := (if k in m then m[k] else 0) + 1]
  }

  function UpdateAdaptiveState(state: SessionState, q: Question, correct: bool, errorType: string): (r: SessionState)
    ensures correct ==> r.consecutiveCorrect == state.consecutiveCorrect + 1
    ensures !correct ==> r.consecutiveCorrect == 0
    ensures correct && state.consecutiveCorrect >= 1 ==> r.difficulty == MinInt(5, state.difficulty + 1)
    ensures correct && state.consecutiveCorrect < 1 ==> r.difficulty == MinInt(5, state.difficulty)
    ensures !correct ==> r.difficulty == MaxInt(1, state.difficulty - 1)
    ensures correct ==> r.weakDomains == state.weakDomains && r.errorTypes == state.errorTypes
    ensures !correct ==> r.weakDomains == Bump(state.weakDomains, q.domain)
    ensures !correct ==> r.errorTypes == Bump(state.errorTypes, errorType)
  {
    var streak := if correct then state.consecutiveCorrect + 1 else 0;
    var bump := if correct && streak >= 2 then 1 else 0;
    var nextDifficulty := if correct then MinInt(5, state.difficulty + bump) else MaxInt(1, state.difficulty - 1);
    SessionState(
      nextDifficulty,
      if correct then state.weakDomains else Bump(state.weakDomains, q.domain),
      if correct then state.errorTypes else Bump(state.errorTypes, errorType),
      streak)
  }

  /** The target difficulty never leaves 1..5, and moves by at most one. */
  lemma DifficultyStaysInRange(state: SessionState, q: Question, correct: bool, errorType: string)
    requires 1 <= state.difficulty <= 5
    ensures var r := UpdateAdaptiveState(state, q, correct, errorType);
      1 <= r.difficulty <= 5 && -1 <= r.difficulty - state.difficulty <= 1
  {
  }

  /** Counters only grow, and only on a miss. */
  lemma CountersNeverShrink(state: SessionState, q: Question, correct: bool, errorType: string)
    ensures var r := UpdateAdaptiveState(state, q, correct, errorType);
      state.weakDomains.Keys <= r.weakDomains.Keys && state.errorTypes.Keys <= r.errorTypes.Keys &&
      (forall d :: d in state.weakDomains ==> r.weakDomains[d] >= state.weakDomains[d]) &&
      (forall e :: e in state.errorTypes ==> r.errorTypes[e] >= state.errorTypes[e])
  {
  }

  /** From a fresh streak, it takes two correct answers in a row to raise
      the difficulty, and a miss in between resets the count. */
  lemma TwoInARowToRaise(state: SessionState, q1: Question, q2: Question, e: string)
    requires state.consecutiveCorrect == 0 && 1 <= state.difficulty < 5
    ensures var s1 := UpdateAdaptiveState(state, q1, true, e);
      s1.difficulty == state.difficulty &&
      UpdateAdaptiveState(s1, q2, true, e).difficulty == state.difficulty + 1
    ensures var s1 := UpdateAdaptiveState(state, q1, false, e);
      UpdateAdaptiveState(s1, q2, true, e).difficulty == s1.difficulty
  {
  }
}
