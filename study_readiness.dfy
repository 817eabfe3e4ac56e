/** The study app's readiness scoring (readiness.ts): per-domain scores
    weighted by recency, mode and difficulty, a clinical-judgment score
    over the most recent answers, and the composite exam-readiness number.
    The current time `Date.now()` is the parameter `now`, in milliseconds. */
module StudyReadiness {
  import opened Numeric
  import opened StudyEngine

  datatype Mode = Study | Exam

  datatype HistoryEntry = HistoryEntry(
    id: string,
    domain: Domain,
    difficulty: int,
    correct: bool,
    mode: Mode,
    timestamp: int,
    errorType: string,
    isPediatric: bool)

  datatype Label = BelowPassing | Borderline | Passing | Strong | ExamReady

  /** The label's rank, from lowest to highest band. */
  function LabelRank(l: Label): nat
  {
    match l
    case BelowPassing => 0
    case Borderline => 1
    case Passing => 2
    case Strong => 3
    case ExamReady => 4
  }

  function LabelText(l: Label): string
  {
    match l
    case BelowPassing => "Below Passing"
    case Borderline => "Borderline"
    case Passing => "Passing"
    case Strong => "Strong"
    case ExamReady => "Exam-Ready"
  }

  /** Bands [..50), [50, 62), [62, 74), [74, 86), [86..). */
  function LabelForScore(score: int): (l: Label)
    ensures l == BelowPassing <==> score < 50
    ensures l == Borderline <==> 50 <= score < 62
    ensures l == Passing <==> 62 <= score < 74
    ensures l == Strong <==> 74 <= score < 86
    ensures l == ExamReady <==> 86 <= score
  {
    if score < 50 then BelowPassing
    else if score < 62 then Borderline
    else if score < 74 then Passing
    else if score < 86 then Strong
    else ExamReady
  }

  /** The label text on each side of every band edge. */
  lemma LabelExamples()
    ensures LabelText(LabelForScore(49)) == "Below Passing" && LabelText(LabelForScore(50)) == "Borderline"
    ensures LabelText(LabelForScore(61)) == "Borderline" && LabelText(LabelForScore(62)) == "Passing"
    ensures LabelText(LabelForScore(73)) == "Passing" && LabelText(LabelForScore(74)) == "Strong"
    ensures LabelText(LabelForScore(85)) == "Strong" && LabelText(LabelForScore(86)) == "Exam-Ready"
  {
  }

  /** Different labels read differently. */
  lemma LabelTextInjective(l: Label, m: Label)
    requires l != m
    ensures LabelText(l) != LabelText(m)
  {
    assert LabelText(l)[0] != LabelText(m)[0] || |LabelText(l)| != |LabelText(m)|;
  }

  /** A higher score never earns a lower label. */
  lemma LabelMonotone(s: int, t: int)
    requires s <= t
    ensures LabelRank(LabelForScore(s)) <= LabelRank(LabelForScore(t))
  {
  }

  const RECENT_WINDOW: real := 90.0
  const MS_PER_DAY: int := 1000 * 60 * 60 * 24
  const CLINICAL_JUDGMENT_WEIGHT: int := 34

  /** Age in days of an answer given at `timestamp`. */
  function AgeDays(now: int, timestamp: int): real
  {
    (now - timestamp) as real / MS_PER_DAY as real
  }

  /** Linear decay over 90 days, floored at 0.4. */
  function Recency(daysOld: real): (r: real)
    ensures r >= 0.4
    ensures daysOld >= 0.0 ==> r <= 1.0
    ensures daysOld >= 54.0 ==> r == 0.4
  {
    MaxReal(0.4, 1.0 - daysOld / RECENT_WINDOW)
  }

  lemma RecencyAntitone(d1: real, d2: real)
    requires d1 <= d2
    ensures Recency(d2) <= Recency(d1)
  {
  }

  function ModeMultiplier(m: Mode): (r: real)
    ensures r == 1.25 || r == 0.85
    ensures r == 1.25 <==> m == Exam
  {
    if m == Exam then 1.25 else 0.85
  }

  function DifficultyMultiplier(difficulty: int): (r: real)
    ensures difficulty >= 1 ==> r >= 0.9
    ensures difficulty <= 5 ==> r <= 1.3
  {
    0.8 + difficulty as real * 0.1
  }

  lemma DifficultyMultiplierMonotone(d1: int, d2: int)
    requires d1 <= d2
    ensures DifficultyMultiplier(d1) <= DifficultyMultiplier(d2)
  {
  }

  /** The weight one answer carries in every weighted ratio. */
  function EntryWeight(now: int, e: HistoryEntry): real
  {
    Recency(AgeDays(now, e.timestamp)) * ModeMultiplier(e.mode) * DifficultyMultiplier(e.difficulty)
  }

  lemma PositiveProduct(a: real, b: real, c: real)
    requires a > 0.0 && b > 0.0 && c > 0.0
    ensures a * b * c > 0.0
  {
    assert a * b > 0.0;
  }

  lemma ProductGrowsInMiddle(a: real, b1: real, b2: real, c: real)
    requires a > 0.0 && c > 0.0 && b1 < b2
    ensures a * b1 * c < a * b2 * c
  {
    assert a * b1 < a * b2;
  }

  /** Questions of difficulty at least 1 always carry a positive weight. */
  lemma WeightPositive(now: int, e: HistoryEntry)
    requires e.difficulty >= 1
    ensures EntryWeight(now, e) > 0.0
  {
    var a, b, c := Recency(AgeDays(now, e.timestamp)), ModeMultiplier(e.mode), DifficultyMultiplier(e.difficulty);
    PositiveProduct(a, b, c);
    assert EntryWeight(now, e) == a * b * c;
  }

  /** The same answer given in exam mode weighs more than in study mode. */
  lemma ExamOutweighsStudy(now: int, e: HistoryEntry)
    requires e.difficulty >= 1
    ensures EntryWeight(now, e.(mode := Study)) < EntryWeight(now, e.(mode := Exam))
  {
    var a, c := Recency(AgeDays(now, e.timestamp)), DifficultyMultiplier(e.difficulty);
    ProductGrowsInMiddle(a, 0.85, 1.25, c);
    assert EntryWeight(now, e.(mode := Study)) == a * 0.85 * c;
    assert EntryWeight(now, e.(mode := Exam)) == a * 1.25 * c;
  }

  predicate WellFormed(es: seq<HistoryEntry>)
  {
    forall i :: 0 <= i < |es| ==> es[i].difficulty >= 1
  }

  /** The sum of the weights of `es`, as a left fold. */
  function TotalWeight(now: int, es: seq<HistoryEntry>): real
  {
    if es == [] then 0.0 else TotalWeight(now, es[..|es| - 1]) + EntryWeight(now, es[|es| - 1])
  }

  /** The sum of the weights of the correct answers of `es`. */
  function CorrectWeight(now: int, es: seq<HistoryEntry>): real
  {
    if es == [] then 0.0
    else CorrectWeight(now, es[..|es| - 1]) + (if es[|es| - 1].correct then EntryWeight(now, es[|es| - 1]) else 0.0)
  }

  /** With positive weights the correct part lies between 0 and the total,
      and a non-empty history has a positive total. */
  lemma {:induction false} WeightsOrdered(now: int, es: seq<HistoryEntry>)
    requires WellFormed(es)
    ensures 0.0 <= CorrectWeight(now, es) <= TotalWeight(now, es)
    ensures |es| > 0 ==> TotalWeight(now, es) > 0.0
  {
    if es != [] {
      var p := es[..|es| - 1];
      assert WellFormed(p) by {
        forall i | 0 <= i < |p| ensures p[i].difficulty >= 1 {
          assert p[i] == es[i];
        }
      }
      WeightsOrdered(now, p);
      WeightPositive(now, es[|es| - 1]);
    }
  }

  /** All answers correct: the correct part is the whole. */
  lemma {:induction false} AllCorrectWeight(now: int, es: seq<HistoryEntry>)
    requires forall i :: 0 <= i < |es| ==> es[i].correct
    ensures CorrectWeight(now, es) == TotalWeight(now, es)
  {
    if es != [] {
      var p := es[..|es| - 1];
      assert forall i :: 0 <= i < |p| ==> p[i].correct by {
        forall i | 0 <= i < |p| ensures p[i].correct {
          assert p[i] == es[i];
        }
      }
      AllCorrectWeight(now, p);
    }
  }

  /** No answer correct: nothing counts as correct. */
  lemma {:induction false} NoneCorrectWeight(now: int, es: seq<HistoryEntry>)
    requires forall i :: 0 <= i < |es| ==> !es[i].correct
    ensures CorrectWeight(now, es) == 0.0
  {
    if es != [] {
      var p := es[..|es| - 1];
      assert forall i :: 0 <= i < |p| ==> !p[i].correct by {
        forall i | 0 <= i < |p| ensures !p[i].correct {
          assert p[i] == es[i];
        }
      }
      NoneCorrectWeight(now, p);
    }
  }

  lemma RatioBounds(w: real, t: real)
    requires 0.0 <= w <= t && t > 0.0
    ensures 0.0 <= w / t <= 1.0
    ensures 0.0 <= w / t * 100.0 <= 100.0
  {
  }

  lemma FullRatio(t: real)
    requires t > 0.0
    ensures Round(t / t * 100.0) == 100
  {
    assert t / t == 1.0;
  }

  lemma RoundPercent(x: real)
    requires 0.0 <= x <= 100.0
    ensures 0 <= Round(x) <= 100
  {
  }

  /** `totalWeight ? Math.round(weighted / totalWeight * 100) : 0` */
  function WeightedScore(now: int, es: seq<HistoryEntry>): int
  {
    var t := TotalWeight(now, es);
    if t != 0.0 then Round(CorrectWeight(now, es) / t * 100.0) else 0
  }

  /** A domain's score is a percentage. */
  lemma WeightedScoreBounds(now: int, es: seq<HistoryEntry>)
    requires WellFormed(es)
    ensures 0 <= WeightedScore(now, es) <= 100
  {
    WeightsOrdered(now, es);
    var t := TotalWeight(now, es);
    if t != 0.0 {
      var x := CorrectWeight(now, es) / t * 100.0;
      RatioBounds(CorrectWeight(now, es), t);
      RoundPercent(x);
    }
  }

  /** Every answer right scores 100. */
  lemma AllCorrectScores100(now: int, es: seq<HistoryEntry>)
    requires WellFormed(es) && es != []
    requires forall i :: 0 <= i < |es| ==> es[i].correct
    ensures WeightedScore(now, es) == 100
  {
    WeightsOrdered(now, es);
    AllCorrectWeight(now, es);
    FullRatio(TotalWeight(now, es));
  }

  /** Every answer wrong scores 0. */
  lemma NoneCorrectScoresZero(now: int, es: seq<HistoryEntry>)
    requires forall i :: 0 <= i < |es| ==> !es[i].correct
    ensures WeightedScore(now, es) == 0
  {
    NoneCorrectWeight(now, es);
  }

  /** The entries of `history` in domain `d`, in the order given. */
  function EntriesOf(history: seq<HistoryEntry>, d: Domain): (r: seq<HistoryEntry>)
    ensures |r| <= |history|
    ensures forall e :: e in r <==> e in history && e.domain == d
    ensures WellFormed(history) ==> WellFormed(r)
  {
    if history == [] then []
    else
      var p := EntriesOf(history[..|history| - 1], d);
      var e := history[|history| - 1];
      assert forall x :: x in history <==> x in history[..|history| - 1] || x == e;
      if e.domain == d then p + [e] else p
  }

  /** The error types of the wrong answers, in order. */
  function Misses(es: seq<HistoryEntry>): (r: seq<string>)
    ensures |r| <= |es|
    ensures forall t :: t in r <==> exists i :: 0 <= i < |es| && !es[i].correct && es[i].errorType == t
  {
    if es == [] then []
    else
      var p := Misses(es[..|es| - 1]);
      var e := es[|es| - 1];
      assert forall i :: 0 <= i < |es| - 1 ==> es[..|es| - 1][i] == es[i];
      if e.correct then p else p + [e.errorType]
  }

  function CountOf(s: seq<string>, t: string): (n: nat)
    ensures n <= |s|
    ensures n > 0 <==> t in s
  {
    if s == [] then 0 else CountOf(s[..|s| - 1], t) + (if s[|s| - 1] == t then 1 else 0)
  }

  /** The keys of the `errorCounts` object: each error type once, in the
      order of its first occurrence. */
  function FirstOccurrences(s: seq<string>): (r: seq<string>)
    ensures forall t :: t in r <==> t in s
    ensures forall i, j :: 0 <= i < j < |r| ==> r[i] != r[j]
  {
    if s == [] then []
    else
      var p := FirstOccurrences(s[..|s| - 1]);
      var t := s[|s| - 1];
      assert forall x :: x in s <==> x in s[..|s| - 1] || x == t;
      if t in s[..|s| - 1] then p else p + [t]
  }

  /** The position of the first key of `keys` with the largest count: the
      head of a stable descending sort by count. */
  function TopIndex(keys: seq<string>, s: seq<string>): (k: nat)
    requires |keys| > 0
    ensures k < |keys|
    ensures forall i :: 0 <= i < |keys| ==> CountOf(s, keys[i]) <= CountOf(s, keys[k])
    ensures forall i :: 0 <= i < k ==> CountOf(s, keys[i]) < CountOf(s, keys[k])
    decreases |keys|
  {
    if |keys| == 1 then 0
    else
      var p := keys[..|keys| - 1];
      var b := TopIndex(p, s);
      assert forall i :: 0 <= i < |p| ==> p[i] == keys[i];
      if CountOf(s, keys[|keys| - 1]) > CountOf(s, keys[b]) then |keys| - 1 else b
  }

  /** The most frequent error type among the wrong answers, ties going to
      the one seen first; "none" when there is no wrong answer. */
  function TopError(es: seq<HistoryEntry>): (r: string)
  {
    var m := Misses(es);
    if m == [] then "none" else var keys := FirstOccurrences(m); keys[TopIndex(keys, m)]
  }

  /** The top error is one of the recorded errors, and no error type occurs
      more often. */
  lemma TopErrorIsMostFrequent(es: seq<HistoryEntry>)
    ensures Misses(es) == [] ==> TopError(es) == "none"
    ensures Misses(es) != [] ==>
      TopError(es) in Misses(es) &&
      forall t :: CountOf(Misses(es), t) <= CountOf(Misses(es), TopError(es))
  {
    var m := Misses(es);
    if m != [] {
      var keys := FirstOccurrences(m);
      var r := TopError(es);
      assert r == keys[TopIndex(keys, m)];
      forall t ensures CountOf(m, t) <= CountOf(m, r) {
        if t in m {
          assert t in keys;
        }
      }
    }
  }

  datatype DomainReadiness = DomainReadiness(score: int, scoreLabel: Label, attempts: nat, topError: string)

  function ReadinessOf(now: int, es: seq<HistoryEntry>): (r: DomainReadiness)
    ensures r.scoreLabel == LabelForScore(r.score)
    ensures r.attempts == |es|
  {
    var score := WeightedScore(now, es);
    DomainReadiness(score, LabelForScore(score), |es|, TopError(es))
  }

  const ALL_DOMAINS: set<Domain> := {Airway, Cardiology, Trauma, Medical, Ops, Pharm}

  /** One readiness record per domain, over that domain's answers only. */
  function CalculateDomainReadiness(now: int, history: seq<HistoryEntry>): (r: map<Domain, DomainReadiness>)
    ensures r.Keys == ALL_DOMAINS
    ensures forall d :: d in r ==> r[d].attempts == |EntriesOf(history, d)|
  {
    map d | d in ALL_DOMAINS :: ReadinessOf(now, EntriesOf(history, d))
  }

  /** Every domain score is a percentage, and a domain nobody answered
      scores 0 with no top error. */
  lemma DomainReadinessBounds(now: int, history: seq<HistoryEntry>, d: Domain)
    requires WellFormed(history)
    ensures var r := CalculateDomainReadiness(now, history)[d];
      0 <= r.score <= 100 &&
      (EntriesOf(history, d) == [] ==> r.score == 0 && r.topError == "none" && r.scoreLabel == BelowPassing)
  {
    WeightedScoreBounds(now, EntriesOf(history, d));
  }

  /** Answers in one domain never move another domain's record. */
  lemma DomainsIndependent(now: int, history: seq<HistoryEntry>, e: HistoryEntry, d: Domain)
    requires e.domain != d
    ensures CalculateDomainReadiness(now, history + [e])[d] == CalculateDomainReadiness(now, history)[d]
  {
    assert (history + [e])[..|history + [e]| - 1] == history;
  }

  /** `history.slice(-n)` for n > 0. */
  function Last(history: seq<HistoryEntry>, n: nat): (r: seq<HistoryEntry>)
    requires n > 0
    ensures |r| == MinInt(n, |history|)
    ensures |history| <= n ==> r == history
    ensures r == history[|history| - |r|..]
  {
    if |history| <= n then history else history[|history| - n..]
  }

  function DomainsOf(es: seq<HistoryEntry>): set<Domain>
  {
    set i | 0 <= i < |es| :: es[i].domain
  }

  predicate IsJudgmentError(t: string)
  {
    t == "priority_error" || t == "assessment_order_error" || t == "delayed_intervention"
  }

  function JudgmentErrors(es: seq<HistoryEntry>): (n: nat)
    ensures n <= |es|
  {
    if es == [] then 0
    else JudgmentErrors(es[..|es| - 1]) + (if IsJudgmentError(es[|es| - 1].errorType) then 1 else 0)
  }

  /** `Math.min(0.22, judgmentErrors / Math.max(1, recent.length))` */
  function JudgmentPenalty(es: seq<HistoryEntry>): (r: real)
    ensures 0.0 <= r <= 0.22
    ensures JudgmentErrors(es) == 0 ==> r == 0.0
  {
    MinReal(0.22, JudgmentErrors(es) as real / MaxInt(1, |es|) as real)
  }

  /** `Math.min(1, crossDomainSet.size / 6)` */
  function CrossDomainFactor(es: seq<HistoryEntry>): (r: real)
    ensures 0.0 <= r <= 1.0
    ensures DomainsOf(es) == ALL_DOMAINS ==> r == 1.0
  {
    MinReal(1.0, |DomainsOf(es)| as real / 6.0)
  }

  function CorrectRatio(now: int, es: seq<HistoryEntry>): real
  {
    var t := TotalWeight(now, es);
    if t != 0.0 then CorrectWeight(now, es) / t else 0.0
  }

  /** The clinical-judgment score of the last 60 answers. */
  function ClinicalJudgment(now: int, history: seq<HistoryEntry>): (r: int)
    ensures 0 <= r <= 100
    ensures history == [] ==> r == 0
  {
    if history == [] then 0
    else
      var recent := Last(history, 60);
      var score := (CorrectRatio(now, recent) * 0.75 + CrossDomainFactor(recent) * 0.25 - JudgmentPenalty(recent)) * 100.0;
      Clamp(0, 100, Round(score))
  }

  /** Only the last 60 answers matter. */
  lemma ClinicalJudgmentWindow(now: int, history: seq<HistoryEntry>, k: nat)
    requires k <= |history| && |history| - k >= 60
    ensures ClinicalJudgment(now, history[k..]) == ClinicalJudgment(now, history)
  {
    assert Last(history[k..], 60) == Last(history, 60);
  }

  /** Correct, varied and free of judgment errors scores full marks. */
  lemma PerfectJudgment(now: int, history: seq<HistoryEntry>)
    requires history != [] && WellFormed(Last(history, 60))
    requires forall i :: 0 <= i < |Last(history, 60)| ==> Last(history, 60)[i].correct
    requires DomainsOf(Last(history, 60)) == ALL_DOMAINS
    requires JudgmentErrors(Last(history, 60)) == 0
    ensures ClinicalJudgment(now, history) == 100
  {
    var recent := Last(history, 60);
    WeightsOrdered(now, recent);
    AllCorrectWeight(now, recent);
    assert CorrectRatio(now, recent) == 1.0;
  }

  /** The domain weights of the exam blueprint, in percent. */
  function DomainWeight(d: Domain): (w: nat)
  {
    match d
    case Airway => 10
    case Cardiology => 12
    case Trauma => 8
    case Medical => 26
    case Pharm => 0
    case Ops => 10
  }

  /** The positive domain weights together with clinical judgment make up
      the whole score. */
  lemma WeightsMakeWhole()
    ensures DomainWeight(Airway) + DomainWeight(Cardiology) + DomainWeight(Trauma) + DomainWeight(Medical) +
      DomainWeight(Pharm) + DomainWeight(Ops) == 66
    ensures 66 + CLINICAL_JUDGMENT_WEIGHT == 100
  {
  }

  function ScoreOrZero(scores: map<Domain, DomainReadiness>, d: Domain): int
  {
    if d in scores then scores[d].score else 0
  }

  /** The domain composite: each positive-weight domain's score times its
      share of 66, in the key order airway, cardiology, trauma, medical,
      ops. */
  function DomainComposite(scores: map<Domain, DomainReadiness>): real
  {
    ScoreOrZero(scores, Airway) as real * (10.0 / 66.0) +
    ScoreOrZero(scores, Cardiology) as real * (12.0 / 66.0) +
    ScoreOrZero(scores, Trauma) as real * (8.0 / 66.0) +
    ScoreOrZero(scores, Medical) as real * (26.0 / 66.0) +
    ScoreOrZero(scores, Ops) as real * (10.0 / 66.0)
  }

  lemma ScaledBounds(s: int, k: real)
    requires 0 <= s <= 100 && k >= 0.0
    ensures 0.0 <= s as real * k <= 100.0 * k
  {
  }

  /** A weighted mean of percentages is a percentage. */
  lemma DomainCompositeBounds(scores: map<Domain, DomainReadiness>)
    requires forall d :: d in scores ==> 0 <= scores[d].score <= 100
    ensures 0.0 <= DomainComposite(scores) <= 100.0
  {
    ScaledBounds(ScoreOrZero(scores, Airway), 10.0 / 66.0);
    ScaledBounds(ScoreOrZero(scores, Cardiology), 12.0 / 66.0);
    ScaledBounds(ScoreOrZero(scores, Trauma), 8.0 / 66.0);
    ScaledBounds(ScoreOrZero(scores, Medical), 26.0 / 66.0);
    ScaledBounds(ScoreOrZero(scores, Ops), 10.0 / 66.0);
  }

  function PediatricCount(es: seq<HistoryEntry>): (n: nat)
    ensures n <= |es|
  {
    if es == [] then 0 else PediatricCount(es[..|es| - 1]) + (if es[|es| - 1].isPediatric then 1 else 0)
  }

  function NonOps(es: seq<HistoryEntry>): (r: seq<HistoryEntry>)
    ensures |r| <= |es|
    ensures forall e :: e in r <==> e in es && e.domain != Ops
  {
    if es == [] then []
    else
      var p := NonOps(es[..|es| - 1]);
      var e := es[|es| - 1];
      assert forall x :: x in es <==> x in es[..|es| - 1] || x == e;
      if e.domain != Ops then p + [e] else p
  }

  function PedsRate(es: seq<HistoryEntry>): (r: real)
    ensures 0.0 <= r <= 1.0
  {
    var m := NonOps(es);
    if |m| > 0 then
      FractionBounds(PediatricCount(m), |m|);
      PediatricCount(m) as real / |m| as real
    else 0.0
  }

  /** A count out of a positive total is a fraction in 0..1. */
  lemma FractionBounds(a: nat, n: nat)
    requires a <= n && n > 0
    ensures 0.0 <= a as real / n as real <= 1.0
  {
    RatioBounds(a as real, n as real);
  }

  function AbsReal(x: real): real { if x < 0.0 then -x else x }

  /** Distance from the 15% pediatric target, at most 10 points. */
  function MixPenalty(es: seq<HistoryEntry>): (r: int)
    ensures 0 <= r <= 10
  {
    var rate := PedsRate(es);
    MinInt(10, Round(AbsReal(0.15 - rate) * 40.0))
  }

  /** Hitting the target mix costs nothing. */
  lemma TargetMixFree(es: seq<HistoryEntry>)
    requires PedsRate(es) == 0.15
    ensures MixPenalty(es) == 0
  {
  }

  function CorrectCount(es: seq<HistoryEntry>): (n: nat)
    ensures n <= |es|
  {
    if es == [] then 0 else CorrectCount(es[..|es| - 1]) + (if es[|es| - 1].correct then 1 else 0)
  }

  /** `Math.round(safeAvg(correct flags) * 8)` */
  function ConsistencyBonus(recent: seq<HistoryEntry>): (r: int)
    ensures 0 <= r <= 8
    ensures recent == [] ==> r == 0
  {
    if |recent| == 0 then 0
    else
      var avg := CorrectCount(recent) as real / |recent| as real;
      FractionBounds(CorrectCount(recent), |recent|);
      ScaledRound(avg, 8);
      Round(avg * 8.0)
  }

  /** A fraction scaled by k rounds into 0..k. */
  lemma ScaledRound(x: real, k: nat)
    requires 0.0 <= x <= 1.0
    ensures 0 <= Round(x * k as real) <= k
  {
    var kk := k as real;
    assert 0.0 <= x * kk;
    assert kk - x * kk == (1.0 - x) * kk;
    assert 0.0 <= (1.0 - x) * kk;
    RoundMonotone(0.0, x * k as real);
    RoundMonotone(x * k as real, k as real);
    RoundOfInt(0);
    RoundOfInt(k);
  }

  /** `Math.min(8, Math.round(wrongAnswers / 4))` */
  function ErrorPenalty(recent: seq<HistoryEntry>): (r: int)
    ensures 0 <= r <= 8
  {
    var wrong := (|recent| - CorrectCount(recent)) as real / 4.0;
    RoundMonotone(0.0, wrong);
    RoundOfInt(0);
    MinInt(8, Round(wrong))
  }

  lemma {:induction false} AllCorrectCount(es: seq<HistoryEntry>)
    requires forall i :: 0 <= i < |es| ==> es[i].correct
    ensures CorrectCount(es) == |es|
  {
    if es != [] {
      var p := es[..|es| - 1];
      assert forall i :: 0 <= i < |p| ==> p[i].correct by {
        forall i | 0 <= i < |p| ensures p[i].correct {
          assert p[i] == es[i];
        }
      }
      AllCorrectCount(p);
    }
  }

  /** A clean recent streak earns the whole bonus and no penalty. */
  lemma CleanStreak(recent: seq<HistoryEntry>)
    requires recent != [] && forall i :: 0 <= i < |recent| ==> recent[i].correct
    ensures ConsistencyBonus(recent) == 8 && ErrorPenalty(recent) == 0
  {
    AllCorrectCount(recent);
    var n := |recent| as real;
    assert CorrectCount(recent) as real / n == 1.0;
    assert (|recent| - CorrectCount(recent)) as real / 4.0 == 0.0;
    RoundOfInt(8);
    RoundOfInt(0);
  }

  /** The unrounded composite. */
  function FinalScore(now: int, history: seq<HistoryEntry>): real
  {
    var recent := Last(history, 30);
    DomainComposite(CalculateDomainReadiness(now, history)) * (66.0 / 100.0) +
    ClinicalJudgment(now, history) as real * (CLINICAL_JUDGMENT_WEIGHT as real / 100.0) +
    ConsistencyBonus(recent) as real -
    MixPenalty(history) as real -
    ErrorPenalty(recent) as real
  }

  /** The exam-readiness percentage: 0 with no history. */
  function CalculateReadiness(now: int, history: seq<HistoryEntry>): (r: int)
    ensures 0 <= r <= 100
    ensures history == [] ==> r == 0
  {
    if history == [] then 0 else Clamp(0, 100, Round(FinalScore(now, history)))
  }

  /** Before clamping, the composite stays within [-18, 108]: the weighted
      parts fill [0, 100] and the adjustments add at most 8 and take at
      most 18. */
  lemma FinalScoreRange(now: int, history: seq<HistoryEntry>)
    requires WellFormed(history)
    ensures -18.0 <= FinalScore(now, history) <= 108.0
  {
    var scores := CalculateDomainReadiness(now, history);
    forall d | d in scores ensures 0 <= scores[d].score <= 100 {
      DomainReadinessBounds(now, history, d);
    }
    DomainCompositeBounds(scores);
    var dc := DomainComposite(scores);
    var cj := ClinicalJudgment(now, history);
    ScaledBounds(cj, 34.0 / 100.0);
    assert 0.0 <= dc * (66.0 / 100.0) <= 66.0;
  }
}
