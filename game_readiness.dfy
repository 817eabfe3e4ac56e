/** Readiness score and per-domain score updates (src/game/readiness.js). */
module GameReadiness {
  import opened Numeric
  import opened Domains
  import opened Profiles

  /** `domainScores[domain] ?? 50` */
  function ScoreOf(scores: map<string, int>, domain: string): int {
    if domain in scores then scores[domain] else 50
  }

  /** The weighted sum of the domain scores over a weight table. */
  function Weighted(scores: map<string, int>, table: seq<(string, real)>): real {
    if table == [] then 0.0
    else Term(ScoreOf(scores, table[0].0), table[0].1) + Weighted(scores, table[1..])
  }

  /** One domain's contribution: `score * weight`. */
  function Term(score: int, weight: real): real {
    score as real * weight
  }

  /** `MODE_FACTOR[mode] || 0.8` */
  function ModeFactor(mode: string): (r: real)
    ensures r == 0.8 || r == 1.0 || r == 1.15
    ensures mode != "exam" && mode != "final-shift" ==> r == 0.8
    ensures mode != "final-shift" ==> r <= 1.0
  {
    if mode == "study" then 0.8
    else if mode == "exam" then 1.0
    else if mode == "final-shift" then 1.15
    else 0.8
  }

  /** `1 - Math.min(errors * 0.02, 0.25)` */
  function JudgmentMultiplier(errors: int): (r: real)
    ensures 0.75 <= r
    ensures errors >= 0 ==> r <= 1.0
    ensures errors == 0 ==> r == 1.0
  {
    1.0 - MinReal(errors as real * 0.02, 0.25)
  }

  /** `Math.max(0.85, 1 - recentFailures * 0.03)` */
  function Recency(recentFailures: int): (r: real)
    ensures 0.85 <= r
    ensures recentFailures >= 0 ==> r <= 1.0
    ensures recentFailures == 0 ==> r == 1.0
  {
    MaxReal(0.85, 1.0 - recentFailures as real * 0.03)
  }

  /** The product `weighted * judgment * recency * modeFactor`. */
  function Scale(w: real, m: real, r: real, f: real): real {
    w * m * r * f
  }

  /** The unrounded readiness: weighted scores times the three factors. */
  function RawReadiness(p: Profile, mode: string): real {
    Scale(Weighted(p.domainScores, DOMAIN_WEIGHTS), JudgmentMultiplier(p.clinicalJudgmentErrors),
      Recency(p.recentFailures), ModeFactor(mode))
  }

  /** `calculateReadiness`: the rounded raw readiness, clamped to 0..100. */
  function CalculateReadiness(p: Profile, mode: string): (r: int)
    ensures 0 <= r <= 100
    ensures 0.0 <= RawReadiness(p, mode) <= 100.0 ==> r == Round(RawReadiness(p, mode))
  {
    Clamp(0, 100, Round(RawReadiness(p, mode)))
  }

  /** All scores at or above zero and at or below a cap bound the weighted sum
      by the cap times the sum of the weights. */
  lemma {:induction false} WeightedBounds(scores: map<string, int>, table: seq<(string, real)>, cap: int)
    requires forall i :: 0 <= i < |table| ==> table[i].1 >= 0.0
    requires forall i :: 0 <= i < |table| ==> 0 <= ScoreOf(scores, table[i].0) <= cap
    ensures 0.0 <= Weighted(scores, table) <= Term(cap, SumValues(table))
  {
    if table != [] {
      var tail := table[1..];
      assert forall i :: 0 <= i < |tail| ==> tail[i] == table[i + 1];
      WeightedBounds(scores, tail, cap);
      TermBounds(ScoreOf(scores, table[0].0), table[0].1, cap);
      TermAdd(cap, table[0].1, SumValues(tail));
    }
  }

  lemma TermBounds(s: int, w: real, cap: int)
    requires 0 <= s <= cap && w >= 0.0
    ensures 0.0 <= Term(s, w) <= Term(cap, w)
  {
    MulMonotone(s as real, cap as real, w);
  }

  lemma TermAdd(c: int, a: real, b: real)
    ensures Term(c, a + b) == Term(c, a) + Term(c, b)
  {
  }

  lemma MulMonotone(a: real, b: real, c: real)
    requires a <= b && c >= 0.0
    ensures a * c <= b * c
  {
  }

  /** `a * c <= b * d` for non-negative factors with `a <= b` and `c <= d`. */
  lemma MulMonotone2(a: real, b: real, c: real, d: real)
    requires 0.0 <= a <= b && 0.0 <= c <= d
    ensures a * c <= b * d
  {
    MulMonotone(a, b, c);
    MulMonotone(c, d, b);
  }

  /** Raising any weighted domain's score never lowers the weighted sum. */
  lemma {:induction false} WeightedMonotone(s1: map<string, int>, s2: map<string, int>, table: seq<(string, real)>)
    requires forall i :: 0 <= i < |table| ==> table[i].1 >= 0.0
    requires forall i :: 0 <= i < |table| ==> ScoreOf(s1, table[i].0) <= ScoreOf(s2, table[i].0)
    ensures Weighted(s1, table) <= Weighted(s2, table)
  {
    if table != [] {
      var tail := table[1..];
      assert forall i :: 0 <= i < |tail| ==> tail[i] == table[i + 1];
      WeightedMonotone(s1, s2, tail);
      MulMonotone(ScoreOf(s1, table[0].0) as real, ScoreOf(s2, table[0].0) as real, table[0].1);
      assert Term(ScoreOf(s1, table[0].0), table[0].1) <= Term(ScoreOf(s2, table[0].0), table[0].1);
    }
  }

  /** Readiness stays in 0..100 unrounded when every domain score does and
      the error counters are not negative. */
  lemma RawReadinessBounds(p: Profile, mode: string)
    requires forall d :: d in Keys(DOMAIN_WEIGHTS) ==> 0 <= ScoreOf(p.domainScores, d) <= 100
    requires p.clinicalJudgmentErrors >= 0 && p.recentFailures >= 0
    requires mode != "final-shift"
    ensures 0.0 <= RawReadiness(p, mode) <= 100.0
  {
    WeightsPositive();
    WeightsSumToOne();
    assert forall i :: 0 <= i < |DOMAIN_WEIGHTS| ==> Keys(DOMAIN_WEIGHTS)[i] == DOMAIN_WEIGHTS[i].0;
    WeightedBounds(p.domainScores, DOMAIN_WEIGHTS, 100);
    ProductBounds(Weighted(p.domainScores, DOMAIN_WEIGHTS), JudgmentMultiplier(p.clinicalJudgmentErrors),
      Recency(p.recentFailures), ModeFactor(mode));
  }

  lemma ProductBounds(w: real, m: real, r: real, f: real)
    requires 0.0 <= w <= 100.0 && 0.0 <= m <= 1.0 && 0.0 <= r <= 1.0 && 0.0 <= f <= 1.0
    ensures 0.0 <= w * m * r * f <= 100.0
  {
    MulMonotone2(0.0, w, 0.0, m);
    MulMonotone2(w, 100.0, m, 1.0);
    MulMonotone2(0.0, w * m, 0.0, r);
    MulMonotone2(w * m, 100.0, r, 1.0);
    MulMonotone2(0.0, w * m * r, 0.0, f);
    MulMonotone2(w * m * r, 100.0, f, 1.0);
  }

  lemma ProductMonotone(w1: real, w2: real, m1: real, m2: real, r1: real, r2: real, f: real)
    requires 0.0 <= w1 <= w2 && 0.0 <= m1 <= m2 && 0.0 <= r1 <= r2 && 0.0 <= f
    ensures w1 * m1 * r1 * f <= w2 * m2 * r2 * f
  {
    MulMonotone2(w1, w2, m1, m2);
    MulMonotone2(w1 * m1, w2 * m2, r1, r2);
    MulMonotone2(w1 * m1 * r1, w2 * m2 * r2, f, f);
  }

  /** Higher domain scores, everything else equal, never lower readiness. */
  lemma ReadinessMonotoneInScores(p: Profile, q: Profile, mode: string)
    requires p.clinicalJudgmentErrors == q.clinicalJudgmentErrors
    requires p.recentFailures == q.recentFailures
    requires forall d :: d in Keys(DOMAIN_WEIGHTS) ==> 0 <= ScoreOf(p.domainScores, d) <= ScoreOf(q.domainScores, d)
    ensures CalculateReadiness(p, mode) <= CalculateReadiness(q, mode)
  {
    DomainWeightedMonotone(p.domainScores, q.domainScores);
    WeightedNonNegative(p.domainScores);
    var wp, wq := Weighted(p.domainScores, DOMAIN_WEIGHTS), Weighted(q.domainScores, DOMAIN_WEIGHTS);
    var m := JudgmentMultiplier(p.clinicalJudgmentErrors);
    var r := Recency(p.recentFailures);
    var f := ModeFactor(mode);
    ClampedProductMonotone(wp, wq, m, m, r, r, f);
  }

  /** The weighted sum over the domain table never falls when no weighted
      domain's score does. */
  lemma DomainWeightedMonotone(s1: map<string, int>, s2: map<string, int>)
    requires forall d :: d in Keys(DOMAIN_WEIGHTS) ==> ScoreOf(s1, d) <= ScoreOf(s2, d)
    ensures Weighted(s1, DOMAIN_WEIGHTS) <= Weighted(s2, DOMAIN_WEIGHTS)
  {
    WeightsPositive();
    assert forall i :: 0 <= i < |DOMAIN_WEIGHTS| ==> Keys(DOMAIN_WEIGHTS)[i] == DOMAIN_WEIGHTS[i].0;
    WeightedMonotone(s1, s2, DOMAIN_WEIGHTS);
  }

  /** Readiness' rounding and clamping keep the order of two products of
      non-negative factors. */
  lemma ClampedProductMonotone(w1: real, w2: real, m1: real, m2: real, r1: real, r2: real, f: real)
    requires 0.0 <= w1 <= w2 && 0.0 <= m1 <= m2 && 0.0 <= r1 <= r2 && 0.0 <= f
    ensures Clamp(0, 100, Round(Scale(w1, m1, r1, f))) <= Clamp(0, 100, Round(Scale(w2, m2, r2, f)))
  {
    ProductMonotone(w1, w2, m1, m2, r1, r2, f);
    RoundMonotone(w1 * m1 * r1 * f, w2 * m2 * r2 * f);
    ClampMonotone(0, 100, Round(w1 * m1 * r1 * f), Round(w2 * m2 * r2 * f));
  }

  /** The weighted sum is not negative when no weighted domain's score is. */
  lemma WeightedNonNegative(scores: map<string, int>)
    requires forall d :: d in Keys(DOMAIN_WEIGHTS) ==> 0 <= ScoreOf(scores, d)
    ensures Weighted(scores, DOMAIN_WEIGHTS) >= 0.0
  {
    WeightsPositive();
    var top := MaxScore(scores, Keys(DOMAIN_WEIGHTS));
    assert forall i :: 0 <= i < |DOMAIN_WEIGHTS| ==> Keys(DOMAIN_WEIGHTS)[i] == DOMAIN_WEIGHTS[i].0;
    WeightedBounds(scores, DOMAIN_WEIGHTS, top);
  }

  /** The highest score among the given domains (at least zero). */
  function MaxScore(scores: map<string, int>, domains: seq<string>): (r: int)
    ensures r >= 0
    ensures forall i :: 0 <= i < |domains| ==> ScoreOf(scores, domains[i]) <= r
  {
    if domains == [] then 0 else MaxInt(ScoreOf(scores, domains[0]), MaxScore(scores, domains[1..]))
  }

  /** More clinical-judgment errors or recent failures, everything else
      equal, never raise readiness while the weighted sum is not negative. */
  lemma ReadinessAntitoneInErrors(p: Profile, q: Profile, mode: string)
    requires p.domainScores == q.domainScores
    requires 0 <= p.clinicalJudgmentErrors <= q.clinicalJudgmentErrors
    requires 0 <= p.recentFailures <= q.recentFailures
    requires forall d :: d in Keys(DOMAIN_WEIGHTS) ==> 0 <= ScoreOf(p.domainScores, d)
    ensures CalculateReadiness(q, mode) <= CalculateReadiness(p, mode)
  {
    WeightedNonNegative(p.domainScores);
    var w := Weighted(p.domainScores, DOMAIN_WEIGHTS);
    var mp, mq := JudgmentMultiplier(p.clinicalJudgmentErrors), JudgmentMultiplier(q.clinicalJudgmentErrors);
    var rp, rq := Recency(p.recentFailures), Recency(q.recentFailures);
    var f := ModeFactor(mode);
    assert mq <= mp;
    assert rq <= rp;
    ClampedProductMonotone(w, w, mq, mp, rq, rp, f);
  }

  /** The study, exam and final-shift modes scale readiness in that order. */
  lemma ModesOrdered(p: Profile)
    requires forall d :: d in Keys(DOMAIN_WEIGHTS) ==> 0 <= ScoreOf(p.domainScores, d)
    ensures CalculateReadiness(p, "study") <= CalculateReadiness(p, "exam") <= CalculateReadiness(p, "final-shift")
  {
    WeightedNonNegative(p.domainScores);
    var w := Weighted(p.domainScores, DOMAIN_WEIGHTS);
    var m := JudgmentMultiplier(p.clinicalJudgmentErrors);
    var r := Recency(p.recentFailures);
    assert ModeFactor("study") == 0.8 && ModeFactor("exam") == 1.0 && ModeFactor("final-shift") == 1.15;
    ScaledModes(w, m, r);
  }

  /** The three mode factors 0.8, 1 and 1.15 keep their order through
      rounding and clamping. */
  lemma ScaledModes(w: real, m: real, r: real)
    requires 0.0 <= w && 0.0 <= m && 0.0 <= r
    ensures Clamp(0, 100, Round(Scale(w, m, r, 0.8))) <= Clamp(0, 100, Round(Scale(w, m, r, 1.0)))
    ensures Clamp(0, 100, Round(Scale(w, m, r, 1.0))) <= Clamp(0, 100, Round(Scale(w, m, r, 1.15)))
  {
    MulMonotone2(0.0, w, 0.0, m);
    MulMonotone2(0.0, w * m, 0.0, r);
    var b := w * m * r;
    MulMonotone(0.8, 1.0, b);
    MulMonotone(1.0, 1.15, b);
    RoundMonotone(b * 0.8, b * 1.0);
    RoundMonotone(b * 1.0, b * 1.15);
    ClampMonotone(0, 100, Round(b * 0.8), Round(b * 1.0));
    ClampMonotone(0, 100, Round(b * 1.0), Round(b * 1.15));
  }

  /** Full marks in every domain with a clean record reach 100 in exam mode. */
  lemma PerfectProfileIsReady(p: Profile)
    requires forall d :: d in Keys(DOMAIN_WEIGHTS) ==> ScoreOf(p.domainScores, d) == 100
    requires p.clinicalJudgmentErrors == 0 && p.recentFailures == 0
    ensures CalculateReadiness(p, "exam") == 100
  {
    DomainKeys();
    var s := p.domainScores;
    var t := DOMAIN_WEIGHTS;
    assert Weighted(s, t[4..]) == 12.0 by { assert t[4..][1..] == []; }
    assert Weighted(s, t[3..]) == 40.0 by { assert t[3..][1..] == t[4..]; }
    assert Weighted(s, t[2..]) == 56.0 by { assert t[2..][1..] == t[3..]; }
    assert Weighted(s, t[1..]) == 80.0 by { assert t[1..][1..] == t[2..]; }
    assert Weighted(s, t) == 100.0;
    RoundOfInt(100);
  }

  /** `updateDomainScore`: +3 for a correct answer, -6 for a missed clinical
      judgment item and -4 for any other miss, from a default of 50, kept in
      10..100; no other domain changes. */
  function UpdateDomainScore(current: map<string, int>, isCorrect: bool, domain: string, isClinical: bool): (r: map<string, int>)
    ensures r.Keys == current.Keys + {domain}
    ensures forall d :: d in current && d != domain ==> r[d] == current[d]
    ensures 10 <= r[domain] <= 100
    ensures r[domain] == Clamp(10, 100, ScoreOf(current, domain) + (if isCorrect then 3 else if isClinical then -6 else -4))
    ensures 10 <= ScoreOf(current, domain) <= 100 ==>
      (isCorrect ==> ScoreOf(current, domain) <= r[domain] <= ScoreOf(current, domain) + 3) &&
      (!isCorrect ==> ScoreOf(current, domain) - 6 <= r[domain] <= ScoreOf(current, domain))
  {
    var change := if isCorrect then 3 else if isClinical then -6 else -4;
    current[domain := Clamp(10, 100, ScoreOf(current, domain) + change)]
  }

  /** A missed clinical-judgment item costs at least as much as another miss,
      and a correct answer always scores at least as well as a miss. */
  lemma ClinicalMissCostsMore(current: map<string, int>, domain: string)
    ensures UpdateDomainScore(current, false, domain, true)[domain] <= UpdateDomainScore(current, false, domain, false)[domain]
    ensures forall c :: UpdateDomainScore(current, false, domain, c)[domain] <= UpdateDomainScore(current, true, domain, c)[domain]
  {
    var s := ScoreOf(current, domain);
    ClampMonotone(10, 100, s - 6, s - 4);
    ClampMonotone(10, 100, s - 4, s + 3);
    ClampMonotone(10, 100, s - 6, s + 3);
  }
}
