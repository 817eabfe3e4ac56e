/** District heat for the city map (src/game/heat.js): how far each
    district's domain lags, plus the learner's error rate and recent
    failures, rounded to hundredths and capped at 1. */
module Heat {
  import opened Wrappers
  import opened Numeric
  import opened Domains
  import opened Profiles
  import opened GameReadiness

  /** `DOMAIN_WEIGHTS[domain] ?? 0.15` */
  function WeightOr(domain: string): (w: real)
    ensures w > 0.0
    ensures domain !in Keys(DOMAIN_WEIGHTS) ==> w == 0.15
  {
    WeightsPositive();
    match WeightOf(domain)
    case Some(v) => v
    case None => 0.15
  }

  /** The heat before rounding: the domain's shortfall from 100 weighted by
      the domain, plus half the priority error rate and a quarter per recent
      failure. */
  function RawHeat(p: Profile, domain: string): real {
    Lag(ScoreOf(p.domainScores, domain), WeightOr(domain))
      + p.priorityErrorRate * 0.5 + p.recentFailures as real * 0.25
  }

  /** `(1 - score / 100) * weight` */
  function Lag(score: int, weight: real): real {
    (1.0 - score as real / 100.0) * weight
  }

  /** `Math.min(1, Number(heat.toFixed(2)))` */
  function HeatValue(p: Profile, domain: string): (r: real)
    ensures r <= 1.0
    ensures IsHundredths(r)
  {
    HundredthsOfOne();
    MinReal(1.0, ToFixed2(RawHeat(p, domain)))
  }

  lemma HundredthsOfOne()
    ensures IsHundredths(1.0)
  {
    assert 1.0 == Hundredths(100);
  }

  /** The reduce over the district table: later entries overwrite earlier
      ones under the same district name. */
  function HeatOver(p: Profile, table: seq<(string, string)>): (r: map<string, real>)
    ensures forall d :: d in r <==> exists i :: 0 <= i < |table| && table[i].0 == d
    ensures forall d :: d in r ==> r[d] <= 1.0
  {
    if table == [] then map[]
    else
      var last := table[|table| - 1];
      var r := HeatOver(p, table[..|table| - 1])[last.0 := HeatValue(p, last.1)];
      assert forall i :: 0 <= i < |table| - 1 ==> table[..|table| - 1][i] == table[i];
      r
  }

  /** `calculateDistrictHeat` */
  function CalculateDistrictHeat(p: Profile): map<string, real> {
    HeatOver(p, DISTRICT_DOMAIN_MAP)
  }

  /** Each district entry holds the heat of the domain its last table entry
      names. */
  lemma {:induction false} HeatOverEntry(p: Profile, table: seq<(string, string)>, i: int)
    requires 0 <= i < |table|
    requires forall j :: i < j < |table| ==> table[j].0 != table[i].0
    ensures table[i].0 in HeatOver(p, table)
    ensures HeatOver(p, table)[table[i].0] == HeatValue(p, table[i].1)
  {
    if i < |table| - 1 {
      var front := table[..|table| - 1];
      HeatOverEntry(p, front, i);
    }
  }

  /** One entry per district of the table, holding its domain's heat. */
  lemma DistrictHeatEntries(p: Profile)
    ensures forall d :: d in CalculateDistrictHeat(p) <==> d in Keys(DISTRICT_DOMAIN_MAP)
    ensures forall e :: e in DISTRICT_DOMAIN_MAP ==> CalculateDistrictHeat(p)[e.0] == HeatValue(p, e.1)
  {
    DistrictKeysDistinct();
    HeatOverEntries(p, DISTRICT_DOMAIN_MAP);
  }

  /** The district table names each district once. */
  lemma DistrictKeysDistinct()
    ensures forall i, j :: 0 <= i < j < |DISTRICT_DOMAIN_MAP| ==> DISTRICT_DOMAIN_MAP[i].0 != DISTRICT_DOMAIN_MAP[j].0
  {
  }

  /** Over a table without repeated keys, one entry per key, holding that
      entry's heat. */
  lemma HeatOverEntries(p: Profile, t: seq<(string, string)>)
    requires forall i, j :: 0 <= i < j < |t| ==> t[i].0 != t[j].0
    ensures forall d :: d in HeatOver(p, t) <==> d in Keys(t)
    ensures forall e :: e in t ==> HeatOver(p, t)[e.0] == HeatValue(p, e.1)
  {
    assert forall i :: 0 <= i < |t| ==> Keys(t)[i] == t[i].0;
    forall e | e in t ensures HeatOver(p, t)[e.0] == HeatValue(p, e.1) {
      var i :| 0 <= i < |t| && t[i] == e;
      HeatOverEntry(p, t, i);
    }
  }

  lemma LagAntitone(s1: int, s2: int, weight: real)
    requires s1 <= s2 && weight >= 0.0
    ensures Lag(s2, weight) <= Lag(s1, weight)
  {
    MulMonotone(1.0 - s2 as real / 100.0, 1.0 - s1 as real / 100.0, weight);
  }

  /** With the domain score at most 100 and non-negative error rate and
      failures, heat is not negative. */
  lemma HeatNonNegative(p: Profile, domain: string)
    requires ScoreOf(p.domainScores, domain) <= 100
    requires p.priorityErrorRate >= 0.0 && p.recentFailures >= 0
    ensures HeatValue(p, domain) >= 0.0
  {
    MulMonotone(0.0, 1.0 - ScoreOf(p.domainScores, domain) as real / 100.0, WeightOr(domain));
  }

  /** Heat never rises with the domain score, and never falls with the
      priority error rate or the recent failures. */
  lemma HeatMonotone(p: Profile, q: Profile, domain: string)
    requires ScoreOf(q.domainScores, domain) <= ScoreOf(p.domainScores, domain)
    requires p.priorityErrorRate <= q.priorityErrorRate
    requires p.recentFailures <= q.recentFailures
    ensures HeatValue(p, domain) <= HeatValue(q, domain)
  {
    LagAntitone(ScoreOf(q.domainScores, domain), ScoreOf(p.domainScores, domain), WeightOr(domain));
    ToFixed2Monotone(RawHeat(p, domain), RawHeat(q, domain));
  }

  /** A missing score counts as 50 and a domain without a weight as 0.15:
      its lag term is then 0.075. */
  lemma MissingEntriesDefault(p: Profile, domain: string)
    requires domain !in p.domainScores && domain !in Keys(DOMAIN_WEIGHTS)
    ensures RawHeat(p, domain) == 0.075 + p.priorityErrorRate * 0.5 + p.recentFailures as real * 0.25
  {
  }

  /** The CSS color of a heat value. */
  datatype HeatColor = Good | Warn | Bad {
    function Css(): string {
      match this
      case Good => "var(--good)"
      case Warn => "var(--warn)"
      case Bad => "var(--bad)"
    }
  }

  /** `heatColor`: good below 0.35, warn below 0.65, bad from there on. */
  function HeatColorOf(value: real): (c: HeatColor)
    ensures c == Good <==> value < 0.35
    ensures c == Bad <==> value >= 0.65
  {
    if value < 0.35 then Good
    else if value < 0.65 then Warn
    else Bad
  }

  function Severity(c: HeatColor): int {
    match c
    case Good => 0
    case Warn => 1
    case Bad => 2
  }

  /** A hotter district is never shown in a milder color. */
  lemma HeatColorMonotone(x: real, y: real)
    requires x <= y
    ensures Severity(HeatColorOf(x)) <= Severity(HeatColorOf(y))
  {
  }
}
