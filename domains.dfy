/** The game's domain weight table and district-to-domain table
    (src/data/domains.js). A JavaScript object literal is an ordered list of
    (key, value) entries with distinct keys; lookups follow `obj[key]`. */
module Domains {
  import opened Wrappers

  const AIRWAY: string := "Airway, Respiration & Ventilation"
  const CARDIOLOGY: string := "Cardiology & Resuscitation"
  const TRAUMA: string := "Trauma"
  const MEDICAL: string := "Medical / Obstetrics / Gynecology"
  const EMS_OPERATIONS: string := "EMS Operations"

  /** Readiness weight per domain (DOMAIN_WEIGHTS). */
  const DOMAIN_WEIGHTS: seq<(string, real)> := [
    (AIRWAY, 0.2),
    (CARDIOLOGY, 0.24),
    (TRAUMA, 0.16),
    (MEDICAL, 0.28),
    (EMS_OPERATIONS, 0.12)
  ]

  const DOWNTOWN: string := "Downtown Core"
  const RESIDENTIAL: string := "Residential Areas"
  const HIGHWAYS: string := "Highways & Bridges"
  const PORT: string := "Industrial / Port"
  const BEACHES: string := "Beaches / Waterways"
  const HOSPITALS: string := "Hospitals / Stations"

  /** The domain whose score drives each district's heat (DISTRICT_DOMAIN_MAP). */
  const DISTRICT_DOMAIN_MAP: seq<(string, string)> := [
    (DOWNTOWN, CARDIOLOGY),
    (RESIDENTIAL, MEDICAL),
    (HIGHWAYS, TRAUMA),
    (PORT, EMS_OPERATIONS),
    (BEACHES, AIRWAY),
    (HOSPITALS, CARDIOLOGY)
  ]

  /** `table[key]`: the value of the first entry with that key. */
  function Lookup<V>(table: seq<(string, V)>, key: string): (r: Option<V>)
    ensures r.Some? <==> key in Keys(table)
    ensures r.Some? ==> (key, r.value) in table
  {
    if table == [] then None
    else if table[0].0 == key then Some(table[0].1)
    else Lookup(table[1..], key)
  }

  function Keys<V>(table: seq<(string, V)>): (r: seq<string>)
    ensures |r| == |table|
    ensures forall i :: 0 <= i < |table| ==> r[i] == table[i].0
  {
    if table == [] then [] else [table[0].0] + Keys(table[1..])
  }

  /** Sum of the values of a weight table, in entry order. */
  function SumValues(table: seq<(string, real)>): real {
    if table == [] then 0.0 else table[0].1 + SumValues(table[1..])
  }

  function WeightOf(domain: string): Option<real> {
    Lookup(DOMAIN_WEIGHTS, domain)
  }

  /** The weights add up to exactly 1. */
  lemma WeightsSumToOne()
    ensures SumValues(DOMAIN_WEIGHTS) == 1.0
  {
    var w := DOMAIN_WEIGHTS;
    assert SumValues(w[4..]) == 0.12 by { assert w[4..][1..] == []; }
    assert SumValues(w[3..]) == 0.4 by { assert w[3..][1..] == w[4..]; }
    assert SumValues(w[2..]) == 0.56 by { assert w[2..][1..] == w[3..]; }
    assert SumValues(w[1..]) == 0.8 by { assert w[1..][1..] == w[2..]; }
  }

  lemma WeightsPositive()
    ensures forall e :: e in DOMAIN_WEIGHTS ==> e.1 > 0.0
  {
  }

  lemma DomainKeys()
    ensures Keys(DOMAIN_WEIGHTS) == [AIRWAY, CARDIOLOGY, TRAUMA, MEDICAL, EMS_OPERATIONS]
  {
  }

  /** Every district maps to a weighted domain, so the heat formula's
      fallback weight is never taken. */
  lemma DistrictDomainsAreWeighted()
    ensures forall e :: e in DISTRICT_DOMAIN_MAP ==> e.1 in Keys(DOMAIN_WEIGHTS)
  {
    DomainKeys();
  }
}
