/** The learner archetypes (src/data/archetypes.js). */
module Archetypes {
  import opened Wrappers
  import opened Domains

  datatype Archetype = Archetype(
    id: string,
    name: string,
    description: string,
    xpModifiers: seq<(string, real)>,
    stabilityTolerance: real)

  const ARCHETYPES: seq<Archetype> := [
    Archetype(
      "firefighter", "Firefighter Paramedic", "+10% EMS Ops / Trauma XP, -5% Medical XP",
      [(EMS_OPERATIONS, 1.1), (TRAUMA, 1.1), (MEDICAL, 0.95)],
      1.0),
    Archetype(
      "transport", "Transport Paramedic", "+10% Medical/Cardiology XP, -5% EMS Ops XP",
      [(MEDICAL, 1.1), (CARDIOLOGY, 1.1), (EMS_OPERATIONS, 0.95)],
      1.0),
    Archetype(
      "critical-care", "Critical Care Paramedic", "+10% Airway/Cardio XP, lower stability tolerance",
      [(AIRWAY, 1.1), (CARDIOLOGY, 1.1)],
      0.9)
  ]

  const DEFAULT_ARCHETYPE_ID: string := "transport"

  /** `ARCHETYPES.find((a) => a.id === id)` */
  function FindArchetype(id: string): (r: Option<Archetype>)
    ensures r.Some? ==> r.value in ARCHETYPES && r.value.id == id
    ensures r.None? ==> forall a :: a in ARCHETYPES ==> a.id != id
  {
    FindIn(ARCHETYPES, id)
  }

  function FindIn(archetypes: seq<Archetype>, id: string): (r: Option<Archetype>)
    ensures r.Some? ==> r.value in archetypes && r.value.id == id
    ensures r.None? ==> forall a :: a in archetypes ==> a.id != id
  {
    if archetypes == [] then None
    else if archetypes[0].id == id then Some(archetypes[0])
    else FindIn(archetypes[1..], id)
  }

  lemma DefaultArchetypeExists()
    ensures FindArchetype(DEFAULT_ARCHETYPE_ID).Some?
  {
    assert ARCHETYPES[1].id == DEFAULT_ARCHETYPE_ID;
  }

  lemma ArchetypeIdsDistinct()
    ensures forall i, j :: 0 <= i < j < |ARCHETYPES| ==> ARCHETYPES[i].id != ARCHETYPES[j].id
  {
  }

  lemma TolerancesInRange()
    ensures forall a :: a in ARCHETYPES ==> 0.0 < a.stabilityTolerance <= 1.0
  {
  }

  predicate ModifiersWellFormed(mods: seq<(string, real)>) {
    forall i :: 0 <= i < |mods| ==> mods[i].0 in Keys(DOMAIN_WEIGHTS) && 0.95 <= mods[i].1 <= 1.1
  }

  /** XP modifiers name weighted domains and stay within [0.95, 1.1]. */
  lemma XpModifiersWellFormed()
    ensures forall i :: 0 <= i < |ARCHETYPES| ==> ModifiersWellFormed(ARCHETYPES[i].xpModifiers)
  {
    DomainKeys();
    var ks := Keys(DOMAIN_WEIGHTS);
    assert ModifiersWellFormed(ARCHETYPES[0].xpModifiers) by {
      assert ks[4] == EMS_OPERATIONS && ks[2] == TRAUMA && ks[3] == MEDICAL;
    }
    assert ModifiersWellFormed(ARCHETYPES[1].xpModifiers) by {
      assert ks[4] == EMS_OPERATIONS && ks[1] == CARDIOLOGY && ks[3] == MEDICAL;
    }
    assert ModifiersWellFormed(ARCHETYPES[2].xpModifiers) by {
      assert ks[0] == AIRWAY && ks[1] == CARDIOLOGY;
    }
  }
}
