/** The per-encounter patient stability machine (src/game/stability.js):
    three integer axes, table-driven damage per error type scaled by the
    archetype's tolerance, and failure as soon as any axis reaches 0. */
module Stability {
  import opened Wrappers
  import opened Numeric
  import opened Domains

  datatype StabilityVector = StabilityVector(airway: int, circulation: int, neuro: int)

  datatype Delta = Delta(airway: int, circulation: int, neuro: int)

  /** ERROR_DELTAS, keyed by the game question's error type. */
  const ERROR_DELTAS: seq<(string, Delta)> := [
    ("Ignored airway", Delta(-25, 0, -5)),
    ("Delayed care", Delta(-10, -10, 0)),
    ("Wrong priority", Delta(-15, -10, -10)),
    ("Out of scope", Delta(0, -15, -5)),
    ("Missed reassessment", Delta(-5, -10, -15))
  ]

  /** The delta used for an error type the table does not know. */
  const DEFAULT_DELTA: Delta := Delta(-10, -10, -10)

  /** The default starting value of every axis. */
  const FULL: int := 100

  /** `createStability(start)`: every axis starts at `start`. */
  function CreateStability(start: int): (r: StabilityVector)
    ensures r.airway == start && r.circulation == start && r.neuro == start
  {
    StabilityVector(start, start, start)
  }

  /** `ERROR_DELTAS[errorType] || default`. */
  function DeltaFor(errorType: string): (d: Delta)
    ensures errorType !in Keys(ERROR_DELTAS) ==> d == DEFAULT_DELTA
    ensures errorType in Keys(ERROR_DELTAS) ==> (errorType, d) in ERROR_DELTAS
  {
    Lookup(ERROR_DELTAS, errorType).GetOr(DEFAULT_DELTA)
  }

  predicate Damaging(d: Delta) {
    d.airway <= 0 && d.circulation <= 0 && d.neuro <= 0 &&
    (d.airway < 0 || d.circulation < 0 || d.neuro < 0)
  }

  /** Every delta, known or default, lowers no axis' value and strictly
      lowers at least one. */
  lemma DeltasDamage(errorType: string)
    ensures Damaging(DeltaFor(errorType))
  {
    var d := DeltaFor(errorType);
    if errorType in Keys(ERROR_DELTAS) {
      assert d in [Delta(-25, 0, -5), Delta(-10, -10, 0), Delta(-15, -10, -10),
        Delta(0, -15, -5), Delta(-5, -10, -15)] by {
        assert (errorType, d) in ERROR_DELTAS;
      }
    }
  }

  /** One axis after an error: `Math.round(axis + delta * tolerance)`. */
  function ScaledAxis(axis: int, delta: int, tolerance: real): int {
    Round(axis as real + delta as real * tolerance)
  }

  /** A non-positive delta at non-negative tolerance never raises the axis,
      and at tolerance 1 the axis moves by exactly the delta. */
  lemma ScaledAxisMoves(axis: int, delta: int, tolerance: real)
    ensures delta <= 0 && tolerance >= 0.0 ==> ScaledAxis(axis, delta, tolerance) <= axis
    ensures tolerance == 1.0 ==> ScaledAxis(axis, delta, tolerance) == axis + delta
  {
    RoundOfInt(axis);
    RoundOfInt(axis + delta);
    if delta <= 0 && tolerance >= 0.0 {
      assert delta as real * tolerance <= 0.0;
      RoundMonotone(axis as real + delta as real * tolerance, axis as real);
    }
  }

  /** `applyErrorToStability`: a fresh vector with each axis moved by the
      error's delta scaled by the tolerance, rounded. */
  function ApplyErrorToStability(s: StabilityVector, errorType: string, tolerance: real): StabilityVector {
    var d := DeltaFor(errorType);
    StabilityVector(ScaledAxis(s.airway, d.airway, tolerance),
                    ScaledAxis(s.circulation, d.circulation, tolerance),
                    ScaledAxis(s.neuro, d.neuro, tolerance))
  }

  /** With a non-negative tolerance an error never raises any axis. */
  lemma ErrorNeverRaises(s: StabilityVector, errorType: string, tolerance: real)
    requires tolerance >= 0.0
    ensures var r := ApplyErrorToStability(s, errorType, tolerance);
      r.airway <= s.airway && r.circulation <= s.circulation && r.neuro <= s.neuro
  {
    DeltasDamage(errorType);
    var d := DeltaFor(errorType);
    ScaledAxisMoves(s.airway, d.airway, tolerance);
    ScaledAxisMoves(s.circulation, d.circulation, tolerance);
    ScaledAxisMoves(s.neuro, d.neuro, tolerance);
  }

  /** With tolerance 1 every axis moves by exactly its table delta, and at
      least one axis drops. */
  lemma ExactDeltaAtFullTolerance(s: StabilityVector, errorType: string)
    ensures var r := ApplyErrorToStability(s, errorType, 1.0);
      var d := DeltaFor(errorType);
      r == StabilityVector(s.airway + d.airway, s.circulation + d.circulation, s.neuro + d.neuro) &&
      (r.airway < s.airway || r.circulation < s.circulation || r.neuro < s.neuro)
  {
    DeltasDamage(errorType);
    var d := DeltaFor(errorType);
    ScaledAxisMoves(s.airway, d.airway, 1.0);
    ScaledAxisMoves(s.circulation, d.circulation, 1.0);
    ScaledAxisMoves(s.neuro, d.neuro, 1.0);
  }

  /** An unknown error type costs 10 on every axis, scaled by tolerance. */
  lemma UnknownErrorUsesDefault(s: StabilityVector, errorType: string, tolerance: real)
    requires errorType !in Keys(ERROR_DELTAS)
    ensures ApplyErrorToStability(s, errorType, tolerance) ==
      StabilityVector(Round(s.airway as real - 10.0 * tolerance),
                      Round(s.circulation as real - 10.0 * tolerance),
                      Round(s.neuro as real - 10.0 * tolerance))
  {
  }

  /** `isEncounterFailure`: some axis is at or below 0. */
  predicate IsEncounterFailure(s: StabilityVector) {
    s.airway <= 0 || s.circulation <= 0 || s.neuro <= 0
  }

  /** A single exhausted axis fails the encounter whatever the others are. */
  lemma SingleAxisFails(airway: int, circulation: int, neuro: int)
    ensures IsEncounterFailure(StabilityVector(0, circulation, neuro))
    ensures IsEncounterFailure(StabilityVector(airway, 0, neuro))
    ensures IsEncounterFailure(StabilityVector(airway, circulation, 0))
    ensures !IsEncounterFailure(StabilityVector(1, 1, 1))
  {
  }

  /** A fresh vector fails exactly when its start value is not positive; the
      default start does not fail. */
  lemma CreatedFailsIffNotPositive(start: int)
    ensures IsEncounterFailure(CreateStability(start)) <==> start <= 0
    ensures !IsEncounterFailure(CreateStability(FULL))
  {
  }

  /** Once failed, further errors at non-negative tolerance keep it failed. */
  lemma FailureIsSticky(s: StabilityVector, errorType: string, tolerance: real)
    requires tolerance >= 0.0 && IsEncounterFailure(s)
    ensures IsEncounterFailure(ApplyErrorToStability(s, errorType, tolerance))
  {
    ErrorNeverRaises(s, errorType, tolerance);
  }
}
