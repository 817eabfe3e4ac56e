# NREMT Crawler Paramedic: a verified model of its learner-progress engines

The repository holds two engines that track a paramedic student's progress.

- **The city-map game** (`src/game`, `src/main.js`, `src/data`).
  - The learner walks a map of dispatch nodes.
  - Each node runs an encounter: a short run of questions while a three-axis patient stability vector (airway, circulation, neuro) takes damage from wrong answers.
  - When the encounter ends, XP, the completed-node set and failure counters change.
  - Readiness is recomputed, and that readiness together with the completed set decides which nodes unlock.
  - The district systems (stability and stress per district, seeded node modifiers, risk and heat) and the seeded encounter assembler sit beside this loop.
- **The study app** (`readiness.ts`, `engine.ts`, `generator.ts`, `BodyHeatmap.tsx`).
  - It scores a history of answers into time-decayed per-domain readiness, a clinical-judgment sub-score and a composite exam-readiness score.
  - It classifies wrong answers and adapts the difficulty.
  - It expands the question bank into numbered variants.
  - It maps domain names onto body zones.

The model is in Dafny, with one module per source file:

| source | Dafny module (file) |
|---|---|
| `src/game/stability.js` | `Stability` (`stability.dfy`) |
| `src/game/modifiers.js` | `Modifiers` (`modifiers.dfy`) |
| `src/game/encounterAssembler.js` | `EncounterAssembler` (`encounter_assembler.dfy`) |
| `src/game/engineAdapter.js` | `EngineAdapter` (`engine_adapter.dfy`) |
| `src/game/mapSystem.js` | `MapSystem` (`map_system.dfy`) |
| `src/game/state.js` | `GameState` (`game_state.dfy`) |
| `src/game/readiness.js` | `GameReadiness` (`game_readiness.dfy`) |
| `src/game/heat.js` | `Heat` (`heat.dfy`) |
| `src/main.js` | `Session` (`session.dfy`) |
| `src/data/*.js` | `Domains`, `Archetypes`, `MapNodes`, `Profile` |
| `readiness.ts` | `StudyReadiness` |
| `engine.ts` | `StudyEngine` |
| `generator.ts` | `StudyGenerator` |
| `BodyHeatmap.tsx` | `BodyHeatmap` |

The game's question records are in `GameQuestions`. Shared helpers live in four modules:

- `Numeric`: `Math.round`, `toFixed(2)` and clamps over exact reals.
- `JsInt`: 32-bit wrap-around, `ToInt32`/`ToUint32`, xor and shifts.
- `Text`: `includes`, ASCII lower-casing and decimal strings.
- `Wrappers`: `Option`.

Conventions:

- JavaScript numbers are modelled as `int` where the code only ever holds integers, and as exact `real` where it uses fractional constants.
- `Math.round(x)` is `Floor(x + 0.5)`.
- `toFixed(2)` rounds to hundredths, half away from zero.
- Code that mutates state is imperative Dafny:
  - `hashString`, `seededRandom` (the class `Modifiers.Lcg`), `buildNodeModifiers`, the draw loop of `assembleEncounter`, `defaultDistrictState`, `applyEncounterConsequences`, `expandQuestionBank` and `zoneForDomain`'s search loop are methods with loops;
  - each is proved equal to a specification function about which the properties are proved.
- The session of `src/main.js` is the class `Session.Session`:
  - its fields are `profile`, `readiness`, `nodes`, `encounter` and `stability`;
  - each handler's new state is tied to a pure transition on a `World` snapshot;
  - the invariant `Session.Inv` is proved preserved by every transition.

## Model

| member | source | states |
|---|---|---|
| Stability.CreateStability | src/game/stability.js:9-11 | all three axes start at the given value |
| Stability.DeltaFor | src/game/stability.js:1-7 | an error type missing from the table falls back to the default delta; a listed one gets its own table row |
| Stability.DeltasDamage | src/game/stability.js:1-7 | every delta, listed or default, lowers no axis and strictly lowers at least one |
| Stability.ScaledAxisMoves | src/game/stability.js:15-19 | a non-positive delta at non-negative tolerance never raises an axis; at tolerance 1 the axis moves by exactly the delta |
| Stability.ApplyErrorToStability | src/game/stability.js:13-20 | a fresh vector, each axis moved by its error delta (default -10 on every axis) times the tolerance and rounded; ErrorNeverRaises, ExactDeltaAtFullTolerance and UnknownErrorUsesDefault state what that means |
| Stability.ErrorNeverRaises | src/game/stability.js:13-20 | with tolerance at least 0, an error never raises any axis |
| Stability.ExactDeltaAtFullTolerance | src/game/stability.js:13-20 | at tolerance 1 each axis changes by exactly its delta, and at least one axis drops |
| Stability.UnknownErrorUsesDefault | src/game/stability.js:14 | an unknown error type takes 10 times the tolerance off every axis, rounded |
| Stability.IsEncounterFailure | src/game/stability.js:22-24 | an encounter fails exactly when some axis is at or below 0; SingleAxisFails and FailureIsSticky state its consequences |
| Stability.SingleAxisFails | src/game/stability.js:22-24 | one axis at 0 fails the encounter whatever the others are; {1,1,1} does not fail |
| Stability.CreatedFailsIffNotPositive | src/game/stability.js:9-11 | a fresh vector fails exactly when its start is not positive; the default start 100 does not fail |
| Stability.FailureIsSticky | src/game/stability.js:13-24 | a further error cannot undo a failure |
| Modifiers.Fnv1a | src/game/modifiers.js:3-10 | the hash is a 32-bit unsigned value |
| Modifiers.StepIsFnv | src/game/modifiers.js:6-8 | the code's xor, ToInt32 and shift sum equal one FNV-1a step, a multiply by 16777619 modulo 2^32 |
| Modifiers.HashString | src/game/modifiers.js:3-10 | the loop over UTF-16 code units computes 32-bit FNV-1a |
| Modifiers.Mix | src/game/modifiers.js:6-7 | one loop step (xor, then the shifted-sum multiply by the FNV prime) is, modulo 2^32, the FNV-1a step on the unsigned hash |
| Modifiers.HashExamples | src/game/modifiers.js:3-10 | "" hashes to the offset basis 2166136261; "a" hashes to 0xe40c292c |
| Modifiers.LcgStep | src/game/modifiers.js:12-17 | the state step is (v * 1664525 + 1013904223) mod 2^32 |
| Modifiers.Unit | src/game/modifiers.js:16 | every draw lies in [0, 1) |
| Modifiers.DrawIndexExact | src/game/modifiers.js:42 | `Math.floor(rng() * n)` equals the integer quotient state * n / 2^32 |
| Modifiers.Lcg.constructor | src/game/modifiers.js:12-13 | the generator's state starts at the seed taken modulo 2^32 |
| Modifiers.Lcg.Next | src/game/modifiers.js:14-17 | each call advances the state by one LCG step and returns state / 2^32 |
| Modifiers.FlagsOfPicked | src/game/modifiers.js:45-51 | the record built from a picked set has exactly that set's flags on |
| Modifiers.ModifierImpact | src/game/modifiers.js:56-69 | difficultyShift is the number of flags on, so it lies in 0..5; rewardMult is 1 + 0.15 for limited resources or weather + 0.1 for high call volume, one of {1, 1.1, 1.15, 1.25} |
| Modifiers.NoModifiersNoImpact | src/game/modifiers.js:56-69 | an empty modifier set has impact {0, 1} |
| Modifiers.PickFlagsSize | src/game/modifiers.js:40-43 | a completed draw picks exactly the requested number of distinct flags |
| Modifiers.NodeDrawFlags | src/game/modifiers.js:39-51 | each node's draw switches on one or two flags |
| Modifiers.BuildSpec | src/game/modifiers.js:36-54 | the modifier map as a function of the node ids and the seed, drawn from the 32-bit generator started at the seed; BuildSpecEntries states its keys and flag counts |
| Modifiers.BuildSpecEntries | src/game/modifiers.js:36-54 | the modifier map has an entry for exactly the node ids, each with one or two flags on |
| Modifiers.DrawNodeFlags | src/game/modifiers.js:39-51 | one node's draw with the stateful generator matches the pure draw |
| Modifiers.BuildNodeModifiers | src/game/modifiers.js:36-54 | the loop with the stateful generator computes the pure specification, a function of the node ids and the seed alone |
| EncounterAssembler.WildcardFromModifiers | src/game/encounterAssembler.js:10-15 | there is a wildcard exactly when pediatric spike, equipment failure or weather impact is on; a domain wildcard names a weighted domain |
| EncounterAssembler.TargetDifficulty | src/game/encounterAssembler.js:35 | the target lies in 1..5 and is at least the band clamped to 5 |
| EncounterAssembler.FindIndex | src/game/encounterAssembler.js:48 | the index of the first question with the id, or -1 when there is none |
| EncounterAssembler.FirstOccurrence | src/game/encounterAssembler.js:48 | findIndex returns i exactly when no earlier question has the id of question i |
| EncounterAssembler.KeepFirstIsUnseen | src/game/encounterAssembler.js:43-48 | the findIndex filter equals a left-to-right scan that keeps ids not yet seen |
| EncounterAssembler.UnseenDistinct | src/game/encounterAssembler.js:43-48 | that scan yields pairwise distinct ids |
| EncounterAssembler.UnseenAppend | src/game/encounterAssembler.js:43-48 | scanning a concatenation scans the second part with the first part's ids already seen |
| EncounterAssembler.OrderedDeduplicated | src/game/encounterAssembler.js:43-48 | the ordered pool has no repeated id, holds only prioritised questions and keeps each id's first occurrence |
| EncounterAssembler.WeakFirst | src/game/encounterAssembler.js:39-48 | weak-pool questions precede every other question of the ordered pool |
| EncounterAssembler.SourceFallbacks | src/game/encounterAssembler.js:50-51 | if some ordered question is within target + 1, every source question is; otherwise the source is the ordered pool, and with an empty ordered pool it is the whole bank |
| EncounterAssembler.SlotDraw | src/game/encounterAssembler.js:55-61 | each slot carries the configured patient mix, and a non-empty source yields a question from it |
| EncounterAssembler.DrawSlots | src/game/encounterAssembler.js:53-62 | max(0, length) slots, each with the patient mix and, from a non-empty source, a source question |
| EncounterAssembler.PickQuestion | src/game/encounterAssembler.js:55 | the question draw advances the generator one step and picks the slot's question |
| EncounterAssembler.PickInteraction | src/game/encounterAssembler.js:6-8 | the interaction draw advances the generator one step |
| EncounterAssembler.PickEventTag | src/game/encounterAssembler.js:59 | the event-tag draw matches the pure draw |
| EncounterAssembler.DrawSlot | src/game/encounterAssembler.js:55-61 | one loop iteration matches the pure slot draw |
| EncounterAssembler.AssembleSpec | src/game/encounterAssembler.js:21-71 | the assembled encounter as a function of the config and the bank: the drawn slots, the clamped target difficulty and the modifier impact; AssembleEncounter is proved to compute it |
| EncounterAssembler.AssembleEncounter | src/game/encounterAssembler.js:21-71 | the result is a function of the config and the bank; it holds exactly max(0, encounterLength) questions, each from the source when the source is non-empty; the target lies in 1..5 |
| EngineAdapter.TargetDifficulty | src/game/engineAdapter.js:4 | the target lies in 1..5; it is the tier without previous errors and one lower with them, 1 for a tier of at most 1 (a tier-1 node after a failure stays at 1) and 5 when the adjusted tier is above 5 |
| EngineAdapter.SliceTo | src/game/engineAdapter.js:8 | `slice(0, end)`: a prefix of length min(end, n), or n + end for a negative end |
| EngineAdapter.SelectQuestions | src/game/engineAdapter.js:3-9 | a prefix of primary ++ secondary of length min(encounterLength, both counts together), all from the bank |
| EngineAdapter.SelectionOrder | src/game/engineAdapter.js:5-8 | primary picks come first and are within target + 1; the rest are secondary-domain questions |
| EngineAdapter.ErrorsNeverHarden | src/game/engineAdapter.js:4-5 | previous errors never admit a primary question that an error-free run would exclude |
| EngineAdapter.LaunchEncounter | src/game/engineAdapter.js:11-19 | an encounter starts at index 0 with no answers and uses recentFailures as previousErrors |
| EngineAdapter.ScoreAnswer | src/game/engineAdapter.js:21-30 | correct iff the index equals the key; the error type is absent exactly when correct and is the question's otherwise; rationale, domain and clinicalJudgment are copied |
| MapSystem.UniqueDistricts | src/game/mapSystem.js:7-9 | the distinct districts of the map nodes, each once |
| MapSystem.DefaultDistrictState | src/game/mapSystem.js:11-20 | one entry per map district, each {70, 30, 0} |
| MapSystem.DistrictRiskScore | src/game/mapSystem.js:45-47 | risk lies in [0, 1] |
| MapSystem.RiskMonotone | src/game/mapSystem.js:45-47 | more stress or more failures never lowers the risk |
| MapSystem.RiskLevelOf | src/game/mapSystem.js:60 | low below 0.34, high from 0.67 |
| MapSystem.NodeRisk | src/game/mapSystem.js:54 | the node risk lies between the district risk and 1; it equals the district risk without modifiers |
| MapSystem.EnrichNode | src/game/mapSystem.js:50-63 | the node, modifiers and snapshot are kept; dynamic difficulty lies in 1..5; the reward multiplier is the modifier multiplier plus at most 0.5, within [1, 1.75] |
| MapSystem.EnrichmentNeverEasier | src/game/mapSystem.js:61 | the dynamic difficulty is never below the clamped tier |
| MapSystem.EnrichNodesWithMapSystems | src/game/mapSystem.js:49-65 | fails exactly when some node's district is missing; otherwise one enriched node per node, in order |
| MapSystem.OwnerAfter | src/game/mapSystem.js:71-79 | success: stability +4 capped at 100, stress −6 floored at 0, failures −1 floored at 0; failure: stability −8 floored at 0, stress +10 capped at 100, failures +1 |
| MapSystem.Spill | src/game/mapSystem.js:87-90 | another district's stress rises by exactly 2, capped at 100; its other fields are unchanged |
| MapSystem.Consequences | src/game/mapSystem.js:67-95 | the key set is unchanged and the owner gets its update; on success no other district changes, on failure every other district takes the spill |
| MapSystem.ConsequencesKeepRange | src/game/mapSystem.js:67-95 | stability and stress stay in 0..100 and failures non-negative |
| MapSystem.ApplyEncounterConsequences | src/game/mapSystem.js:67-95 | the copy-and-update loop computes the consequences |
| GameState.RefreshStates | src/game/state.js:37-47 | one node per input node with only the completion state rewritten: completed iff the id is in the completed list; available iff not completed, readiness reaches minReadiness and every prerequisite is completed |
| GameState.RefreshNodeStates | src/game/state.js:37-47 | one refreshed node per node of the fixed city map, with the per-node states RefreshStates states |
| GameState.RefreshMonotone | src/game/state.js:39-44 | more completed nodes and higher readiness never move a node back toward locked |
| GameState.AvailableAfterPrerequisites | src/game/state.js:40-41 | an available node's prerequisites are earlier map nodes, all completed |
| GameState.EntryNeverLocked | src/game/state.js:41 | DT-CARD-01 is never locked |
| GameState.BaseReadiness | src/game/state.js:7-23 | the base profile's readiness is 44 |
| GameState.FreshStartStates | src/game/state.js:7-47 | a new learner sees exactly the two nodes without gates available and none completed |
| GameReadiness.ModeFactor | src/game/readiness.js:3-7 | study 0.8, exam 1, final shift 1.15; any other mode 0.8 |
| GameReadiness.JudgmentMultiplier | src/game/readiness.js:15 | the multiplier lies in [0.75, 1] for non-negative errors, 1 with none |
| GameReadiness.Recency | src/game/readiness.js:16 | the recency factor lies in [0.85, 1] for non-negative failures, 1 with none |
| GameReadiness.CalculateReadiness | src/game/readiness.js:9-19 | an integer in 0..100, the rounded raw score whenever that lies in range |
| GameReadiness.WeightedBounds | src/game/readiness.js:10-13 | the weighted sum lies between 0 and cap times the weight total |
| GameReadiness.RawReadiness | src/game/readiness.js:10-17 | the unrounded readiness: weighted domain scores times the judgment multiplier, the recency factor and the mode factor; RawReadinessBounds and the monotonicity lemmas state its range and direction |
| GameReadiness.RawReadinessBounds | src/game/readiness.js:10-17 | with scores in 0..100 and a mode other than final shift, the raw score needs no clamp |
| GameReadiness.ReadinessMonotoneInScores | src/game/readiness.js:10-18 | readiness never falls when domain scores rise |
| GameReadiness.ReadinessAntitoneInErrors | src/game/readiness.js:15-18 | more judgment errors or recent failures never raise readiness |
| GameReadiness.ModesOrdered | src/game/readiness.js:3-18 | study ≤ exam ≤ final shift for the same profile |
| GameReadiness.PerfectProfileIsReady | src/game/readiness.js:9-19 | all scores 100 with no errors or failures gives exam readiness 100 |
| GameReadiness.UpdateDomainScore | src/game/readiness.js:21-27 | only the named domain changes; its new score is the old one (50 when absent) +3 when correct, −6 on a clinical miss, −4 on any other miss, clamped to 10..100 |
| GameReadiness.ClinicalMissCostsMore | src/game/readiness.js:22 | a clinical miss costs at least as much as another miss, and a miss never scores above a hit |
| Heat.WeightOr | src/game/heat.js:6 | a missing domain weight counts as 0.15 |
| Heat.HeatValue | src/game/heat.js:5-8 | every heat value is at most 1 and holds whole hundredths |
| Heat.HeatOver | src/game/heat.js:3-11 | one entry per district of the table, each at most 1 |
| Heat.CalculateDistrictHeat | src/game/heat.js:3-11 | the heat map over the district-to-domain table; DistrictHeatEntries states its keys and values |
| Heat.HeatOverEntry | src/game/heat.js:3-11 | each district holds the heat of the domain its last table entry names |
| Heat.DistrictHeatEntries | src/game/heat.js:3-11 | the heat map has exactly the table's districts, each with its domain's heat |
| Heat.HeatNonNegative | src/game/heat.js:5-8 | heat is at least 0 for a score up to 100 with non-negative error rate and failures |
| Heat.HeatMonotone | src/game/heat.js:5-8 | heat never rises with the score and never falls with the error rate or failures |
| Heat.MissingEntriesDefault | src/game/heat.js:5-7 | a missing score counts as 50 and a missing weight as 0.15 |
| Heat.HeatColorOf | src/game/heat.js:13-17 | good below 0.35, bad from 0.65, warn between |
| Heat.HeatColorMonotone | src/game/heat.js:13-17 | a hotter district is never shown milder |
| Session.ToleranceFor | src/main.js:32-33 | the archetype's tolerance, in (0, 1], and 1 for an unknown archetype |
| Session.XpModifierFor | src/main.js:65-66 | the archetype's domain multiplier, in [0.95, 1.1], and 1 when absent |
| Session.XpAward | src/main.js:65-68 | the node reward times the archetype multiplier, times 1.1 on a success after recent failures, times 0.35 on a failure, rounded; FailureEarnsLess states its order and sign |
| Session.FailureEarnsLess | src/main.js:65-68 | a failed run earns no more XP than a successful one, and never a negative amount |
| Session.StabilityAfter | src/main.js:31-33 | a correct answer keeps the stability; a miss applies its error type at the archetype tolerance |
| Session.AddCompleted | src/main.js:71-73 | the completed list only grows, by the node id and only on success |
| Session.AddCompletedNoDuplicates | src/main.js:71-73 | the completed list never holds a duplicate |
| Session.AfterCompletion | src/main.js:63-79 | XP rises by exactly the award; the node joins on success; failures plus 1 on failure, minus 1 with floor 0 on success; nothing else in the profile changes |
| Session.AfterAnswer | src/main.js:31-43 | domain scores go through the score update on every answer; a miss counts a judgment error only on a clinical question and adds 0.08 to the error rate to two decimals; nothing else changes |
| Session.ErrorRateStep | src/main.js:35 | from whole hundredths the error rate rises by exactly 0.08, with no cap |
| Session.AnswerIsLogged | src/main.js:27-29 | each answer appends exactly one scored result to the log |
| Session.AnswerOutcome | src/main.js:45-54 | a failed stability ends the run as a failure before the index advances; otherwise the index rises by 1 and the run succeeds exactly when it reaches the question count |
| Session.StabilityBetweenQuestions | src/main.js:56-58 | between questions, non-boss nodes reset stability to {100, 100, 100} and boss nodes keep it |
| Session.CompleteSpec | src/main.js:63-82 | the completion transition: the profile after completion, readiness and node states recomputed from it, and the XP award; CompleteKeepsInv states what it preserves |
| Session.AnswerSpec | src/main.js:26-61 | the answer transition: log, stability and profile updated, then a failure ending, a success ending after the last question, or the next question; AnswerIsLogged, AnswerOutcome and AnswerKeepsInv state its consequences |
| Session.InitialInv | src/main.js:8-10 | the starting session satisfies the invariant |
| Session.CompleteKeepsInv | src/main.js:63-82 | completion keeps the invariant; the completed set only grows and gains the node exactly on success |
| Session.AnswerKeepsInv | src/main.js:26-61 | every answer keeps the invariant |
| Session.Session.constructor | src/main.js:8-10 | a new session is the starting world |
| Session.Session.SelectArchetype | src/main.js:14-17 | sets the archetype and recomputes readiness and node states; the encounter is untouched |
| Session.Session.StartNodeEncounter | src/main.js:20-24 | launches the node's encounter with full stability; the profile is untouched |
| Session.Session.CompleteEncounter | src/main.js:63-91 | the new state and XP award are the completion transition |
| Session.Session.HandleAnswer | src/main.js:26-61 | the new state and outcome are the answer transition, and the invariant is kept |
| MapNodes.NodeIdsDistinct | src/data/mapNodes.js:1-50 | node ids are pairwise distinct |
| MapNodes.PrerequisitesPrecede | src/data/mapNodes.js:1-50 | every prerequisite names an earlier node, so the prerequisite graph is acyclic |
| MapNodes.NodeBounds | src/data/mapNodes.js:1-50 | every tier lies in 1..5, every minReadiness in 0..100, and every encounter length is at least 1 |
| MapNodes.MinReadinessMonotone | src/data/mapNodes.js:1-50 | a node's minReadiness is at least each prerequisite's |
| MapNodes.OnlyEntryNode | src/data/mapNodes.js:3-4 | DT-CARD-01 is the only node with no readiness gate and no prerequisites |
| MapNodes.SingleBossAndCertification | src/data/mapNodes.js:43-48 | exactly one boss and one certification node, and certification requires the boss |
| MapNodes.NodeDomainsAreWeighted | src/data/mapNodes.js:1-50 | every primary and secondary domain is a weighted domain |
| MapNodes.DistrictTableMatchesNodes | src/data/domains.js:9-16 | the district table's keys are exactly the map nodes' districts |
| MapNodes.IndexOfId | src/data/mapNodes.js:1-50 | the first position of an id, or -1 when absent |
| Domains.Lookup | src/data/domains.js:1-16 | a table lookup succeeds exactly for the table's keys and returns that key's value |
| Domains.WeightsSumToOne | src/data/domains.js:1-7 | the domain weights sum to 1 |
| Domains.WeightsPositive | src/data/domains.js:2-6 | every domain weight is positive |
| Domains.DistrictDomainsAreWeighted | src/data/domains.js:9-16 | every district's domain has a weight, so the 0.15 fallback is never used |
| Archetypes.FindArchetype | src/data/archetypes.js:1-34 | finds the archetype with the id, or reports none |
| Archetypes.DefaultArchetypeExists | src/data/archetypes.js:36 | the default id names an archetype |
| Archetypes.ArchetypeIdsDistinct | src/data/archetypes.js:1-34 | archetype ids are pairwise distinct |
| Archetypes.TolerancesInRange | src/data/archetypes.js:11 | every stability tolerance lies in (0, 1] |
| Archetypes.XpModifiersWellFormed | src/data/archetypes.js:6-10 | every XP modifier names a weighted domain and lies in [0.95, 1.1] |
| StudyReadiness.LabelForScore | readiness.ts:37-43 | a step function at 50, 62, 74 and 86, with each band stated both ways |
| StudyReadiness.LabelMonotone | readiness.ts:37-43 | a higher score never gets a lower label |
| StudyReadiness.LabelExamples | readiness.ts:37-43 | the label texts "Below Passing", "Borderline", "Passing", "Strong" and "Exam-Ready" on each side of 50, 62, 74 and 86 |
| StudyReadiness.LabelTextInjective | readiness.ts:37-43 | the five labels have five different texts |
| StudyReadiness.Recency | readiness.ts:45-47 | the recency factor lies in [0.4, 1] for non-negative age and is 0.4 from day 54 |
| StudyReadiness.RecencyAntitone | readiness.ts:45-47 | older entries never weigh more |
| StudyReadiness.ModeMultiplier | readiness.ts:49-51 | exam 1.25, study 0.85 |
| StudyReadiness.DifficultyMultiplier | readiness.ts:53-55 | the factor lies in [0.9, 1.3] for difficulties 1..5 |
| StudyReadiness.DifficultyMultiplierMonotone | readiness.ts:53-55 | harder entries never weigh less |
| StudyReadiness.WeightPositive | readiness.ts:45-55 | every entry of difficulty at least 1 has a positive weight |
| StudyReadiness.ExamOutweighsStudy | readiness.ts:49-51 | the same entry weighs more in exam mode than in study mode |
| StudyReadiness.WeightsOrdered | readiness.ts:73-84 | the correct weight lies between 0 and the total, which is positive for a non-empty history |
| StudyReadiness.WeightedScore | readiness.ts:92 | the rounded percentage of the weight on correct answers, 0 when the total weight is 0; WeightedScoreBounds states its range |
| StudyReadiness.WeightedScoreBounds | readiness.ts:92 | every domain score lies in 0..100 |
| StudyReadiness.AllCorrectScores100 | readiness.ts:92 | an all-correct non-empty domain scores 100 |
| StudyReadiness.NoneCorrectScoresZero | readiness.ts:92 | a domain with no correct entry scores 0 |
| StudyReadiness.EntriesOf | readiness.ts:66-72 | a domain's entries are exactly the history entries of that domain |
| StudyReadiness.Misses | readiness.ts:86-89 | the error types of exactly the incorrect entries |
| StudyReadiness.TopIndex | readiness.ts:91 | the first key of maximal count |
| StudyReadiness.TopError | readiness.ts:86-91 | the most frequent missed error type, ties to the one seen first, or "none"; TopErrorIsMostFrequent states this |
| StudyReadiness.TopErrorIsMostFrequent | readiness.ts:86-91 | "none" without misses; otherwise an error type that was missed, with maximal count |
| StudyReadiness.ReadinessOf | readiness.ts:92-99 | the label is the score's label and attempts is the entry count |
| StudyReadiness.CalculateDomainReadiness | readiness.ts:62-103 | an entry for every domain, pharm included, whose attempts is that domain's entry count |
| StudyReadiness.DomainReadinessBounds | readiness.ts:62-103 | every score lies in 0..100; an untried domain scores 0, labelled Below Passing, with top error "none" |
| StudyReadiness.DomainsIndependent | readiness.ts:62-103 | an answer in one domain leaves every other domain's readiness unchanged |
| StudyReadiness.Last | readiness.ts:109 | `slice(-n)`: the last min(n, length) entries |
| StudyReadiness.JudgmentPenalty | readiness.ts:128-129 | the penalty lies in [0, 0.22] and is 0 without judgment errors |
| StudyReadiness.CrossDomainFactor | readiness.ts:110-111 | the factor lies in [0, 1] and is 1 when every domain appears |
| StudyReadiness.ClinicalJudgment | readiness.ts:106-133 | an integer in 0..100, 0 on an empty history |
| StudyReadiness.ClinicalJudgmentWindow | readiness.ts:109 | only the last 60 entries matter |
| StudyReadiness.PerfectJudgment | readiness.ts:106-133 | 60 recent correct answers across every domain with no judgment error score 100 |
| StudyReadiness.WeightsMakeWhole | readiness.ts:24-33 | the domain weights sum to 66, and with the judgment weight 34 they make 100 |
| StudyReadiness.DomainCompositeBounds | readiness.ts:139-143 | the composite of scores in 0..100 lies in 0..100 |
| StudyReadiness.PedsRate | readiness.ts:147-148 | the pediatric rate lies in [0, 1] |
| StudyReadiness.MixPenalty | readiness.ts:149 | the mix penalty lies in 0..10 |
| StudyReadiness.TargetMixFree | readiness.ts:149 | a 15% pediatric rate costs nothing |
| StudyReadiness.ConsistencyBonus | readiness.ts:152-155 | the bonus lies in 0..8 and is 0 without recent entries |
| StudyReadiness.ErrorPenalty | readiness.ts:158-159 | the penalty lies in 0..8 |
| StudyReadiness.CleanStreak | readiness.ts:152-159 | an all-correct recent window earns the full bonus of 8 and no penalty |
| StudyReadiness.CalculateReadiness | readiness.ts:135-169 | an integer in 0..100, 0 on an empty history |
| StudyReadiness.FinalScore | readiness.ts:161-166 | the unclamped composite: domain composite times 0.66 plus clinical judgment at its weight plus the consistency bonus, minus the mix and error penalties; FinalScoreRange states its range |
| StudyReadiness.FinalScoreRange | readiness.ts:161-166 | before clamping the score lies in [-18, 108] |
| StudyEngine.Classify | engine.ts:35-43 | case-insensitively, "outside" or "scope" gives scope_error, else "delay" gives delayed_intervention, else "lower-priority" gives assessment_order_error, else priority_error; each case is stated both ways |
| StudyEngine.ClassifyIgnoresCase | engine.ts:39-41 | letter case never changes the class |
| StudyEngine.EvaluateAnswer | engine.ts:33-54 | correct iff the answer is the key; the error type is "none" iff correct, else the chosen option's class; explanation, takeaway and rule follow |
| StudyEngine.MissingChoiceIsPriorityError | engine.ts:35 | a wrong answer without option text is a priority error |
| StudyEngine.TakeawayText | engine.ts:50 | the takeaway lists the assessment hierarchy in order, joined by arrows |
| StudyEngine.ReplaceAll | engine.ts:49 | `replaceAll` of one character: same length, each occurrence replaced, none left |
| StudyEngine.Bump | engine.ts:81-84 | the key's counter rises by 1 from 0 when absent; other keys keep their counts |
| StudyEngine.UpdateAdaptiveState | engine.ts:74-92 | correct: streak + 1, difficulty + 1 (cap 5) only from the second in a row, counters unchanged; wrong: streak 0, difficulty - 1 (floor 1), only the domain's and the error type's counters + 1 |
| StudyEngine.DifficultyStaysInRange | engine.ts:77 | the difficulty stays in 1..5 and moves by at most one |
| StudyEngine.CountersNeverShrink | engine.ts:81-84 | weakness and error counters never decrease |
| StudyEngine.TwoInARowToRaise | engine.ts:75-77 | from a fresh streak two correct answers raise the difficulty, and a miss in between resets the count |
| StudyGenerator.DifficultyAt | generator.ts:15 | variant difficulties cycle through 1..5 |
| StudyGenerator.FindMatch | generator.ts:16 | the first bank question with the slot's domain, prompt type and difficulty, or none exactly when no question matches |
| StudyGenerator.BaseFor | generator.ts:16 | a variant's base is a bank question |
| StudyGenerator.ExpandQuestionBank | generator.ts:6-26 | fails exactly for an empty bank with a positive count; otherwise max(0, count) variants, variant i made from its base with a numbered id and stem and every other field copied |
| StudyGenerator.Variant | generator.ts:18-22 | the base question with "-v-" and the 1-based position appended to the id and " (Variant n)" to the stem, every other field copied; VariantIdsDistinct and AfterLastDashOfVariant state what the ids give |
| StudyGenerator.AfterLastDashOfVariant | generator.ts:20 | the number after the last dash of a variant id can be read back |
| StudyGenerator.VariantIdsDistinct | generator.ts:20 | variants at different positions have different ids, whatever the bank's ids are |
| StudyGenerator.VariantsCycle | generator.ts:13-16 | with a match for the slot, variant i has the cycle's domain, prompt type and difficulty |
| StudyGenerator.CyclePeriod | generator.ts:13-16 | variants i and i + 60 share their base |
| BodyHeatmap.ReplaceAmp | BodyHeatmap.tsx:38 | no '&' is left, and nothing but "and" is added |
| BodyHeatmap.Collapse | BodyHeatmap.tsx:39 | the result is empty only for an empty input, starts with the input's first character or a space when that is whitespace, has no whitespace but plain spaces and no two spaces in a row |
| BodyHeatmap.CollapseIsSqueeze | BodyHeatmap.tsx:39 | replacing each whitespace run by one space equals writing every whitespace character as a space and then dropping each space that follows a space |
| BodyHeatmap.Norm | BodyHeatmap.tsx:35-41 | lower case, "&" replaced by "and", whitespace runs collapsed to one space, trimmed; NormIsNormal and NormIdempotent state its result |
| BodyHeatmap.NormIsNormal | BodyHeatmap.tsx:35-41 | the result has no ASCII upper case, no '&', no edge whitespace and only single spaces |
| BodyHeatmap.NormIdempotent | BodyHeatmap.tsx:35-41 | normalising twice changes nothing |
| BodyHeatmap.OwnLookup | BodyHeatmap.tsx:47 | the own-key lookup finds a zone exactly for the table's keys, that of the first equal key |
| BodyHeatmap.FirstContained | BodyHeatmap.tsx:50-52 | the zone of the first key, in table order, contained in the name, or none when no key is contained |
| BodyHeatmap.ZoneForDomain | BodyHeatmap.tsx:43-56 | the method (own-key lookup, then the search loop, then chest) computes ZoneOf, whose rules the next lemmas state |
| BodyHeatmap.ScanContained | BodyHeatmap.tsx:50-52 | the loop returns the zone of the first key contained in the name, or nothing |
| BodyHeatmap.ExactKeyZone | BodyHeatmap.tsx:46-47 | a normalised name equal to a key gets that key's zone |
| BodyHeatmap.FirstContainedKeyZone | BodyHeatmap.tsx:49-52 | a name equal to no key gets the zone of the first key, in table order, that it contains |
| BodyHeatmap.FirstKeyWins | BodyHeatmap.tsx:49-52 | "airway cardiology" contains a head and a chest key and gets the head, the earlier one |
| BodyHeatmap.ZoneKeysDistinct | BodyHeatmap.tsx:9-20 | the zone table has no repeated key |
| BodyHeatmap.ZoneOf | BodyHeatmap.tsx:43-56 | the zone of the normalised name: exact key, then the first contained key in table order, then chest; ZoneComesFromMatchingKey and ZoneIgnoresSpelling state its properties |
| BodyHeatmap.ZoneComesFromMatchingKey | BodyHeatmap.tsx:43-56 | the zone comes from a key equal to or contained in the normalised name, or is chest when no key is contained |
| BodyHeatmap.ZoneIgnoresSpelling | BodyHeatmap.tsx:43-56 | names that normalise alike get the same zone |
| BodyHeatmap.AmpersandKeyUnreachable | BodyHeatmap.tsx:18 | the "medical & obgyn" key is never hit, because normalising rewrites '&' |
| BodyHeatmap.EmptyNameIsChest | BodyHeatmap.tsx:55 | the empty name is chest |
| BodyHeatmap.ZoneForDomainAsWritten | BodyHeatmap.tsx:43-56 | the lookup as written, whose direct lookup also returns inherited property names; AsWrittenAgreesElsewhere states where it agrees with ZoneOf |
| BodyHeatmap.AsWrittenAgreesElsewhere | BodyHeatmap.tsx:47 | the lookup as written agrees with the corrected one on every name that is not an inherited property name |
| BodyHeatmap.ConstructorIsNotAZone | BodyHeatmap.tsx:47 | a name normalising to "constructor" gets an inherited property from the lookup as written, not a zone; the corrected lookup gives chest |

## Left out

- Persistence is not modelled: `loadState` and `saveState` in `src/game/state.js`, and `loadDistrictState`, `saveDistrictState` and `loadNodeModifiers` in `src/game/mapSystem.js`. They only move values through `localStorage` and JSON. The session starts from the base profile, not a stored one.
- UI and rendering are not modelled: `init`, the `render*` calls in `src/main.js`, `src/ui/*`, `page.tsx`, `Dock.tsx`, the JSX and effects of `BodyHeatmap.tsx`, `sw.js` and `next.config.mjs`.
- `createSessionSeed` (`src/game/modifiers.js:20-29`) reads the clock and `Math.random`. The seed is a parameter of `BuildNodeModifiers` and of the encounter config instead.
- `pickNextQuestion` (`engine.ts:56-72`) draws with `Math.random`. It is not modelled.
- `Date.now()` in `readiness.ts` is the parameter `now`. One value serves both the domain and the clinical-judgment calls.
- The question banks (`QUESTION_BANK`, the seed bank) are not part of this model. Every operation that reads a bank takes it as a parameter (`bank`).
- `Modifiers.BuildNodeModifiers`: the source's retry loop ends only because the generator eventually draws a new flag. The model bounds it with fuel of 2^32 draws and returns `None` once that is spent. It does not prove that the fuel always suffices.
- `MapSystem.ApplyEncounterConsequences`: requires the node's district to be in the map. With a missing district, JavaScript computes on `undefined` fields and stores NaNs; that path is not modelled.
- `Session.Session.HandleAnswer`: requires an open encounter with a current question. The source throws otherwise.
- `Session.Session.CompleteEncounter`: requires an open encounter, which the source dereferences.
- `Stability.DeltaFor`: an error type that names an `Object.prototype` property ("toString", "valueOf", "constructor", …) is read by `ERROR_DELTAS[errorType] ||` as the inherited function, not the default delta, and JavaScript's axes then become NaN. The model gives every unlisted name the default delta; error types come from the question bank, which is not part of this model.
- `GameReadiness.ModeFactor`: likewise, a mode naming an `Object.prototype` property gets the inherited function from `MODE_FACTOR[mode] || 0.8` and makes readiness NaN. The model gives every unlisted mode 0.8; the code only ever uses the base profile's "study".
- `GameReadiness.UpdateDomainScore`: likewise, `current[domain] ?? 50` for a domain naming an `Object.prototype` property ("constructor", "toString", …) reads the inherited function, not 50, so the clamp yields NaN and NaN is stored. The model clamps 50 plus the change for every absent domain; domains come from the question bank, which is not part of this model.
- `StudyEngine.UpdateAdaptiveState`: likewise, `(errorTypes[errorType] ?? 0) + 1` for an error type naming an inherited property concatenates the inherited function with "1" into a string ("toString", "constructor"), and an assignment to "__proto__" is silently dropped. The model's `Bump` stores 1 for every absent key; the error type comes from a caller that is not part of this model.
- `StudyReadiness.TopError`: likewise, the `errorCounts` tally in `readiness.ts:86-89` turns an inherited name's count into a string and drops "__proto__", so the sort in `readiness.ts:91` compares NaN. The model counts every error type the same way; error types come from the history, whose question bank is not part of this model.
- `EncounterAssembler.AssembleEncounter`: `Config.nodeModifiers` is always a record. With `nodeModifiers` absent, `modifierImpact` reads it as `{}`, but `wildcardFromModifiers` dereferences it and the source throws; that path is not modelled.
- `StudyGenerator.ExpandQuestionBank`: the count is an integer. A fractional `targetCount` is not modelled.
- Floating point: fractional constants are exact reals, so no float-exact equality is claimed. `toFixed(2)` is exact rounding to hundredths. NaN and infinity paths are not modelled.
- `Text.ToLowerAscii` lowers ASCII letters only. `toLowerCase` on non-ASCII letters is not modelled.
- `StudyReadiness.TopError` breaks ties by first occurrence. JavaScript objects list integer-like keys first, and that ordering is not modelled. No error type in the code is integer-like.
- Fresh copies: values are immutable in Dafny. That a vector, map or state returned as a new object leaves its input untouched holds by construction (`applyErrorToStability`, `applyEncounterConsequences`, `updateAdaptiveState`), and aliasing between them is not modelled.
- The repeatability of the seeded generator needs no separate lemma. `Modifiers.Lcg.Next` is pinned to `LcgStep`, so two generators with the same seed produce the same draws. Likewise, assembling an encounter is the function `AssembleSpec` of the config and the bank.
- `choiceEntries`, `domainPracticeCoaching` and `calculateClinicalJudgmentScore` are not modelled: they are plain listing, static text and a forwarding wrapper.

## Findings

| source | as written | input that shows it | evidently intended | confidence | as-written member | corrected member |
|---|---|---|---|---|---|---|
| BodyHeatmap.tsx:47 | `ZONE_MAP[d]` on a plain object literal also sees inherited `Object.prototype` properties, so the direct lookup returns a function, not a zone | a domain named "constructor" (or "__proto__") | only the table's own keys match; such a name falls through to the substring search and then to "chest" | not executed | BodyHeatmap.ConstructorIsNotAZone | BodyHeatmap.ZoneForDomain |
