/** The learner profile the game keeps (src/game/state.js), reduced to a
    value. The session replaces it field by field. */
module Profiles {

  datatype Profile = Profile(
    archetypeId: string,
    xp: int,
    domainXp: map<string, int>,
    completedNodes: seq<string>,
    domainScores: map<string, int>,
    clinicalJudgmentErrors: int,
    priorityErrorRate: real,
    recentFailures: int,
    mode: string)
}
