/** The shape of a game question bank entry, reduced to the fields the game
    engine reads. The bank itself lives outside the engine and is passed in
    as a parameter wherever the source reads QUESTION_BANK. */
module GameQuestions {

  datatype Question = Question(
    id: string,
    domain: string,
    difficulty: int,
    errorType: string,
    correct: int,
    rationale: string,
    clinicalJudgment: bool)

  function QuestionIds(qs: seq<Question>): (r: seq<string>)
    ensures |r| == |qs|
    ensures forall i :: 0 <= i < |qs| ==> r[i] == qs[i].id
  {
    if qs == [] then [] else [qs[0].id] + QuestionIds(qs[1..])
  }

  /** The set of ids of a list of questions. */
  function IdSet(qs: seq<Question>): set<string> {
    set q | q in qs :: q.id
  }

  /** `s.filter(p)` */
  function Filter(s: seq<Question>, p: Question -> bool): (r: seq<Question>)
    ensures forall q :: q in r <==> q in s && p(q)
    ensures |r| <= |s|
  {
    if s == [] then []
    else (if p(s[0]) then [s[0]] else []) + Filter(s[1..], p)
  }
}
