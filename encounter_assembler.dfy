/** Procedural encounter assembly (src/game/encounterAssembler.js): a
    priority-ordered, id-deduplicated question pool, a difficulty filter with
    fallbacks, and seeded draws of the questions, their interaction types and
    their event tags. */
module EncounterAssembler {
  import opened Wrappers
  import opened JsInt
  import opened Numeric
  import opened Domains
  import opened MapNodes
  import opened Modifiers
  import opened GameQuestions

  datatype Interaction = StandardInteraction | Prioritization | MidVitalsUpdate | ReassessmentPrompt | TimePressured

  const INTERACTION_TYPES: seq<Interaction> :=
    [StandardInteraction, Prioritization, MidVitalsUpdate, ReassessmentPrompt, TimePressured]

  datatype EventTag = RadioTraffic | PatientDeterioration | SceneComplication

  const EVENT_TAGS: seq<EventTag> := [RadioTraffic, PatientDeterioration, SceneComplication]

  /** The extra pool a modifier record opens, as a question filter. */
  datatype Wildcard = DomainIs(domain: string) | ErrorTypeIs(errorType: string) | NoWildcard

  /** `wildcardFromModifiers`: the first active flag among pediatric spike,
      equipment failure and weather decides the wildcard filter. */
  function WildcardFromModifiers(m: ModifierSet): (w: Wildcard)
    ensures w.NoWildcard? <==> !m.pediatricSpike && !m.equipmentFailure && !m.weatherImpact
    ensures w.DomainIs? ==> w.domain in Keys(DOMAIN_WEIGHTS)
  {
    DomainKeys();
    if m.pediatricSpike then DomainIs(MEDICAL)
    else if m.equipmentFailure then ErrorTypeIs("Missed reassessment")
    else if m.weatherImpact then DomainIs(EMS_OPERATIONS)
    else NoWildcard
  }

  predicate Matches(w: Wildcard, q: Question) {
    match w
    case DomainIs(d) => q.domain == d
    case ErrorTypeIs(e) => q.errorType == e
    case NoWildcard => false
  }

  datatype Config = Config(
    primaryDomain: string,
    secondaryDomains: seq<string>,
    difficultyBand: int,
    nodeModifiers: ModifierSet,
    patientMix: PatientMix,
    recentErrorTypes: seq<string>,
    seed: int,
    encounterLength: int)

  /** `Math.max(1, Math.min(5, difficultyBand + impact.difficultyShift))` */
  function TargetDifficulty(c: Config): (r: int)
    ensures 1 <= r <= 5
    ensures r >= MinInt(5, c.difficultyBand)
  {
    Clamp(1, 5, c.difficultyBand + ModifierImpact(c.nodeModifiers).difficultyShift)
  }

  /** Questions of the primary or a secondary domain. */
  function BasePool(bank: seq<Question>, c: Config): seq<Question> {
    Filter(bank, (q: Question) => q.domain in [c.primaryDomain] + c.secondaryDomains)
  }

  /** Base-pool questions whose error type was made recently. */
  function WeakPool(bank: seq<Question>, c: Config): seq<Question> {
    Filter(BasePool(bank, c), (q: Question) => q.errorType in c.recentErrorTypes)
  }

  function WildcardPool(bank: seq<Question>, c: Config): seq<Question> {
    var w := WildcardFromModifiers(c.nodeModifiers);
    if w.NoWildcard? then [] else Filter(bank, q => Matches(w, q))
  }

  /** Base-pool questions of the primary domain. */
  function PrimaryPool(bank: seq<Question>, c: Config): seq<Question> {
    Filter(BasePool(bank, c), (q: Question) => q.domain == c.primaryDomain)
  }

  /** The pools in priority order, before de-duplication. */
  function Prioritised(bank: seq<Question>, c: Config): seq<Question> {
    WeakPool(bank, c) + PrimaryPool(bank, c) + BasePool(bank, c) + WildcardPool(bank, c)
  }

  /** `arr.findIndex((x) => x.id === id)` */
  function FindIndex(arr: seq<Question>, id: string): (r: int)
    ensures -1 <= r < |arr|
    ensures r >= 0 ==> arr[r].id == id && forall k :: 0 <= k < r ==> arr[k].id != id
    ensures r == -1 ==> forall k :: 0 <= k < |arr| ==> arr[k].id != id
  {
    if arr == [] then -1
    else if arr[0].id == id then 0
    else var k := FindIndex(arr[1..], id); if k == -1 then -1 else k + 1
  }

  /** `arr.filter((q, idx, arr) => arr.findIndex((x) => x.id === q.id) === idx)`,
      from position i on. */
  function KeepFrom(arr: seq<Question>, i: nat): seq<Question>
    requires i <= |arr|
    decreases |arr| - i
  {
    if i == |arr| then []
    else (if FindIndex(arr, arr[i].id) == i then [arr[i]] else []) + KeepFrom(arr, i + 1)
  }

  function KeepFirst(arr: seq<Question>): seq<Question> {
    KeepFrom(arr, 0)
  }

  /** Reference de-duplication: scan left to right and keep a question
      when its id has not been seen yet. */
  function Unseen(arr: seq<Question>, seen: set<string>): seq<Question>
  {
    if arr == [] then []
    else if arr[0].id in seen then Unseen(arr[1..], seen)
    else [arr[0]] + Unseen(arr[1..], seen + {arr[0].id})
  }

  /** Position i holds its id's first occurrence exactly when the id does
      not occur before i. */
  lemma FirstOccurrence(arr: seq<Question>, i: nat)
    requires i < |arr|
    ensures FindIndex(arr, arr[i].id) == i <==> arr[i].id !in IdSet(arr[..i])
  {
    var r := FindIndex(arr, arr[i].id);
    if arr[i].id in IdSet(arr[..i]) {
      var q :| q in arr[..i] && q.id == arr[i].id;
      var k :| 0 <= k < i && arr[..i][k] == q;
      assert arr[k].id == arr[i].id;
    }
    if r != i {
      assert 0 <= r < i;
      assert arr[..i][r] == arr[r];
    }
  }

  lemma IdSetSnoc(a: seq<Question>, x: Question)
    ensures IdSet(a + [x]) == IdSet(a) + {x.id}
  {
    assert forall q :: q in a + [x] <==> q in a || q == x;
  }

  /** The scan keeps only questions of the input whose id was unseen. */
  lemma {:induction false} UnseenMembers(arr: seq<Question>, seen: set<string>)
    ensures forall q :: q in Unseen(arr, seen) ==> q in arr && q.id !in seen
  {
    if arr != [] {
      if arr[0].id in seen {
        UnseenMembers(arr[1..], seen);
      } else {
        UnseenMembers(arr[1..], seen + {arr[0].id});
      }
    }
  }

  /** The findIndex filter is the left-to-right scan. */
  lemma {:induction false} KeepFromIsUnseen(arr: seq<Question>, i: nat)
    requires i <= |arr|
    ensures KeepFrom(arr, i) == Unseen(arr[i..], IdSet(arr[..i]))
    decreases |arr| - i
  {
    if i < |arr| {
      KeepFromIsUnseen(arr, i + 1);
      FirstOccurrence(arr, i);
      var seen := IdSet(arr[..i]);
      assert arr[..i + 1] == arr[..i] + [arr[i]];
      IdSetSnoc(arr[..i], arr[i]);
      var tail := arr[i..];
      assert tail[0] == arr[i] && tail[1..] == arr[i + 1..];
      if FindIndex(arr, arr[i].id) == i {
        calc {
          Unseen(tail, seen);
          [arr[i]] + Unseen(arr[i + 1..], seen + {arr[i].id});
          [arr[i]] + KeepFrom(arr, i + 1);
        }
      } else {
        calc {
          Unseen(tail, seen);
          Unseen(arr[i + 1..], seen);
          { assert seen + {arr[i].id} == seen; }
          KeepFrom(arr, i + 1);
        }
      }
    }
  }

  lemma KeepFirstIsUnseen(arr: seq<Question>)
    ensures KeepFirst(arr) == Unseen(arr, {})
  {
    KeepFromIsUnseen(arr, 0);
    assert arr[0..] == arr;
    assert IdSet(arr[..0]) == {};
  }

  predicate DistinctIds(qs: seq<Question>) {
    forall j, k :: 0 <= j < k < |qs| ==> qs[j].id != qs[k].id
  }

  /** The scan yields pairwise distinct ids. */
  lemma {:induction false} UnseenDistinct(arr: seq<Question>, seen: set<string>)
    ensures DistinctIds(Unseen(arr, seen))
  {
    if arr != [] {
      if arr[0].id in seen {
        UnseenDistinct(arr[1..], seen);
        assert Unseen(arr, seen) == Unseen(arr[1..], seen);
      } else {
        var seen' := seen + {arr[0].id};
        UnseenDistinct(arr[1..], seen');
        UnseenMembers(arr[1..], seen');
        var rest := Unseen(arr[1..], seen');
        var r := [arr[0]] + rest;
        assert Unseen(arr, seen) == r;
        forall j, k | 0 <= j < k < |r| ensures r[j].id != r[k].id {
          if j == 0 {
            assert r[k] == rest[k - 1];
            assert rest[k - 1] in rest;
          } else {
            assert r[j] == rest[j - 1] && r[k] == rest[k - 1];
          }
        }
      }
    }
  }

  /** The scan keeps each unseen id's first occurrence. */
  lemma {:induction false} UnseenKeepsFirst(arr: seq<Question>, seen: set<string>, k: int)
    requires 0 <= k < |arr| && arr[k].id !in seen && FindIndex(arr, arr[k].id) == k
    ensures arr[k] in Unseen(arr, seen)
  {
    if k > 0 {
      assert arr[0].id != arr[k].id;
      assert FindIndex(arr[1..], arr[k].id) == k - 1;
      if arr[0].id in seen {
        UnseenKeepsFirst(arr[1..], seen, k - 1);
      } else {
        UnseenKeepsFirst(arr[1..], seen + {arr[0].id}, k - 1);
      }
    }
  }

  /** Scanning a concatenation scans the second part with the first
      part's ids already seen. */
  lemma {:induction false} UnseenAppend(a: seq<Question>, b: seq<Question>, seen: set<string>)
    ensures Unseen(a + b, seen) == Unseen(a, seen) + Unseen(b, seen + IdSet(a))
  {
    if a == [] {
      assert a + b == b;
      assert IdSet(a) == {};
      assert seen + IdSet(a) == seen;
    } else {
      assert (a + b)[1..] == a[1..] + b;
      assert IdSet(a) == {a[0].id} + IdSet(a[1..]);
      if a[0].id in seen {
        UnseenAppend(a[1..], b, seen);
        assert seen + IdSet(a[1..]) == seen + IdSet(a);
      } else {
        UnseenAppend(a[1..], b, seen + {a[0].id});
        assert seen + {a[0].id} + IdSet(a[1..]) == seen + IdSet(a);
      }
    }
  }

  /** The de-duplicated pool in priority order (`ordered`). */
  function Ordered(bank: seq<Question>, c: Config): seq<Question> {
    KeepFirst(Prioritised(bank, c))
  }

  /** No two ordered questions share an id, every ordered question comes
      from the prioritised pools, and each id's first occurrence is the one
      kept. */
  lemma OrderedDeduplicated(bank: seq<Question>, c: Config)
    ensures var o := Ordered(bank, c);
      DistinctIds(o) &&
      (forall q :: q in o ==> q in Prioritised(bank, c)) &&
      forall k :: 0 <= k < |Prioritised(bank, c)| && FindIndex(Prioritised(bank, c), Prioritised(bank, c)[k].id) == k ==>
        Prioritised(bank, c)[k] in o
  {
    var p := Prioritised(bank, c);
    KeepFirstIsUnseen(p);
    UnseenDistinct(p, {});
    UnseenMembers(p, {});
    forall k | 0 <= k < |p| && FindIndex(p, p[k].id) == k ensures p[k] in Ordered(bank, c) {
      UnseenKeepsFirst(p, {}, k);
    }
  }

  /** Weak-pool questions come first: an ordered question whose id is in
      the weak pool is preceded only by such questions. */
  lemma WeakFirst(bank: seq<Question>, c: Config)
    ensures var o := Ordered(bank, c);
      forall j, k :: 0 <= j < k < |o| && o[k].id in IdSet(WeakPool(bank, c)) ==> o[j].id in IdSet(WeakPool(bank, c))
  {
    var w := WeakPool(bank, c);
    var rest := PrimaryPool(bank, c) + BasePool(bank, c) + WildcardPool(bank, c);
    assert Prioritised(bank, c) == w + rest;
    KeepFirstIsUnseen(w + rest);
    UnseenAppend(w, rest, {});
    var o := Ordered(bank, c);
    var head := Unseen(w, {});
    var tail := Unseen(rest, {} + IdSet(w));
    assert o == head + tail;
    UnseenMembers(w, {});
    UnseenMembers(rest, {} + IdSet(w));
    forall k | |head| <= k < |o| ensures o[k].id !in IdSet(w) {
      assert o[k] == tail[k - |head|];
      assert tail[k - |head|] in tail;
    }
    forall j | 0 <= j < |head| ensures o[j].id in IdSet(w) {
      assert o[j] == head[j];
      assert head[j] in head;
    }
  }

  /** `ordered.filter((q) => q.difficulty <= targetDifficulty + 1)` */
  function Filtered(bank: seq<Question>, c: Config): seq<Question> {
    Filter(Ordered(bank, c), (q: Question) => q.difficulty <= TargetDifficulty(c) + 1)
  }

  /** `filtered.length ? filtered : ordered.length ? ordered : QUESTION_BANK` */
  function Source(bank: seq<Question>, c: Config): seq<Question> {
    if |Filtered(bank, c)| > 0 then Filtered(bank, c)
    else if |Ordered(bank, c)| > 0 then Ordered(bank, c)
    else bank
  }

  /** If some ordered question is within one of the target difficulty,
      every question drawn from is; otherwise the whole ordered pool is
      used, and the bank when that is empty. */
  lemma SourceFallbacks(bank: seq<Question>, c: Config)
    ensures (exists q :: q in Ordered(bank, c) && q.difficulty <= TargetDifficulty(c) + 1) ==>
      forall q :: q in Source(bank, c) ==> q in Ordered(bank, c) && q.difficulty <= TargetDifficulty(c) + 1
    ensures (forall q :: q in Ordered(bank, c) ==> q.difficulty > TargetDifficulty(c) + 1) && |Ordered(bank, c)| > 0 ==>
      Source(bank, c) == Ordered(bank, c)
    ensures |Ordered(bank, c)| == 0 ==> Source(bank, c) == bank
  {
    if exists q :: q in Ordered(bank, c) && q.difficulty <= TargetDifficulty(c) + 1 {
      var q :| q in Ordered(bank, c) && q.difficulty <= TargetDifficulty(c) + 1;
      assert q in Filtered(bank, c);
    }
    if |Filtered(bank, c)| > 0 {
      assert Filtered(bank, c)[0] in Filtered(bank, c);
    }
  }

  /** One encounter question: the drawn bank question (None when there was
      nothing to draw from, where the source spreads `undefined`), its
      interaction type, its event tag and the node's patient mix. */
  datatype Slot = Slot(
    question: Option<Question>,
    interactionType: Interaction,
    eventTag: Option<EventTag>,
    patientMix: PatientMix)

  /** `source[(Math.floor(rng() * source.length) + i) % source.length]`
      for the generator state s after the draw; None for an empty source. */
  function QuestionAt(source: seq<Question>, s: int, i: nat): (r: Option<Question>)
    requires 0 <= s < TWO32
    ensures |source| > 0 ==> r.Some? && r.value in source
  {
    if |source| == 0 then None else Some(source[(DrawIndex(s, |source|) + i) % |source|])
  }

  /** `pickInteraction(rng, i)` for the generator state s after the draw. */
  function InteractionAt(s: int, i: nat): Interaction
    requires 0 <= s < TWO32
  {
    INTERACTION_TYPES[(DrawIndex(s, 5) + i) % 5]
  }

  /** `rng() < 0.35 ? TAGS[Math.floor(rng() * 3)] : null` from generator
      state `state` (0.35 = 7/20); returns the state after the draws. */
  function TagDraw(state: int): (r: (Option<EventTag>, int))
    requires 0 <= state < TWO32
    ensures 0 <= r.1 < TWO32
  {
    var s := LcgStep(state);
    if s * 20 < 7 * TWO32 then
      var s' := LcgStep(s);
      (Some(EVENT_TAGS[DrawIndex(s', 3)]), s')
    else
      (None, s)
  }

  /** The draws for slot i from generator state `state`: the question
      index, the interaction type, then the event tag. Returns the state
      after them. */
  function SlotDraw(source: seq<Question>, state: int, i: nat, mix: PatientMix): (r: (Slot, int))
    requires 0 <= state < TWO32
    ensures 0 <= r.1 < TWO32
    ensures r.0.patientMix == mix
    ensures |source| > 0 ==> r.0.question.Some? && r.0.question.value in source
  {
    var s1 := LcgStep(state);
    var s2 := LcgStep(s1);
    var t := TagDraw(s2);
    (Slot(QuestionAt(source, s1, i), InteractionAt(s2, i), t.0, mix), t.1)
  }

  /** Slots i .. n-1, drawn in order from one generator. */
  function DrawSlots(source: seq<Question>, state: int, i: nat, n: int, mix: PatientMix): (r: seq<Slot>)
    requires 0 <= state < TWO32
    ensures |r| == if i < n then n - i else 0
    ensures forall k :: 0 <= k < |r| ==> r[k].patientMix == mix
    ensures |source| > 0 ==> forall k :: 0 <= k < |r| ==> r[k].question.Some? && r[k].question.value in source
    decreases n - i
  {
    if i >= n then []
    else
      var (slot, s) := SlotDraw(source, state, i, mix);
      [slot] + DrawSlots(source, s, i + 1, n, mix)
  }

  datatype Assembled = Assembled(questions: seq<Slot>, targetDifficulty: int, impact: Impact)

  /** `assembleEncounter(config)` as a function of the config and the bank. */
  function AssembleSpec(c: Config, bank: seq<Question>): Assembled {
    Assembled(DrawSlots(Source(bank, c), ToUint32(c.seed), 0, c.encounterLength, c.patientMix),
      TargetDifficulty(c), ModifierImpact(c.nodeModifiers))
  }

  /** The question draw of slot i. */
  method PickQuestion(rng: Lcg, source: seq<Question>, i: nat) returns (q: Option<Question>)
    requires 0 <= rng.value < TWO32
    modifies rng
    ensures rng.value == LcgStep(old(rng.value))
    ensures q == QuestionAt(source, rng.value, i)
  {
    var u := rng.Next();
    DrawIndexExact(rng.value, |source|);
    if |source| == 0 {
      q := None;
    } else {
      q := Some(source[((u * |source| as real).Floor + i) % |source|]);
    }
  }

  /** `pickInteraction(rng, index)` */
  method PickInteraction(rng: Lcg, index: nat) returns (it: Interaction)
    requires 0 <= rng.value < TWO32
    modifies rng
    ensures rng.value == LcgStep(old(rng.value))
    ensures it == InteractionAt(rng.value, index)
  {
    var u := rng.Next();
    DrawIndexExact(rng.value, 5);
    it := INTERACTION_TYPES[((u * 5 as real).Floor + index) % 5];
  }

  /** The event-tag draws of one slot. */
  method PickEventTag(rng: Lcg) returns (tag: Option<EventTag>)
    requires 0 <= rng.value < TWO32
    modifies rng
    ensures (tag, rng.value) == TagDraw(old(rng.value))
  {
    var coin := rng.Next();
    UnitBelow(rng.value, 7, 20);
    if coin < 0.35 {
      var v := rng.Next();
      DrawIndexExact(rng.value, 3);
      tag := Some(EVENT_TAGS[(v * 3 as real).Floor]);
    } else {
      tag := None;
    }
  }

  /** The body of the draw loop for slot i, in the source's evaluation
      order: the question, then `interactionType`, then `eventTag`. */
  method DrawSlot(rng: Lcg, source: seq<Question>, i: nat, mix: PatientMix) returns (slot: Slot)
    requires 0 <= rng.value < TWO32
    modifies rng
    ensures 0 <= rng.value < TWO32
    ensures (slot, rng.value) == SlotDraw(source, old(rng.value), i, mix)
  {
    var q := PickQuestion(rng, source, i);
    var it := PickInteraction(rng, i);
    var tag := PickEventTag(rng);
    slot := Slot(q, it, tag, mix);
  }

  /** `assembleEncounter`: the draw loop over `encounterLength` slots. */
  method AssembleEncounter(c: Config, bank: seq<Question>) returns (e: Assembled)
    ensures e == AssembleSpec(c, bank)
    ensures |e.questions| == MaxInt(0, c.encounterLength)
    ensures e.targetDifficulty == TargetDifficulty(c) && 1 <= e.targetDifficulty <= 5
    ensures forall k :: 0 <= k < |e.questions| ==> e.questions[k].patientMix == c.patientMix
    ensures |Source(bank, c)| > 0 ==>
      forall k :: 0 <= k < |e.questions| ==> e.questions[k].question.Some? && e.questions[k].question.value in Source(bank, c)
  {
    var rng := new Lcg(c.seed);
    var impact := ModifierImpact(c.nodeModifiers);
    var target := Clamp(1, 5, c.difficultyBand + impact.difficultyShift);
    var source := Source(bank, c);
    var questions: seq<Slot> := [];
    var i := 0;
    while i < c.encounterLength
      invariant 0 <= i <= MaxInt(0, c.encounterLength)
      invariant 0 <= rng.value < TWO32
      invariant questions + DrawSlots(source, rng.value, i, c.encounterLength, c.patientMix) ==
        DrawSlots(source, ToUint32(c.seed), 0, c.encounterLength, c.patientMix)
    {
      ghost var before := rng.value;
      var slot := DrawSlot(rng, source, i, c.patientMix);
      assert DrawSlots(source, before, i, c.encounterLength, c.patientMix) ==
        [slot] + DrawSlots(source, rng.value, i + 1, c.encounterLength, c.patientMix);
      questions := questions + [slot];
      i := i + 1;
    }
    e := Assembled(questions, target, impact);
  }
}
