/** The contributor tool that expands the question bank with numbered
    variants (generator.ts). The i-th variant cycles through the six
    domains, the four prompt types and difficulties 1..5, copies the first
    bank question that matches all three (or the first question of the
    bank) and numbers its id and stem. */
module StudyGenerator {
  import opened Wrappers
  import opened Text
  import opened StudyEngine

  const DOMAIN_CYCLE: seq<Domain> := [Airway, Cardiology, Trauma, Medical, Ops, Pharm]
  const PROMPT_CYCLE: seq<PromptType> := [First, Next, Suspect, BestAction]

  function DomainAt(i: nat): Domain { DOMAIN_CYCLE[i % |DOMAIN_CYCLE|] }
  function PromptAt(i: nat): PromptType { PROMPT_CYCLE[i % |PROMPT_CYCLE|] }

  function DifficultyAt(i: nat): (d: int)
    ensures 1 <= d <= 5
  {
    i % 5 + 1
  }

  predicate Matches(q: Question, d: Domain, p: PromptType, difficulty: int)
  {
    q.domain == d && q.promptType == p && q.difficulty == difficulty
  }

  /** `bank.find(...)`: the first matching question, if any. */
  function FindMatch(bank: seq<Question>, d: Domain, p: PromptType, difficulty: int): (r: Option<Question>)
    ensures r.None? <==> forall j :: 0 <= j < |bank| ==> !Matches(bank[j], d, p, difficulty)
    ensures r.Some? ==> Matches(r.value, d, p, difficulty)
    ensures r.Some? ==>
      (exists j :: 0 <= j < |bank| && bank[j] == r.value &&
        forall k :: 0 <= k < j ==> !Matches(bank[k], d, p, difficulty))
  {
    if bank == [] then None
    else if Matches(bank[0], d, p, difficulty) then Some(bank[0])
    else
      var r := FindMatch(bank[1..], d, p, difficulty);
      assert forall j :: 0 < j < |bank| ==> bank[j] == bank[1..][j - 1];
      r
  }

  /** The question the i-th variant is made from. */
  function BaseFor(bank: seq<Question>, i: nat): (q: Question)
    requires bank != []
    ensures q in bank
  {
    match FindMatch(bank, DomainAt(i), PromptAt(i), DifficultyAt(i))
    case Some(m) => m
    case None => bank[0]
  }

  /** The base with a numbered id and stem; every other field is copied. */
  function Variant(base: Question, i: nat): (q: Question)
  {
    base.(id := base.id + "-v-" + DecimalString(i + 1),
          stem := base.stem + " (Variant " + DecimalString(i + 1) + ")")
  }

  /** `expandQuestionBank(targetCount)` over the bank `bank`. An empty bank
      has no first question to fall back on, so asking it for any variant
      fails. */
  method ExpandQuestionBank(bank: seq<Question>, targetCount: int) returns (r: Option<seq<Question>>)
    ensures r.None? <==> bank == [] && targetCount > 0
    ensures r.Some? ==> |r.value| == (if targetCount > 0 then targetCount else 0)
    ensures r.Some? ==> forall i :: 0 <= i < |r.value| ==> bank != [] && r.value[i] == Variant(BaseFor(bank, i), i)
  {
    if targetCount <= 0 {
      return Some([]);
    }
    if bank == [] {
      return None;
    }
    var out: seq<Question> := [];
    for i := 0 to targetCount
      invariant |out| == i
      invariant forall k :: 0 <= k < i ==> out[k] == Variant(BaseFor(bank, k), k)
    {
      var base := bank[0];
      var found := FindMatch(bank, DomainAt(i), PromptAt(i), DifficultyAt(i));
      if found.Some? {
        base := found.value;
      }
      out := out + [Variant(base, i)];
    }
    return Some(out);
  }

  /** The characters after the last '-' of `s`. */
  function AfterLastDash(s: string): (r: string)
    ensures '-' !in r
  {
    if s == [] then []
    else if s[|s| - 1] == '-' then []
    else AfterLastDash(s[..|s| - 1]) + [s[|s| - 1]]
  }

  /** A dash-free suffix appended after "-v-" is recovered whatever the
      prefix is. */
  lemma {:induction false} AfterLastDashOfVariant(x: string, d: string)
    requires '-' !in d
    ensures AfterLastDash(x + "-v-" + d) == d
  {
    var s := x + "-v-" + d;
    if d == [] {
      assert s[|s| - 1] == '-';
    } else {
      var d' := d[..|d| - 1];
      assert s[..|s| - 1] == x + "-v-" + d';
      assert '-' !in d' by {
        forall j | 0 <= j < |d'| ensures d'[j] != '-' {
          assert d'[j] == d[j];
        }
      }
      AfterLastDashOfVariant(x, d');
      assert d == d' + [d[|d| - 1]];
    }
  }

  lemma DecimalHasNoDash(n: nat)
    ensures '-' !in DecimalString(n)
  {
  }

  /** Variants at different positions have different ids, even when they
      share a base question and whatever the bank's ids look like. */
  lemma VariantIdsDistinct(a: Question, b: Question, i: nat, j: nat)
    requires i != j
    ensures Variant(a, i).id != Variant(b, j).id
  {
    if Variant(a, i).id == Variant(b, j).id {
      DecimalHasNoDash(i + 1);
      DecimalHasNoDash(j + 1);
      AfterLastDashOfVariant(a.id, DecimalString(i + 1));
      AfterLastDashOfVariant(b.id, DecimalString(j + 1));
      DecimalInjective(i + 1, j + 1);
    }
  }

  /** When the bank has a question for every slot, the variants cycle
      through the six domains, the four prompt types and difficulties 1..5. */
  lemma VariantsCycle(bank: seq<Question>, i: nat)
    requires FindMatch(bank, DomainAt(i), PromptAt(i), DifficultyAt(i)).Some?
    ensures var v := Variant(BaseFor(bank, i), i);
      v.domain == DomainAt(i) && v.promptType == PromptAt(i) && v.difficulty == DifficultyAt(i)
  {
  }

  /** Sixty is a whole number of domain, prompt and difficulty cycles. */
  lemma SixtyIsAPeriod(i: nat)
    ensures (i + 60) % 6 == i % 6 && (i + 60) % 4 == i % 4 && (i + 60) % 5 == i % 5
  {
  }

  /** Variant i and variant i + 60 come from the same base question. */
  lemma CyclePeriod(bank: seq<Question>, i: nat)
    requires bank != []
    ensures BaseFor(bank, i + 60) == BaseFor(bank, i)
  {
    SixtyIsAPeriod(i);
    assert |DOMAIN_CYCLE| == 6 && |PROMPT_CYCLE| == 4;
  }
}
