/**
 A batch for which question selection fails: ten accepted general questions, none of them deeper.
 */
module LightBatchCase {
  import opened Wrappers
  import opened QuestionPool

  /** Ten unlike questions a model may write: each starts with a letter of its own. */
  function LightPrompt(i: nat): string
    requires i < 10
  {
    match i
    case 0 => "Any plan for today?"
    case 1 => "Bath or shower, love?"
    case 2 => "Cake for breakfast?"
    case 3 => "Dance in the rain?"
    case 4 => "Early walk on Sunday?"
    case 5 => "Fruit or biscuits?"
    case 6 => "Guess my next song?"
    case 7 => "How was lunch, dear?"
    case 8 => "Ice skating in July?"
    case _ => "Jam with what bread?"
  }

  /** All light, themed and general: the batch also misses the two intimacy questions it was asked for. */
  function LightBatch(): (batch: seq<Candidate>)
    ensures |batch| == 10
    ensures forall i :: 0 <= i < 10 ==>
              batch[i] == Candidate(i, FreeText, Everyday, Light, Themed, false, LightPrompt(i), ["everyday"])
  {
    seq(10, i requires 0 <= i < 10 =>
          Candidate(i, FreeText, Everyday, Light, Themed, false, LightPrompt(i), ["everyday"]))
  }

  /** Each question passes the rules against the recent prompts and those before it. */
  predicate PassesInTurn(batch: seq<Candidate>, recent: seq<string>, rules: Rules) {
    forall i :: 0 <= i < |batch| ==> rules(batch[i], recent + Prompts(batch[..i]))
  }

  /** A batch is accepted whole exactly when its questions pass in turn. */
  lemma {:induction false} PassingBatchIsAccepted(batch: seq<Candidate>, recent: seq<string>, rules: Rules)
    requires PassesInTurn(batch, recent, rules)
    ensures Accepted(batch, recent, rules) == batch
  {
    if batch != [] {
      var rest := batch[1..];
      assert recent + Prompts(batch[..0]) == recent;
      forall i | 0 <= i < |rest| ensures rules(rest[i], recent + [batch[0].prompt] + Prompts(rest[..i])) {
        assert recent + [batch[0].prompt] + Prompts(rest[..i]) == recent + Prompts(batch[..i + 1]);
      }
      PassingBatchIsAccepted(rest, recent + [batch[0].prompt], rules);
    }
  }

  lemma {:induction false} GeneralBatch(batch: seq<Candidate>)
    requires forall i :: 0 <= i < |batch| ==> !batch[i].intimacy
    ensures Having(batch, false) == batch
  {
    if batch != [] { GeneralBatch(batch[1..]); }
  }

  /** Any ten light general questions that pass the rules in turn leave no day. */
  lemma LightGeneralBatchFails(batch: seq<Candidate>, curated: seq<Candidate>, ordinal: nat, recent: seq<string>,
                               theme: Option<string>, rules: Rules)
    requires |batch| >= 10 && PassesInTurn(batch, recent, rules)
    requires forall i :: 0 <= i < |batch| ==> batch[i].depth == Light && !batch[i].intimacy
    ensures !Publishable(AcceptedOf(Some(batch), recent, rules), curated, ordinal, recent, theme, rules)
  {
    PassingBatchIsAccepted(batch, recent, rules);
    GeneralBatch(batch);
    TenWithoutDeeperFail(batch, curated, ordinal, recent, theme, rules);
  }

  /** The failing input: a batch of these ten, once the rules accept them, whatever the bank holds. */
  lemma TenLightQuestionsFail(curated: seq<Candidate>, ordinal: nat, recent: seq<string>, theme: Option<string>, rules: Rules)
    requires PassesInTurn(LightBatch(), recent, rules)
    ensures !Publishable(AcceptedOf(Some(LightBatch()), recent, rules), curated, ordinal, recent, theme, rules)
  {
    LightGeneralBatchFails(LightBatch(), curated, ordinal, recent, theme, rules);
  }

  /** The form of a question: long enough, not too long, and asked. */
  predicate WellAsked(prompt: string) {
    12 <= |prompt| <= 240 && prompt[|prompt| - 1] == '?'
  }

  /** Checks of form, and every prompt refused that starts like one already seen: no question passes twice. */
  function StrictRules(): Rules {
    (item: Candidate, seen: seq<string>) =>
      && WellAsked(item.prompt)
      && item.intimacy == (item.category == Intimacy)
      && forall i :: 0 <= i < |seen| ==> seen[i] != "" && seen[i][0] != item.prompt[0]
  }

  lemma LightPromptsAreUnlike(i: nat)
    requires i < 10
    ensures WellAsked(LightPrompt(i)) && LightPrompt(i)[0] as int == 'A' as int + i
  {
    if i < 5 {
      assert i == 0 || i == 1 || i == 2 || i == 3 || i == 4;
    } else {
      assert i == 5 || i == 6 || i == 7 || i == 8 || i == 9;
    }
  }

  /** The ten pass rules under which no question passes twice, so such a batch can be accepted. */
  lemma TheTenPassStrictRules()
    ensures PassesInTurn(LightBatch(), [], StrictRules())
    ensures forall item: Candidate, seen: seq<string> :: StrictRules()(item, seen) ==> item.prompt !in seen
  {
    var (batch, rules) := (LightBatch(), StrictRules());
    forall i | 0 <= i < 10 ensures rules(batch[i], [] + Prompts(batch[..i])) {
      LightPromptsAreUnlike(i);
      forall j | 0 <= j < i ensures LightPrompt(j) != "" && LightPrompt(j)[0] != LightPrompt(i)[0] {
        LightPromptsAreUnlike(j);
      }
    }
  }
}
