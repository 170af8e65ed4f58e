/** How a run finishes: how many tries a finish can take, and which open items its answer discloses. */
module AgentFinish {
  import opened Common
  import opened AgentStates
  import opened AgentRun
  import Caveats
  import Planning
  import Retry

  /** The items the plan still has open; none when there is no plan. */
  function Open(s: RunState): seq<string>
  {
    if s.plan.None? then [] else Planning.Missing(s.plan.value, s.observations)
  }

  function Min(a: int, b: int): int { if a <= b then a else b }

  /** How many iterations a model that only ever finishes still needs. */
  function FinishTries(l: Limits, s: RunState): nat
  {
    var spare := Min(l.maxRedirects - s.redirects, l.maxIterations - s.iterations - 2);
    if Open(s) == [] || s.toolCalls >= l.maxToolCalls || spare <= 0 then 1 else 1 + spare
  }

  lemma {:induction false} FailureAddsNoOutput(observations: seq<Planning.Observation>, o: Planning.Observation, tool: string)
    requires !o.success
    ensures Planning.Outputs(observations + [o], tool) == Planning.Outputs(observations, tool)
  {
    assert (observations + [o])[..|observations|] == observations;
  }

  lemma RedirectKeepsOpen(s: RunState, iterations: nat, redirects: nat)
    ensures var s' := Observed(s.(iterations := iterations, redirects := redirects), "investigation_plan", false, Planning.NotDict);
      Open(s') == Open(s)
  {
    var o := Planning.Observation("investigation_plan", false, Planning.NotDict, iterations, |s.observations| + 1);
    FailureAddsNoOutput(s.observations, o, "create_chart");
  }

  ghost predicate OnlyFinishes(policy: Retry.RetryPolicy, script: Script)
  {
    forall k :: ModelAnswers(policy, script(k)) && script(k).action.Finish?
  }

  lemma OneFinish(cfg: Config, policy: Retry.RetryPolicy, s: RunState, turn: Turn)
    requires ModelAnswers(policy, turn) && turn.action.Finish? && s.status == Running && !Over(s)
    ensures var (s', effect) := Iterated(cfg, policy, s, turn);
      var redirected := Open(s) != [] && s.toolCalls < cfg.limits.maxToolCalls
        && s.redirects < cfg.limits.maxRedirects && cfg.limits.maxIterations - s.iterations >= 3;
      && effect == Quiet && s'.iterations == s.iterations + 1
      && (redirected ==>
          !Over(s') && s'.status == Running && s'.redirects == s.redirects + 1 && s'.toolCalls == s.toolCalls && Open(s') == Open(s))
      && (!redirected ==>
          s'.status == Completed && s'.completed && s'.stopReason == Some(ByCompletion) && s'.redirects == s.redirects
          && s'.finalAnswer == Some(turn.action.answer) && s'.caveats == FinalCaveats(cfg.text, turn.action.stated, Open(s)))
  {
    RedirectKeepsOpen(s, s.iterations + 1, s.redirects + 1);
    hide Planning.Missing, FinalCaveats, ModelAnswers;
  }

  lemma TriesStep(cfg: Config, policy: Retry.RetryPolicy, s: RunState, turn: Turn)
    requires ModelAnswers(policy, turn) && turn.action.Finish? && s.status == Running && !Over(s)
    requires s.iterations < cfg.limits.maxIterations && s.redirects <= cfg.limits.maxRedirects
    ensures var (s', effect) := Iterated(cfg, policy, s, turn);
      && !effect.Crashed? && s'.iterations == s.iterations + 1
      && (Over(s') ==> FinishTries(cfg.limits, s) == 1)
      && (!Over(s') ==>
          && s'.status == Running && s'.iterations < cfg.limits.maxIterations
          && s'.redirects == s.redirects + 1 <= cfg.limits.maxRedirects
          && Open(s') == Open(s)
          && FinishTries(cfg.limits, s) == 1 + FinishTries(cfg.limits, s'))
  {
    OneFinish(cfg, policy, s, turn);
    hide Iterated, Open, FinalCaveats, ModelAnswers;
  }

  function StatedAt(script: Script, k: nat): seq<string>
  {
    if script(k).action.Finish? then script(k).action.stated else []
  }

  ghost predicate FinishedAs(cfg: Config, s: RunState, script: Script, out: Outcome, tries: nat)
  {
    && tries >= 1
    && out.state.status == Completed && out.state.stopReason == Some(ByCompletion)
    && out.state.iterations == s.iterations + tries && |out.effects| == tries
    && out.state.redirects == s.redirects + tries - 1
    && out.state.caveats == FinalCaveats(cfg.text, StatedAt(script, s.iterations + tries - 1), Open(s))
  }

  ghost predicate CanFinish(cfg: Config, s: RunState)
  {
    s.status == Running && !Over(s) && s.iterations < cfg.limits.maxIterations && s.redirects <= cfg.limits.maxRedirects
  }

  lemma LastRound(cfg: Config, policy: Retry.RetryPolicy, s: RunState, script: Script)
    requires CanFinish(cfg, s) && OnlyFinishes(policy, script) && Over(Iterated(cfg, policy, s, script(s.iterations)).0)
    ensures FinishedAs(cfg, s, script, Ran(cfg, policy, s, script), FinishTries(cfg.limits, s))
  {
    var turn := script(s.iterations);
    assert ModelAnswers(policy, turn) && turn.action.Finish?;
    OneFinish(cfg, policy, s, turn);
    TriesStep(cfg, policy, s, turn);
    hide Iterated, Open, FinalCaveats, ModelAnswers, OnlyFinishes, FinishTries;
  }

  lemma RedirectRound(cfg: Config, policy: Retry.RetryPolicy, s: RunState, script: Script)
    requires CanFinish(cfg, s) && OnlyFinishes(policy, script) && !Over(Iterated(cfg, policy, s, script(s.iterations)).0)
    ensures var s' := Iterated(cfg, policy, s, script(s.iterations)).0;
      && CanFinish(cfg, s') && s'.iterations == s.iterations + 1 && s'.redirects == s.redirects + 1 && Open(s') == Open(s)
      && FinishTries(cfg.limits, s) == 1 + FinishTries(cfg.limits, s')
      && Ran(cfg, policy, s, script).state == Ran(cfg, policy, s', script).state
      && |Ran(cfg, policy, s, script).effects| == 1 + |Ran(cfg, policy, s', script).effects|
  {
    var turn := script(s.iterations);
    assert ModelAnswers(policy, turn) && turn.action.Finish?;
    TriesStep(cfg, policy, s, turn);
    hide Iterated, Open, ModelAnswers, OnlyFinishes, FinishTries;
  }

  lemma {:induction false} FinishRuns(cfg: Config, policy: Retry.RetryPolicy, s: RunState, script: Script)
    requires CanFinish(cfg, s) && OnlyFinishes(policy, script)
    ensures FinishedAs(cfg, s, script, Ran(cfg, policy, s, script), FinishTries(cfg.limits, s))
    decreases cfg.limits.maxIterations - s.iterations
  {
    hide Iterated, Open, FinalCaveats, ModelAnswers, FinishTries, OnlyFinishes, Over, Ran, StatedAt;
    if Over(Iterated(cfg, policy, s, script(s.iterations)).0) {
      LastRound(cfg, policy, s, script);
    } else {
      RedirectRound(cfg, policy, s, script);
      FinishRuns(cfg, policy, Iterated(cfg, policy, s, script(s.iterations)).0, script);
    }
  }

  /**
   From a running state with an iteration left, a model that keeps choosing to finish completes
   the run in exactly this many iterations: at most one more than the redirects left, never
   more than the iterations left, and never stopped by the iteration limit.
   */
  lemma FinishCompletes(cfg: Config, policy: Retry.RetryPolicy, s: RunState, script: Script)
    requires CanFinish(cfg, s) && OnlyFinishes(policy, script)
    ensures var out, tries := Ran(cfg, policy, s, script), FinishTries(cfg.limits, s);
      && FinishedAs(cfg, s, script, out, tries)
      && tries <= cfg.limits.maxRedirects - s.redirects + 1
      && out.state.redirects <= cfg.limits.maxRedirects && out.state.iterations <= cfg.limits.maxIterations
  {
    FinishRuns(cfg, policy, s, script);
    hide Ran, Open, FinalCaveats, ModelAnswers;
  }

  // ---- what an answer with open items says of them ----

  /** The line is short enough to print, and it or one that reads the same is printed. */
  predicate Disclosed(text: Caveats.TextRules, printed: seq<string>, line: string)
  {
    Caveats.Fits(text, Caveats.Text(line)) && Caveats.Key(text, Caveats.Strip(text, line)) in Caveats.Keys(text, printed)
  }

  ghost predicate AllDisclosed(text: Caveats.TextRules, printed: seq<string>, lines: seq<string>)
  {
    forall i :: 0 <= i < |lines| ==> Disclosed(text, printed, lines[i])
  }

  ghost predicate AllFit(text: Caveats.TextRules, lines: seq<string>)
  {
    forall i :: 0 <= i < |lines| ==> Caveats.Fits(text, Caveats.Text(lines[i]))
  }

  /** The caveats the model states arrive normalized. */
  predicate Normalized(text: Caveats.TextRules, stated: seq<string>)
  {
    Caveats.Normalize(text, Caveats.AsValues(stated)) == stated
  }

  /** What the model stated comes first and unchanged. */
  lemma StatedSurvive(text: Caveats.TextRules, stated: seq<string>, missing: seq<string>)
    requires Normalized(text, stated)
    ensures stated <= FinalCaveats(text, stated, missing) && |FinalCaveats(text, stated, missing)| <= Caveats.MAX_CAVEATS
  {
    Caveats.StatedStayFirst(text, stated, GapLines(missing));
    Caveats.NormalizeBounded(text, Caveats.AsValues(stated + GapLines(missing)));
    Caveats.NormalizeBounded(text, Caveats.AsValues(stated));
  }

  lemma SmallerSubset(a: set<string>, b: set<string>)
    requires a <= b
    ensures |a| <= |b|
  {
    if a != {} {
      var x :| x in a;
      SmallerSubset(a - {x}, b - {x});
    }
  }

  lemma {:induction false} KeysCount(text: Caveats.TextRules, printed: seq<string>)
    ensures |Caveats.Keys(text, printed)| <= |printed|
  {
    if printed == [] {
      assert Caveats.Keys(text, printed) == {};
    } else {
      var n := |printed| - 1;
      KeysCount(text, printed[..n]);
      Caveats.KeysSnoc(text, printed[..n], printed[n]);
      assert printed == printed[..n] + [printed[n]];
    }
  }

  lemma StatedFit(text: Caveats.TextRules, stated: seq<string>, missing: seq<string>, i: nat)
    requires Normalized(text, stated) && i < |stated|
    ensures Caveats.Key(text, Caveats.Strip(text, stated[i])) in Caveats.Keys(text, FinalCaveats(text, stated, missing))
  {
    StatedSurvive(text, stated, missing);
    Caveats.NormalizeBounded(text, Caveats.AsValues(stated));
    assert Caveats.Strip(text, stated[i]) == stated[i];
    assert Caveats.Key(text, FinalCaveats(text, stated, missing)[i]) == Caveats.Key(text, stated[i]);
  }

  lemma DisclosedNeedsRoom(text: Caveats.TextRules, stated: seq<string>, missing: seq<string>)
    requires Normalized(text, stated) && missing != []
    requires AllDisclosed(text, FinalCaveats(text, stated, missing), GapLines(missing))
    ensures AllFit(text, GapLines(missing))
    ensures |Caveats.FittingKeys(text, Caveats.AsValues(stated + GapLines(missing)))| <= Caveats.MAX_CAVEATS
  {
    var lines := GapLines(missing);
    var vs := Caveats.AsValues(stated + lines);
    var printed := FinalCaveats(text, stated, missing);
    hide Caveats.Key, Caveats.Strip, Normalized, FinalCaveats;
    forall key | key in Caveats.FittingKeys(text, vs)
      ensures key in Caveats.Keys(text, printed)
    {
      var i :| 0 <= i < |vs| && Caveats.Fits(text, vs[i]) && Caveats.Key(text, Caveats.Strip(text, vs[i].text)) == key;
      if i < |stated| {
        StatedFit(text, stated, missing, i);
      } else {
        assert vs[i].text == lines[i - |stated|];
        assert Disclosed(text, printed, lines[i - |stated|]);
      }
    }
    hide Caveats.Keys, Caveats.FittingKeys;
    SmallerSubset(Caveats.FittingKeys(text, vs), Caveats.Keys(text, printed));
    KeysCount(text, printed);
    StatedSurvive(text, stated, missing);
  }

  lemma RoomDiscloses(text: Caveats.TextRules, stated: seq<string>, missing: seq<string>)
    requires missing != [] && AllFit(text, GapLines(missing))
    requires |Caveats.FittingKeys(text, Caveats.AsValues(stated + GapLines(missing)))| <= Caveats.MAX_CAVEATS
    ensures AllDisclosed(text, FinalCaveats(text, stated, missing), GapLines(missing))
  {
    var lines := GapLines(missing);
    var vs := Caveats.AsValues(stated + lines);
    Caveats.DistinctMeaning(text, vs);
    assert FinalCaveats(text, stated, missing) == Caveats.Distinct(text, vs);
    hide Caveats.Key, Caveats.Strip, Caveats.Distinct, FinalCaveats;
    forall i | 0 <= i < |lines|
      ensures Disclosed(text, Caveats.Distinct(text, vs), lines[i])
    {
      assert vs[|stated| + i].text == lines[i];
    }
  }

  /**
   A completed answer discloses every open item exactly when each item's line fits the length
   bound and there are at most ten different caveats and lines in all.
   */
  lemma AllGapsDisclosedIff(text: Caveats.TextRules, stated: seq<string>, missing: seq<string>)
    requires Normalized(text, stated) && missing != []
    ensures AllDisclosed(text, FinalCaveats(text, stated, missing), GapLines(missing)) <==>
      && AllFit(text, GapLines(missing))
      && |Caveats.FittingKeys(text, Caveats.AsValues(stated + GapLines(missing)))| <= Caveats.MAX_CAVEATS
  {
    hide AllFit, Caveats.FittingKeys, FinalCaveats, Normalized;
    if AllDisclosed(text, FinalCaveats(text, stated, missing), GapLines(missing)) {
      DisclosedNeedsRoom(text, stated, missing);
    } else if AllFit(text, GapLines(missing)) && |Caveats.FittingKeys(text, Caveats.AsValues(stated + GapLines(missing)))| <= Caveats.MAX_CAVEATS {
      RoomDiscloses(text, stated, missing);
    }
  }

  /** The line of a question of more than 450 characters is too long to print, so an answer open only on it says nothing of it. */
  lemma LongQuestionHidden(text: Caveats.TextRules, stated: seq<string>, question: string)
    requires Normalized(text, stated)
    requires !text.isSpace('I') && |question| > 450 && !text.isSpace(question[|question| - 1])
    ensures var missing := ["Question not yet answered or blocked: " + question];
      FinalCaveats(text, stated, missing) == stated && !AllDisclosed(text, stated, GapLines(missing))
  {
    var line := "Incomplete: " + ("Question not yet answered or blocked: " + question);
    var missing := ["Question not yet answered or blocked: " + question];
    assert GapLines(missing) == [line];
    assert line[0] == 'I' && line[|line| - 1] == question[|question| - 1];
    assert Caveats.Strip(text, line) == line;
    assert !Caveats.Fits(text, Caveats.Text(line));
    var vs := Caveats.AsValues(stated);
    assert Caveats.AsValues(stated + [line]) == vs + [Caveats.Text(line)] + [];
    Caveats.UnfitDropped(text, vs, Caveats.Text(line), []);
    assert vs + [] == vs;
    assert !Disclosed(text, stated, GapLines(missing)[0]);
  }

  /** Ten stated caveats leave no room: the answer says nothing of any open item that they do not happen to state themselves. */
  lemma TenStatedHideGaps(text: Caveats.TextRules, stated: seq<string>, missing: seq<string>)
    requires Normalized(text, stated) && |stated| == Caveats.MAX_CAVEATS
    ensures FinalCaveats(text, stated, missing) == stated
    ensures forall i :: 0 <= i < |missing| && NewTo(text, stated, GapLines(missing)[i]) ==>
      !Disclosed(text, FinalCaveats(text, stated, missing), GapLines(missing)[i])
  {
    StatedSurvive(text, stated, missing);
  }

  /** Neither the line nor one that reads the same is among these caveats. */
  predicate NewTo(text: Caveats.TextRules, printed: seq<string>, line: string)
  {
    Caveats.Key(text, Caveats.Strip(text, line)) !in Caveats.Keys(text, printed)
  }

  /** Blanks are the white space and nothing is folded. */
  const PLAIN: Caveats.TextRules := Caveats.TextRules(c => c == ' ', s => s)

  const DIGITS: seq<string> := ["0", "1", "2", "3", "4", "5", "6", "7", "8", "9"]

  lemma WordKey(word: string)
    requires word != [] && word[0] != ' ' && word[|word| - 1] != ' '
    ensures Caveats.Strip(PLAIN, word) == word
    ensures Caveats.Key(PLAIN, word) != [] && Caveats.Key(PLAIN, word)[0] == word[0]
  {
  }

  lemma DigitsDiffer()
    ensures |DIGITS| == 10
    ensures forall i :: 0 <= i < |DIGITS| ==> |DIGITS[i]| == 1 && DIGITS[i][0] != ' ' && DIGITS[i][0] != 'I'
    ensures forall i, j :: 0 <= i < j < |DIGITS| ==> DIGITS[i][0] != DIGITS[j][0]
  {
  }

  lemma DigitsKept()
    ensures Caveats.Clean(PLAIN, DIGITS)
    ensures forall i :: 0 <= i < |DIGITS| ==> Caveats.Key(PLAIN, DIGITS[i]) != [] && Caveats.Key(PLAIN, DIGITS[i])[0] != 'I'
  {
    DigitsDiffer();
    hide DIGITS;
    forall i | 0 <= i < |DIGITS|
      ensures Caveats.Fits(PLAIN, Caveats.Text(DIGITS[i])) && Caveats.Strip(PLAIN, DIGITS[i]) == DIGITS[i]
      ensures Caveats.Key(PLAIN, DIGITS[i]) != [] && Caveats.Key(PLAIN, DIGITS[i])[0] == DIGITS[i][0]
    {
      WordKey(DIGITS[i]);
    }
    hide Caveats.Fits, Caveats.Strip, Caveats.Key;
    hide PLAIN;
  }

  /** A concrete answer: ten one-character caveats are stated, one question is open, and nothing of it is disclosed. */
  lemma TenDigitsHideAGap()
    ensures Normalized(PLAIN, DIGITS)
    ensures var missing := ["Question not yet answered or blocked: why"];
      FinalCaveats(PLAIN, DIGITS, missing) == DIGITS && !AllDisclosed(PLAIN, DIGITS, GapLines(missing))
  {
    DigitsKept();
    Caveats.DistinctOfClean(PLAIN, DIGITS);
    assert Normalized(PLAIN, DIGITS) by { hide Caveats.Distinct; }
    var missing := ["Question not yet answered or blocked: why"];
    var line := GapLines(missing)[0];
    assert |line| > 0 && line[0] == 'I' && line[|line| - 1] == 'y';
    WordKey(line);
    hide Caveats.Fits, Caveats.Strip, Caveats.Key, Normalized, FinalCaveats, GapLines, Caveats.Clean;
    hide PLAIN;
    assert NewTo(PLAIN, DIGITS, line);
    TenStatedHideGaps(PLAIN, DIGITS, missing);
    assert !Disclosed(PLAIN, DIGITS, GapLines(missing)[0]);
  }

  /** Reconciled and accepted with nothing open, a completed run's plan is backed by what the run did. */
  lemma CompletedPlanIsBacked(cfg: Config, policy: Retry.RetryPolicy, s: RunState, turn: Turn)
    requires ModelAnswers(policy, turn) && turn.action.Finish? && s.status == Running && !Over(s)
    requires Evidenced(s) && s.plan.Some? && Open(s) == []
    ensures var s' := Iterated(cfg, policy, s, turn).0;
      && s'.status == Completed && s'.plan == s.plan && s'.observations == s.observations
      && (forall i :: 0 <= i < |s.plan.value.questions| ==>
          || s.plan.value.questions[i].status == Planning.QuestionBlocked
          || (s.plan.value.questions[i].evidenceIds != []
              && forall id :: id in s.plan.value.questions[i].evidenceIds ==> Planning.ProducedQuery(s.observations, id)))
  {
    var l, counted := cfg.limits, s.(iterations := s.iterations + 1);
    assert Evaluation(l, counted) == Planning.FinishEvaluation(true, []);
    Planning.AcceptedFinishIsBacked(
      s.plan.value, s.observations, l.maxIterations - counted.iterations, l.maxToolCalls - s.toolCalls, s.redirects, l.maxRedirects);
    hide ModelAnswers, Planning.Supported;
  }
}
