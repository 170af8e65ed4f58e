/**
 Investigation plans and what the runtime accepts of them
 (backend/app/contracts/investigation.py and backend/app/runtime/planning.py).
 */
module Planning {
  import opened Common

  datatype RequestClass = SimpleFact | Comparison | Investigation | ExecutiveReport | DetailedReport
  datatype QuestionStatus = QuestionPending | QuestionAnswered | QuestionBlocked
  datatype OutputStatus = OutputPending | OutputCreated | OutputSkipped | OutputBlocked
  datatype OutputKind = Kpi | Line | Bar | StackedBar | Area | Pie | Scatter | Table

  datatype Question = Question(id: string, question: string, status: QuestionStatus, evidenceIds: seq<string>)

  datatype PlannedOutput = PlannedOutput(
    id: string, kind: OutputKind, purpose: string, required: bool, status: OutputStatus, displayId: Option<string>)

  datatype Plan = Plan(
    objective: string, requestClass: RequestClass, questions: seq<Question>, outputs: seq<PlannedOutput>, maximumDisplays: nat)

  /**
   What a tool returned, down to the keys the runtime reads. A key that is missing or of the
   wrong type is None; `chartType` is the type inside the chart when both are well formed.
   */
  datatype ToolOutput =
    | NotDict
    | Dict(queryId: Option<string>, chartId: Option<string>, chartType: Option<string>, plan: Option<Plan>)

  datatype Observation = Observation(source: string, success: bool, output: ToolOutput, iteration: nat, sequence: nat)

  // ---- the evidence a run produced ----

  predicate SuccessfulOutputOf(o: Observation, tool: string)
  {
    o.source == tool && o.success && o.output.Dict?
  }

  /** The successful outputs of one tool, in run order. */
  function Outputs(observations: seq<Observation>, tool: string): seq<ToolOutput>
  {
    if observations == [] then []
    else
      var n := |observations| - 1;
      Outputs(observations[..n], tool) + if SuccessfulOutputOf(observations[n], tool) then [observations[n].output] else []
  }

  method SuccessfulOutputs(observations: seq<Observation>, tool: string) returns (outputs: seq<ToolOutput>)
    ensures outputs == Outputs(observations, tool)
  {
    outputs := [];
    for i := 0 to |observations|
      invariant outputs == Outputs(observations[..i], tool)
    {
      assert observations[..i + 1][..i] == observations[..i];
      if observations[i].source != tool || !observations[i].success || !observations[i].output.Dict? {
        continue;
      }
      outputs := outputs + [observations[i].output];
    }
    assert observations[..|observations|] == observations;
  }

  lemma {:induction false} OutputsMeaning(observations: seq<Observation>, tool: string, output: ToolOutput)
    ensures output in Outputs(observations, tool) <==>
      exists i :: 0 <= i < |observations| && SuccessfulOutputOf(observations[i], tool) && observations[i].output == output
  {
    if observations != [] {
      var n := |observations| - 1;
      OutputsMeaning(observations[..n], tool, output);
      if i :| 0 <= i < n && SuccessfulOutputOf(observations[i], tool) && observations[i].output == output {
        assert observations[..n][i] == observations[i];
      }
    }
  }

  /** Some successful query of the run has this id. */
  ghost predicate ProducedQuery(observations: seq<Observation>, id: string)
  {
    exists i :: 0 <= i < |observations| && SuccessfulOutputOf(observations[i], "query_database") && observations[i].output.queryId == Some(id)
  }

  predicate IsChart(output: ToolOutput, id: string)
  {
    output.Dict? && output.chartId == Some(id) && output.chartType.Some?
  }

  /** Some successful chart of the run has this id. */
  ghost predicate CreatedDisplay(observations: seq<Observation>, id: string)
  {
    exists i :: 0 <= i < |observations| && SuccessfulOutputOf(observations[i], "create_chart") && IsChart(observations[i].output, id)
  }

  function ResolvedQueryIds(observations: seq<Observation>): (ids: set<string>)
    ensures forall id :: id in ids <==> ProducedQuery(observations, id)
  {
    var outputs := Outputs(observations, "query_database");
    var ids := set output | output in outputs && output.Dict? && output.queryId.Some? :: output.queryId.value;
    assert forall id :: id in ids <==> ProducedQuery(observations, id) by {
      forall id ensures id in ids <==> ProducedQuery(observations, id) {
        QueryIdMeaning(observations, id);
      }
    }
    ids
  }

  lemma QueryIdMeaning(observations: seq<Observation>, id: string)
    ensures (exists output :: output in Outputs(observations, "query_database") && output.Dict? && output.queryId == Some(id)) <==>
      ProducedQuery(observations, id)
  {
    if output :| output in Outputs(observations, "query_database") && output.Dict? && output.queryId == Some(id) {
      OutputsMeaning(observations, "query_database", output);
    }
    if ProducedQuery(observations, id) {
      var i :| 0 <= i < |observations| && SuccessfulOutputOf(observations[i], "query_database") && observations[i].output.queryId == Some(id);
      OutputsMeaning(observations, "query_database", observations[i].output);
    }
  }

  /** Display ids with the type of the last chart created under each. */
  function Displays(outputs: seq<ToolOutput>): map<string, string>
  {
    if outputs == [] then map[]
    else
      var prior, last := Displays(outputs[..|outputs| - 1]), outputs[|outputs| - 1];
      if last.Dict? && last.chartId.Some? && last.chartType.Some? then prior[last.chartId.value := last.chartType.value] else prior
  }

  method CreatedDisplayIds(observations: seq<Observation>) returns (displays: map<string, string>)
    ensures displays == Displays(Outputs(observations, "create_chart"))
  {
    var outputs := SuccessfulOutputs(observations, "create_chart");
    displays := map[];
    for i := 0 to |outputs|
      invariant displays == Displays(outputs[..i])
    {
      assert outputs[..i + 1][..i] == outputs[..i];
      var output := outputs[i];
      if output.Dict? && output.chartId.Some? && output.chartType.Some? {
        displays := displays[output.chartId.value := output.chartType.value];
      }
    }
    assert outputs[..|outputs|] == outputs;
  }

  lemma {:induction false} DisplaysMeaning(outputs: seq<ToolOutput>, id: string)
    ensures id in Displays(outputs) <==> exists i :: 0 <= i < |outputs| && IsChart(outputs[i], id)
  {
    if outputs != [] {
      var n := |outputs| - 1;
      DisplaysMeaning(outputs[..n], id);
      if i :| 0 <= i < n && IsChart(outputs[i], id) {
        assert IsChart(outputs[..n][i], id);
      }
    }
  }

  lemma DisplayIdMeaning(observations: seq<Observation>, id: string)
    ensures id in Displays(Outputs(observations, "create_chart")) <==> CreatedDisplay(observations, id)
  {
    var outputs := Outputs(observations, "create_chart");
    DisplaysMeaning(outputs, id);
    if i :| 0 <= i < |outputs| && IsChart(outputs[i], id) {
      OutputsMeaning(observations, "create_chart", outputs[i]);
    }
    if CreatedDisplay(observations, id) {
      var i :| 0 <= i < |observations| && SuccessfulOutputOf(observations[i], "create_chart") && IsChart(observations[i].output, id);
      OutputsMeaning(observations, "create_chart", observations[i].output);
      var j :| 0 <= j < |outputs| && outputs[j] == observations[i].output;
      assert IsChart(outputs[j], id);
    }
  }

  // ---- reconciling a plan with the evidence ----

  function Verified(evidenceIds: seq<string>, known: set<string>): (out: seq<string>)
    ensures forall id :: id in out <==> id in evidenceIds && id in known
  {
    if evidenceIds == [] then []
    else
      var n := |evidenceIds| - 1;
      assert evidenceIds == evidenceIds[..n] + [evidenceIds[n]];
      var front := Verified(evidenceIds[..n], known);
      if evidenceIds[n] in known then front + [evidenceIds[n]] else front
  }

  function ReconcileQuestion(q: Question, known: set<string>): Question
  {
    if q.status != QuestionAnswered then q
    else
      var verified := Verified(q.evidenceIds, known);
      if verified == [] then q.(status := QuestionPending, evidenceIds := []) else q.(evidenceIds := verified)
  }

  function ReconcileOutput(o: PlannedOutput, displays: map<string, string>): PlannedOutput
  {
    if o.status == OutputCreated && (o.displayId.None? || o.displayId.value == "" || o.displayId.value !in displays)
    then o.(status := OutputPending, displayId := None)
    else o
  }

  function Reconcile(plan: Plan, observations: seq<Observation>): Plan
  {
    var known, displays := ResolvedQueryIds(observations), Displays(Outputs(observations, "create_chart"));
    plan.(
      questions := seq(|plan.questions|, i requires 0 <= i < |plan.questions| => ReconcileQuestion(plan.questions[i], known)),
      outputs := seq(|plan.outputs|, i requires 0 <= i < |plan.outputs| => ReconcileOutput(plan.outputs[i], displays)))
  }

  method ReconcilePlan(plan: Plan, observations: seq<Observation>) returns (reconciled: Plan)
    ensures reconciled == Reconcile(plan, observations)
  {
    var known := ResolvedQueryIds(observations);
    var displays := CreatedDisplayIds(observations);
    var questions := [];
    for i := 0 to |plan.questions|
      invariant |questions| == i
      invariant forall k :: 0 <= k < i ==> questions[k] == ReconcileQuestion(plan.questions[k], known)
    {
      var question := plan.questions[i];
      if question.status == QuestionAnswered {
        var verified := Verified(question.evidenceIds, known);
        if verified == [] {
          question := question.(status := QuestionPending, evidenceIds := []);
        } else if verified != question.evidenceIds {
          question := question.(evidenceIds := verified);
        }
      }
      questions := questions + [question];
    }
    var outputs := [];
    for i := 0 to |plan.outputs|
      invariant |outputs| == i
      invariant forall k :: 0 <= k < i ==> outputs[k] == ReconcileOutput(plan.outputs[k], displays)
    {
      var output := plan.outputs[i];
      if output.status == OutputCreated && (output.displayId.None? || output.displayId.value == "" || output.displayId.value !in displays) {
        output := output.(status := OutputPending, displayId := None);
      }
      outputs := outputs + [output];
    }
    reconciled := plan.(questions := questions, outputs := outputs);
    assert reconciled.questions == Reconcile(plan, observations).questions;
    assert reconciled.outputs == Reconcile(plan, observations).outputs;
  }

  /** An answer rests on a nonempty set of query ids, every one of which the run produced. */
  ghost predicate QuestionSupported(q: Question, observations: seq<Observation>)
  {
    q.status == QuestionAnswered ==> q.evidenceIds != [] && forall id :: id in q.evidenceIds ==> ProducedQuery(observations, id)
  }

  /** A display claimed as created is named and was created by the run. */
  ghost predicate OutputSupported(o: PlannedOutput, observations: seq<Observation>)
  {
    o.status == OutputCreated ==> o.displayId.Some? && o.displayId.value != "" && CreatedDisplay(observations, o.displayId.value)
  }

  ghost predicate Supported(plan: Plan, observations: seq<Observation>)
  {
    && (forall i :: 0 <= i < |plan.questions| ==> QuestionSupported(plan.questions[i], observations))
    && (forall i :: 0 <= i < |plan.outputs| ==> OutputSupported(plan.outputs[i], observations))
  }

  /** Every claim left in a reconciled plan is backed by the run. */
  lemma ReconcileSupported(plan: Plan, observations: seq<Observation>)
    ensures Supported(Reconcile(plan, observations), observations)
  {
    var result := Reconcile(plan, observations);
    forall i | 0 <= i < |result.outputs| ensures OutputSupported(result.outputs[i], observations) {
      if result.outputs[i].status == OutputCreated {
        DisplayIdMeaning(observations, result.outputs[i].displayId.value);
      }
    }
  }

  lemma {:induction false} VerifiedAll(evidenceIds: seq<string>, known: set<string>)
    requires forall id :: id in evidenceIds ==> id in known
    ensures Verified(evidenceIds, known) == evidenceIds
  {
    if evidenceIds != [] {
      var n := |evidenceIds| - 1;
      VerifiedAll(evidenceIds[..n], known);
      assert evidenceIds[n] in known;
      assert evidenceIds == evidenceIds[..n] + [evidenceIds[n]];
    }
  }

  /** Reconciling leaves a plan alone exactly when the run backs every claim in it. */
  lemma ReconcileFixesIff(plan: Plan, observations: seq<Observation>)
    ensures Reconcile(plan, observations) == plan <==> Supported(plan, observations)
  {
    var result := Reconcile(plan, observations);
    if result == plan {
      ReconcileSupported(plan, observations);
    }
    if Supported(plan, observations) {
      forall i | 0 <= i < |plan.questions| ensures result.questions[i] == plan.questions[i] {
        if plan.questions[i].status == QuestionAnswered {
          VerifiedAll(plan.questions[i].evidenceIds, ResolvedQueryIds(observations));
        }
      }
      forall i | 0 <= i < |plan.outputs| ensures result.outputs[i] == plan.outputs[i] {
        if plan.outputs[i].status == OutputCreated {
          DisplayIdMeaning(observations, plan.outputs[i].displayId.value);
        }
      }
      assert result.questions == plan.questions && result.outputs == plan.outputs;
    }
  }

  lemma ReconcileIdempotent(plan: Plan, observations: seq<Observation>)
    ensures Reconcile(Reconcile(plan, observations), observations) == Reconcile(plan, observations)
  {
    ReconcileSupported(plan, observations);
    ReconcileFixesIff(Reconcile(plan, observations), observations);
  }

  /**
   Reconciling never upgrades a status: it keeps each one or makes it pending, and it keeps an
   answered question exactly when the run produced at least one of the ids it cites, and a
   created output exactly when the run created the display it names.
   */
  lemma ReconcileOnlyDowngrades(plan: Plan, observations: seq<Observation>)
    ensures var result := Reconcile(plan, observations);
      && |result.questions| == |plan.questions| && |result.outputs| == |plan.outputs|
      && (forall i :: 0 <= i < |plan.questions| ==>
        var q, q' := plan.questions[i], result.questions[i];
        && q'.id == q.id && q'.question == q.question
        && (q'.status == q.status || q'.status == QuestionPending)
        && (q.status == QuestionAnswered ==>
          (q'.status == QuestionAnswered <==> exists id :: id in q.evidenceIds && ProducedQuery(observations, id))))
      && (forall i :: 0 <= i < |plan.outputs| ==>
        var o, o' := plan.outputs[i], result.outputs[i];
        && o'.id == o.id && o'.required == o.required && o'.kind == o.kind
        && (o'.status == o.status || o'.status == OutputPending)
        && (o.status == OutputCreated ==> (o'.status == OutputCreated <==> OutputSupported(o, observations))))
  {
    var result := Reconcile(plan, observations);
    var known := ResolvedQueryIds(observations);
    forall i | 0 <= i < |plan.questions| && plan.questions[i].status == QuestionAnswered
      ensures result.questions[i].status == QuestionAnswered <==>
        exists id :: id in plan.questions[i].evidenceIds && ProducedQuery(observations, id)
    {
      var q := plan.questions[i];
      if Verified(q.evidenceIds, known) != [] {
        assert Verified(q.evidenceIds, known)[0] in Verified(q.evidenceIds, known);
      }
    }
    forall i | 0 <= i < |plan.outputs| && plan.outputs[i].status == OutputCreated
      ensures result.outputs[i].status == OutputCreated <==> OutputSupported(plan.outputs[i], observations)
    {
      if plan.outputs[i].displayId.Some? {
        DisplayIdMeaning(observations, plan.outputs[i].displayId.value);
      }
    }
  }

  /** Support is never lost: observations are only ever appended. */
  lemma SupportedMonotone(plan: Plan, observations: seq<Observation>, more: seq<Observation>)
    requires Supported(plan, observations)
    ensures Supported(plan, observations + more)
  {
    var all := observations + more;
    forall id | ProducedQuery(observations, id) ensures ProducedQuery(all, id) {
      var i :| 0 <= i < |observations| && SuccessfulOutputOf(observations[i], "query_database") && observations[i].output.queryId == Some(id);
      assert all[i] == observations[i];
    }
    forall id | CreatedDisplay(observations, id) ensures CreatedDisplay(all, id) {
      var i :| 0 <= i < |observations| && SuccessfulOutputOf(observations[i], "create_chart") && IsChart(observations[i].output, id);
      assert all[i] == observations[i];
    }
  }

  // ---- deciding a finish ----

  predicate HasCreatedTable(plan: Plan, observations: seq<Observation>)
  {
    || (exists i :: 0 <= i < |plan.outputs| && plan.outputs[i].kind == Table && plan.outputs[i].status == OutputCreated)
    || "table" in Displays(Outputs(observations, "create_chart")).Values
  }

  /** This observation created a chart under this id. */
  predicate ChartCreated(o: Observation, id: string)
  {
    o.source == "create_chart" && o.success && o.output.Dict? && o.output.chartId == Some(id) && o.output.chartType.Some?
  }

  /** The last chart the run created under this id is of this type. */
  ghost predicate LastChart(observations: seq<Observation>, id: string, chartType: string)
  {
    exists i :: LastChartAt(observations, i, id, chartType)
  }

  ghost predicate LastChartAt(observations: seq<Observation>, i: int, id: string, chartType: string)
  {
    && 0 <= i < |observations| && ChartCreated(observations[i], id) && observations[i].output.chartType == Some(chartType)
    && forall j :: i < j < |observations| ==> !ChartCreated(observations[j], id)
  }

  lemma DisplaysUnfold(observations: seq<Observation>)
    requires observations != []
    ensures var n := |observations| - 1;
      var prior, output := Displays(Outputs(observations[..n], "create_chart")), observations[n].output;
      Displays(Outputs(observations, "create_chart")) ==
        if SuccessfulOutputOf(observations[n], "create_chart") && output.chartId.Some? && output.chartType.Some?
        then prior[output.chartId.value := output.chartType.value] else prior
  {
    var n := |observations| - 1;
    var front := Outputs(observations[..n], "create_chart");
    OneMoreDisplay(front, observations[n].output);
    hide Displays;
    assert front + [] == front;
  }

  lemma OneMoreDisplay(outputs: seq<ToolOutput>, last: ToolOutput)
    ensures Displays(outputs + [last]) ==
      if last.Dict? && last.chartId.Some? && last.chartType.Some? then Displays(outputs)[last.chartId.value := last.chartType.value]
      else Displays(outputs)
  {
    assert (outputs + [last])[..|outputs|] == outputs;
  }

  lemma LastChartInFront(observations: seq<Observation>, i: int, id: string, chartType: string)
    requires observations != [] && !ChartCreated(observations[|observations| - 1], id)
    ensures LastChartAt(observations, i, id, chartType) <==> LastChartAt(observations[..|observations| - 1], i, id, chartType)
  {
    var front := observations[..|observations| - 1];
    assert forall j :: 0 <= j < |front| ==> front[j] == observations[j];
    hide ChartCreated;
  }

  lemma {:induction false} DisplayTypeMeaning(observations: seq<Observation>, id: string, chartType: string)
    ensures var displays := Displays(Outputs(observations, "create_chart"));
      id in displays && displays[id] == chartType <==> LastChart(observations, id, chartType)
  {
    if observations != [] {
      var n := |observations| - 1;
      DisplayTypeMeaning(observations[..n], id, chartType);
      DisplaysUnfold(observations);
      hide Displays, Outputs;
      if ChartCreated(observations[n], id) {
        assert observations[n].output.chartType == Some(chartType) ==> LastChartAt(observations, n, id, chartType);
        assert forall i :: 0 <= i < n ==> !LastChartAt(observations, i, id, chartType);
      } else {
        forall i
          ensures LastChartAt(observations, i, id, chartType) <==> LastChartAt(observations[..n], i, id, chartType)
        {
          LastChartInFront(observations, i, id, chartType);
        }
        hide LastChartAt;
      }
    }
  }

  /** A table is planned and marked created, or the last chart under some id is one. */
  ghost predicate TableCreated(plan: Plan, observations: seq<Observation>)
  {
    || (exists i :: 0 <= i < |plan.outputs| && plan.outputs[i].kind == Table && plan.outputs[i].status == OutputCreated)
    || (exists id :: LastChart(observations, id, "table"))
  }

  lemma HasCreatedTableIff(plan: Plan, observations: seq<Observation>)
    ensures HasCreatedTable(plan, observations) <==> TableCreated(plan, observations)
  {
    var displays := Displays(Outputs(observations, "create_chart"));
    forall id
      ensures id in displays && displays[id] == "table" <==> LastChart(observations, id, "table")
    {
      DisplayTypeMeaning(observations, id, "table");
    }
    hide LastChart;
  }

  function PendingQuestions(questions: seq<Question>): (missing: seq<string>)
    ensures missing == [] <==> forall i :: 0 <= i < |questions| ==> questions[i].status != QuestionPending
  {
    if questions == [] then []
    else
      (if questions[0].status == QuestionPending then ["Question not yet answered or blocked: " + questions[0].question] else [])
      + PendingQuestions(questions[1..])
  }

  function PendingOutputs(outputs: seq<PlannedOutput>): (missing: seq<string>)
    ensures missing == [] <==> forall i :: 0 <= i < |outputs| ==> !(outputs[i].required && outputs[i].status == OutputPending)
  {
    if outputs == [] then []
    else
      (if outputs[0].required && outputs[0].status == OutputPending
       then ["Required output not yet created or blocked: " + outputs[0].purpose] else [])
      + PendingOutputs(outputs[1..])
  }

  const MISSING_TABLE := "A detailed report was requested but no supporting table has been created."

  function Missing(plan: Plan, observations: seq<Observation>): seq<string>
  {
    PendingQuestions(plan.questions) + PendingOutputs(plan.outputs)
    + if plan.requestClass == DetailedReport && !HasCreatedTable(plan, observations) then [MISSING_TABLE] else []
  }

  datatype FinishEvaluation = FinishEvaluation(accept: bool, missing: seq<string>)

  function EvaluateFinish(
    plan: Option<Plan>, observations: seq<Observation>, remainingIterations: int, remainingToolCalls: int,
    redirects: nat, maxRedirects: nat): FinishEvaluation
  {
    if plan.None? then FinishEvaluation(true, [])
    else
      var missing := Missing(plan.value, observations);
      if missing == [] then FinishEvaluation(true, [])
      else
        var budgetExhausted := remainingIterations <= 1 || remainingToolCalls <= 0;
        var redirectsExhausted := redirects >= maxRedirects;
        FinishEvaluation(budgetExhausted || redirectsExhausted, missing)
  }

  /** Nothing the plan asked for is open: this is what "no gaps" is to mean. */
  ghost predicate NoGaps(plan: Plan, observations: seq<Observation>)
  {
    && (forall i :: 0 <= i < |plan.questions| ==> plan.questions[i].status != QuestionPending)
    && (forall i :: 0 <= i < |plan.outputs| && plan.outputs[i].required ==> plan.outputs[i].status != OutputPending)
    && (plan.requestClass == DetailedReport ==> TableCreated(plan, observations))
  }

  /** A finish is reported without gaps exactly when there are none, and then it is accepted. */
  lemma FinishWithoutGapsIff(
    plan: Plan, observations: seq<Observation>, remainingIterations: int, remainingToolCalls: int, redirects: nat, maxRedirects: nat)
    ensures var e := EvaluateFinish(Some(plan), observations, remainingIterations, remainingToolCalls, redirects, maxRedirects);
      && (e.missing == [] <==> NoGaps(plan, observations))
      && (e.missing == [] ==> e.accept)
      && (!e.accept <==> !NoGaps(plan, observations) && remainingIterations >= 2 && remainingToolCalls >= 1 && redirects < maxRedirects)
  {
    HasCreatedTableIff(plan, observations);
    hide HasCreatedTable, TableCreated;
  }

  /**
   With a plan whose claims the run backs, a finish accepted without gaps has every question
   blocked or answered from evidence the run produced, and every required output either
   created by the run or openly skipped or blocked.
   */
  lemma AcceptedFinishIsBacked(
    plan: Plan, observations: seq<Observation>, remainingIterations: int, remainingToolCalls: int, redirects: nat, maxRedirects: nat)
    requires Supported(plan, observations)
    requires EvaluateFinish(Some(plan), observations, remainingIterations, remainingToolCalls, redirects, maxRedirects) == FinishEvaluation(true, [])
    ensures forall i :: 0 <= i < |plan.questions| ==>
      || plan.questions[i].status == QuestionBlocked
      || (plan.questions[i].evidenceIds != [] && forall id :: id in plan.questions[i].evidenceIds ==> ProducedQuery(observations, id))
    ensures forall i :: 0 <= i < |plan.outputs| && plan.outputs[i].required ==>
      || plan.outputs[i].status in {OutputSkipped, OutputBlocked}
      || (plan.outputs[i].displayId.Some? && CreatedDisplay(observations, plan.outputs[i].displayId.value))
  {
    FinishWithoutGapsIff(plan, observations, remainingIterations, remainingToolCalls, redirects, maxRedirects);
    forall i | 0 <= i < |plan.questions|
      ensures plan.questions[i].status == QuestionBlocked || QuestionSupported(plan.questions[i], observations)
    {
    }
    forall i | 0 <= i < |plan.outputs| && plan.outputs[i].required
      ensures plan.outputs[i].status in {OutputSkipped, OutputBlocked} || OutputSupported(plan.outputs[i], observations)
    {
    }
  }

  /** One line for each open question, one for each required output still pending, one for a missing table; and no other. */
  lemma MissingLines(plan: Plan, observations: seq<Observation>, line: string)
    ensures line in Missing(plan, observations) <==>
      || (exists q :: q in plan.questions && q.status == QuestionPending && line == "Question not yet answered or blocked: " + q.question)
      || (exists o :: o in plan.outputs && o.required && o.status == OutputPending
           && line == "Required output not yet created or blocked: " + o.purpose)
      || (plan.requestClass == DetailedReport && !TableCreated(plan, observations)
          && line == "A detailed report was requested but no supporting table has been created.")
  {
    HasCreatedTableIff(plan, observations);
    QuestionLines(plan.questions, line);
    OutputLines(plan.outputs, line);
    hide HasCreatedTable, TableCreated, PendingQuestions, PendingOutputs;
  }

  lemma {:induction false} QuestionLines(questions: seq<Question>, line: string)
    ensures line in PendingQuestions(questions) <==>
      exists q :: q in questions && q.status == QuestionPending && line == "Question not yet answered or blocked: " + q.question
  {
    if questions != [] {
      QuestionLines(questions[1..], line);
      assert questions == [questions[0]] + questions[1..];
    }
  }

  lemma {:induction false} OutputLines(outputs: seq<PlannedOutput>, line: string)
    ensures line in PendingOutputs(outputs) <==>
      exists o :: o in outputs && o.required && o.status == OutputPending
        && line == "Required output not yet created or blocked: " + o.purpose
  {
    if outputs != [] {
      OutputLines(outputs[1..], line);
      assert outputs == [outputs[0]] + outputs[1..];
    }
  }
}
