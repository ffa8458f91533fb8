/**
 * The four-agent analysis pipeline (src/agents.py).
 *
 * Each agent's `run` is a call to a hosted chat-completion service; the
 * pipeline sees it as an oracle from (stage, user message) to a reply or a
 * raised error. `analyze_article` is modelled as a method that records, in
 * order, every progress notification and every agent run it makes.
 */
module Agents {
  import opened Common
  import Config

  datatype Stage = Summarizer | InsightsExtractor | RiskAssessor | ScenarioPredictor

  /** Summarizer -> Insights Extractor -> Risk Assessor -> Scenario Predictor. */
  const Order: seq<Stage> := [Summarizer, InsightsExtractor, RiskAssessor, ScenarioPredictor]
  const TotalSteps: nat := 4

  /** The `name` the module-level agent of each stage is built with. */
  function AgentName(stage: Stage): string {
    match stage
    case Summarizer => "Summarizer"
    case InsightsExtractor => "Insights Extractor"
    case RiskAssessor => "Risk Assessor"
    case ScenarioPredictor => "Scenario Predictor"
  }

  /** The 1-based step number reported for a stage. */
  function Step(stage: Stage): (n: nat)
    ensures 1 <= n <= TotalSteps && Order[n - 1] == stage
    ensures forall k :: 0 <= k < TotalSteps && Order[k] == stage ==> n == k + 1
  {
    match stage
    case Summarizer => 1
    case InsightsExtractor => 2
    case RiskAssessor => 3
    case ScenarioPredictor => 4
  }

  // ---------------------------------------------------------------------------
  // Stage inputs

  /** `article_text`, the common prefix of every stage's user message. */
  function ArticleText(title: string, content: string): string {
    "Title: " + title + "\n\nContent:\n" + content
  }

  /**
   * The user message a stage's agent receives, given the article text and the
   * outputs of the stages before it, in pipeline order. The Risk Assessor sees
   * only the insights and the Scenario Predictor only the insights and the risk
   * assessment: neither is given the summary.
   */
  function StageInput(stage: Stage, article: string, earlier: seq<string>): string
    requires |earlier| == Step(stage) - 1
  {
    match stage
    case Summarizer => article
    case InsightsExtractor => article + "\n\n--- Summary ---\n" + earlier[0]
    case RiskAssessor => article + "\n\n--- Insights ---\n" + earlier[1]
    case ScenarioPredictor =>
      article + "\n\n--- Insights ---\n" + earlier[1] + "\n\n--- Risk Assessment ---\n" + earlier[2]
  }

  /** Every stage's user message begins with the article text. */
  lemma MessagePrefix(stage: Stage, article: string, earlier: seq<string>)
    requires |earlier| == Step(stage) - 1
    ensures article <= StageInput(stage, article, earlier)
  {
  }

  /** True when `part` occurs in `s` as a contiguous block (Python's `part in s`). */
  predicate Contains(s: string, part: string)
    decreases |s|
  {
    part <= s || (s != [] && Contains(s[1..], part))
  }

  lemma {:induction false} ContainsFits(s: string, part: string)
    requires Contains(s, part)
    ensures |part| <= |s|
    decreases |s|
  {
    if !(part <= s) {
      ContainsFits(s[1..], part);
    }
  }

  /**
   * The docstring promises that every agent sees all previous outputs, but for
   * any article and earlier outputs there is a summary that neither the Risk
   * Assessor's nor the Scenario Predictor's message contains: only the Insights
   * Extractor is given the summary.
   */
  lemma SummaryNotForwarded(article: string, summary: string, insights: string, risk: string)
    requires |summary| > |StageInput(ScenarioPredictor, article, [summary, insights, risk])|
    ensures Contains(StageInput(InsightsExtractor, article, [summary]), summary)
    ensures !Contains(StageInput(RiskAssessor, article, [summary, insights]), summary)
    ensures !Contains(StageInput(ScenarioPredictor, article, [summary, insights, risk]), summary)
  {
    var toInsights := StageInput(InsightsExtractor, article, [summary]);
    var prefix := article + "\n\n--- Summary ---\n";
    assert toInsights == prefix + summary;
    SuffixContained(prefix, summary);
    if Contains(StageInput(RiskAssessor, article, [summary, insights]), summary) {
      ContainsFits(StageInput(RiskAssessor, article, [summary, insights]), summary);
    }
    if Contains(StageInput(ScenarioPredictor, article, [summary, insights, risk]), summary) {
      ContainsFits(StageInput(ScenarioPredictor, article, [summary, insights, risk]), summary);
    }
  }

  lemma {:induction false} SuffixContained(prefix: string, part: string)
    ensures Contains(prefix + part, part)
    decreases |prefix|
  {
    if prefix != [] {
      assert (prefix + part)[1..] == prefix[1..] + part;
      SuffixContained(prefix[1..], part);
    }
  }

  // ---------------------------------------------------------------------------
  // The trace of a pipeline run

  /** One agent run: the stage and the user message its agent was given. */
  datatype Call = Call(stage: Stage, input: string)

  datatype Event =
    | Progress(agent: string, step: nat, total: nat)  // on_progress(agent, step, total)
    | Ran(call: Call)                                   // the stage's agent.run(input)

  /** The agent runs of a trace, in order. */
  function Runs(trace: seq<Event>): seq<Call> {
    if trace == [] then []
    else
      var last := trace[|trace| - 1];
      Runs(trace[..|trace| - 1]) + (if last.Ran? then [last.call] else [])
  }

  /** The progress notifications of a trace, in order. */
  function Notices(trace: seq<Event>): seq<Event> {
    if trace == [] then []
    else
      var last := trace[|trace| - 1];
      Notices(trace[..|trace| - 1]) + (if last.Progress? then [last] else [])
  }

  /** The notification made just before a stage's agent runs. */
  function Notice(stage: Stage): Event {
    Progress(AgentName(stage), Step(stage), TotalSteps)
  }

  /** The first n notifications a run with a callback makes: ("Summarizer", 1, 4), ... */
  function Announcements(n: nat): seq<Event>
    requires n <= TotalSteps
  {
    seq(n, k requires 0 <= k < n => Progress(AgentName(Order[k]), k + 1, TotalSteps))
  }

  /**
   * The shape every trace of `analyze_article` has: the agents run in pipeline
   * order; with a callback the notifications are exactly those of the stages
   * that ran, and each is followed at once by its own agent's run; without one
   * there are none.
   */
  ghost predicate Sequenced(trace: seq<Event>, hasProgress: bool) {
    && |Runs(trace)| <= TotalSteps
    && (forall k :: 0 <= k < |Runs(trace)| ==> Runs(trace)[k].stage == Order[k])
    && Notices(trace) == (if hasProgress then Announcements(|Runs(trace)|) else [])
    && (forall i :: 0 <= i < |trace| && trace[i].Progress? ==>
          i + 1 < |trace| && trace[i + 1].Ran? && trace[i] == Notice(trace[i + 1].call.stage))
  }

  /** The events one stage adds: its notification, if there is a callback, then its agent's run. */
  function Dispatch(hasProgress: bool, call: Call): seq<Event> {
    (if hasProgress then [Notice(call.stage)] else []) + [Ran(call)]
  }

  /** The trace of a sequence of agent runs, each with what Dispatch adds. */
  ghost function Chain(hasProgress: bool, calls: seq<Call>): seq<Event> {
    if calls == [] then []
    else Chain(hasProgress, calls[..|calls| - 1]) + Dispatch(hasProgress, calls[|calls| - 1])
  }

  lemma {:induction false} FiltersAppend(a: seq<Event>, b: seq<Event>)
    ensures Runs(a + b) == Runs(a) + Runs(b)
    ensures Notices(a + b) == Notices(a) + Notices(b)
    decreases |b|
  {
    if b == [] {
      assert a + b == a;
    } else {
      var b' := b[..|b| - 1];
      assert (a + b)[..|a + b| - 1] == a + b';
      assert (a + b)[|a + b| - 1] == b[|b| - 1];
      FiltersAppend(a, b');
    }
  }

  /** One stage's events hold its run and, with a callback, its notification. */
  lemma FiltersDispatch(hasProgress: bool, call: Call)
    ensures Runs(Dispatch(hasProgress, call)) == [call]
    ensures Notices(Dispatch(hasProgress, call)) == if hasProgress then [Notice(call.stage)] else []
  {
    assert [Ran(call)][..0] == [];
    if hasProgress {
      assert [Notice(call.stage)][..0] == [];
      FiltersAppend([Notice(call.stage)], [Ran(call)]);
    } else {
      assert Dispatch(hasProgress, call) == [Ran(call)];
    }
  }

  lemma ChainSnoc(hasProgress: bool, calls: seq<Call>, call: Call)
    ensures Chain(hasProgress, calls + [call]) == Chain(hasProgress, calls) + Dispatch(hasProgress, call)
  {
    assert (calls + [call])[..|calls|] == calls;
  }

  /** Appending one stage's events adds its run. */
  lemma RunsDispatched(hasProgress: bool, trace: seq<Event>, call: Call)
    ensures Runs(trace + Dispatch(hasProgress, call)) == Runs(trace) + [call]
  {
    FiltersAppend(trace, Dispatch(hasProgress, call));
    FiltersDispatch(hasProgress, call);
  }

  /** Appending one stage's events adds its notification, when there is a callback. */
  lemma NoticesDispatched(hasProgress: bool, trace: seq<Event>, call: Call)
    ensures hasProgress ==> Notices(trace + Dispatch(hasProgress, call)) == Notices(trace) + [Notice(call.stage)]
    ensures !hasProgress ==> Notices(trace + Dispatch(hasProgress, call)) == Notices(trace)
  {
    FiltersAppend(trace, Dispatch(hasProgress, call));
    FiltersDispatch(hasProgress, call);
  }

  lemma {:induction false} ChainRuns(hasProgress: bool, calls: seq<Call>)
    ensures Runs(Chain(hasProgress, calls)) == calls
    decreases |calls|
  {
    if calls != [] {
      var n := |calls| - 1;
      ChainRuns(hasProgress, calls[..n]);
      RunsDispatched(hasProgress, Chain(hasProgress, calls[..n]), calls[n]);
      assert calls == calls[..n] + [calls[n]];
    }
  }

  lemma {:induction false} ChainNotices(hasProgress: bool, calls: seq<Call>)
    requires |calls| <= TotalSteps
    requires forall k :: 0 <= k < |calls| ==> calls[k].stage == Order[k]
    ensures hasProgress ==> Notices(Chain(hasProgress, calls)) == Announcements(|calls|)
    ensures !hasProgress ==> Notices(Chain(hasProgress, calls)) == []
    decreases |calls|
  {
    if calls != [] {
      var n := |calls| - 1;
      var prefix, last := calls[..n], calls[n];
      assert forall k :: 0 <= k < n ==> prefix[k] == calls[k];
      ChainNotices(hasProgress, prefix);
      assert Chain(hasProgress, calls) == Chain(hasProgress, prefix) + Dispatch(hasProgress, last);
      NoticesDispatched(hasProgress, Chain(hasProgress, prefix), last);
      if hasProgress {
        AnnouncementsSnoc(n, last.stage);
      }
    }
  }

  /** The next announcement is the notification of the next stage in order. */
  lemma AnnouncementsSnoc(n: nat, stage: Stage)
    requires n < TotalSteps && stage == Order[n]
    ensures Announcements(n + 1) == Announcements(n) + [Notice(stage)]
  {
    assert Step(stage) == n + 1;
    assert forall k :: 0 <= k < n ==> Announcements(n + 1)[k] == Announcements(n)[k];
  }

  lemma {:induction false} ChainAdjacent(hasProgress: bool, calls: seq<Call>)
    ensures var t := Chain(hasProgress, calls);
      (t != [] ==> t[|t| - 1].Ran?) &&
      forall i :: 0 <= i < |t| && t[i].Progress? ==>
        i + 1 < |t| && t[i + 1].Ran? && t[i] == Notice(t[i + 1].call.stage)
    decreases |calls|
  {
    if calls != [] {
      ChainAdjacent(hasProgress, calls[..|calls| - 1]);
    }
  }

  /** A chain of runs in pipeline order is Sequenced, and its runs are exactly those runs. */
  lemma ChainSequenced(hasProgress: bool, calls: seq<Call>)
    requires |calls| <= TotalSteps
    requires forall k :: 0 <= k < |calls| ==> calls[k].stage == Order[k]
    ensures Runs(Chain(hasProgress, calls)) == calls
    ensures Sequenced(Chain(hasProgress, calls), hasProgress)
  {
    ChainRuns(hasProgress, calls);
    ChainNotices(hasProgress, calls);
    ChainAdjacent(hasProgress, calls);
  }

  // ---------------------------------------------------------------------------
  // The pipeline

  /** An agent run completed without raising. */
  predicate Succeeded(run: (Stage, string) -> Result<string>, call: Call) {
    run(call.stage, call.input).Success?
  }

  /** What the agent returned for a recorded run ("" when it raised). */
  function Output(run: (Stage, string) -> Result<string>, call: Call): string {
    if Succeeded(run, call) then run(call.stage, call.input).value else ""
  }

  function Outputs(run: (Stage, string) -> Result<string>, calls: seq<Call>): (r: seq<string>)
    ensures |r| == |calls|
    ensures forall k :: 0 <= k < |calls| ==> r[k] == Output(run, calls[k])
  {
    seq(|calls|, k requires 0 <= k < |calls| => Output(run, calls[k]))
  }

  lemma OutputsSnoc(run: (Stage, string) -> Result<string>, calls: seq<Call>, call: Call)
    ensures Outputs(run, calls + [call]) == Outputs(run, calls) + [Output(run, call)]
  {
    assert forall k :: 0 <= k < |calls| ==> (calls + [call])[k] == calls[k];
  }

  /**
   * Each recorded run was given the message its stage composes from the article
   * text and the outputs of the runs before it.
   */
  ghost predicate Composed(run: (Stage, string) -> Result<string>, article: string, calls: seq<Call>) {
    && |calls| <= TotalSteps
    && forall k :: 0 <= k < |calls| ==>
         calls[k].stage == Order[k] && calls[k].input == StageInput(Order[k], article, Outputs(run, calls[..k]))
  }

  /** Running the next stage on the message composed from the outputs so far keeps the runs Composed. */
  lemma ComposedSnoc(run: (Stage, string) -> Result<string>, article: string, calls: seq<Call>, stage: Stage)
    requires Composed(run, article, calls) && |calls| < TotalSteps && stage == Order[|calls|]
    ensures Composed(run, article, calls + [Call(stage, StageInput(stage, article, Outputs(run, calls)))])
  {
    var next := calls + [Call(stage, StageInput(stage, article, Outputs(run, calls)))];
    forall k | 0 <= k < |next|
      ensures next[k].stage == Order[k] && next[k].input == StageInput(Order[k], article, Outputs(run, next[..k]))
    {
      if k < |calls| {
        assert next[..k] == calls[..k];
      } else {
        assert next[..k] == calls;
      }
    }
  }

  /** The dict `analyze_article` returns, as a record. */
  datatype Analysis = Analysis(summary: string, insights: string, riskAssessment: string, scenarios: string)

  const ResultKeys: seq<string> := ["summary", "insights", "risk_assessment", "scenarios"]

  /** The returned dict's items, in insertion order. */
  function Items(a: Analysis): seq<(string, string)> {
    [("summary", a.summary), ("insights", a.insights),
     ("risk_assessment", a.riskAssessment), ("scenarios", a.scenarios)]
  }

  /**
   * What `analyze_article` promises about a run: its trace is Sequenced and
   * holds at least the Summarizer's run; every run was given the message its
   * stage composes from the article text and the earlier outputs; every run but
   * the last returned; the result is a success exactly when all four runs
   * returned, a failure carries the error the last run raised, and a success
   * maps the four keys, in order, to the four outputs unchanged.
   */
  ghost predicate Pipelined(title: string, content: string, hasProgress: bool,
                            run: (Stage, string) -> Result<string>, trace: seq<Event>, result: Result<Analysis>) {
    var calls := Runs(trace);
    && Sequenced(trace, hasProgress) && 1 <= |calls|
    && Composed(run, ArticleText(title, content), calls)
    && (forall k :: 0 <= k < |calls| - 1 ==> Succeeded(run, calls[k]))
    && (result.Success? <==> |calls| == TotalSteps && Succeeded(run, calls[TotalSteps - 1]))
    && (result.Failure? ==> run(calls[|calls| - 1].stage, calls[|calls| - 1].input) == Failure(result.error))
    && (result.Success? ==>
          forall k :: 0 <= k < TotalSteps ==> Items(result.value)[k] == (ResultKeys[k], Outputs(run, calls)[k]))
  }

  /**
   * The runs `analyze_article` makes, as a sequence of calls: after the runs
   * `calls`, unless all four stages have run or the last run raised, the next
   * stage in order runs on the message composed from the outputs so far.
   */
  ghost function RunsFrom(run: (Stage, string) -> Result<string>, article: string, calls: seq<Call>): (r: seq<Call>)
    requires |calls| <= TotalSteps
    ensures r != [] && |calls| <= |r| <= TotalSteps
    ensures |r| == TotalSteps || !Succeeded(run, r[|r| - 1])
    decreases TotalSteps - |calls|
  {
    if |calls| == TotalSteps || (calls != [] && !Succeeded(run, calls[|calls| - 1])) then calls
    else
      var stage := Order[|calls|];
      RunsFrom(run, article, calls + [Call(stage, StageInput(stage, article, Outputs(run, calls)))])
  }

  /**
   * What a pipeline that made the runs `calls` returns: the error the last run
   * raised, or, when all four returned, the dict of the four outputs.
   */
  function Outcome(run: (Stage, string) -> Result<string>, calls: seq<Call>): Result<Analysis>
    requires calls != [] && (|calls| == TotalSteps || !Succeeded(run, calls[|calls| - 1]))
  {
    var last := calls[|calls| - 1];
    if !Succeeded(run, last) then Failure(run(last.stage, last.input).error)
    else Success(Analysis(Output(run, calls[0]), Output(run, calls[1]), Output(run, calls[2]), Output(run, calls[3])))
  }

  /**
   * The outcome is a success exactly when all four runs returned; a failure
   * carries the error the last run raised; a success maps the four keys, in
   * order, to the four outputs.
   */
  lemma OutcomeMeaning(run: (Stage, string) -> Result<string>, calls: seq<Call>)
    requires calls != [] && (|calls| == TotalSteps || !Succeeded(run, calls[|calls| - 1]))
    ensures var r := Outcome(run, calls);
      && (r.Success? <==> |calls| == TotalSteps && Succeeded(run, calls[TotalSteps - 1]))
      && (r.Failure? ==> run(calls[|calls| - 1].stage, calls[|calls| - 1].input) == Failure(r.error))
      && (r.Success? ==>
            forall k :: 0 <= k < TotalSteps ==> Items(r.value)[k] == (ResultKeys[k], Outputs(run, calls)[k]))
  {
  }

  /** The runs RunsFrom adds stay Composed, and all but the last returned. */
  lemma {:induction false} RunsFromComposed(run: (Stage, string) -> Result<string>, article: string, calls: seq<Call>)
    requires Composed(run, article, calls)
    requires forall k :: 0 <= k < |calls| - 1 ==> Succeeded(run, calls[k])
    ensures var r := RunsFrom(run, article, calls);
      Composed(run, article, r) && forall k :: 0 <= k < |r| - 1 ==> Succeeded(run, r[k])
    decreases TotalSteps - |calls|
  {
    if !(|calls| == TotalSteps || (calls != [] && !Succeeded(run, calls[|calls| - 1]))) {
      var stage := Order[|calls|];
      var next := calls + [Call(stage, StageInput(stage, article, Outputs(run, calls)))];
      ComposedSnoc(run, article, calls, stage);
      assert forall k :: 0 <= k < |next| - 1 ==> next[k] == calls[k];
      RunsFromComposed(run, article, next);
    }
  }

  /**
   * The pipeline stage by stage: given the outputs of the stages that ran and
   * returned, the events of the remaining ones. The next stage in order is
   * notified, when there is a callback, and run on the message composed from
   * those outputs; nothing follows a run that raised.
   */
  ghost function TraceFrom(hasProgress: bool, run: (Stage, string) -> Result<string>, article: string,
                           outputs: seq<string>): seq<Event>
    requires |outputs| <= TotalSteps
    decreases TotalSteps - |outputs|
  {
    if |outputs| == TotalSteps then []
    else
      var stage := Order[|outputs|];
      var input := StageInput(stage, article, outputs);
      Dispatch(hasProgress, Call(stage, input)) +
        match run(stage, input)
        case Failure(_) => []
        case Success(out) => TraceFrom(hasProgress, run, article, outputs + [out])
  }

  /** The result stage by stage: the first error raised, or the dict of the four outputs. */
  ghost function OutcomeFrom(run: (Stage, string) -> Result<string>, article: string, outputs: seq<string>): Result<Analysis>
    requires |outputs| <= TotalSteps
    decreases TotalSteps - |outputs|
  {
    if |outputs| == TotalSteps then Success(Analysis(outputs[0], outputs[1], outputs[2], outputs[3]))
    else
      var stage := Order[|outputs|];
      match run(stage, StageInput(stage, article, outputs))
      case Failure(error) => Failure(error)
      case Success(out) => OutcomeFrom(run, article, outputs + [out])
  }

  /** One step of TraceFrom: the next stage's events, then those of the rest if its run returned. */
  lemma TraceFromStep(hasProgress: bool, run: (Stage, string) -> Result<string>, article: string, outputs: seq<string>)
    requires |outputs| < TotalSteps
    ensures var stage := Order[|outputs|];
      var input := StageInput(stage, article, outputs);
      TraceFrom(hasProgress, run, article, outputs)
        == Dispatch(hasProgress, Call(stage, input))
           + if run(stage, input).Success?
             then TraceFrom(hasProgress, run, article, outputs + [run(stage, input).value]) else []
  {
  }

  /** The next stage runs, on its composed message, when the last run returned and not all four have run. */
  lemma RunsFromNext(run: (Stage, string) -> Result<string>, article: string, calls: seq<Call>, next: Call)
    requires |calls| < TotalSteps && (calls == [] || Succeeded(run, calls[|calls| - 1]))
    requires next == Call(Order[|calls|], StageInput(Order[|calls|], article, Outputs(run, calls)))
    ensures RunsFrom(run, article, calls) == RunsFrom(run, article, calls + [next])
  {
  }

  /**
   * After runs that all returned, the events of the remaining stages complete
   * the chain of the runs RunsFrom makes.
   */
  lemma {:induction false} TraceFromChain(hasProgress: bool, run: (Stage, string) -> Result<string>, article: string,
                                          calls: seq<Call>)
    requires |calls| <= TotalSteps && forall k :: 0 <= k < |calls| ==> Succeeded(run, calls[k])
    ensures Chain(hasProgress, calls) + TraceFrom(hasProgress, run, article, Outputs(run, calls))
         == Chain(hasProgress, RunsFrom(run, article, calls))
    decreases TotalSteps - |calls|
  {
    if |calls| < TotalSteps {
      var stage := Order[|calls|];
      var call := Call(stage, StageInput(stage, article, Outputs(run, calls)));
      if Succeeded(run, call) {
        var next := calls + [call];
        assert forall k :: 0 <= k < |next| ==> Succeeded(run, next[k]);
        TraceFromChain(hasProgress, run, article, next);
      }
      ChainNext(hasProgress, run, article, calls, call);
    }
  }

  /** The step of TraceFromChain: one more run, given the claim for the runs after it when it returned. */
  lemma ChainNext(hasProgress: bool, run: (Stage, string) -> Result<string>, article: string,
                  calls: seq<Call>, call: Call)
    requires |calls| < TotalSteps && forall k :: 0 <= k < |calls| ==> Succeeded(run, calls[k])
    requires call == Call(Order[|calls|], StageInput(Order[|calls|], article, Outputs(run, calls)))
    requires Succeeded(run, call) ==>
      Chain(hasProgress, calls + [call]) + TraceFrom(hasProgress, run, article, Outputs(run, calls + [call]))
        == Chain(hasProgress, RunsFrom(run, article, calls + [call]))
    ensures Chain(hasProgress, calls) + TraceFrom(hasProgress, run, article, Outputs(run, calls))
         == Chain(hasProgress, RunsFrom(run, article, calls))
  {
    var outputs := Outputs(run, calls);
    var next := calls + [call];
    RunsFromNext(run, article, calls, call);
    ChainSnoc(hasProgress, calls, call);
    TraceFromStep(hasProgress, run, article, outputs);
    if Succeeded(run, call) {
      OutputsSnoc(run, calls, call);
      Assoc(Chain(hasProgress, calls), Dispatch(hasProgress, call),
                  TraceFrom(hasProgress, run, article, Outputs(run, next)));
    } else {
      assert RunsFrom(run, article, next) == next;
      Assoc(Chain(hasProgress, calls), Dispatch(hasProgress, call), []);
    }
  }

  /** After runs that all returned, the stage-by-stage result is the outcome of the runs RunsFrom makes. */
  lemma {:induction false} OutcomeFromRuns(run: (Stage, string) -> Result<string>, article: string, calls: seq<Call>)
    requires |calls| <= TotalSteps && forall k :: 0 <= k < |calls| ==> Succeeded(run, calls[k])
    requires calls != [] || |calls| < TotalSteps
    ensures OutcomeFrom(run, article, Outputs(run, calls)) == Outcome(run, RunsFrom(run, article, calls))
    decreases TotalSteps - |calls|
  {
    var outputs := Outputs(run, calls);
    if |calls| < TotalSteps {
      var stage := Order[|calls|];
      var call := Call(stage, StageInput(stage, article, outputs));
      var next := calls + [call];
      assert RunsFrom(run, article, calls) == RunsFrom(run, article, next);
      OutputsSnoc(run, calls, call);
      if Succeeded(run, call) {
        assert forall k :: 0 <= k < |next| ==> Succeeded(run, next[k]);
        OutcomeFromRuns(run, article, next);
      }
    }
  }

  /** Runs that RunsFrom could make, their chain and their outcome are Pipelined. */
  lemma Conclude(title: string, content: string, hasProgress: bool, run: (Stage, string) -> Result<string>,
                 calls: seq<Call>, trace: seq<Event>, result: Result<Analysis>)
    requires Composed(run, ArticleText(title, content), calls)
    requires forall k :: 0 <= k < |calls| - 1 ==> Succeeded(run, calls[k])
    requires calls != [] && (|calls| == TotalSteps || !Succeeded(run, calls[|calls| - 1]))
    requires trace == Chain(hasProgress, calls) && result == Outcome(run, calls)
    ensures Pipelined(title, content, hasProgress, run, trace, result)
  {
    ChainSequenced(hasProgress, calls);
    OutcomeMeaning(run, calls);
  }

  /**
   * The stage-by-stage definition keeps every promise of `analyze_article`:
   * its events and its result are Pipelined.
   */
  lemma PipelineKept(title: string, content: string, hasProgress: bool, run: (Stage, string) -> Result<string>)
    ensures var article := ArticleText(title, content);
      Pipelined(title, content, hasProgress, run,
                TraceFrom(hasProgress, run, article, []), OutcomeFrom(run, article, []))
  {
    var article := ArticleText(title, content);
    var calls := RunsFrom(run, article, []);
    assert Outputs(run, []) == [];
    TraceFromChain(hasProgress, run, article, []);
    OutcomeFromRuns(run, article, []);
    RunsFromComposed(run, article, []);
    Conclude(title, content, hasProgress, run, calls,
             TraceFrom(hasProgress, run, article, []), OutcomeFrom(run, article, []));
  }

  /**
   * The events of one stage appended to a trace: a run that raises completes the
   * pipeline's events and decides its result; one that returns leaves the
   * remaining stages, on the outputs extended by its own.
   */
  lemma StageStep(hasProgress: bool, run: (Stage, string) -> Result<string>, article: string,
                  trace: seq<Event>, earlier: seq<string>, extended: seq<Event>)
    requires |earlier| < TotalSteps
    requires var stage := Order[|earlier|];
      extended == trace + Dispatch(hasProgress, Call(stage, StageInput(stage, article, earlier)))
    ensures var stage := Order[|earlier|];
      var reply := run(stage, StageInput(stage, article, earlier));
      && (reply.Failure? ==>
            && extended == trace + TraceFrom(hasProgress, run, article, earlier)
            && OutcomeFrom(run, article, earlier) == Failure(reply.error))
      && (reply.Success? ==>
            && extended + TraceFrom(hasProgress, run, article, earlier + [reply.value])
                 == trace + TraceFrom(hasProgress, run, article, earlier)
            && OutcomeFrom(run, article, earlier + [reply.value]) == OutcomeFrom(run, article, earlier))
      && (reply.Success? && |earlier| == TotalSteps - 1 ==>
            && extended == trace + TraceFrom(hasProgress, run, article, earlier)
            && OutcomeFrom(run, article, earlier) == Success(Analysis(earlier[0], earlier[1], earlier[2], reply.value)))
  {
    var stage := Order[|earlier|];
    var call := Call(stage, StageInput(stage, article, earlier));
    TraceFromStep(hasProgress, run, article, earlier);
    if run(stage, call.input).Success? {
      Assoc(trace, Dispatch(hasProgress, call),
                  TraceFrom(hasProgress, run, article, earlier + [run(stage, call.input).value]));
    }
  }

  /**
   * One stage of `analyze_article`: with a callback, the stage's notification;
   * then its agent's run on the message composed from the article text and the
   * outputs of the stages before it. A run that raises leaves nothing else to
   * do; one that returns hands its output on to the remaining stages.
   */
  method RunStage(hasProgress: bool, run: (Stage, string) -> Result<string>, article: string,
                  trace: seq<Event>, stage: Stage, earlier: seq<string>)
    returns (extended: seq<Event>, reply: Result<string>)
    requires |earlier| < TotalSteps && stage == Order[|earlier|]
    ensures reply == run(stage, StageInput(stage, article, earlier))
    ensures reply.Failure? ==>
      && extended == trace + TraceFrom(hasProgress, run, article, earlier)
      && OutcomeFrom(run, article, earlier) == Failure(reply.error)
    ensures reply.Success? ==>
      && extended + TraceFrom(hasProgress, run, article, earlier + [reply.value])
           == trace + TraceFrom(hasProgress, run, article, earlier)
      && OutcomeFrom(run, article, earlier + [reply.value]) == OutcomeFrom(run, article, earlier)
    ensures reply.Success? && |earlier| == TotalSteps - 1 ==>
      && extended == trace + TraceFrom(hasProgress, run, article, earlier)
      && OutcomeFrom(run, article, earlier) == Success(Analysis(earlier[0], earlier[1], earlier[2], reply.value))
  {
    var input := StageInput(stage, article, earlier);
    extended := trace;
    if hasProgress {
      extended := extended + [Notice(stage)];
    }
    extended := extended + [Ran(Call(stage, input))];
    reply := run(stage, input);
    assert extended == trace + Dispatch(hasProgress, Call(stage, input));
    StageStep(hasProgress, run, article, trace, earlier, extended);
  }

  /**
   * `analyze_article(title, content, on_progress)`: `hasProgress` says whether a
   * callback was given and `run(stage, input)` is what that stage's agent
   * returns or raises. The first error ends the pipeline and is propagated.
   */
  method AnalyzeArticle(title: string, content: string, hasProgress: bool,
                        run: (Stage, string) -> Result<string>)
    returns (trace: seq<Event>, result: Result<Analysis>)
    ensures trace == TraceFrom(hasProgress, run, ArticleText(title, content), [])
    ensures result == OutcomeFrom(run, ArticleText(title, content), [])
  {
    var article := ArticleText(title, content);

    var summary;
    trace, summary := RunStage(hasProgress, run, article, [], Summarizer, []);
    if summary.Failure? {
      return trace, Failure(summary.error);
    }

    assert [] + [summary.value] == [summary.value];
    var insights;
    trace, insights := RunStage(hasProgress, run, article, trace, InsightsExtractor, [summary.value]);
    if insights.Failure? {
      return trace, Failure(insights.error);
    }

    assert [summary.value] + [insights.value] == [summary.value, insights.value];
    var risk;
    trace, risk := RunStage(hasProgress, run, article, trace, RiskAssessor, [summary.value, insights.value]);
    if risk.Failure? {
      return trace, Failure(risk.error);
    }

    assert [summary.value, insights.value] + [risk.value] == [summary.value, insights.value, risk.value];
    var scenarios;
    trace, scenarios := RunStage(hasProgress, run, article, trace, ScenarioPredictor,
                                 [summary.value, insights.value, risk.value]);
    if scenarios.Failure? {
      return trace, Failure(scenarios.error);
    }
    ghost var outputs := [summary.value, insights.value, risk.value] + [scenarios.value];
    assert outputs == [summary.value, insights.value, risk.value, scenarios.value];
    result := Success(Analysis(summary.value, insights.value, risk.value, scenarios.value));
  }

  /**
   * With a callback, a run that completes makes exactly four notifications, in
   * order: ("Summarizer", 1, 4), ("Insights Extractor", 2, 4), ("Risk Assessor",
   * 3, 4), ("Scenario Predictor", 4, 4). Without one it makes none, and the
   * agents still run in the same order.
   */
  lemma Notifications(title: string, content: string, hasProgress: bool,
                      run: (Stage, string) -> Result<string>, trace: seq<Event>, result: Result<Analysis>)
    requires Pipelined(title, content, hasProgress, run, trace, result)
    ensures hasProgress && result.Success? ==> Notices(trace) == [
      Progress("Summarizer", 1, 4), Progress("Insights Extractor", 2, 4),
      Progress("Risk Assessor", 3, 4), Progress("Scenario Predictor", 4, 4)]
    ensures !hasProgress ==> Notices(trace) == [] && forall i :: 0 <= i < |trace| ==> trace[i].Ran?
    ensures result.Success? ==>
      && |Runs(trace)| == 4
      && Runs(trace)[0].stage == Summarizer && Runs(trace)[1].stage == InsightsExtractor
      && Runs(trace)[2].stage == RiskAssessor && Runs(trace)[3].stage == ScenarioPredictor
  {
    if !hasProgress {
      OnlyRuns(trace);
    } else if result.Success? {
      AllAnnounced();
    }
  }

  /** The four announcements of a complete run, written out. */
  lemma AllAnnounced()
    ensures Announcements(TotalSteps) == [
      Progress("Summarizer", 1, 4), Progress("Insights Extractor", 2, 4),
      Progress("Risk Assessor", 3, 4), Progress("Scenario Predictor", 4, 4)]
  {
  }

  /** A trace without notifications holds only agent runs. */
  lemma OnlyRuns(trace: seq<Event>)
    requires Notices(trace) == []
    ensures forall i :: 0 <= i < |trace| ==> trace[i].Ran?
  {
    forall i | 0 <= i < |trace|
      ensures trace[i].Ran?
    {
      if trace[i].Progress? {
        NoticeCounted(trace, i);
      }
    }
  }

  /** A notification at some position of a trace is among the trace's notices. */
  lemma {:induction false} NoticeCounted(trace: seq<Event>, i: nat)
    requires i < |trace| && trace[i].Progress?
    ensures Notices(trace) != []
    decreases |trace|
  {
    var n := |trace| - 1;
    if i < n {
      assert trace[..n][i] == trace[i];
      NoticeCounted(trace[..n], i);
    }
  }

  /**
   * The messages of a complete run, written out: the Summarizer gets the
   * article text; the Insights Extractor the article text and the summary; the
   * Risk Assessor the article text and the insights only; the Scenario
   * Predictor the article text, the insights and the risk assessment, but not
   * the summary.
   */
  lemma StageMessages(title: string, content: string, hasProgress: bool,
                      run: (Stage, string) -> Result<string>, trace: seq<Event>, result: Result<Analysis>)
    requires Pipelined(title, content, hasProgress, run, trace, result) && result.Success?
    ensures var calls := Runs(trace);
      var article := "Title: " + title + "\n\nContent:\n" + content;
      && calls[0].input == article
      && calls[1].input == article + "\n\n--- Summary ---\n" + result.value.summary
      && calls[2].input == article + "\n\n--- Insights ---\n" + result.value.insights
      && calls[3].input == article + "\n\n--- Insights ---\n" + result.value.insights
                                   + "\n\n--- Risk Assessment ---\n" + result.value.riskAssessment
  {
    var calls := Runs(trace);
    assert Items(result.value)[0] == (ResultKeys[0], Outputs(run, calls)[0]);
    assert Items(result.value)[1] == (ResultKeys[1], Outputs(run, calls)[1]);
    assert Items(result.value)[2] == (ResultKeys[2], Outputs(run, calls)[2]);
    assert Outputs(run, calls[..1]) == [result.value.summary];
    assert Outputs(run, calls[..2]) == [result.value.summary, result.value.insights];
    assert Outputs(run, calls[..3]) == [result.value.summary, result.value.insights, result.value.riskAssessment];
  }

  // ---------------------------------------------------------------------------
  // Agents and their lazily created client

  const Temperature: real := 0.3

  /** The chat-completion request `Agent.run` sends: system prompt, then the user message. */
  datatype Request = Request(apiKey: string, model: string, system: string, user: string, temperature: real)

  /** Stands for the service client; it keeps the API key it was built with. */
  class Client {
    const apiKey: string

    constructor (apiKey: string)
      ensures this.apiKey == apiKey
    {
      this.apiKey := apiKey;
    }
  }

  /** `Agent`: a name, a fixed system prompt and a client created on first use. */
  class Agent {
    const name: string
    const systemPrompt: string
    var client: Client?  // `_client`
    ghost var built: nat  // how many clients this agent has constructed

    /** A client has been built exactly when the cache is filled, and at most once. */
    ghost predicate Valid()
      reads this
    {
      built == if client == null then 0 else 1
    }

    constructor (name: string, systemPrompt: string)
      ensures Valid() && client == null
      ensures this.name == name && this.systemPrompt == systemPrompt
    {
      this.name := name;
      this.systemPrompt := systemPrompt;
      client := null;
      built := 0;
    }

    /** The `client` property: built from the current API key on first access, then reused. */
    method GetClient(apiKey: string) returns (c: Client)
      requires Valid()
      modifies this
      ensures Valid() && client == c && built <= 1
      ensures old(client) != null ==> c == old(client) && built == old(built)
      ensures old(client) == null ==> fresh(c) && c.apiKey == apiKey && built == old(built) + 1
    {
      if client == null {
        client := new Client(apiKey);
        built := built + 1;
      }
      c := client;
    }

    /** `run`: one chat completion with this agent's prompt, the configured model and temperature 0.3. */
    method Run(settings: Config.Settings, complete: Request -> Result<string>, userInput: string)
      returns (reply: Result<string>)
      requires Valid()
      modifies this
      ensures Valid() && client != null && built <= 1
      ensures old(client) != null ==> client == old(client)
      ensures old(client) == null ==> client.apiKey == settings.apiKey
      ensures reply == complete(Request(client.apiKey, settings.model, systemPrompt, userInput, Temperature))
    {
      var c := GetClient(settings.apiKey);
      reply := complete(Request(c.apiKey, settings.model, systemPrompt, userInput, Temperature));
    }
  }
}
