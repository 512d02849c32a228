/**
 * The review loop of `workflow_orchestrator`: up to five rounds of extracting
 * the code from the coder's reply, running it on the test cases, having it
 * reviewed (by the debugger when a case fails, by the auditor otherwise),
 * and asking the coder for a revision, until a review of 95 or more on a
 * passing run ends the loop. What the language model answers and what running
 * the program prints are inputs: one `RoundInput` per round, and an
 * `Executor` for the sandboxed runs.
 */
module Review {
  import opened Wrappers
  import opened PyText
  import opened PyJson
  import opened Normalize
  import opened Extraction
  import opened Audit

  /** `max_retries`: the loop makes at most `MaxRetries + 1` rounds. */
  const MaxRetries: nat := 4

  datatype Role = User | Assistant

  /** An entry of `chat_history`. */
  datatype Message = Message(role: Role, content: string)

  /** How running the program on one input ended. */
  datatype ExecOutcome =
    | Finished(stdout: string, stderr: string)
    | CompileError(diagnostics: string)
    | TimedOut
    | HarnessError(message: string)

  /** Running a program, in a language, on a standard input. */
  type Executor = (string, Lang, string) -> ExecOutcome

  /** `run_code`'s `(actual, error)` pair for an outcome. */
  function RunCode(o: ExecOutcome): (r: (string, string))
    ensures o.Finished? ==> r == (NormalizeOutput(o.stdout), NormalizeOutput(o.stderr))
    ensures !o.Finished? ==> r.0 == []
  {
    match o
    case Finished(out, err) => (NormalizeOutput(out), NormalizeOutput(err))
    case CompileError(d) => ("", "Compile Error: " + d)
    case TimedOut => ("", "Timeout")
    case HarnessError(m) => ("", m)
  }

  /** What the loop reads but never changes. */
  datatype Context = Context(
    category: string,                         // task_category: "task", "code", ...
    testCases: seq<seq<(string, Json)>>,      // validated cases, each a dict
    targetLanguage: string,
    design: Option<seq<(string, Json)>>,      // approved_design: None or a dict
    parse: Parser,                            // json.loads
    execute: Executor)

  /** `if approved_design:`. */
  predicate HasDesign(ctx: Context) {
    ctx.design.Some? && ctx.design.value != []
  }

  /** What the model answers in one round. */
  datatype RoundInput = RoundInput(
    debugReply: string,                       // the debugger, when a case failed
    auditReply: string,                       // the auditor, when all passed
    regenerated: Option<string>)              // the coder's new reply; None when the stream broke

  // ---------------------------------------------------------------------------
  // Running the test cases

  function CaseInput(c: seq<(string, Json)>): string {
    Str(DictGet(c, "input", JStr("")))
  }

  function CaseExpected(c: seq<(string, Json)>): string {
    NormalizeOutput(Str(DictGet(c, "output", JStr(""))))
  }

  /** What running one case gave: `(actual, error)` and the normalized expected output. */
  datatype CaseRun = CaseRun(actual: string, error: string, expected: string)

  /** Runs the code on one case. */
  function RunCase(execute: Executor, code: string, lang: Lang, c: seq<(string, Json)>): CaseRun {
    var output := RunCode(execute(code, lang, CaseInput(c)));
    CaseRun(output.0, output.1, CaseExpected(c))
  }

  /**
   * A program that does not compile or runs out of time reports an error,
   * so its case fails; any other failure of the harness reports `str(e)`.
   */
  lemma RunCodeErrors(execute: Executor, code: string, lang: Lang, c: seq<(string, Json)>)
    ensures var o := execute(code, lang, CaseInput(c));
      && ((o.CompileError? || o.TimedOut?) ==> RunCode(o).1 != [] && !CasePasses(execute, code, lang, c))
      && (o.HarnessError? ==> RunCode(o) == ("", o.message))
  {
  }

  /** A case passes when the run reports no error and prints the expected output. */
  predicate Passes(r: CaseRun) {
    r.error == [] && r.actual == r.expected
  }

  predicate CasePasses(execute: Executor, code: string, lang: Lang, c: seq<(string, Json)>) {
    Passes(RunCase(execute, code, lang, c))
  }

  /** The part of `run_report` written for the case at `idx`; empty exactly when it passes. */
  function CaseReport(idx: nat, r: CaseRun): (s: string)
    ensures s == [] <==> Passes(r)
  {
    if Passes(r) then "" else FailureLine(idx, r)
  }

  /** The report line of a failing case: its error, or the expected and the actual output. */
  function FailureLine(idx: nat, r: CaseRun): (s: string)
    requires !Passes(r)
    ensures s != []
  {
    if r.error != [] then "[Case " + NatToString(idx + 1) + " Error] " + r.error + "\n"
    else
      "[Case " + NatToString(idx + 1) + " Fail]\nExpected:\n" + Take(r.expected, 150)
      + "\nActual:\n" + Take(r.actual, 150) + "\n"
  }

  /** Running one program on any case. */
  function Runner(execute: Executor, code: string, lang: Lang): seq<(string, Json)> -> CaseRun {
    c => RunCase(execute, code, lang, c)
  }

  /** The runs of all cases, in order, by a runner. */
  function RunsOf(run: seq<(string, Json)> -> CaseRun, cases: seq<seq<(string, Json)>>): (runs: seq<CaseRun>)
    ensures |runs| == |cases|
    ensures forall k :: 0 <= k < |cases| ==> runs[k] == run(cases[k])
  {
    seq(|cases|, k requires 0 <= k < |cases| => run(cases[k]))
  }

  /** The runs of all cases, in order. */
  function Runs(execute: Executor, code: string, lang: Lang, cases: seq<seq<(string, Json)>>): (runs: seq<CaseRun>)
    ensures |runs| == |cases|
  {
    RunsOf(Runner(execute, code, lang), cases)
  }

  /** The run at `k` is the run of the case at `k`. */
  lemma RunsAt(execute: Executor, code: string, lang: Lang, cases: seq<seq<(string, Json)>>, k: nat)
    requires k < |cases|
    ensures Runs(execute, code, lang, cases)[k] == RunCase(execute, code, lang, cases[k])
  {
  }

  /** The reports of the runs from `idx` on, in order. */
  function Reports(runs: seq<CaseRun>, idx: nat): string
    requires idx <= |runs|
    decreases |runs| - idx
  {
    if idx == |runs| then []
    else CaseReport(idx, runs[idx]) + Reports(runs, idx + 1)
  }

  /** Every run from `idx` on passes. */
  predicate PassFrom(runs: seq<CaseRun>, idx: nat)
    requires idx <= |runs|
    decreases |runs| - idx
  {
    idx == |runs| || (Passes(runs[idx]) && PassFrom(runs, idx + 1))
  }

  /** The report is empty exactly when every run from `idx` on passes. */
  lemma {:induction false} ReportsEmpty(runs: seq<CaseRun>, idx: nat)
    requires idx <= |runs|
    ensures Reports(runs, idx) == [] <==> PassFrom(runs, idx)
    decreases |runs| - idx
  {
    if idx == |runs| {
      assert Reports(runs, idx) == [] && PassFrom(runs, idx);
    } else {
      ReportsEmpty(runs, idx + 1);
      var line := CaseReport(idx, runs[idx]);
      var rest := Reports(runs, idx + 1);
      assert Reports(runs, idx) == line + rest;
      assert PassFrom(runs, idx) == (Passes(runs[idx]) && PassFrom(runs, idx + 1));
      if line == [] && rest == [] {
        assert line + rest == [];
      } else {
        assert |line + rest| > 0;
      }
    }
  }

  lemma {:induction false} PassFromEach(runs: seq<CaseRun>, idx: nat)
    requires idx <= |runs|
    ensures PassFrom(runs, idx) <==> forall k :: idx <= k < |runs| ==> Passes(runs[k])
    decreases |runs| - idx
  {
    if idx < |runs| {
      PassFromEach(runs, idx + 1);
    }
  }

  /** Reporting one more case moves its line from the pending reports to the written ones. */
  lemma ReportsStep(runs: seq<CaseRun>, idx: nat, report: string)
    requires idx < |runs|
    ensures report + Reports(runs, idx) == (report + CaseReport(idx, runs[idx])) + Reports(runs, idx + 1)
  {
    var line := CaseReport(idx, runs[idx]);
    assert Reports(runs, idx) == line + Reports(runs, idx + 1);
    assert report + (line + Reports(runs, idx + 1)) == (report + line) + Reports(runs, idx + 1);
  }

  const TaskModeReport: string := "任务模式：跳过自动测试。"
  const NoCasesReport: string := "无测试样例。"

  /** `run_passed` and `run_report` of a round. */
  datatype TestResult = TestResult(passed: bool, report: string)

  /** Whether a round runs the cases at all: it needs cases and a category other than "task". */
  predicate Tested(ctx: Context) {
    ctx.testCases != [] && ctx.category != "task"
  }

  /** The outcome of testing `code`. */
  function TestRun(ctx: Context, code: string, lang: Lang): TestResult {
    if Tested(ctx) then
      var runs := Runs(ctx.execute, code, lang, ctx.testCases);
      TestResult(PassFrom(runs, 0), Reports(runs, 0))
    else TestResult(true, if ctx.category == "task" then TaskModeReport else NoCasesReport)
  }

  /**
   * A round passes exactly when no case fails (vacuously when nothing is
   * tested), and a tested round's report is empty exactly when it passes.
   */
  lemma TestRunPasses(ctx: Context, code: string, lang: Lang)
    ensures TestRun(ctx, code, lang).passed <==>
      !Tested(ctx) || forall k :: 0 <= k < |ctx.testCases| ==> CasePasses(ctx.execute, code, lang, ctx.testCases[k])
    ensures Tested(ctx) ==> (TestRun(ctx, code, lang).passed <==> TestRun(ctx, code, lang).report == [])
  {
    var runs := Runs(ctx.execute, code, lang, ctx.testCases);
    ReportsEmpty(runs, 0);
    PassFromEach(runs, 0);
    forall k | 0 <= k < |runs| ensures runs[k] == RunCase(ctx.execute, code, lang, ctx.testCases[k]) {
      RunsAt(ctx.execute, code, lang, ctx.testCases, k);
    }
  }

  /** The test phase of a round: every case is run, and each failing one adds to the report. */
  method RunTests(ctx: Context, code: string, lang: Lang) returns (passed: bool, report: string)
    ensures TestResult(passed, report) == TestRun(ctx, code, lang)
  {
    passed := true;
    report := "";
    if !Tested(ctx) {
      if ctx.category == "task" {
        report := TaskModeReport;
      } else {
        report := NoCasesReport;
      }
      return;
    }
    passed, report := RunCases(Runner(ctx.execute, code, lang), ctx.testCases);
  }

  /** The loop over the cases: each is run, and each failing one adds its line to the report. */
  method RunCases(run: seq<(string, Json)> -> CaseRun, cases: seq<seq<(string, Json)>>)
    returns (passed: bool, report: string)
    ensures var runs := RunsOf(run, cases);
      passed == PassFrom(runs, 0) && report == Reports(runs, 0)
  {
    passed := true;
    report := "";
    ghost var runs := RunsOf(run, cases);
    var idx := 0;
    while idx < |cases|
      invariant 0 <= idx <= |cases|
      invariant report + Reports(runs, idx) == Reports(runs, 0)
      invariant PassFrom(runs, 0) <==> passed && PassFrom(runs, idx)
    {
      var ok, line := CheckCase(run, idx, cases[idx]);
      CaseStep(runs, idx, passed, report, ok, line);
      passed := passed && ok;
      report := report + line;
      idx := idx + 1;
    }
    assert report + [] == report;
  }

  /** Checking the case at `idx` keeps the loop's account of the verdict and the report. */
  lemma CaseStep(runs: seq<CaseRun>, idx: nat, passed: bool, report: string, ok: bool, line: string)
    requires idx < |runs|
    requires ok == Passes(runs[idx]) && line == CaseReport(idx, runs[idx])
    requires report + Reports(runs, idx) == Reports(runs, 0)
    requires PassFrom(runs, 0) <==> passed && PassFrom(runs, idx)
    ensures (report + line) + Reports(runs, idx + 1) == Reports(runs, 0)
    ensures PassFrom(runs, 0) <==> (passed && ok) && PassFrom(runs, idx + 1)
  {
    ReportsStep(runs, idx, report);
  }

  /** One case: the code is run on its input, and an error is reported before a wrong output. */
  method CheckCase(run: seq<(string, Json)> -> CaseRun, idx: nat, c: seq<(string, Json)>)
    returns (ok: bool, line: string)
    ensures ok == Passes(run(c))
    ensures line == CaseReport(idx, run(c))
  {
    var result := run(c);
    ok := true;
    line := "";
    if result.error != [] {
      ok := false;
      line := "[Case " + NatToString(idx + 1) + " Error] " + result.error + "\n";
    } else if result.actual != result.expected {
      ok := false;
      line := "[Case " + NatToString(idx + 1) + " Fail]\nExpected:\n" + Take(result.expected, 150)
              + "\nActual:\n" + Take(result.actual, 150) + "\n";
    }
  }

  // ---------------------------------------------------------------------------
  // One round

  /** The state the loop carries from round to round. */
  datatype LoopState = LoopState(
    code: string,                  // current_code_raw
    history: seq<Message>,         // chat_history
    previousScore: int,            // previous_score
    runPassed: Option<bool>,       // run_passed; None while still unbound
    runReport: string,             // run_report
    finalReview: Option<Verdict>,  // final_review
    iterations: seq<Iteration>)    // the "iteration" events sent to the client

  /**
   * The state on entering the loop: the code and the history built before
   * it, `previous_score = 0`, `final_review = None`, and `run_passed` and
   * `run_report` not yet bound.
   */
  function Init(code: string, history: seq<Message>): (st: LoopState)
    ensures st.code == code && st.history == history && st.iterations == []
    ensures st.previousScore == 0 && st.runPassed.None? && st.finalReview.None?
  {
    LoopState(code, history, 0, None, "", None, [])
  }

  /** An "iteration" event: the round number, the coder's reply and its review. */
  datatype Iteration = Iteration(round: nat, code: string, review: Verdict)

  const NoCodeBlock: string := "错误：未检测到代码块。请输出 ```cpp 或 ```python。"

  const PolishRequest: string :=
    "代码功能已通过测试。现在请**优化代码风格**：\n1. 规范变量命名。\n2. 添加详细中文注释。\n3. 优化代码结构（保持功能不变）。\n问题参考: "

  /** The user message asking for a revision. */
  function RefineInstruction(ctx: Context, review: Verdict, runReport: string, firstRun: bool): string {
    var request :=
      if firstRun then PolishRequest + review.critique
      else "问题:\n" + review.critique + "\n\n报告:\n" + runReport + "\n\n请修改代码。保持使用 " + ctx.targetLanguage + "。";
    if HasDesign(ctx) then
      request + "\n\n**警报**：严禁更改【" + Str(DictGet(ctx.design.value, "algorithm", JNull)) + "】算法框架！"
    else request
  }

  /** The coder's streamed answer: a finished stream replaces the code and is recorded. */
  function Regenerate(st: LoopState, reply: Option<string>): LoopState {
    match reply
    case Some(text) => st.(code := text, history := st.history + [Message(Assistant, text)])
    case None => st
  }

  /** The review of a round and the previous score the next round sees. */
  function ReviewOf(ctx: Context, input: RoundInput, passed: bool, previous: int): AuditOutcome {
    if passed then AuditVerdict(input.auditReply, ctx.parse, previous)
    else AuditOutcome(DebugVerdict(input.debugReply, ctx.parse), previous)
  }

  /** `is_user_first_run`: a passing first round of user code is always sent back for polishing. */
  predicate FirstRun(ctx: Context, attempt: nat, passed: bool) {
    ctx.category == "code" && attempt == 0 && passed
  }

  /** What a round finds before it decides: no code, or the test result and the review. */
  datatype Observation =
    | NoCode
    | Checked(run: TestResult, outcome: AuditOutcome)

  /** The extraction, the tests and the review of a round. */
  function Observe(ctx: Context, st: LoopState, input: RoundInput): Observation {
    var pure := ExtractCode(st.code);
    if pure == [] then NoCode
    else
      var run := TestRun(ctx, pure, DetectLanguage(st.code));
      Checked(run, ReviewOf(ctx, input, run.passed, st.previousScore))
  }

  /** A round's new state, and whether it leaves the loop with `break`. */
  datatype StepResult = StepResult(state: LoopState, stop: bool)

  /** The rest of round `attempt` (from 0), once it has observed `obs`. */
  function Advance(ctx: Context, st: LoopState, attempt: nat, regenerated: Option<string>, obs: Observation): StepResult {
    match obs
    case NoCode =>
      StepResult(Regenerate(st.(history := st.history + [Message(User, NoCodeBlock)]), regenerated), false)
    case Checked(run, outcome) =>
      var review := outcome.verdict;
      var firstRun := FirstRun(ctx, attempt, run.passed);
      var tested := st.(runPassed := Some(run.passed), runReport := run.report, previousScore := outcome.previous,
                        iterations := st.iterations + [Iteration(attempt + 1, st.code, review)]);
      if review.score >= 95 && run.passed && !firstRun then
        StepResult(tested.(finalReview := Some(review)), true)
      else if attempt < MaxRetries then
        var asked := tested.(history := tested.history + [Message(User, RefineInstruction(ctx, review, run.report, firstRun))]);
        StepResult(Regenerate(asked, regenerated), false)
      else
        StepResult(tested.(finalReview := Some(review)), false)
  }

  /** How the rounds observe a state, given the model's answers of the round. */
  type Observer = (LoopState, RoundInput) -> Observation

  /**
   * The rounds from `attempt` on, for any way of observing a round; `stop`
   * tells whether the loop was left with `break`.
   */
  function RunWith(ctx: Context, observe: Observer, inputs: nat -> RoundInput, st: LoopState, attempt: nat): StepResult
    decreases MaxRetries + 1 - attempt
  {
    if attempt > MaxRetries then StepResult(st, false)
    else
      var input := inputs(attempt);
      var r := Advance(ctx, st, attempt, input.regenerated, observe(st, input));
      if r.stop then r else RunWith(ctx, observe, inputs, r.state, attempt + 1)
  }

  /** The observer of the orchestrator. */
  function Observing(ctx: Context): Observer {
    (s: LoopState, input: RoundInput) => Observe(ctx, s, input)
  }

  /** The whole loop from its initial state. */
  function Run(ctx: Context, inputs: nat -> RoundInput, init: LoopState): StepResult {
    RunWith(ctx, Observing(ctx), inputs, init, 0)
  }

  /** The observation of a round: extract the code, run the cases, have the result reviewed. */
  method ObserveRound(ctx: Context, st: LoopState, input: RoundInput) returns (obs: Observation)
    ensures obs == Observe(ctx, st, input)
  {
    var lang := DetectLanguage(st.code);
    var pure := ExtractCodeContent(st.code);
    if pure == [] {
      return NoCode;
    }
    var passed, report := RunTests(ctx, pure, lang);
    var review: Verdict;
    var previous := st.previousScore;
    if !passed {
      review := DebugVerdict(input.debugReply, ctx.parse);
    } else {
      var outcome := AuditVerdict(input.auditReply, ctx.parse, previous);
      review := outcome.verdict;
      previous := outcome.previous;
    }
    return Checked(TestResult(passed, report), AuditOutcome(review, previous));
  }

  /** The review loop, round by round, as the orchestrator runs it. */
  method ReviewLoop(ctx: Context, inputs: nat -> RoundInput, init: LoopState) returns (st: LoopState, broke: bool)
    ensures StepResult(st, broke) == Run(ctx, inputs, init)
  {
    st, broke := Rounds(ctx, Observing(ctx), inputs, init);
  }

  /** An observer that observes each round as the orchestrator does. */
  ghost predicate Faithful(ctx: Context, observe: Observer) {
    forall s, input {:trigger Observe(ctx, s, input)} :: observe(s, input) == Observe(ctx, s, input)
  }

  /**
   * The loop `for attempt in range(max_retries + 1)`, stated for a faithful
   * observer so that a round's observation is only looked into where it is made.
   */
  method Rounds(ctx: Context, ghost observe: Observer, inputs: nat -> RoundInput, init: LoopState)
    returns (st: LoopState, broke: bool)
    requires Faithful(ctx, observe)
    ensures StepResult(st, broke) == RunWith(ctx, observe, inputs, init, 0)
  {
    st := init;
    broke := false;
    var attempt := 0;
    while attempt <= MaxRetries
      invariant attempt <= MaxRetries + 1
      invariant RunWith(ctx, observe, inputs, st, attempt) == RunWith(ctx, observe, inputs, init, 0)
    {
      var stop;
      st, stop := Round(ctx, observe, inputs, st, attempt);
      if stop {
        return st, true;
      }
      attempt := attempt + 1;
    }
  }

  /** One round of the loop: observe, then advance; the rounds left are those of the new state. */
  method Round(ctx: Context, ghost observe: Observer, inputs: nat -> RoundInput, st: LoopState, attempt: nat)
    returns (next: LoopState, stop: bool)
    requires Faithful(ctx, observe) && attempt <= MaxRetries
    ensures stop ==> RunWith(ctx, observe, inputs, st, attempt) == StepResult(next, true)
    ensures !stop ==> RunWith(ctx, observe, inputs, st, attempt) == RunWith(ctx, observe, inputs, next, attempt + 1)
  {
    var input := inputs(attempt);
    var obs := ObserveRound(ctx, st, input);
    next, stop := AdvanceRound(ctx, st, attempt, input.regenerated, obs);
  }

  /** The rest of a round: record the review, then leave the loop, ask for a revision, or give up. */
  method AdvanceRound(ctx: Context, st: LoopState, attempt: nat, regenerated: Option<string>, obs: Observation)
    returns (next: LoopState, stop: bool)
    ensures StepResult(next, stop) == Advance(ctx, st, attempt, regenerated, obs)
  {
    stop := false;
    if obs.NoCode? {
      next := Regenerate(st.(history := st.history + [Message(User, NoCodeBlock)]), regenerated);
      return;
    }
    var review := obs.outcome.verdict;
    var passed := obs.run.passed;
    var firstRun := ctx.category == "code" && attempt == 0 && passed;
    next := st.(runPassed := Some(passed), runReport := obs.run.report, previousScore := obs.outcome.previous,
                iterations := st.iterations + [Iteration(attempt + 1, st.code, review)]);
    if review.score >= 95 && passed && !firstRun {
      next := next.(finalReview := Some(review));
      stop := true;
    } else if attempt < MaxRetries {
      var instruction := RefineInstruction(ctx, review, obs.run.report, firstRun);
      next := Regenerate(next.(history := next.history + [Message(User, instruction)]), regenerated);
    } else {
      next := next.(finalReview := Some(review));
    }
  }

  // ---------------------------------------------------------------------------
  // Properties of a round

  /** `a` is a prefix of `b`. */
  predicate Extends<T(==)>(a: seq<T>, b: seq<T>) {
    |a| <= |b| && b[..|a|] == a
  }

  /**
   * A round only appends: at most two messages (the request and the
   * coder's answer) and at most one iteration event.
   */
  lemma AdvanceAppends(ctx: Context, st: LoopState, attempt: nat, regenerated: Option<string>, obs: Observation)
    ensures var r := Advance(ctx, st, attempt, regenerated, obs).state;
      && Extends(st.history, r.history) && |r.history| <= |st.history| + 2
      && Extends(st.iterations, r.iterations) && |r.iterations| <= |st.iterations| + 1
  {
    var r := Advance(ctx, st, attempt, regenerated, obs).state;
    if obs.Checked? {
      assert r.iterations[..|st.iterations|] == st.iterations;
    }
    assert r.history[..|st.history|] == st.history;
  }

  /** A round whose reply holds no code tests nothing, reviews nothing and asks again. */
  lemma AdvanceWithoutCode(ctx: Context, st: LoopState, attempt: nat, regenerated: Option<string>)
    ensures var r := Advance(ctx, st, attempt, regenerated, NoCode);
      && !r.stop
      && r.state.iterations == st.iterations
      && r.state.runPassed == st.runPassed && r.state.runReport == st.runReport
      && r.state.finalReview == st.finalReview && r.state.previousScore == st.previousScore
      && r.state.history[|st.history|] == Message(User, NoCodeBlock)
      && (regenerated.None? ==> r.state.code == st.code)
  {
  }

  /**
   * The loop is left early exactly on a passing run whose review scores 95
   * or more, except on the first round of user-supplied code.
   */
  lemma AdvanceStopsIff(ctx: Context, st: LoopState, attempt: nat, regenerated: Option<string>, obs: Observation)
    ensures Advance(ctx, st, attempt, regenerated, obs).stop <==>
      && obs.Checked?
      && obs.run.passed
      && obs.outcome.verdict.score >= 95
      && !FirstRun(ctx, attempt, true)
  {
  }

  /** Whatever the review says, the first passing round of user code is sent back for polishing. */
  lemma FirstRoundOfUserCodeContinues(ctx: Context, st: LoopState, regenerated: Option<string>, obs: Observation)
    requires ctx.category == "code"
    ensures !Advance(ctx, st, 0, regenerated, obs).stop
  {
  }

  /** A review of 95 or more is a passing review of a passing run. */
  predicate Sound(obs: Observation) {
    obs.Checked? && obs.outcome.verdict.score >= 95 ==> obs.outcome.verdict.passed && obs.run.passed
  }

  /** Only the auditor can award 95: the debugger gives 40 at most, and a failed audit 0. */
  lemma ReviewOfHighScore(ctx: Context, input: RoundInput, passed: bool, previous: int)
    ensures ReviewOf(ctx, input, passed, previous).verdict.score >= 95 ==>
      passed && ReviewOf(ctx, input, passed, previous).verdict.passed
  {
  }

  /** The previous score moves only on a passing run whose audit was decoded, and then to the raw audited score. */
  lemma ReviewOfPrevious(ctx: Context, input: RoundInput, passed: bool, previous: int)
    ensures var o := ReviewOf(ctx, input, passed, previous);
      (!passed || !o.verdict.passed ==> o.previous == previous)
      && (passed && o.verdict.passed ==>
            o.previous == SanitizeJson(ctx.parse(CleanJsonText(input.auditReply)).value, input.auditReply).value.score)
  {
  }

  lemma ObserveSound(ctx: Context, st: LoopState, input: RoundInput)
    ensures Sound(Observe(ctx, st, input))
  {
    var obs := Observe(ctx, st, input);
    if obs.Checked? {
      ReviewOfHighScore(ctx, input, obs.run.passed, st.previousScore);
    }
  }

  /** A round without code is observed as such, whatever the model answers. */
  lemma ObserveWithoutCode(ctx: Context, st: LoopState, input: RoundInput)
    requires ExtractCode(st.code) == []
    ensures Observe(ctx, st, input) == NoCode
  {
  }

  /**
   * A round that leaves the loop leaves a passing run and a passing final
   * review of 95 or more, which is the review of its own iteration event.
   */
  lemma AdvanceStopFacts(ctx: Context, st: LoopState, attempt: nat, regenerated: Option<string>, obs: Observation)
    requires Sound(obs)
    requires Advance(ctx, st, attempt, regenerated, obs).stop
    ensures var r := Advance(ctx, st, attempt, regenerated, obs).state;
      && r.runPassed == Some(true)
      && r.finalReview.Some? && r.finalReview.value.score >= 95 && r.finalReview.value.passed
      && |r.iterations| == |st.iterations| + 1
      && r.iterations[|st.iterations|].review == r.finalReview.value
  {
  }

  /**
   * Two passing rounds in a row whose audits decode to the same score of 85
   * or more end the loop at the second one, with a final score of 95.
   */
  lemma SteadyScoreStops(ctx: Context, st: LoopState, attempt: nat, input: RoundInput)
    requires attempt > 0
    requires ExtractCode(st.code) != [] && TestRun(ctx, ExtractCode(st.code), DetectLanguage(st.code)).passed
    requires var o := AuditVerdict(input.auditReply, ctx.parse, st.previousScore);
      o.verdict.passed && o.previous == st.previousScore && st.previousScore >= 85
    ensures var r := Advance(ctx, st, attempt, input.regenerated, Observe(ctx, st, input));
      r.stop && r.state.finalReview.Some? && r.state.finalReview.value.score == 95
  {
    var run := TestRun(ctx, ExtractCode(st.code), DetectLanguage(st.code));
    var o := AuditVerdict(input.auditReply, ctx.parse, st.previousScore);
    EscalateRepeated(st.previousScore, o.verdict.critique);
    ObserveWithCode(ctx, st, input);
    AdvanceStopsIff(ctx, st, attempt, input.regenerated, Checked(run, o));
  }

  /** With code in the reply, a round is observed by running the cases and reviewing the result. */
  lemma ObserveWithCode(ctx: Context, st: LoopState, input: RoundInput)
    requires ExtractCode(st.code) != []
    ensures var run := TestRun(ctx, ExtractCode(st.code), DetectLanguage(st.code));
      Observe(ctx, st, input) == Checked(run, ReviewOf(ctx, input, run.passed, st.previousScore))
  {
  }

  // ---------------------------------------------------------------------------
  // Properties of the whole loop

  /** At most five rounds are reviewed, and iteration events are only ever appended. */
  lemma {:induction false} RunIterationsBounded(ctx: Context, observe: Observer, inputs: nat -> RoundInput, st: LoopState, attempt: nat)
    requires attempt <= MaxRetries + 1
    ensures var end := RunWith(ctx, observe, inputs, st, attempt).state;
      Extends(st.iterations, end.iterations) && |end.iterations| <= |st.iterations| + (MaxRetries + 1 - attempt)
    decreases MaxRetries + 1 - attempt
  {
    if attempt <= MaxRetries {
      var input := inputs(attempt);
      var obs := observe(st, input);
      var r := Advance(ctx, st, attempt, input.regenerated, obs);
      AdvanceAppends(ctx, st, attempt, input.regenerated, obs);
      if !r.stop {
        RunIterationsBounded(ctx, observe, inputs, r.state, attempt + 1);
        var end := RunWith(ctx, observe, inputs, r.state, attempt + 1).state;
        ExtendsTransitive(st.iterations, r.state.iterations, end.iterations);
      }
    } else {
      assert st.iterations[..|st.iterations|] == st.iterations;
    }
  }

  /** The loop adds at most two messages per round to the history, and only appends. */
  lemma {:induction false} RunHistoryBounded(ctx: Context, observe: Observer, inputs: nat -> RoundInput, st: LoopState, attempt: nat)
    requires attempt <= MaxRetries + 1
    ensures var end := RunWith(ctx, observe, inputs, st, attempt).state;
      Extends(st.history, end.history) && |end.history| <= |st.history| + 2 * (MaxRetries + 1 - attempt)
    decreases MaxRetries + 1 - attempt
  {
    if attempt <= MaxRetries {
      var input := inputs(attempt);
      var obs := observe(st, input);
      var r := Advance(ctx, st, attempt, input.regenerated, obs);
      AdvanceAppends(ctx, st, attempt, input.regenerated, obs);
      if !r.stop {
        RunHistoryBounded(ctx, observe, inputs, r.state, attempt + 1);
        var end := RunWith(ctx, observe, inputs, r.state, attempt + 1).state;
        ExtendsTransitive(st.history, r.state.history, end.history);
      }
    } else {
      assert st.history[..|st.history|] == st.history;
    }
  }

  lemma ExtendsTransitive<T>(a: seq<T>, b: seq<T>, c: seq<T>)
    requires Extends(a, b) && Extends(b, c)
    ensures Extends(a, c)
  {
    assert c[..|a|] == c[..|b|][..|a|];
  }

  /**
   * A loop that starts without a final review ends with one only if some
   * round was reviewed, and the final review is the review of the last
   * iteration event.
   */
  lemma {:induction false} RunFinalReview(ctx: Context, observe: Observer, inputs: nat -> RoundInput, st: LoopState, attempt: nat)
    requires st.finalReview.None?
    ensures var end := RunWith(ctx, observe, inputs, st, attempt).state;
      end.finalReview.Some? ==>
        |end.iterations| > |st.iterations| && end.finalReview.value == end.iterations[|end.iterations| - 1].review
    decreases MaxRetries + 1 - attempt
  {
    if attempt <= MaxRetries {
      var input := inputs(attempt);
      var obs := observe(st, input);
      var r := Advance(ctx, st, attempt, input.regenerated, obs);
      if r.stop {
      } else if r.state.finalReview.None? {
        RunFinalReview(ctx, observe, inputs, r.state, attempt + 1);
        AdvanceAppends(ctx, st, attempt, input.regenerated, obs);
        RunIterationsBounded(ctx, observe, inputs, r.state, attempt + 1);
      } else {
        assert attempt == MaxRetries;
      }
    }
  }

  /**
   * From the loop's entry state, a final review is set only after some
   * round was reviewed, and it is the review of the last iteration event.
   */
  lemma LoopFinalReview(ctx: Context, inputs: nat -> RoundInput, code: string, history: seq<Message>)
    ensures var end := Run(ctx, inputs, Init(code, history)).state;
      end.finalReview.Some? ==> end.iterations != [] && end.finalReview.value == end.iterations[|end.iterations| - 1].review
  {
    RunFinalReview(ctx, Observing(ctx), inputs, Init(code, history), 0);
  }

  /** A loop left with `break` has passed its tests and earned a passing review of 95 or more. */
  lemma {:induction false} RunEarlyExit(ctx: Context, observe: Observer, inputs: nat -> RoundInput, st: LoopState, attempt: nat)
    requires forall s, input :: Sound(observe(s, input))
    requires RunWith(ctx, observe, inputs, st, attempt).stop
    ensures var end := RunWith(ctx, observe, inputs, st, attempt).state;
      && end.runPassed == Some(true)
      && end.finalReview.Some? && end.finalReview.value.score >= 95 && end.finalReview.value.passed
    decreases MaxRetries + 1 - attempt
  {
    var input := inputs(attempt);
    var obs := observe(st, input);
    var r := Advance(ctx, st, attempt, input.regenerated, obs);
    if r.stop {
      AdvanceStopFacts(ctx, st, attempt, input.regenerated, obs);
    } else {
      RunEarlyExit(ctx, observe, inputs, r.state, attempt + 1);
    }
  }

  /** The orchestrator's loop, when left with `break`, ends on a passing run with a passing review of 95 or more. */
  lemma LoopEarlyExit(ctx: Context, inputs: nat -> RoundInput, init: LoopState)
    requires Run(ctx, inputs, init).stop
    ensures var end := Run(ctx, inputs, init).state;
      && end.runPassed == Some(true)
      && end.finalReview.Some? && end.finalReview.value.score >= 95 && end.finalReview.value.passed
  {
    forall s, input ensures Sound(Observing(ctx)(s, input)) {
      ObserveSound(ctx, s, input);
    }
    RunEarlyExit(ctx, Observing(ctx), inputs, init, 0);
  }

  // ---------------------------------------------------------------------------
  // After the loop

  /** Where the orchestrator goes once the loop is over. */
  datatype Outcome =
    | Crashed(error: string)                           // an exception escapes the generator
    | GaveUp(review: Option<Verdict>, issues: string)  // "failure_report" with the issues text
    | Completed(review: Option<Verdict>)               // on to the improver and the report

  /** The post-loop branch as written: `run_passed` may be unbound and `final_review` may be None. */
  function FinishAsWritten(st: LoopState): Outcome {
    match st.runPassed
    case None => Crashed("cannot access local variable 'run_passed' where it is not associated with a value")
    case Some(false) =>
      (match st.finalReview
       case None => Crashed("'NoneType' object has no attribute 'get'")
       case Some(v) => GaveUp(Some(v), st.runReport + "\n" + v.critique))
    case Some(true) => Completed(st.finalReview)
  }

  /** The as-written branch crashes exactly when no round was tested, or the last tested round failed and no final review was set. */
  lemma FinishAsWrittenCrashes(st: LoopState)
    ensures FinishAsWritten(st).Crashed? <==>
      st.runPassed.None? || (st.runPassed == Some(false) && st.finalReview.None?)
  {
  }

  /**
   * When the coder's stream breaks in every round and the first reply holds
   * no code, no round is tested and the as-written branch crashes.
   */
  lemma {:induction false} SilentCoderCrashes(ctx: Context, inputs: nat -> RoundInput, st: LoopState, attempt: nat)
    requires ExtractCode(st.code) == [] && st.runPassed.None?
    requires forall j :: inputs(j).regenerated.None?
    ensures RunWith(ctx, Observing(ctx), inputs, st, attempt).state.runPassed.None?
    ensures FinishAsWritten(RunWith(ctx, Observing(ctx), inputs, st, attempt).state).Crashed?
    decreases MaxRetries + 1 - attempt
  {
    if attempt <= MaxRetries {
      var input := inputs(attempt);
      ObserveWithoutCode(ctx, st, input);
      assert Observing(ctx)(st, input) == NoCode;
      AdvanceWithoutCode(ctx, st, attempt, input.regenerated);
      SilentCoderCrashes(ctx, inputs, Advance(ctx, st, attempt, input.regenerated, NoCode).state, attempt + 1);
    }
  }

  /**
   * The post-loop branch as evidently intended: a loop that never reached a
   * passing run gives up with a failure report, quoting the final review
   * when there is one.
   */
  function Finish(st: LoopState): (o: Outcome)
    ensures !o.Crashed?
    ensures o.GaveUp? <==> st.runPassed != Some(true)
    ensures !FinishAsWritten(st).Crashed? ==> o == FinishAsWritten(st)
  {
    if st.runPassed == Some(true) then Completed(st.finalReview)
    else
      var critique := if st.finalReview.Some? then st.finalReview.value.critique else "";
      GaveUp(st.finalReview, st.runReport + "\n" + critique)
  }
}
