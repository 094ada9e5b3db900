/** What the engine promises, stated about the transition functions of `EngineSpec`
    and therefore about the `Engine` methods proved equal to them. */
module EngineProperties {

  import opened Types
  import opened Strings
  import opened Environment
  import opened Condition
  import opened EngineSpec

  // ---------------------------------------------------------------------------
  // recordContext

  /** `recordContext` patches each entry of the step and no other, and the very first
      call puts the init entry in front of them. */
  lemma RecordContextPointwise(s: State, sc: string, p: Patch)
    ensures var r := RecordContextSpec(s, sc, p);
      var k := |r.context.steps| - |s.context.steps|;
      (k == 0 || k == 1) &&
      (k == 1 <==> !s.record.isInit && s.record.initData.Some?) &&
      (k == 1 ==> r.context.steps[0] == s.record.initData.value) &&
      forall i :: 0 <= i < |s.context.steps| ==>
        r.context.steps[k + i] ==
          if s.context.steps[i].stepCount == sc then PatchEntry(s.context.steps[i], p) else s.context.steps[i]
  {
    var r := RecordContextSpec(s, sc, p);
    var patched := PatchEntries(s.context.steps, sc, p);
    PatchEntriesPointwise(s.context.steps, sc, p);
    if !s.record.isInit && s.record.initData.Some? {
      assert r.context.steps == [s.record.initData.value] + patched;
    } else {
      assert r.context.steps == patched;
    }
  }

  /** The init entry is prepended exactly once: after any `recordContext` call, the run
      is marked initialised and no later call prepends again. */
  lemma RecordContextPrependsOnce(s: State, a: string, p: Patch, b: string, q: Patch)
    ensures var r1 := RecordContextSpec(s, a, p);
      var r2 := RecordContextSpec(r1, b, q);
      r1.record.isInit && |r2.context.steps| == |r1.context.steps| &&
      |r2.context.steps| == |s.context.steps| + (if !s.record.isInit && s.record.initData.Some? then 1 else 0)
  {
  }

  // ---------------------------------------------------------------------------
  // Display names, skip and cancel

  /** `logName` changes only the name of the step's entry. For a step with a `run` or
      `plugin`, the new name is never empty: the declared `name`, else `Run <run>`, or
      `Run <plugin>` / `Post Run <plugin>` by the plugin's `type`. A step with neither
      keeps the name it had. */
  lemma LogNameEffects(s: State, step: Step)
    requires s.record.isInit && Find(s.context.steps, step.stepCount).Some?
    ensures var r := LogNameSpec(s, step);
      var e := Find(s.context.steps, step.stepCount).value;
      r.record == s.record && r.childProcess == s.childProcess && r.context.error == s.context.error &&
      (forall x :: x != step.stepCount ==> Find(r.context.steps, x) == Find(s.context.steps, x)) &&
      Find(r.context.steps, step.stepCount).Some? &&
      var n := Find(r.context.steps, step.stepCount).value.name;
      Find(r.context.steps, step.stepCount).value == e.(name := n) &&
      (!HasSrc(step) ==> n == e.name) &&
      (HasSrc(step) ==> n != "") &&
      (HasSrc(step) && step.name != "" ==> n == step.name) &&
      (HasSrc(step) && step.name == "" && step.kind.Run? ==> n == "Run " + step.kind.command) &&
      (HasSrc(step) && step.name == "" && step.kind.Plugin? && step.kind.pluginType == "run" ==>
        n == "Run " + step.kind.plugin) &&
      (HasSrc(step) && step.name == "" && step.kind.Plugin? && step.kind.pluginType != "run" ==>
        n == "Post Run " + step.kind.plugin)
  {
    RecordContextFind(s, step.stepCount, NamePatch(DisplayName(step)));
  }

  /** `doSkip` and `doCancel` leave the verdict and the lock alone, spawn nothing, record
      the status under the step's `id`, and give the step's entry that status, its
      display name and a `process_time` of 0. No other entry changes. */
  lemma NotRunEffects(s: State, step: Step, st: Status)
    requires s.record.isInit
    requires Find(s.context.steps, step.stepCount).Some?
    ensures var r := NotRunSpec(s, step, st);
      var e := Find(s.context.steps, step.stepCount).value;
      r.record.status == s.record.status && r.record.editStatusAble == s.record.editStatusAble &&
      r.childProcess == s.childProcess && r.context.status == s.context.status &&
      r.record.steps == (if step.id != "" then s.record.steps[step.id := IdOutcome(st, None)] else s.record.steps) &&
      Find(r.context.steps, step.stepCount) ==
        Some(e.(status := st, name := if HasSrc(step) then DisplayName(step) else e.name, processTime := Some(0))) &&
      forall x :: x != step.stepCount ==> Find(r.context.steps, x) == Find(s.context.steps, x)
  {
    var s1 := s.(record := SetId(s.record, step.id, IdOutcome(st, None)));
    RecordContextFind(s1, step.stepCount, NamePatch(DisplayName(step)));
    RecordContextFind(LogNameSpec(s1, step), step.stepCount, Patch(Some(st), None, None, "", Some(0)));
  }

  // ---------------------------------------------------------------------------
  // handleSrc outcomes and the status lock

  /** A successful step: the verdict becomes `success` only while the lock is open; the
      `id` entry holds `success` and the outputs, so later templates can read them; the
      entry records `success`, the outputs and the elapsed time. */
  lemma SucceedEffects(cfg: Config, s: State, step: Step, out: Option<Outputs>, elapsed: nat)
    requires s.record.isInit
    requires Find(s.context.steps, step.stepCount).Some?
    ensures var r := SucceedSpec(s, step, out, elapsed);
      var e := Find(s.context.steps, step.stepCount).value;
      r.record.status == (if s.record.editStatusAble then Success else s.record.status) &&
      r.record.editStatusAble == s.record.editStatusAble &&
      (step.id != "" ==> ScopeOf(cfg, r).steps[step.id] == IdOutcome(Success, out)) &&
      (forall id :: id != step.id && id in s.record.steps ==> id in r.record.steps && r.record.steps[id] == s.record.steps[id]) &&
      r.childProcess == s.childProcess &&
      Find(r.context.steps, step.stepCount) ==
        Some(e.(status := Success, outputs := if out.Some? then out else e.outputs, processTime := Some(elapsed))) &&
      forall x :: x != step.stepCount ==> Find(r.context.steps, x) == Find(s.context.steps, x)
  {
    var r1 := if s.record.editStatusAble then s.record.(status := Success) else s.record;
    var r2 := SetId(r1, step.id, IdOutcome(Success, out));
    RecordContextFind(s.(record := r2), step.stepCount, Patch(Some(Success), None, out, "", Some(elapsed)));
  }

  /** A failing step. With `continue-on-error: true` the verdict becomes
      `error_with_continue` (while the lock is open) and the lock stays as it was; any
      other failure makes it `failure` and closes the lock. The `id` entry holds the
      status and every other `id` outcome is kept. The error reaches the entry and the
      context exactly when `continue-on-error` is falsy. */
  lemma FailEffects(s: State, step: Step, error: string, elapsed: nat)
    requires s.record.isInit
    requires Find(s.context.steps, step.stepCount).Some?
    ensures var r := FailSpec(s, step, error, elapsed);
      var e := Find(s.context.steps, step.stepCount).value;
      var st := if step.continueOnError == Flag(true) then ErrorWithContinue else Failure;
      r.record.status == (if s.record.editStatusAble then st else s.record.status) &&
      r.record.editStatusAble == (s.record.editStatusAble && st == ErrorWithContinue) &&
      (step.id != "" ==> r.record.steps[step.id] == IdOutcome(st, None)) &&
      (forall id :: id != step.id && id in s.record.steps ==> id in r.record.steps && r.record.steps[id] == s.record.steps[id]) &&
      r.childProcess == s.childProcess &&
      Find(r.context.steps, step.stepCount) ==
        Some(e.(status := st, processTime := Some(elapsed),
                error := if Truthy(step.continueOnError) then e.error else Some(error))) &&
      r.context.error == (if Truthy(step.continueOnError) then s.context.error else Some(error)) &&
      forall x :: x != step.stepCount ==> Find(r.context.steps, x) == Find(s.context.steps, x)
  {
    var st := FailureStatus(step.continueOnError);
    var r1 := if s.record.editStatusAble then s.record.(status := st) else s.record;
    var r2 := if st == Failure then r1.(editStatusAble := false) else r1;
    var r3 := SetId(r2, step.id, IdOutcome(st, None));
    var p := if Truthy(step.continueOnError) then Patch(Some(st), None, None, "", Some(elapsed))
             else Patch(Some(st), Some(error), None, "", Some(elapsed));
    RecordContextFind(s.(record := r3), step.stepCount, p);
  }

  /** `doSrc` only logs the name and spawns: the record keeps its verdict, lock and `id`
      outcomes, the templates see the same variables, the step's entry keeps its
      status, no other entry changes, and at most one child process is added. */
  lemma DoSrcKeepsRecord(cfg: Config, s: State, step: Step, w: StepWorld)
    ensures var r := DoSrcSpec(cfg, s, step, w).0;
      r.record.status == s.record.status && r.record.editStatusAble == s.record.editStatusAble &&
      r.record.steps == s.record.steps && ScopeOf(cfg, r) == ScopeOf(cfg, s) &&
      r.context.error == s.context.error &&
      (s.record.isInit ==> r.record.isInit) &&
      (s.record.isInit ==> forall x :: x != step.stepCount ==> Find(r.context.steps, x) == Find(s.context.steps, x)) &&
      (s.record.isInit && Find(s.context.steps, step.stepCount).Some? ==>
        Find(r.context.steps, step.stepCount).Some? &&
        Find(r.context.steps, step.stepCount).value.status == Find(s.context.steps, step.stepCount).value.status) &&
      (r.childProcess == s.childProcess || (|r.childProcess| == |s.childProcess| + 1 && r.childProcess[..|s.childProcess|] == s.childProcess))
  {
    var r := DoSrcSpec(cfg, s, step, w).0;
    RecordContextFind(s, step.stepCount, NamePatch(DisplayName(step)));
    if |r.childProcess| == |s.childProcess| + 1 {
      assert r.childProcess[..|s.childProcess|] == s.childProcess;
    }
  }

  /** The state a step executes in: after a `cancel()` that arrives while it runs. */
  function During(s: State, w: StepWorld): State {
    if w.cancelDuring then CancelSpec(s) else s
  }

  /** A step whose execution succeeds after `cancel()` and whose `if` did not compile to
      `"true"` is recorded `cancel`, not `success`; with a passing `if` it is recorded
      `success` with its outputs. */
  lemma CancelledSuccessReclassified(cfg: Config, s: State, step: Step, ifPassed: bool, w: StepWorld)
    requires s.record.isInit && Find(s.context.steps, step.stepCount).Some?
    requires w.preRunError.None?
    requires s.record.status == Cancel || w.cancelDuring
    requires DoSrcSpec(cfg, During(s, w), step, w).1.Ok?
    ensures var r := HandleSrcSpec(cfg, s, step, ifPassed, w);
      var out := DoSrcSpec(cfg, During(s, w), step, w).1.value;
      var e := Find(r.context.steps, step.stepCount);
      e.Some? &&
      (!ifPassed ==>
        e.value.status == Cancel && e.value.processTime == Some(0) && r.record.status == Cancel &&
        (step.id != "" ==> r.record.steps[step.id] == IdOutcome(Cancel, None))) &&
      (ifPassed ==>
        e.value.status == Success && (step.id != "" ==> r.record.steps[step.id] == IdOutcome(Success, out)))
  {
    var s0 := During(s, w);
    var run := DoSrcSpec(cfg, s0, step, w);
    DoSrcKeepsRecord(cfg, s0, step, w);
    if ifPassed {
      SucceedEffects(cfg, run.0, step, run.1.value, w.elapsed);
    } else {
      NotRunEffects(run.0, step, Cancel);
    }
  }

  /** The variables a step's templates see once it is running: the run's status, the
      `id` outcomes so far, and the run's environment overridden by the step's. */
  function StepScope(cfg: Config, s: State, step: Step): Scope {
    Scope(s.context.status, s.record.steps, MergeEnv(cfg.inputEnv, step.env))
  }

  /** A run step whose command and environment render spawns exactly one child, with
      the rendered command, the resolved directory and the rendered environment, and
      its exit decides the step: `success` with `{}` outputs on code 0, a failure with
      the concatenated standard error otherwise (recorded on the entry unless
      `continue-on-error` is truthy). */
  lemma RunStepExitVerdict(cfg: Config, s: State, step: Step, ifPassed: bool, w: StepWorld)
    requires step.kind.Run? && HasSrc(step)
    requires s.record.isInit && Find(s.context.steps, step.stepCount).Some?
    requires s.record.status != Cancel && !w.cancelDuring && w.preRunError.None?
    requires s.context.env == step.env
    requires Render(cfg.compile, StepScope(cfg, s, step), step.kind.command).Ok?
    requires CompileEnv(cfg.compile, StepScope(cfg, s, step), MergeEnv(cfg.inputEnv, step.env)).Ok?
    ensures var r := HandleSrcSpec(cfg, s, step, ifPassed, w);
      var f := FailureStatus(step.continueOnError);
      r.childProcess == s.childProcess + [Spawn(
        Render(cfg.compile, StepScope(cfg, s, step), step.kind.command).value,
        ResolveWorkingDirectory(step.kind.workingDirectory, cfg.cwd),
        CompileEnv(cfg.compile, StepScope(cfg, s, step), MergeEnv(cfg.inputEnv, step.env)).value)] &&
      Find(r.context.steps, step.stepCount).Some? &&
      var e := Find(r.context.steps, step.stepCount).value;
      (w.exit.code == 0 ==> e.status == Success && e.outputs == Some(map[])) &&
      (w.exit.code != 0 ==> e.status == f) &&
      (w.exit.code != 0 && !Truthy(step.continueOnError) ==> e.error == Some(Concat(w.exit.stderr))) &&
      r.record.status == (if !s.record.editStatusAble then s.record.status else if w.exit.code == 0 then Success else f)
  {
    var run := DoSrcSpec(cfg, s, step, w);
    DoSrcKeepsRecord(cfg, s, step, w);
    assert run.1 == OnFinish(w.exit, s.record.status);
    if w.exit.code == 0 {
      SucceedEffects(cfg, run.0, step, Some(map[]), w.elapsed);
    } else {
      FailEffects(run.0, step, Concat(w.exit.stderr), w.elapsed);
    }
  }

  /** A run step whose child is killed by `cancel()` is recorded `cancel` whatever its exit
      code, because the exit handler resolves once the run is cancelled. */
  lemma KilledRunStepIsCancelled(cfg: Config, s: State, step: Step, w: StepWorld)
    requires step.kind.Run? && HasSrc(step)
    requires s.record.isInit && Find(s.context.steps, step.stepCount).Some?
    requires w.cancelDuring && w.preRunError.None?
    requires Render(cfg.compile, ScopeOf(cfg, s), step.kind.command).Ok?
    requires CompileEnv(cfg.compile, ScopeOf(cfg, s), MergeEnv(cfg.inputEnv, step.env)).Ok?
    ensures var r := HandleSrcSpec(cfg, s, step, false, w);
      |r.childProcess| == |s.childProcess| + 1 && r.record.status == Cancel && !r.record.editStatusAble &&
      Find(r.context.steps, step.stepCount).Some? && Find(r.context.steps, step.stepCount).value.status == Cancel
  {
    var s0 := During(s, w);
    DoSrcKeepsRecord(cfg, s0, step, w);
    assert DoSrcSpec(cfg, s0, step, w).1 == Ok(Some(map[]));
    CancelledSuccessReclassified(cfg, s, step, false, w);
  }

  /** Skipping or cancelling a step keeps the verdict and the lock. */
  lemma NotRunLock(s: State, step: Step, st: Status)
    ensures var r := NotRunSpec(s, step, st);
      r.record.status == s.record.status && r.record.editStatusAble == s.record.editStatusAble
  {
  }

  /** A success sets the verdict only while the lock is open and keeps the lock. */
  lemma SucceedLock(s: State, step: Step, out: Option<Outputs>, elapsed: nat)
    ensures var r := SucceedSpec(s, step, out, elapsed);
      r.record.status == (if s.record.editStatusAble then Success else s.record.status) &&
      r.record.editStatusAble == s.record.editStatusAble
  {
  }

  /** A failure sets the verdict only while the lock is open; a hard one closes it. */
  lemma FailLock(s: State, step: Step, error: string, elapsed: nat)
    ensures var r := FailSpec(s, step, error, elapsed);
      var f := FailureStatus(step.continueOnError);
      r.record.status == (if s.record.editStatusAble then f else s.record.status) &&
      r.record.editStatusAble == (s.record.editStatusAble && f == ErrorWithContinue)
  {
  }

  /** The lock never reopens, and while it is closed only `cancel()` changes the verdict:
      neither a success nor a `continue-on-error` failure can overwrite it. */
  lemma HandleSrcLock(cfg: Config, s: State, step: Step, ifPassed: bool, w: StepWorld)
    ensures var r := HandleSrcSpec(cfg, s, step, ifPassed, w);
      (r.record.editStatusAble ==> s.record.editStatusAble) &&
      (!s.record.editStatusAble ==>
        !r.record.editStatusAble && r.record.status == (if w.cancelDuring then Cancel else s.record.status))
  {
    var s0 := if w.cancelDuring then CancelSpec(s) else s;
    var run := if w.preRunError.Some? then (s0, Err(w.preRunError.value)) else DoSrcSpec(cfg, s0, step, w);
    DoSrcKeepsRecord(cfg, s0, step, w);
    var s1 := run.0;
    assert s1.record.status == s0.record.status && s1.record.editStatusAble == s0.record.editStatusAble;
    match run.1
    case Ok(out) =>
      NotRunLock(s1, step, Cancel);
      SucceedLock(s1, step, out, w.elapsed);
    case Err(e) =>
      FailLock(s1, step, e, w.elapsed);
  }
  // ---------------------------------------------------------------------------
  // Gating

  /** Entering a step marks its entry `running`, gives the context the step's env and
      leaves the record's verdict, lock and `id` outcomes alone. */
  lemma EnterEffects(cfg: Config, s: State, step: Step)
    requires Find(s.context.steps, step.stepCount).Some? && !PrependsInit(s, step.stepCount)
    ensures var r := EnterSpec(s, step);
      r.record == s.record.(isInit := true) && r.childProcess == s.childProcess &&
      ScopeOf(cfg, r) == StepScope(cfg, s, step) && r.context.env == step.env &&
      r.context.error == s.context.error &&
      Find(r.context.steps, step.stepCount) == Some(Find(s.context.steps, step.stepCount).value.(status := Running)) &&
      forall x :: x != step.stepCount ==>
        Find(r.context.steps, x) == if PrependsInit(s, x) then s.record.initData else Find(s.context.steps, x)
  {
    RecordContextFind(s, step.stepCount, StatusPatch(Running));
  }

  /** A step without `if`: after `cancel()` it is recorded `cancel`, after a failure it
      is recorded `skip` (in both cases with `process_time` 0, its `id` outcome, and
      nothing spawned), and otherwise it executes. */
  lemma PlainStepGating(cfg: Config, s: State, step: Step, w: StepWorld)
    requires step.cond == ""
    requires Find(s.context.steps, step.stepCount).Some? && !PrependsInit(s, step.stepCount)
    ensures var r := SrcSpec(cfg, s, step, w);
      var st := if s.record.status == Cancel then Cancel else Skip;
      var e := Find(r.context.steps, step.stepCount);
      (s.record.status == Cancel || s.record.status == Failure ==>
        r.childProcess == s.childProcess && r.record.status == s.record.status &&
        e.Some? && e.value.status == st && e.value.processTime == Some(0) &&
        (step.id != "" ==> r.record.steps[step.id] == IdOutcome(st, None))) &&
      (s.record.status != Cancel && s.record.status != Failure ==>
        r == HandleSrcSpec(cfg, EnterSpec(s, step), step, false, w))
  {
    EnterEffects(cfg, s, step);
    var s1 := EnterSpec(s, step);
    if s.record.status == Cancel || s.record.status == Failure {
      NotRunEffects(s1, step, if s.record.status == Cancel then Cancel else Skip);
    }
  }

  /** A step with `if` executes exactly when the rewritten condition compiles to
      `"true"`, whatever the verdict; any other result records it `skip` (even after
      `cancel()`), and a compile error leaves its entry `running` and spawns nothing. */
  lemma IfStepGating(cfg: Config, s: State, step: Step, w: StepWorld)
    requires step.cond != ""
    requires Find(s.context.steps, step.stepCount).Some? && !PrependsInit(s, step.stepCount)
    ensures var r := SrcSpec(cfg, s, step, w);
      var c := Render(cfg.compile, StepScope(cfg, s, step), RewriteIf(step.cond, s.record.status));
      var e := Find(r.context.steps, step.stepCount);
      (c == Ok("true") ==> r == HandleSrcSpec(cfg, EnterSpec(s, step), step, true, w)) &&
      (c.Ok? && c.value != "true" ==>
        r.childProcess == s.childProcess && r.record.status == s.record.status &&
        e.Some? && e.value.status == Skip && e.value.processTime == Some(0)) &&
      (c.Err? ==>
        r.childProcess == s.childProcess && r.record.status == s.record.status &&
        e.Some? && e.value.status == Running)
  {
    EnterEffects(cfg, s, step);
    var s1 := EnterSpec(s, step);
    var c := Render(cfg.compile, StepScope(cfg, s, step), RewriteIf(step.cond, s.record.status));
    assert Gate(cfg, s1, step) == match c
      case Err(_) => Unrendered
      case Ok(v) => if v == "true" then Execute(true) else SkipStep;
    if c.Ok? && c.value != "true" {
      NotRunEffects(s1, step, Skip);
    }
  }

  /** The template compiler renders the two literals as themselves. */
  ghost predicate LiteralsRenderThemselves(cfg: Config) {
    forall sc: Scope :: cfg.compile("true", sc) == Ok("true") && cfg.compile("false", sc) == Ok("false")
  }

  lemma RenderLiteral(cfg: Config, sc: Scope, b: bool)
    requires LiteralsRenderThemselves(cfg)
    ensures Render(cfg.compile, sc, Literal(b)) == Ok(Literal(b))
  {
    ReplaceTemplateOpenNoDollar(Literal(b));
  }

  /** The four predicates as a whole `if`: `always()` always runs; `failure()` runs
      exactly after a failure; `success()` exactly when the verdict is not `failure`,
      so also after `cancel()`; `cancelled()` exactly after `cancel()`. */
  lemma PredicateGating(cfg: Config, s: State, step: Step)
    requires LiteralsRenderThemselves(cfg)
    ensures step.cond == AlwaysToken ==> Gate(cfg, s, step) == Execute(true)
    ensures step.cond == FailureToken ==>
      Gate(cfg, s, step) == if s.record.status == Failure then Execute(true) else SkipStep
    ensures step.cond == SuccessToken ==>
      Gate(cfg, s, step) == if s.record.status != Failure then Execute(true) else SkipStep
    ensures step.cond == CancelledToken ==>
      Gate(cfg, s, step) == if s.record.status == Cancel then Execute(true) else SkipStep
  {
    var st := s.record.status;
    var sc := ScopeOf(cfg, s);
    if step.cond == AlwaysToken {
      RewriteAlways(step.cond, st);
      RenderLiteral(cfg, sc, true);
    } else if step.cond == FailureToken {
      RewriteFailure(step.cond, st);
      RenderLiteral(cfg, sc, st == Failure);
    } else if step.cond == SuccessToken {
      RewriteSuccess(step.cond, st);
      RenderLiteral(cfg, sc, st != Failure);
    } else if step.cond == CancelledToken {
      RewriteCancelled(step.cond, st);
      RenderLiteral(cfg, sc, st == Cancel);
    }
  }
  // ---------------------------------------------------------------------------
  // One machine state, and the run of all of them

  /** What `handleSrc` keeps of the entries: only the step's own entry changes. */
  ghost predicate OnlyEntryChanges(t: State, sc: string, r: State) {
    r.record.isInit && r.record.initData == t.record.initData &&
    Find(r.context.steps, sc).Some? &&
    (forall x :: x != sc ==> Find(r.context.steps, x) == Find(t.context.steps, x)) &&
    |r.context.steps| == |t.context.steps|
  }

  /** The execution part of `handleSrc` (the cancel, then `doSrc` or the error raised
      before it) keeps the entries as they were. */
  lemma ExecutionKeepsEntries(cfg: Config, s: State, step: Step, w: StepWorld)
    requires s.record.isInit && Find(s.context.steps, step.stepCount).Some?
    ensures var s0 := During(s, w);
      var s1 := if w.preRunError.Some? then s0 else DoSrcSpec(cfg, s0, step, w).0;
      OnlyEntryChanges(s, step.stepCount, s1) && s1.record.status == s0.record.status
  {
    var s0 := During(s, w);
    DoSrcKeepsRecord(cfg, s0, step, w);
    RecordContextFind(s0, step.stepCount, NamePatch(DisplayName(step)));
  }

  /** The outcome part of `handleSrc` settles the step's entry and no other. */
  lemma OutcomeSettles(cfg: Config, s1: State, step: Step, ifPassed: bool, res: Result<Option<Outputs>, string>, elapsed: nat)
    requires s1.record.isInit && Find(s1.context.steps, step.stepCount).Some?
    ensures var r := match res
        case Ok(out) =>
          if !ifPassed && s1.record.status == Cancel then NotRunSpec(s1, step, Cancel)
          else SucceedSpec(s1, step, out, elapsed)
        case Err(e) => FailSpec(s1, step, e, elapsed);
      OnlyEntryChanges(s1, step.stepCount, r) &&
      Find(r.context.steps, step.stepCount).value.status in {Success, Failure, ErrorWithContinue, Cancel}
  {
    match res
    case Ok(out) =>
      if !ifPassed && s1.record.status == Cancel {
        NotRunEffects(s1, step, Cancel);
      } else {
        SucceedEffects(cfg, s1, step, out, elapsed);
      }
    case Err(e) =>
      FailEffects(s1, step, e, elapsed);
  }

  /** An executed step ends `success`, `failure`, `error_with_continue` or `cancel`, and
      only its own entry changes. */
  lemma HandleSrcSettles(cfg: Config, s: State, step: Step, ifPassed: bool, w: StepWorld)
    requires s.record.isInit && Find(s.context.steps, step.stepCount).Some?
    ensures var r := HandleSrcSpec(cfg, s, step, ifPassed, w);
      OnlyEntryChanges(s, step.stepCount, r) &&
      Find(r.context.steps, step.stepCount).value.status in {Success, Failure, ErrorWithContinue, Cancel}
  {
    var s0 := During(s, w);
    var run := if w.preRunError.Some? then (s0, Err(w.preRunError.value)) else DoSrcSpec(cfg, s0, step, w);
    ExecutionKeepsEntries(cfg, s, step, w);
    OutcomeSettles(cfg, run.0, step, ifPassed, run.1, w.elapsed);
  }

  /** The lock over one transition from `t` to `r`: it never reopens, and once closed
      the verdict changes only to `cancel`, and only when a `cancel()` arrives. */
  predicate KeepsLock(t: State, r: State, w: StepWorld) {
    (r.record.editStatusAble ==> t.record.editStatusAble) &&
    (!t.record.editStatusAble ==>
      !r.record.editStatusAble && (r.record.status == t.record.status || r.record.status == Cancel)) &&
    (!t.record.editStatusAble && !w.cancelBefore && !w.cancelDuring ==> r.record.status == t.record.status)
  }

  lemma StepLock(cfg: Config, s: State, step: Step, w: StepWorld)
    ensures KeepsLock(s, StepSpec(cfg, s, step, w), w)
  {
    var s0 := if w.cancelBefore then CancelSpec(s) else s;
    var s1 := EnterSpec(s0, step);
    match Gate(cfg, s1, step)
    case Unrendered =>
    case SkipStep => NotRunLock(s1, step, Skip);
    case CancelStep => NotRunLock(s1, step, Cancel);
    case Execute(ifPassed) => HandleSrcLock(cfg, s1, step, ifPassed, w);
  }

  /** Folding transitions that keep the lock keeps it over the whole run. */
  lemma {:induction false} FoldKeepsLock(next: (State, Step, StepWorld) -> State, s: State, steps: seq<Step>, sw: nat -> StepWorld, n: nat)
    requires n <= |steps|
    requires forall t, st, w :: KeepsLock(t, next(t, st, w), w)
    ensures var r := RunSteps(next, s, steps, sw, n);
      (r.record.editStatusAble ==> s.record.editStatusAble) &&
      (!s.record.editStatusAble ==> !r.record.editStatusAble && (r.record.status == s.record.status || r.record.status == Cancel)) &&
      (!s.record.editStatusAble && (forall i :: 0 <= i < n ==> !sw(i).cancelBefore && !sw(i).cancelDuring) ==>
        r.record.status == s.record.status)
  {
    if n > 0 {
      FoldKeepsLock(next, s, steps, sw, n - 1);
      var prev := RunSteps(next, s, steps, sw, n - 1);
      assert KeepsLock(prev, next(prev, steps[n - 1], sw(n - 1)), sw(n - 1));
    }
  }

  /** Once the lock is closed, by a hard failure or by `cancel()`, no later step outcome
      changes the verdict; only a further `cancel()` can, and only to `cancel`. */
  lemma RunLock(cfg: Config, s: State, steps: seq<Step>, sw: nat -> StepWorld, n: nat)
    requires n <= |steps|
    ensures var r := RunSteps(StepFn(cfg), s, steps, sw, n);
      (r.record.editStatusAble ==> s.record.editStatusAble) &&
      (!s.record.editStatusAble ==> !r.record.editStatusAble && (r.record.status == s.record.status || r.record.status == Cancel)) &&
      (!s.record.editStatusAble && (forall i :: 0 <= i < n ==> !sw(i).cancelBefore && !sw(i).cancelDuring) ==>
        r.record.status == s.record.status)
  {
    forall t, st, w ensures KeepsLock(t, StepFn(cfg)(t, st, w), w) {
      StepLock(cfg, t, st, w);
    }
    FoldKeepsLock(StepFn(cfg), s, steps, sw, n);
  }

  /** The steps from the `k`-th on, with their worlds. */
  function Shift(sw: nat -> StepWorld, k: nat): nat -> StepWorld {
    (i: nat) => sw(k + i)
  }

  /** Running `n` states is running the first `k`, then the remaining `n - k` from there. */
  lemma {:induction false} RunStepsSplit(next: (State, Step, StepWorld) -> State, s: State, steps: seq<Step>, sw: nat -> StepWorld, k: nat, n: nat)
    requires k <= n <= |steps|
    ensures RunSteps(next, s, steps, sw, n) ==
      RunSteps(next, RunSteps(next, s, steps, sw, k), steps[k..], Shift(sw, k), n - k)
  {
    if n > k {
      RunStepsSplit(next, s, steps, sw, k, n - 1);
      assert steps[k..][n - 1 - k] == steps[n - 1];
      assert Shift(sw, k)(n - 1 - k) == sw(n - 1);
    }
  }

  lemma FoldLockFrom(next: (State, Step, StepWorld) -> State, s: State, steps: seq<Step>, sw: nat -> StepWorld, k: nat, n: nat)
    requires k <= n <= |steps|
    requires forall t, st, w :: KeepsLock(t, next(t, st, w), w)
    ensures var m := RunSteps(next, s, steps, sw, k);
      var r := RunSteps(next, s, steps, sw, n);
      (!m.record.editStatusAble ==> !r.record.editStatusAble && (r.record.status == m.record.status || r.record.status == Cancel)) &&
      (!m.record.editStatusAble && (forall i :: k <= i < n ==> !sw(i).cancelBefore && !sw(i).cancelDuring) ==>
        r.record.status == m.record.status)
  {
    var m := RunSteps(next, s, steps, sw, k);
    RunStepsSplit(next, s, steps, sw, k, n);
    FoldKeepsLock(next, m, steps[k..], Shift(sw, k), n - k);
    if forall i :: k <= i < n ==> !sw(i).cancelBefore && !sw(i).cancelDuring {
      forall i | 0 <= i < n - k ensures !Shift(sw, k)(i).cancelBefore && !Shift(sw, k)(i).cancelDuring {
        assert Shift(sw, k)(i) == sw(k + i);
      }
    }
  }

  /** Once a step has closed the lock, every later step keeps it closed and keeps the
      verdict, unless a `cancel()` makes it `cancel`. */
  lemma RunLockFrom(cfg: Config, s: State, steps: seq<Step>, sw: nat -> StepWorld, k: nat, n: nat)
    requires k <= n <= |steps|
    ensures var m := RunSteps(StepFn(cfg), s, steps, sw, k);
      var r := RunSteps(StepFn(cfg), s, steps, sw, n);
      (!m.record.editStatusAble ==> !r.record.editStatusAble && (r.record.status == m.record.status || r.record.status == Cancel)) &&
      (!m.record.editStatusAble && (forall i :: k <= i < n ==> !sw(i).cancelBefore && !sw(i).cancelDuring) ==>
        r.record.status == m.record.status)
  {
    forall t, st, w ensures KeepsLock(t, StepFn(cfg)(t, st, w), w) {
      StepLock(cfg, t, st, w);
    }
    FoldLockFrom(StepFn(cfg), s, steps, sw, k, n);
  }

  /** A transition changes at most the `id` outcome of `id`. */
  ghost predicate KeepsOtherIds(t: State, id: string, r: State) {
    forall x :: x != id && x in t.record.steps ==> x in r.record.steps && r.record.steps[x] == t.record.steps[x]
  }

  lemma NotRunKeepsIds(s: State, step: Step, st: Status)
    ensures KeepsOtherIds(s, step.id, NotRunSpec(s, step, st))
  {
  }

  lemma SucceedKeepsIds(s: State, step: Step, out: Option<Outputs>, elapsed: nat)
    ensures KeepsOtherIds(s, step.id, SucceedSpec(s, step, out, elapsed))
  {
  }

  lemma FailKeepsIds(s: State, step: Step, error: string, elapsed: nat)
    ensures KeepsOtherIds(s, step.id, FailSpec(s, step, error, elapsed))
  {
  }

  lemma HandleSrcKeepsIds(cfg: Config, s: State, step: Step, ifPassed: bool, w: StepWorld)
    ensures KeepsOtherIds(s, step.id, HandleSrcSpec(cfg, s, step, ifPassed, w))
  {
    var s0 := if w.cancelDuring then CancelSpec(s) else s;
    var run := if w.preRunError.Some? then (s0, Err(w.preRunError.value)) else DoSrcSpec(cfg, s0, step, w);
    DoSrcKeepsRecord(cfg, s0, step, w);
    var s1 := run.0;
    assert s1.record.steps == s.record.steps;
    match run.1
    case Ok(out) =>
      NotRunKeepsIds(s1, step, Cancel);
      SucceedKeepsIds(s1, step, out, w.elapsed);
    case Err(e) =>
      FailKeepsIds(s1, step, e, w.elapsed);
  }

  /** One machine state changes at most its own step's `id` outcome. */
  lemma StepKeepsIds(cfg: Config, s: State, step: Step, w: StepWorld)
    ensures KeepsOtherIds(s, step.id, StepSpec(cfg, s, step, w))
  {
    var s0 := if w.cancelBefore then CancelSpec(s) else s;
    var s1 := EnterSpec(s0, step);
    match Gate(cfg, s1, step)
    case Unrendered =>
    case SkipStep =>
    case CancelStep =>
    case Execute(ifPassed) => HandleSrcKeepsIds(cfg, s1, step, ifPassed, w);
  }

  lemma {:induction false} FoldKeepsId(next: (State, Step, StepWorld) -> State, s: State, steps: seq<Step>, sw: nat -> StepWorld, k: nat, n: nat, x: string)
    requires k <= n <= |steps|
    requires forall t, st: Step, w :: KeepsOtherIds(t, st.id, next(t, st, w))
    requires x in RunSteps(next, s, steps, sw, k).record.steps
    requires forall i :: k <= i < n ==> steps[i].id != x
    ensures x in RunSteps(next, s, steps, sw, n).record.steps
    ensures RunSteps(next, s, steps, sw, n).record.steps[x] == RunSteps(next, s, steps, sw, k).record.steps[x]
  {
    if n > k {
      FoldKeepsId(next, s, steps, sw, k, n - 1, x);
      var prev := RunSteps(next, s, steps, sw, n - 1);
      assert KeepsOtherIds(prev, steps[n - 1].id, next(prev, steps[n - 1], sw(n - 1)));
    }
  }

  /** An `id` outcome recorded by the first `k` steps stays visible to the templates of
      every later step, until a step with the same `id` runs. */
  lemma IdOutcomePersists(cfg: Config, s: State, steps: seq<Step>, sw: nat -> StepWorld, k: nat, n: nat, x: string)
    requires k <= n <= |steps|
    requires x in RunSteps(StepFn(cfg), s, steps, sw, k).record.steps
    requires forall i :: k <= i < n ==> steps[i].id != x
    ensures var m := RunSteps(StepFn(cfg), s, steps, sw, k);
      var r := RunSteps(StepFn(cfg), s, steps, sw, n);
      x in ScopeOf(cfg, r).steps && ScopeOf(cfg, r).steps[x] == ScopeOf(cfg, m).steps[x]
  {
    forall t, st: Step, w ensures KeepsOtherIds(t, st.id, StepFn(cfg)(t, st, w)) {
      StepKeepsIds(cfg, t, st, w);
    }
    FoldKeepsId(StepFn(cfg), s, steps, sw, k, n, x);
  }

  /** A step that is not run: its entry (when it has one and the init entry is not
      about to be put in front of it) records `st` with a `process_time` of 0, and no
      other entry changes. */
  ghost predicate NotRunEntry(t: State, step: Step, st: Status, r: State) {
    Find(t.context.steps, step.stepCount).Some? && !PrependsInit(t, step.stepCount) ==>
      r.record.isInit &&
      Find(r.context.steps, step.stepCount).Some? &&
      Find(r.context.steps, step.stepCount).value.status == st &&
      Find(r.context.steps, step.stepCount).value.processTime == Some(0) &&
      forall x :: x != step.stepCount ==>
        Find(r.context.steps, x) == if PrependsInit(t, x) then t.record.initData else Find(t.context.steps, x)
  }

  /** Every step has an entry, and none of them is the init entry still to be put in front. */
  ghost predicate EntriesReady(s: State, steps: seq<Step>) {
    forall i :: 0 <= i < |steps| ==>
      Find(s.context.steps, steps[i].stepCount).Some? && !PrependsInit(s, steps[i].stepCount)
  }

  /** After the first `n` steps, each of their entries records `st` with a `process_time`
      of 0, and the entries of the later steps are as in `s`. */
  ghost predicate RecordedAs(s: State, steps: seq<Step>, n: nat, st: Status, r: State) {
    (forall i :: 0 <= i < n && i < |steps| ==>
      Find(r.context.steps, steps[i].stepCount).Some? &&
      Find(r.context.steps, steps[i].stepCount).value.status == st &&
      Find(r.context.steps, steps[i].stepCount).value.processTime == Some(0)) &&
    (forall i :: n <= i < |steps| ==> Find(r.context.steps, steps[i].stepCount) == Find(s.context.steps, steps[i].stepCount)) &&
    (n > 0 ==> r.record.isInit)
  }

  /** One more step recorded `st`: its own entry joins the recorded ones and, the
      `stepCount`s being distinct, the entries of the later steps stay. */
  lemma RecordsOneMore(s: State, steps: seq<Step>, k: nat, st: Status, prev: State, r: State)
    requires k < |steps| && UniqueStepCounts(steps) && EntriesReady(s, steps)
    requires RecordedAs(s, steps, k, st, prev) && (k == 0 ==> prev == s)
    requires NotRunEntry(prev, steps[k], st, r)
    ensures RecordedAs(s, steps, k + 1, st, r)
  {
    var step := steps[k];
    assert Find(prev.context.steps, step.stepCount) == Find(s.context.steps, step.stepCount);
    assert !PrependsInit(prev, step.stepCount);
    forall i | 0 <= i < |steps| && i != k
      ensures Find(r.context.steps, steps[i].stepCount) == Find(prev.context.steps, steps[i].stepCount)
    {
      assert steps[i].stepCount != step.stepCount;
      assert !PrependsInit(prev, steps[i].stepCount);
    }
  }

  /** Folding steps that each record `st` for their own entry records `st` for all of
      them, when no two share a `stepCount`. */
  lemma {:induction false} FoldRecordsAll(next: (State, Step, StepWorld) -> State, s: State, steps: seq<Step>, sw: nat -> StepWorld, n: nat, st: Status)
    requires n <= |steps|
    requires UniqueStepCounts(steps) && EntriesReady(s, steps)
    requires forall i :: 0 <= i < n ==>
      NotRunEntry(RunSteps(next, s, steps, sw, i), steps[i], st, next(RunSteps(next, s, steps, sw, i), steps[i], sw(i)))
    ensures RecordedAs(s, steps, n, st, RunSteps(next, s, steps, sw, n))
  {
    if n > 0 {
      FoldRecordsAll(next, s, steps, sw, n - 1, st);
      var prev := RunSteps(next, s, steps, sw, n - 1);
      RecordsOneMore(s, steps, n - 1, st, prev, next(prev, steps[n - 1], sw(n - 1)));
    }
  }

  /** After a failure, a step without `if` and without a `cancel()` before it is skipped:
      nothing is spawned, the verdict, the lock and the context's error stay, and its
      entry records `skip` with a `process_time` of 0. */
  ghost predicate SkipsAfterFailure(t: State, step: Step, w: StepWorld, r: State) {
    t.record.status == Failure && step.cond == "" && !w.cancelBefore ==>
      r.childProcess == t.childProcess && r.record.status == Failure &&
      r.record.editStatusAble == t.record.editStatusAble && r.context.error == t.context.error &&
      NotRunEntry(t, step, Skip, r)
  }

  lemma StepAfterFailure(cfg: Config, s: State, step: Step, w: StepWorld)
    ensures SkipsAfterFailure(s, step, w, StepSpec(cfg, s, step, w))
  {
    if s.record.status == Failure && step.cond == "" && !w.cancelBefore {
      var s1 := EnterSpec(s, step);
      NotRunLock(s1, step, Skip);
      if Find(s.context.steps, step.stepCount).Some? && !PrependsInit(s, step.stepCount) {
        EnterEffects(cfg, s, step);
        NotRunEffects(s1, step, Skip);
      }
    }
  }

  lemma {:induction false} FoldAfterFailure(next: (State, Step, StepWorld) -> State, s: State, steps: seq<Step>, sw: nat -> StepWorld, n: nat)
    requires n <= |steps|
    requires forall t, st, w :: SkipsAfterFailure(t, st, w, next(t, st, w))
    requires s.record.status == Failure
    requires forall i :: 0 <= i < n ==> steps[i].cond == "" && !sw(i).cancelBefore
    ensures forall i :: 0 <= i <= n ==> RunSteps(next, s, steps, sw, i).record.status == Failure
    ensures var r := RunSteps(next, s, steps, sw, n);
      r.childProcess == s.childProcess && r.record.status == Failure &&
      r.record.editStatusAble == s.record.editStatusAble && r.context.error == s.context.error
  {
    if n > 0 {
      FoldAfterFailure(next, s, steps, sw, n - 1);
      var prev := RunSteps(next, s, steps, sw, n - 1);
      assert SkipsAfterFailure(prev, steps[n - 1], sw(n - 1), next(prev, steps[n - 1], sw(n - 1)));
    }
  }

  /** After a failure, steps without `if` are all skipped: nothing is spawned, the
      verdict, the lock and the context's error stay as they are and, when no two steps
      share a `stepCount`, each entry records `skip` with a `process_time` of 0. */
  lemma RunAfterFailure(cfg: Config, s: State, steps: seq<Step>, sw: nat -> StepWorld, n: nat)
    requires n <= |steps|
    requires s.record.status == Failure
    requires forall i :: 0 <= i < n ==> steps[i].cond == "" && !sw(i).cancelBefore
    ensures var r := RunSteps(StepFn(cfg), s, steps, sw, n);
      r.childProcess == s.childProcess && r.record.status == Failure &&
      r.record.editStatusAble == s.record.editStatusAble && r.context.error == s.context.error &&
      (UniqueStepCounts(steps) && EntriesReady(s, steps) ==> RecordedAs(s, steps, n, Skip, r))
  {
    forall t, st, w ensures SkipsAfterFailure(t, st, w, StepFn(cfg)(t, st, w)) {
      StepAfterFailure(cfg, t, st, w);
    }
    FoldAfterFailure(StepFn(cfg), s, steps, sw, n);
    if UniqueStepCounts(steps) && EntriesReady(s, steps) {
      forall i | 0 <= i < n
        ensures NotRunEntry(RunSteps(StepFn(cfg), s, steps, sw, i), steps[i], Skip,
          StepFn(cfg)(RunSteps(StepFn(cfg), s, steps, sw, i), steps[i], sw(i)))
      {
        var t := RunSteps(StepFn(cfg), s, steps, sw, i);
        assert SkipsAfterFailure(t, steps[i], sw(i), StepFn(cfg)(t, steps[i], sw(i)));
      }
      FoldRecordsAll(StepFn(cfg), s, steps, sw, n, Skip);
    }
  }

  /** After `cancel()`, a step without `if` is recorded `cancel`: nothing is spawned, the
      verdict stays `cancel`, and its entry records `cancel` with a `process_time` of 0. */
  ghost predicate CancelsAfterCancel(t: State, step: Step, r: State) {
    t.record.status == Cancel && step.cond == "" ==>
      r.childProcess == t.childProcess && r.record.status == Cancel &&
      NotRunEntry(t, step, Cancel, r)
  }

  lemma StepAfterCancel(cfg: Config, s: State, step: Step, w: StepWorld)
    ensures CancelsAfterCancel(s, step, StepSpec(cfg, s, step, w))
  {
    if s.record.status == Cancel && step.cond == "" {
      var s0 := if w.cancelBefore then CancelSpec(s) else s;
      var s1 := EnterSpec(s0, step);
      NotRunLock(s1, step, Cancel);
      if Find(s.context.steps, step.stepCount).Some? && !PrependsInit(s, step.stepCount) {
        assert s0.context == s.context && s0.record.isInit == s.record.isInit && s0.record.initData == s.record.initData;
        EnterEffects(cfg, s0, step);
        NotRunEffects(s1, step, Cancel);
      }
    }
  }

  lemma {:induction false} FoldAfterCancel(next: (State, Step, StepWorld) -> State, s: State, steps: seq<Step>, sw: nat -> StepWorld, n: nat)
    requires n <= |steps|
    requires forall t, st, w :: CancelsAfterCancel(t, st, next(t, st, w))
    requires s.record.status == Cancel
    requires forall i :: 0 <= i < n ==> steps[i].cond == ""
    ensures forall i :: 0 <= i <= n ==> RunSteps(next, s, steps, sw, i).record.status == Cancel
    ensures var r := RunSteps(next, s, steps, sw, n);
      r.childProcess == s.childProcess && r.record.status == Cancel
  {
    if n > 0 {
      FoldAfterCancel(next, s, steps, sw, n - 1);
      var prev := RunSteps(next, s, steps, sw, n - 1);
      assert CancelsAfterCancel(prev, steps[n - 1], next(prev, steps[n - 1], sw(n - 1)));
    }
  }

  /** After `cancel()`, steps without `if` are all recorded `cancel`: nothing is spawned,
      the verdict stays `cancel` and, when no two steps share a `stepCount`, each entry
      records `cancel` with a `process_time` of 0. */
  lemma RunAfterCancel(cfg: Config, s: State, steps: seq<Step>, sw: nat -> StepWorld, n: nat)
    requires n <= |steps|
    requires s.record.status == Cancel
    requires forall i :: 0 <= i < n ==> steps[i].cond == ""
    ensures var r := RunSteps(StepFn(cfg), s, steps, sw, n);
      r.childProcess == s.childProcess && r.record.status == Cancel &&
      (UniqueStepCounts(steps) && EntriesReady(s, steps) ==> RecordedAs(s, steps, n, Cancel, r))
  {
    forall t, st, w ensures CancelsAfterCancel(t, st, StepFn(cfg)(t, st, w)) {
      StepAfterCancel(cfg, t, st, w);
    }
    FoldAfterCancel(StepFn(cfg), s, steps, sw, n);
    if UniqueStepCounts(steps) && EntriesReady(s, steps) {
      forall i | 0 <= i < n
        ensures NotRunEntry(RunSteps(StepFn(cfg), s, steps, sw, i), steps[i], Cancel,
          StepFn(cfg)(RunSteps(StepFn(cfg), s, steps, sw, i), steps[i], sw(i)))
      {
        var t := RunSteps(StepFn(cfg), s, steps, sw, i);
        assert CancelsAfterCancel(t, steps[i], StepFn(cfg)(t, steps[i], sw(i)));
      }
      FoldRecordsAll(StepFn(cfg), s, steps, sw, n, Cancel);
    }
  }

  /** One transition settles the step's entry (it is no longer `pending`), changes no
      other entry, and puts the init entry in front the first time. */
  ghost predicate Settles(t: State, step: Step, r: State) {
    Find(t.context.steps, step.stepCount).Some? && !PrependsInit(t, step.stepCount) ==>
      r.record.isInit && r.record.initData == t.record.initData &&
      Find(r.context.steps, step.stepCount).Some? && Find(r.context.steps, step.stepCount).value.status != Pending &&
      (forall x :: x != step.stepCount ==>
        Find(r.context.steps, x) == if PrependsInit(t, x) then t.record.initData else Find(t.context.steps, x)) &&
      |r.context.steps| == |t.context.steps| + (if !t.record.isInit && t.record.initData.Some? then 1 else 0)
  }

  /** No two steps share a `stepCount`. */
  predicate UniqueStepCounts(steps: seq<Step>) {
    forall i, j :: 0 <= i < j < |steps| ==> steps[i].stepCount != steps[j].stepCount
  }

  lemma {:induction false} FoldVisitsInOrder(next: (State, Step, StepWorld) -> State, s: State, steps: seq<Step>, sw: nat -> StepWorld, n: nat)
    requires n <= |steps|
    requires forall t, st, w :: Settles(t, st, next(t, st, w))
    requires UniqueStepCounts(steps)
    requires !s.record.isInit && s.record.initData.Some?
    requires forall i :: 0 <= i < |steps| ==>
      steps[i].stepCount != s.record.initData.value.stepCount && Find(s.context.steps, steps[i].stepCount).Some?
    ensures var r := RunSteps(next, s, steps, sw, n);
      r.record.initData == s.record.initData &&
      (forall i :: 0 <= i < n ==>
        Find(r.context.steps, steps[i].stepCount).Some? && Find(r.context.steps, steps[i].stepCount).value.status != Pending) &&
      (forall i :: n <= i < |steps| ==> Find(r.context.steps, steps[i].stepCount) == Find(s.context.steps, steps[i].stepCount)) &&
      (n > 0 ==>
        r.record.isInit && Find(r.context.steps, s.record.initData.value.stepCount) == s.record.initData &&
        |r.context.steps| == |s.context.steps| + 1)
  {
    if n > 0 {
      FoldVisitsInOrder(next, s, steps, sw, n - 1);
      var prev := RunSteps(next, s, steps, sw, n - 1);
      var step := steps[n - 1];
      var r := next(prev, step, sw(n - 1));
      assert !PrependsInit(prev, step.stepCount);
      assert Settles(prev, step, r);
      forall i | 0 <= i < |steps| && i != n - 1
        ensures Find(r.context.steps, steps[i].stepCount) == Find(prev.context.steps, steps[i].stepCount)
      {
        assert steps[i].stepCount != step.stepCount;
        assert !PrependsInit(prev, steps[i].stepCount);
      }
    }
  }

  /** Whatever the gating decides for an entered step, only its entry changes, and it
      is no longer `pending`. */
  lemma GateSettles(cfg: Config, s1: State, step: Step, w: StepWorld)
    requires s1.record.isInit && Find(s1.context.steps, step.stepCount).Some?
    requires Find(s1.context.steps, step.stepCount).value.status == Running
    ensures var r := match Gate(cfg, s1, step)
        case Unrendered => s1
        case SkipStep => NotRunSpec(s1, step, Skip)
        case CancelStep => NotRunSpec(s1, step, Cancel)
        case Execute(ifPassed) => HandleSrcSpec(cfg, s1, step, ifPassed, w);
      OnlyEntryChanges(s1, step.stepCount, r) && Find(r.context.steps, step.stepCount).value.status != Pending
  {
    match Gate(cfg, s1, step)
    case Unrendered =>
    case SkipStep => NotRunEffects(s1, step, Skip);
    case CancelStep => NotRunEffects(s1, step, Cancel);
    case Execute(ifPassed) => HandleSrcSettles(cfg, s1, step, ifPassed, w);
  }

  /** One machine state settles its step's entry and no other. */
  lemma StepSettles(cfg: Config, s: State, step: Step, w: StepWorld)
    ensures Settles(s, step, StepSpec(cfg, s, step, w))
  {
    if Find(s.context.steps, step.stepCount).Some? && !PrependsInit(s, step.stepCount) {
      var s0 := if w.cancelBefore then CancelSpec(s) else s;
      assert s0.context == s.context && s0.record.isInit == s.record.isInit && s0.record.initData == s.record.initData;
      EnterEffects(cfg, s0, step);
      var s1 := EnterSpec(s0, step);
      GateSettles(cfg, s1, step, w);
      var r := StepSpec(cfg, s, step, w);
      forall x | x != step.stepCount
        ensures Find(r.context.steps, x) == if PrependsInit(s, x) then s.record.initData else Find(s.context.steps, x)
      {
        assert Find(r.context.steps, x) == Find(s1.context.steps, x);
      }
    }
  }

  /** Sequencing: after the first `n` machine states, exactly the first `n` steps have
      been visited, each once and in order. Their entries are settled, later entries are
      untouched, and from the first step on the init entry is listed in front. */
  lemma RunVisitsInOrder(cfg: Config, s: State, steps: seq<Step>, sw: nat -> StepWorld, n: nat)
    requires n <= |steps|
    requires UniqueStepCounts(steps)
    requires !s.record.isInit && s.record.initData.Some?
    requires forall i :: 0 <= i < |steps| ==>
      steps[i].stepCount != s.record.initData.value.stepCount && Find(s.context.steps, steps[i].stepCount).Some?
    ensures var r := RunSteps(StepFn(cfg), s, steps, sw, n);
      (forall i :: 0 <= i < n ==>
        Find(r.context.steps, steps[i].stepCount).Some? && Find(r.context.steps, steps[i].stepCount).value.status != Pending) &&
      (forall i :: n <= i < |steps| ==> Find(r.context.steps, steps[i].stepCount) == Find(s.context.steps, steps[i].stepCount)) &&
      (n > 0 ==>
        r.record.isInit && Find(r.context.steps, s.record.initData.value.stepCount) == s.record.initData &&
        |r.context.steps| == |s.context.steps| + 1)
  {
    forall t, st, w ensures Settles(t, st, StepFn(cfg)(t, st, w)) {
      StepSettles(cfg, t, st, w);
    }
    FoldVisitsInOrder(StepFn(cfg), s, steps, sw, n);
  }

  /** The first entry carrying a `stepCount` is the one `find` returns. */
  lemma {:induction false} FindAt(es: seq<Entry>, i: nat)
    requires i < |es|
    requires forall j :: 0 <= j < i ==> es[j].stepCount != es[i].stepCount
    ensures Find(es, es[i].stepCount) == Some(es[i])
  {
    if i > 0 {
      assert es[1..][i - 1] == es[i];
      FindAt(es[1..], i - 1);
    }
  }

  /** Seeding: with distinct `stepCount`s, each step's entry starts `pending`. */
  lemma PendingEntriesFind(steps: seq<Step>, i: nat)
    requires i < |steps| && UniqueStepCounts(steps)
    ensures Find(PendingEntries(steps), steps[i].stepCount) ==
      Some(Entry(steps[i].stepCount, steps[i].name, Pending, None, None, None))
  {
    FindAt(PendingEntries(steps), i);
  }

  // ---------------------------------------------------------------------------
  // Init and completion

  /** `doInit`: the context becomes `running`; a throwing hook makes both statuses
      `failure` and records its error on the context and the init entry, but leaves the
      lock as it was, and the option steps still run; a returning hook yields a
      `success` init entry and its own steps when it returns some, the option steps
      otherwise. */
  lemma InitEffects(cfg: Config, s: State, cancelDuring: bool, o: InitOutcome)
    ensures var (r, steps) := DoInitSpec(cfg, s, cancelDuring, o);
      r.record.editStatusAble == (s.record.editStatusAble && !cancelDuring) &&
      r.record.isInit == s.record.isInit && r.context.steps == s.context.steps &&
      r.record.initData.Some? && r.record.initData.value.stepCount == cfg.initStepCount &&
      (o.InitThrew? ==>
        r.context.status == Failure && r.record.status == Failure && r.context.error == Some(o.error) &&
        r.record.initData.value.status == Failure && r.record.initData.value.error == Some(o.error) &&
        steps == cfg.steps) &&
      (o.InitReturned? ==>
        r.context.status == Running && r.record.status == (if cancelDuring then Cancel else s.record.status) &&
        r.record.initData.value.status == Success && r.record.initData.value.outputs == o.outputs &&
        r.record.initData.value.name == (if o.name.Some? then o.name.value else cfg.initStepName) &&
        steps == (if o.steps.Some? then o.steps.value else cfg.steps))
  {
  }

  /** The reported status: `error_with_continue` is reported as `success`, every other
      status as itself, so a run is reported `success` exactly when it succeeded or
      only soft-failed. */
  lemma ReportedStatusCollapse(st: Status)
    ensures ReportedStatus(st) != ErrorWithContinue
    ensures ReportedStatus(st) == Success <==> st == Success || st == ErrorWithContinue
    ensures st != ErrorWithContinue ==> ReportedStatus(st) == st
  {
  }

  /** A run always completes. With steps, the reported status is the collapsed final
      verdict, after every step has been visited in order. */
  lemma StartCompletes(cfg: Config, w: World)
    ensures var r := StartSpec(cfg, Initial(), w);
      var steps := DoInitSpec(cfg, Initial(), w.cancelDuringInit, w.init).1;
      r.context.completed &&
      (|steps| > 0 ==> r.context.status == ReportedStatus(r.record.status) && r.context.status != ErrorWithContinue)
  {
  }

  /** The machine visits every step of a run with distinct `stepCount`s: the run ends
      with the init entry followed by one settled entry per step. */
  lemma StartVisitsEveryStep(cfg: Config, w: World)
    requires var steps := DoInitSpec(cfg, Initial(), w.cancelDuringInit, w.init).1;
      |steps| > 0 && UniqueStepCounts(steps) &&
      forall i :: 0 <= i < |steps| ==> steps[i].stepCount != cfg.initStepCount
    ensures var r := StartSpec(cfg, Initial(), w);
      var steps := DoInitSpec(cfg, Initial(), w.cancelDuringInit, w.init).1;
      |r.context.steps| == |steps| + 1 &&
      Find(r.context.steps, cfg.initStepCount) == DoInitSpec(cfg, Initial(), w.cancelDuringInit, w.init).0.record.initData &&
      forall i :: 0 <= i < |steps| ==>
        Find(r.context.steps, steps[i].stepCount).Some? && Find(r.context.steps, steps[i].stepCount).value.status != Pending
  {
    var init := DoInitSpec(cfg, Initial(), w.cancelDuringInit, w.init);
    var steps := init.1;
    var s2 := init.0.(context := init.0.context.(steps := PendingEntries(steps)));
    forall i | 0 <= i < |steps| ensures Find(s2.context.steps, steps[i].stepCount).Some? {
      PendingEntriesFind(steps, i);
    }
    RunVisitsInOrder(cfg, s2, steps, w.stepWorld, |steps|);
  }

  /** An empty step list goes straight to completion: only the init entry is listed,
      nothing is spawned, and the context keeps the status `doInit` left. */
  lemma StartEmpty(cfg: Config, w: World)
    requires |DoInitSpec(cfg, Initial(), w.cancelDuringInit, w.init).1| == 0
    ensures var r := StartSpec(cfg, Initial(), w);
      r.context.completed && r.childProcess == [] &&
      r.context.steps == [DoInitSpec(cfg, Initial(), w.cancelDuringInit, w.init).0.record.initData.value] &&
      r.context.status == (if w.init.InitThrew? then Failure else Running)
  {
  }

  /** Seeding puts every step's entry in place, none of them the init entry, when the
      `stepCount`s are distinct and differ from the init step's. */
  lemma SeededEntriesReady(cfg: Config, s1: State, steps: seq<Step>)
    requires !s1.record.isInit && s1.record.initData.Some? && s1.record.initData.value.stepCount == cfg.initStepCount
    requires UniqueStepCounts(steps) && forall i :: 0 <= i < |steps| ==> steps[i].stepCount != cfg.initStepCount
    ensures EntriesReady(s1.(context := s1.context.(steps := PendingEntries(steps))), steps)
  {
    forall i | 0 <= i < |steps|
      ensures Find(PendingEntries(steps), steps[i].stepCount).Some?
    {
      PendingEntriesFind(steps, i);
    }
  }

  /** When `onInit` throws and no step has an `if` or is cancelled, every step is
      skipped: nothing is spawned, the run is reported `failure` with the hook's error
      and, when the `stepCount`s are distinct and differ from the init step's, every
      step's entry records `skip` with a `process_time` of 0. */
  lemma InitFailureSkipsPlainSteps(cfg: Config, w: World)
    requires w.init.InitThrew? && !w.cancelDuringInit && !w.cancelBeforeFinal
    requires forall i :: 0 <= i < |cfg.steps| ==> cfg.steps[i].cond == "" && !w.stepWorld(i).cancelBefore
    ensures var r := StartSpec(cfg, Initial(), w);
      r.childProcess == [] && r.context.status == Failure && r.record.status == Failure &&
      r.context.error == Some(w.init.error) && r.context.completed &&
      (UniqueStepCounts(cfg.steps) && (forall i :: 0 <= i < |cfg.steps| ==> cfg.steps[i].stepCount != cfg.initStepCount) ==>
        forall i :: 0 <= i < |cfg.steps| ==>
          Find(r.context.steps, cfg.steps[i].stepCount).Some? &&
          Find(r.context.steps, cfg.steps[i].stepCount).value.status == Skip &&
          Find(r.context.steps, cfg.steps[i].stepCount).value.processTime == Some(0))
  {
    var init := DoInitSpec(cfg, Initial(), w.cancelDuringInit, w.init);
    var steps := init.1;
    if |steps| > 0 {
      var s2 := init.0.(context := init.0.context.(steps := PendingEntries(steps)));
      RunAfterFailure(cfg, s2, steps, w.stepWorld, |steps|);
      if UniqueStepCounts(steps) && forall i :: 0 <= i < |steps| ==> steps[i].stepCount != cfg.initStepCount {
        SeededEntriesReady(cfg, init.0, steps);
      }
    }
  }

  /** When `cancel()` arrives during a returning `onInit` and no step has an `if`, every
      step is recorded `cancel`: nothing is spawned, the run is reported `cancel` and,
      when the `stepCount`s are distinct and differ from the init step's, every step's
      entry records `cancel` with a `process_time` of 0. */
  lemma InitCancelCancelsPlainSteps(cfg: Config, w: World)
    requires w.cancelDuringInit && w.init.InitReturned?
    requires var steps := DoInitSpec(cfg, Initial(), w.cancelDuringInit, w.init).1;
      forall i :: 0 <= i < |steps| ==> steps[i].cond == ""
    ensures var r := StartSpec(cfg, Initial(), w);
      var steps := DoInitSpec(cfg, Initial(), w.cancelDuringInit, w.init).1;
      r.childProcess == [] && r.record.status == Cancel && r.context.completed &&
      (|steps| > 0 ==> r.context.status == Cancel) &&
      (UniqueStepCounts(steps) && (forall i :: 0 <= i < |steps| ==> steps[i].stepCount != cfg.initStepCount) ==>
        forall i :: 0 <= i < |steps| ==>
          Find(r.context.steps, steps[i].stepCount).Some? &&
          Find(r.context.steps, steps[i].stepCount).value.status == Cancel &&
          Find(r.context.steps, steps[i].stepCount).value.processTime == Some(0))
  {
    var init := DoInitSpec(cfg, Initial(), w.cancelDuringInit, w.init);
    var steps := init.1;
    if |steps| > 0 {
      var s2 := init.0.(context := init.0.context.(steps := PendingEntries(steps)));
      RunAfterCancel(cfg, s2, steps, w.stepWorld, |steps|);
      if UniqueStepCounts(steps) && forall i :: 0 <= i < |steps| ==> steps[i].stepCount != cfg.initStepCount {
        SeededEntriesReady(cfg, init.0, steps);
      }
    }
  }
}
