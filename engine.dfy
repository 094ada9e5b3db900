/** The `Engine` class: the run-status record, the caller-visible context and the
    spawned child processes are fields the methods update in place. Every method is
    proved to leave the state its `EngineSpec` function describes; the awaited hooks,
    child processes, plugins, the clock and `cancel()` calls arriving from outside
    are the `World`/`StepWorld` oracle passed in. */
module StepEngine {

  import opened Types
  import opened Strings
  import opened Environment
  import opened Condition
  import opened EngineSpec

  class Engine {
    const cfg: Config
    var record: Record
    var context: Context
    var childProcess: seq<Spawn>

    function State(): State
      reads this
    {
      Types.State.State(record, context, childProcess)
    }

    constructor (options: Config)
      ensures cfg == options
      ensures State() == Initial()
    {
      cfg := options;
      record := Record(Pending, true, map[], false, None);
      context := Context(Pending, false, [], None, [], "");
      childProcess := [];
    }

    /** `recordContext(item, options)`. */
    method RecordContext(stepCount: string, p: Patch)
      modifies this
      ensures State() == RecordContextSpec(old(State()), stepCount, p)
    {
      context := context.(stepCount := stepCount);
      ghost var before := context.steps;
      var steps := context.steps;
      ghost var matched := false;
      var i := 0;
      while i < |steps|
        invariant 0 <= i <= |steps| == |before|
        invariant forall k :: 0 <= k < i ==>
          steps[k] == if before[k].stepCount == stepCount then PatchEntry(before[k], p) else before[k]
        invariant forall k :: i <= k < |steps| ==> steps[k] == before[k]
        invariant matched <==> exists k :: 0 <= k < i && before[k].stepCount == stepCount
        invariant record == old(record) && childProcess == old(childProcess)
        invariant context == old(context).(stepCount := stepCount,
          error := if matched && p.error.Some? then p.error else old(context.error))
      {
        if steps[i].stepCount == stepCount {
          matched := true;
          if p.error.Some? {
            context := context.(error := p.error);
          }
          steps := steps[i := PatchEntry(steps[i], p)];
        }
        i := i + 1;
      }
      PatchEntriesPointwise(before, stepCount, p);
      assert steps == PatchEntries(before, stepCount, p);
      FindSome(before, stepCount);
      if !record.isInit {
        record := record.(isInit := true);
        steps := InitPrefix(record.initData) + steps;
      }
      context := context.(steps := steps);
    }

    /** `cancel()`; killing the children is not modelled. */
    method Cancel()
      modifies this
      ensures State() == CancelSpec(old(State()))
    {
      record := record.(status := Status.Cancel, editStatusAble := false);
    }

    /** `logName(item)`. */
    method LogName(step: Step)
      modifies this
      ensures State() == LogNameSpec(old(State()), step)
    {
      var msg := DisplayName(step);
      RecordContext(step.stepCount, NamePatch(msg));
    }

    /** `doSkip(item)`. */
    method DoSkip(step: Step)
      modifies this
      ensures State() == NotRunSpec(old(State()), step, Skip)
    {
      if step.id != "" {
        record := record.(steps := record.steps[step.id := IdOutcome(Skip, None)]);
      }
      LogName(step);
      RecordContext(step.stepCount, Patch(Some(Skip), None, None, "", Some(0)));
    }

    /** `doCancel(item)`. */
    method DoCancel(step: Step)
      modifies this
      ensures State() == NotRunSpec(old(State()), step, Status.Cancel)
    {
      if step.id != "" {
        record := record.(steps := record.steps[step.id := IdOutcome(Status.Cancel, None)]);
      }
      LogName(step);
      RecordContext(step.stepCount, Patch(Some(Status.Cancel), None, None, "", Some(0)));
    }

    /** `parseEnv(item)`: the run's and the step's environments merged, then every
        value rendered in place, in property order; the first rendering that throws
        aborts with its error. */
    method ParseEnv(env: Env) returns (r: Result<Env, string>)
      ensures r == CompileEnv(cfg.compile, ScopeOf(cfg, State()), MergeEnv(cfg.inputEnv, env))
    {
      var scope := ScopeOf(cfg, State());
      var newEnv := MergeEnv(cfg.inputEnv, env);
      ghost var merged := newEnv;
      var i := 0;
      while i < |newEnv|
        invariant 0 <= i <= |newEnv| == |merged|
        invariant forall k :: 0 <= k < i ==>
          newEnv[k].0 == merged[k].0 && Render(cfg.compile, scope, merged[k].1) == Ok(newEnv[k].1)
        invariant forall k :: i <= k < |newEnv| ==> newEnv[k] == merged[k]
      {
        var v := Render(cfg.compile, scope, newEnv[i].1);
        if v.Err? {
          CompileEnvFirstErr(cfg.compile, scope, merged, i);
          return Err(v.error);
        }
        newEnv := newEnv[i := (newEnv[i].0, v.value)];
        i := i + 1;
      }
      CompileEnvAllOk(cfg.compile, scope, merged, newEnv);
      return Ok(newEnv);
    }

    /** `doSrc(item)`: for a run step, resolve the directory, log the name, render the
        command and the environment, spawn and await the exit; for a plugin step, log
        the name and await the plugin. */
    method DoSrc(step: Step, w: StepWorld) returns (res: Result<Option<Outputs>, string>)
      modifies this
      ensures (State(), res) == DoSrcSpec(cfg, old(State()), step, w)
    {
      if !HasSrc(step) {
        return Ok(None);
      }
      match step.kind {
        case Run(command, workingDirectory) =>
          var execPath := if workingDirectory != "" then workingDirectory else cfg.cwd;
          execPath := if IsAbsolute(execPath) then execPath else Join(cfg.cwd, execPath);
          LogName(step);
          var run := Render(cfg.compile, ScopeOf(cfg, State()), command);
          if run.Err? {
            return Err(run.error);
          }
          var env := ParseEnv(step.env);
          if env.Err? {
            return Err(env.error);
          }
          childProcess := childProcess + [Spawn(run.value, execPath, env.value)];
          res := OnFinish(w.exit, record.status);
        case Plugin(_, _) =>
          LogName(step);
          res := w.plugin;
      }
    }

    /** `handleSrc(item)`; `ifPassed` is `item.if === 'true'`. A rethrown error ends
        the step the same way as a returned one, so only the state is modelled. */
    method HandleSrc(step: Step, ifPassed: bool, w: StepWorld)
      modifies this
      ensures State() == HandleSrcSpec(cfg, old(State()), step, ifPassed, w)
    {
      if w.cancelDuring {
        Cancel();
      }
      var res: Result<Option<Outputs>, string>;
      if w.preRunError.Some? {
        res := Err(w.preRunError.value);
      } else {
        res := DoSrc(step, w);
      }
      match res {
        case Ok(out) =>
          if !ifPassed && record.status == Status.Cancel {
            DoCancel(step);
          } else {
            Succeed(step, out, w.elapsed);
          }
        case Err(error) =>
          Fail(step, error, w.elapsed);
      }
    }

    /** The success branch of `handleSrc`. */
    method Succeed(step: Step, out: Option<Outputs>, elapsed: nat)
      modifies this
      ensures State() == SucceedSpec(old(State()), step, out, elapsed)
    {
      if record.editStatusAble {
        record := record.(status := Success);
      }
      if step.id != "" {
        record := record.(steps := record.steps[step.id := IdOutcome(Success, out)]);
      }
      RecordContext(step.stepCount, Patch(Some(Success), None, out, "", Some(elapsed)));
    }

    /** The `catch` branch of `handleSrc`. */
    method Fail(step: Step, error: string, elapsed: nat)
      modifies this
      ensures State() == FailSpec(old(State()), step, error, elapsed)
    {
      var status := if step.continueOnError == Flag(true) then ErrorWithContinue else Failure;
      if record.editStatusAble {
        record := record.(status := status);
      }
      if status == Failure {
        record := record.(editStatusAble := false);
      }
      if step.id != "" {
        record := record.(steps := record.steps[step.id := IdOutcome(status, None)]);
      }
      if Truthy(step.continueOnError) {
        RecordContext(step.stepCount, Patch(Some(status), None, None, "", Some(elapsed)));
      } else {
        RecordContext(step.stepCount, Patch(Some(status), Some(error), None, "", Some(elapsed)));
      }
    }

    /** The `src` of one step's machine state: mark it running, take its env, then
        gate it on its `if` or on the run's status. */
    method Src(step: Step, w: StepWorld)
      modifies this
      ensures State() == SrcSpec(cfg, old(State()), step, w)
    {
      RecordContext(step.stepCount, StatusPatch(Running));
      context := context.(env := step.env);
      if step.cond != "" {
        var cond := step.cond;
        cond := ReplaceFirst(cond, FailureToken, if record.status == Failure then "true" else "false");
        cond := ReplaceFirst(cond, SuccessToken, if record.status != Failure then "true" else "false");
        cond := ReplaceFirst(cond, CancelledToken, if record.status == Status.Cancel then "true" else "false");
        cond := ReplaceFirst(cond, AlwaysToken, "true");
        assert cond == RewriteIf(step.cond, record.status);
        var compiled := Render(cfg.compile, ScopeOf(cfg, State()), cond);
        if compiled.Err? {
          // the compile error escapes `src`; the machine moves on to the next state
          return;
        }
        if compiled.value == "true" {
          HandleSrc(step, true, w);
        } else {
          DoSkip(step);
        }
        return;
      }
      if record.status == Status.Cancel {
        DoCancel(step);
        return;
      }
      if record.status == Failure {
        DoSkip(step);
        return;
      }
      HandleSrc(step, false, w);
    }

    /** One state of the machine: a `cancel()` may arrive before its `src` runs. */
    method Step(step: Step, w: StepWorld)
      modifies this
      ensures State() == StepSpec(cfg, old(State()), step, w)
    {
      if w.cancelBefore {
        Cancel();
      }
      Src(step, w);
    }

    /** `doInit()`: returns the steps to run. */
    method DoInit(cancelDuring: bool, o: InitOutcome) returns (steps: seq<Step>)
      modifies this
      ensures (State(), steps) == DoInitSpec(cfg, old(State()), cancelDuring, o)
    {
      context := context.(status := Running);
      if cancelDuring {
        Cancel();
      }
      match o {
        case InitReturned(name, returned, outputs, elapsed) =>
          record := record.(initData := Some(Entry(cfg.initStepCount, name.GetOr(cfg.initStepName), Success, outputs, None, Some(elapsed))));
          steps := returned.GetOr(cfg.steps);
        case InitThrew(error, elapsed) =>
          record := record.(status := Failure);
          context := context.(status := Failure);
          record := record.(initData := Some(Entry(cfg.initStepCount, cfg.initStepName, Failure, None, Some(error), Some(elapsed))));
          context := context.(error := Some(error));
          steps := cfg.steps;
      }
    }

    /** `doCompleted()`. */
    method DoCompleted()
      modifies this
      ensures State() == CompletedSpec(old(State()))
    {
      context := context.(completed := true);
    }

    /** `start()`: init, then one machine state per step in list order, then the final
        state. */
    method Start(w: World)
      modifies this
      ensures State() == StartSpec(cfg, old(State()), w)
    {
      var steps := DoInit(w.cancelDuringInit, w.init);
      if |steps| == 0 {
        RecordContext(record.initData.value.stepCount, Patch(None, None, None, "", None));
        DoCompleted();
        return;
      }
      context := context.(steps := PendingEntries(steps));
      RunAll(steps, w.stepWorld);
      if w.cancelBeforeFinal {
        Cancel();
      }
      Final();
    }

    /** The machine's step states in list order, each moving on to the next whether
        its `src` resolved or threw. */
    method RunAll(steps: seq<Step>, sw: nat -> StepWorld)
      modifies this
      ensures State() == RunSteps(StepFn(cfg), old(State()), steps, sw, |steps|)
    {
      ghost var s0 := State();
      var i := 0;
      while i < |steps|
        invariant 0 <= i <= |steps|
        invariant State() == RunSteps(StepFn(cfg), s0, steps, sw, i)
      {
        ghost var prev := State();
        Step(steps[i], sw(i));
        assert RunSteps(StepFn(cfg), s0, steps, sw, i + 1) == StepFn(cfg)(prev, steps[i], sw(i));
        i := i + 1;
      }
    }

    /** The `src` of the machine's final state. */
    method Final()
      modifies this
      ensures State() == FinalSpec(old(State()))
    {
      context := context.(status := if record.status == ErrorWithContinue then Success else record.status);
      DoCompleted();
    }
  }
}
