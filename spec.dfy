/** The engine's state transitions as pure functions of the old state. Each function
    specifies one method of `StepEngine.Engine` (its name, with `Spec` appended), and
    the lemmas in `EngineProperties` state what they promise. */
module EngineSpec {

  import opened Types
  import opened Strings
  import opened Environment
  import opened Condition

  /** A fresh engine: both records `pending`, the lock open, nothing recorded. */
  function Initial(): State {
    State(Record(Pending, true, map[], false, None), Context(Pending, false, [], None, [], ""), [])
  }

  /** The entry `find` returns for a `stepCount`: the first one carrying it. */
  function Find(es: seq<Entry>, sc: string): (r: Option<Entry>)
    ensures r.Some? ==> r.value.stepCount == sc
  {
    if es == [] then None
    else if es[0].stepCount == sc then Some(es[0])
    else Find(es[1..], sc)
  }

  /** `find` finds an entry exactly when some entry carries the `stepCount`. */
  lemma {:induction false} FindSome(es: seq<Entry>, sc: string)
    ensures Find(es, sc).Some? <==> exists k :: 0 <= k < |es| && es[k].stepCount == sc
  {
    if es != [] && es[0].stepCount != sc {
      FindSome(es[1..], sc);
      assert forall k :: 1 <= k < |es| ==> es[k] == es[1..][k - 1];
    }
  }

  /** The assignments `recordContext` makes on a matching entry; only present option
      fields are written, and `name` only when it is non-empty. */
  function PatchEntry(e: Entry, p: Patch): Entry {
    Entry(
      e.stepCount,
      if p.name != "" then p.name else e.name,
      if p.status.Some? then p.status.value else e.status,
      if p.outputs.Some? then p.outputs else e.outputs,
      if p.error.Some? then p.error else e.error,
      if p.processTime.Some? then p.processTime else e.processTime)
  }

  function PatchFound(o: Option<Entry>, p: Patch): Option<Entry> {
    match o
    case None => None
    case Some(e) => Some(PatchEntry(e, p))
  }

  /** The `map` over `context.steps` in `recordContext`. */
  function PatchEntries(es: seq<Entry>, sc: string, p: Patch): (r: seq<Entry>)
    ensures |r| == |es|
  {
    if es == [] then []
    else [if es[0].stepCount == sc then PatchEntry(es[0], p) else es[0]] + PatchEntries(es[1..], sc, p)
  }

  /** Every entry whose `stepCount` matches is patched, every other entry is kept. */
  lemma {:induction false} PatchEntriesPointwise(es: seq<Entry>, sc: string, p: Patch)
    ensures var r := PatchEntries(es, sc, p);
      forall i :: 0 <= i < |es| ==> r[i] == if es[i].stepCount == sc then PatchEntry(es[i], p) else es[i]
  {
    if es != [] {
      PatchEntriesPointwise(es[1..], sc, p);
      var r := PatchEntries(es, sc, p);
      assert forall i :: 1 <= i < |es| ==> es[i] == es[1..][i - 1] && r[i] == PatchEntries(es[1..], sc, p)[i - 1];
    }
  }

  /** `find` on the patched entries: the step's entry is patched, every other lookup is
      unchanged. */
  lemma {:induction false} PatchEntriesFind(es: seq<Entry>, sc: string, p: Patch)
    ensures forall x :: x != sc ==> Find(PatchEntries(es, sc, p), x) == Find(es, x)
    ensures Find(PatchEntries(es, sc, p), sc) == PatchFound(Find(es, sc), p)
  {
    if es != [] {
      PatchEntriesFind(es[1..], sc, p);
      var r := PatchEntries(es, sc, p);
      assert r[1..] == PatchEntries(es[1..], sc, p);
    }
  }

  function InitPrefix(initData: Option<Entry>): seq<Entry> {
    match initData
    case None => []
    case Some(e) => [e]
  }

  /** The next `recordContext` call puts the init entry, whose key is `x`, in front. */
  predicate PrependsInit(s: State, x: string) {
    !s.record.isInit && s.record.initData.Some? && s.record.initData.value.stepCount == x
  }

  /** `recordContext(item, options)`: patch the entries of `item.stepCount`, record the
      error on the context if some entry matched, and, the first time only, put the
      init entry in front. */
  function RecordContextSpec(s: State, sc: string, p: Patch): (r: State)
    ensures r.record == s.record.(isInit := true) && r.childProcess == s.childProcess
    ensures r.context.status == s.context.status && r.context.completed == s.context.completed
    ensures r.context.env == s.context.env && r.context.stepCount == sc
    ensures |r.context.steps| == |s.context.steps| + |if s.record.isInit then [] else InitPrefix(s.record.initData)|
  {
    var patched := PatchEntries(s.context.steps, sc, p);
    var steps := if s.record.isInit then patched else InitPrefix(s.record.initData) + patched;
    var error := if p.error.Some? && Find(s.context.steps, sc).Some? then p.error else s.context.error;
    State(s.record.(isInit := true),
          s.context.(stepCount := sc, steps := steps, error := error),
          s.childProcess)
  }

  /** `find` after `recordContext`: the init entry when it has just been put in front,
      the patched entry for the step, and every other entry as before. */
  lemma RecordContextFind(s: State, sc: string, p: Patch)
    ensures var r := RecordContextSpec(s, sc, p);
      forall x ::
        Find(r.context.steps, x) ==
          if PrependsInit(s, x) then s.record.initData
          else if x == sc then PatchFound(Find(s.context.steps, x), p)
          else Find(s.context.steps, x)
  {
    var patched := PatchEntries(s.context.steps, sc, p);
    PatchEntriesFind(s.context.steps, sc, p);
    var r := RecordContextSpec(s, sc, p);
    forall x
      ensures Find(r.context.steps, x) ==
        if PrependsInit(s, x) then s.record.initData
        else if x == sc then PatchFound(Find(s.context.steps, x), p)
        else Find(s.context.steps, x)
    {
      if !s.record.isInit && s.record.initData.Some? {
        var e := s.record.initData.value;
        assert r.context.steps == [e] + patched;
        assert r.context.steps[1..] == patched;
        if x != e.stepCount {
          assert Find(r.context.steps, x) == Find(patched, x);
        }
      } else {
        assert r.context.steps == patched;
      }
    }
  }

  function StatusPatch(st: Status): Patch {
    Patch(Some(st), None, None, "", None)
  }

  function NamePatch(name: string): Patch {
    Patch(None, None, None, name, None)
  }

  /** `cancel()`: the status becomes `cancel` and the lock closes, whatever they were. */
  function CancelSpec(s: State): State {
    s.(record := s.record.(status := Cancel, editStatusAble := false))
  }

  /** Stores a step's outcome under its `id`; a step without `id` stores nothing. */
  function SetId(r: Record, id: string, o: IdOutcome): Record {
    if id != "" then r.(steps := r.steps[id := o]) else r
  }

  /** The message `logName` records as the step's name; it stays empty, and so is not
      recorded, for a step whose `run` or `plugin` is empty. */
  function DisplayName(step: Step): string {
    if !HasSrc(step) then ""
    else match step.kind
    case Run(command, _) => if step.name != "" then step.name else "Run " + command
    case Plugin(plugin, pluginType) =>
      if step.name != "" then step.name
      else (if pluginType == "run" then "Run " else "Post Run ") + plugin
  }

  /** `logName(item)`: record the display name on the step's entry. */
  function LogNameSpec(s: State, step: Step): State {
    RecordContextSpec(s, step.stepCount, NamePatch(DisplayName(step)))
  }

  /** `doSkip` (st == Skip) and `doCancel` (st == Cancel): the `id` outcome, the name,
      then the status with `process_time` 0. */
  function NotRunSpec(s: State, step: Step, st: Status): State {
    var s1 := s.(record := SetId(s.record, step.id, IdOutcome(st, None)));
    var s2 := LogNameSpec(s1, step);
    RecordContextSpec(s2, step.stepCount, Patch(Some(st), None, None, "", Some(0)))
  }

  /** The variables a template sees (`getFilterContext`). */
  function ScopeOf(cfg: Config, s: State): Scope {
    Scope(s.context.status, s.record.steps, MergeEnv(cfg.inputEnv, s.context.env))
  }

  /** The exit handler of `onFinish`: a run step succeeds with `{}` when its process exits
      with code 0 or the run has been cancelled; otherwise it fails with its stderr. */
  function OnFinish(exit: Exit, status: Status): Result<Option<Outputs>, string> {
    if exit.code == 0 || status == Cancel then Ok(Some(map[])) else Err(Concat(exit.stderr))
  }

  /** The step's `run` or `plugin` field is non-empty, so `doSrc` takes its branch. */
  predicate HasSrc(step: Step) {
    match step.kind
    case Run(command, _) => command != ""
    case Plugin(plugin, _) => plugin != ""
  }

  /** `doSrc`: spawn the command or invoke the plugin; the state after, and the step's
      result or the error it throws. A step whose `run` or `plugin` is empty takes
      neither branch and returns `undefined`. */
  function DoSrcSpec(cfg: Config, s: State, step: Step, w: StepWorld): (State, Result<Option<Outputs>, string>) {
    if !HasSrc(step) then (s, Ok(None))
    else match step.kind
    case Run(command, workingDirectory) =>
      var dir := ResolveWorkingDirectory(workingDirectory, cfg.cwd);
      var s1 := LogNameSpec(s, step);
      var scope := ScopeOf(cfg, s1);
      (match Render(cfg.compile, scope, command)
       case Err(e) => (s1, Err(e))
       case Ok(cmd) =>
         match CompileEnv(cfg.compile, scope, MergeEnv(cfg.inputEnv, step.env))
         case Err(e) => (s1, Err(e))
         case Ok(env) =>
           var s2 := s1.(childProcess := s1.childProcess + [Spawn(cmd, dir, env)]);
           (s2, OnFinish(w.exit, s2.record.status)))
    case Plugin(_, _) =>
      (LogNameSpec(s, step), w.plugin)
  }

  /** The success branch of `handleSrc` once the step was not reclassified. */
  function SucceedSpec(s: State, step: Step, out: Option<Outputs>, elapsed: nat): State {
    var r1 := if s.record.editStatusAble then s.record.(status := Success) else s.record;
    var r2 := SetId(r1, step.id, IdOutcome(Success, out));
    RecordContextSpec(s.(record := r2), step.stepCount, Patch(Some(Success), None, out, "", Some(elapsed)))
  }

  /** `item['continue-on-error']` used as a condition. */
  predicate Truthy(c: ContinueOnError) {
    match c
    case Unset => false
    case Flag(b) => b
    case NonBoolean(t) => t
  }

  /** The status a failing step gets: `error_with_continue` only for `continue-on-error === true`. */
  function FailureStatus(c: ContinueOnError): Status {
    if c == Flag(true) then ErrorWithContinue else Failure
  }

  /** The catch branch of `handleSrc`. */
  function FailSpec(s: State, step: Step, error: string, elapsed: nat): State {
    var st := FailureStatus(step.continueOnError);
    var r1 := if s.record.editStatusAble then s.record.(status := st) else s.record;
    var r2 := if st == Failure then r1.(editStatusAble := false) else r1;
    var r3 := SetId(r2, step.id, IdOutcome(st, None));
    var p := if Truthy(step.continueOnError) then Patch(Some(st), None, None, "", Some(elapsed))
             else Patch(Some(st), Some(error), None, "", Some(elapsed));
    RecordContextSpec(s.(record := r3), step.stepCount, p)
  }

  /** `handleSrc(item)`; `ifPassed` says whether the step's `if` compiled to `"true"`. */
  function HandleSrcSpec(cfg: Config, s: State, step: Step, ifPassed: bool, w: StepWorld): State {
    var s0 := if w.cancelDuring then CancelSpec(s) else s;
    var run := if w.preRunError.Some? then (s0, Err(w.preRunError.value)) else DoSrcSpec(cfg, s0, step, w);
    var s1 := run.0;
    match run.1
    case Ok(out) =>
      if !ifPassed && s1.record.status == Cancel then NotRunSpec(s1, step, Cancel)
      else SucceedSpec(s1, step, out, w.elapsed)
    case Err(e) => FailSpec(s1, step, e, w.elapsed)
  }

  /** What the gating in a step's `src` decides. */
  datatype Decision = Execute(ifPassed: bool) | SkipStep | CancelStep | Unrendered

  /** The gating: a step with an `if` runs exactly when its rewritten and compiled
      condition is `"true"` (a compile error escapes the step); a step without one is
      cancelled after `cancel()`, skipped after a failure, and run otherwise. */
  function Gate(cfg: Config, s: State, step: Step): Decision {
    if step.cond != "" then
      match Render(cfg.compile, ScopeOf(cfg, s), RewriteIf(step.cond, s.record.status))
      case Err(_) => Unrendered
      case Ok(c) => if c == "true" then Execute(true) else SkipStep
    else if s.record.status == Cancel then CancelStep
    else if s.record.status == Failure then SkipStep
    else Execute(false)
  }

  /** The step's entry is marked `running` and the context takes the step's env. */
  function EnterSpec(s: State, step: Step): State {
    var s1 := RecordContextSpec(s, step.stepCount, StatusPatch(Running));
    s1.(context := s1.context.(env := step.env))
  }

  /** The `src` the state machine invokes for one step. */
  function SrcSpec(cfg: Config, s: State, step: Step, w: StepWorld): State {
    var s1 := EnterSpec(s, step);
    match Gate(cfg, s1, step)
    case Unrendered => s1
    case SkipStep => NotRunSpec(s1, step, Skip)
    case CancelStep => NotRunSpec(s1, step, Cancel)
    case Execute(ifPassed) => HandleSrcSpec(cfg, s1, step, ifPassed, w)
  }

  /** One state of the machine: a `cancel()` that may arrive first, then the step. */
  function StepSpec(cfg: Config, s: State, step: Step, w: StepWorld): State {
    SrcSpec(cfg, if w.cancelBefore then CancelSpec(s) else s, step, w)
  }

  /** One machine state, as a value that `RunSteps` folds. */
  function StepFn(cfg: Config): (State, Step, StepWorld) -> State {
    (s: State, step: Step, w: StepWorld) => StepSpec(cfg, s, step, w)
  }

  /** The machine after its first `n` states, in list order, each moving on to the next
      whether its `src` resolved or threw; `next` is one state (`StepFn` for the engine). */
  function RunSteps(next: (State, Step, StepWorld) -> State, s: State, steps: seq<Step>, sw: nat -> StepWorld, n: nat): State
    requires n <= |steps|
  {
    if n == 0 then s
    else next(RunSteps(next, s, steps, sw, n - 1), steps[n - 1], sw(n - 1))
  }

  /** `doInit`: the init entry, the status effects of a throwing hook, and the steps to run. */
  function DoInitSpec(cfg: Config, s: State, cancelDuring: bool, o: InitOutcome): (State, seq<Step>) {
    var s1 := s.(context := s.context.(status := Running));
    var s2 := if cancelDuring then CancelSpec(s1) else s1;
    match o
    case InitReturned(name, steps, outputs, elapsed) =>
      var entry := Entry(cfg.initStepCount, name.GetOr(cfg.initStepName), Success, outputs, None, Some(elapsed));
      (s2.(record := s2.record.(initData := Some(entry))), steps.GetOr(cfg.steps))
    case InitThrew(error, elapsed) =>
      var entry := Entry(cfg.initStepCount, cfg.initStepName, Failure, None, Some(error), Some(elapsed));
      (s2.(record := s2.record.(status := Failure, initData := Some(entry)),
           context := s2.context.(status := Failure, error := Some(error))),
       cfg.steps)
  }

  /** Every step seeded as a `pending` entry, in order. */
  function PendingEntries(steps: seq<Step>): (r: seq<Entry>)
    ensures |r| == |steps|
  {
    seq(|steps|, i requires 0 <= i < |steps| => Entry(steps[i].stepCount, steps[i].name, Pending, None, None, None))
  }

  /** The reported status: `error_with_continue` becomes `success`, every other status passes. */
  function ReportedStatus(st: Status): Status {
    if st == ErrorWithContinue then Success else st
  }

  /** `doCompleted`: the run is marked completed. */
  function CompletedSpec(s: State): State {
    s.(context := s.context.(completed := true))
  }

  /** The final state of the machine: report the status, then `doCompleted`. */
  function FinalSpec(s: State): State {
    CompletedSpec(s.(context := s.context.(status := ReportedStatus(s.record.status))))
  }

  /** `start()`. */
  function StartSpec(cfg: Config, s: State, w: World): State {
    var init := DoInitSpec(cfg, s, w.cancelDuringInit, w.init);
    var s1 := init.0;
    var steps := init.1;
    if |steps| == 0 then
      CompletedSpec(RecordContextSpec(s1, cfg.initStepCount, Patch(None, None, None, "", None)))
    else
      var s2 := s1.(context := s1.context.(steps := PendingEntries(steps)));
      var s3 := RunSteps(StepFn(cfg), s2, steps, w.stepWorld, |steps|);
      var s4 := if w.cancelBeforeFinal then CancelSpec(s3) else s3;
      FinalSpec(s4)
  }
}
