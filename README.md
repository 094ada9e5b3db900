# Step engine model

A Dafny model of the step-orchestration engine `Engine` in
`packages/engine/src/index.ts`. The engine runs a pipeline of steps one after the other.
A step either runs a shell command (`run`) or calls a plugin. The engine keeps two
mutable records:

- `record` holds the run verdict (`status`), a one-way lock on that verdict
  (`editStatusAble`), and the outcome of every step that has an `id`.
- `context` is what callers see: one entry per step (its status, name, outputs, error
  and processing time), plus the run's `status`, `completed`, `error` and `env`.

The class `StepEngine.Engine` (in `engine.dfy`) has these two records and the list of
spawned child processes as fields. Its methods update them in place, as the TypeScript
methods do. Each method is proved to leave exactly the state that a pure transition
function of `EngineSpec` (in `spec.dfy`) gives. The properties the engine promises are
lemmas about those functions, in `properties.dfy`: the status lock, the `if` rewrite and
gating, outcome normalisation, `recordContext`'s framing, sequencing, and completion.

Modules:

- `Types`: the shared datatypes.
- `Strings`: first-occurrence `replace`, the `${{` rewrite, and buffer concatenation.
- `Environment`: `doArtTemplateCompile`, env merging, `parseEnv` and the working
  directory.
- `Condition`: the `if` rewrite.
- `EngineSpec`: the transition functions.
- `StepEngine`: the class.
- `EngineProperties`: the lemmas.

Everything outside the engine becomes data passed in:

- The template compiler (art-template) is an uninterpreted function `Config.compile`.
  It gets the rewritten template and the variables `getFilterContext` exposes: `status`,
  the `id` outcomes, and the merged env. It returns the rendered text or the error it
  throws.
- The hooks, the child processes, the plugins, the clock and calls to `cancel()` from
  outside form an oracle:
  - `World` covers the whole run: a cancel during `onInit`, the init outcome, a world per
    step, and a cancel before the final state.
  - `StepWorld` covers one step: a cancel before the step starts, an `onPreRun` error, a
    cancel while it runs, the child's exit code and standard error, the plugin's result,
    and the elapsed time.
- The xstate machine is the loop `Engine.RunAll`. Each state's `src` moves on to the next
  `stepCount` whether it resolves or throws, and to `final` after the last step.

A JS "absent or empty" string field (`if`, `id`, `name`, `working-directory`, `run`,
`plugin`) is the empty string, because every test of these fields in the source is a
truthiness test. `continue-on-error` keeps three cases:

- unset;
- a boolean;
- another value, with its truthiness.

This is needed because the source uses `=== true` to pick the status, and truthiness to
decide whether the error is recorded and rethrown.

Where the code and its documentation differ, the model follows the code:

- A run whose step list is empty leaves `context.status` at what `doInit` set, `running`
  after a successful `onInit` (`index.ts:83-87` never assigns the status). The
  documentation says the init outcome's status.
- A step whose rewritten `if` fails to compile throws out of `src` before `handleSrc` or
  `doSkip` runs. Its entry therefore stays `running` (`IfStepGating`).
- A throwing `onInit` does not necessarily leave the run `failure`, as the documentation
  says. It sets both statuses to `failure` but leaves the lock open (`index.ts:66`;
  `InitEffects`). A later step that runs anyway, for example with `if: always()`, and
  succeeds sets the verdict to `success` (`index.ts:313-315`; `SucceedEffects`). The
  run is then reported `success`.

## Model

| member | source | states |
|---|---|---|
| StepEngine.Engine.constructor | packages/engine/src/index.ts:17-32 | a fresh engine has both records `pending`, the lock open, no entries and no children |
| StepEngine.Engine.RecordContext | packages/engine/src/index.ts:240-268 | the in-place `map` over the entries leaves the state `RecordContextSpec` gives: loop invariants say each matching entry is patched, the others are untouched, and the context error is set iff some entry matched |
| EngineSpec.RecordContextSpec | packages/engine/src/index.ts:240-268 | marks the run initialised and keeps the record's other fields, the children, the status, `completed` and `env`; the new length is the old length plus one exactly when the init entry is put in front |
| EngineSpec.FindSome | packages/engine/src/index.ts:219 | `find` by `stepCount` returns an entry exactly when some entry carries that `stepCount`, and the entry carries it |
| EngineSpec.PatchEntriesPointwise | packages/engine/src/index.ts:244-263 | the `map` patches every entry whose `stepCount` matches and keeps every other entry, position by position |
| EngineSpec.PatchEntriesFind | packages/engine/src/index.ts:244-263 | after the `map`, `find` returns the patched entry for the step and the old entry for every other `stepCount` |
| EngineSpec.RecordContextFind | packages/engine/src/index.ts:240-268 | after `recordContext`, `find` returns the init entry when it has just been put in front, the patched entry for the step, and the old entry otherwise |
| EngineProperties.RecordContextPointwise | packages/engine/src/index.ts:240-268 | the entries after the call are the old ones patched pointwise, preceded by the init entry exactly when `isInit` was false and `initData` is set |
| EngineProperties.RecordContextPrependsOnce | packages/engine/src/index.ts:264-267 | after any call the run is initialised, so a second call never prepends again |
| StepEngine.Engine.Cancel | packages/engine/src/index.ts:270-277 | sets the verdict to `cancel` and closes the lock, nothing else |
| StepEngine.Engine.LogName | packages/engine/src/index.ts:453-470 | leaves the `LogNameSpec` state: the message the `run`/`plugin` branches build is recorded as the step's name, and an empty message is not recorded |
| EngineProperties.LogNameEffects | packages/engine/src/index.ts:453-470 | only the name of the step's entry changes; for a step with a `run` or `plugin` the new name is never empty: the declared `name`, else `Run <run>`, else `Run <plugin>` or `Post Run <plugin>` by the plugin's `type`; a step with neither keeps its old name |
| StepEngine.Engine.DoSkip | packages/engine/src/index.ts:415-429 | leaves the `NotRunSpec` state for `skip` |
| StepEngine.Engine.DoCancel | packages/engine/src/index.ts:430-444 | leaves the `NotRunSpec` state for `cancel` |
| EngineProperties.NotRunEffects | packages/engine/src/index.ts:415-444 | skipping or cancelling keeps the verdict, the lock, the run status and the children; it sets the `id` outcome, and gives the entry the status and a `process_time` of 0; the entry takes the display name when the step has a `run` or `plugin` and keeps its name otherwise; no other entry changes |
| EngineProperties.NotRunLock | packages/engine/src/index.ts:415-444 | skipping or cancelling never touches the verdict or the lock |
| StepEngine.Engine.ParseEnv | packages/engine/src/index.ts:401-409 | the `for..in` loop that renders in place returns `CompileEnv` of the merged environment: every value rendered, or the first rendering error |
| Environment.MergeEnvLookup | packages/engine/src/index.ts:403 | in `{ ...inputs.env, ...item.env }` the step's value wins, otherwise the run's value is kept, and no key is invented |
| Environment.MergeEnvKeys | packages/engine/src/index.ts:403 | the merged keys are exactly the union of both key sets |
| Environment.CompileEnvOk | packages/engine/src/index.ts:404-407 | a successful compile keeps every key in place and holds each value's rendering |
| Environment.CompileEnvErr | packages/engine/src/index.ts:404-407 | the compile fails exactly when some value fails to render, and the error is that of the first failing value |
| Environment.CompileEnvAllOk | packages/engine/src/index.ts:404-407 | conversely, when every value renders, the compile returns exactly the rendered list |
| Environment.CompileEnvFirstErr | packages/engine/src/index.ts:404-407 | conversely, the first value that fails to render decides the error |
| Environment.SpawnEnvironment | packages/engine/src/index.ts:401-409 | the `env` option passed to the spawn has a key exactly when the run or the step defines it, holding the rendered step value, else the rendered run value |
| Environment.WorkingDirectoryResolution | packages/engine/src/index.ts:377-378 | an absolute `working-directory` is used as it is; a relative one is joined onto `cwd` and ends the path; without one, an absolute `cwd` is used; the result is absolute when either input is |
| Strings.IndexOf | packages/engine/src/index.ts:133-151 | the position `replace` rewrites is the first occurrence of the token, and there is none when the token does not occur |
| Strings.ReplaceFirstAtFirstOccurrence | packages/engine/src/index.ts:133-151 | `replace` with a string pattern rewrites exactly the first occurrence |
| Strings.ReplaceFirstKeepsLaterOccurrences | packages/engine/src/index.ts:133-137 | later occurrences survive, e.g. `failure() && failure()` becomes `true && failure()` |
| Strings.ReplaceFirstAbsent | packages/engine/src/index.ts:133-151 | a string without the token is left unchanged |
| Strings.ReplaceTemplateOpenOnlyDropsDollars | packages/engine/src/index.ts:412 | the global `${{` to `{{` rewrite only deletes `$` characters and never lengthens the text |
| Strings.ReplaceTemplateOpenRewritesOpen | packages/engine/src/index.ts:412 | each `${{` becomes `{{`: after a `$`-free prefix the first `${{` is rewritten and the rest is rewritten in turn |
| Strings.ReplaceTemplateOpenNoDollar | packages/engine/src/index.ts:412 | text without `$` reaches the compiler unchanged |
| Strings.ConcatAppend | packages/engine/src/index.ts:496 | concatenating buffered chunks does not depend on how the output was split into chunks |
| Condition.RewriteFailure | packages/engine/src/index.ts:133-137 | an `if` of `failure()` becomes `true` exactly when the verdict is `failure` |
| Condition.RewriteSuccess | packages/engine/src/index.ts:139-143 | an `if` of `success()` becomes `true` exactly when the verdict is not `failure`, so also after `cancel` |
| Condition.RewriteCancelled | packages/engine/src/index.ts:145-149 | an `if` of `cancelled()` becomes `true` exactly when the verdict is `cancel` |
| Condition.RewriteAlways | packages/engine/src/index.ts:151 | an `if` of `always()` becomes `true` |
| Condition.RewritePlain | packages/engine/src/index.ts:131-151 | an `if` without any token reaches the compiler unchanged |
| EngineProperties.PredicateGating | packages/engine/src/index.ts:131-153 | when the compiler renders the literals as themselves, `always()` runs, `failure()` runs iff the verdict is `failure`, `success()` runs iff it is not, `cancelled()` runs iff it is `cancel`, and otherwise the step is skipped |
| StepEngine.Engine.DoSrc | packages/engine/src/index.ts:371-400 | for a run step: resolves the directory, logs the name, renders the command and the env, spawns once, and returns the exit verdict; the first rendering error is returned instead; for a plugin step: logs the name and returns the plugin's result; with neither, returns nothing |
| EngineProperties.DoSrcKeepsRecord | packages/engine/src/index.ts:371-400 | `doSrc` keeps the verdict, the lock, the `id` outcomes, the template variables, the context error and the step entry's status; it changes no other entry and at most appends one child |
| StepEngine.Engine.HandleSrc | packages/engine/src/index.ts:305-361 | leaves the `HandleSrcSpec` state: a possible cancel, the pre-run error or `doSrc`, then the reclassification, success or failure branch |
| StepEngine.Engine.Succeed | packages/engine/src/index.ts:312-327 | leaves the `SucceedSpec` state |
| StepEngine.Engine.Fail | packages/engine/src/index.ts:331-359 | leaves the `FailSpec` state |
| EngineProperties.SucceedEffects | packages/engine/src/index.ts:312-327 | the verdict becomes `success` only while the lock is open, and the lock is kept; the `id` outcome becomes `{success, outputs}` and later templates see it; other `id`s are kept; the entry gets `success`, the outputs and the elapsed time; no other entry changes |
| EngineProperties.FailEffects | packages/engine/src/index.ts:331-359 | `continue-on-error: true` gives `error_with_continue` and keeps the lock; any other failure gives `failure` and closes it (the verdict changes only while the lock is open); the `id` outcome becomes the status and every other `id` outcome is kept; the entry and the context get the error exactly when `continue-on-error` is falsy |
| EngineProperties.SucceedLock | packages/engine/src/index.ts:313-315 | a success sets the verdict only while the lock is open and keeps the lock |
| EngineProperties.FailLock | packages/engine/src/index.ts:331-340 | a failure sets the verdict only while the lock is open; a hard failure closes the lock |
| EngineProperties.HandleSrcLock | packages/engine/src/index.ts:305-361 | the lock never reopens, and while it is closed only a `cancel()` changes the verdict |
| EngineProperties.CancelledSuccessReclassified | packages/engine/src/index.ts:308-327 | after a cancel, a step that succeeds but whose `if` did not compile to `true` is recorded `cancel` with `process_time` 0 and a `cancel` outcome; with a passing `if` it is recorded `success` with its outputs |
| EngineProperties.RunStepExitVerdict | packages/engine/src/index.ts:371-400 | a run step whose command and env render spawns exactly one child with those values and the resolved directory; code 0 gives `success` with `{}` outputs; another code gives the failure status, with the concatenated stderr on the entry unless `continue-on-error` is truthy |
| EngineProperties.KilledRunStepIsCancelled | packages/engine/src/index.ts:493-497 | a run step whose child is killed by a cancel is recorded `cancel` whatever its exit code |
| EngineProperties.HandleSrcSettles | packages/engine/src/index.ts:305-361 | an executed step ends `success`, `failure`, `error_with_continue` or `cancel`, and only its own entry changes |
| StepEngine.Engine.Src | packages/engine/src/index.ts:122-162 | marks the entry `running` and takes the step's env; rewrites and compiles the `if` and runs or skips on the result; otherwise cancels, skips or runs by the verdict |
| StepEngine.Engine.Step | packages/engine/src/index.ts:117-167 | one machine state, with a possible cancel before its `src` |
| EngineProperties.EnterEffects | packages/engine/src/index.ts:127-129 | entering a step marks its entry `running`, gives the context the step's env, and keeps the verdict, the lock, the `id` outcomes and every other entry |
| EngineProperties.PlainStepGating | packages/engine/src/index.ts:155-161 | a step without `if` is recorded `cancel` after a cancel and `skip` after a failure (nothing spawned, `process_time` 0, `id` outcome set); otherwise it runs |
| EngineProperties.IfStepGating | packages/engine/src/index.ts:131-153 | a step with `if` runs exactly when the rewritten condition compiles to `true`, whatever the verdict, even `cancel`; any other result records `skip`; a compile error leaves the entry `running` |
| EngineProperties.StepLock | packages/engine/src/index.ts:117-167 | across one machine state the lock never reopens, and the verdict moves only to `cancel` after it closes |
| EngineProperties.RunLock | packages/engine/src/index.ts:117-167 | once the lock is closed, no later step outcome changes the verdict; only a cancel can, and only to `cancel` |
| EngineProperties.RunLockFrom | packages/engine/src/index.ts:117-167 | once the lock is closed after the first `k` steps, it stays closed to the end and only a cancel in a later step can change the verdict, and only to `cancel` |
| EngineProperties.IdOutcomePersists | packages/engine/src/index.ts:278-286 | an `id` outcome recorded by the first `k` steps stays in the template variables of every later state, until a step with the same `id` runs |
| EngineProperties.RunStepsSplit | packages/engine/src/index.ts:117-183 | running `n` states is running the first `k`, then the remaining ones from the state reached |
| EngineProperties.RunAfterFailure | packages/engine/src/index.ts:155-161 | after a failure, steps without `if` are all skipped: nothing is spawned, and the verdict, the lock and the context error stay; with distinct `stepCount`s, each visited step's entry records `skip` with a `process_time` of 0 and later entries are untouched |
| EngineProperties.RunAfterCancel | packages/engine/src/index.ts:155-156 | after a cancel, steps without `if` are all recorded `cancel`: nothing is spawned, the verdict stays `cancel` and, with distinct `stepCount`s, each visited step's entry records `cancel` with a `process_time` of 0 and later entries are untouched |
| EngineProperties.StepSettles | packages/engine/src/index.ts:122-162 | one machine state settles its own step's entry and no other; the first one puts the init entry in front |
| EngineProperties.RunVisitsInOrder | packages/engine/src/index.ts:117-167 | after the first `n` states, exactly the first `n` steps have been visited: their entries are settled, later entries keep their `pending` state, and the init entry is in front |
| EngineProperties.PendingEntriesFind | packages/engine/src/index.ts:88-91 | with distinct `stepCount`s, each step's entry starts `pending` |
| StepEngine.Engine.RunAll | packages/engine/src/index.ts:117-183 | running the machine's step states in list order gives the `RunSteps` fold |
| StepEngine.Engine.DoInit | packages/engine/src/index.ts:41-80 | leaves the `DoInitSpec` state and returns the steps to run |
| EngineProperties.InitEffects | packages/engine/src/index.ts:41-80 | the context becomes `running`; a throwing hook sets both statuses to `failure` and records its error but leaves the lock, and the option steps still run; a returning hook gives a `success` init entry, and its own steps if it returns some, else the option steps |
| EngineProperties.InitFailureSkipsPlainSteps | packages/engine/src/index.ts:63-78 | when `onInit` throws and no step has an `if` or is cancelled, every step is skipped, nothing is spawned, and the run is reported `failure` with the hook's error; with distinct `stepCount`s other than the init step's, every step's entry records `skip` with a `process_time` of 0 |
| EngineProperties.InitCancelCancelsPlainSteps | packages/engine/src/index.ts:41-80 | when `cancel()` arrives during a returning `onInit` and no step has an `if`, nothing is spawned, the verdict is `cancel` and the run is reported `cancel`; with distinct `stepCount`s other than the init step's, every step's entry records `cancel` with a `process_time` of 0 |
| StepEngine.Engine.DoCompleted | packages/engine/src/index.ts:290-304 | sets `completed` and nothing else |
| StepEngine.Engine.Final | packages/engine/src/index.ts:102-109 | reports the collapsed verdict and completes |
| EngineProperties.ReportedStatusCollapse | packages/engine/src/index.ts:104-108 | the reported status is `success` exactly when the verdict is `success` or `error_with_continue`; every other verdict is reported as it is |
| StepEngine.Engine.Start | packages/engine/src/index.ts:81-185 | leaves the `StartSpec` state: init, then completion straight away for an empty list, or the entries seeded `pending`, every step state, and the final state |
| EngineProperties.StartCompletes | packages/engine/src/index.ts:81-114 | every run ends `completed`; with steps, the reported status is the collapsed verdict and never `error_with_continue` |
| EngineProperties.StartVisitsEveryStep | packages/engine/src/index.ts:81-167 | with distinct `stepCount`s, the run ends with the init entry followed by one settled entry per step |
| EngineProperties.StartEmpty | packages/engine/src/index.ts:83-87 | an empty step list goes straight to completion: only the init entry is listed, nothing is spawned, and the status stays what `doInit` set |

## Left out

- Child processes: the model does not spawn them, read their output streams, write logs
  or kill them. A spawn is recorded as a `Spawn` value. The exit code and standard error
  come from the oracle. `kill()` has no effect on the model.
- The xstate machinery is replaced by the loop in `RunAll`, which has the same
  transitions.
- Logging and uploads: `EngineLogger`, custom loggers, secret redaction,
  `outputErrorLog`, `doOss` and `doWarn`. All of them are output side effects only.
- Plugin loading (`require`), the plugin's `run`/`postRun` bodies, their inputs, and the
  `$variables` context handed to them. The plugin's result is an oracle value.
- `parsePlugin` is not part of this model. The steps it returns are the option steps or
  the hook's steps.
- The art-template library is the uninterpreted `Config.compile`. The `inputs` fields
  that `getFilterContext` spreads in besides `status`, `steps` and `env` are fixed for a
  run, so they count as part of that function.
- `process.env` changes in the constructor and in `doUnsetEnvs` are global side effects.
- The clock: `startTime` and `getProcessTime` become the oracle's `elapsed`. The only
  time stated exactly is the `process_time` of 0 that skip and cancel record.
- The hooks `onInit`, `onPreRun`, `onPostRun` and `onCompleted` are caller code.
  - Only their outcomes are modelled: what `onInit` returns or throws, and an
    `onPreRun` error.
  - A throwing `onPostRun` or `onCompleted` is caught and has no effect on state.
- Concurrency: a `cancel()` that arrives while a step runs is modelled at the start of
  `handleSrc`. This gives the same result as any point before the exit or plugin result
  arrives, because the kill has no effect and the exit verdict reads `record.status`.
- `path.join` is modelled without normalising `.`, `..` or repeated separators.
  `path.isAbsolute` is POSIX only.
- Object key order:
  - JS puts integer-like keys first in objects; the model keeps insertion order.
  - Input objects are assumed to be free of duplicate keys.
- The in-place rewrites of `item.if` and `item.run` on the step object are not modelled.
  In the source the step object is also the step's context entry, so those rewritten
  strings also appear on the entry. The model does not show this. The name that
  `recordContext` writes lands on the step object too, so a second `logName` for the
  same step reuses the first message. The model gets the same name by rebuilding it
  from the step as declared.
- A step that declares both `run` and `plugin` is not modelled. `doSrc` prefers `run`
  while `logName` prefers the plugin's name.
- `logName`'s `[skipped]` prefix is not modelled. It looks up `record[stepCount].status`,
  which the engine never writes, so the prefix is never applied.
- A thrown error is modelled as a state, not as a propagated exception:
  - `handleSrc` rethrowing a hard failure has no effect beyond the state it leaves,
    because the machine moves to the next step on both edges.
  - Errors are strings (their messages), not `Error` objects.
- A step whose `stepCount` is `init` or `final` would collide with the machine's own
  state names. The model assumes no such collision.
- Errors thrown by the logger or by `doOss` inside `doInit` and `handleSrc` are not
  modelled.
- RunAll: the model assumes distinct `stepCount`s. The source builds the machine's states
  in a table keyed by `stepCount` (`index.ts:119`). With two steps sharing a key, the
  later one overwrites the earlier state, so only one of them runs. `RunAll` runs both.
- Start: like `RunAll`, it assumes distinct `stepCount`s (`index.ts:119`). The lemmas
  about entries (`StartVisitsEveryStep`, `RunAfterFailure`, `RunAfterCancel`,
  `InitFailureSkipsPlainSteps`, `InitCancelCancelsPlainSteps`) state their entry
  facts only for distinct keys.
- SpawnEnvironment: it states only the `env` option the engine passes. The child's
  actual environment also inherits `process.env`, because execa's `extendEnv` is on by
  default (`index.ts:381`).
- `InitPrefix(None)` is the empty list, so the model prepends nothing when no init entry
  exists. lodash `concat(undefined, steps)` would prepend `undefined` (`index.ts:267`).
  The case does not arise in a run: `doInit` always sets `initData` before the first
  `recordContext`.
- The compiler is built from the live context, `getArtTemplate(this.context)`
  (`index.ts:411`). The model assumes it does not depend on the context object beyond
  the variables `getFilterContext` provides.
