/** The data of the step engine: run statuses, declarative steps, the run-status
    record, the caller-visible context, and the oracles that stand for everything the
    engine awaits (hooks, child processes, plugins, the clock, cancellation).

    Optional string fields of a step (`if`, `id`, `name`, `working-directory`) are
    plain strings in which "" stands for "absent": every test the engine makes on them
    is a truthiness test, for which an absent field and the empty string agree. */
module Types {

  datatype Option<+T> = None | Some(value: T) {
    function GetOr(default: T): T {
      match this
      case Some(v) => v
      case None => default
    }
  }

  datatype Result<+T, +E> = Ok(value: T) | Err(error: E)

  /** The status enum shared by the run record, the context and every step entry. */
  datatype Status = Pending | Running | Success | Failure | Cancel | ErrorWithContinue | Skip

  /** Whatever a step returns as its outputs; only its presence matters to the engine. */
  type Outputs = map<string, string>

  /** An environment object: its keys in property order, with their values. */
  type Env = seq<(string, string)>

  /** The `continue-on-error` field as written in a step: absent, a boolean, or some
      other value, which is only ever tested for truthiness. */
  datatype ContinueOnError = Unset | Flag(b: bool) | NonBoolean(truthy: bool)

  /** A step is either a shell command or a plugin invocation (`type` is `run` or `postRun`). */
  datatype Kind =
    | Run(command: string, workingDirectory: string)
    | Plugin(plugin: string, pluginType: string)

  datatype Step = Step(
    stepCount: string,
    id: string,
    name: string,
    cond: string,
    continueOnError: ContinueOnError,
    env: Env,
    kind: Kind)

  /** One entry of `context.steps`: the fields the engine writes on a step object. */
  datatype Entry = Entry(
    stepCount: string,
    name: string,
    status: Status,
    outputs: Option<Outputs>,
    error: Option<string>,
    processTime: Option<nat>)

  /** The value stored under a step's `id` in `record.steps`. */
  datatype IdOutcome = IdOutcome(status: Status, outputs: Option<Outputs>)

  /** The run-status record (internal). */
  datatype Record = Record(
    status: Status,
    editStatusAble: bool,
    steps: map<string, IdOutcome>,
    isInit: bool,
    initData: Option<Entry>)

  /** The caller-visible context; `cwd` and `inputs` are fixed per run and live in `Config`. */
  datatype Context = Context(
    status: Status,
    completed: bool,
    steps: seq<Entry>,
    error: Option<string>,
    env: Env,
    stepCount: string)

  /** A child process the engine has spawned: compiled command, directory and environment. */
  datatype Spawn = Spawn(command: string, cwd: string, env: Env)

  /** Everything the engine changes while it runs. */
  datatype State = State(record: Record, context: Context, childProcess: seq<Spawn>)

  /** The optional arguments of `recordContext`; a field is applied only when present
      (for `name` only when non-empty, as the source tests it for truthiness). */
  datatype Patch = Patch(
    status: Option<Status>,
    error: Option<string>,
    outputs: Option<Outputs>,
    name: string,
    processTime: Option<nat>)

  /** The variable-substitution context a template is rendered against. */
  datatype Scope = Scope(status: Status, steps: map<string, IdOutcome>, env: Env)

  /** The template compiler, compile-then-render, which may throw. */
  type Compiler = (string, Scope) -> Result<string, string>

  /** The engine options: working directory, `inputs.env`, the option steps, the
      template compiler, and the key and default name of the synthetic init entry. */
  datatype Config = Config(
    cwd: string,
    inputEnv: Env,
    steps: seq<Step>,
    compile: Compiler,
    initStepCount: string,
    initStepName: string)

  /** How a spawned shell command ends: its exit code and its standard-error chunks. */
  datatype Exit = Exit(code: int, stderr: seq<string>)

  /** What happens around and during one step:
      cancelBefore  - `cancel()` arrives after the previous step and before this one's gating;
      preRunError   - the `onPreRun` hook throws;
      cancelDuring  - `cancel()` arrives while the step executes;
      exit, plugin  - the child process's exit (run steps) or the plugin's result;
      elapsed       - the measured `process_time`. */
  datatype StepWorld = StepWorld(
    cancelBefore: bool,
    preRunError: Option<string>,
    cancelDuring: bool,
    exit: Exit,
    plugin: Result<Option<Outputs>, string>,
    elapsed: nat)

  /** What `onInit` does: return a value (possibly with `name` and `steps`), or throw. */
  datatype InitOutcome =
    | InitReturned(name: Option<string>, steps: Option<seq<Step>>, outputs: Option<Outputs>, elapsed: nat)
    | InitThrew(error: string, elapsed: nat)

  /** The whole environment of one run. */
  datatype World = World(
    cancelDuringInit: bool,
    init: InitOutcome,
    stepWorld: nat -> StepWorld,
    cancelBeforeFinal: bool)
}
