/** The pure helpers a run step needs before it spawns: template rendering
    (`doArtTemplateCompile`), the merged and compiled environment (`parseEnv`) and
    the working directory (the first lines of `doSrc`). */
module Environment {

  import opened Types
  import opened Strings

  /** `doArtTemplateCompile`: rewrite `${{` to `{{`, then compile and render against `scope`. */
  function Render(compile: Compiler, scope: Scope, value: string): Result<string, string> {
    compile(ReplaceTemplateOpen(value), scope)
  }

  /** Property lookup on an environment object. */
  function Lookup(env: Env, key: string): Option<string> {
    if env == [] then None
    else if env[0].0 == key then Some(env[0].1)
    else Lookup(env[1..], key)
  }

  function Keys(env: Env): set<string> {
    set i | 0 <= i < |env| :: env[i].0
  }

  lemma {:induction false} LookupSome(env: Env, key: string)
    ensures Lookup(env, key).Some? <==> key in Keys(env)
  {
    if env != [] {
      LookupSome(env[1..], key);
      assert Keys(env) == {env[0].0} + Keys(env[1..]) by {
        forall k | k in Keys(env) ensures k in {env[0].0} + Keys(env[1..]) {
          var i :| 0 <= i < |env| && env[i].0 == k;
          if i > 0 { assert env[1..][i - 1].0 == k; }
        }
        forall k | k in Keys(env[1..]) ensures k in Keys(env) {
          var i :| 0 <= i < |env[1..]| && env[1..][i].0 == k;
          assert env[i + 1].0 == k;
        }
      }
    }
  }

  lemma {:induction false} LookupAppend(a: Env, b: Env, key: string)
    ensures Lookup(a + b, key) == if Lookup(a, key).Some? then Lookup(a, key) else Lookup(b, key)
  {
    if a == [] {
      assert a + b == b;
    } else {
      assert (a + b)[1..] == a[1..] + b;
      LookupAppend(a[1..], b, key);
    }
  }

  /** The keys of `base`, in order, each with the value `over` gives it if any. */
  function Override(base: Env, over: Env): (r: Env)
    ensures |r| == |base|
  {
    if base == [] then []
    else [(base[0].0, Lookup(over, base[0].0).GetOr(base[0].1))] + Override(base[1..], over)
  }

  /** The pairs of `over` whose key `base` lacks, in order. */
  function Extra(over: Env, base: Env): Env {
    if over == [] then []
    else (if Lookup(base, over[0].0).Some? then [] else [over[0]]) + Extra(over[1..], base)
  }

  /** The object spread `{ ...base, ...over }`: `base`'s keys keep their places,
      `over` wins on shared keys, and `over`'s new keys follow. */
  function MergeEnv(base: Env, over: Env): Env {
    Override(base, over) + Extra(over, base)
  }

  lemma {:induction false} LookupOverride(base: Env, over: Env, key: string)
    ensures Lookup(Override(base, over), key) ==
      match Lookup(base, key)
      case None => None
      case Some(v) => Some(Lookup(over, key).GetOr(v))
  {
    if base != [] {
      LookupOverride(base[1..], over, key);
    }
  }

  lemma {:induction false} LookupExtra(over: Env, base: Env, key: string)
    ensures Lookup(Extra(over, base), key) == if Lookup(base, key).Some? then None else Lookup(over, key)
  {
    if over != [] {
      LookupExtra(over[1..], base, key);
      var head := if Lookup(base, over[0].0).Some? then [] else [over[0]];
      LookupAppend(head, Extra(over[1..], base), key);
    }
  }

  /** The step's own variables override the run's, every other run variable is kept,
      and no variable is invented. */
  lemma MergeEnvLookup(base: Env, over: Env, key: string)
    ensures Lookup(MergeEnv(base, over), key) ==
      if Lookup(over, key).Some? then Lookup(over, key) else Lookup(base, key)
  {
    LookupAppend(Override(base, over), Extra(over, base), key);
    LookupOverride(base, over, key);
    LookupExtra(over, base, key);
  }

  lemma MergeEnvKeys(base: Env, over: Env)
    ensures Keys(MergeEnv(base, over)) == Keys(base) + Keys(over)
  {
    forall key ensures key in Keys(MergeEnv(base, over)) <==> key in Keys(base) + Keys(over) {
      MergeEnvLookup(base, over, key);
      LookupSome(MergeEnv(base, over), key);
      LookupSome(base, key);
      LookupSome(over, key);
    }
  }

  /** The `for..in` loop of `parseEnv`: every value rendered in property order; the
      first rendering that throws aborts the loop with its error. */
  function CompileEnv(compile: Compiler, scope: Scope, env: Env): Result<Env, string> {
    if env == [] then Ok([])
    else
      match Render(compile, scope, env[0].1)
      case Err(e) => Err(e)
      case Ok(v) =>
        match CompileEnv(compile, scope, env[1..])
        case Err(e) => Err(e)
        case Ok(rest) => Ok([(env[0].0, v)] + rest)
  }

  /** Rendering every value without error compiles the list to the rendered values. */
  lemma {:induction false} CompileEnvAllOk(compile: Compiler, scope: Scope, env: Env, out: Env)
    requires |out| == |env|
    requires forall i :: 0 <= i < |env| ==> out[i].0 == env[i].0 && Render(compile, scope, env[i].1) == Ok(out[i].1)
    ensures CompileEnv(compile, scope, env) == Ok(out)
  {
    if env != [] {
      forall i | 0 <= i < |env| - 1
        ensures out[1..][i].0 == env[1..][i].0 && Render(compile, scope, env[1..][i].1) == Ok(out[1..][i].1)
      {
        assert out[1..][i] == out[i + 1] && env[1..][i] == env[i + 1];
      }
      CompileEnvAllOk(compile, scope, env[1..], out[1..]);
      assert out == [(env[0].0, out[0].1)] + out[1..];
    }
  }

  /** The first value that does not render decides the error. */
  lemma {:induction false} CompileEnvFirstErr(compile: Compiler, scope: Scope, env: Env, i: nat)
    requires i < |env|
    requires forall j :: 0 <= j < i ==> Render(compile, scope, env[j].1).Ok?
    requires Render(compile, scope, env[i].1).Err?
    ensures CompileEnv(compile, scope, env) == Err(Render(compile, scope, env[i].1).error)
  {
    if i > 0 {
      forall j | 0 <= j < i - 1 ensures Render(compile, scope, env[1..][j].1).Ok? {
        assert env[1..][j] == env[j + 1];
      }
      assert env[1..][i - 1] == env[i];
      CompileEnvFirstErr(compile, scope, env[1..], i - 1);
    }
  }

  /** A compiled environment has the same keys in the same order, each value rendered. */
  lemma {:induction false} CompileEnvOk(compile: Compiler, scope: Scope, env: Env)
    requires CompileEnv(compile, scope, env).Ok?
    ensures var out := CompileEnv(compile, scope, env).value;
      |out| == |env| &&
      forall i :: 0 <= i < |env| ==>
        out[i].0 == env[i].0 && Render(compile, scope, env[i].1) == Ok(out[i].1)
  {
    if env != [] {
      CompileEnvOk(compile, scope, env[1..]);
      var out := CompileEnv(compile, scope, env).value;
      forall i | 1 <= i < |env|
        ensures out[i].0 == env[i].0 && Render(compile, scope, env[i].1) == Ok(out[i].1)
      {
        assert env[1..][i - 1] == env[i];
      }
    }
  }

  /** Compiling fails exactly with the error of the first value that fails to render. */
  lemma {:induction false} CompileEnvErr(compile: Compiler, scope: Scope, env: Env)
    ensures CompileEnv(compile, scope, env).Err? <==>
      exists i :: 0 <= i < |env| && Render(compile, scope, env[i].1).Err?
    ensures CompileEnv(compile, scope, env).Err? ==>
      exists i :: 0 <= i < |env| && Render(compile, scope, env[i].1) == Err(CompileEnv(compile, scope, env).error) &&
        forall j :: 0 <= j < i ==> Render(compile, scope, env[j].1).Ok?
  {
    if env != [] {
      CompileEnvErr(compile, scope, env[1..]);
      if Render(compile, scope, env[0].1).Ok? {
        if (exists i :: 0 <= i < |env| && Render(compile, scope, env[i].1).Err?) {
          var i :| 0 <= i < |env| && Render(compile, scope, env[i].1).Err?;
          assert env[1..][i - 1] == env[i];
        }
        if CompileEnv(compile, scope, env).Err? {
          var i :| 0 <= i < |env[1..]| && Render(compile, scope, env[1..][i].1) == Err(CompileEnv(compile, scope, env).error) &&
            forall j :: 0 <= j < i ==> Render(compile, scope, env[1..][j].1).Ok?;
          assert env[i + 1] == env[1..][i];
          forall j | 0 <= j < i + 1 ensures Render(compile, scope, env[j].1).Ok? {
            if j > 0 { assert env[j] == env[1..][j - 1]; }
          }
        }
      }
    }
  }

  /** Looking a key up in the compiled environment finds the rendered value of the key. */
  lemma {:induction false} CompileEnvLookup(compile: Compiler, scope: Scope, env: Env, out: Env, key: string)
    requires CompileEnv(compile, scope, env) == Ok(out)
    ensures Lookup(out, key).Some? <==> Lookup(env, key).Some?
    ensures Lookup(env, key).Some? ==> Render(compile, scope, Lookup(env, key).value) == Ok(Lookup(out, key).value)
  {
    if env != [] {
      var rest := CompileEnv(compile, scope, env[1..]).value;
      assert out == [(env[0].0, Render(compile, scope, env[0].1).value)] + rest;
      assert out[1..] == rest;
      CompileEnvLookup(compile, scope, env[1..], rest, key);
    }
  }

  /** The environment a child process receives: exactly the keys of the run's and the
      step's environments, each with the rendered value of the step's entry if it has
      one and of the run's otherwise. */
  lemma SpawnEnvironment(compile: Compiler, scope: Scope, base: Env, over: Env, out: Env, key: string)
    requires CompileEnv(compile, scope, MergeEnv(base, over)) == Ok(out)
    ensures Lookup(out, key).Some? <==> Lookup(base, key).Some? || Lookup(over, key).Some?
    ensures Lookup(over, key).Some? ==> Render(compile, scope, Lookup(over, key).value) == Ok(Lookup(out, key).value)
    ensures Lookup(over, key).None? && Lookup(base, key).Some? ==>
      Render(compile, scope, Lookup(base, key).value) == Ok(Lookup(out, key).value)
  {
    MergeEnvLookup(base, over, key);
    CompileEnvLookup(compile, scope, MergeEnv(base, over), out, key);
  }

  /** `path.isAbsolute` for POSIX paths. */
  predicate IsAbsolute(p: string) {
    |p| > 0 && p[0] == '/'
  }

  /** `path.join` of two segments; an empty segment contributes nothing. */
  function Join(a: string, b: string): string {
    if a == "" then b else if b == "" then a else a + "/" + b
  }

  /** The directory a run step's command is spawned in: `working-directory`, or the
      run's `cwd` when it is absent; a relative path is joined onto `cwd`. */
  function ResolveWorkingDirectory(workingDirectory: string, cwd: string): string {
    var p := if workingDirectory != "" then workingDirectory else cwd;
    if IsAbsolute(p) then p else Join(cwd, p)
  }

  /** An absolute `working-directory` is used as it is; a relative one ends the joined
      path; without one the run's absolute `cwd` is used; and the result is absolute as
      soon as either of the two is. */
  lemma WorkingDirectoryResolution(workingDirectory: string, cwd: string)
    ensures IsAbsolute(workingDirectory) ==> ResolveWorkingDirectory(workingDirectory, cwd) == workingDirectory
    ensures workingDirectory != "" ==>
      var r := ResolveWorkingDirectory(workingDirectory, cwd);
      |workingDirectory| <= |r| && r[|r| - |workingDirectory|..] == workingDirectory
    ensures workingDirectory == "" && IsAbsolute(cwd) ==> ResolveWorkingDirectory(workingDirectory, cwd) == cwd
    ensures IsAbsolute(workingDirectory) || IsAbsolute(cwd) ==> IsAbsolute(ResolveWorkingDirectory(workingDirectory, cwd))
  {
    var r := ResolveWorkingDirectory(workingDirectory, cwd);
    if workingDirectory != "" && !IsAbsolute(workingDirectory) && cwd != "" {
      assert r == cwd + "/" + workingDirectory;
      assert r[|r| - |workingDirectory|..] == workingDirectory;
      assert r[0] == cwd[0];
    }
  }
}
