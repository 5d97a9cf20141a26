/** `execShellCommand` and the configuration getters of src/driverUtils.ts and its compiled twin
    out/driverUtils.js. The child process is not modelled: what it reports back is an input. */
module Shell {
  import opened Wrappers
  import opened Catalog
  import opened Trace

  /** An `exitcode`: `error.code` is a number for a process that ran and a string for one that
      could not be started; the normaliser itself writes the strings `'0'` and `""`. */
  datatype ExitCode = Num(n: int) | Code(s: string)
  {
    /** JavaScript truthiness. */
    predicate Truthy() {
      match this
      case Num(n) => n != 0
      case Code(s) => s != ""
    }
  }

  /** The `error` argument of the `exec` callback, when there is one. */
  datatype ExecError = ExecError(code: Option<ExitCode>)

  /** What `child_process.exec` hands its callback. */
  datatype ExecOutcome = ExecOutcome(error: Option<ExecError>, stdout: string, stderr: string)

  /** The object `execShellCommand` resolves to. */
  datatype ShellResult = ShellResult(passed: bool, stdout: string, stderr: string, exitcode: ExitCode)

  const TimeoutPrefix: string := "timeout --preserve-status "

  /** The exit status `timeout --preserve-status` gives a command it had to kill (SIGTERM). */
  const TimedOutCode: int := 143

  /** The command actually run: prefixed by `timeout --preserve-status <t> ` when the timeout is
      truthy (present and non-empty). */
  function WrapCommand(cmd: string, timeout: Option<string>): (r: string)
    ensures |r| >= |cmd| && r[|r| - |cmd|..] == cmd
    ensures (timeout.Some? && timeout.value != "") <==> |r| > |cmd|
    ensures |r| > |cmd| ==> r[..|r| - |cmd|] == TimeoutPrefix + timeout.value + " "
  {
    if timeout.Some? && timeout.value != "" then TimeoutPrefix + timeout.value + " " + cmd else cmd
  }

  /** The callback's normalisation: `passed` exactly when there was no error, output copied
      through, `exitcode` `'0'` on success, the error's code when truthy, else `""`. */
  function Normalize(o: ExecOutcome): (r: ShellResult)
    ensures r.passed <==> o.error.None?
    ensures r.stdout == o.stdout && r.stderr == o.stderr
    ensures r.passed ==> r.exitcode == Code("0")
    ensures !r.passed && o.error.value.code.Some? && o.error.value.code.value.Truthy() ==> r.exitcode == o.error.value.code.value
    ensures !r.passed && !(o.error.value.code.Some? && o.error.value.code.value.Truthy()) ==> r.exitcode == Code("")
  {
    match o.error
    case None => ShellResult(true, o.stdout, o.stderr, Code("0"))
    case Some(e) =>
      var code := if e.code.Some? && e.code.value.Truthy() then e.code.value else Code("");
      ShellResult(false, o.stdout, o.stderr, code)
  }

  /** A command handed to the shell and what came back. */
  datatype Invocation = Invocation(command: string, result: ShellResult)

  /** `execShellCommand(cmd, {}, timeout)`, with `exec` standing for the shell: the promise always
      resolves, so there is always a result. */
  function ExecShellCommand(cmd: string, timeout: Option<string>, exec: string -> ExecOutcome): (r: Invocation)
    ensures r.command == WrapCommand(cmd, timeout)
    ensures r.result.passed <==> exec(r.command).error.None?
    ensures r.result.stdout == exec(r.command).stdout && r.result.stderr == exec(r.command).stderr
    ensures r.result.passed ==> r.result.exitcode == Code("0")
    ensures var e := exec(r.command).error;
      !r.result.passed ==> r.result.exitcode == if e.value.code.Some? && e.value.code.value.Truthy() then e.value.code.value else Code("")
  {
    var command := WrapCommand(cmd, timeout);
    Invocation(command, Normalize(exec(command)))
  }

  /** A result that carries the timeout's exit status is a failed one: only an error sets a
      numeric code. */
  lemma TimedOutIsFailure(cmd: string, timeout: Option<string>, exec: string -> ExecOutcome)
    requires ExecShellCommand(cmd, timeout, exec).result.exitcode == Num(TimedOutCode)
    ensures !ExecShellCommand(cmd, timeout, exec).result.passed
    ensures exec(WrapCommand(cmd, timeout)).error == Some(ExecError(Some(Num(TimedOutCode))))
  {
  }

  /** The `cpp-unit-test` settings the extension reads, as a plain record. */
  datatype Settings = Settings(
    valgrindFlags: string,
    runWithValgrind: bool,
    timeoutTime: string,
    valgrindTimeoutTime: string,
    runMakeCleanOnExit: bool,
    cleanUpExecutableOnBuild: bool,
    cleanUpDriverCppOnBuild: bool,
    makefileExecutable: string,
    makefileTarget: string)

  /** `getExecutableFileName()`: fixed in the TypeScript source, read from the `makefile` settings
      in the compiled version. */
  function ExecutableFileName(build: Build, settings: Settings): (r: string)
    ensures build.TsSource? ==> r == "a.out"
    ensures build.CompiledJs? ==> r == settings.makefileExecutable
  {
    if build.TsSource? then "a.out" else settings.makefileExecutable
  }

  /** `getMakefileTarget()`: fixed to the empty target in the TypeScript source. */
  function MakefileTarget(build: Build, settings: Settings): (r: string)
    ensures build.TsSource? ==> r == ""
    ensures build.CompiledJs? ==> r == settings.makefileTarget
  {
    if build.TsSource? then "" else settings.makefileTarget
  }

  /** The name `generateDriver` writes the driver to. */
  const DriverFileName: string := "unit_test_driver.cpp"

  /** `path.join` of a directory and a relative name (no normalisation). */
  function JoinPath(dir: string, name: string): string {
    dir + "/" + name
  }

  /** `cleanup()` in the workspace folder `cwd`: `make clean` when asked to; the compiled version
      first deletes the driver source and then the executable, each when its own setting says so. */
  function Cleanup(build: Build, settings: Settings, cwd: string): (r: seq<Event>)
    ensures |r| <= 3
    ensures forall i :: 0 <= i < |r| ==> r[i].Spawned? || r[i].Deleted?
    ensures Spawned("make clean") in r <==> settings.runMakeCleanOnExit
    ensures settings.runMakeCleanOnExit ==> r[|r| - 1] == Spawned("make clean")
    ensures build.TsSource? ==> forall e :: e in r ==> e == Spawned("make clean")
    ensures (exists e :: e in r && e.Deleted?) <==>
      build.CompiledJs? && (settings.cleanUpDriverCppOnBuild || settings.cleanUpExecutableOnBuild)
    ensures build.CompiledJs? && settings.cleanUpDriverCppOnBuild ==> r[0] == Deleted(JoinPath(cwd, DriverFileName))
    ensures build.CompiledJs? && settings.cleanUpExecutableOnBuild ==>
      Deleted(JoinPath(cwd, ExecutableFileName(build, settings))) in r
  {
    var makeClean := if settings.runMakeCleanOnExit then [Spawned(WrapCommand("make clean", None))] else [];
    match build
    case TsSource => makeClean
    case CompiledJs =>
      var r := (if settings.cleanUpDriverCppOnBuild then [Deleted(JoinPath(cwd, DriverFileName))] else [])
        + (if settings.cleanUpExecutableOnBuild then [Deleted(JoinPath(cwd, ExecutableFileName(build, settings)))] else [])
        + makeClean;
      assert settings.cleanUpDriverCppOnBuild || settings.cleanUpExecutableOnBuild ==> r[0] in r && r[0].Deleted?;
      r
  }
}
