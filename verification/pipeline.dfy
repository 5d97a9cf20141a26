/** `TestCase.run` and `reportFail` of src/testTree.ts and out/testTree.js: one case is run under a
    timeout, its output compared with a golden file when there is one, and then run again under
    valgrind when the setting asks for it. The verdicts go to the trace. */
module Pipeline {
  import opened Wrappers
  import opened Catalog
  import opened Shell
  import opened Trace

  const StdoutHead: string := "stdout\n------\n"
  const StderrHead: string := "\nstderr\n------\n"
  const DiffTitle: string := "diff failed!\n------------\n"
  const NoWorkspaceNote: string := "No folder or workspace opened"

  /** What stands in for stderr in the report of a run the timeout killed. */
  function TimeoutNote(time: string): string {
    "test timed out - (took >" + time + " seconds)"
  }

  /** `reportFail`'s message: the run's stdout under one heading, then under a second heading its
      stderr, or the timeout note when the exit code is the timeout's. */
  function ReportFail(result: ShellResult, time: string): (msg: string)
    ensures var k := |StdoutHead| + |result.stdout|;
      && |msg| >= k + |StderrHead|
      && msg[..|StdoutHead|] == StdoutHead
      && msg[|StdoutHead|..k] == result.stdout
      && msg[k..k + |StderrHead|] == StderrHead
      && msg[k + |StderrHead|..] == if result.exitcode == Num(TimedOutCode) then TimeoutNote(time) else result.stderr
  {
    var tail := if result.exitcode == Num(TimedOutCode) then TimeoutNote(time) else result.stderr;
    var msg := StdoutHead + result.stdout + StderrHead + tail;
    assert msg == StdoutHead + (result.stdout + (StderrHead + tail));
    msg
  }

  /** What a case run sees of the machine: the shell, the files under the workspace (`None`: no
      such file), the settings, and the first workspace folder's path if one is open. */
  datatype Machine = Machine(
    exec: string -> ExecOutcome, files: string -> Option<string>, settings: Settings, workspace: Option<string>)

  /** `join(cwd, getExecutableFileName())`. */
  function ExecPath(build: Build, m: Machine): string
    requires m.workspace.Some?
  {
    JoinPath(m.workspace.value, ExecutableFileName(build, m.settings))
  }

  /** The main run: the executable with the case name as its argument, under `timeoutTime`. */
  function MainRun(build: Build, m: Machine, tc: TestCase): Invocation
    requires m.workspace.Some?
  {
    ExecShellCommand(ExecPath(build, m) + " " + tc.name, Some(m.settings.timeoutTime), m.exec)
  }

  /** The valgrind run of the same command, under `valgrindTimeoutTime`. */
  function ValgrindRun(build: Build, m: Machine, tc: TestCase): Invocation
    requires m.workspace.Some?
  {
    ExecShellCommand("valgrind " + m.settings.valgrindFlags + " --error-exitcode=1" + " " + ExecPath(build, m) + " " + tc.name,
                     Some(m.settings.valgrindTimeoutTime), m.exec)
  }

  /** The golden output `stdout/<name>`, if that file exists. */
  function Golden(m: Machine, tc: TestCase): Option<string>
    requires m.workspace.Some?
  {
    m.files(JoinPath(m.workspace.value, "stdout/" + tc.name))
  }

  /** The golden file is absent or holds exactly what the main run printed. */
  predicate GoldenAgrees(build: Build, m: Machine, tc: TestCase)
    requires m.workspace.Some?
  {
    Golden(m, tc).None? || Golden(m, tc).value == MainRun(build, m, tc).result.stdout
  }

  /** Valgrind is switched off, or its run passed. */
  predicate ValgrindClean(build: Build, m: Machine, tc: TestCase)
    requires m.workspace.Some?
  {
    !m.settings.runWithValgrind || ValgrindRun(build, m, tc).result.passed
  }

  /** The trace and the case's state after one `run`. */
  datatype CaseRun = CaseRun(events: seq<Event>, tc: TestCase)

  /** The stages after a main run that passed: the golden comparison, then valgrind. */
  function CheckStages(build: Build, m: Machine, tc: TestCase, id: string): (r: seq<Event>)
    requires m.workspace.Some? && MainRun(build, m, tc).result.passed
    ensures FailureCount(r) == 0 <==> GoldenAgrees(build, m, tc) && ValgrindClean(build, m, tc)
    ensures FailureCount(r) <= 2
    ensures forall i :: 0 <= i < |r| ==> r[i].Failed? || r[i].Spawned?
    ensures !GoldenAgrees(build, m, tc) ==>
      r[0] == Failed(id, Diff(DiffTitle, MainRun(build, m, tc).result.stdout, Golden(m, tc).value))
    ensures m.settings.runWithValgrind <==> Spawned(ValgrindRun(build, m, tc).command) in r
    ensures !ValgrindClean(build, m, tc) ==>
      r[|r| - 1] == Failed(id, Text(ReportFail(ValgrindRun(build, m, tc).result, m.settings.valgrindTimeoutTime)))
  {
    var diff := DiffStage(build, m, tc, id);
    var memcheck := MemcheckStage(build, m, tc, id);
    FailureCountAppend(diff, memcheck);
    var r := diff + memcheck;
    assert Spawned(ValgrindRun(build, m, tc).command) in r <==> m.settings.runWithValgrind by {
      if m.settings.runWithValgrind {
        assert r[|diff|] == memcheck[0];
      }
    }
    r
  }

  /** The golden comparison: one failure with the diff when the golden file disagrees, else nothing. */
  function DiffStage(build: Build, m: Machine, tc: TestCase, id: string): (r: seq<Event>)
    requires m.workspace.Some?
    ensures FailureCount(r) == if GoldenAgrees(build, m, tc) then 0 else 1
    ensures GoldenAgrees(build, m, tc) ==> r == []
    ensures !GoldenAgrees(build, m, tc) ==>
      r == [Failed(id, Diff(DiffTitle, MainRun(build, m, tc).result.stdout, Golden(m, tc).value))]
  {
    if GoldenAgrees(build, m, tc) then []
    else [Failed(id, Diff(DiffTitle, MainRun(build, m, tc).result.stdout, Golden(m, tc).value))]
  }

  /** The valgrind stage: nothing when it is switched off, else the spawn and, when the run
      failed, its report. */
  function MemcheckStage(build: Build, m: Machine, tc: TestCase, id: string): (r: seq<Event>)
    requires m.workspace.Some?
    ensures FailureCount(r) == if ValgrindClean(build, m, tc) then 0 else 1
    ensures m.settings.runWithValgrind <==> |r| > 0
    ensures |r| > 0 ==> r[0] == Spawned(ValgrindRun(build, m, tc).command)
    ensures forall i :: 0 < i < |r| ==> r[i].Failed?
    ensures !ValgrindClean(build, m, tc) ==>
      r[|r| - 1] == Failed(id, Text(ReportFail(ValgrindRun(build, m, tc).result, m.settings.valgrindTimeoutTime)))
  {
    var v := ValgrindRun(build, m, tc);
    if !m.settings.runWithValgrind then []
    else if v.result.passed then [Spawned(v.command)]
    else
      var r := [Spawned(v.command), Failed(id, Text(ReportFail(v.result, m.settings.valgrindTimeoutTime)))];
      assert r[1..][1..] == [];
      r
  }

  lemma {:induction false} FailureCountAppend(a: seq<Event>, b: seq<Event>)
    ensures FailureCount(a + b) == FailureCount(a) + FailureCount(b)
    decreases |a|
  {
    if |a| == 0 {
      assert a + b == b;
    } else {
      assert (a + b)[1..] == a[1..] + b;
      FailureCountAppend(a[1..], b);
    }
  }

  /** `run` as both versions are written: a main run that fails is reported, but `passed` keeps the
      value an earlier run left, so a case that passed before is also reported passed. */
  function RunCaseAsWritten(build: Build, m: Machine, tc: TestCase, id: string): (r: CaseRun)
    ensures m.workspace.None? ==> r == CaseRun([InfoPopup(NoWorkspaceNote)], tc)
    ensures r.tc == tc.(passed := r.tc.passed)
    ensures m.workspace.Some? ==> (r.tc.passed <==> Passed(id) in r.events)
    ensures forall i :: 0 <= i < |r.events| ==> r.events[i].Spawned? || r.events[i].IsVerdict() || r.events[i].InfoPopup?
  {
    if m.workspace.None? then CaseRun([InfoPopup(NoWorkspaceNote)], tc)
    else
      var main := MainRun(build, m, tc);
      if main.result.passed then
        var stages := CheckStages(build, m, tc, id);
        var passed := FailureCount(stages) == 0;
        assert Passed(id) !in stages;
        CaseRun([Spawned(main.command)] + stages + (if passed then [Passed(id)] else []), tc.(passed := passed))
      else
        var failed := [Spawned(main.command), Failed(id, Text(ReportFail(main.result, m.settings.timeoutTime)))];
        CaseRun(failed + (if tc.passed then [Passed(id)] else []), tc)
  }

  /** `run` with `passed` cleared when the main run fails: the verdict depends on this run alone. */
  function RunCase(build: Build, m: Machine, tc: TestCase, id: string): (r: CaseRun)
    ensures m.workspace.None? ==> r == CaseRun([InfoPopup(NoWorkspaceNote)], tc)
    ensures r.tc == tc.(passed := r.tc.passed)
    ensures m.workspace.Some? ==> (r.tc.passed <==> Passed(id) in r.events)
    ensures forall i :: 0 <= i < |r.events| ==> r.events[i].Spawned? || r.events[i].IsVerdict() || r.events[i].InfoPopup?
  {
    if m.workspace.None? then CaseRun([InfoPopup(NoWorkspaceNote)], tc)
    else
      var main := MainRun(build, m, tc);
      if main.result.passed then
        var stages := CheckStages(build, m, tc, id);
        var passed := FailureCount(stages) == 0;
        assert Passed(id) !in stages;
        CaseRun([Spawned(main.command)] + stages + (if passed then [Passed(id)] else []), tc.(passed := passed))
      else
        CaseRun([Spawned(main.command), Failed(id, Text(ReportFail(main.result, m.settings.timeoutTime)))], tc.(passed := false))
  }

  /** A case is reported passed exactly when the main run passed, the golden file is absent or
      matches, and valgrind is off or clean; and then nothing is reported failed. */
  lemma PassedIffAllStagesPass(build: Build, m: Machine, tc: TestCase, id: string)
    requires m.workspace.Some?
    ensures var r := RunCase(build, m, tc, id);
      && (Passed(id) in r.events <==>
            MainRun(build, m, tc).result.passed && GoldenAgrees(build, m, tc) && ValgrindClean(build, m, tc))
      && (Passed(id) in r.events <==> FailureCount(r.events) == 0)
      && (Passed(id) in r.events ==> r.events[|r.events| - 1] == Passed(id))
  {
    var r := RunCase(build, m, tc, id);
    var main := MainRun(build, m, tc);
    if main.result.passed {
      var stages := CheckStages(build, m, tc, id);
      var tail := if FailureCount(stages) == 0 then [Passed(id)] else [];
      FailureCountAppend([Spawned(main.command)], stages);
      FailureCountAppend([Spawned(main.command)] + stages, tail);
    } else {
      assert FailureCount(r.events) == 1 by {
        assert r.events[1..][1..] == [];
      }
    }
  }

  /** A main run that fails is reported once, with its output, and nothing else happens: no
      golden comparison, no valgrind run, no pass. */
  lemma MainFailureStopsCase(build: Build, m: Machine, tc: TestCase, id: string)
    requires m.workspace.Some? && !MainRun(build, m, tc).result.passed
    ensures RunCase(build, m, tc, id).events == [
      Spawned(MainRun(build, m, tc).command),
      Failed(id, Text(ReportFail(MainRun(build, m, tc).result, m.settings.timeoutTime)))]
  {
  }

  /** A golden mismatch does not stop the valgrind stage: both failures are reported, the diff
      first, and there is no pass. */
  lemma TwoFailuresPossible(build: Build, m: Machine, tc: TestCase, id: string)
    requires m.workspace.Some? && MainRun(build, m, tc).result.passed
    requires !GoldenAgrees(build, m, tc) && !ValgrindClean(build, m, tc)
    ensures var r := RunCase(build, m, tc, id);
      && FailureCount(r.events) == 2
      && r.events[1] == Failed(id, Diff(DiffTitle, MainRun(build, m, tc).result.stdout, Golden(m, tc).value))
      && r.events[|r.events| - 1] == Failed(id, Text(ReportFail(ValgrindRun(build, m, tc).result, m.settings.valgrindTimeoutTime)))
      && Passed(id) !in r.events
  {
    var main := MainRun(build, m, tc);
    var stages := CheckStages(build, m, tc, id);
    var r := RunCase(build, m, tc, id);
    assert r.events == [Spawned(main.command)] + stages;
    FailureCountAppend([Spawned(main.command)], stages);
    assert FailureCount(stages) >= 2 by {
      assert stages[0].Failed? && stages[|stages| - 1].Failed?;
      FailureCountEnds(stages);
    }
  }

  /** A sequence whose first and last events are distinct failures holds at least two. */
  lemma FailureCountEnds(t: seq<Event>)
    requires |t| >= 2 && t[0].Failed? && t[|t| - 1].Failed?
    ensures FailureCount(t) >= 2
  {
    var rest := t[1..];
    assert rest[|rest| - 1] == t[|t| - 1];
    FailureCountPositive(rest, |rest| - 1);
  }

  lemma {:induction false} FailureCountPositive(t: seq<Event>, i: nat)
    requires i < |t| && t[i].Failed?
    ensures FailureCount(t) >= 1
    decreases i
  {
    if i > 0 {
      assert t[1..][i - 1] == t[i];
      FailureCountPositive(t[1..], i - 1);
    }
  }

  /** The defect of the as-written `run`: after a passing run, a failing main run is reported
      both failed and passed. */
  lemma AsWrittenReportsStalePass(build: Build, m: Machine, tc: TestCase, id: string)
    requires m.workspace.Some? && tc.passed && !MainRun(build, m, tc).result.passed
    ensures var r := RunCaseAsWritten(build, m, tc, id);
      && FailureCount(r.events) == 1
      && Passed(id) in r.events
      && r.tc.passed
  {
    var r := RunCaseAsWritten(build, m, tc, id);
    assert r.events[1..][1..][1..] == [];
  }

  /** The two versions differ only there: for a fresh case (as the constructors leave it), or when
      the main run passes, they produce the same trace and state. */
  lemma AsWrittenAgreesOtherwise(build: Build, m: Machine, tc: TestCase, id: string)
    requires m.workspace.None? || !tc.passed || MainRun(build, m, tc).result.passed
    ensures RunCaseAsWritten(build, m, tc, id) == RunCase(build, m, tc, id)
  {
  }
}
