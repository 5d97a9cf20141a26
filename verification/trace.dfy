/** The observable effects of a run, in the order they happen: calls on the `vscode.TestRun`,
    commands handed to the shell, files deleted, popups, and the end of the process. */
module Trace {
  /** A `vscode.TestMessage`: plain text, or a diff of expected against actual output. */
  datatype Message =
    | Text(text: string)
    | Diff(message: string, expected: string, actual: string)

  datatype Event =
    | Enqueued(id: string)
    | Started(id: string)
    | Skipped(id: string)
    | Failed(id: string, message: Message)
    | Passed(id: string)
    | Output(text: string)
    | Ended
    | Spawned(command: string)
    | Deleted(path: string)
    | InfoPopup(text: string)
    | Exit(code: int)
    | Crash
  {
    /** A verdict on a test item: failed or passed. */
    predicate IsVerdict() { Failed? || Passed? }
  }

  /** The number of failure reports in `t`. */
  function FailureCount(t: seq<Event>): (n: nat)
    ensures n <= |t|
    ensures n == 0 <==> forall i :: 0 <= i < |t| ==> !t[i].Failed?
  {
    if |t| == 0 then 0 else (if t[0].Failed? then 1 else 0) + FailureCount(t[1..])
  }
}
