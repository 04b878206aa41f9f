/** The report of a sync run and the critical sections that update it. */
module SyncReports {
  import opened Wrappers

  datatype StageStatus = Pending | Running | Done | Failed

  /** `Unset` is the zero value before any sync has started. */
  datatype SyncStatus = Unset | Syncing | Synced | Faulty

  datatype Stage = Stage(name: string, status: StageStatus, items: nat, startedAt: int, finishedAt: int,
                         durationMs: int, error: string)

  /** The orchestrator's state: the running flag and the report in progress. */
  datatype View = View(running: bool, syncId: string, status: SyncStatus, startedAt: int, finishedAt: int,
                       error: string, stages: seq<Stage>)

  const ZERO_VIEW := View(false, "", Unset, 0, 0, "", [])

  function NewStage(name: string): Stage {
    Stage(name, Pending, 0, 0, 0, 0, "")
  }

  const NEW_STAGES := [NewStage("groups"), NewStage("newsletters"), NewStage("app_state")]

  function Started(id: string, now: int): View {
    View(true, id, Syncing, now, 0, "", NEW_STAGES)
  }

  /** Go's Duration.Milliseconds, which truncates towards zero. */
  function Milliseconds(d: int): int {
    if d >= 0 then d / 1_000_000 else -((-d) / 1_000_000)
  }

  function Begun(stage: Stage, now: int): Stage {
    stage.(status := Running, startedAt := now)
  }

  /** `failure` is the message of the worker's error, if it returned one. */
  function Ended(stage: Stage, items: nat, failure: Option<string>, now: int): Stage {
    var s := stage.(items := items, finishedAt := now, durationMs := Milliseconds(now - stage.startedAt));
    if failure.Some? then s.(status := Failed, error := failure.value) else s.(status := Done)
  }

  function WithStage(v: View, i: nat, s: Stage): View
    requires i < |v.stages|
  {
    v.(stages := v.stages[i := s])
  }

  function FailedNames(stages: seq<Stage>): seq<string> {
    if stages == [] then []
    else
      var front, last := stages[..|stages| - 1], stages[|stages| - 1];
      FailedNames(front) + if last.status == Failed then [last.name] else []
  }

  function Join(parts: seq<string>, sep: string): string {
    if parts == [] then "" else if |parts| == 1 then parts[0] else parts[0] + sep + Join(parts[1..], sep)
  }

  function Finished(v: View, now: int): View {
    var failed := FailedNames(v.stages);
    var w := v.(running := false, finishedAt := now);
    if failed == [] then w.(status := Synced)
    else w.(status := Faulty, error := "stages failed: " + Join(failed, ", "))
  }

  lemma {:induction false} NoFailedNames(stages: seq<Stage>)
    ensures FailedNames(stages) == [] <==> forall i :: 0 <= i < |stages| ==> stages[i].status != Failed
  {
    if stages != [] {
      NoFailedNames(stages[..|stages| - 1]);
      assert forall i :: 0 <= i < |stages| - 1 ==> stages[..|stages| - 1][i] == stages[i];
    }
  }
}
