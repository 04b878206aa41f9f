/** The sync orchestrator's shared state: one method per critical section. */
module SyncOrchestrator {
  import opened Wrappers
  import opened SyncReports

  /** What a caller is handed; the stage slice is its own. */
  datatype Report = Report(syncId: string, status: SyncStatus, startedAt: int, finishedAt: int, error: string,
                           stages: array<Stage>)

  class Orchestrator {
    var running: bool
    var syncId: string
    var status: SyncStatus
    var startedAt: int
    var finishedAt: int
    var error: string
    var stages: array<Stage>
    ghost var handedOut: set<array<Stage>>

    ghost predicate Valid()
      reads this
    {
      stages !in handedOut
    }

    function Current(): View
      reads this, stages
    {
      View(running, syncId, status, startedAt, finishedAt, error, stages[..])
    }

    constructor ()
      ensures Valid() && Current() == ZERO_VIEW && handedOut == {}
    {
      running, syncId, status, startedAt, finishedAt, error := false, "", Unset, 0, 0, "";
      stages := new Stage[0];
      handedOut := {};
    }

    /** The reports handed out earlier read as they did before. */
    twostate predicate Undisturbed()
      reads this, handedOut
    {
      old(handedOut) <= handedOut && forall a :: a in old(handedOut) ==> a[..] == old(a[..])
    }

    method CloneReport() returns (r: Report)
      requires Valid()
      modifies this`handedOut
      ensures Valid() && fresh(r.stages) && handedOut == old(handedOut) + {r.stages}
      ensures View(running, r.syncId, r.status, r.startedAt, r.finishedAt, r.error, r.stages[..]) == Current()
      ensures Current() == old(Current()) && Undisturbed()
    {
      var copy := new Stage[stages.Length](i requires 0 <= i < stages.Length reads this, stages => stages[i]);
      assert copy[..] == stages[..];
      handedOut := handedOut + {copy};
      r := Report(syncId, status, startedAt, finishedAt, error, copy);
    }

    /** Starts a run unless one is in progress; either way the caller gets a snapshot. */
    method Start(id: string, now: int) returns (report: Report, started: bool)
      requires Valid()
      modifies this
      ensures Valid() && Undisturbed()
      ensures started == !old(running)
      ensures started ==> fresh(stages) && Current() == Started(id, now)
      ensures !started ==> Current() == old(Current()) && stages == old(stages)
      ensures fresh(report.stages) && report.stages in handedOut
      ensures View(running, report.syncId, report.status, report.startedAt, report.finishedAt, report.error,
                   report.stages[..]) == Current()
    {
      if running {
        report := CloneReport();
        return report, false;
      }
      running, syncId, status, startedAt, finishedAt, error := true, id, Syncing, now, 0, "";
      stages := new Stage[3] [NewStage("groups"), NewStage("newsletters"), NewStage("app_state")];
      assert stages[..] == NEW_STAGES;
      report := CloneReport();
      started := true;
    }

    method Snapshot() returns (report: Report)
      requires Valid()
      modifies this`handedOut
      ensures Valid() && Undisturbed() && Current() == old(Current())
      ensures fresh(report.stages) && report.stages in handedOut
      ensures View(running, report.syncId, report.status, report.startedAt, report.finishedAt, report.error,
                   report.stages[..]) == Current()
    {
      report := CloneReport();
    }

    method BeginStage(i: nat, now: int)
      requires Valid() && i < stages.Length
      modifies stages
      ensures Valid() && Undisturbed()
      ensures Current() == WithStage(old(Current()), i, Begun(old(stages[i]), now))
    {
      stages[i] := stages[i].(status := Running, startedAt := now);
    }

    /** Reconciles the worker's item count and outcome into the report. */
    method EndStage(i: nat, items: nat, failure: Option<string>, now: int)
      requires Valid() && i < stages.Length
      modifies stages
      ensures Valid() && Undisturbed()
      ensures Current() == WithStage(old(Current()), i, Ended(old(stages[i]), items, failure, now))
    {
      var st := stages[i];
      st := st.(items := items, finishedAt := now, durationMs := Milliseconds(now - st.startedAt));
      if failure.Some? {
        st := st.(status := Failed, error := failure.value);
      } else {
        st := st.(status := Done);
      }
      stages[i] := st;
    }

    method FinishRun(now: int)
      requires Valid()
      modifies this
      ensures Valid() && Undisturbed() && stages == old(stages)
      ensures Current() == Finished(old(Current()), now)
    {
      ghost var before := stages[..];
      var failed := [];
      for i := 0 to stages.Length
        invariant stages == old(stages) && stages[..] == before
        invariant failed == FailedNames(before[..i])
      {
        assert before[..i + 1][..i] == before[..i];
        if stages[i].status == Failed {
          failed := failed + [stages[i].name];
        }
      }
      assert before[..stages.Length] == before;
      finishedAt := now;
      if failed == [] {
        status := Synced;
      } else {
        status := Faulty;
        error := "stages failed: " + Join(failed, ", ");
      }
      running := false;
    }
  }
}
