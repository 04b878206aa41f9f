/** Sync starts, stages and snapshots in any interleaving. */
module SyncFlow {
  import opened Wrappers
  import opened SyncReports

  /** Where the goroutine of a run stands. */
  datatype Run = Before(stage: nat) | Within(stage: nat) | Finishing | Over

  /** `runs` are all runs ever started; the last of them created the report in `view`. */
  datatype System = System(view: View, runs: seq<Run>)

  const INIT := System(ZERO_VIEW, [])

  datatype Action =
    | Start(id: string, now: int)
    | Begin(run: nat, now: int)
    | End(run: nat, items: nat, failure: Option<string>, now: int)
    | Finish(run: nat, now: int)
    | Snapshot

  predicate Enabled(s: System, a: Action) {
    match a
    case Start(_, _) => true
    case Snapshot => true
    case Begin(r, _) => r < |s.runs| && s.runs[r].Before? && s.runs[r].stage < |s.view.stages|
    case End(r, _, _, _) => r < |s.runs| && s.runs[r].Within? && s.runs[r].stage < |s.view.stages|
    case Finish(r, _) => r < |s.runs| && s.runs[r].Finishing?
  }

  function Step(s: System, a: Action): System
    requires Enabled(s, a)
  {
    match a
    case Start(id, now) => if s.view.running then s else System(Started(id, now), s.runs + [Before(0)])
    case Begin(r, now) =>
      var k := s.runs[r].stage;
      System(WithStage(s.view, k, Begun(s.view.stages[k], now)), s.runs[r := Within(k)])
    case End(r, items, failure, now) =>
      var k := s.runs[r].stage;
      System(WithStage(s.view, k, Ended(s.view.stages[k], items, failure, now)),
             s.runs[r := if k + 1 < |NEW_STAGES| then Before(k + 1) else Finishing])
    case Finish(r, now) => System(Finished(s.view, now), s.runs[r := Over])
    case Snapshot => s
  }

  predicate IsFinished(stage: Stage) {
    stage.status == Done || stage.status == Failed
  }

  /** The first `k` stages are finished, then `busy` of them run, and the rest are pending. */
  ghost predicate Progress(stages: seq<Stage>, k: nat, busy: bool) {
    && k + (if busy then 1 else 0) <= |stages|
    && (forall i :: 0 <= i < k ==> IsFinished(stages[i]))
    && (busy ==> stages[k].status == Running)
    && (forall i :: k + (if busy then 1 else 0) <= i < |stages| ==> stages[i].status == Pending)
  }

  /** finished*, at most one running, pending* */
  ghost predicate InOrder(stages: seq<Stage>) {
    exists k: nat, busy: bool :: Progress(stages, k, busy)
  }

  ghost predicate Settled(v: View) {
    && (forall i :: 0 <= i < |v.stages| ==> IsFinished(v.stages[i]))
    && (v.status == Synced <==> forall i :: 0 <= i < |v.stages| ==> v.stages[i].status == Done)
    && (v.status == Synced || v.status == Faulty)
  }

  ghost predicate Inv(s: System) {
    && (s.view.running <==> s.view.status == Syncing)
    && (s.runs == [] ==> s.view == ZERO_VIEW)
    && (s.runs != [] ==> |s.view.stages| == |NEW_STAGES|)
    && (forall r :: 0 <= r < |s.runs| - 1 ==> s.runs[r] == Over)
    && (s.runs != [] ==>
         match s.runs[|s.runs| - 1]
         case Before(k) => s.view.running && k < |NEW_STAGES| && Progress(s.view.stages, k, false)
         case Within(k) => s.view.running && k < |NEW_STAGES| && Progress(s.view.stages, k, true)
         case Finishing => s.view.running && Progress(s.view.stages, |NEW_STAGES|, false)
         case Over => !s.view.running && Settled(s.view) && Progress(s.view.stages, |NEW_STAGES|, false))
  }

  /** The only run that can take a step is the one whose report is current. */
  lemma NoRunWritesAnothersReport(s: System, a: Action)
    requires Inv(s) && Enabled(s, a) && (a.Begin? || a.End? || a.Finish?)
    ensures a.run == |s.runs| - 1 && s.view.running
  {
  }

  lemma StepKeepsInv(s: System, a: Action)
    requires Inv(s) && Enabled(s, a)
    ensures Inv(Step(s, a))
  {
    var s' := Step(s, a);
    if a.Finish? {
      NoFailedNames(s.view.stages);
    }
    if a.Begin? || a.End? || a.Finish? {
      NoRunWritesAnothersReport(s, a);
    }
  }

  ghost predicate Possible(s: System, actions: seq<Action>)
    decreases |actions|
  {
    actions != [] ==> Enabled(s, actions[0]) && Possible(Step(s, actions[0]), actions[1..])
  }

  ghost function After(s: System, actions: seq<Action>): System
    requires Possible(s, actions)
    decreases |actions|
  {
    if actions == [] then s else After(Step(s, actions[0]), actions[1..])
  }

  lemma {:induction false} RunKeepsInv(s: System, actions: seq<Action>)
    requires Inv(s) && Possible(s, actions)
    ensures Inv(After(s, actions))
    decreases |actions|
  {
    if actions != [] {
      StepKeepsInv(s, actions[0]);
      RunKeepsInv(Step(s, actions[0]), actions[1..]);
    }
  }

  /**
   Every report any snapshot can show, in any interleaving: stages in order, the flag matching the
   status, and a report that is not in progress either untouched or settled.
   */
  lemma EveryReportIsConsistent(actions: seq<Action>)
    requires Possible(INIT, actions)
    ensures var v := After(INIT, actions).view;
            && InOrder(v.stages)
            && (v.running <==> v.status == Syncing)
            && (!v.running ==> v == ZERO_VIEW || Settled(v))
  {
    RunKeepsInv(INIT, actions);
    var s := After(INIT, actions);
    if s.runs == [] {
      assert Progress(s.view.stages, 0, false);
    } else {
      match s.runs[|s.runs| - 1] {
        case Before(k) => assert Progress(s.view.stages, k, false);
        case Within(k) => assert Progress(s.view.stages, k, true);
        case _ => assert Progress(s.view.stages, |NEW_STAGES|, false);
      }
    }
  }

}
