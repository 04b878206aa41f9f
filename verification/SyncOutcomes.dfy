/**
 What a report says about the workers: over every run of the system each stage shows the times, the item
 count and the error of its own worker, and a settled report sums them up.
 */
module SyncOutcomes {
  import opened Wrappers
  import opened SyncReports
  import opened SyncFlow

  /** One worker: when its stage began and ended, how many items it reconciled and the error it returned. */
  datatype Outcome = Outcome(begun: int, ended: int, items: nat, failure: Option<string>)

  /** What happened since the last start that was not refused. */
  datatype History = History(active: bool, id: string, startedAt: int, begun: int, outcomes: seq<Outcome>,
                             finishedAt: int)

  const NO_HISTORY := History(false, "", 0, 0, [], 0)

  function Record(h: History, a: Action): History {
    match a
    case Start(id, now) => if h.active then h else History(true, id, now, 0, [], 0)
    case Begin(_, now) => h.(begun := now)
    case End(_, items, failure, now) => h.(outcomes := h.outcomes + [Outcome(h.begun, now, items, failure)])
    case Finish(_, now) => h.(active := false, finishedAt := now)
    case Snapshot => h
  }

  function HistoryOf(h: History, actions: seq<Action>): History
    decreases |actions|
  {
    if actions == [] then h else HistoryOf(Record(h, actions[0]), actions[1..])
  }

  const NAMES := ["groups", "newsletters", "app_state"]

  /** A stage whose worker returned. */
  ghost predicate Shows(stage: Stage, o: Outcome) {
    && (stage.status == Failed <==> o.failure.Some?) && (stage.status == Done <==> o.failure.None?)
    && stage.error == (match o.failure case Some(message) => message case None => "")
    && stage.items == o.items && stage.startedAt == o.begun && stage.finishedAt == o.ended
    && (o.begun <= o.ended ==> stage.durationMs == (o.ended - o.begun) / 1_000_000)
  }

  /** A stage whose worker has not returned. */
  predicate IsOpen(stage: Stage) {
    && (stage.status == Pending || stage.status == Running)
    && stage.error == "" && stage.items == 0 && stage.finishedAt == 0 && stage.durationMs == 0
  }

  function Failed3(outcomes: seq<Outcome>): (bool, bool, bool)
    requires |outcomes| == 3
  {
    (outcomes[0].failure.Some?, outcomes[1].failure.Some?, outcomes[2].failure.Some?)
  }

  /** The failed stages, in order. */
  function Listed(failed: (bool, bool, bool)): string {
    match failed
    case (false, false, false) => ""
    case (true, false, false) => "groups"
    case (false, true, false) => "newsletters"
    case (false, false, true) => "app_state"
    case (true, true, false) => "groups, newsletters"
    case (true, false, true) => "groups, app_state"
    case (false, true, true) => "newsletters, app_state"
    case (true, true, true) => "groups, newsletters, app_state"
  }

  /** The error of a settled report. */
  function Summary(failed: (bool, bool, bool)): string {
    if Listed(failed) == "" then "" else "stages failed: " + Listed(failed)
  }

  ghost predicate Named(stages: seq<Stage>) {
    |stages| == 3 && forall i :: 0 <= i < 3 ==> stages[i].name == NAMES[i]
  }

  ghost predicate StagesTell(stages: seq<Stage>, h: History) {
    && |h.outcomes| <= |stages|
    && (forall i :: 0 <= i < |h.outcomes| ==> Shows(stages[i], h.outcomes[i]))
    && (forall i :: |h.outcomes| <= i < |stages| ==> IsOpen(stages[i]))
  }

  /** The report tells the history. */
  ghost predicate Tells(v: View, h: History) {
    && v.running == h.active && v.syncId == h.id && v.startedAt == h.startedAt
    && StagesTell(v.stages, h)
    && (v.running ==> v.status == Syncing && v.error == "" && v.finishedAt == 0)
    && (!v.running && v.stages != [] ==>
         && |h.outcomes| == 3 && v.finishedAt == h.finishedAt
         && (v.status == Synced <==> forall i :: 0 <= i < 3 ==> h.outcomes[i].failure.None?)
         && (v.status == Faulty <==> exists i :: 0 <= i < 3 && h.outcomes[i].failure.Some?)
         && v.error == Summary(Failed3(h.outcomes)))
  }

  /** Where the goroutine of the current run stands says how many workers have returned. */
  ghost predicate InStep(s: System, h: History) {
    s.runs == [] || (
      && Named(s.view.stages)
      && match s.runs[|s.runs| - 1]
         case Before(k) => |h.outcomes| == k
         case Within(k) => |h.outcomes| == k && k < 3 && s.view.stages[k].startedAt == h.begun
         case Finishing => |h.outcomes| == 3
         case Over => |h.outcomes| == 3)
  }

  lemma StartTells(s: System, h: History, a: Action)
    requires Inv(s) && Enabled(s, a) && Tells(s.view, h) && InStep(s, h) && a.Start?
    ensures Tells(Step(s, a).view, Record(h, a)) && InStep(Step(s, a), Record(h, a))
  {
    NewStagesAreOpen();
  }

  lemma NewStagesAreOpen()
    ensures Named(NEW_STAGES) && forall i :: 0 <= i < 3 ==> IsOpen(NEW_STAGES[i])
  {
  }

  lemma BeginTells(s: System, h: History, a: Action)
    requires Inv(s) && Enabled(s, a) && Tells(s.view, h) && InStep(s, h) && a.Begin?
    ensures Tells(Step(s, a).view, Record(h, a)) && InStep(Step(s, a), Record(h, a))
  {
    NoRunWritesAnothersReport(s, a);
  }

  lemma EndTells(s: System, h: History, a: Action)
    requires Inv(s) && Enabled(s, a) && Tells(s.view, h) && InStep(s, h) && a.End?
    ensures Tells(Step(s, a).view, Record(h, a)) && InStep(Step(s, a), Record(h, a))
  {
    NoRunWritesAnothersReport(s, a);
    var k := s.runs[a.run].stage;
    var s', h' := Step(s, a), Record(h, a);
    assert |h.outcomes| == k && h'.outcomes[k] == Outcome(h.begun, a.now, a.items, a.failure);
    assert Shows(s'.view.stages[k], h'.outcomes[k]);
    forall i | 0 <= i < |h'.outcomes| ensures Shows(s'.view.stages[i], h'.outcomes[i]) {
      assert i < k ==> h'.outcomes[i] == h.outcomes[i];
    }
  }

  lemma FailedOfThree(stages: seq<Stage>)
    requires Named(stages)
    ensures FailedNames(stages) ==
            (if stages[0].status == Failed then ["groups"] else [])
            + (if stages[1].status == Failed then ["newsletters"] else [])
            + (if stages[2].status == Failed then ["app_state"] else [])
  {
    var two, one := stages[..2], stages[..1];
    assert two[..1] == one && one[..0] == [];
    assert FailedNames(one) == [] + if stages[0].status == Failed then ["groups"] else [];
    assert FailedNames(two) == FailedNames(one) + if stages[1].status == Failed then ["newsletters"] else [];
  }

  lemma JoinTwo(a: string, b: string)
    ensures Join([a, b], ", ") == a + ", " + b
  {
    assert [a, b][1..] == [b];
  }

  lemma JoinAll()
    ensures Join(["groups", "newsletters", "app_state"], ", ") == "groups, newsletters, app_state"
  {
    assert ["groups", "newsletters", "app_state"][1..] == ["newsletters", "app_state"];
    JoinTwo("newsletters", "app_state");
    assert "newsletters" + ", " + "app_state" == "newsletters, app_state";
    assert "groups" + ", " + "newsletters, app_state" == "groups, newsletters, app_state";
  }

  function NamesOf(failed: (bool, bool, bool)): seq<string> {
    (if failed.0 then ["groups"] else []) + (if failed.1 then ["newsletters"] else [])
    + (if failed.2 then ["app_state"] else [])
  }

  lemma SummaryOfNames(failed: (bool, bool, bool))
    ensures Listed(failed) == Join(NamesOf(failed), ", ")
    ensures Listed(failed) == "" <==> failed == (false, false, false)
  {
    match failed {
      case (true, true, false) =>
        assert NamesOf(failed) == ["groups", "newsletters"];
        JoinTwo("groups", "newsletters");
      case (true, false, true) =>
        assert NamesOf(failed) == ["groups", "app_state"];
        JoinTwo("groups", "app_state");
      case (false, true, true) =>
        assert NamesOf(failed) == ["newsletters", "app_state"];
        JoinTwo("newsletters", "app_state");
      case (true, true, true) =>
        assert NamesOf(failed) == ["groups", "newsletters", "app_state"];
        JoinAll();
      case (true, false, false) => assert NamesOf(failed) == ["groups"];
      case (false, true, false) => assert NamesOf(failed) == ["newsletters"];
      case (false, false, true) => assert NamesOf(failed) == ["app_state"];
      case (false, false, false) => assert NamesOf(failed) == [];
    }
  }

  lemma SummaryIs(stages: seq<Stage>, failed: (bool, bool, bool))
    requires Named(stages)
    requires failed == (stages[0].status == Failed, stages[1].status == Failed, stages[2].status == Failed)
    ensures FailedNames(stages) == [] <==> failed == (false, false, false)
    ensures failed != (false, false, false) ==> Summary(failed) == "stages failed: " + Join(FailedNames(stages), ", ")
  {
    FailedOfThree(stages);
    assert FailedNames(stages) == NamesOf(failed);
    SummaryOfNames(failed);
  }

  /** The verdict on the stages is the one on the workers. */
  lemma Verdict(stages: seq<Stage>, h: History)
    requires Named(stages) && StagesTell(stages, h) && |h.outcomes| == 3
    ensures var failed := Failed3(h.outcomes);
            && (FailedNames(stages) == [] <==> failed == (false, false, false))
            && (failed != (false, false, false) ==>
                 Summary(failed) == "stages failed: " + Join(FailedNames(stages), ", "))
            && (failed == (false, false, false) <==> forall i :: 0 <= i < 3 ==> h.outcomes[i].failure.None?)
  {
    assert forall i :: 0 <= i < 3 ==> Shows(stages[i], h.outcomes[i]);
    SummaryIs(stages, Failed3(h.outcomes));
  }

  lemma FinishTells(s: System, h: History, a: Action)
    requires Inv(s) && Enabled(s, a) && Tells(s.view, h) && InStep(s, h) && a.Finish?
    ensures Tells(Step(s, a).view, Record(h, a)) && InStep(Step(s, a), Record(h, a))
  {
    NoRunWritesAnothersReport(s, a);
    Verdict(s.view.stages, h);
  }

  lemma StepTells(s: System, h: History, a: Action)
    requires Inv(s) && Enabled(s, a) && Tells(s.view, h) && InStep(s, h)
    ensures Tells(Step(s, a).view, Record(h, a)) && InStep(Step(s, a), Record(h, a))
  {
    match a {
      case Start(_, _) => StartTells(s, h, a);
      case Begin(_, _) => BeginTells(s, h, a);
      case End(_, _, _, _) => EndTells(s, h, a);
      case Finish(_, _) => FinishTells(s, h, a);
      case Snapshot =>
    }
  }

  lemma {:induction false} RunTells(s: System, h: History, actions: seq<Action>)
    requires Inv(s) && Possible(s, actions) && Tells(s.view, h) && InStep(s, h)
    ensures Tells(After(s, actions).view, HistoryOf(h, actions))
    decreases |actions|
  {
    if actions != [] {
      StepTells(s, h, actions[0]);
      StepKeepsInv(s, actions[0]);
      RunTells(Step(s, actions[0]), Record(h, actions[0]), actions[1..]);
    }
  }

  /**
   In every interleaving every report tells what its workers did: a stage is failed exactly when its
   worker returned an error, and shows it; a settled report is done exactly when no worker did.
   */
  lemma ReportsTellOutcomes(actions: seq<Action>)
    requires Possible(INIT, actions)
    ensures Tells(After(INIT, actions).view, HistoryOf(NO_HISTORY, actions))
  {
    RunTells(INIT, NO_HISTORY, actions);
  }
}
