/** What every interleaving of the pairing flow keeps. */
module PairTheorems {
  import opened Wrappers
  import opened PairEvents
  import opened PairFlow

  /** How a session may change over time. */
  ghost predicate Evolves(x: Session, x': Session) {
    && x.published <= x'.published
    && x.sent <= x'.sent
    && (x.obs.done ==> x'.obs == x.obs && x'.published == x.published)
    && (x.obs.latest.IsTerminal() ==> x'.published == x.published)
  }

  lemma EvolvesTransitive(x: Session, y: Session, z: Session)
    requires SessionInv(x) && SessionInv(y) && SessionInv(z)
    requires Evolves(x, y) && Evolves(y, z)
    ensures Evolves(x, z)
  {
  }

  lemma OnlyLastAppend(p: seq<PairEvent>, evt: PairEvent)
    requires OnlyLastTerminal(p) && (p == [] || !p[|p| - 1].IsTerminal())
    ensures OnlyLastTerminal(p + [evt])
  {
    forall k | 0 <= k < |p + [evt]| - 1 ensures !(p + [evt])[k].IsTerminal() {
      assert (p + [evt])[k] == p[k];
    }
  }

  ghost predicate GoodRunnerStep(x: Session, x': Session, broadcast: bool) {
    && SessionInv(x') && Evolves(x, x') && x'.lock == x.lock
    && (if broadcast then x.lock.None? && x.obs.count <= x'.obs.count else x'.obs == x.obs)
  }

  lemma PublishKeeps(x: Session, a: Action)
    requires SessionInv(x) && a.Publish? && RunnerStep(x, a).Some?
    ensures var (x', broadcast) := RunnerStep(x, a).value; GoodRunnerStep(x, x', broadcast)
  {
    var x' := RunnerStep(x, a).value.0;
    OnlyLastAppend(x.published, x.runner.evt);
    assert x'.published[..|x'.published| - 1] == x.published;
  }

  lemma SendKeeps(x: Session, a: Action)
    requires SessionInv(x) && a.Send? && RunnerStep(x, a).Some?
    ensures var (x', broadcast) := RunnerStep(x, a).value; GoodRunnerStep(x, x', broadcast)
  {
    assert x.obs.latest == x.runner.evt;
  }

  lemma DropKeeps(x: Session, a: Action)
    requires SessionInv(x) && a.DropOnCancel? && RunnerStep(x, a).Some?
    ensures var (x', broadcast) := RunnerStep(x, a).value; GoodRunnerStep(x, x', broadcast)
  {
  }

  lemma DeferKeeps(x: Session, a: Action)
    requires SessionInv(x) && a.Defer? && RunnerStep(x, a).Some?
    ensures var (x', broadcast) := RunnerStep(x, a).value; GoodRunnerStep(x, x', broadcast)
  {
  }

  /** One step of a goroutine: it keeps the invariant, and observable changes come with a broadcast. */
  lemma RunnerStepKeeps(x: Session, a: Action)
    requires SessionInv(x) && IsRunnerAction(a) && RunnerStep(x, a).Some?
    ensures var (x', broadcast) := RunnerStep(x, a).value; GoodRunnerStep(x, x', broadcast)
  {
    match a {
      case Publish(_) => PublishKeeps(x, a);
      case Send(_) => SendKeeps(x, a);
      case DropOnCancel(_) => DropKeeps(x, a);
      case Defer(_) => DeferKeeps(x, a);
      case CancelContext(_) =>
      case ExitOnCancel(_) =>
      case ExitOnClose(_) =>
      case Receive(_, _) =>
      case Take(_) =>
    }
  }

  lemma WakeKeeps(s: System, i: nat, w: nat)
    requires w in s.waiters
    ensures var ws := Wake(s.waiters, i);
            && ws.Keys == s.waiters.Keys
            && !(ws[w].at.Parked? && ws[w].at.session == i)
            && (ws[w] == s.waiters[w] || (s.waiters[w].at.Parked? && s.waiters[w].at.session == i &&
                 ws[w] == s.waiters[w].(at := Watching(i, s.waiters[w].at.start))))
  {
  }

  lemma MoveKeepsWaiter(s: System, i: nat, x: Session, broadcast: bool, w: nat)
    requires i < |s.sessions| && GoodRunnerStep(s.sessions[i], x, broadcast) && w in s.waiters && WaiterInv(s, w)
    ensures var s' := Moved(s, i, x, broadcast); w in s'.waiters && WaiterInv(s', w)
  {
    WakeKeeps(s, i, w);
  }

  lemma MoveKeepsSession(s: System, i: nat, x: Session, broadcast: bool, j: nat)
    requires i < |s.sessions| && GoodRunnerStep(s.sessions[i], x, broadcast)
    requires j < |s.sessions| && SessionInv(s.sessions[j]) && LockInv(s, j)
    ensures var s' := Moved(s, i, x, broadcast); SessionInv(s'.sessions[j]) && LockInv(s', j)
  {
    if s.sessions[j].lock.Some? {
      WakeKeeps(s, i, s.sessions[j].lock.value);
    }
  }

  lemma RunnerKeepsWaiter(s: System, a: Action, w: nat)
    requires Inv(s) && IsRunnerAction(a) && Step(s, a).Some? && w in s.waiters
    ensures var s' := Step(s, a).value; w in s'.waiters && WaiterInv(s', w)
  {
    RunnerStepKeeps(s.sessions[a.i], a);
    var (x, broadcast) := RunnerStep(s.sessions[a.i], a).value;
    MoveKeepsWaiter(s, a.i, x, broadcast, w);
  }

  lemma RunnerKeepsSession(s: System, a: Action, i: nat)
    requires Inv(s) && IsRunnerAction(a) && Step(s, a).Some? && i < |s.sessions|
    ensures var s' := Step(s, a).value; i < |s'.sessions| && SessionInv(s'.sessions[i]) && LockInv(s', i)
  {
    RunnerStepKeeps(s.sessions[a.i], a);
    var (x, broadcast) := RunnerStep(s.sessions[a.i], a).value;
    MoveKeepsSession(s, a.i, x, broadcast, i);
  }

  lemma AdminKeepsSession(s: System, a: Action, i: nat)
    requires Inv(s) && !IsRunnerAction(a) && !IsWaiterAction(a) && Step(s, a).Some? && i < |Step(s, a).value.sessions|
    ensures var s' := Step(s, a).value; SessionInv(s'.sessions[i]) && LockInv(s', i)
  {
    if i < |s.sessions| {
      assert SessionInv(s.sessions[i]) && LockInv(s, i);
    }
  }

  lemma AdminKeepsWaiter(s: System, a: Action, w: nat)
    requires Inv(s) && !IsRunnerAction(a) && !IsWaiterAction(a) && Step(s, a).Some? && w in s.waiters
    ensures var s' := Step(s, a).value; w in s'.waiters && WaiterInv(s', w)
  {
    assert WaiterInv(s, w);
  }

  lemma CheckKeepsSession(s: System, a: Action, i: nat)
    requires Inv(s) && a.WaitCheck? && Step(s, a).Some? && i < |s.sessions|
    ensures var s' := Step(s, a).value; i < |s'.sessions| && SessionInv(s'.sessions[i]) && LockInv(s', i)
  {
    assert SessionInv(s.sessions[i]) && LockInv(s, i);
    if a.w in s.waiters {
      assert WaiterInv(s, a.w);
    }
  }

  lemma ParkKeepsSession(s: System, a: Action, i: nat)
    requires Inv(s) && a.WaitPark? && Step(s, a).Some? && i < |s.sessions|
    ensures var s' := Step(s, a).value; i < |s'.sessions| && SessionInv(s'.sessions[i]) && LockInv(s', i)
  {
    assert SessionInv(s.sessions[i]) && LockInv(s, i);
    if a.w in s.waiters {
      assert WaiterInv(s, a.w);
    }
  }

  lemma WatchingKeepsSession(s: System, a: Action, i: nat)
    requires Inv(s) && IsWaiterAction(a) && !a.WaitCheck? && !a.WaitPark? && Step(s, a).Some? && i < |s.sessions|
    ensures var s' := Step(s, a).value; i < |s'.sessions| && SessionInv(s'.sessions[i]) && LockInv(s', i)
  {
    assert SessionInv(s.sessions[i]) && LockInv(s, i);
    if a.w in s.waiters {
      assert WaiterInv(s, a.w);
    }
  }

  lemma WaiterKeepsSession(s: System, a: Action, i: nat)
    requires Inv(s) && IsWaiterAction(a) && Step(s, a).Some? && i < |s.sessions|
    ensures var s' := Step(s, a).value; i < |s'.sessions| && SessionInv(s'.sessions[i]) && LockInv(s', i)
  {
    match a {
      case WaitCheck(_) => CheckKeepsSession(s, a, i);
      case WaitPark(_) => ParkKeepsSession(s, a, i);
      case _ => WatchingKeepsSession(s, a, i);
    }
  }

  lemma CheckKeepsWaiter(s: System, a: Action, w: nat)
    requires Inv(s) && a.WaitCheck? && Step(s, a).Some? && w in Step(s, a).value.waiters
    ensures WaiterInv(Step(s, a).value, w)
  {
    if w in s.waiters {
      assert WaiterInv(s, w);
    }
    if a.w in s.waiters {
      assert WaiterInv(s, a.w);
    }
  }

  lemma ParkKeepsWaiter(s: System, a: Action, w: nat)
    requires Inv(s) && a.WaitPark? && Step(s, a).Some? && w in Step(s, a).value.waiters
    ensures WaiterInv(Step(s, a).value, w)
  {
    if w in s.waiters {
      assert WaiterInv(s, w);
    }
    if a.w in s.waiters {
      assert WaiterInv(s, a.w);
    }
  }

  lemma WatchdogKeepsWaiter(s: System, a: Action, w: nat)
    requires Inv(s) && a.Watchdog? && Step(s, a).Some? && w in Step(s, a).value.waiters
    ensures WaiterInv(Step(s, a).value, w)
  {
    if w in s.waiters {
      assert WaiterInv(s, w);
    }
    if a.w in s.waiters {
      assert WaiterInv(s, a.w);
    }
  }

  lemma EnteringKeepsWaiter(s: System, a: Action, w: nat)
    requires Inv(s) && (a.WaitCall? || a.WaitStart? || a.Expire?) && Step(s, a).Some? && w in Step(s, a).value.waiters
    ensures WaiterInv(Step(s, a).value, w)
  {
    if w in s.waiters {
      assert WaiterInv(s, w);
    }
    if a.w in s.waiters {
      assert WaiterInv(s, a.w);
    }
  }

  lemma WaiterKeepsWaiter(s: System, a: Action, w: nat)
    requires Inv(s) && IsWaiterAction(a) && Step(s, a).Some? && w in Step(s, a).value.waiters
    ensures WaiterInv(Step(s, a).value, w)
  {
    match a {
      case WaitCheck(_) => CheckKeepsWaiter(s, a, w);
      case WaitPark(_) => ParkKeepsWaiter(s, a, w);
      case Watchdog(_) => WatchdogKeepsWaiter(s, a, w);
      case _ => EnteringKeepsWaiter(s, a, w);
    }
  }

  lemma StepKeepsInv(s: System, a: Action)
    requires Inv(s) && Step(s, a).Some?
    ensures Inv(Step(s, a).value)
  {
    var s' := Step(s, a).value;
    forall i: nat | i < |s'.sessions| ensures SessionInv(s'.sessions[i]) && LockInv(s', i) {
      if IsRunnerAction(a) { RunnerKeepsSession(s, a, i); }
      else if IsWaiterAction(a) { WaiterKeepsSession(s, a, i); }
      else { AdminKeepsSession(s, a, i); }
    }
    forall w | w in s'.waiters ensures WaiterInv(s', w) {
      if IsRunnerAction(a) { RunnerKeepsWaiter(s, a, w); }
      else if IsWaiterAction(a) { WaiterKeepsWaiter(s, a, w); }
      else { AdminKeepsWaiter(s, a, w); }
    }
  }

  /** Observers and admin operations leave the streams of a session alone. */
  ghost predicate SameStreams(x: Session, x': Session) {
    x'.published == x.published && x'.sent == x.sent && x'.obs == x.obs
  }

  lemma ObserversKeepStreams(s: System, a: Action, i: nat)
    requires IsWaiterAction(a) && Step(s, a).Some? && i < |s.sessions|
    ensures var s' := Step(s, a).value;
            |s'.sessions| == |s.sessions| && s'.current == s.current && SameStreams(s.sessions[i], s'.sessions[i])
  {
  }

  lemma AdminKeepsStreams(s: System, a: Action, i: nat)
    requires !IsRunnerAction(a) && !IsWaiterAction(a) && Step(s, a).Some? && i < |s.sessions|
    ensures var s' := Step(s, a).value; |s.sessions| <= |s'.sessions| && SameStreams(s.sessions[i], s'.sessions[i])
  {
  }

  lemma RunnersEvolve(s: System, a: Action, i: nat)
    requires Inv(s) && IsRunnerAction(a) && Step(s, a).Some? && i < |s.sessions|
    ensures var s' := Step(s, a).value;
            |s'.sessions| == |s.sessions| && s'.current == s.current && Evolves(s.sessions[i], s'.sessions[i])
  {
    RunnerStepKeeps(s.sessions[a.i], a);
  }

  lemma StepEvolves(s: System, a: Action, i: nat)
    requires Inv(s) && Step(s, a).Some? && i < |s.sessions|
    ensures var s' := Step(s, a).value; i < |s'.sessions| && Evolves(s.sessions[i], s'.sessions[i])
  {
    if IsRunnerAction(a) {
      RunnersEvolve(s, a, i);
    } else if IsWaiterAction(a) {
      ObserversKeepStreams(s, a, i);
    } else {
      AdminKeepsStreams(s, a, i);
    }
  }

  // ----- whole runs -----

  function Run(s: System, actions: seq<Action>): Option<System>
    decreases |actions|
  {
    if actions == [] then Some(s)
    else match Step(s, actions[0]) case Some(s') => Run(s', actions[1..]) case None => None
  }

  /** Every reachable state satisfies the invariant: no waiter is parked on a session that moved on. */
  lemma {:induction false} RunKeepsInv(s: System, actions: seq<Action>)
    requires Inv(s) && Run(s, actions).Some?
    ensures Inv(Run(s, actions).value)
    decreases |actions|
  {
    if actions != [] {
      StepKeepsInv(s, actions[0]);
      RunKeepsInv(Step(s, actions[0]).value, actions[1..]);
    }
  }

  /**
   From any reachable state, streams only grow, nothing is published after a terminal event, and a
   finished session stays exactly as it is.
   */
  lemma {:induction false} RunEvolves(s: System, actions: seq<Action>, i: nat)
    requires Inv(s) && Run(s, actions).Some? && i < |s.sessions|
    ensures var s' := Run(s, actions).value; i < |s'.sessions| && Evolves(s.sessions[i], s'.sessions[i])
    decreases |actions|
  {
    if actions != [] {
      var next := Step(s, actions[0]).value;
      StepKeepsInv(s, actions[0]);
      StepEvolves(s, actions[0], i);
      RunEvolves(next, actions[1..], i);
      RunKeepsInv(next, actions[1..]);
      EvolvesTransitive(s.sessions[i], next.sessions[i], Run(next, actions[1..]).value.sessions[i]);
    }
  }

  /** A parked waiter has nothing to be told, on any reachable state. */
  lemma NoWaiterMissesAnEvent(actions: seq<Action>, w: nat)
    requires Run(INIT, actions).Some?
    ensures var s := Run(INIT, actions).value;
            w in s.waiters && s.waiters[w].at.Parked? ==>
              var x := s.waiters[w].at;
              && x.session < |s.sessions|
              && |s.sessions[x.session].published| == x.start && !s.sessions[x.session].obs.done
              && (s.waiters[w].fired <==> s.waiters[w].missed)
  {
    RunKeepsInv(INIT, actions);
    var s := Run(INIT, actions).value;
    if w in s.waiters && s.waiters[w].at.Parked? {
      assert WaiterInv(s, w);
      assert SessionInv(s.sessions[s.waiters[w].at.session]);
    }
  }

  /** What the consumer of the out channel has been sent when the flow is over. */
  lemma OutChannelFollowsPublished(actions: seq<Action>, i: nat)
    requires Run(INIT, actions).Some? && i < |Run(INIT, actions).value.sessions|
    ensures var x := Run(INIT, actions).value.sessions[i];
            && (x.runner == Gone ==> OutFollows(x) && x.obs.done && x.doneClosed && x.cancelled)
            && x.sent <= x.published && |x.published| <= |x.sent| + 1
            && OnlyLastTerminal(x.published)
  {
    RunKeepsInv(INIT, actions);
    assert SessionInv(Run(INIT, actions).value.sessions[i]);
  }

  // ----- one live goroutine -----

  ghost predicate OneLive(s: System) {
    forall i :: 0 <= i < |s.sessions| && !s.sessions[i].obs.done ==> s.current == Some(i)
  }

  /** Unpair gives up waiting for a flow that has not ended. */
  ghost predicate Abandons(s: System, a: Action)
    requires Inv(s)
  {
    a == UnpairTimedOut && s.admin.Unpairing? && !s.sessions[s.admin.session].obs.done
  }

  /** Otherwise, which session is current changes only when no session is live. */
  lemma CurrentChanges(s: System, a: Action)
    requires Inv(s) && OneLive(s) && !Abandons(s, a) && !IsRunnerAction(a) && !IsWaiterAction(a) && Step(s, a).Some?
    ensures var s' := Step(s, a).value;
            && (s'.current == s.current || s.current.None? || s.sessions[s.current.value].obs.done)
            && (|s'.sessions| == |s.sessions| ||
                (|s'.sessions| == |s.sessions| + 1 && s'.current == Some(|s.sessions|)))
  {
    if s.current.Some? {
      assert SessionInv(s.sessions[s.current.value]);
    }
  }

  lemma StepKeepsOneLive(s: System, a: Action)
    requires Inv(s) && OneLive(s) && !Abandons(s, a) && Step(s, a).Some?
    ensures OneLive(Step(s, a).value)
  {
    var s' := Step(s, a).value;
    forall i: nat | i < |s.sessions| ensures i < |s'.sessions| && (s.sessions[i].obs.done ==> s'.sessions[i].obs.done) {
      StepEvolves(s, a, i);
    }
    if IsRunnerAction(a) || IsWaiterAction(a) {
      StepKeepsCurrent(s, a);
    } else {
      CurrentChanges(s, a);
    }
  }

  lemma StepKeepsCurrent(s: System, a: Action)
    requires (IsRunnerAction(a) || IsWaiterAction(a)) && Step(s, a).Some?
    ensures var s' := Step(s, a).value; |s'.sessions| == |s.sessions| && s'.current == s.current
  {
  }

  /** A step leaves two goroutines live, or a live one that is not current, exactly when it abandons one. */
  lemma OneLiveStep(s: System, a: Action)
    requires Inv(s) && OneLive(s) && Step(s, a).Some?
    ensures OneLive(Step(s, a).value) <==> (a == UnpairTimedOut ==> s.sessions[s.admin.session].obs.done)
  {
    if Abandons(s, a) {
      assert !Step(s, a).value.sessions[s.admin.session].obs.done;
    } else {
      StepKeepsOneLive(s, a);
    }
  }

  /** In every state the run passes through, only the current goroutine is live. */
  ghost predicate AlwaysOneLive(s: System, actions: seq<Action>)
    requires Run(s, actions).Some?
  {
    forall n :: 0 <= n <= |actions| ==> Run(s, actions[..n]).Some? && OneLive(Run(s, actions[..n]).value)
  }

  /** Every timeout of the run finds the flow it was waiting for already over. */
  ghost predicate NeverAbandons(s: System, actions: seq<Action>)
    requires Inv(s) && Run(s, actions).Some?
    decreases |actions|
  {
    actions == [] || (
      && !Abandons(s, actions[0])
      && (StepKeepsInv(s, actions[0]); NeverAbandons(Step(s, actions[0]).value, actions[1..])))
  }

  /** At most the current goroutine is live throughout a run exactly when no timeout abandons one. */
  lemma {:induction false} AtMostOneLive(s: System, actions: seq<Action>)
    requires Inv(s) && OneLive(s) && Run(s, actions).Some?
    ensures AlwaysOneLive(s, actions) <==> NeverAbandons(s, actions)
    decreases |actions|
  {
    if actions != [] {
      var next := Step(s, actions[0]).value;
      StepKeepsInv(s, actions[0]);
      OneLiveStep(s, actions[0]);
      PrefixesStep(s, actions);
      if OneLive(next) {
        AtMostOneLive(next, actions[1..]);
      }
    }
  }

  /** The prefixes of a run are the empty one and those of its tail, each after the first step. */
  lemma PrefixesStep(s: System, actions: seq<Action>)
    requires actions != [] && OneLive(s) && Run(s, actions).Some?
    ensures AlwaysOneLive(s, actions) <==>
            OneLive(Step(s, actions[0]).value) && AlwaysOneLive(Step(s, actions[0]).value, actions[1..])
  {
    var next, rest := Step(s, actions[0]).value, actions[1..];
    forall n | 0 <= n <= |rest| ensures Run(s, actions[..n + 1]) == Run(next, rest[..n]) {
      assert actions[..n + 1][1..] == rest[..n];
    }
    if AlwaysOneLive(s, actions) {
      assert Run(next, rest[..0]) == Some(next);
      forall n | 0 <= n <= |rest| ensures Run(next, rest[..n]).Some? && OneLive(Run(next, rest[..n]).value) {
        assert Run(s, actions[..n + 1]).Some? && OneLive(Run(s, actions[..n + 1]).value);
      }
    }
    if AlwaysOneLive(next, rest) {
      forall n | 0 <= n <= |actions| ensures Run(s, actions[..n]).Some? && OneLive(Run(s, actions[..n]).value) {
        if n > 0 {
          assert Run(s, actions[..(n - 1) + 1]) == Run(next, rest[..n - 1]);
        }
      }
    }
  }

  /** A timeout that does abandon one: two goroutines are live at once. */
  lemma TimeoutLeavesTwoLive()
    ensures var run := [StartPairing(true), UnpairBegin, UnpairTimedOut, StartPairing(true)];
            && Run(INIT, run).Some?
            && |Run(INIT, run).value.sessions| == 2
            && forall i :: 0 <= i < 2 ==> !Run(INIT, run).value.sessions[i].obs.done
  {
    var s1 := Step(INIT, StartPairing(true)).value;
    var s2 := Step(s1, UnpairBegin).value;
    var s3 := Step(s2, UnpairTimedOut).value;
    var s4 := Step(s3, StartPairing(true)).value;
    assert Run(s3, [StartPairing(true)]) == Some(s4);
    assert Run(s2, [UnpairTimedOut, StartPairing(true)]) == Some(s4);
    assert Run(s1, [UnpairBegin, UnpairTimedOut, StartPairing(true)]) == Some(s4);
  }

  /**
   A context that expires between a waiter's check and its park is not noticed: the watchdog has
   broadcast, and the waiter stays parked until the next event.
   */
  lemma ExpiryCanBeMissed()
    ensures var run := [StartPairing(true)] + (CHECK + PARK);
            && Run(INIT, run).Some?
            && 0 in Run(INIT, run).value.waiters
            && var x := Run(INIT, run).value.waiters[0]; x.at.Parked? && x.expired && x.fired
  {
    var start := Step(INIT, StartPairing(true)).value;
    assert Run(start, []) == Some(start) && [StartPairing(true)][1..] == [];
    var checked := CheckRuns(start);
    var parked := ParkRuns(checked);
    RunJoins(start, CHECK, PARK);
    RunJoins(INIT, [StartPairing(true)], CHECK + PARK);
  }

  const CHECK := [WaitCall(0), WaitStart(0), WaitCheck(0)]
  const PARK := [Expire(0), Watchdog(0), WaitPark(0)]

  ghost predicate OneWaiter(s: System, x: Session, w: Waiter) {
    s.admin.Free? && s.sessions == [x] && 0 in s.waiters && s.waiters[0] == w
  }

  lemma CheckRuns(start: System) returns (checked: System)
    requires start == Step(INIT, StartPairing(true)).value
    ensures Run(start, CHECK) == Some(checked)
    ensures OneWaiter(checked, FRESH.(lock := Some(0)), Waiter(Checked(0, 0), false, false, false))
  {
    var s1 := Step(start, WaitCall(0)).value;
    assert OneWaiter(s1, FRESH, Waiter(Entered(0), false, false, false));
    var s2 := Step(s1, WaitStart(0)).value;
    assert OneWaiter(s2, FRESH, Waiter(Watching(0, 0), false, false, false));
    checked := Step(s2, WaitCheck(0)).value;
    assert Run(s2, [WaitCheck(0)]) == Some(checked);
    assert Run(s1, [WaitStart(0), WaitCheck(0)]) == Some(checked);
  }

  lemma ParkRuns(checked: System) returns (parked: System)
    requires OneWaiter(checked, FRESH.(lock := Some(0)), Waiter(Checked(0, 0), false, false, false))
    ensures Run(checked, PARK) == Some(parked)
    ensures OneWaiter(parked, FRESH, Waiter(Parked(0, 0), true, true, true))
  {
    var s1 := Step(checked, Expire(0)).value;
    assert OneWaiter(s1, FRESH.(lock := Some(0)), Waiter(Checked(0, 0), true, false, false));
    var s2 := Step(s1, Watchdog(0)).value;
    assert OneWaiter(s2, FRESH.(lock := Some(0)), Waiter(Checked(0, 0), true, true, true));
    parked := Step(s2, WaitPark(0)).value;
    assert Run(s2, [WaitPark(0)]) == Some(parked);
    assert Run(s1, [Watchdog(0), WaitPark(0)]) == Some(parked);
  }

  lemma {:induction false} RunJoins(s: System, first: seq<Action>, second: seq<Action>)
    requires Run(s, first).Some?
    ensures Run(s, first + second) == Run(Run(s, first).value, second)
    decreases |first|
  {
    if first == [] {
      assert first + second == second;
    } else {
      assert (first + second)[1..] == first[1..] + second;
      RunJoins(Step(s, first[0]).value, first[1..], second);
    }
  }
}
