/** What observers are told: each item of the pairing channel as its event, in order, and to a waiter the news. */
module PairAnswers {
  import opened PairEvents
  import opened PairFlow
  import opened PairTheorems

  // ----- events and items -----

  const NAMED_EVENTS := ["code", "success", "timeout", "err-client-outdated", "err-scanned-without-multidevice"]

  /** The event says what the item says; an item of any other name is a failure under its error or its name. */
  ghost predicate Announces(evt: PairEvent, item: QRItem) {
    match evt
    case NoEvent => false
    case Code(code, timeoutMs) => item.event == "code" && code == item.code && timeoutMs == item.timeoutMs
    case Success => item.event == "success"
    case Timeout => item.event == "timeout"
    case ClientOutdated => item.event == "err-client-outdated"
    case ScannedWithoutMultidevice => item.event == "err-scanned-without-multidevice"
    case Failed(message) =>
      && item.event !in NAMED_EVENTS
      && (item.error.Some? ==> message == item.error.value)
      && (item.error.None? ==> message == if item.event == "error" then "" else item.event)
  }

  lemma ItemIsAnnounced(item: QRItem)
    ensures Announces(ToPairEvent(item), item)
  {
  }

  function Item(a: Action, i: nat): seq<QRItem> {
    if a.Receive? && a.i == i then [a.item] else []
  }

  /** The items that the goroutine of session `i` received. */
  function ItemsOf(actions: seq<Action>, i: nat): seq<QRItem> {
    if actions == [] then [] else Item(actions[0], i) + ItemsOf(actions[1..], i)
  }

  /** Every item received was published as its event, but for one about to be. */
  ghost predicate Streams(x: Session, items: seq<QRItem>) {
    && |items| == |x.published| + (if x.runner.Publishing? then 1 else 0)
    && (forall k :: 0 <= k < |x.published| ==> Announces(x.published[k], items[k]))
    && (x.runner.Publishing? ==> Announces(x.runner.evt, items[|x.published|]))
  }

  ghost predicate StreamsAt(s: System, i: nat, items: seq<QRItem>) {
    if i < |s.sessions| then Streams(s.sessions[i], items) else items == []
  }

  lemma RunnerStreams(x: Session, a: Action, items: seq<QRItem>)
    requires SessionInv(x) && Streams(x, items) && IsRunnerAction(a) && RunnerStep(x, a).Some?
    ensures Streams(RunnerStep(x, a).value.0, items + if a.Receive? then [a.item] else [])
  {
    if a.Receive? {
      ItemIsAnnounced(a.item);
    } else {
      assert items + [] == items;
    }
  }

  lemma OthersStream(s: System, a: Action, i: nat, items: seq<QRItem>)
    requires Inv(s) && StreamsAt(s, i, items) && !IsRunnerAction(a) && Step(s, a).Some?
    ensures StreamsAt(Step(s, a).value, i, items)
  {
    assert Streams(FRESH, []);
  }

  lemma StepStreams(s: System, a: Action, i: nat, items: seq<QRItem>)
    requires Inv(s) && StreamsAt(s, i, items) && Step(s, a).Some?
    ensures StreamsAt(Step(s, a).value, i, items + Item(a, i))
  {
    assert items + [] == items;
    if !IsRunnerAction(a) {
      OthersStream(s, a, i, items);
    } else if a.i == i {
      RunnerStreams(s.sessions[i], a, items);
    }
  }

  lemma Regroup<T>(a: seq<T>, b: seq<T>, c: seq<T>)
    ensures a + b + c == a + (b + c)
  {
  }

  lemma {:induction false} RunStreams(s: System, actions: seq<Action>, i: nat, items: seq<QRItem>)
    requires Inv(s) && StreamsAt(s, i, items) && Run(s, actions).Some?
    ensures StreamsAt(Run(s, actions).value, i, items + ItemsOf(actions, i))
    decreases |actions|
  {
    if actions == [] {
      assert items + [] == items;
    } else {
      var a := actions[0];
      StepStreams(s, a, i, items);
      StepKeepsInv(s, a);
      RunStreams(Step(s, a).value, actions[1..], i, items + Item(a, i));
      Regroup(items, Item(a, i), ItemsOf(actions[1..], i));
    }
  }

  /**
   On every reachable state the events published for a session are those of the items its goroutine
   received, one for one and in order; a pending event is sent as long as the out channel holds fewer than 8.
   */
  lemma EventsAreItems(actions: seq<Action>, i: nat)
    requires Run(INIT, actions).Some? && i < |Run(INIT, actions).value.sessions|
    ensures var s := Run(INIT, actions).value;
            && Streams(s.sessions[i], ItemsOf(actions, i))
            && (s.sessions[i].runner.Sending? ==>
                (Step(s, Send(i)).Some? <==> |s.sessions[i].sent| - s.sessions[i].taken < 8))
  {
    RunStreams(INIT, actions, i, []);
    assert [] + ItemsOf(actions, i) == ItemsOf(actions, i);
  }

  // ----- what a waiter returns -----

  function EventAt(published: seq<PairEvent>, k: nat): PairEvent
    requires k <= |published|
  {
    if k == 0 then NoEvent else published[k - 1]
  }

  /** The answer was the latest event, and it is new, or there will be no more, or the context has expired. */
  ghost predicate IsAnswer(evt: PairEvent, x: Session, start: nat, expired: bool, k: nat) {
    && start <= k <= |x.published| && evt == EventAt(x.published, k)
    && (k > start || (x.obs.done && k == |x.published|) || expired)
  }

  /** Waiter `w` looked at session `i` when `start` events had been published. */
  ghost predicate Follows(s: System, w: nat, i: nat, start: nat) {
    && w in s.waiters && i < |s.sessions| && start <= |s.sessions[i].published|
    && match s.waiters[w].at
       case Entered(_) => false
       case Watching(j, from) => j == i && from == start
       case Checked(j, from) => j == i && from == start
       case Parked(j, from) => j == i && from == start
       case Returned(evt, flow) => flow && exists k :: IsAnswer(evt, s.sessions[i], start, s.waiters[w].expired, k)
  }

  lemma AnswerStays(evt: PairEvent, x: Session, x': Session, start: nat, expired: bool, k: nat)
    requires IsAnswer(evt, x, start, expired, k) && Evolves(x, x')
    ensures IsAnswer(evt, x', start, expired, k)
  {
  }

  /** The waiter stands where it stood, or was woken. */
  ghost predicate Stands(x: Waiter, x': Waiter) {
    && x'.expired == x.expired
    && (x'.at == x.at || (x.at.Parked? && x'.at == Watching(x.at.session, x.at.start)))
  }

  lemma StandingFollows(s: System, s': System, w: nat, i: nat, start: nat)
    requires Follows(s, w, i, start) && w in s'.waiters && Stands(s.waiters[w], s'.waiters[w])
    requires i < |s'.sessions| && Evolves(s.sessions[i], s'.sessions[i])
    ensures Follows(s', w, i, start)
  {
    if s.waiters[w].at.Returned? {
      var evt := s.waiters[w].at.evt;
      var k :| IsAnswer(evt, s.sessions[i], start, s.waiters[w].expired, k);
      AnswerStays(evt, s.sessions[i], s'.sessions[i], start, s.waiters[w].expired, k);
    }
  }

  lemma OthersStand(s: System, a: Action, w: nat)
    requires Step(s, a).Some? && w in s.waiters && (IsWaiterAction(a) ==> a.w != w)
    ensures var s' := Step(s, a).value; w in s'.waiters && Stands(s.waiters[w], s'.waiters[w])
  {
    if IsRunnerAction(a) {
      WakeKeeps(s, a.i, w);
    }
  }

  lemma OwnStep(s: System, a: Action, i: nat, start: nat)
    requires Inv(s) && IsWaiterAction(a) && Follows(s, a.w, i, start) && Step(s, a).Some?
    ensures Follows(Step(s, a).value, a.w, i, start)
  {
    var s' := Step(s, a).value;
    var x, y := s.waiters[a.w], s.sessions[i];
    assert SessionInv(y);
    if x.at.Returned? {
      var k :| IsAnswer(x.at.evt, y, start, x.expired, k);
      assert s'.sessions == s.sessions && s'.waiters[a.w].at == x.at;
      assert IsAnswer(x.at.evt, y, start, s'.waiters[a.w].expired, k);
    } else if a.WaitCheck? && HasNews(y.obs, start, x.expired) {
      assert IsAnswer(y.obs.latest, y, start, x.expired, |y.published|);
    }
  }

  lemma StepFollows(s: System, a: Action, w: nat, i: nat, start: nat)
    requires Inv(s) && Follows(s, w, i, start) && Step(s, a).Some?
    ensures Follows(Step(s, a).value, w, i, start)
  {
    if IsWaiterAction(a) && a.w == w {
      OwnStep(s, a, i, start);
    } else {
      StepEvolves(s, a, i);
      OthersStand(s, a, w);
      StandingFollows(s, Step(s, a).value, w, i, start);
    }
  }

  lemma {:induction false} RunFollows(s: System, actions: seq<Action>, w: nat, i: nat, start: nat)
    requires Inv(s) && Follows(s, w, i, start) && Run(s, actions).Some?
    ensures Follows(Run(s, actions).value, w, i, start)
    decreases |actions|
  {
    if actions != [] {
      StepFollows(s, actions[0], w, i, start);
      StepKeepsInv(s, actions[0]);
      RunFollows(Step(s, actions[0]).value, actions[1..], w, i, start);
    }
  }

  lemma StartFollows(s: System, w: nat)
    requires Inv(s) && w in s.waiters && s.waiters[w].at.Entered? && Step(s, WaitStart(w)).Some?
    ensures var i := s.waiters[w].at.session;
            i < |s.sessions| && Follows(Step(s, WaitStart(w)).value, w, i, |s.sessions[i].published|)
  {
    var i := s.waiters[w].at.session;
    var x, s' := s.sessions[i], Step(s, WaitStart(w)).value;
    assert SessionInv(x);
    if x.obs.done {
      assert IsAnswer(x.obs.latest, s'.sessions[i], |x.published|, s'.waiters[w].expired, |x.published|);
    }
  }

  /**
   A waiter that looks at its session and returns, whatever runs in between, answers with an event that
   was the latest when it returned: one published since it looked, or the last one of a flow that is
   over, or, once its context has expired, the last one so far.
   */
  lemma WaiterIsTold(before: seq<Action>, w: nat, after: seq<Action>)
    requires Run(INIT, before).Some?
    requires var s := Run(INIT, before).value;
             w in s.waiters && s.waiters[w].at.Entered? && Step(s, WaitStart(w)).Some?
             && Run(Step(s, WaitStart(w)).value, after).Some?
    ensures var s := Run(INIT, before).value;
            var s' := Run(Step(s, WaitStart(w)).value, after).value;
            var i := s.waiters[w].at.session;
            && w in s'.waiters && i < |s.sessions| && i < |s'.sessions|
            && var start, x := |s.sessions[i].published|, s'.waiters[w];
               x.at.Returned? ==> x.at.flow && exists k :: IsAnswer(x.at.evt, s'.sessions[i], start, x.expired, k)
  {
    var s := Run(INIT, before).value;
    RunKeepsInv(INIT, before);
    StartFollows(s, w);
    StepKeepsInv(s, WaitStart(w));
    RunFollows(Step(s, WaitStart(w)).value, after, w, s.waiters[w].at.session,
               |s.sessions[s.waiters[w].at.session].published|);
  }
}
