/**
 The pairing flow as interleaved steps: StartPairing and Unpair under the admin lock, one goroutine
 per session, and any number of observers in PairWaitNext. A step is one critical section, one
 channel operation or one deferred call.
 */
module PairFlow {
  import opened Wrappers
  import opened PairEvents

  const OUT_CAPACITY := 8

  /** Where the goroutine of a session stands; the last five are its deferred calls. */
  datatype Runner =
    | Select
    | Publishing(evt: PairEvent)
    | Sending(evt: PairEvent)
    | Cancelling
    | Marking
    | ClosingDone
    | ClosingOut
    | Gone

  /**
   One session. `published` and `sent` are everything published and everything put on the out
   channel so far, `taken` how much of it was received; `lock` names the observer holding obsMu
   between its check and its park.
   */
  datatype Session = Session(
    obs: Obs, runner: Runner, cancelled: bool, doneClosed: bool,
    published: seq<PairEvent>, sent: seq<PairEvent>, taken: nat, lock: Option<nat>)

  const FRESH := Session(FRESH_OBS, Select, false, false, [], [], 0, None)

  datatype WaitState =
    | Entered(session: nat)
    | Watching(session: nat, start: nat)
    | Checked(session: nat, start: nat)
    | Parked(session: nat, start: nat)
    | Returned(evt: PairEvent, flow: bool)

  /** `missed`: the watchdog's broadcast fell between this waiter's check and its park. */
  datatype Waiter = Waiter(at: WaitState, expired: bool, fired: bool, missed: bool)

  datatype Admin = Free | Unpairing(session: nat)

  datatype System = System(sessions: seq<Session>, current: Option<nat>, admin: Admin, waiters: map<nat, Waiter>)

  const INIT := System([], None, Free, map[])

  datatype Action =
    | StartPairing(connects: bool)
    | UnpairBegin
    | UnpairJoined
    | UnpairAbandoned
    | UnpairTimedOut
    | CancelContext(i: nat)
    | ExitOnCancel(i: nat)
    | ExitOnClose(i: nat)
    | Receive(i: nat, item: QRItem)
    | Publish(i: nat)
    | Send(i: nat)
    | DropOnCancel(i: nat)
    | Take(i: nat)
    | Defer(i: nat)
    | WaitCall(w: nat)
    | WaitStart(w: nat)
    | WaitCheck(w: nat)
    | WaitPark(w: nat)
    | Expire(w: nat)
    | Watchdog(w: nat)

  function Wake(waiters: map<nat, Waiter>, i: nat): map<nat, Waiter> {
    map w | w in waiters ::
      match waiters[w].at
      case Parked(j, start) => if i == j then waiters[w].(at := Watching(j, start)) else waiters[w]
      case _ => waiters[w]
  }

  function WithSession(s: System, i: nat, x: Session): System
    requires i < |s.sessions|
  {
    s.(sessions := s.sessions[i := x])
  }

  function WithWaiter(s: System, w: nat, x: Waiter): System {
    s.(waiters := s.waiters[w := x])
  }

  // ----- admin operations -----

  function AdminStep(s: System, a: Action): Option<System>
    requires a.StartPairing? || a.UnpairBegin? || a.UnpairJoined? || a.UnpairAbandoned? || a.UnpairTimedOut?
  {
    match a
    case StartPairing(connects) =>
      if !s.admin.Free? then None
      else if s.current.Some? && s.current.value < |s.sessions| && !s.sessions[s.current.value].obs.done then Some(s)
      else if !connects then Some(s)
      else Some(s.(sessions := s.sessions + [FRESH], current := Some(|s.sessions|)))
    case UnpairBegin =>
      if !s.admin.Free? then None
      else if s.current.Some? && s.current.value < |s.sessions| then
        var i := s.current.value;
        Some(WithSession(s, i, s.sessions[i].(cancelled := true)).(admin := Unpairing(i)))
      else Some(s)
    case UnpairJoined =>
      if s.admin.Unpairing? && s.admin.session < |s.sessions| && s.sessions[s.admin.session].doneClosed
      then Some(s.(current := None, admin := Free)) else None
    case UnpairAbandoned => if s.admin.Unpairing? then Some(s.(admin := Free)) else None
    case UnpairTimedOut => if s.admin.Unpairing? then Some(s.(current := None, admin := Free)) else None
  }

  // ----- the goroutine -----

  predicate IsRunnerAction(a: Action) {
    a.CancelContext? || a.ExitOnCancel? || a.ExitOnClose? || a.Receive? || a.Publish? || a.Send? || a.DropOnCancel? ||
    a.Take? || a.Defer?
  }

  /** The session after the step, and whether its condition variable was broadcast. */
  function RunnerStep(x: Session, a: Action): Option<(Session, bool)>
    requires IsRunnerAction(a)
  {
    match a
    case CancelContext(_) => Some((x.(cancelled := true), false))
    case ExitOnCancel(_) => if x.runner == Select && x.cancelled then Some((x.(runner := Cancelling), false)) else None
    case ExitOnClose(_) => if x.runner == Select then Some((x.(runner := Cancelling), false)) else None
    case Receive(_, item) =>
      if x.runner == Select then Some((x.(runner := Publishing(ToPairEvent(item))), false)) else None
    case Publish(_) =>
      if x.runner.Publishing? && x.lock.None? then
        var evt := x.runner.evt;
        Some((x.(obs := Published(x.obs, evt), published := x.published + [evt], runner := Sending(evt)), true))
      else None
    case Send(_) =>
      if x.runner.Sending? && |x.sent| < x.taken + OUT_CAPACITY then
        var evt := x.runner.evt;
        Some((x.(sent := x.sent + [evt], runner := if evt.IsTerminal() then Cancelling else Select), false))
      else None
    case DropOnCancel(_) => if x.runner.Sending? && x.cancelled then Some((x.(runner := Cancelling), false)) else None
    case Take(_) => if x.taken < |x.sent| then Some((x.(taken := x.taken + 1), false)) else None
    case Defer(_) =>
      match x.runner
      case Cancelling => Some((x.(cancelled := true, runner := Marking), false))
      case Marking => if x.lock.None? then Some((x.(obs := Finished(x.obs), runner := ClosingDone), true)) else None
      case ClosingDone => Some((x.(doneClosed := true, runner := ClosingOut), false))
      case ClosingOut => Some((x.(runner := Gone), false))
      case _ => None
  }

  // ----- observers -----

  predicate IsWaiterAction(a: Action) {
    a.WaitCall? || a.WaitStart? || a.WaitCheck? || a.WaitPark? || a.Expire? || a.Watchdog?
  }

  function WaiterStep(s: System, a: Action): Option<System>
    requires IsWaiterAction(a)
  {
    if a.WaitCall? then
      if a.w in s.waiters || !s.admin.Free? then None
      else
        var at := match s.current case Some(i) => Entered(i) case None => Returned(NoEvent, false);
        Some(WithWaiter(s, a.w, Waiter(at, false, false, false)))
    else if a.w !in s.waiters then None
    else
      var x := s.waiters[a.w];
      match a
      case Expire(w) => Some(WithWaiter(s, w, x.(expired := true)))
      case WaitStart(w) =>
        if x.at.Entered? && x.at.session < |s.sessions| && s.sessions[x.at.session].lock.None? then
          var o := s.sessions[x.at.session].obs;
          Some(WithWaiter(s, w, x.(at := if o.done then Returned(o.latest, true) else Watching(x.at.session, o.count))))
        else None
      case WaitCheck(w) =>
        if x.at.Watching? && x.at.session < |s.sessions| && s.sessions[x.at.session].lock.None? then
          var i, o := x.at.session, s.sessions[x.at.session].obs;
          if HasNews(o, x.at.start, x.expired) then Some(WithWaiter(s, w, x.(at := Returned(o.latest, true))))
          else Some(WithWaiter(WithSession(s, i, s.sessions[i].(lock := Some(w))), w, x.(at := Checked(i, x.at.start))))
        else None
      case WaitPark(w) =>
        if x.at.Checked? && x.at.session < |s.sessions| then
          var i := x.at.session;
          Some(WithWaiter(WithSession(s, i, s.sessions[i].(lock := None)), w, x.(at := Parked(i, x.at.start))))
        else None
      case Watchdog(w) =>
        // Broadcasts without holding obsMu.
        if x.expired && !x.fired && (x.at.Watching? || x.at.Checked? || x.at.Parked?) then
          var s' := WithWaiter(s, w, x.(fired := true, missed := x.at.Checked?));
          Some(s'.(waiters := Wake(s'.waiters, x.at.session)))
        else None
  }

  /** The system after session `i` became `x`. */
  function Moved(s: System, i: nat, x: Session, broadcast: bool): System
    requires i < |s.sessions|
  {
    WithSession(s, i, x).(waiters := if broadcast then Wake(s.waiters, i) else s.waiters)
  }

  function Step(s: System, a: Action): Option<System> {
    if IsRunnerAction(a) then
      if a.i < |s.sessions| then
        match RunnerStep(s.sessions[a.i], a)
        case Some((x, broadcast)) => Some(Moved(s, a.i, x, broadcast))
        case None => None
      else None
    else if IsWaiterAction(a) then WaiterStep(s, a)
    else AdminStep(s, a)
  }

  // ----- the invariant -----

  predicate Ended(r: Runner) {
    r.ClosingDone? || r.ClosingOut? || r.Gone?
  }

  /** The out channel carries the published stream, or that stream without its last event. */
  ghost predicate OutFollows(x: Session) {
    x.sent == x.published || (x.published != [] && x.sent == x.published[..|x.published| - 1])
  }

  ghost predicate OnlyLastTerminal(p: seq<PairEvent>) {
    forall k :: 0 <= k < |p| - 1 ==> !p[k].IsTerminal()
  }

  ghost predicate SessionInv(x: Session) {
    && x.obs.count == |x.published|
    && x.obs.latest == (if x.published == [] then NoEvent else x.published[|x.published| - 1])
    && OnlyLastTerminal(x.published)
    && x.taken <= |x.sent| <= x.taken + OUT_CAPACITY
    && (x.obs.done <==> Ended(x.runner))
    && (x.doneClosed <==> x.runner.ClosingOut? || x.runner.Gone?)
    && (x.runner.Select? || x.runner.Publishing? ==>
         x.sent == x.published && (x.published == [] || !x.obs.latest.IsTerminal()))
    && (x.runner.Sending? ==> x.published == x.sent + [x.runner.evt])
    && OutFollows(x)
    && (x.runner.Marking? || Ended(x.runner) ==> x.cancelled)
  }

  ghost predicate WaiterInv(s: System, w: nat)
    requires w in s.waiters
  {
    var x := s.waiters[w];
    && (x.missed ==> x.fired)
    && (x.fired ==> x.expired)
    && match x.at
       case Entered(i) => i < |s.sessions|
       case Watching(i, start) => i < |s.sessions| && start <= s.sessions[i].obs.count
       case Checked(i, start) =>
         && i < |s.sessions| && s.sessions[i].lock == Some(w)
         && s.sessions[i].obs.count == start && !s.sessions[i].obs.done
         && (x.fired <==> x.missed)
       case Parked(i, start) =>
         // Nothing was published and the flow has not ended since the waiter looked.
         && i < |s.sessions|
         && s.sessions[i].obs.count == start && !s.sessions[i].obs.done
         && (x.fired <==> x.missed)
       case Returned(_, _) => true
  }

  ghost predicate LockInv(s: System, i: nat)
    requires i < |s.sessions|
  {
    s.sessions[i].lock.Some? ==>
      var w := s.sessions[i].lock.value; w in s.waiters && s.waiters[w].at.Checked? && s.waiters[w].at.session == i
  }

  ghost predicate Inv(s: System) {
    && (forall i :: 0 <= i < |s.sessions| ==> SessionInv(s.sessions[i]) && LockInv(s, i))
    && (forall w :: w in s.waiters ==> WaiterInv(s, w))
    && (s.current.Some? ==> s.current.value < |s.sessions|)
    && (s.admin.Unpairing? ==> s.current == Some(s.admin.session))
  }
}
