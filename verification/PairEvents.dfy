/** Updates of a pairing flow, and the session object its observers share. */
module PairEvents {
  import opened Wrappers

  /** `NoEvent` is the zero value seen before anything has been published. */
  datatype PairEvent =
    | NoEvent
    | Code(code: string, timeoutMs: int)
    | Success
    | Timeout
    | ClientOutdated
    | ScannedWithoutMultidevice
    | Failed(message: string)
  {
    predicate IsTerminal() {
      !NoEvent? && !Code?
    }
  }

  datatype QRItem = QRItem(event: string, code: string, timeoutMs: int, error: Option<string>)

  function ToPairEvent(item: QRItem): (evt: PairEvent)
    ensures evt != NoEvent
    ensures evt.IsTerminal() <==> item.event != "code"
  {
    match item.event
    case "code" => Code(item.code, item.timeoutMs)
    case "success" => Success
    case "timeout" => Timeout
    case "err-client-outdated" => ClientOutdated
    case "err-scanned-without-multidevice" => ScannedWithoutMultidevice
    case "error" => Failed(match item.error case Some(m) => m case None => "")
    case other => Failed(match item.error case Some(m) => m case None => other)
  }

  /** What observers can see of a session. */
  datatype Obs = Obs(latest: PairEvent, count: nat, done: bool)

  const FRESH_OBS := Obs(NoEvent, 0, false)

  function Published(o: Obs, evt: PairEvent): Obs {
    o.(latest := evt, count := o.count + 1)
  }

  function Finished(o: Obs): Obs {
    o.(done := true)
  }

  /** An observer that started at event number `start` has something to return. */
  predicate HasNews(o: Obs, start: nat, expired: bool) {
    o.count != start || o.done || expired
  }
}
