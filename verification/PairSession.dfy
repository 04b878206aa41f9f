/** The part of a pairing session that observers share: one method per critical section. */
module PairSession {
  import opened PairEvents

  /** The fields guarded by obsMu, with the waiters parked on obsCond. */
  class Session {
    var latest: PairEvent
    var count: nat
    var done: bool
    var parked: set<nat>

    constructor ()
      ensures Seen() == FRESH_OBS && parked == {}
    {
      latest, count, done, parked := NoEvent, 0, false, {};
    }

    function Seen(): Obs
      reads this
    {
      Obs(latest, count, done)
    }

    /** Records an event and wakes every waiter, in one critical section. */
    method Publish(evt: PairEvent)
      modifies this
      ensures Seen() == Published(old(Seen()), evt) && parked == {}
    {
      latest := evt;
      count := count + 1;
      Broadcast();
    }

    /** Records that no more events will come and wakes every waiter. */
    method MarkDone()
      modifies this
      ensures Seen() == Finished(old(Seen())) && parked == {}
    {
      done := true;
      Broadcast();
    }

    method Broadcast()
      modifies this`parked
      ensures parked == {}
    {
      parked := {};
    }

    /** One turn of the wait loop: either there is something to return, or the waiter parks. */
    method CheckOrPark(waiter: nat, start: nat, expired: bool) returns (evt: PairEvent, ready: bool)
      modifies this`parked
      ensures evt == latest
      ensures ready <==> HasNews(Seen(), start, expired)
      ensures parked == old(parked) + if ready then {} else {waiter}
    {
      ready := !(count == start && !done && !expired);
      if !ready {
        parked := parked + {waiter};
      }
      evt := latest;
    }
  }
}
