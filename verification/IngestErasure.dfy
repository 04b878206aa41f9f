/** Reactions and poll votes do not interfere with chats, messages and polls. */
module IngestErasure {
  import opened CacheTables
  import opened Events
  import opened IngestRuns

  predicate IsSideWrite(w: Write) {
    w.PutContact? || w.PutAlias? || w.PutReaction? || w.DropReaction? || w.PutVote?
  }

  /** A message event that is handled as a reaction or a poll vote. */
  predicate IsReactionOrVote(evt: Event) {
    && evt.MessageEvent? && evt.msg.Some? && !evt.isEdit
    && (evt.msg.value.reaction.Some? || evt.msg.value.pollUpdate.Some?)
    && match evt.msg.value.protocol
       case None => true
       case Some(p) => p.key.None? || p.key.value.id == "" || p.kind.OtherProtocol?
  }

  lemma ReactionLogIsSide(messages: map<Pair, MessageRow>, evt: Event, now: int)
    requires IsReactionOrVote(evt)
    ensures forall e :: e in EventLog(messages, evt, now) ==> IsSideWrite(e.write)
  {
  }

  // ----- what is left of a log without side writes -----

  function Core(log: Log): Log
    decreases |log|
  {
    if log == [] then [] else (if IsSideWrite(log[0].write) then [] else [log[0]]) + Core(log[1..])
  }

  ghost predicate OnlySide(log: Log) {
    forall e :: e in log ==> IsSideWrite(e.write)
  }

  lemma {:induction false} CoreOfSide(log: Log)
    requires OnlySide(log)
    ensures Core(log) == []
    decreases |log|
  {
    if log != [] {
      assert log[0] in log;
      CoreOfSide(log[1..]);
    }
  }

  lemma {:induction false} CoreJoin(a: Log, b: Log)
    ensures Core(a + b) == Core(a) + Core(b)
    decreases |a|
  {
    if a == [] {
      assert a + b == b;
    } else {
      assert (a + b)[1..] == a[1..] + b;
      CoreJoin(a[1..], b);
    }
  }

  /** A table that side writes never touch depends on the core of a log only. */
  lemma {:induction false} FoldCore<T(!new)>(t: T, log: Log, step: (T, Write, int) -> T)
    requires forall u, w, n :: IsSideWrite(w) ==> step(u, w, n) == u
    ensures Fold(t, log, step) == Fold(t, Core(log), step)
    decreases |log|
  {
    if log != [] {
      FoldCore(step(t, log[0].write, log[0].now), log[1..], step);
      FoldJoin(t, if IsSideWrite(log[0].write) then [] else [log[0]], Core(log[1..]), step);
    }
  }

  // ----- an event without its reactions -----

  function Quiet(ws: seq<WebMessage>): seq<WebMessage> {
    if ws == [] then [] else Quiet(ws[..|ws| - 1]) + [ws[|ws| - 1].(reactions := [])]
  }

  function QuietHistory(cs: seq<Conversation>): seq<Conversation> {
    if cs == [] then []
    else QuietHistory(cs[..|cs| - 1]) + [cs[|cs| - 1].(messages := Quiet(cs[|cs| - 1].messages))]
  }

  /** A history sync loses the reactions its messages carry. */
  function WithoutReactions(evt: Event): Event {
    match evt
    case HistorySync(cs) => HistorySync(QuietHistory(cs))
    case _ => evt
  }

  lemma {:induction false} HistoryReactionsAreSide(chat: string, target: string, fallback: Time, rs: seq<WebReaction>,
                                                   now: int)
    ensures OnlySide(HistoryReactions(chat, target, fallback, rs, now))
  {
    if rs != [] {
      HistoryReactionsAreSide(chat, target, fallback, rs[..|rs| - 1], now);
    }
  }

  lemma QuietMessageIs(chat: string, w: WebMessage, now: int)
    requires w.key.Some? && w.key.value.id != "" && w.msg.Some?
    ensures HistoryMessage(chat, w, now) ==
            HistoryMessage(chat, w.(reactions := []), now)
            + HistoryReactions(chat, w.key.value.id, At(w.seconds * 1000), w.reactions, now)
  {
    var key := w.key.value;
    var sender := if !key.fromMe && key.participant != "" then Participant(key) else chat;
    var rows := HistoryRow(chat, sender, w, key, w.msg.value, now);
    assert HistoryRow(chat, sender, w.(reactions := []), key, w.msg.value, now) == rows;
    assert rows + [] == rows;
  }

  lemma QuietMessage(chat: string, w: WebMessage, now: int)
    ensures Core(HistoryMessage(chat, w, now)) == Core(HistoryMessage(chat, w.(reactions := []), now))
  {
    if w.key.Some? && w.key.value.id != "" && w.msg.Some? {
      var reactions := HistoryReactions(chat, w.key.value.id, At(w.seconds * 1000), w.reactions, now);
      HistoryReactionsAreSide(chat, w.key.value.id, At(w.seconds * 1000), w.reactions, now);
      CoreOfSide(reactions);
      QuietMessageIs(chat, w, now);
      CoreJoin(HistoryMessage(chat, w.(reactions := []), now), reactions);
    }
  }

  lemma {:induction false} QuietMessages(chat: string, ws: seq<WebMessage>, now: int)
    ensures Core(HistoryMessages(chat, ws, now)) == Core(HistoryMessages(chat, Quiet(ws), now))
    ensures Latest(Quiet(ws)) == Latest(ws)
  {
    if ws != [] {
      var front, last, quiet := ws[..|ws| - 1], ws[|ws| - 1], Quiet(ws);
      assert quiet[..|quiet| - 1] == Quiet(front);
      QuietMessages(chat, front, now);
      QuietMessage(chat, last, now);
      CoreJoin(HistoryMessages(chat, front, now), HistoryMessage(chat, last, now));
      CoreJoin(HistoryMessages(chat, Quiet(front), now), HistoryMessage(chat, last.(reactions := []), now));
    }
  }

  lemma {:induction false} QuietConversations(cs: seq<Conversation>, now: int)
    ensures Core(HistoryLog(cs, now)) == Core(HistoryLog(QuietHistory(cs), now))
  {
    if cs != [] {
      var front, last, quiet := cs[..|cs| - 1], cs[|cs| - 1], QuietHistory(cs);
      var still := last.(messages := Quiet(last.messages));
      var chat := last.chat.ToString();
      assert quiet[..|quiet| - 1] == QuietHistory(front) && quiet[|quiet| - 1] == still;
      QuietConversations(front, now);
      QuietMessages(chat, last.messages, now);
      var row := ConversationLog(last, now)[|HistoryMessages(chat, last.messages, now)|..];
      assert ConversationLog(last, now) == HistoryMessages(chat, last.messages, now) + row;
      assert ConversationLog(still, now) == HistoryMessages(chat, still.messages, now) + row;
      CoreJoin(HistoryMessages(chat, last.messages, now), row);
      CoreJoin(HistoryMessages(chat, still.messages, now), row);
      CoreJoin(HistoryLog(front, now), ConversationLog(last, now));
      CoreJoin(HistoryLog(QuietHistory(front), now), ConversationLog(still, now));
    }
  }

  /** What an event writes beside reactions and votes, it writes without them too. */
  lemma ErasedEvent(messages: map<Pair, MessageRow>, evt: Event, now: int)
    ensures Core(EventLog(messages, evt, now)) ==
            if IsReactionOrVote(evt) then [] else Core(EventLog(messages, WithoutReactions(evt), now))
  {
    if IsReactionOrVote(evt) {
      ReactionLogIsSide(messages, evt, now);
      CoreOfSide(EventLog(messages, evt, now));
    } else if evt.HistorySync? {
      QuietConversations(evt.conversations, now);
    }
  }

  // ----- whole runs -----

  function Erase(events: seq<Timed>): seq<Timed>
    decreases |events|
  {
    if events == [] then []
    else
      (if IsReactionOrVote(events[0].event) then []
       else [events[0].(event := WithoutReactions(events[0].event))]) + Erase(events[1..])
  }

  lemma SplitRun<T>(t: T, messages: map<Pair, MessageRow>, log: Log, events: seq<Timed>, step: (T, Write, int) -> T)
    requires events != [] && log == EventLog(messages, events[0].event, events[0].now)
    ensures Fold(t, RunLog(messages, events), step) ==
            Fold(Fold(t, log, step), RunLog(Fold(messages, log, ApplyMessages), events[1..]), step)
  {
    FoldJoin(t, log, RunLog(Fold(messages, log, ApplyMessages), events[1..]), step);
  }

  lemma ErasedFold<T(!new)>(t: T, messages: map<Pair, MessageRow>, evt: Timed, step: (T, Write, int) -> T)
    requires forall u, w, n :: IsSideWrite(w) ==> step(u, w, n) == u
    ensures Fold(t, EventLog(messages, evt.event, evt.now), step) ==
            if IsReactionOrVote(evt.event) then t
            else Fold(t, EventLog(messages, WithoutReactions(evt.event), evt.now), step)
  {
    ErasedEvent(messages, evt.event, evt.now);
    FoldCore(t, EventLog(messages, evt.event, evt.now), step);
    FoldCore(t, EventLog(messages, WithoutReactions(evt.event), evt.now), step);
  }

  /** A table that side writes never touch cannot tell the erased run from the full one. */
  lemma {:induction false} EraseKeepsTable<T(!new)>(t: T, messages: map<Pair, MessageRow>, events: seq<Timed>,
                                                    step: (T, Write, int) -> T)
    requires forall u, w, n :: IsSideWrite(w) ==> step(u, w, n) == u
    ensures Fold(t, RunLog(messages, events), step) == Fold(t, RunLog(messages, Erase(events)), step)
    decreases |events|
  {
    if events != [] {
      var log := EventLog(messages, events[0].event, events[0].now);
      SplitRun(t, messages, log, events, step);
      EraseKeepsTable(Fold(t, log, step), Fold(messages, log, ApplyMessages), events[1..], step);
      ErasedFold(t, messages, events[0], step);
      ErasedFold(messages, messages, events[0], ApplyMessages);
      var erased := Erase(events);
      if IsReactionOrVote(events[0].event) {
        assert erased == Erase(events[1..]);
      } else {
        assert erased[1..] == Erase(events[1..]);
        SplitRun(t, messages, EventLog(messages, erased[0].event, erased[0].now), erased, step);
      }
    }
  }

  lemma EraseKeepsChats(db: Db, events: seq<Timed>)
    ensures Fold(db.chats, RunLog(db.messages, events), ApplyChats) ==
            Fold(db.chats, RunLog(db.messages, Erase(events)), ApplyChats)
    ensures Fold(db.messages, RunLog(db.messages, events), ApplyMessages) ==
            Fold(db.messages, RunLog(db.messages, Erase(events)), ApplyMessages)
  {
    EraseKeepsTable(db.chats, db.messages, events, ApplyChats);
    EraseKeepsTable(db.messages, db.messages, events, ApplyMessages);
  }

  lemma EraseKeepsPolls(db: Db, events: seq<Timed>, hash: string -> string)
    ensures Fold(db.polls, RunLog(db.messages, events), ApplyPolls) ==
            Fold(db.polls, RunLog(db.messages, Erase(events)), ApplyPolls)
    ensures Fold(db.ballots, RunLog(db.messages, events), BallotStep(hash)) ==
            Fold(db.ballots, RunLog(db.messages, Erase(events)), BallotStep(hash))
  {
    EraseKeepsTable(db.polls, db.messages, events, ApplyPolls);
    EraseKeepsTable(db.ballots, db.messages, events, BallotStep(hash));
  }

  /**
   Erasing every reaction and every poll vote from a run, those inside a history sync included, leaves
   chats, messages and polls as they are.
   */
  lemma ReactionsDoNotInterfere(db: Db, events: seq<Timed>, hash: string -> string)
    ensures var full, erased := Run(db, events, hash), Run(db, Erase(events), hash);
            && full.chats == erased.chats && full.messages == erased.messages
            && full.polls == erased.polls && full.ballots == erased.ballots
  {
    RunIsReplay(db, events, hash);
    RunIsReplay(db, Erase(events), hash);
    EraseKeepsChats(db, events);
    EraseKeepsPolls(db, events, hash);
    SameTables(db, RunLog(db.messages, events), RunLog(db.messages, Erase(events)), hash);
  }

  lemma SameTables(db: Db, a: Log, b: Log, hash: string -> string)
    requires Fold(db.chats, a, ApplyChats) == Fold(db.chats, b, ApplyChats)
    requires Fold(db.messages, a, ApplyMessages) == Fold(db.messages, b, ApplyMessages)
    requires Fold(db.polls, a, ApplyPolls) == Fold(db.polls, b, ApplyPolls)
    requires Fold(db.ballots, a, BallotStep(hash)) == Fold(db.ballots, b, BallotStep(hash))
    ensures var x, y := Replay(db, a, hash), Replay(db, b, hash);
            x.chats == y.chats && x.messages == y.messages && x.polls == y.polls && x.ballots == y.ballots
  {
  }
}
