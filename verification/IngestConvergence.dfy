/** Reactions and poll votes converge under reordering and repetition of events; removals do not. */
module IngestConvergence {
  import opened Wrappers
  import opened CacheTables
  import opened Events
  import opened IngestRuns
  import opened IngestErasure
  import Lww = LastWriterWins

  const REACTION_TIME := (r: ReactionRow) => r.ts
  const VOTE_TIME := (r: VoteRow) => r.ts

  function ReactionItem(w: Write): seq<(Triple, ReactionRow)> {
    if w.PutReaction? && Storable(w.reaction) then [(ReactionKey(w.reaction), ReactionValue(w.reaction))] else []
  }

  function VoteItem(w: Write): seq<(Triple, VoteRow)> {
    if w.PutVote? && Countable(w.vote) then
      [(VoteKey(w.vote), VoteRow(w.vote.selected, UnixSeconds(w.vote.time)))]
    else []
  }

  function ReactionItems(log: Log): seq<(Triple, ReactionRow)> {
    if log == [] then [] else ReactionItem(log[0].write) + ReactionItems(log[1..])
  }

  function VoteItems(log: Log): seq<(Triple, VoteRow)> {
    if log == [] then [] else VoteItem(log[0].write) + VoteItems(log[1..])
  }

  ghost predicate AddOnly(log: Log) {
    forall e :: e in log ==> !e.write.DropReaction?
  }

  /** Without removals the reactions table is a last-writer-wins table. */
  lemma {:induction false} ReactionsAreLww(t: map<Triple, ReactionRow>, log: Log)
    requires AddOnly(log)
    ensures Fold(t, log, ApplyReactions) == Lww.Fold(t, ReactionItems(log), REACTION_TIME)
    decreases |log|
  {
    if log != [] {
      assert log[0] in log;
      var next := ApplyReactions(t, log[0].write, log[0].now);
      ReactionsAreLww(next, log[1..]);
      var item := ReactionItem(log[0].write);
      Lww.FoldJoin(t, item, ReactionItems(log[1..]), REACTION_TIME);
      if item != [] {
        assert item[1..] == [];
      }
    }
  }

  lemma {:induction false} VotesAreLww(t: map<Triple, VoteRow>, log: Log)
    ensures Fold(t, log, ApplyVotes) == Lww.Fold(t, VoteItems(log), VOTE_TIME)
    decreases |log|
  {
    if log != [] {
      var next := ApplyVotes(t, log[0].write, log[0].now);
      VotesAreLww(next, log[1..]);
      var item := VoteItem(log[0].write);
      Lww.FoldJoin(t, item, VoteItems(log[1..]), VOTE_TIME);
      if item != [] {
        assert item[1..] == [];
      }
    }
  }

  /** The log makes this write, at whatever second. */
  ghost predicate Makes(log: Log, w: Write) {
    exists e :: e in log && e.write == w
  }

  lemma MakesFirst(log: Log, w: Write)
    requires log != []
    ensures Makes(log, w) <==> w == log[0].write || Makes(log[1..], w)
  {
    assert forall e :: e in log <==> e == log[0] || e in log[1..];
    assert log[0] in log;
  }

  lemma {:induction false} ReactionItemsFrom(log: Log, x: (Triple, ReactionRow))
    ensures x in ReactionItems(log) <==> exists w :: Makes(log, w) && x in ReactionItem(w)
  {
    if log != [] {
      ReactionItemsFrom(log[1..], x);
      forall w ensures Makes(log, w) <==> w == log[0].write || Makes(log[1..], w) {
        MakesFirst(log, w);
      }
    }
  }

  lemma {:induction false} VoteItemsFrom(log: Log, x: (Triple, VoteRow))
    ensures x in VoteItems(log) <==> exists w :: Makes(log, w) && x in VoteItem(w)
  {
    if log != [] {
      VoteItemsFrom(log[1..], x);
      forall w ensures Makes(log, w) <==> w == log[0].write || Makes(log[1..], w) {
        MakesFirst(log, w);
      }
    }
  }

  /** A write that stores a reaction or a vote. */
  predicate Settles(w: Write) {
    w.PutReaction? || w.PutVote?
  }

  /** Logs that make the same reactions and votes, in any order, any number and at any second, give the same tables. */
  lemma LogsConverge(db: Db, a: Log, b: Log, hash: string -> string)
    requires AddOnly(a) && AddOnly(b) && forall w :: Settles(w) ==> (Makes(a, w) <==> Makes(b, w))
    requires Lww.Consistent(db.reactions, ReactionItems(a), REACTION_TIME)
    requires Lww.Consistent(db.votes, VoteItems(a), VOTE_TIME)
    ensures Replay(db, a, hash).reactions == Replay(db, b, hash).reactions
    ensures Replay(db, a, hash).votes == Replay(db, b, hash).votes
  {
    ReactionsAreLww(db.reactions, a);
    ReactionsAreLww(db.reactions, b);
    forall x ensures x in ReactionItems(a) <==> x in ReactionItems(b) {
      ReactionItemsFrom(a, x);
      ReactionItemsFrom(b, x);
    }
    Lww.Converges(db.reactions, ReactionItems(a), ReactionItems(b), REACTION_TIME);
    VotesAreLww(db.votes, a);
    VotesAreLww(db.votes, b);
    forall x ensures x in VoteItems(a) <==> x in VoteItems(b) {
      VoteItemsFrom(a, x);
      VoteItemsFrom(b, x);
    }
    Lww.Converges(db.votes, VoteItems(a), VoteItems(b), VOTE_TIME);
  }

  // ----- streams of events -----

  predicate IsRemoval(evt: Event) {
    evt.MessageEvent? && evt.msg.Some? && evt.msg.value.reaction.Some? && evt.msg.value.reaction.value.text == ""
  }

  lemma SideLogIgnoresMessages(m: map<Pair, MessageRow>, n: map<Pair, MessageRow>, evt: Event, now: int)
    requires IsReactionOrVote(evt)
    ensures EventLog(m, evt, now) == EventLog(n, evt, now)
    ensures !IsRemoval(evt) ==> AddOnly(EventLog(m, evt, now))
  {
  }

  /** The event says when it happened, so that the second it is handled at becomes no row's time. */
  predicate CarriesTime(evt: Event)
    requires IsReactionOrVote(evt)
  {
    || evt.info.time != Zero
    || if evt.msg.value.reaction.Some? then evt.msg.value.reaction.value.senderMs > 0
       else evt.msg.value.pollUpdate.value.senderMs > 0
  }

  lemma HandlingTimeIsIrrelevant(evt: Event, m: int, n: int, w: Write)
    requires IsReactionOrVote(evt) && CarriesTime(evt)
    ensures Makes(EventLog(map[], evt, m), w) ==> Makes(EventLog(map[], evt, n), w)
  {
    var a, b := EventLog(map[], evt, m), EventLog(map[], evt, n);
    SameWrites(evt, m, n);
    if Makes(a, w) {
      var i :| 0 <= i < |a| && a[i].write == w;
      assert b[i] in b;
    }
  }

  ghost predicate Alike(a: Log, b: Log) {
    |a| == |b| && forall i :: 0 <= i < |a| ==> a[i].write == b[i].write
  }

  lemma AlikeJoin(a: Log, b: Log, c: Log, d: Log)
    requires Alike(a, b) && Alike(c, d)
    ensures Alike(a + c, b + d)
  {
  }

  lemma IdentityWrites(info: Info, name: string, m: int, n: int)
    ensures var sender := info.sender.ToNonAD().ToString();
            Alike((if info.isFromMe then [] else ContactLog(Contact(sender, info.pushName, name, "", ""), m))
                  + AliasLog(info.sender, info.senderAlt, m),
                  (if info.isFromMe then [] else ContactLog(Contact(sender, info.pushName, name, "", ""), n))
                  + AliasLog(info.sender, info.senderAlt, n))
  {
    var sender := info.sender.ToNonAD().ToString();
    AlikeJoin(if info.isFromMe then [] else ContactLog(Contact(sender, info.pushName, name, "", ""), m),
              if info.isFromMe then [] else ContactLog(Contact(sender, info.pushName, name, "", ""), n),
              AliasLog(info.sender, info.senderAlt, m), AliasLog(info.sender, info.senderAlt, n));
  }

  lemma LiveReactionWrites(info: Info, r: ReactionPart, f: Time, g: Time, m: int, n: int)
    requires r.senderMs > 0 || f == g
    ensures Alike(LiveReactionLog(info, r, f, m), LiveReactionLog(info, r, g, n))
  {
    if r.key.Some? && r.key.value.id != "" {
      var sender := info.sender.ToNonAD().ToString();
      var chat := if r.key.value.remote != "" then r.key.value.remote else info.chat.ToString();
      var reaction := Reaction(chat, r.key.value.id, sender, r.text, SenderMsOr(r.senderMs, f), info.isFromMe);
      IdentityWrites(info, "", m, n);
      AlikeJoin((if info.isFromMe then [] else ContactLog(Contact(sender, info.pushName, "", "", ""), m))
                + AliasLog(info.sender, info.senderAlt, m),
                (if info.isFromMe then [] else ContactLog(Contact(sender, info.pushName, "", "", ""), n))
                + AliasLog(info.sender, info.senderAlt, n),
                ReactionLog(reaction, m), ReactionLog(reaction, n));
    }
  }

  lemma ReactionEventIs(evt: Event, now: int)
    requires IsReactionOrVote(evt) && evt.msg.value.reaction.Some?
    ensures EventLog(map[], evt, now) ==
            if evt.info.id == "" then []
            else LiveReactionLog(evt.info, evt.msg.value.reaction.value,
                                 if evt.info.time == Zero then At(now * 1000) else evt.info.time, now)
  {
  }

  lemma SameReactionWrites(evt: Event, m: int, n: int)
    requires IsReactionOrVote(evt) && CarriesTime(evt) && evt.msg.value.reaction.Some?
    ensures Alike(EventLog(map[], evt, m), EventLog(map[], evt, n))
  {
    ReactionEventIs(evt, m);
    ReactionEventIs(evt, n);
    var time := evt.info.time;
    LiveReactionWrites(evt.info, evt.msg.value.reaction.value, if time == Zero then At(m * 1000) else time,
                       if time == Zero then At(n * 1000) else time, m, n);
  }

  lemma VoteEventIs(evt: Event, now: int)
    requires IsReactionOrVote(evt) && evt.msg.value.reaction.None?
    ensures EventLog(map[], evt, now) ==
            if evt.info.id == "" then []
            else IdentityLog(evt.info, now) + VoteLog(evt.info, evt.msg.value.pollUpdate.value, now)
  {
  }

  lemma SameVoteWrites(evt: Event, m: int, n: int)
    requires IsReactionOrVote(evt) && CarriesTime(evt) && evt.msg.value.reaction.None?
    ensures Alike(EventLog(map[], evt, m), EventLog(map[], evt, n))
  {
    VoteEventIs(evt, m);
    VoteEventIs(evt, n);
    var update := evt.msg.value.pollUpdate.value;
    IdentityWrites(evt.info, evt.info.verifiedName, m, n);
    AlikeJoin(IdentityLog(evt.info, m), IdentityLog(evt.info, n), VoteLog(evt.info, update, m),
              VoteLog(evt.info, update, n));
  }

  lemma SameWrites(evt: Event, m: int, n: int)
    requires IsReactionOrVote(evt) && CarriesTime(evt)
    ensures Alike(EventLog(map[], evt, m), EventLog(map[], evt, n))
  {
    if evt.msg.value.reaction.Some? {
      SameReactionWrites(evt, m, n);
    } else {
      SameVoteWrites(evt, m, n);
    }
  }

  /** The event stores a reaction or a vote. */
  predicate WritesRow(evt: Event)
    requires IsReactionOrVote(evt)
  {
    && evt.info.id != ""
    && if evt.msg.value.reaction.Some? then
         var r := evt.msg.value.reaction.value;
         r.key.Some? && r.key.value.id != "" && r.text != ""
         && (r.key.value.remote != "" || evt.info.chat.ToString() != "")
       else evt.msg.value.pollUpdate.value.pollId != "" && evt.msg.value.pollUpdate.value.decrypted.Some?
  }

  lemma UntimedRowsDiffer(evt: Event)
    requires IsReactionOrVote(evt) && WritesRow(evt) && !CarriesTime(evt)
    ensures !Alike(EventLog(map[], evt, 0), EventLog(map[], evt, 1))
  {
    var a, b := EventLog(map[], evt, 0), EventLog(map[], evt, 1);
    assert a[|a| - 1].write != b[|b| - 1].write;
  }

  /** What such an event writes is the same at every second exactly when it carries its own time. */
  lemma HandlingTimeMatters(evt: Event)
    requires IsReactionOrVote(evt) && WritesRow(evt)
    ensures (forall m, n :: Alike(EventLog(map[], evt, m), EventLog(map[], evt, n))) <==> CarriesTime(evt)
  {
    if CarriesTime(evt) {
      forall m, n ensures Alike(EventLog(map[], evt, m), EventLog(map[], evt, n)) {
        SameWrites(evt, m, n);
      }
    } else {
      UntimedRowsDiffer(evt);
    }
  }

  // ----- every other event -----

  /**
   Nothing is removed, every reaction or vote carries its time, and no edit event carries one: whether
   that is an edit depends on what is stored.
   */
  ghost predicate Converging(evt: Event) {
    && (IsReactionOrVote(evt) ==> !IsRemoval(evt) && CarriesTime(evt))
    && (evt.MessageEvent? && evt.msg.Some? && evt.isEdit ==>
         evt.msg.value.reaction.None? && evt.msg.value.pollUpdate.None?)
    && (evt.HistorySync? ==> forall c :: c in evt.conversations ==> KeepsReactions(c.messages))
  }

  ghost predicate KeepsReactions(ws: seq<WebMessage>) {
    forall w, r :: w in ws && r in w.reactions ==> r.text != ""
  }

  ghost predicate SettlesNothing(log: Log) {
    forall e :: e in log ==> !Settles(e.write) && !e.write.DropReaction?
  }

  lemma ContentSettlesNothing(info: Info, m: Envelope, time: Time, now: int)
    requires m.reaction.None? && m.pollUpdate.None?
    ensures SettlesNothing(ContentLog(info, m, time, now))
  {
    assert SettlesNothing(IdentityLog(info, now));
    assert SettlesNothing(PollLog(info.chat.ToString(), info.sender.ToNonAD().ToString(), info.id, time,
                                  info.isFromMe, m, now));
  }

  lemma PlainSettlesNothing(messages: map<Pair, MessageRow>, info: Info, m: Envelope, isEdit: bool, now: int)
    requires m.reaction.None? && m.pollUpdate.None?
    ensures SettlesNothing(MessageLog(messages, info, Some(m), isEdit, now))
  {
    ContentSettlesNothing(info, m, match info.time case Zero => At(now * 1000) case t => t, now);
  }

  lemma ProtocolSettlesNothing(messages: map<Pair, MessageRow>, info: Info, m: Envelope, isEdit: bool, now: int)
    requires m.protocol.Some? && m.protocol.value.key.Some? && m.protocol.value.key.value.id != ""
    requires !m.protocol.value.kind.OtherProtocol?
    ensures SettlesNothing(MessageLog(messages, info, Some(m), isEdit, now))
  {
  }

  lemma MessageSettlesNothing(messages: map<Pair, MessageRow>, evt: Event, now: int)
    requires evt.MessageEvent? && Converging(evt) && !IsReactionOrVote(evt)
    ensures SettlesNothing(EventLog(messages, evt, now))
  {
    if evt.msg.Some? {
      var m := evt.msg.value;
      if m.reaction.None? && m.pollUpdate.None? {
        PlainSettlesNothing(messages, evt.info, m, evt.isEdit, now);
      } else {
        ProtocolSettlesNothing(messages, evt.info, m, evt.isEdit, now);
      }
    }
  }

  // ----- history -----

  lemma {:induction false} HistoryReactionsAlike(chat: string, target: string, fallback: Time, rs: seq<WebReaction>,
                                                 m: int, n: int)
    ensures Alike(HistoryReactions(chat, target, fallback, rs, m), HistoryReactions(chat, target, fallback, rs, n))
    ensures (forall r :: r in rs ==> r.text != "") ==> AddOnly(HistoryReactions(chat, target, fallback, rs, m))
  {
    if rs != [] {
      var front, last := rs[..|rs| - 1], rs[|rs| - 1];
      HistoryReactionsAlike(chat, target, fallback, front, m, n);
      AlikeJoin(HistoryReactions(chat, target, fallback, front, m), HistoryReactions(chat, target, fallback, front, n),
                HistoryReaction(chat, target, fallback, last, m), HistoryReaction(chat, target, fallback, last, n));
    }
  }

  lemma HistoryRowsAlike(chat: string, w: WebMessage, m: int, n: int)
    requires w.reactions == []
    ensures Alike(HistoryMessage(chat, w, m), HistoryMessage(chat, w, n)) && AddOnly(HistoryMessage(chat, w, m))
  {
  }

  lemma HistoryMessageAlike(chat: string, w: WebMessage, m: int, n: int)
    ensures Alike(HistoryMessage(chat, w, m), HistoryMessage(chat, w, n))
    ensures (forall r :: r in w.reactions ==> r.text != "") ==> AddOnly(HistoryMessage(chat, w, m))
  {
    if w.key.Some? && w.key.value.id != "" && w.msg.Some? {
      var bare, id, time := w.(reactions := []), w.key.value.id, At(w.seconds * 1000);
      QuietMessageIs(chat, w, m);
      QuietMessageIs(chat, w, n);
      HistoryRowsAlike(chat, bare, m, n);
      HistoryReactionsAlike(chat, id, time, w.reactions, m, n);
      AlikeJoin(HistoryMessage(chat, bare, m), HistoryMessage(chat, bare, n),
                HistoryReactions(chat, id, time, w.reactions, m), HistoryReactions(chat, id, time, w.reactions, n));
    }
  }

  lemma {:induction false} HistoryMessagesAlike(chat: string, ws: seq<WebMessage>, m: int, n: int)
    ensures Alike(HistoryMessages(chat, ws, m), HistoryMessages(chat, ws, n))
    ensures KeepsReactions(ws) ==> AddOnly(HistoryMessages(chat, ws, m))
  {
    if ws != [] {
      var front, last := ws[..|ws| - 1], ws[|ws| - 1];
      HistoryMessagesAlike(chat, front, m, n);
      HistoryMessageAlike(chat, last, m, n);
      AlikeJoin(HistoryMessages(chat, front, m), HistoryMessages(chat, front, n),
                HistoryMessage(chat, last, m), HistoryMessage(chat, last, n));
    }
  }

  lemma {:induction false} HistoryAlike(cs: seq<Conversation>, m: int, n: int)
    ensures Alike(HistoryLog(cs, m), HistoryLog(cs, n))
    ensures (forall c :: c in cs ==> KeepsReactions(c.messages)) ==> AddOnly(HistoryLog(cs, m))
  {
    if cs != [] {
      var front, last := cs[..|cs| - 1], cs[|cs| - 1];
      HistoryAlike(front, m, n);
      HistoryMessagesAlike(last.chat.ToString(), last.messages, m, n);
      assert last in cs;
      AlikeJoin(HistoryLog(front, m), HistoryLog(front, n), ConversationLog(last, m), ConversationLog(last, n));
    }
  }

  // ----- whole runs -----

  lemma AlikeMakes(a: Log, b: Log, w: Write)
    requires Alike(a, b) && Makes(a, w)
    ensures Makes(b, w)
  {
    var i :| 0 <= i < |a| && a[i].write == w;
    assert b[i] in b;
  }

  /** What an event stores of reactions and votes depends neither on the tables nor on the second. */
  lemma EventSettles(messages: map<Pair, MessageRow>, evt: Event, now: int, w: Write)
    requires Converging(evt) && Settles(w)
    ensures AddOnly(EventLog(messages, evt, now))
    ensures Makes(EventLog(messages, evt, now), w) <==> Makes(EventLog(map[], evt, 0), w)
  {
    if IsReactionOrVote(evt) {
      SideLogIgnoresMessages(messages, map[], evt, now);
      SameWrites(evt, now, 0);
      HandlingTimeIsIrrelevant(evt, now, 0, w);
      HandlingTimeIsIrrelevant(evt, 0, now, w);
    } else if evt.MessageEvent? {
      MessageSettlesNothing(messages, evt, now);
      MessageSettlesNothing(map[], evt, 0);
    } else if evt.HistorySync? {
      HistoryAlike(evt.conversations, now, 0);
      HistoryAlike(evt.conversations, 0, now);
      if Makes(EventLog(messages, evt, now), w) {
        AlikeMakes(EventLog(messages, evt, now), EventLog(map[], evt, 0), w);
      }
      if Makes(EventLog(map[], evt, 0), w) {
        AlikeMakes(EventLog(map[], evt, 0), EventLog(messages, evt, now), w);
      }
    } else {
      OtherEventsArePlain(messages, evt, now);
      OtherEventsArePlain(map[], evt, 0);
    }
  }

  ghost predicate Happens(events: seq<Timed>, evt: Event) {
    exists n :: Timed(evt, n) in events
  }

  ghost predicate AllConverging(events: seq<Timed>) {
    forall x :: x in events ==> Converging(x.event)
  }

  lemma MakesJoin(a: Log, b: Log, w: Write)
    ensures Makes(a + b, w) <==> Makes(a, w) || Makes(b, w)
  {
    assert forall e :: e in a + b <==> e in a || e in b;
  }

  lemma HappensFirst(events: seq<Timed>, evt: Event)
    requires events != []
    ensures Happens(events, evt) <==> evt == events[0].event || Happens(events[1..], evt)
  {
    assert forall x :: x in events <==> x == events[0] || x in events[1..];
    assert events[0] == Timed(events[0].event, events[0].now);
  }

  /** The reactions and votes a run stores are those of its events. */
  lemma {:induction false} RunMakes(messages: map<Pair, MessageRow>, events: seq<Timed>, w: Write)
    requires AllConverging(events) && Settles(w)
    ensures AddOnly(RunLog(messages, events))
    ensures Makes(RunLog(messages, events), w) <==>
            exists evt :: Happens(events, evt) && Makes(EventLog(map[], evt, 0), w)
    decreases |events|
  {
    if events != [] {
      var log := EventLog(messages, events[0].event, events[0].now);
      var next := Fold(messages, log, ApplyMessages);
      assert events[0] in events;
      RunMakes(next, events[1..], w);
      EventSettles(messages, events[0].event, events[0].now, w);
      MakesJoin(log, RunLog(next, events[1..]), w);
      forall evt ensures Happens(events, evt) <==> evt == events[0].event || Happens(events[1..], evt) {
        HappensFirst(events, evt);
      }
    }
  }

  /**
   Any two runs over the same events, whatever their order, their repetitions and the seconds they are
   handled at, lead to the same reactions and votes, provided that nothing is removed, every reaction
   and vote carries its time, no edit event carries one, and entries of one key in one second agree.
   */
  lemma StreamsConverge(db: Db, xs: seq<Timed>, ys: seq<Timed>, hash: string -> string)
    requires AllConverging(xs) && forall evt :: Happens(xs, evt) <==> Happens(ys, evt)
    requires Lww.Consistent(db.reactions, ReactionItems(RunLog(db.messages, xs)), REACTION_TIME)
    requires Lww.Consistent(db.votes, VoteItems(RunLog(db.messages, xs)), VOTE_TIME)
    ensures Run(db, xs, hash).reactions == Run(db, ys, hash).reactions
    ensures Run(db, xs, hash).votes == Run(db, ys, hash).votes
  {
    forall y | y in ys ensures Converging(y.event) {
      assert y == Timed(y.event, y.now) && Happens(ys, y.event);
      var n :| Timed(y.event, n) in xs;
    }
    var a, b := RunLog(db.messages, xs), RunLog(db.messages, ys);
    var any := PutVote(PollVote("", "", "", [], Zero));
    RunMakes(db.messages, xs, any);
    RunMakes(db.messages, ys, any);
    forall w | Settles(w) ensures Makes(a, w) <==> Makes(b, w) {
      RunMakes(db.messages, xs, w);
      RunMakes(db.messages, ys, w);
    }
    LogsConverge(db, a, b, hash);
    RunIsReplay(db, xs, hash);
    RunIsReplay(db, ys, hash);
  }

  /** A removal has no time guard: it commutes with a reaction exactly when it removes something else. */
  lemma RemovalOrderMatters(t: map<Triple, ReactionRow>, r: Reaction, chat: string, target: string, sender: string)
    requires Storable(r) && chat != "" && target != ""
    ensures DeleteReaction(UpsertReaction(t, r), chat, target, sender) ==
            UpsertReaction(DeleteReaction(t, chat, target, sender), r)
            <==> ReactionKey(r) != (chat, target, sender)
  {
    var key := (chat, target, sender);
    if ReactionKey(r) == key {
      assert key in UpsertReaction(DeleteReaction(t, chat, target, sender), r);
      assert key !in DeleteReaction(UpsertReaction(t, r), chat, target, sender);
    }
  }

  // ----- the reactions table -----

  /** No stored reaction is empty, and our own are filed under the empty sender only. */
  ghost predicate Proper(reactions: map<Triple, ReactionRow>) {
    forall k :: k in reactions ==> reactions[k].emoji != "" && (reactions[k].isFromMe ==> k.2 == "")
  }

  lemma {:induction false} FoldKeepsProper(t: map<Triple, ReactionRow>, log: Log)
    requires Proper(t)
    ensures Proper(Fold(t, log, ApplyReactions))
    decreases |log|
  {
    if log != [] {
      FoldKeepsProper(ApplyReactions(t, log[0].write, log[0].now), log[1..]);
    }
  }

  lemma ReactionsStayProper(db: Db, events: seq<Timed>, hash: string -> string)
    requires Proper(db.reactions)
    ensures Proper(Run(db, events, hash).reactions)
  {
    RunIsReplay(db, events, hash);
    FoldKeepsProper(db.reactions, RunLog(db.messages, events));
  }
}
