/**
 What a history sync leaves in the tables besides its messages: each of its conversations, messages and
 reactions in turn, compared with the same sync without it.
 */
module HistoryAnswers {
  import opened CacheTables
  import opened Events
  import opened MessageRows
  import opened EventAnswers
  import opened MessageAnswers

  function ChatOf(c: Conversation): string {
    Address(c.chat.user, c.chat.device, c.chat.server)
  }

  /** The sync of some conversations and one more that holds these messages. */
  function SyncOf(cs: seq<Conversation>, c: Conversation, ws: seq<WebMessage>): Event {
    HistorySync(cs + [c.(messages := ws)])
  }

  predicate IsSkipped(w: WebMessage) {
    w.key.None? || w.key.value.id == "" || w.msg.None?
  }

  // ----- one more write, one more message -----

  lemma ChatRowIsIgnored<T(!new)>(t: T, log: Log, c: Chat, now: int, step: (T, Write, int) -> T)
    requires Ignores(step, PutChat(c))
    ensures Fold(t, log + One(PutChat(c), now), step) == Fold(t, log, step)
  {
    FoldJoin(t, log, One(PutChat(c), now), step);
    FoldOne(Fold(t, log, step), Entry(PutChat(c), now), step);
  }

  ghost predicate IgnoresChats<T(!new)>(step: (T, Write, int) -> T) {
    forall c :: Ignores(step, PutChat(c))
  }

  function SyncWrites(cs: seq<Conversation>, c: Conversation, ws: seq<WebMessage>, now: int): Log {
    HistoryLog(cs, now) + HistoryMessages(c.chat.ToString(), ws, now)
  }

  lemma NextConversationLog(cs: seq<Conversation>, c: Conversation, now: int)
    ensures HistoryLog(cs + [c], now) == HistoryLog(cs, now) + ConversationLog(c, now)
  {
    assert (cs + [c])[..|cs|] == cs;
  }

  /** A table that holds no chats sees the messages only. */
  lemma SyncTable<T(!new)>(t: T, cs: seq<Conversation>, c: Conversation, ws: seq<WebMessage>, now: int,
                           step: (T, Write, int) -> T)
    requires IgnoresChats(step)
    ensures Fold(t, EventLog(map[], SyncOf(cs, c, ws), now), step) == Fold(t, SyncWrites(cs, c, ws, now), step)
  {
    var d := c.(messages := ws);
    var messages := HistoryMessages(c.chat.ToString(), ws, now);
    var row := ConversationLog(d, now)[|messages|..];
    NextConversationLog(cs, d, now);
    assert ConversationLog(d, now) == messages + row;
    Regroup(HistoryLog(cs, now), messages, row);
    ChatRowIsIgnored(t, SyncWrites(cs, c, ws, now), row[0].write.chat, now, step);
  }

  /** One more message is handled on top of what is there without it. */
  lemma NextMessageFolds<T(!new)>(t: T, cs: seq<Conversation>, c: Conversation, ws: seq<WebMessage>, w: WebMessage,
                                  now: int, step: (T, Write, int) -> T)
    requires IgnoresChats(step)
    ensures Fold(t, EventLog(map[], SyncOf(cs, c, ws + [w]), now), step) ==
            Fold(Fold(t, EventLog(map[], SyncOf(cs, c, ws), now), step),
                 HistoryMessage(c.chat.ToString(), w, now), step)
  {
    var chat := c.chat.ToString();
    SyncTable(t, cs, c, ws, now, step);
    SyncTable(t, cs, c, ws + [w], now, step);
    assert (ws + [w])[..|ws|] == ws;
    Regroup(HistoryLog(cs, now), HistoryMessages(chat, ws, now), HistoryMessage(chat, w, now));
    FoldJoin(t, SyncWrites(cs, c, ws, now), HistoryMessage(chat, w, now), step);
  }

  // ----- conversations -----

  /** The second of the newest message, 0 when there is none. */
  ghost predicate IsNewest(seconds: int, ws: seq<WebMessage>) {
    if ws == [] then seconds == 0
    else (exists w :: w in ws && w.seconds == seconds) && forall w :: w in ws ==> w.seconds <= seconds
  }

  lemma {:induction false} LatestIsNewest(ws: seq<WebMessage>)
    ensures Latest(ws).Zero? <==> ws == []
    ensures ws != [] ==> exists w :: w in ws && Latest(ws).ms == w.seconds * 1000
    ensures forall w :: w in ws ==> w.seconds * 1000 <= Latest(ws).ms
  {
    if ws != [] {
      var front, last := ws[..|ws| - 1], ws[|ws| - 1];
      LatestIsNewest(front);
      assert ws == front + [last];
      if Latest(ws) == Latest(front) {
        var w :| w in front && Latest(front).ms == w.seconds * 1000;
        assert w in ws;
      } else {
        assert last in ws;
      }
    }
  }

  lemma NewestSecond(ws: seq<WebMessage>)
    ensures IsNewest(Seconds(Latest(ws)), ws)
  {
    LatestIsNewest(ws);
    if ws != [] {
      var w :| w in ws && Latest(ws).ms == w.seconds * 1000;
      forall v | v in ws ensures v.seconds <= w.seconds {
        assert v.seconds * 1000 <= w.seconds * 1000;
      }
    }
  }

  lemma {:induction false} MessagesTouch(chat: string, ws: seq<WebMessage>, now: int)
    ensures AllIgnored(ApplyChats, HistoryMessages(chat, ws, now))
  {
    if ws != [] {
      MessagesTouch(chat, ws[..|ws| - 1], now);
      MessageTouches(chat, ws[|ws| - 1], now);
    }
  }

  lemma {:induction false} ReactionsTouch(chat: string, target: string, fallback: Time, rs: seq<WebReaction>, now: int)
    ensures forall e :: e in HistoryReactions(chat, target, fallback, rs, now) ==>
                          e.write.PutReaction? || e.write.DropReaction?
  {
    if rs != [] {
      ReactionsTouch(chat, target, fallback, rs[..|rs| - 1], now);
    }
  }

  lemma IgnoredJoin<T(!new)>(step: (T, Write, int) -> T, a: Log, b: Log)
    requires AllIgnored(step, a) && AllIgnored(step, b)
    ensures AllIgnored(step, a + b)
  {
  }

  lemma ReactionsTouchNoChats(chat: string, target: string, fallback: Time, rs: seq<WebReaction>, now: int)
    ensures AllIgnored(ApplyChats, HistoryReactions(chat, target, fallback, rs, now))
  {
    ReactionsTouch(chat, target, fallback, rs, now);
  }

  lemma RowTouches(chat: string, sender: string, w: WebMessage, key: WebKey, m: Envelope, now: int)
    ensures AllIgnored(ApplyChats, HistoryRow(chat, sender, w, key, m, now))
  {
  }

  lemma MessageTouches(chat: string, w: WebMessage, now: int)
    ensures AllIgnored(ApplyChats, HistoryMessage(chat, w, now))
  {
    if !IsSkipped(w) {
      var key, time := w.key.value, At(w.seconds * 1000);
      var sender := if !key.fromMe && key.participant != "" then Participant(key) else chat;
      var head := HistoryRow(chat, sender, w, key, w.msg.value, now);
      var reactions := HistoryReactions(chat, key.id, time, w.reactions, now);
      RowTouches(chat, sender, w, key, w.msg.value, now);
      ReactionsTouchNoChats(chat, key.id, time, w.reactions, now);
      IgnoredJoin(ApplyChats, head, reactions);
    }
  }

  /**
   One more conversation makes its chat known by its name, its unread count and the second of its newest
   message.
   */
  lemma ConversationIsKnown(db: Db, cs: seq<Conversation>, c: Conversation, now: int, hash: string -> string)
    requires c.chat.server != ""
    ensures var chats := Handled(db, HistorySync(cs), now, hash).chats;
            var chats' := Handled(db, HistorySync(cs + [c]), now, hash).chats;
            exists newest ::
              && IsNewest(newest, c.messages)
              && ChatKnown(chats, chats', ChatOf(c), if c.name != "" then c.name else c.displayName,
                           c.chat.server == "g.us", "", newest, c.unread, now)
  {
    var before := Handled(db, HistorySync(cs), now, hash);
    var messages := HistoryMessages(c.chat.ToString(), c.messages, now);
    var row := ConversationLog(c, now)[|messages|..];
    NextConversationLog(cs, c, now);
    assert ConversationLog(c, now) == messages + row;
    FoldJoin(db.chats, HistoryLog(cs, now), messages + row, ApplyChats);
    FoldJoin(before.chats, messages, row, ApplyChats);
    MessagesTouch(c.chat.ToString(), c.messages, now);
    NothingMatters(before.chats, messages, ApplyChats);
    AddressIs(c.chat);
    NewestSecond(c.messages);
    FoldOne(before.chats, row[0], ApplyChats);
    PutChatKnows(before, row[0].write.chat, now, hash);
  }

  // ----- ballots -----

  /** The sender named in the key, or else the chat. */
  function SenderIn(chat: string, key: WebKey): string {
    if key.fromMe || key.participant == "" then chat
    else if key.parsed.Some? then Address(key.parsed.value.user, "", key.parsed.value.server)
    else key.participant
  }

  lemma ReactionsKeepPolls(polls: map<Pair, PollRow>, ballots: map<Pair, seq<PollOption>>, chat: string,
                           target: string, fallback: Time, rs: seq<WebReaction>, now: int, hash: string -> string)
    ensures Fold(polls, HistoryReactions(chat, target, fallback, rs, now), ApplyPolls) == polls
    ensures Fold(ballots, HistoryReactions(chat, target, fallback, rs, now), BallotStep(hash)) == ballots
  {
    ReactionsTouch(chat, target, fallback, rs, now);
    NothingMatters(polls, HistoryReactions(chat, target, fallback, rs, now), ApplyPolls);
    NothingMatters(ballots, HistoryReactions(chat, target, fallback, rs, now), BallotStep(hash));
  }

  lemma SenderIs(chat: string, key: WebKey)
    ensures (if !key.fromMe && key.participant != "" then Participant(key) else chat) == SenderIn(chat, key)
  {
    if key.parsed.Some? {
      AddressIs(key.parsed.value);
    }
  }

  lemma RowThenPoll(db: Db, row: Log, poll: Log, now: int, hash: string -> string)
    requires row == [] || (|row| == 1 && row[0].write.AddMessage?)
    ensures var db', polled := Replay(db, row + poll, hash), Replay(db, poll, hash);
            && db'.polls == polled.polls && db'.ballots == polled.ballots
  {
    ReplayJoin(db, row, poll, hash);
    if row != [] {
      assert row == [row[0]];
      ReplayOne(db, row[0], hash);
    } else {
      assert row + poll == poll;
    }
  }

  /** What one message of a sync does to the polls. */
  ghost predicate PollSynced(db: Db, db': Db, chat: string, w: WebMessage, now: int, hash: string -> string) {
    if IsSkipped(w) || w.msg.value.poll.None? then db'.polls == db.polls && db'.ballots == db.ballots
    else
      PollKnown(db, db', (chat, w.key.value.id), w.msg.value.poll.value, SenderIn(chat, w.key.value),
                w.key.value.fromMe, w.seconds, now, hash)
  }

  lemma RowKeepsPolls(db: Db, chat: string, w: WebMessage, now: int, hash: string -> string)
    requires chat != "" && !IsSkipped(w)
    ensures var row := HistoryRow(chat, SenderIn(chat, w.key.value), w, w.key.value, w.msg.value, now);
            PollSynced(db, Replay(db, row, hash), chat, w, now, hash)
  {
    var key, m, time := w.key.value, w.msg.value, At(w.seconds * 1000);
    var sender := SenderIn(chat, key);
    var poll := PollLog(chat, sender, key.id, time, key.fromMe, m, now);
    var both := HistoryRow(chat, sender, w, key, m, now);
    var row := both[..|both| - |poll|];
    assert both == row + poll;
    RowThenPoll(db, row, poll, now, hash);
    PollApplies(db, chat, sender, key.id, time, key.fromMe, m, now, hash);
  }

  lemma MessageKeepsPolls(db: Db, chat: string, w: WebMessage, now: int, hash: string -> string)
    requires chat != ""
    ensures PollSynced(db, Replay(db, HistoryMessage(chat, w, now), hash), chat, w, now, hash)
  {
    if !IsSkipped(w) {
      var key, time := w.key.value, At(w.seconds * 1000);
      SenderIs(chat, key);
      var row := HistoryRow(chat, SenderIn(chat, key), w, key, w.msg.value, now);
      RowKeepsPolls(db, chat, w, now, hash);
      var db1 := Replay(db, row, hash);
      ReplayJoin(db, row, HistoryReactions(chat, key.id, time, w.reactions, now), hash);
      ReactionsKeepPolls(db1.polls, db1.ballots, chat, key.id, time, w.reactions, now, hash);
    }
  }

  /** One more message adds the ballot it carries and changes no other poll. */
  lemma PollIsKnown(db: Db, cs: seq<Conversation>, c: Conversation, ws: seq<WebMessage>, w: WebMessage, now: int,
                    hash: string -> string)
    requires c.chat.server != ""
    ensures PollSynced(Handled(db, SyncOf(cs, c, ws), now, hash), Handled(db, SyncOf(cs, c, ws + [w]), now, hash),
                       ChatOf(c), w, now, hash)
  {
    var before := Handled(db, SyncOf(cs, c, ws), now, hash);
    AddressIs(c.chat);
    NextMessageFolds(db.polls, cs, c, ws, w, now, ApplyPolls);
    NextMessageFolds(db.ballots, cs, c, ws, w, now, BallotStep(hash));
    MessageKeepsPolls(before, ChatOf(c), w, now, hash);
  }

  // ----- reactions -----

  /** Who reacted: nobody named is this device or, in a direct chat, the other side. */
  function ReactorIn(chat: string, key: WebKey): string {
    if key.fromMe then ""
    else if key.participant == "" then chat
    else if key.parsed.Some? then Address(key.parsed.value.user, "", key.parsed.value.server)
    else key.participant
  }

  lemma RowKeepsReactions(t: map<Triple, ReactionRow>, chat: string, sender: string, w: WebMessage, key: WebKey,
                          m: Envelope, now: int)
    ensures Fold(t, HistoryRow(chat, sender, w, key, m, now), ApplyReactions) == t
  {
    NothingMatters(t, HistoryRow(chat, sender, w, key, m, now), ApplyReactions);
  }

  /** Of a message's writes the reactions see theirs only. */
  lemma ReactionsFold(t: map<Triple, ReactionRow>, chat: string, w: WebMessage, now: int)
    requires !IsSkipped(w)
    ensures Fold(t, HistoryMessage(chat, w, now), ApplyReactions) ==
            Fold(t, HistoryReactions(chat, w.key.value.id, At(w.seconds * 1000), w.reactions, now), ApplyReactions)
  {
    var key := w.key.value;
    var sender := if !key.fromMe && key.participant != "" then Participant(key) else chat;
    var head := HistoryRow(chat, sender, w, key, w.msg.value, now);
    var reactions := HistoryReactions(chat, key.id, At(w.seconds * 1000), w.reactions, now);
    RowKeepsReactions(t, chat, sender, w, key, w.msg.value, now);
    assert HistoryMessage(chat, w, now) == head + reactions;
    FoldJoin(t, head, reactions, ApplyReactions);
  }

  /** One more reaction comes on top of those before it. */
  lemma NextReactionFolds(t: map<Triple, ReactionRow>, chat: string, w: WebMessage, rs: seq<WebReaction>,
                          r: WebReaction, now: int)
    requires !IsSkipped(w)
    ensures Fold(t, HistoryMessage(chat, w.(reactions := rs + [r]), now), ApplyReactions) ==
            Fold(Fold(t, HistoryMessage(chat, w.(reactions := rs), now), ApplyReactions),
                 HistoryReaction(chat, w.key.value.id, At(w.seconds * 1000), r, now), ApplyReactions)
  {
    var id, time := w.key.value.id, At(w.seconds * 1000);
    ReactionsFold(t, chat, w.(reactions := rs), now);
    ReactionsFold(t, chat, w.(reactions := rs + [r]), now);
    ReactionsNext(chat, id, time, rs, r, now);
    FoldJoin(t, HistoryReactions(chat, id, time, rs, now), HistoryReaction(chat, id, time, r, now), ApplyReactions);
  }

  lemma ReactionsNext(chat: string, id: string, time: Time, rs: seq<WebReaction>, r: WebReaction, now: int)
    ensures HistoryReactions(chat, id, time, rs + [r], now) ==
            HistoryReactions(chat, id, time, rs, now) + HistoryReaction(chat, id, time, r, now)
  {
    assert (rs + [r])[..|rs|] == rs;
  }

  ghost predicate ReactionSynced(t: map<Triple, ReactionRow>, t': map<Triple, ReactionRow>, chat: string, w: WebMessage,
                                 r: WebReaction)
  {
    if IsSkipped(w) || r.key.None? then t' == t
    else
      Reacted(t, t', (chat, w.key.value.id, ReactorIn(chat, r.key.value)), r.text,
              if r.senderMs > 0 then r.senderMs / 1000 else w.seconds, r.key.value.fromMe)
  }

  lemma ReactionFolds(t: map<Triple, ReactionRow>, chat: string, w: WebMessage, r: WebReaction, now: int)
    requires chat != "" && !IsSkipped(w)
    ensures var one := HistoryReaction(chat, w.key.value.id, At(w.seconds * 1000), r, now);
            ReactionSynced(t, Fold(t, one, ApplyReactions), chat, w, r)
  {
    if r.key.Some? {
      var key := r.key.value;
      if key.parsed.Some? {
        AddressIs(key.parsed.value);
      }
      var sender := if key.participant != "" then Participant(key) else if key.fromMe then "" else chat;
      ReactionApplies(t, Reaction(chat, w.key.value.id, sender, r.text, SenderMsOr(r.senderMs, At(w.seconds * 1000)),
                                  key.fromMe), now);
    }
  }

  lemma ReactionOnTop(t: map<Triple, ReactionRow>, chat: string, w: WebMessage, rs: seq<WebReaction>, r: WebReaction,
                      now: int)
    requires chat != ""
    ensures ReactionSynced(Fold(t, HistoryMessage(chat, w.(reactions := rs), now), ApplyReactions),
                           Fold(t, HistoryMessage(chat, w.(reactions := rs + [r]), now), ApplyReactions), chat, w, r)
  {
    if !IsSkipped(w) {
      NextReactionFolds(t, chat, w, rs, r, now);
      ReactionFolds(Fold(t, HistoryMessage(chat, w.(reactions := rs), now), ApplyReactions), chat, w, r, now);
    }
  }

  /** One more reaction of a message is filed under its chat, id and reactor, and changes no other. */
  lemma ReactionIsKnown(db: Db, cs: seq<Conversation>, c: Conversation, ws: seq<WebMessage>, w: WebMessage,
                        rs: seq<WebReaction>, r: WebReaction, now: int, hash: string -> string)
    requires c.chat.server != ""
    ensures ReactionSynced(Handled(db, SyncOf(cs, c, ws + [w.(reactions := rs)]), now, hash).reactions,
                           Handled(db, SyncOf(cs, c, ws + [w.(reactions := rs + [r])]), now, hash).reactions,
                           ChatOf(c), w, r)
  {
    var base := Fold(db.reactions, EventLog(map[], SyncOf(cs, c, ws), now), ApplyReactions);
    AddressIs(c.chat);
    NextMessageFolds(db.reactions, cs, c, ws, w.(reactions := rs), now, ApplyReactions);
    NextMessageFolds(db.reactions, cs, c, ws, w.(reactions := rs + [r]), now, ApplyReactions);
    ReactionOnTop(base, ChatOf(c), w, rs, r, now);
  }

  // ----- nothing else -----

  lemma QuietMessageFolds(t: map<Triple, ReactionRow>, chat: string, w: WebMessage, now: int)
    requires w.reactions == []
    ensures Fold(t, HistoryMessage(chat, w, now), ApplyReactions) == t
  {
    if !IsSkipped(w) {
      ReactionsFold(t, chat, w, now);
    }
  }

  /** A message without reactions changes none, and neither does a conversation without messages. */
  lemma QuietMessage(db: Db, cs: seq<Conversation>, c: Conversation, ws: seq<WebMessage>, w: WebMessage, now: int,
                     hash: string -> string)
    requires w.reactions == []
    ensures Handled(db, SyncOf(cs, c, ws + [w]), now, hash).reactions ==
            Handled(db, SyncOf(cs, c, ws), now, hash).reactions
    ensures Handled(db, SyncOf(cs, c, []), now, hash).reactions == Handled(db, HistorySync(cs), now, hash).reactions
    ensures Handled(db, HistorySync([]), now, hash) == db
  {
    NextMessageFolds(db.reactions, cs, c, ws, w, now, ApplyReactions);
    QuietMessageFolds(Fold(db.reactions, EventLog(map[], SyncOf(cs, c, ws), now), ApplyReactions), c.chat.ToString(), w,
                      now);
    SyncTable(db.reactions, cs, c, [], now, ApplyReactions);
    assert SyncWrites(cs, c, [], now) == HistoryLog(cs, now);
  }

  lemma EmptyRowFolds(t: map<Pair, MessageRow>, chat: string, w: WebMessage, now: int)
    requires IsSkipped(w) || IsKind(w.msg.value, Other)
    ensures Fold(t, HistoryMessage(chat, w, now), ApplyMessages) == t
  {
    if !IsSkipped(w) {
      var key, m, time := w.key.value, w.msg.value, At(w.seconds * 1000);
      var sender := if !key.fromMe && key.participant != "" then Participant(key) else chat;
      var poll := HistoryRow(chat, sender, w, key, m, now);
      var reactions := HistoryReactions(chat, key.id, time, w.reactions, now);
      EmptyRow(t, chat, sender, w, key, m, now);
      ReactionsTouch(chat, key.id, time, w.reactions, now);
      FoldJoin(t, poll, reactions, ApplyMessages);
      NothingMatters(t, reactions, ApplyMessages);
    }
  }

  lemma EmptyRow(t: map<Pair, MessageRow>, chat: string, sender: string, w: WebMessage, key: WebKey, m: Envelope,
                 now: int)
    requires IsKind(m, Other)
    ensures Fold(t, HistoryRow(chat, sender, w, key, m, now), ApplyMessages) == t
  {
    var time := At(w.seconds * 1000);
    var poll := HistoryRow(chat, sender, w, key, m, now);
    RowIs(chat, sender, key.id, w.pushName, time, key.fromMe, m);
    assert poll == [] + PollLog(chat, sender, key.id, time, key.fromMe, m, now);
    NothingMatters(t, poll, ApplyMessages);
  }

  /** A message without a key, an id or something to show stores no row. */
  lemma EmptyHistoryMessage(db: Db, cs: seq<Conversation>, c: Conversation, ws: seq<WebMessage>, w: WebMessage,
                            now: int, hash: string -> string)
    requires IsSkipped(w) || IsKind(w.msg.value, Other)
    ensures Handled(db, SyncOf(cs, c, ws + [w]), now, hash).messages ==
            Handled(db, SyncOf(cs, c, ws), now, hash).messages
  {
    NextMessageFolds(db.messages, cs, c, ws, w, now, ApplyMessages);
    EmptyRowFolds(Fold(db.messages, EventLog(map[], SyncOf(cs, c, ws), now), ApplyMessages), c.chat.ToString(), w, now);
  }
}
