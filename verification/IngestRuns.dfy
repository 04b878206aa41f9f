/** What every run of the ingestor keeps. */
module IngestRuns {
  import opened Wrappers
  import opened GoValues
  import opened CacheTables
  import opened Events

  /** An event and the wall-clock second it is handled at. */
  datatype Timed = Timed(event: Event, now: int)

  /** The tables after handling the events one by one. */
  function Run(db: Db, events: seq<Timed>, hash: string -> string): Db
    decreases |events|
  {
    if events == [] then db
    else Run(Replay(db, EventLog(db.messages, events[0].event, events[0].now), hash), events[1..], hash)
  }

  /** Everything a run writes, in order. */
  function RunLog(messages: map<Pair, MessageRow>, events: seq<Timed>): Log
    decreases |events|
  {
    if events == [] then []
    else
      var log := EventLog(messages, events[0].event, events[0].now);
      log + RunLog(Fold(messages, log, ApplyMessages), events[1..])
  }

  lemma {:induction false} RunIsReplay(db: Db, events: seq<Timed>, hash: string -> string)
    ensures Run(db, events, hash) == Replay(db, RunLog(db.messages, events), hash)
    decreases |events|
  {
    if events != [] {
      var log := EventLog(db.messages, events[0].event, events[0].now);
      var next := Replay(db, log, hash);
      RunIsReplay(next, events[1..], hash);
      ReplayJoin(db, log, RunLog(next.messages, events[1..]), hash);
    }
  }

  // ----- monotonicity -----

  ghost predicate ChatGrows(r: ChatRow, s: ChatRow) {
    r.lastTs <= s.lastTs && (r.name != "" ==> s.name != "")
  }

  ghost predicate ContactGrows(r: ContactRow, s: ContactRow) {
    && (r.pushName != "" ==> s.pushName != "") && (r.businessName != "" ==> s.businessName != "")
    && (r.firstName != "" ==> s.firstName != "") && (r.fullName != "" ==> s.fullName != "")
    && (r.lastSeen != 0 ==> s.lastSeen != 0)
  }

  /** Everything but the body and the edit and delete marks is as first inserted. */
  ghost predicate MessageGrows(r: MessageRow, s: MessageRow) {
    && s == r.(body := s.body, edited := s.edited, editedAt := s.editedAt, deleted := s.deleted,
               deletedAt := s.deletedAt)
    && (r.edited ==> s.edited) && (r.deleted ==> s.deleted)
    && (!s.edited && !s.deleted ==> s.body == r.body)
  }

  ghost predicate PollGrows(r: PollRow, s: PollRow) {
    r.sender != "" ==> s.sender != ""
  }

  ghost predicate VoteGrows(r: VoteRow, s: VoteRow) {
    r.ts <= s.ts
  }

  lemma {:induction false} ChatsGrow(t: map<string, ChatRow>, log: Log, k: string)
    requires k in t
    ensures var t' := Fold(t, log, ApplyChats); k in t' && ChatGrows(t[k], t'[k])
    decreases |log|
  {
    if log != [] {
      var next := ApplyChats(t, log[0].write, log[0].now);
      assert k in next && ChatGrows(t[k], next[k]);
      ChatsGrow(next, log[1..], k);
    }
  }

  lemma {:induction false} ContactsGrow(t: map<string, ContactRow>, log: Log, k: string)
    requires k in t
    ensures var t' := Fold(t, log, ApplyContacts); k in t' && ContactGrows(t[k], t'[k])
    decreases |log|
  {
    if log != [] {
      var next := ApplyContacts(t, log[0].write, log[0].now);
      assert k in next && ContactGrows(t[k], next[k]);
      ContactsGrow(next, log[1..], k);
    }
  }

  lemma {:induction false} MessagesGrow(t: map<Pair, MessageRow>, log: Log, k: Pair)
    requires k in t
    ensures var t' := Fold(t, log, ApplyMessages); k in t' && MessageGrows(t[k], t'[k])
    decreases |log|
  {
    if log != [] {
      var next := ApplyMessages(t, log[0].write, log[0].now);
      assert k in next && MessageGrows(t[k], next[k]);
      MessagesGrow(next, log[1..], k);
    }
  }

  lemma {:induction false} PollsGrow(t: map<Pair, PollRow>, log: Log, k: Pair)
    requires k in t
    ensures var t' := Fold(t, log, ApplyPolls); k in t' && PollGrows(t[k], t'[k])
    decreases |log|
  {
    if log != [] {
      PollsGrow(ApplyPolls(t, log[0].write, log[0].now), log[1..], k);
    }
  }

  lemma {:induction false} VotesGrow(t: map<Triple, VoteRow>, log: Log, k: Triple)
    requires k in t
    ensures var t' := Fold(t, log, ApplyVotes); k in t' && VoteGrows(t[k], t'[k])
    decreases |log|
  {
    if log != [] {
      VotesGrow(ApplyVotes(t, log[0].write, log[0].now), log[1..], k);
    }
  }

  /**
   No sequence of events loses a chat, contact, message, poll or vote row, a known name or last-seen
   time, a message's origin, or an edit or delete mark; last-message times and vote times never go back.
   */
  lemma RunsAreMonotone(db: Db, events: seq<Timed>, hash: string -> string)
    ensures var db' := Run(db, events, hash);
            && (forall k :: k in db.chats ==> k in db'.chats && ChatGrows(db.chats[k], db'.chats[k]))
            && (forall k :: k in db.contacts ==> k in db'.contacts && ContactGrows(db.contacts[k], db'.contacts[k]))
            && (forall k :: k in db.messages ==> k in db'.messages && MessageGrows(db.messages[k], db'.messages[k]))
            && (forall k :: k in db.polls ==> k in db'.polls && PollGrows(db.polls[k], db'.polls[k]))
            && (forall k :: k in db.votes ==> k in db'.votes && VoteGrows(db.votes[k], db'.votes[k]))
  {
    var log, db' := RunLog(db.messages, events), Run(db, events, hash);
    RunIsReplay(db, events, hash);
    forall k | k in db.chats ensures k in db'.chats && ChatGrows(db.chats[k], db'.chats[k]) {
      ChatsGrow(db.chats, log, k);
    }
    forall k | k in db.contacts ensures k in db'.contacts && ContactGrows(db.contacts[k], db'.contacts[k]) {
      ContactsGrow(db.contacts, log, k);
    }
    forall k | k in db.messages ensures k in db'.messages && MessageGrows(db.messages[k], db'.messages[k]) {
      MessagesGrow(db.messages, log, k);
    }
    forall k | k in db.polls ensures k in db'.polls && PollGrows(db.polls[k], db'.polls[k]) {
      PollsGrow(db.polls, log, k);
    }
    forall k | k in db.votes ensures k in db'.votes && VoteGrows(db.votes[k], db'.votes[k]) {
      VotesGrow(db.votes, log, k);
    }
  }

  // ----- the last-message time and the chat type -----

  /** What one write offers as last-message time of a chat; a flag setter offers 0 when it creates the row. */
  function OfferedTime(w: Write, jid: string, present: bool): seq<int> {
    match w
    case PutChat(c) => if c.jid == jid then [UnixSeconds(c.lastMessage)] else []
    case SetPinned(j, _, _) => if j == jid && !present then [0] else []
    case SetArchived(j, _, _) => if j == jid && !present then [0] else []
    case SetUnread(j, _, _) => if j == jid && !present then [0] else []
    case _ => []
  }

  /** Everything a log offers for a chat whose row exists already, or not. */
  function OfferedTimes(log: Log, jid: string, present: bool): seq<int>
    decreases |log|
  {
    if log == [] then []
    else
      var offer := OfferedTime(log[0].write, jid, present);
      offer + OfferedTimes(log[1..], jid, present || offer != [])
  }

  function StoredTime(chats: map<string, ChatRow>, jid: string): seq<int> {
    if jid in chats then [chats[jid].lastTs] else []
  }

  ghost predicate IsMax(m: int, s: seq<int>) {
    m in s && forall x :: x in s ==> x <= m
  }

  lemma OneOffer(chats: map<string, ChatRow>, w: Write, now: int, jid: string)
    requires jid != ""
    ensures var next, offers := ApplyChats(chats, w, now), StoredTime(chats, jid) + OfferedTime(w, jid, jid in chats);
            && (jid in next <==> offers != [])
            && (jid in next ==> IsMax(next[jid].lastTs, offers))
            && (jid in next <==> jid in chats || OfferedTime(w, jid, jid in chats) != [])
  {
  }

  lemma MaxOfJoin(m: int, a: seq<int>, b: seq<int>, c: seq<int>, top: int)
    requires if a + b == [] then IsMax(m, c) else IsMax(top, a + b) && IsMax(m, [top] + c)
    ensures IsMax(m, a + (b + c))
  {
    assert forall x :: x in a + (b + c) <==> x in a + b || x in c;
    assert forall x :: x in [top] + c <==> x == top || x in c;
    if a + b == [] {
      assert a == [] && b == [];
    } else {
      forall x | x in a + (b + c) ensures x <= m {
        assert top in [top] + c;
        assert x in c ==> x in [top] + c;
      }
    }
  }

  /** last_message_ts is the maximum of everything ever offered for the chat. */
  lemma {:induction false} LastTimeIsMaximum(chats: map<string, ChatRow>, log: Log, jid: string)
    requires jid != "" && jid in Fold(chats, log, ApplyChats)
    ensures IsMax(Fold(chats, log, ApplyChats)[jid].lastTs,
                  StoredTime(chats, jid) + OfferedTimes(log, jid, jid in chats))
    decreases |log|
  {
    if log != [] {
      var next := ApplyChats(chats, log[0].write, log[0].now);
      var offer := OfferedTime(log[0].write, jid, jid in chats);
      OneOffer(chats, log[0].write, log[0].now, jid);
      LastTimeIsMaximum(next, log[1..], jid);
      var rest := OfferedTimes(log[1..], jid, jid in next);
      var m := Fold(chats, log, ApplyChats)[jid].lastTs;
      assert jid !in next ==> [] + rest == rest;
      MaxOfJoin(m, StoredTime(chats, jid), offer, rest, if jid in next then next[jid].lastTs else 0);
    }
  }

  /** Only a write that names a chat type changes the type of a known chat. */
  lemma {:induction false} UntypedKeepsType(chats: map<string, ChatRow>, log: Log, jid: string)
    requires jid in chats
    requires forall e :: e in log && e.write.PutChat? && e.write.chat.jid == jid ==> e.write.chat.chatType == ""
    ensures var chats' := Fold(chats, log, ApplyChats); jid in chats' && chats'[jid].chatType == chats[jid].chatType
    decreases |log|
  {
    if log != [] {
      assert log[0] in log;
      UntypedKeepsType(ApplyChats(chats, log[0].write, log[0].now), log[1..], jid);
    }
  }

  // ----- what every write looks like -----

  predicate IsLid(s: string) {
    s == LID_SERVER || HasSuffix(s, "@" + LID_SERVER)
  }

  predicate IsPhone(s: string) {
    s == PHONE_SERVER || HasSuffix(s, "@" + PHONE_SERVER)
  }

  ghost predicate ColumnsApart(aliases: map<Pair, int>) {
    forall k :: k in aliases ==> IsLid(k.0) && IsPhone(k.1)
  }

  lemma LidIsNotPhone(s: string)
    requires IsLid(s)
    ensures !IsPhone(s)
  {
    assert s[|s| - 1] == 'd';
  }

  lemma AddressEnds(j: Jid)
    ensures j.server == LID_SERVER ==> IsLid(j.ToNonAD().ToString())
    ensures j.server == PHONE_SERVER ==> IsPhone(j.ToNonAD().ToString())
  {
    var s := j.ToNonAD().ToString();
    if j.user != "" {
      var tail := "@" + j.server;
      assert s == j.user + tail;
      assert s[|s| - |tail|..] == tail;
    }
  }

  /** Aliases have their LID first, unread counts are not negative, options come without a hash. */
  ghost predicate ProperWrites(log: Log) {
    forall e :: e in log ==>
      && (e.write.PutAlias? ==> IsLid(e.write.lid) && IsPhone(e.write.pn))
      && (e.write.PutChat? ==> e.write.chat.unread >= 0)
      && (e.write.PutPoll? ==> forall o :: o in e.write.poll.options ==> o.hash == "")
  }

  lemma AliasLogProper(a: Jid, b: Jid, now: int)
    ensures ProperWrites(AliasLog(a, b, now))
  {
    AddressEnds(a);
    AddressEnds(b);
  }

  lemma {:induction false} ReactionsProper(chat: string, target: string, fallback: Time, rs: seq<WebReaction>,
                                                  now: int)
    ensures ProperWrites(HistoryReactions(chat, target, fallback, rs, now))
  {
    if rs != [] {
      ReactionsProper(chat, target, fallback, rs[..|rs| - 1], now);
    }
  }

  lemma {:induction false} MessagesProper(chat: string, ws: seq<WebMessage>, now: int)
    ensures ProperWrites(HistoryMessages(chat, ws, now))
  {
    if ws != [] {
      MessagesProper(chat, ws[..|ws| - 1], now);
      var w := ws[|ws| - 1];
      if w.key.Some? {
        ReactionsProper(chat, w.key.value.id, At(w.seconds * 1000), w.reactions, now);
      }
    }
  }

  lemma {:induction false} HistoryProper(cs: seq<Conversation>, now: int)
    ensures ProperWrites(HistoryLog(cs, now))
  {
    if cs != [] {
      HistoryProper(cs[..|cs| - 1], now);
      MessagesProper(cs[|cs| - 1].chat.ToString(), cs[|cs| - 1].messages, now);
    }
  }

  /** Neither an alias, a poll or an unread count, nor a reaction or a vote. */
  ghost predicate PlainWrites(log: Log) {
    forall e :: e in log ==>
      && !e.write.PutAlias? && !e.write.PutPoll? && (e.write.PutChat? ==> e.write.chat.unread == 0)
      && !e.write.PutReaction? && !e.write.DropReaction? && !e.write.PutVote?
  }

  lemma ContactEventsArePlain(messages: map<Pair, MessageRow>, evt: Event, now: int)
    requires evt.ContactEvent? || evt.PushName? || evt.BusinessName? || evt.Presence? || evt.Unknown?
    ensures PlainWrites(EventLog(messages, evt, now))
  {
  }

  lemma FlagEventsArePlain(messages: map<Pair, MessageRow>, evt: Event, now: int)
    requires evt.MarkChatAsRead? || evt.Pin? || evt.Archive? || evt.Star?
    ensures PlainWrites(EventLog(messages, evt, now))
  {
  }

  lemma GroupEventsArePlain(messages: map<Pair, MessageRow>, evt: Event, now: int)
    requires evt.GroupInfo? || evt.JoinedGroup? || evt.NewsletterJoin? || evt.NewsletterLeave?
    ensures PlainWrites(EventLog(messages, evt, now))
  {
  }

  lemma OtherEventsArePlain(messages: map<Pair, MessageRow>, evt: Event, now: int)
    requires !evt.MessageEvent? && !evt.HistorySync?
    ensures PlainWrites(EventLog(messages, evt, now))
  {
    if evt.MarkChatAsRead? || evt.Pin? || evt.Archive? || evt.Star? {
      FlagEventsArePlain(messages, evt, now);
    } else if evt.GroupInfo? || evt.JoinedGroup? || evt.NewsletterJoin? || evt.NewsletterLeave? {
      GroupEventsArePlain(messages, evt, now);
    } else {
      ContactEventsArePlain(messages, evt, now);
    }
  }

  lemma PollLogProper(chat: string, sender: string, id: string, time: Time, fromMe: bool, m: Envelope, now: int)
    ensures ProperWrites(PollLog(chat, sender, id, time, fromMe, m, now))
  {
  }

  lemma IdentityLogProper(info: Info, now: int)
    ensures ProperWrites(IdentityLog(info, now))
  {
    AliasLogProper(info.sender, info.senderAlt, now);
  }

  lemma SideLogProper(info: Info, m: Envelope, time: Time, now: int)
    ensures m.reaction.Some? ==> ProperWrites(LiveReactionLog(info, m.reaction.value, time, now))
    ensures m.pollUpdate.Some? ==> ProperWrites(VoteLog(info, m.pollUpdate.value, now))
  {
    AliasLogProper(info.sender, info.senderAlt, now);
  }

  lemma ContentLogProper(info: Info, m: Envelope, time: Time, now: int)
    ensures ProperWrites(ContentLog(info, m, time, now))
  {
    IdentityLogProper(info, now);
    SideLogProper(info, m, time, now);
    PollLogProper(info.chat.ToString(), info.sender.ToNonAD().ToString(), info.id, time, info.isFromMe, m, now);
  }

  lemma MessageLogProper(messages: map<Pair, MessageRow>, info: Info, msg: Option<Envelope>, isEdit: bool, now: int)
    ensures ProperWrites(MessageLog(messages, info, msg, isEdit, now))
  {
    if msg.Some? {
      ContentLogProper(info, msg.value, match info.time case Zero => At(now * 1000) case t => t, now);
    }
  }

  lemma EventProper(messages: map<Pair, MessageRow>, evt: Event, now: int)
    ensures ProperWrites(EventLog(messages, evt, now))
  {
    match evt {
      case MessageEvent(info, msg, isEdit) => MessageLogProper(messages, info, msg, isEdit, now);
      case HistorySync(cs) => HistoryProper(cs, now);
      case _ => OtherEventsArePlain(messages, evt, now);
    }
  }

  lemma {:induction false} RunProper(messages: map<Pair, MessageRow>, events: seq<Timed>)
    ensures ProperWrites(RunLog(messages, events))
    decreases |events|
  {
    if events != [] {
      EventProper(messages, events[0].event, events[0].now);
      RunProper(Fold(messages, EventLog(messages, events[0].event, events[0].now), ApplyMessages), events[1..]);
    }
  }

  lemma {:induction false} FoldKeepsColumns(aliases: map<Pair, int>, log: Log)
    requires ColumnsApart(aliases) && ProperWrites(log)
    ensures ColumnsApart(Fold(aliases, log, ApplyAliases))
    decreases |log|
  {
    if log != [] {
      assert log[0] in log;
      FoldKeepsColumns(ApplyAliases(aliases, log[0].write, log[0].now), log[1..]);
    }
  }

  /** Every alias ever recorded has a LID in the first column and a phone address in the second. */
  lemma AliasColumnsStayApart(db: Db, events: seq<Timed>, hash: string -> string)
    requires ColumnsApart(db.aliases)
    ensures ColumnsApart(Run(db, events, hash).aliases)
  {
    RunIsReplay(db, events, hash);
    RunProper(db.messages, events);
    FoldKeepsColumns(db.aliases, RunLog(db.messages, events));
  }
}
