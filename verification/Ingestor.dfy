/** The ingestor: one method per handler, each writing exactly what its event denotes. */
module Ingestor {
  import opened Wrappers
  import opened CacheTables
  import opened CacheStore
  import opened Events

  class Ingestor {
    const store: Store
    var lastEvent: int

    constructor (store: Store)
      ensures this.store == store && lastEvent == 0
    {
      this.store, lastEvent := store, 0;
    }

    function Tables(): Db
      reads this, store
    {
      store.Tables()
    }

    function After(db: Db, log: Log): Db
      reads this
    {
      Replay(db, log, store.hash)
    }

    lemma Join(db: Db, a: Log, b: Log)
      ensures After(db, a + b) == After(After(db, a), b)
    {
      ReplayJoin(db, a, b, store.hash);
    }

    lemma Nothing(db: Db)
      ensures After(db, []) == db
    {
    }

    lemma Single(db: Db, w: Write, now: int)
      ensures After(db, One(w, now)) == Apply(db, w, now, store.hash)
      ensures After(db, []) == db
    {
      ReplayOne(db, Entry(w, now), store.hash);
    }

    method HandleEvent(evt: Event, now: int)
      modifies this`lastEvent, store
      ensures Tables() == After(old(Tables()), EventLog(old(store.messages), evt, now))
      ensures lastEvent == if evt.Unknown? then old(lastEvent) else now
    {
      match evt {
        case MessageEvent(info, msg, isEdit) => HandleMessage(info, msg, isEdit, now);
        case HistorySync(cs) => HandleHistorySync(cs, now);
        case ContactEvent(_, _, _) => HandleContactEvent(evt, now);
        case PushName(_, _) => HandleContactEvent(evt, now);
        case BusinessName(_, _) => HandleContactEvent(evt, now);
        case Presence(from, unavailable, seen) => HandlePresence(from, unavailable, seen, now);
        case Unknown =>
        case MarkChatAsRead(_, _) => HandleFlagEvent(evt, now);
        case Pin(_, _) => HandleFlagEvent(evt, now);
        case Archive(_, _) => HandleFlagEvent(evt, now);
        case _ => HandleChatEvent(evt, now);
      }
      if !evt.Unknown? {
        lastEvent := now;
      }
    }

    /** Contact and name events each write the names they carry. */
    method HandleContactEvent(evt: Event, now: int)
      requires evt.ContactEvent? || evt.PushName? || evt.BusinessName?
      modifies store
      ensures Tables() == After(old(Tables()), EventLog(old(store.messages), evt, now))
    {
      var jid := evt.jid.ToNonAD().ToString();
      match evt {
        case ContactEvent(_, full, first) => RecordContact(Contact(jid, "", "", first, full), now);
        case PushName(_, name) => RecordContact(Contact(jid, name, "", "", ""), now);
        case BusinessName(_, name) => RecordContact(Contact(jid, "", name, "", ""), now);
      }
    }

    method RecordContact(c: Contact, now: int)
      modifies store
      ensures Tables() == After(old(Tables()), ContactLog(c, now))
    {
      Single(Tables(), PutContact(c), now);
      if c.jid != "" {
        store.UpsertContact(c, now);
      }
    }

    method HandlePresence(from: Jid, unavailable: bool, seen: Time, now: int)
      modifies store
      ensures Tables() == After(old(Tables()), PresenceLog(from, unavailable, seen, now))
    {
      if from.user != "" {
        Single(Tables(), PutPresence(from.ToNonAD().ToString(), !unavailable, seen), now);
        store.UpsertPresence(from.ToNonAD().ToString(), !unavailable, seen, now);
      }
    }

    method RecordChat(c: Chat, now: int)
      modifies store
      ensures Tables() == After(old(Tables()), One(PutChat(c), now))
    {
      Single(Tables(), PutChat(c), now);
      var _ := store.UpsertChat(c, now);
    }

    /** Group, newsletter and star events each write one chat row. */
    method HandleChatEvent(evt: Event, now: int)
      requires evt.GroupInfo? || evt.JoinedGroup? || evt.NewsletterJoin? || evt.NewsletterLeave? || evt.Star?
      modifies store
      ensures Tables() == After(old(Tables()), EventLog(old(store.messages), evt, now))
    {
      match evt {
        case GroupInfo(jid, name, time) =>
          var n := "";
          if name.Some? { n := name.value; }
          RecordChat(Chat(jid.ToString(), n, true, "", time, 0, false, false, Zero), now);
        case JoinedGroup(jid, isParent, name, setAt) =>
          if jid.user != "" {
            var chatType := "group";
            if isParent { chatType := "community"; }
            RecordChat(Chat(jid.ToString(), name, true, chatType, setAt, 0, false, false, Zero), now);
          }
        case NewsletterJoin(id, name, created) =>
          if id.user != "" {
            RecordChat(Chat(id.ToString(), name, false, "newsletter", created, 0, false, false, Zero), now);
          }
        case NewsletterLeave(id) =>
          if id.user != "" {
            RecordChat(Chat(id.ToString(), "", false, "newsletter", Zero, 0, false, false, Zero), now);
          }
        case Star(chat) =>
          if chat.user != "" {
            RecordChat(Chat(chat.ToString(), "", chat.server == GROUP_SERVER, "", Zero, 0, false, false, Zero), now);
          }
      }
    }

    method MarkUnread(jid: string, isGroup: bool, unread: bool, now: int)
      modifies store
      ensures Tables() == After(old(Tables()), One(SetUnread(jid, isGroup, unread), now))
    {
      Single(Tables(), SetUnread(jid, isGroup, unread), now);
      store.SetChatUnread(jid, isGroup, unread, now);
    }

    method MarkPinned(jid: string, isGroup: bool, pinned: bool, now: int)
      modifies store
      ensures Tables() == After(old(Tables()), One(SetPinned(jid, isGroup, pinned), now))
    {
      Single(Tables(), SetPinned(jid, isGroup, pinned), now);
      store.SetChatPinned(jid, isGroup, pinned, now);
    }

    method MarkArchived(jid: string, isGroup: bool, archived: bool, now: int)
      modifies store
      ensures Tables() == After(old(Tables()), One(SetArchived(jid, isGroup, archived), now))
    {
      Single(Tables(), SetArchived(jid, isGroup, archived), now);
      store.SetChatArchived(jid, isGroup, archived, now);
    }

    /** Read, pin and archive events each set one flag of a chat. */
    method HandleFlagEvent(evt: Event, now: int)
      requires evt.MarkChatAsRead? || evt.Pin? || evt.Archive?
      modifies store
      ensures Tables() == After(old(Tables()), EventLog(old(store.messages), evt, now))
    {
      match evt {
        case MarkChatAsRead(jid, read) =>
          if jid.user != "" {
            MarkUnread(jid.ToString(), jid.server == GROUP_SERVER, !read, now);
          }
        case Pin(jid, pinned) =>
          if jid.user != "" {
            MarkPinned(jid.ToString(), jid.server == GROUP_SERVER, pinned, now);
          }
        case Archive(jid, archived) =>
          if jid.user != "" {
            MarkArchived(jid.ToString(), jid.server == GROUP_SERVER, archived, now);
          }
      }
    }

    method HandleMessage(info: Info, msg: Option<Envelope>, isEdit: bool, now: int)
      modifies store
      ensures Tables() == After(old(Tables()), MessageLog(old(store.messages), info, msg, isEdit, now))
    {
      if info.id == "" || msg.None? {
        return;
      }
      var m := msg.value;
      var chat := info.chat.ToString();
      var time := info.time;
      if time.Zero? {
        time := At(now * 1000);
      }
      if m.protocol.Some? {
        var handled := HandleProtocol(chat, time, m.protocol.value, now);
        if handled {
          return;
        }
      }
      if isEdit {
        var found := HandleEdit(chat, info.id, TextBody(m), time, now);
        if found {
          return;
        }
        // The target was never stored: keep the edit as a fresh row.
      }
      HandleContent(info, m, time, now);
    }

    method HandleEdit(chat: string, id: string, body: string, time: Time, now: int) returns (found: bool)
      modifies store
      ensures found <==> (chat, id) in old(store.messages)
      ensures Tables() ==
              if found then After(old(Tables()), One(EditMessage(chat, id, body, time), now)) else old(Tables())
    {
      Single(Tables(), EditMessage(chat, id, body, time), now);
      found := store.MarkMessageEdited(chat, id, body, time);
    }

    method HandleProtocol(chat: string, time: Time, p: Protocol, now: int) returns (handled: bool)
      modifies store
      ensures handled <==> ProtocolLog(chat, time, p, now).Some?
      ensures Tables() == if handled then After(old(Tables()), ProtocolLog(chat, time, p, now).value) else old(Tables())
    {
      if p.key.None? || p.key.value.id == "" {
        return false;
      }
      var target := chat;
      if p.key.value.remote != "" {
        target := p.key.value.remote;
      }
      match p.kind {
        case Revoke =>
          Single(Tables(), DeleteMessage(target, p.key.value.id, time), now);
          var _ := store.MarkMessageDeleted(target, p.key.value.id, time);
          return true;
        case MessageEdit =>
          EditStored(target, p.key.value.id, p.editedBody, time, now);
          return true;
        case OtherProtocol =>
          return false;
      }
    }

    method EditStored(chat: string, id: string, body: string, time: Time, now: int)
      modifies store
      ensures Tables() == After(old(Tables()), One(EditMessage(chat, id, body, time), now))
    {
      Single(Tables(), EditMessage(chat, id, body, time), now);
      var _ := store.MarkMessageEdited(chat, id, body, time);
    }

    method HandleContent(info: Info, m: Envelope, time: Time, now: int)
      modifies store
      ensures Tables() == After(old(Tables()), ContentLog(info, m, time, now))
    {
      ghost var before := Tables();
      if m.reaction.Some? {
        HandleReaction(info, m.reaction.value, time, now);
        return;
      }
      if m.pollUpdate.Some? {
        RecordIdentity(info, now);
        HandlePollVote(info, m.pollUpdate.value, now);
        Join(before, IdentityLog(info, now), VoteLog(info, m.pollUpdate.value, now));
        return;
      }
      var chat := Chat(info.chat.ToString(), "", info.isGroup, "", time, 0, false, false, Zero);
      RecordChat(chat, now);
      ghost var first := One(PutChat(chat), now);
      RecordIdentity(info, now);
      Join(before, first, IdentityLog(info, now));
      first := first + IdentityLog(info, now);
      StoreRow(info, m, time, now);
      Join(before, first, RowLog(info, m, time, now));
    }

    function RowLog(info: Info, m: Envelope, time: Time, now: int): Log {
      var chat, sender := info.chat.ToString(), info.sender.ToNonAD().ToString();
      match MessageRowOf(chat, sender, info.id, info.pushName, time, info.isFromMe, m)
      case None => []
      case Some(row) => One(AddMessage(row), now) + PollLog(chat, sender, info.id, time, info.isFromMe, m, now)
    }

    method StoreRow(info: Info, m: Envelope, time: Time, now: int)
      modifies store
      ensures Tables() == After(old(Tables()), RowLog(info, m, time, now))
    {
      ghost var before := Tables();
      var chat, sender := info.chat.ToString(), info.sender.ToNonAD().ToString();
      var row := MessageRowOf(chat, sender, info.id, info.pushName, time, info.isFromMe, m);
      if row.None? {
        return;
      }
      Single(Tables(), AddMessage(row.value), now);
      store.InsertMessage(row.value);
      assert Tables() == After(before, One(AddMessage(row.value), now));
      PersistPoll(chat, sender, info.id, time, info.isFromMe, m, now);
      Join(before, One(AddMessage(row.value), now), PollLog(chat, sender, info.id, time, info.isFromMe, m, now));
    }

    method RecordIdentity(info: Info, now: int)
      modifies store
      ensures Tables() == After(old(Tables()), IdentityLog(info, now))
    {
      ghost var before := Tables();
      var sender := info.sender.ToNonAD().ToString();
      ghost var first: Log := [];
      Nothing(before);
      if !info.isFromMe {
        RecordContact(Contact(sender, info.pushName, info.verifiedName, "", ""), now);
        first := ContactLog(Contact(sender, info.pushName, info.verifiedName, "", ""), now);
      }
      RecordAlias(info.sender, info.senderAlt, now);
      Join(before, first, AliasLog(info.sender, info.senderAlt, now));
    }

    method RecordAlias(a: Jid, b: Jid, now: int)
      modifies store
      ensures Tables() == After(old(Tables()), AliasLog(a, b, now))
    {
      if a.server == "" || b.server == "" {
        return;
      }
      if a.server == LID_SERVER && b.server == PHONE_SERVER {
        Single(Tables(), PutAlias(a.ToNonAD().ToString(), b.ToNonAD().ToString()), now);
        store.UpsertJIDAlias(a.ToNonAD().ToString(), b.ToNonAD().ToString(), now);
      } else if a.server == PHONE_SERVER && b.server == LID_SERVER {
        Single(Tables(), PutAlias(b.ToNonAD().ToString(), a.ToNonAD().ToString()), now);
        store.UpsertJIDAlias(b.ToNonAD().ToString(), a.ToNonAD().ToString(), now);
      }
    }

    method HandleReaction(info: Info, r: ReactionPart, fallback: Time, now: int)
      modifies store
      ensures Tables() == After(old(Tables()), LiveReactionLog(info, r, fallback, now))
    {
      if r.key.None? || r.key.value.id == "" {
        return;
      }
      var chat := info.chat.ToString();
      if r.key.value.remote != "" {
        chat := r.key.value.remote;
      }
      ghost var before := Tables();
      var sender := info.sender.ToNonAD().ToString();
      ghost var first: Log := [];
      Nothing(before);
      if !info.isFromMe {
        RecordContact(Contact(sender, info.pushName, "", "", ""), now);
        first := ContactLog(Contact(sender, info.pushName, "", "", ""), now);
      }
      RecordAlias(info.sender, info.senderAlt, now);
      Join(before, first, AliasLog(info.sender, info.senderAlt, now));
      first := first + AliasLog(info.sender, info.senderAlt, now);
      var time := fallback;
      if r.senderMs > 0 {
        time := At(r.senderMs);
      }
      var reaction := Reaction(chat, r.key.value.id, sender, r.text, time, info.isFromMe);
      PersistReaction(reaction, now);
      Join(before, first, ReactionLog(reaction, now));
    }

    method PersistReaction(r: Reaction, now: int)
      modifies store
      ensures Tables() == After(old(Tables()), ReactionLog(r, now))
    {
      if r.chat == "" || r.target == "" {
        return;
      }
      if r.emoji == "" {
        Single(Tables(), DropReaction(r.chat, r.target, ReactionSenderKey(r.sender, r.isFromMe)), now);
        store.DeleteReaction(r.chat, r.target, ReactionSenderKey(r.sender, r.isFromMe));
        return;
      }
      Single(Tables(), PutReaction(r), now);
      store.UpsertReaction(r);
    }

    method HandlePollVote(info: Info, u: PollUpdate, now: int)
      modifies store
      ensures Tables() == After(old(Tables()), VoteLog(info, u, now))
    {
      if u.pollId == "" || u.decrypted.None? {
        return;
      }
      var time := info.time;
      if u.senderMs > 0 {
        time := At(u.senderMs);
      }
      if time.Zero? {
        time := At(now * 1000);
      }
      Single(Tables(), PutVote(PollVote(info.chat.ToString(), u.pollId, info.sender.ToNonAD().ToString(),
          u.decrypted.value, time)), now);
      store.UpsertPollVote(PollVote(info.chat.ToString(), u.pollId, info.sender.ToNonAD().ToString(),
          u.decrypted.value, time));
    }

    method PersistPoll(chat: string, sender: string, id: string, time: Time, fromMe: bool, m: Envelope, now: int)
      modifies store
      ensures Tables() == After(old(Tables()), PollLog(chat, sender, id, time, fromMe, m, now))
    {
      if m.poll.None? {
        return;
      }
      var p := m.poll.value;
      var options := [];
      for i := 0 to |p.options|
        invariant |options| == i && forall k :: 0 <= k < i ==> options[k] == PollOption(p.options[k], "")
      {
        options := options + [PollOption(p.options[i], "")];
      }
      assert options == seq(|p.options|, i requires 0 <= i < |p.options| => PollOption(p.options[i], ""));
      Single(Tables(), PutPoll(Poll(chat, id, p.question, options, p.selectable, sender, fromMe, time)), now);
      store.UpsertPoll(Poll(chat, id, p.question, options, p.selectable, sender, fromMe, time), now);
    }

    method HandleHistorySync(cs: seq<Conversation>, now: int)
      modifies store
      ensures Tables() == After(old(Tables()), HistoryLog(cs, now))
    {
      ghost var before := Tables();
      for i := 0 to |cs|
        invariant Tables() == After(before, HistoryLog(cs[..i], now))
      {
        assert cs[..i + 1][..i] == cs[..i];
        IngestConversation(cs[i], now);
        Join(before, HistoryLog(cs[..i], now), ConversationLog(cs[i], now));
      }
      assert cs[..|cs|] == cs;
    }

    method IngestConversation(c: Conversation, now: int)
      modifies store
      ensures Tables() == After(old(Tables()), ConversationLog(c, now))
    {
      ghost var before := Tables();
      var jid := c.chat.ToString();
      var latest := IngestMessages(jid, c.messages, now);
      var name := c.name;
      if name == "" {
        name := c.displayName;
      }
      var chat := Chat(jid, name, c.chat.server == GROUP_SERVER, "", latest, c.unread, false, false, Zero);
      RecordChat(chat, now);
      Join(before, HistoryMessages(jid, c.messages, now), One(PutChat(chat), now));
    }

    /** The messages of one conversation, and the newest of their times. */
    method IngestMessages(chat: string, ws: seq<WebMessage>, now: int) returns (latest: Time)
      modifies store
      ensures latest == Latest(ws) && Tables() == After(old(Tables()), HistoryMessages(chat, ws, now))
    {
      ghost var before := Tables();
      latest := Zero;
      for i := 0 to |ws|
        invariant latest == Latest(ws[..i]) && Tables() == After(before, HistoryMessages(chat, ws[..i], now))
      {
        assert ws[..i + 1][..i] == ws[..i];
        if latest.Zero? || ws[i].seconds * 1000 > latest.ms {
          latest := At(ws[i].seconds * 1000);
        }
        IngestHistoryMessage(chat, ws[i], now);
        Join(before, HistoryMessages(chat, ws[..i], now), HistoryMessage(chat, ws[i], now));
      }
      assert ws[..|ws|] == ws;
    }

    method IngestHistoryMessage(chat: string, w: WebMessage, now: int)
      modifies store
      ensures Tables() == After(old(Tables()), HistoryMessage(chat, w, now))
    {
      if w.key.None? || w.key.value.id == "" || w.msg.None? {
        return;
      }
      ghost var before := Tables();
      var key, m, time := w.key.value, w.msg.value, At(w.seconds * 1000);
      var sender := chat;
      if !key.fromMe && key.participant != "" {
        sender := Participant(key);
      }
      var row := MessageRowOf(chat, sender, key.id, w.pushName, time, key.fromMe, m);
      ghost var first: Log := [];
      if row.Some? {
        Single(Tables(), AddMessage(row.value), now);
        store.InsertMessage(row.value);
        first := One(AddMessage(row.value), now);
      }
      assert Tables() == After(before, first);
      PersistPoll(chat, sender, key.id, time, key.fromMe, m, now);
      Join(before, first, PollLog(chat, sender, key.id, time, key.fromMe, m, now));
      first := first + PollLog(chat, sender, key.id, time, key.fromMe, m, now);
      IngestHistoryReactions(chat, key.id, time, w.reactions, now);
      Join(before, first, HistoryReactions(chat, key.id, time, w.reactions, now));
    }

    method IngestHistoryReactions(chat: string, target: string, fallback: Time, rs: seq<WebReaction>, now: int)
      modifies store
      ensures Tables() == After(old(Tables()), HistoryReactions(chat, target, fallback, rs, now))
    {
      ghost var before := Tables();
      for i := 0 to |rs|
        invariant Tables() == After(before, HistoryReactions(chat, target, fallback, rs[..i], now))
      {
        assert rs[..i + 1][..i] == rs[..i];
        if rs[i].key.Some? {
          var key := rs[i].key.value;
          var sender := "";
          if key.participant != "" {
            sender := Participant(key);
          } else if !key.fromMe {
            sender := chat;
          }
          var time := fallback;
          if rs[i].senderMs > 0 {
            time := At(rs[i].senderMs);
          }
          PersistReaction(Reaction(chat, target, sender, rs[i].text, time, key.fromMe), now);
        }
        Join(before, HistoryReactions(chat, target, fallback, rs[..i], now),
            HistoryReaction(chat, target, fallback, rs[i], now));
      }
      assert rs[..|rs|] == rs;
    }
  }
}
