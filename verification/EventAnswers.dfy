/**
 What the tables hold after each kind of event, said of the rows: which ones change, to what, and that no
 other does. The database is any one, in particular that at the end of any run.
 */
module EventAnswers {
  import opened Wrappers
  import opened GoValues
  import opened CacheTables
  import opened Events
  import opened IngestRuns
  import opened MessageRows

  /** The tables after one more event. */
  function Handled(db: Db, evt: Event, now: int, hash: string -> string): Db {
    Replay(db, EventLog(db.messages, evt, now), hash)
  }

  lemma HandledEndsRun(db: Db, before: seq<Timed>, evt: Event, now: int, hash: string -> string)
    ensures Run(db, before + [Timed(evt, now)], hash) == Handled(Run(db, before, hash), evt, now, hash)
  {
    RunJoin(db, before, [Timed(evt, now)], hash);
    var last := [Timed(evt, now)];
    assert last[0] == Timed(evt, now) && last[1..] == [];
  }

  lemma HandledOne(db: Db, evt: Event, now: int, hash: string -> string, w: Write)
    requires EventLog(db.messages, evt, now) == One(w, now)
    ensures Handled(db, evt, now, hash) == Apply(db, w, now, hash)
  {
    ReplayOne(db, Entry(w, now), hash);
  }

  function Seconds(t: Time): int {
    match t case Zero => 0 case At(ms) => ms / 1000
  }

  /** Every row but one is as it was. */
  ghost predicate OnlyRow<K(!new), V(!new)>(t: map<K, V>, t': map<K, V>, k: K) {
    k in t' && forall j :: j != k ==> ((j in t <==> j in t') && (j in t ==> t[j] == t'[j]))
  }

  // ----- chats -----

  /** One chat is known by this name and type, active at this time or later, and all its flags are cleared. */
  ghost predicate ChatKnown(t: map<string, ChatRow>, t': map<string, ChatRow>, jid: string, name: string,
                            isGroup: bool, chatType: string, seconds: int, unread: int, now: int)
  {
    OnlyRow(t, t', jid) &&
    var row := t'[jid];
    && row.name == (if name != "" then name else if jid in t then t[jid].name else "")
    && row.chatType == (
         if chatType != "" then chatType
         else if jid in t then t[jid].chatType
         else if HasSuffix(jid, "@newsletter") then "newsletter"
         else if isGroup then "group"
         else "direct")
    && row.lastTs == (if jid in t && t[jid].lastTs > seconds then t[jid].lastTs else seconds)
    && row.isGroup == isGroup && row.unread == unread && !row.archived && !row.pinned && row.mutedUntil == 0
    && row.updatedAt == now
  }

  lemma PutChatKnows(db: Db, c: Chat, now: int, hash: string -> string)
    requires c.jid != "" && !c.archived && !c.pinned && c.mutedUntil == Zero
    ensures var db' := Apply(db, PutChat(c), now, hash);
            && db' == db.(chats := db'.chats)
            && ChatKnown(db.chats, db'.chats, c.jid, c.name, c.isGroup, c.chatType, Seconds(c.lastMessage), c.unread,
                         now)
  {
  }

  lemma ChatEvent(db: Db, evt: Event, now: int, hash: string -> string, jid: Jid, name: string, isGroup: bool,
                  chatType: string, time: Time)
    requires jid.ToString() != ""
    requires EventLog(db.messages, evt, now) ==
             One(PutChat(Chat(jid.ToString(), name, isGroup, chatType, time, 0, false, false, Zero)), now)
    ensures var db' := Handled(db, evt, now, hash);
            && db' == db.(chats := db'.chats)
            && ChatKnown(db.chats, db'.chats, Address(jid.user, jid.device, jid.server), name, isGroup, chatType,
                         Seconds(time), 0, now)
  {
    AddressIs(jid);
    var c := Chat(jid.ToString(), name, isGroup, chatType, time, 0, false, false, Zero);
    HandledOne(db, evt, now, hash, PutChat(c));
    PutChatKnows(db, c, now, hash);
  }

  /** News of a group make it known as one. */
  lemma GroupEvents(db: Db, jid: Jid, newName: Option<string>, time: Time, now: int, hash: string -> string)
    requires jid.server != ""
    ensures var db' := Handled(db, GroupInfo(jid, newName, time), now, hash);
            && db' == db.(chats := db'.chats)
            && ChatKnown(db.chats, db'.chats, Address(jid.user, jid.device, jid.server),
                         match newName case Some(n) => n case None => "", true, "", Seconds(time), 0, now)
  {
    AddressIs(jid);
    ChatEvent(db, GroupInfo(jid, newName, time), now, hash, jid, match newName case Some(n) => n case None => "", true,
              "", time);
  }

  /** A joined group is a community exactly when it is a parent. */
  lemma JoinEvents(db: Db, jid: Jid, isParent: bool, name: string, setAt: Time, now: int, hash: string -> string)
    requires jid.user != ""
    ensures var db' := Handled(db, JoinedGroup(jid, isParent, name, setAt), now, hash);
            && db' == db.(chats := db'.chats)
            && ChatKnown(db.chats, db'.chats, Address(jid.user, jid.device, jid.server), name, true,
                         if isParent then "community" else "group", Seconds(setAt), 0, now)
  {
    ChatEvent(db, JoinedGroup(jid, isParent, name, setAt), now, hash, jid, name, true,
              if isParent then "community" else "group", setAt);
  }

  /** A newsletter is known as one, after it is left as well. */
  lemma NewsletterEvents(db: Db, id: Jid, name: string, created: Time, now: int, hash: string -> string)
    requires id.user != ""
    ensures var db' := Handled(db, NewsletterJoin(id, name, created), now, hash);
            && db' == db.(chats := db'.chats)
            && ChatKnown(db.chats, db'.chats, Address(id.user, id.device, id.server), name, false, "newsletter",
                         Seconds(created), 0, now)
    ensures var db' := Handled(db, NewsletterLeave(id), now, hash);
            && db' == db.(chats := db'.chats)
            && ChatKnown(db.chats, db'.chats, Address(id.user, id.device, id.server), "", false, "newsletter", 0, 0,
                         now)
  {
    ChatEvent(db, NewsletterJoin(id, name, created), now, hash, id, name, false, "newsletter", created);
    ChatEvent(db, NewsletterLeave(id), now, hash, id, "", false, "newsletter", Zero);
  }

  /** A starred message makes its chat known. */
  lemma StarEvents(db: Db, chat: Jid, now: int, hash: string -> string)
    requires chat.user != ""
    ensures var db' := Handled(db, Star(chat), now, hash);
            && db' == db.(chats := db'.chats)
            && ChatKnown(db.chats, db'.chats, Address(chat.user, chat.device, chat.server), "", chat.server == "g.us",
                         "", 0, 0, now)
  {
    ChatEvent(db, Star(chat), now, hash, chat, "", chat.server == "g.us", "", Zero);
  }

  /** The row of a chat that is only known by a flag. */
  function BareRow(jid: string, isGroup: bool): ChatRow {
    var chatType := if HasSuffix(jid, "@newsletter") then "newsletter" else if isGroup then "group" else "direct";
    ChatRow("", isGroup, chatType, 0, 0, false, false, 0, 0)
  }

  /** One chat changes in one flag and the time of the change. */
  ghost predicate FlagSet(db: Db, db': Db, jid: Jid, now: int, unread: Option<int>, pinned: Option<bool>,
                          archived: Option<bool>)
  {
    var id := Address(jid.user, jid.device, jid.server);
    && db' == db.(chats := db'.chats) && OnlyRow(db.chats, db'.chats, id)
    && var row, was := db'.chats[id], if id in db.chats then db.chats[id] else BareRow(id, jid.server == "g.us");
       && row.name == was.name && row.isGroup == was.isGroup && row.chatType == was.chatType
       && row.lastTs == was.lastTs && row.mutedUntil == was.mutedUntil && row.updatedAt == now
       && row.unread == (match unread case Some(n) => n case None => was.unread)
       && row.pinned == (match pinned case Some(b) => b case None => was.pinned)
       && row.archived == (match archived case Some(b) => b case None => was.archived)
  }

  /** Reading a chat clears its unread mark, and marking it unread sets it to one. */
  lemma ReadEvents(db: Db, jid: Jid, read: bool, now: int, hash: string -> string)
    requires jid.user != ""
    ensures FlagSet(db, Handled(db, MarkChatAsRead(jid, read), now, hash), jid, now, Some(if read then 0 else 1), None,
                    None)
  {
    AddressIs(jid);
    HandledOne(db, MarkChatAsRead(jid, read), now, hash, SetUnread(jid.ToString(), jid.server == GROUP_SERVER, !read));
  }

  lemma PinEvents(db: Db, jid: Jid, pinned: bool, now: int, hash: string -> string)
    requires jid.user != ""
    ensures FlagSet(db, Handled(db, Pin(jid, pinned), now, hash), jid, now, None, Some(pinned), None)
  {
    AddressIs(jid);
    HandledOne(db, Pin(jid, pinned), now, hash, SetPinned(jid.ToString(), jid.server == GROUP_SERVER, pinned));
  }

  lemma ArchiveEvents(db: Db, jid: Jid, archived: bool, now: int, hash: string -> string)
    requires jid.user != ""
    ensures FlagSet(db, Handled(db, Archive(jid, archived), now, hash), jid, now, None, None, Some(archived))
  {
    AddressIs(jid);
    HandledOne(db, Archive(jid, archived), now, hash,
               SetArchived(jid.ToString(), jid.server == GROUP_SERVER, archived));
  }

  // ----- contacts -----

  function Known(incoming: string, t: map<string, ContactRow>, jid: string, field: ContactRow -> string): string {
    if incoming != "" then incoming else if jid in t then field(t[jid]) else ""
  }

  /** One contact is known by these names; a name not given stays, and so does the presence. */
  ghost predicate ContactKnown(t: map<string, ContactRow>, t': map<string, ContactRow>, jid: string, pushName: string,
                               businessName: string, firstName: string, fullName: string, now: int)
  {
    OnlyRow(t, t', jid) &&
    var row := t'[jid];
    && row.pushName == Known(pushName, t, jid, (r: ContactRow) => r.pushName)
    && row.businessName == Known(businessName, t, jid, (r: ContactRow) => r.businessName)
    && row.firstName == Known(firstName, t, jid, (r: ContactRow) => r.firstName)
    && row.fullName == Known(fullName, t, jid, (r: ContactRow) => r.fullName)
    && row.updatedAt == now
    && (if jid in t then row.online == t[jid].online && row.lastSeen == t[jid].lastSeen && row.seenAt == t[jid].seenAt
        else !row.online && row.lastSeen == 0 && row.seenAt == 0)
  }

  lemma PutContactKnows(t: map<string, ContactRow>, c: Contact, now: int)
    requires c.jid != ""
    ensures ContactKnown(t, UpsertContact(t, c, now), c.jid, c.pushName, c.businessName, c.firstName, c.fullName, now)
  {
  }

  /** Contact and name events tell the names they carry of one contact. */
  lemma NameEvents(db: Db, evt: Event, now: int, hash: string -> string)
    requires evt.ContactEvent? || evt.PushName? || evt.BusinessName?
    requires evt.jid.server != ""
    ensures var db' := Handled(db, evt, now, hash);
            var jid := Address(evt.jid.user, "", evt.jid.server);
            db' == db.(contacts := db'.contacts) &&
            match evt
            case ContactEvent(_, full, first) => ContactKnown(db.contacts, db'.contacts, jid, "", "", first, full, now)
            case PushName(_, name) => ContactKnown(db.contacts, db'.contacts, jid, name, "", "", "", now)
            case BusinessName(_, name) => ContactKnown(db.contacts, db'.contacts, jid, "", name, "", "", now)
  {
    var jid := evt.jid.ToNonAD().ToString();
    AddressIs(evt.jid);
    assert jid != "";
    var c := match evt
      case ContactEvent(_, full, first) => Contact(jid, "", "", first, full)
      case PushName(_, name) => Contact(jid, name, "", "", "")
      case BusinessName(_, name) => Contact(jid, "", name, "", "");
    HandledOne(db, evt, now, hash, PutContact(c));
    PutContactKnows(db.contacts, c, now);
  }

  /** Presence tells whether a contact is online and when it was last seen; a hidden time keeps the known one. */
  lemma PresenceEvents(db: Db, evt: Event, now: int, hash: string -> string)
    requires evt.Presence? && evt.from.user != ""
    ensures var db' := Handled(db, evt, now, hash);
            var jid := Address(evt.from.user, "", evt.from.server);
            && db' == db.(contacts := db'.contacts) && OnlyRow(db.contacts, db'.contacts, jid)
            && var row, seconds := db'.contacts[jid], Seconds(evt.lastSeen);
               && row.online == !evt.unavailable && row.seenAt == now
               && row.lastSeen ==
                  (if seconds == 0 && jid in db.contacts then db.contacts[jid].lastSeen else seconds)
               && if jid in db.contacts then
                    var was := db.contacts[jid];
                    && row.pushName == was.pushName && row.businessName == was.businessName
                    && row.firstName == was.firstName && row.fullName == was.fullName && row.updatedAt == was.updatedAt
                  else row.pushName == row.businessName == row.firstName == row.fullName == "" && row.updatedAt == now
  {
    HandledOne(db, evt, now, hash, PutPresence(evt.from.ToNonAD().ToString(), !evt.unavailable, evt.lastSeen));
  }

  // ----- edits and revokes -----

  ghost predicate Unchanged(db: Db, db': Db) {
    db' == db.(messages := db'.messages)
  }

  /** A message keeps its origin and shows a new body. */
  ghost predicate BodyIs(row: MessageRow, was: MessageRow, body: string) {
    row.(edited := was.edited, editedAt := was.editedAt, deleted := was.deleted, deletedAt := was.deletedAt) ==
    was.(body := body)
  }

  /** The message a key names: in the chat of the key, or else in that of the event. */
  function Target(info: Info, key: Key): Pair {
    (if key.remote != "" then key.remote else Address(info.chat.user, info.chat.device, info.chat.server), key.id)
  }

  ghost predicate IsEdited(db: Db, db': Db, k: Pair, body: string, seconds: int) {
    && Unchanged(db, db')
    && if k !in db.messages then db'.messages == db.messages
       else
         && OnlyRow(db.messages, db'.messages, k)
         && var row, was := db'.messages[k], db.messages[k];
            && BodyIs(row, was, body) && row.edited && row.editedAt == seconds
            && row.deleted == was.deleted && row.deletedAt == was.deletedAt
  }

  ghost predicate IsRevoked(db: Db, db': Db, k: Pair, seconds: int) {
    && Unchanged(db, db')
    && if k !in db.messages then db'.messages == db.messages
       else
         && OnlyRow(db.messages, db'.messages, k)
         && var row, was := db'.messages[k], db.messages[k];
            && BodyIs(row, was, "") && row.deleted && row.deletedAt == seconds
            && row.edited == was.edited && row.editedAt == was.editedAt
  }

  lemma EditApplies(db: Db, k: Pair, body: string, time: Time, now: int, hash: string -> string)
    ensures IsEdited(db, Apply(db, EditMessage(k.0, k.1, body, time), now, hash), k, body, UnixSeconds(time))
  {
  }

  lemma RevokeApplies(db: Db, k: Pair, time: Time, now: int, hash: string -> string)
    ensures IsRevoked(db, Apply(db, DeleteMessage(k.0, k.1, time), now, hash), k, UnixSeconds(time))
  {
  }

  function HappenedAt(info: Info, now: int): int {
    match info.time case Zero => now case At(ms) => ms / 1000
  }

  /** A revoke empties the message its key names and marks it deleted. */
  lemma RevokeEvents(db: Db, info: Info, m: Envelope, isEdit: bool, now: int, key: Key, hash: string -> string)
    requires info.id != "" && m.protocol.Some? && m.protocol.value.key == Some(key) && key.id != ""
    requires m.protocol.value.kind.Revoke?
    ensures IsRevoked(db, Handled(db, MessageEvent(info, Some(m), isEdit), now, hash), Target(info, key),
                      HappenedAt(info, now))
  {
    var time := if info.time == Zero then At(now * 1000) else info.time;
    var k := Target(info, key);
    AddressIs(info.chat);
    SecondsOf(info.time, now);
    HandledOne(db, MessageEvent(info, Some(m), isEdit), now, hash, DeleteMessage(k.0, k.1, time));
    RevokeApplies(db, k, time, now, hash);
  }

  /** An edit replaces the body of the message its key names. */
  lemma ProtocolEdits(db: Db, info: Info, m: Envelope, isEdit: bool, now: int, key: Key, hash: string -> string)
    requires info.id != "" && m.protocol.Some? && m.protocol.value.key == Some(key) && key.id != ""
    requires m.protocol.value.kind.MessageEdit?
    ensures IsEdited(db, Handled(db, MessageEvent(info, Some(m), isEdit), now, hash), Target(info, key),
                     m.protocol.value.editedBody, HappenedAt(info, now))
  {
    var time := if info.time == Zero then At(now * 1000) else info.time;
    var k := Target(info, key);
    AddressIs(info.chat);
    SecondsOf(info.time, now);
    HandledOne(db, MessageEvent(info, Some(m), isEdit), now, hash,
               EditMessage(k.0, k.1, m.protocol.value.editedBody, time));
    EditApplies(db, k, m.protocol.value.editedBody, time, now, hash);
  }

  /** An unwrapped edit of a stored message replaces its body by the text it carries. */
  lemma EditEvents(db: Db, info: Info, m: Envelope, now: int, hash: string -> string)
    requires info.id != "" && m.protocol.None?
    requires (Address(info.chat.user, info.chat.device, info.chat.server), info.id) in db.messages
    ensures IsEdited(db, Handled(db, MessageEvent(info, Some(m), true), now, hash),
                     (Address(info.chat.user, info.chat.device, info.chat.server), info.id),
                     if m.conversation != "" then m.conversation else if m.ext.Some? then m.ext.value.text else "",
                     HappenedAt(info, now))
  {
    var time := if info.time == Zero then At(now * 1000) else info.time;
    var k := (info.chat.ToString(), info.id);
    AddressIs(info.chat);
    SecondsOf(info.time, now);
    HandledOne(db, MessageEvent(info, Some(m), true), now, hash, EditMessage(k.0, k.1, TextBody(m), time));
    EditApplies(db, k, TextBody(m), time, now, hash);
  }

  // ----- events without content -----

  /** Events that name no message, nobody or no chat, and those of other kinds. */
  predicate SaysNothing(evt: Event) {
    match evt
    case MessageEvent(info, msg, _) => info.id == "" || msg.None?
    case HistorySync(cs) => cs == []
    case ContactEvent(jid, _, _) => jid.user == jid.server == ""
    case PushName(jid, _) => jid.user == jid.server == ""
    case BusinessName(jid, _) => jid.user == jid.server == ""
    case GroupInfo(jid, _, _) => jid.user == jid.server == ""
    case JoinedGroup(jid, _, _, _) => jid.user == ""
    case NewsletterJoin(id, _, _) => id.user == ""
    case NewsletterLeave(id) => id.user == ""
    case MarkChatAsRead(jid, _) => jid.user == ""
    case Pin(jid, _) => jid.user == ""
    case Archive(jid, _) => jid.user == ""
    case Star(chat) => chat.user == ""
    case Presence(from, _, _) => from.user == ""
    case Unknown => true
  }

  lemma NothingHappens(db: Db, evt: Event, now: int, hash: string -> string)
    requires SaysNothing(evt)
    ensures Handled(db, evt, now, hash) == db
  {
    if evt.GroupInfo? {
      var name := match evt.newName case Some(n) => n case None => "";
      HandledOne(db, evt, now, hash, PutChat(BareChat("", true, "", name, evt.time)));
    }
  }
}
