/** Inbound events, and the row writes each of them denotes. */
module Events {
  import opened Wrappers
  import opened CacheTables

  const LID_SERVER := "lid"
  const PHONE_SERVER := "s.whatsapp.net"
  const GROUP_SERVER := "g.us"

  /** `device` is the rendered agent and device part, empty for a plain address. */
  datatype Jid = Jid(user: string, device: string, server: string) {
    function ToString(): string {
      if user != "" then user + device + "@" + server else server
    }

    function ToNonAD(): Jid {
      this.(device := "")
    }
  }

  // ----- message envelopes -----

  datatype ExtText = ExtText(text: string, replyTo: Option<string>)

  datatype MediaPart = MediaPart(media: Media, caption: string, replyTo: Option<string>)

  datatype PollCreation = PollCreation(question: string, options: seq<string>, selectable: int)

  datatype Key = Key(id: string, remote: string)

  datatype ProtocolKind = Revoke | MessageEdit | OtherProtocol

  datatype Protocol = Protocol(key: Option<Key>, kind: ProtocolKind, editedBody: string)

  datatype ReactionPart = ReactionPart(key: Option<Key>, text: string, senderMs: int)

  /** `decrypted` is the selection the decrypter recovers, None when it cannot. */
  datatype PollUpdate = PollUpdate(pollId: string, senderMs: int, decrypted: Option<seq<string>>)

  datatype Envelope = Envelope(
    conversation: string, ext: Option<ExtText>, image: Option<MediaPart>, video: Option<MediaPart>,
    audio: Option<MediaPart>, document: Option<MediaPart>, sticker: Option<MediaPart>, poll: Option<PollCreation>,
    protocol: Option<Protocol>, reaction: Option<ReactionPart>, pollUpdate: Option<PollUpdate>)

  datatype Info = Info(id: string, chat: Jid, sender: Jid, senderAlt: Jid, isFromMe: bool, isGroup: bool,
                       pushName: string, verifiedName: string, time: Time)

  // ----- history -----

  /** `parsed` is the participant when it parses as an address. */
  datatype WebKey = WebKey(id: string, fromMe: bool, participant: string, parsed: Option<Jid>)

  datatype WebReaction = WebReaction(key: Option<WebKey>, text: string, senderMs: int)

  datatype WebMessage = WebMessage(seconds: int, key: Option<WebKey>, pushName: string, msg: Option<Envelope>,
                                   reactions: seq<WebReaction>)

  /** A conversation whose id parsed; `messages` are those that carry a message. */
  datatype Conversation = Conversation(chat: Jid, name: string, displayName: string, unread: nat,
                                       messages: seq<WebMessage>)

  datatype Event =
    | MessageEvent(info: Info, msg: Option<Envelope>, isEdit: bool)
    | HistorySync(conversations: seq<Conversation>)
    | ContactEvent(jid: Jid, fullName: string, firstName: string)
    | PushName(jid: Jid, name: string)
    | BusinessName(jid: Jid, name: string)
    | GroupInfo(jid: Jid, newName: Option<string>, time: Time)
    | JoinedGroup(jid: Jid, isParent: bool, name: string, nameSetAt: Time)
    | NewsletterJoin(id: Jid, name: string, created: Time)
    | NewsletterLeave(id: Jid)
    | MarkChatAsRead(jid: Jid, read: bool)
    | Pin(jid: Jid, pinned: bool)
    | Archive(jid: Jid, archived: bool)
    | Star(chat: Jid)
    | Presence(from: Jid, unavailable: bool, lastSeen: Time)
    | Unknown

  // ----- reading an envelope -----

  function TextBody(m: Envelope): string {
    if m.conversation != "" then m.conversation else match m.ext case Some(e) => e.text case None => ""
  }

  /** The kind, the media and any secondary text, in the order the variants are tried. */
  function Contents(m: Envelope): (MessageKind, Option<Media>, string) {
    if m.conversation != "" || m.ext.Some? then (Text, None, "")
    else if m.image.Some? then (Image, Some(m.image.value.media), m.image.value.caption)
    else if m.video.Some? then (Video, Some(m.video.value.media), m.video.value.caption)
    else if m.audio.Some? then (Audio, Some(m.audio.value.media), "")
    else if m.document.Some? then (Document, Some(m.document.value.media), m.document.value.caption)
    else if m.poll.Some? then (PollKind, None, m.poll.value.question)
    else if m.sticker.Some? then (Sticker, Some(m.sticker.value.media), "")
    else (Other, None, "")
  }

  function ReplyIn(p: Option<MediaPart>): Option<string> {
    match p case Some(part) => part.replyTo case None => None
  }

  function ReplyTo(m: Envelope): string {
    if m.ext.Some? && m.ext.value.replyTo.Some? then m.ext.value.replyTo.value
    else if ReplyIn(m.image).Some? then ReplyIn(m.image).value
    else if ReplyIn(m.video).Some? then ReplyIn(m.video).value
    else if ReplyIn(m.audio).Some? then ReplyIn(m.audio).value
    else if ReplyIn(m.document).Some? then ReplyIn(m.document).value
    else ""
  }

  /** None when the envelope carries nothing worth a row. */
  function MessageRowOf(chat: string, sender: string, id: string, pushName: string, time: Time, fromMe: bool,
                        m: Envelope)
    : Option<Message>
  {
    var (kind, media, caption) := Contents(m);
    var text := TextBody(m);
    var body := if caption != "" && text == "" then caption else text;
    if kind == Other && body == "" && media.None? then None
    else Some(Message(id, chat, sender, pushName, time, kind, body, ReplyTo(m), fromMe, media))
  }

  // ----- what each event writes -----

  function One(w: Write, now: int): Log {
    [Entry(w, now)]
  }

  function SenderMsOr(ms: int, fallback: Time): Time {
    if ms > 0 then At(ms) else fallback
  }

  /** An empty emoji removes the reaction instead of storing it. */
  function ReactionLog(r: Reaction, now: int): Log {
    if r.chat == "" || r.target == "" then []
    else if r.emoji == "" then One(DropReaction(r.chat, r.target, ReactionSenderKey(r.sender, r.isFromMe)), now)
    else One(PutReaction(r), now)
  }

  /** The pair is recorded only when one address is a LID and the other a phone number. */
  function AliasLog(a: Jid, b: Jid, now: int): Log {
    if a.server == "" || b.server == "" then []
    else if a.server == LID_SERVER && b.server == PHONE_SERVER then
      One(PutAlias(a.ToNonAD().ToString(), b.ToNonAD().ToString()), now)
    else if a.server == PHONE_SERVER && b.server == LID_SERVER then
      One(PutAlias(b.ToNonAD().ToString(), a.ToNonAD().ToString()), now)
    else []
  }

  function ContactLog(c: Contact, now: int): Log {
    if c.jid == "" then [] else One(PutContact(c), now)
  }

  function IdentityLog(info: Info, now: int): Log {
    var sender := info.sender.ToNonAD().ToString();
    (if info.isFromMe then [] else ContactLog(Contact(sender, info.pushName, info.verifiedName, "", ""), now))
    + AliasLog(info.sender, info.senderAlt, now)
  }

  function LiveReactionLog(info: Info, r: ReactionPart, fallback: Time, now: int): Log {
    if r.key.None? || r.key.value.id == "" then []
    else
      var chat := if r.key.value.remote != "" then r.key.value.remote else info.chat.ToString();
      var sender := info.sender.ToNonAD().ToString();
      (if info.isFromMe then [] else ContactLog(Contact(sender, info.pushName, "", "", ""), now))
      + AliasLog(info.sender, info.senderAlt, now)
      + ReactionLog(Reaction(chat, r.key.value.id, sender, r.text, SenderMsOr(r.senderMs, fallback), info.isFromMe),
                    now)
  }

  function VoteLog(info: Info, u: PollUpdate, now: int): Log {
    if u.pollId == "" || u.decrypted.None? then []
    else
      var time := match SenderMsOr(u.senderMs, info.time) case Zero => At(now * 1000) case t => t;
      var voter := info.sender.ToNonAD().ToString();
      One(PutVote(PollVote(info.chat.ToString(), u.pollId, voter, u.decrypted.value, time)), now)
  }

  function PollLog(chat: string, sender: string, id: string, time: Time, fromMe: bool, m: Envelope, now: int): Log {
    match m.poll
    case None => []
    case Some(p) =>
      One(PutPoll(Poll(chat, id, p.question, seq(|p.options|,
          i requires 0 <= i < |p.options| => PollOption(p.options[i], "")),
                       p.selectable, sender, fromMe, time)), now)
  }

  /** Edits and revokes in a protocol envelope; None when the envelope is neither. */
  function ProtocolLog(chat: string, time: Time, p: Protocol, now: int): Option<Log> {
    if p.key.None? || p.key.value.id == "" then None
    else
      var target := if p.key.value.remote != "" then p.key.value.remote else chat;
      match p.kind
      case Revoke => Some(One(DeleteMessage(target, p.key.value.id, time), now))
      case MessageEdit => Some(One(EditMessage(target, p.key.value.id, p.editedBody, time), now))
      case OtherProtocol => None
  }

  /** What an envelope that is neither an edit nor a revoke writes. */
  function ContentLog(info: Info, m: Envelope, time: Time, now: int): Log {
    var chat, sender := info.chat.ToString(), info.sender.ToNonAD().ToString();
    if m.reaction.Some? then LiveReactionLog(info, m.reaction.value, time, now)
    else if m.pollUpdate.Some? then IdentityLog(info, now) + VoteLog(info, m.pollUpdate.value, now)
    else
      One(PutChat(Chat(chat, "", info.isGroup, "", time, 0, false, false, Zero)), now)
      + IdentityLog(info, now)
      + (match MessageRowOf(chat, sender, info.id, info.pushName, time, info.isFromMe, m)
         case None => []
         case Some(row) => One(AddMessage(row), now) + PollLog(chat, sender, info.id, time, info.isFromMe, m, now))
  }

  function MessageLog(messages: map<Pair, MessageRow>, info: Info, msg: Option<Envelope>, isEdit: bool, now: int): Log {
    if info.id == "" || msg.None? then []
    else
      var m, chat := msg.value, info.chat.ToString();
      var time := match info.time case Zero => At(now * 1000) case t => t;
      var handled := match m.protocol case Some(p) => ProtocolLog(chat, time, p, now) case None => None;
      if handled.Some? then handled.value
      else if isEdit && (chat, info.id) in messages then One(EditMessage(chat, info.id, TextBody(m), time), now)
      else ContentLog(info, m, time, now)
  }

  // ----- history sync -----

  function Participant(key: WebKey): string {
    match key.parsed case Some(j) => j.ToNonAD().ToString() case None => key.participant
  }

  function HistoryReaction(chat: string, target: string, fallback: Time, r: WebReaction, now: int): Log {
    match r.key
    case None => []
    case Some(key) =>
      var sender := if key.participant != "" then Participant(key) else if key.fromMe then "" else chat;
      ReactionLog(Reaction(chat, target, sender, r.text, SenderMsOr(r.senderMs, fallback), key.fromMe), now)
  }

  function HistoryReactions(chat: string, target: string, fallback: Time, rs: seq<WebReaction>, now: int): Log {
    if rs == [] then []
    else HistoryReactions(chat, target, fallback, rs[..|rs| - 1], now)
         + HistoryReaction(chat, target, fallback, rs[|rs| - 1], now)
  }

  /** The message row and the ballot. */
  function HistoryRow(chat: string, sender: string, w: WebMessage, key: WebKey, m: Envelope, now: int): Log {
    var time := At(w.seconds * 1000);
    (match MessageRowOf(chat, sender, key.id, w.pushName, time, key.fromMe, m)
     case Some(row) => One(AddMessage(row), now) case None => [])
    + PollLog(chat, sender, key.id, time, key.fromMe, m, now)
  }

  function HistoryMessage(chat: string, w: WebMessage, now: int): Log {
    if w.key.None? || w.key.value.id == "" || w.msg.None? then []
    else
      var key, m, time := w.key.value, w.msg.value, At(w.seconds * 1000);
      var sender := if !key.fromMe && key.participant != "" then Participant(key) else chat;
      HistoryRow(chat, sender, w, key, m, now) + HistoryReactions(chat, key.id, time, w.reactions, now)
  }

  function HistoryMessages(chat: string, ws: seq<WebMessage>, now: int): Log {
    if ws == [] then [] else HistoryMessages(chat, ws[..|ws| - 1], now) + HistoryMessage(chat, ws[|ws| - 1], now)
  }

  function Later(t: Time, seconds: int): Time {
    if t.Zero? || t.ms < seconds * 1000 then At(seconds * 1000) else t
  }

  function Latest(ws: seq<WebMessage>): Time {
    if ws == [] then Zero else Later(Latest(ws[..|ws| - 1]), ws[|ws| - 1].seconds)
  }

  function ConversationLog(c: Conversation, now: int): Log {
    var chat := c.chat.ToString();
    HistoryMessages(chat, c.messages, now)
    + One(PutChat(Chat(chat, if c.name != "" then c.name else c.displayName, c.chat.server == GROUP_SERVER, "",
                       Latest(c.messages), c.unread, false, false, Zero)), now)
  }

  function HistoryLog(cs: seq<Conversation>, now: int): Log {
    if cs == [] then [] else HistoryLog(cs[..|cs| - 1], now) + ConversationLog(cs[|cs| - 1], now)
  }

  // ----- every event -----

  function BareChat(jid: string, isGroup: bool, chatType: string, name: string, time: Time): Chat {
    Chat(jid, name, isGroup, chatType, time, 0, false, false, Zero)
  }

  function PresenceLog(from: Jid, unavailable: bool, seen: Time, now: int): Log {
    if from.user == "" then [] else One(PutPresence(from.ToNonAD().ToString(), !unavailable, seen), now)
  }

  function EventLog(messages: map<Pair, MessageRow>, evt: Event, now: int): Log {
    match evt
    case MessageEvent(info, msg, isEdit) => MessageLog(messages, info, msg, isEdit, now)
    case HistorySync(cs) => HistoryLog(cs, now)
    case ContactEvent(jid, full, first) => ContactLog(Contact(jid.ToNonAD().ToString(), "", "", first, full), now)
    case PushName(jid, name) => ContactLog(Contact(jid.ToNonAD().ToString(), name, "", "", ""), now)
    case BusinessName(jid, name) => ContactLog(Contact(jid.ToNonAD().ToString(), "", name, "", ""), now)
    case GroupInfo(jid, name, time) =>
      One(PutChat(BareChat(jid.ToString(), true, "", match name case Some(n) => n case None => "", time)), now)
    case JoinedGroup(jid, isParent, name, setAt) =>
      if jid.user == "" then []
      else One(PutChat(BareChat(jid.ToString(), true, if isParent then "community" else "group", name, setAt)), now)
    case NewsletterJoin(id, name, created) =>
      if id.user == "" then [] else One(PutChat(BareChat(id.ToString(), false, "newsletter", name, created)), now)
    case NewsletterLeave(id) =>
      if id.user == "" then [] else One(PutChat(BareChat(id.ToString(), false, "newsletter", "", Zero)), now)
    case MarkChatAsRead(jid, read) =>
      if jid.user == "" then [] else One(SetUnread(jid.ToString(), jid.server == GROUP_SERVER, !read), now)
    case Pin(jid, pinned) =>
      if jid.user == "" then [] else One(SetPinned(jid.ToString(), jid.server == GROUP_SERVER, pinned), now)
    case Archive(jid, archived) =>
      if jid.user == "" then [] else One(SetArchived(jid.ToString(), jid.server == GROUP_SERVER, archived), now)
    case Star(chat) =>
      if chat.user == "" then []
      else One(PutChat(BareChat(chat.ToString(), chat.server == GROUP_SERVER, "", "", Zero)), now)
    case Presence(from, unavailable, seen) => PresenceLog(from, unavailable, seen, now)
    case Unknown => []
  }
}
