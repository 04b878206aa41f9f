/** The tables of the message cache, each a map from its conflict key, and the writes that change them. */
module CacheTables {
  import opened Wrappers
  import opened GoValues

  /** A Go time.Time: the zero value, or an instant in milliseconds. */
  datatype Time = Zero | At(ms: int)

  /** Stored timestamps are whole seconds; the zero time is stored as 0. */
  function UnixSeconds(t: Time): int {
    match t
    case Zero => 0
    case At(ms) => ms / 1000
  }

  datatype MessageKind = Text | Image | Video | Audio | Document | Sticker | PollKind | Other

  datatype Media = Media(mime: string, filename: string, url: string, directPath: string, key: seq<bv8>,
                         sha256: seq<bv8>, encSha256: seq<bv8>, length: nat)

  const NO_MEDIA := Media("", "", "", "", [], [], [], 0)

  // ----- what callers pass in -----

  datatype Chat = Chat(jid: string, name: string, isGroup: bool, chatType: string, lastMessage: Time,
                       unread: int, archived: bool, pinned: bool, mutedUntil: Time)

  datatype Contact = Contact(jid: string, pushName: string, businessName: string, firstName: string, fullName: string)

  datatype Message = Message(id: string, chat: string, sender: string, pushName: string, time: Time, kind: MessageKind,
                             body: string, replyTo: string, isFromMe: bool, media: Option<Media>)

  datatype Reaction = Reaction(chat: string, target: string, sender: string, emoji: string, time: Time, isFromMe: bool)

  datatype PollOption = PollOption(name: string, hash: string)

  datatype Poll = Poll(chat: string, id: string, question: string, options: seq<PollOption>, selectable: int,
                       sender: string, isFromMe: bool, time: Time)

  datatype PollVote = PollVote(chat: string, poll: string, voter: string, selected: seq<string>, time: Time)

  // ----- rows -----

  datatype ChatRow = ChatRow(name: string, isGroup: bool, chatType: string, lastTs: int, unread: int,
                             archived: bool, pinned: bool, mutedUntil: int, updatedAt: int)

  datatype ContactRow = ContactRow(pushName: string, businessName: string, firstName: string, fullName: string,
                                   updatedAt: int, online: bool, lastSeen: int, seenAt: int)

  datatype MessageRow = MessageRow(sender: string, pushName: string, ts: int, kind: MessageKind, body: string,
                                   replyTo: string, isFromMe: bool, media: Media,
                                   edited: bool, editedAt: int, deleted: bool, deletedAt: int)

  datatype ReactionRow = ReactionRow(emoji: string, ts: int, isFromMe: bool)

  datatype PollRow = PollRow(question: string, selectable: int, sender: string, isFromMe: bool, ts: int, updatedAt: int)

  datatype VoteRow = VoteRow(selected: seq<string>, ts: int)

  type Pair = (string, string)
  type Triple = (string, string, string)

  datatype Db = Db(
    chats: map<string, ChatRow>,
    contacts: map<string, ContactRow>,
    aliases: map<Pair, int>,
    messages: map<Pair, MessageRow>,
    reactions: map<Triple, ReactionRow>,
    polls: map<Pair, PollRow>,
    ballots: map<Pair, seq<PollOption>>,
    votes: map<Triple, VoteRow>)

  const EMPTY := Db(map[], map[], map[], map[], map[], map[], map[], map[])

  // ----- writes -----

  datatype Write =
    | PutChat(chat: Chat)
    | SetPinned(jid: string, isGroup: bool, pinned: bool)
    | SetArchived(jid: string, isGroup: bool, archived: bool)
    | SetUnread(jid: string, isGroup: bool, unread: bool)
    | PutContact(contact: Contact)
    | PutPresence(jid: string, online: bool, lastSeen: Time)
    | PutAlias(lid: string, pn: string)
    | AddMessage(message: Message)
    | EditMessage(chatJid: string, id: string, body: string, time: Time)
    | DeleteMessage(chatJid: string, id: string, time: Time)
    | PutReaction(reaction: Reaction)
    | DropReaction(chatJid: string, target: string, sender: string)
    | PutPoll(poll: Poll)
    | PutVote(vote: PollVote)

  function DeriveChatType(jid: string, isGroup: bool): string {
    if HasSuffix(jid, "@newsletter") then "newsletter" else if isGroup then "group" else "direct"
  }

  function NonEmptyOr(incoming: string, existing: string): string {
    if incoming != "" then incoming else existing
  }

  function MaxInt(a: int, b: int): int {
    if a < b then b else a
  }

  function UpsertChat(chats: map<string, ChatRow>, c: Chat, now: int): map<string, ChatRow> {
    if c.jid == "" then chats
    else
      var effective := NonEmptyOr(c.chatType, DeriveChatType(c.jid, c.isGroup));
      var row := ChatRow(c.name, c.isGroup, effective, UnixSeconds(c.lastMessage), c.unread, c.archived, c.pinned,
                         UnixSeconds(c.mutedUntil), now);
      if c.jid !in chats then chats[c.jid := row]
      else
        var existing := chats[c.jid];
        chats[c.jid := row.(name := NonEmptyOr(c.name, existing.name),
                            chatType := NonEmptyOr(c.chatType, existing.chatType),
                            lastTs := MaxInt(existing.lastTs, row.lastTs))]
  }

  /** The row a flag setter starts from: the existing one, or a bare one. */
  function FlagBase(chats: map<string, ChatRow>, jid: string, isGroup: bool): ChatRow {
    if jid in chats then chats[jid] else ChatRow("", isGroup, DeriveChatType(jid, isGroup), 0, 0, false, false, 0, 0)
  }

  function UpsertContact(contacts: map<string, ContactRow>, c: Contact, now: int): map<string, ContactRow> {
    if c.jid == "" then contacts
    else
      var e := if c.jid in contacts then contacts[c.jid] else ContactRow("", "", "", "", 0, false, 0, 0);
      contacts[c.jid := e.(pushName := NonEmptyOr(c.pushName, e.pushName),
                           businessName := NonEmptyOr(c.businessName, e.businessName),
                           firstName := NonEmptyOr(c.firstName, e.firstName),
                           fullName := NonEmptyOr(c.fullName, e.fullName),
                           updatedAt := now)]
  }

  function UpsertPresence(contacts: map<string, ContactRow>, jid: string, online: bool, lastSeen: Time, now: int)
    : map<string, ContactRow>
  {
    if jid == "" then contacts
    else if jid !in contacts then
      contacts[jid := ContactRow("", "", "", "", now, online, UnixSeconds(lastSeen), now)]
    else
      var e := contacts[jid];
      contacts[jid := e.(online := online,
                         lastSeen := if UnixSeconds(lastSeen) != 0 then UnixSeconds(lastSeen) else e.lastSeen,
                         seenAt := now)]
  }

  function InsertMessage(messages: map<Pair, MessageRow>, m: Message): map<Pair, MessageRow> {
    if m.chat == "" || m.id == "" || (m.chat, m.id) in messages then messages
    else messages[(m.chat, m.id) :=
      MessageRow(m.sender, m.pushName, UnixSeconds(m.time), m.kind, m.body, m.replyTo, m.isFromMe,
                 match m.media case Some(media) => media case None => NO_MEDIA, false, 0, false, 0)]
  }

  /** Our own reactions are filed under the empty sender. */
  function ReactionSenderKey(sender: string, isFromMe: bool): string {
    if isFromMe then "" else sender
  }

  function ReactionKey(r: Reaction): Triple {
    (r.chat, r.target, ReactionSenderKey(r.sender, r.isFromMe))
  }

  function ReactionValue(r: Reaction): ReactionRow {
    ReactionRow(r.emoji, UnixSeconds(r.time), r.isFromMe)
  }

  predicate Storable(r: Reaction) {
    r.chat != "" && r.target != "" && r.emoji != ""
  }

  function UpsertReaction(reactions: map<Triple, ReactionRow>, r: Reaction): map<Triple, ReactionRow> {
    if !Storable(r) then reactions
    else
      var key, row := ReactionKey(r), ReactionValue(r);
      if key in reactions && row.ts < reactions[key].ts then reactions else reactions[key := row]
  }

  function DeleteReaction(reactions: map<Triple, ReactionRow>, chat: string, target: string, sender: string)
    : map<Triple, ReactionRow>
  {
    if chat == "" || target == "" then reactions else reactions - {(chat, target, sender)}
  }

  function VoteKey(v: PollVote): Triple {
    (v.chat, v.poll, v.voter)
  }

  predicate Countable(v: PollVote) {
    v.chat != "" && v.poll != "" && v.voter != ""
  }

  function UpsertVote(votes: map<Triple, VoteRow>, v: PollVote): map<Triple, VoteRow> {
    if !Countable(v) then votes
    else
      var key, row := VoteKey(v), VoteRow(v.selected, UnixSeconds(v.time));
      if key in votes && row.ts < votes[key].ts then votes else votes[key := row]
  }

  function UpsertPollRow(polls: map<Pair, PollRow>, p: Poll, now: int): map<Pair, PollRow> {
    if p.chat == "" || p.id == "" then polls
    else
      var key := (p.chat, p.id);
      var sender := if p.sender == "" && key in polls then polls[key].sender else p.sender;
      polls[key := PollRow(p.question, p.selectable, sender, p.isFromMe, UnixSeconds(p.time), now)]
  }

  /** The ballot is rewritten wholesale; missing hashes are computed from the names. */
  function UpsertBallot(ballots: map<Pair, seq<PollOption>>, p: Poll, hash: string -> string)
    : map<Pair, seq<PollOption>>
  {
    if p.chat == "" || p.id == "" then ballots
    else ballots[(p.chat, p.id) := HashedBallot(p.options, hash)]
  }

  function HashedBallot(options: seq<PollOption>, hash: string -> string): seq<PollOption> {
    if options == [] then []
    else
      var last := options[|options| - 1];
      HashedBallot(options[..|options| - 1], hash) + [if last.hash == "" then last.(hash := hash(last.name)) else last]
  }

  // ----- the effect of one write on each table, at wall-clock second `now` -----

  function ApplyChats(chats: map<string, ChatRow>, w: Write, now: int): map<string, ChatRow> {
    match w
    case PutChat(c) => UpsertChat(chats, c, now)
    case SetPinned(jid, isGroup, v) =>
      if jid == "" then chats else chats[jid := FlagBase(chats, jid, isGroup).(pinned := v, updatedAt := now)]
    case SetArchived(jid, isGroup, v) =>
      if jid == "" then chats else chats[jid := FlagBase(chats, jid, isGroup).(archived := v, updatedAt := now)]
    case SetUnread(jid, isGroup, v) =>
      if jid == "" then chats
      else chats[jid := FlagBase(chats, jid, isGroup).(unread := if v then 1 else 0, updatedAt := now)]
    case _ => chats
  }

  function ApplyContacts(contacts: map<string, ContactRow>, w: Write, now: int): map<string, ContactRow> {
    match w
    case PutContact(c) => UpsertContact(contacts, c, now)
    case PutPresence(jid, online, seen) => UpsertPresence(contacts, jid, online, seen, now)
    case _ => contacts
  }

  function ApplyAliases(aliases: map<Pair, int>, w: Write, now: int): map<Pair, int> {
    match w
    case PutAlias(lid, pn) => if lid == "" || pn == "" then aliases else aliases[(lid, pn) := now]
    case _ => aliases
  }

  function ApplyMessages(messages: map<Pair, MessageRow>, w: Write, now: int): map<Pair, MessageRow> {
    match w
    case AddMessage(m) => InsertMessage(messages, m)
    case EditMessage(chat, id, body, time) =>
      if (chat, id) !in messages then messages
      else messages[(chat, id) := messages[(chat, id)].(body := body, edited := true, editedAt := UnixSeconds(time))]
    case DeleteMessage(chat, id, time) =>
      if (chat, id) !in messages then messages
      else messages[(chat, id) := messages[(chat, id)].(body := "", deleted := true, deletedAt := UnixSeconds(time))]
    case _ => messages
  }

  function ApplyReactions(reactions: map<Triple, ReactionRow>, w: Write, now: int): map<Triple, ReactionRow> {
    match w
    case PutReaction(r) => UpsertReaction(reactions, r)
    case DropReaction(chat, target, sender) => DeleteReaction(reactions, chat, target, sender)
    case _ => reactions
  }

  function ApplyPolls(polls: map<Pair, PollRow>, w: Write, now: int): map<Pair, PollRow> {
    match w
    case PutPoll(p) => UpsertPollRow(polls, p, now)
    case _ => polls
  }

  function ApplyBallots(ballots: map<Pair, seq<PollOption>>, w: Write, hash: string -> string)
    : map<Pair, seq<PollOption>>
  {
    match w
    case PutPoll(p) => UpsertBallot(ballots, p, hash)
    case _ => ballots
  }

  function BallotStep(hash: string -> string): (map<Pair, seq<PollOption>>, Write, int) -> map<Pair, seq<PollOption>> {
    (ballots, w, now) => ApplyBallots(ballots, w, hash)
  }

  function ApplyVotes(votes: map<Triple, VoteRow>, w: Write, now: int): map<Triple, VoteRow> {
    match w
    case PutVote(v) => UpsertVote(votes, v)
    case _ => votes
  }

  function Apply(db: Db, w: Write, now: int, hash: string -> string): Db {
    Db(ApplyChats(db.chats, w, now), ApplyContacts(db.contacts, w, now), ApplyAliases(db.aliases, w, now),
       ApplyMessages(db.messages, w, now), ApplyReactions(db.reactions, w, now), ApplyPolls(db.polls, w, now),
       ApplyBallots(db.ballots, w, hash), ApplyVotes(db.votes, w, now))
  }

  // ----- the effect of a sequence of writes -----

  /** A write and the second it was made. */
  datatype Entry = Entry(write: Write, now: int)

  type Log = seq<Entry>

  function Fold<T>(t: T, log: Log, step: (T, Write, int) -> T): T
    decreases |log|
  {
    if log == [] then t else Fold(step(t, log[0].write, log[0].now), log[1..], step)
  }

  function Replay(db: Db, log: Log, hash: string -> string): Db {
    Db(Fold(db.chats, log, ApplyChats), Fold(db.contacts, log, ApplyContacts), Fold(db.aliases, log, ApplyAliases),
       Fold(db.messages, log, ApplyMessages), Fold(db.reactions, log, ApplyReactions), Fold(db.polls, log, ApplyPolls),
       Fold(db.ballots, log, BallotStep(hash)), Fold(db.votes, log, ApplyVotes))
  }

  lemma {:induction false} FoldJoin<T>(t: T, a: Log, b: Log, step: (T, Write, int) -> T)
    ensures Fold(t, a + b, step) == Fold(Fold(t, a, step), b, step)
    decreases |a|
  {
    if a == [] {
      assert a + b == b;
    } else {
      assert (a + b)[1..] == a[1..] + b;
      FoldJoin(step(t, a[0].write, a[0].now), a[1..], b, step);
    }
  }

  lemma FoldOne<T>(t: T, e: Entry, step: (T, Write, int) -> T)
    ensures Fold(t, [e], step) == step(t, e.write, e.now)
  {
    assert [e][1..] == [];
  }

  lemma ReplayJoin(db: Db, a: Log, b: Log, hash: string -> string)
    ensures Replay(db, a + b, hash) == Replay(Replay(db, a, hash), b, hash)
  {
    FoldJoin(db.chats, a, b, ApplyChats);
    FoldJoin(db.contacts, a, b, ApplyContacts);
    FoldJoin(db.aliases, a, b, ApplyAliases);
    FoldJoin(db.messages, a, b, ApplyMessages);
    FoldJoin(db.reactions, a, b, ApplyReactions);
    FoldJoin(db.polls, a, b, ApplyPolls);
    FoldJoin(db.ballots, a, b, BallotStep(hash));
    FoldJoin(db.votes, a, b, ApplyVotes);
  }

  lemma ReplayOne(db: Db, e: Entry, hash: string -> string)
    ensures Replay(db, [e], hash) == Apply(db, e.write, e.now, hash)
    ensures Replay(db, [], hash) == db
  {
    FoldOne(db.chats, e, ApplyChats);
    FoldOne(db.contacts, e, ApplyContacts);
    FoldOne(db.aliases, e, ApplyAliases);
    FoldOne(db.messages, e, ApplyMessages);
    FoldOne(db.reactions, e, ApplyReactions);
    FoldOne(db.polls, e, ApplyPolls);
    FoldOne(db.ballots, e, BallotStep(hash));
    FoldOne(db.votes, e, ApplyVotes);
  }
}
