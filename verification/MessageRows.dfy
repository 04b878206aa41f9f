/**
 What a message row holds: for every envelope that is new when it arrives, live or in a history sync, the
 row at the end of any run shows that envelope.
 */
module MessageRows {
  import opened Wrappers
  import opened CacheTables
  import opened Events
  import opened IngestRuns

  // ----- what an envelope shows -----

  predicate HasText(m: Envelope) {
    m.conversation != "" || m.ext.Some?
  }

  /** The envelope is of this kind: text first, then the first part present. */
  predicate IsKind(m: Envelope, kind: MessageKind) {
    match kind
    case Text => HasText(m)
    case Image => !HasText(m) && m.image.Some?
    case Video => !HasText(m) && m.image.None? && m.video.Some?
    case Audio => !HasText(m) && m.image.None? && m.video.None? && m.audio.Some?
    case Document => !HasText(m) && m.image.None? && m.video.None? && m.audio.None? && m.document.Some?
    case PollKind =>
      !HasText(m) && m.image.None? && m.video.None? && m.audio.None? && m.document.None? && m.poll.Some?
    case Sticker =>
      && !HasText(m) && m.image.None? && m.video.None? && m.audio.None? && m.document.None? && m.poll.None?
      && m.sticker.Some?
    case Other =>
      && !HasText(m) && m.image.None? && m.video.None? && m.audio.None? && m.document.None? && m.poll.None?
      && m.sticker.None?
  }

  /** The row shows the part that gives the envelope its kind. */
  ghost predicate ShowsPart(kind: MessageKind, body: string, media: Media, m: Envelope) {
    IsKind(m, kind) &&
    match kind
    case Text => body == (if m.conversation != "" then m.conversation else m.ext.value.text) && media == NO_MEDIA
    case Image => body == m.image.value.caption && media == m.image.value.media
    case Video => body == m.video.value.caption && media == m.video.value.media
    case Audio => body == "" && media == m.audio.value.media
    case Document => body == m.document.value.caption && media == m.document.value.media
    case PollKind => body == m.poll.value.question && media == NO_MEDIA
    case Sticker => body == "" && media == m.sticker.value.media
    case Other => false
  }

  function Replies(p: Option<MediaPart>): seq<string> {
    if p.Some? && p.value.replyTo.Some? then [p.value.replyTo.value] else []
  }

  /** Every message id a part quotes, the text's first. */
  function Quoted(m: Envelope): seq<string> {
    (if m.ext.Some? && m.ext.value.replyTo.Some? then [m.ext.value.replyTo.value] else [])
    + Replies(m.image) + Replies(m.video) + Replies(m.audio) + Replies(m.document)
  }

  /** Who sent what and when, and which message it answers. */
  datatype Origin = Origin(sender: string, pushName: string, seconds: int, isFromMe: bool)

  /** The row of an envelope as it arrived, whatever edits and revokes came later. */
  ghost predicate Shows(row: MessageRow, o: Origin, m: Envelope) {
    && row.sender == o.sender && row.pushName == o.pushName && row.ts == o.seconds && row.isFromMe == o.isFromMe
    && row.replyTo == (if Quoted(m) == [] then "" else Quoted(m)[0])
    && (exists body :: ShowsPart(row.kind, body, row.media, m))
    && (!row.edited && !row.deleted ==> ShowsPart(row.kind, row.body, row.media, m))
  }

  lemma RowIs(chat: string, sender: string, id: string, pushName: string, time: Time, fromMe: bool, m: Envelope)
    ensures var r := MessageRowOf(chat, sender, id, pushName, time, fromMe, m);
            && (r.None? <==> IsKind(m, Other))
            && (r.Some? ==>
                 && r.value.id == id && r.value.chat == chat
                 && Shows(NewRow(r.value), Origin(sender, pushName, UnixSeconds(time), fromMe), m))
  {
    var r := MessageRowOf(chat, sender, id, pushName, time, fromMe, m);
    QuotedIsReply(m);
    if r.Some? {
      assert ShowsPart(r.value.kind, r.value.body, NewRow(r.value).media, m);
    }
  }

  // ----- envelopes with one part -----

  datatype Part =
    | Words(text: string)
    | Formatted(rich: ExtText)
    | Picture(part: MediaPart)
    | Clip(part: MediaPart)
    | Voice(part: MediaPart)
    | Attachment(part: MediaPart)
    | Stamp(part: MediaPart)
    | Ballot(creation: PollCreation)

  const BLANK := Envelope("", None, None, None, None, None, None, None, None, None, None)

  function With(part: Part): Envelope {
    match part
    case Words(text) => BLANK.(conversation := text)
    case Formatted(t) => BLANK.(ext := Some(t))
    case Picture(p) => BLANK.(image := Some(p))
    case Clip(p) => BLANK.(video := Some(p))
    case Voice(p) => BLANK.(audio := Some(p))
    case Attachment(p) => BLANK.(document := Some(p))
    case Stamp(p) => BLANK.(sticker := Some(p))
    case Ballot(c) => BLANK.(poll := Some(c))
  }

  /** An envelope of one part shows that part: its kind, its text, its media and what it quotes. */
  lemma OnePart(row: MessageRow, o: Origin, part: Part)
    requires Shows(row, o, With(part)) && !row.edited && !row.deleted
    ensures match part
            case Words(text) => row.kind == Text && row.body == text && row.media == NO_MEDIA && row.replyTo == ""
            case Formatted(t) => row.kind == Text && row.body == t.text && row.media == NO_MEDIA
            case Picture(p) => row.kind == Image && row.body == p.caption && row.media == p.media
            case Clip(p) => row.kind == Video && row.body == p.caption && row.media == p.media
            case Voice(p) => row.kind == Audio && row.body == "" && row.media == p.media
            case Attachment(p) => row.kind == Document && row.body == p.caption && row.media == p.media
            case Stamp(p) => row.kind == Sticker && row.body == "" && row.media == p.media && row.replyTo == ""
            case Ballot(c) =>
              row.kind == PollKind && row.body == c.question && row.media == NO_MEDIA && row.replyTo == ""
    ensures part.Formatted? ==> row.replyTo == (match part.rich.replyTo case Some(id) => id case None => "")
    ensures part.Picture? || part.Clip? || part.Voice? || part.Attachment? ==>
            row.replyTo == (match part.part.replyTo case Some(id) => id case None => "")
  {
  }

  lemma QuotedIsReply(m: Envelope)
    ensures ReplyTo(m) == if Quoted(m) == [] then "" else Quoted(m)[0]
  {
  }

  /** The row a message is inserted as. */
  function NewRow(m: Message): MessageRow {
    InsertMessage(map[], m.(id := "x", chat := "x"))[("x", "x")]
  }

  lemma InsertedRow(t: map<Pair, MessageRow>, m: Message)
    requires m.chat != "" && m.id != "" && (m.chat, m.id) !in t
    ensures InsertMessage(t, m) == t[(m.chat, m.id) := NewRow(m)]
  {
  }

  lemma ShowsLater(r: MessageRow, s: MessageRow, o: Origin, m: Envelope)
    requires Shows(r, o, m) && MessageGrows(r, s)
    ensures Shows(s, o, m)
  {
  }

  // ----- the first message under a key stays -----

  ghost predicate Adds(log: Log, k: Pair) {
    exists e :: e in log && e.write.AddMessage? && (e.write.message.chat, e.write.message.id) == k
  }

  lemma {:induction false} NotAdded(t: map<Pair, MessageRow>, log: Log, k: Pair)
    requires k !in t && !Adds(log, k)
    ensures k !in Fold(t, log, ApplyMessages)
    decreases |log|
  {
    if log != [] {
      assert log[0] in log;
      NotAdded(ApplyMessages(t, log[0].write, log[0].now), log[1..], k);
    }
  }

  lemma AddedFirst(t: map<Pair, MessageRow>, a: Log, msg: Message, now: int, b: Log, o: Origin, m: Envelope)
    requires msg.chat != "" && msg.id != "" && (msg.chat, msg.id) !in t && !Adds(a, (msg.chat, msg.id))
    requires Shows(NewRow(msg), o, m)
    ensures var t', k := Fold(t, a + One(AddMessage(msg), now) + b, ApplyMessages), (msg.chat, msg.id);
            k in t' && Shows(t'[k], o, m)
  {
    var k := (msg.chat, msg.id);
    NotAdded(t, a, k);
    var t0 := Fold(t, a, ApplyMessages);
    var t1 := t0[k := NewRow(msg)];
    InsertedRow(t0, msg);
    FoldJoin(t, a + One(AddMessage(msg), now), b, ApplyMessages);
    FoldJoin(t, a, One(AddMessage(msg), now), ApplyMessages);
    FoldOne(t0, Entry(AddMessage(msg), now), ApplyMessages);
    assert Fold(t, a + One(AddMessage(msg), now), ApplyMessages) == t1;
    MessagesGrow(t1, b, k);
    ShowsLater(t1[k], Fold(t1, b, ApplyMessages)[k], o, m);
  }

  // ----- runs -----

  lemma {:induction false} RunJoin(db: Db, a: seq<Timed>, b: seq<Timed>, hash: string -> string)
    ensures Run(db, a + b, hash) == Run(Run(db, a, hash), b, hash)
    decreases |a|
  {
    if a == [] {
      assert a + b == b;
    } else {
      assert (a + b)[1..] == a[1..] + b;
      RunJoin(Replay(db, EventLog(db.messages, a[0].event, a[0].now), hash), a[1..], b, hash);
    }
  }

  /** What one event stores is shown at the end of the run. */
  lemma ShownAtTheEnd(db: Db, before: seq<Timed>, e: Timed, after: seq<Timed>, hash: string -> string, k: Pair,
                      o: Origin, m: Envelope)
    requires var messages := Run(db, before, hash).messages;
             var t := Fold(messages, EventLog(messages, e.event, e.now), ApplyMessages);
             k in t && Shows(t[k], o, m)
    ensures var messages := Run(db, before + [e] + after, hash).messages; k in messages && Shows(messages[k], o, m)
  {
    RunJoin(db, before + [e], after, hash);
    RunJoin(db, before, [e], hash);
    var db0 := Run(db, before, hash);
    var db1 := Run(db0, [e], hash);
    assert [e][1..] == [];
    assert db1 == Replay(db0, EventLog(db0.messages, e.event, e.now), hash);
    RunsAreMonotone(db1, after, hash);
    ShowsLater(db1.messages[k], Run(db1, after, hash).messages[k], o, m);
  }

  // ----- live messages -----

  function Address(user: string, device: string, server: string): string {
    if user == "" then server else user + device + "@" + server
  }

  /** An envelope that is a message of its own: no reaction, vote, edit or revoke, and something to show. */
  predicate IsMessage(m: Envelope) {
    && m.reaction.None? && m.pollUpdate.None? && !IsKind(m, Other)
    && match m.protocol
       case None => true
       case Some(p) => p.kind.OtherProtocol? || p.key.None? || p.key.value.id == ""
  }

  lemma LiveLog(messages: map<Pair, MessageRow>, info: Info, m: Envelope, isEdit: bool, now: int, row: Message)
    returns (a: Log, b: Log)
    requires info.id != "" && IsMessage(m) && (info.chat.ToString(), info.id) !in messages
    requires var time := if info.time == Zero then At(now * 1000) else info.time;
             Some(row) == MessageRowOf(info.chat.ToString(), info.sender.ToNonAD().ToString(), info.id, info.pushName,
                                       time, info.isFromMe, m)
    ensures !Adds(a, (info.chat.ToString(), info.id))
    ensures EventLog(messages, MessageEvent(info, Some(m), isEdit), now) == a + One(AddMessage(row), now) + b
  {
    var time := if info.time == Zero then At(now * 1000) else info.time;
    var chat, sender := info.chat.ToString(), info.sender.ToNonAD().ToString();
    a := One(PutChat(Chat(chat, "", info.isGroup, "", time, 0, false, false, Zero)), now) + IdentityLog(info, now);
    b := PollLog(chat, sender, info.id, time, info.isFromMe, m, now);
    assert EventLog(messages, MessageEvent(info, Some(m), isEdit), now) == ContentLog(info, m, time, now);
    assert a + (One(AddMessage(row), now) + b) == a + One(AddMessage(row), now) + b;
    IdentityAddsNothing(info, now, (chat, info.id));
  }

  lemma IdentityAddsNothing(info: Info, now: int, k: Pair)
    ensures !Adds(IdentityLog(info, now), k)
  {
  }

  lemma LiveRow(messages: map<Pair, MessageRow>, info: Info, m: Envelope, isEdit: bool, now: int)
    requires info.id != "" && info.chat.ToString() != "" && IsMessage(m)
    requires (info.chat.ToString(), info.id) !in messages
    ensures var time := if info.time == Zero then At(now * 1000) else info.time;
            var k := (info.chat.ToString(), info.id);
            var t := Fold(messages, EventLog(messages, MessageEvent(info, Some(m), isEdit), now), ApplyMessages);
            && k in t
            && Shows(t[k], Origin(info.sender.ToNonAD().ToString(), info.pushName, UnixSeconds(time), info.isFromMe), m)
  {
    var chat, sender := info.chat.ToString(), info.sender.ToNonAD().ToString();
    var time := if info.time == Zero then At(now * 1000) else info.time;
    RowIs(chat, sender, info.id, info.pushName, time, info.isFromMe, m);
    var row := MessageRowOf(chat, sender, info.id, info.pushName, time, info.isFromMe, m);
    var a, b := LiveLog(messages, info, m, isEdit, now, row.value);
    AddedFirst(messages, a, row.value, now, b, Origin(sender, info.pushName, UnixSeconds(time), info.isFromMe), m);
  }

  lemma AddressIs(j: Jid)
    ensures j.ToString() == Address(j.user, j.device, j.server)
    ensures j.ToNonAD().ToString() == Address(j.user, "", j.server)
    ensures j.server != "" ==> j.ToString() != ""
  {
  }

  lemma SecondsOf(time: Time, now: int)
    ensures UnixSeconds(if time == Zero then At(now * 1000) else time) ==
            match time case Zero => now case At(ms) => ms / 1000
  {
  }

  /**
   A message that is new when it arrives is in the table at the end of the run, with its sender, time and
   flags, the kind and media of its part, the text, caption or question as body, and what it quotes.
   */
  lemma NewMessageIsStored(db: Db, before: seq<Timed>, info: Info, m: Envelope, isEdit: bool, now: int,
                           after: seq<Timed>, hash: string -> string)
    requires info.id != "" && info.chat.server != "" && IsMessage(m)
    requires (Address(info.chat.user, info.chat.device, info.chat.server), info.id) !in Run(db, before, hash).messages
    ensures var messages := Run(db, before + [Timed(MessageEvent(info, Some(m), isEdit), now)] + after, hash).messages;
            var k := (Address(info.chat.user, info.chat.device, info.chat.server), info.id);
            var seconds := match info.time case Zero => now case At(ms) => ms / 1000;
            && k in messages
            && Shows(messages[k], Origin(Address(info.sender.user, "", info.sender.server), info.pushName, seconds,
                                         info.isFromMe), m)
  {
    AddressIs(info.chat);
    AddressIs(info.sender);
    SecondsOf(info.time, now);
    LiveRow(Run(db, before, hash).messages, info, m, isEdit, now);
    var seconds := match info.time case Zero => now case At(ms) => ms / 1000;
    ShownAtTheEnd(db, before, Timed(MessageEvent(info, Some(m), isEdit), now), after, hash,
                  (info.chat.ToString(), info.id),
                  Origin(Address(info.sender.user, "", info.sender.server), info.pushName, seconds, info.isFromMe), m);
  }

  // ----- messages of a history sync -----

  lemma Regroup<T>(a: seq<T>, b: seq<T>, c: seq<T>)
    ensures a + (b + c) == (a + b) + c
  {
  }

  /** The logs of the members, one after the other. */
  function Flat<T>(log: T -> Log, s: seq<T>): Log {
    if s == [] then [] else Flat(log, s[..|s| - 1]) + log(s[|s| - 1])
  }

  lemma FlatNext<T>(log: T -> Log, s: seq<T>, x: T)
    ensures Flat(log, s + [x]) == Flat(log, s) + log(x)
  {
    assert (s + [x])[..|s|] == s;
  }

  lemma {:induction false} FlatJoin<T>(log: T -> Log, a: seq<T>, b: seq<T>)
    ensures Flat(log, a + b) == Flat(log, a) + Flat(log, b)
  {
    if b == [] {
      assert a + b == a;
    } else {
      var front, x := b[..|b| - 1], b[|b| - 1];
      FlatJoin(log, a, front);
      FlatNext(log, a + front, x);
      assert a + b == (a + front) + [x];
      Regroup(Flat(log, a), Flat(log, front), log(x));
    }
  }

  lemma {:induction false} MessagesAreFlat(chat: string, ws: seq<WebMessage>, now: int, log: WebMessage -> Log)
    requires log == ((w: WebMessage) => HistoryMessage(chat, w, now))
    ensures HistoryMessages(chat, ws, now) == Flat(log, ws)
  {
    if ws != [] {
      MessagesAreFlat(chat, ws[..|ws| - 1], now, log);
    }
  }

  lemma {:induction false} HistoryIsFlat(cs: seq<Conversation>, now: int, log: Conversation -> Log)
    requires log == ((c: Conversation) => ConversationLog(c, now))
    ensures HistoryLog(cs, now) == Flat(log, cs)
  {
    if cs != [] {
      HistoryIsFlat(cs[..|cs| - 1], now, log);
    }
  }

  /** The messages before and after one. */
  lemma MessagesAround(chat: string, a: seq<WebMessage>, w: WebMessage, b: seq<WebMessage>, now: int)
    ensures HistoryMessages(chat, a + [w] + b, now) ==
            HistoryMessages(chat, a, now) + HistoryMessage(chat, w, now) + HistoryMessages(chat, b, now)
  {
    var log := (w: WebMessage) => HistoryMessage(chat, w, now);
    FlatJoin(log, a + [w], b);
    FlatNext(log, a, w);
    MessagesAreFlat(chat, a + [w] + b, now, log);
    MessagesAreFlat(chat, a, now, log);
    MessagesAreFlat(chat, b, now, log);
  }

  lemma HistoryAround(a: seq<Conversation>, c: Conversation, b: seq<Conversation>, now: int)
    ensures HistoryLog(a + [c] + b, now) == HistoryLog(a, now) + ConversationLog(c, now) + HistoryLog(b, now)
  {
    var log := (c: Conversation) => ConversationLog(c, now);
    FlatJoin(log, a + [c], b);
    FlatNext(log, a, c);
    HistoryIsFlat(a + [c] + b, now, log);
    HistoryIsFlat(a, now, log);
    HistoryIsFlat(b, now, log);
  }

  /** None of the messages has this id. */
  predicate Lacks(ws: seq<WebMessage>, id: string) {
    forall w :: w in ws && w.key.Some? ==> w.key.value.id != id
  }

  predicate HistoryLacks(cs: seq<Conversation>, k: Pair) {
    forall c :: c in cs && Address(c.chat.user, c.chat.device, c.chat.server) == k.0 ==> Lacks(c.messages, k.1)
  }

  lemma {:induction false} ReactionsAddNothing(chat: string, target: string, fallback: Time, rs: seq<WebReaction>,
                                               now: int, k: Pair)
    ensures !Adds(HistoryReactions(chat, target, fallback, rs, now), k)
  {
    if rs != [] {
      ReactionsAddNothing(chat, target, fallback, rs[..|rs| - 1], now, k);
    }
  }

  lemma MessageAdds(chat: string, w: WebMessage, now: int, k: Pair)
    requires chat == k.0 && w.key.Some? ==> w.key.value.id != k.1
    ensures !Adds(HistoryMessage(chat, w, now), k)
  {
    if w.key.Some? {
      ReactionsAddNothing(chat, w.key.value.id, At(w.seconds * 1000), w.reactions, now, k);
    }
  }

  lemma {:induction false} MessagesAdd(chat: string, ws: seq<WebMessage>, now: int, k: Pair)
    requires chat == k.0 ==> Lacks(ws, k.1)
    ensures !Adds(HistoryMessages(chat, ws, now), k)
  {
    if ws != [] {
      var front, last := ws[..|ws| - 1], ws[|ws| - 1];
      assert ws == front + [last];
      MessagesAdd(chat, front, now, k);
      MessageAdds(chat, last, now, k);
    }
  }

  lemma {:induction false} HistoryAdds(cs: seq<Conversation>, now: int, k: Pair)
    requires HistoryLacks(cs, k)
    ensures !Adds(HistoryLog(cs, now), k)
  {
    if cs != [] {
      var front, last := cs[..|cs| - 1], cs[|cs| - 1];
      assert cs == front + [last];
      HistoryAdds(front, now, k);
      MessagesAdd(last.chat.ToString(), last.messages, now, k);
    }
  }

  /** A message of a history sync, the messages and conversations around it, and where it is filed. */
  datatype Place = Place(earlier: seq<Conversation>, conversation: Conversation, before: seq<WebMessage>,
                         message: WebMessage, after: seq<WebMessage>, later: seq<Conversation>)
  {
    ghost predicate Valid() {
      && conversation.messages == before + [message] + after
      && message.key.Some? && message.key.value.id != "" && message.msg.Some? && conversation.chat.server != ""
    }

    function Key(): Pair
      requires message.key.Some?
    {
      (Address(conversation.chat.user, conversation.chat.device, conversation.chat.server), message.key.value.id)
    }

    function Sync(): Event {
      HistorySync(earlier + [conversation] + later)
    }

    /** The sender named in the key, or else the chat. */
    function Sender(): string
      requires message.key.Some?
    {
      var key := message.key.value;
      if key.fromMe || key.participant == "" then
        Address(conversation.chat.user, conversation.chat.device, conversation.chat.server)
      else if key.parsed.Some? then Address(key.parsed.value.user, "", key.parsed.value.server)
      else key.participant
    }
  }

  lemma MessageStartsWithRow(p: Place, now: int, row: Message) returns (b: Log)
    requires p.Valid()
    requires Some(row) == MessageRowOf(p.Key().0, p.Sender(), p.Key().1, p.message.pushName,
                                       At(p.message.seconds * 1000), p.message.key.value.fromMe, p.message.msg.value)
    ensures HistoryMessage(p.Key().0, p.message, now) == One(AddMessage(row), now) + b
  {
    var w, key := p.message, p.message.key.value;
    var time := At(w.seconds * 1000);
    var poll := PollLog(p.Key().0, p.Sender(), key.id, time, key.fromMe, w.msg.value, now);
    var reactions := HistoryReactions(p.Key().0, key.id, time, w.reactions, now);
    b := poll + reactions;
    assert HistoryRow(p.Key().0, p.Sender(), w, key, w.msg.value, now) == One(AddMessage(row), now) + poll;
    Regroup(One(AddMessage(row), now), poll, reactions);
  }

  /** A conversation's log from its first message on. */
  lemma ConversationAround(p: Place, now: int) returns (b: Log)
    requires p.Valid()
    ensures ConversationLog(p.conversation, now) ==
            HistoryMessages(p.Key().0, p.before, now) + HistoryMessage(p.Key().0, p.message, now) + b
  {
    var chat := p.Key().0;
    var all := HistoryMessages(chat, p.conversation.messages, now);
    MessagesAround(chat, p.before, p.message, p.after, now);
    var row := ConversationLog(p.conversation, now)[|all|..];
    assert ConversationLog(p.conversation, now) == all + row;
    b := HistoryMessages(chat, p.after, now) + row;
  }

  lemma Spread(earlier: Log, head: Log, add: Log, rest: Log, tail: Log, later: Log)
    ensures earlier + (head + (add + rest) + tail) + later == (earlier + head) + add + (rest + tail + later)
  {
  }

  lemma SyncLog(p: Place, now: int, row: Message) returns (a: Log, b: Log)
    requires p.Valid() && HistoryLacks(p.earlier, p.Key()) && Lacks(p.before, p.Key().1)
    requires Some(row) == MessageRowOf(p.Key().0, p.Sender(), p.Key().1, p.message.pushName,
                                       At(p.message.seconds * 1000), p.message.key.value.fromMe, p.message.msg.value)
    ensures !Adds(a, p.Key())
    ensures EventLog(map[], p.Sync(), now) == a + One(AddMessage(row), now) + b
  {
    var head := HistoryMessages(p.Key().0, p.before, now);
    var rest := MessageStartsWithRow(p, now, row);
    var tail := ConversationAround(p, now);
    HistoryAround(p.earlier, p.conversation, p.later, now);
    a := HistoryLog(p.earlier, now) + head;
    b := rest + tail + HistoryLog(p.later, now);
    Spread(HistoryLog(p.earlier, now), head, One(AddMessage(row), now), rest, tail, HistoryLog(p.later, now));
    HistoryAdds(p.earlier, now, p.Key());
    MessagesAdd(p.Key().0, p.before, now, p.Key());
  }

  /** So is a message of a history sync that is new and the first of its sync with that key. */
  lemma NewHistoryMessageIsStored(db: Db, before: seq<Timed>, p: Place, now: int, after: seq<Timed>,
                                  hash: string -> string)
    requires p.Valid() && !IsKind(p.message.msg.value, Other)
    requires p.Key() !in Run(db, before, hash).messages
    requires HistoryLacks(p.earlier, p.Key()) && Lacks(p.before, p.Key().1)
    ensures var messages := Run(db, before + [Timed(p.Sync(), now)] + after, hash).messages;
            && p.Key() in messages
            && Shows(messages[p.Key()], Origin(p.Sender(), p.message.pushName, p.message.seconds,
                                               p.message.key.value.fromMe), p.message.msg.value)
  {
    var w, key, m := p.message, p.message.key.value, p.message.msg.value;
    var time := At(w.seconds * 1000);
    RowIs(p.Key().0, p.Sender(), key.id, w.pushName, time, key.fromMe, m);
    var row := MessageRowOf(p.Key().0, p.Sender(), key.id, w.pushName, time, key.fromMe, m).value;
    var messages := Run(db, before, hash).messages;
    var a, b := SyncLog(p, now, row);
    var o := Origin(p.Sender(), w.pushName, w.seconds, key.fromMe);
    AddedFirst(messages, a, row, now, b, o, m);
    ShownAtTheEnd(db, before, Timed(p.Sync(), now), after, hash, p.Key(), o, m);
  }
}
