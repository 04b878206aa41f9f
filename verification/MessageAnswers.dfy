/** What the other tables hold after a message, a reaction, a vote or a history sync. */
module MessageAnswers {
  import opened Wrappers
  import opened CacheTables
  import opened Events
  import opened MessageRows
  import opened EventAnswers

  // ----- logs in which one write matters to a table -----

  /** The write leaves the table alone, whatever it holds. */
  ghost predicate Ignores<T(!new)>(step: (T, Write, int) -> T, w: Write) {
    forall u, n :: step(u, w, n) == u
  }

  ghost predicate AllIgnored<T(!new)>(step: (T, Write, int) -> T, log: Log) {
    forall e :: e in log ==> Ignores(step, e.write)
  }

  lemma {:induction false} NothingMatters<T(!new)>(t: T, log: Log, step: (T, Write, int) -> T)
    requires AllIgnored(step, log)
    ensures Fold(t, log, step) == t
    decreases |log|
  {
    if log != [] {
      assert log[0] in log;
      NothingMatters(t, log[1..], step);
    }
  }

  // ----- who it came from -----

  function Sender(info: Info): string {
    Address(info.sender.user, "", info.sender.server)
  }

  /** The sender is known by its push name and verified name, unless it is this device. */
  ghost predicate SenderKnown(t: map<string, ContactRow>, t': map<string, ContactRow>, info: Info, verified: string,
                              now: int)
  {
    if info.isFromMe || Sender(info) == "" then t' == t
    else ContactKnown(t, t', Sender(info), info.pushName, verified, "", "", now)
  }

  /** A sender seen under a LID and a phone number links the two, the LID first. */
  ghost predicate AliasKnown(t: map<Pair, int>, t': map<Pair, int>, info: Info, now: int) {
    var alt := Address(info.senderAlt.user, "", info.senderAlt.server);
    if info.sender.server == "lid" && info.senderAlt.server == "s.whatsapp.net" then t' == t[(Sender(info), alt) := now]
    else if info.sender.server == "s.whatsapp.net" && info.senderAlt.server == "lid" then
      t' == t[(alt, Sender(info)) := now]
    else t' == t
  }

  /** The writes that tell who an event came from. */
  function FromLog(info: Info, verified: string, now: int): Log {
    var sender := info.sender.ToNonAD().ToString();
    (if info.isFromMe then [] else ContactLog(Contact(sender, info.pushName, verified, "", ""), now))
    + AliasLog(info.sender, info.senderAlt, now)
  }

  lemma FromTells(t: map<string, ContactRow>, u: map<Pair, int>, info: Info, verified: string, now: int)
    ensures SenderKnown(t, Fold(t, FromLog(info, verified, now), ApplyContacts), info, verified, now)
    ensures AliasKnown(u, Fold(u, FromLog(info, verified, now), ApplyAliases), info, now)
  {
    ContactTells(t, info, verified, now);
    AliasTells(u, info, verified, now);
  }

  lemma ContactTells(t: map<string, ContactRow>, info: Info, verified: string, now: int)
    ensures SenderKnown(t, Fold(t, FromLog(info, verified, now), ApplyContacts), info, verified, now)
  {
    AddressIs(info.sender);
    var c := Contact(info.sender.ToNonAD().ToString(), info.pushName, verified, "", "");
    var a, b := if info.isFromMe then [] else ContactLog(c, now), AliasLog(info.sender, info.senderAlt, now);
    FoldJoin(t, a, b, ApplyContacts);
    NothingMatters(Fold(t, a, ApplyContacts), b, ApplyContacts);
    if a != [] {
      FoldOne(t, Entry(PutContact(c), now), ApplyContacts);
      PutContactKnows(t, c, now);
    }
  }

  lemma AliasTells(u: map<Pair, int>, info: Info, verified: string, now: int)
    ensures AliasKnown(u, Fold(u, FromLog(info, verified, now), ApplyAliases), info, now)
  {
    AddressIs(info.sender);
    AddressIs(info.senderAlt);
    var c := Contact(info.sender.ToNonAD().ToString(), info.pushName, verified, "", "");
    var a, b := if info.isFromMe then [] else ContactLog(c, now), AliasLog(info.sender, info.senderAlt, now);
    FoldJoin(u, a, b, ApplyAliases);
    NothingMatters(u, a, ApplyAliases);
    if b != [] {
      FoldOne(u, b[0], ApplyAliases);
      assert b == [b[0]];
    }
  }

  /** Only contacts and aliases change. */
  lemma FromTouches(info: Info, verified: string, now: int, hash: string -> string)
    ensures var log := FromLog(info, verified, now);
            && AllIgnored(ApplyChats, log) && AllIgnored(ApplyMessages, log) && AllIgnored(ApplyReactions, log)
            && AllIgnored(ApplyPolls, log) && AllIgnored(BallotStep(hash), log) && AllIgnored(ApplyVotes, log)
  {
  }

  /** After the writes about the sender comes one more. */
  lemma FromAnd(db: Db, info: Info, verified: string, w: Write, now: int, hash: string -> string)
    requires Ignores(ApplyContacts, w) && Ignores(ApplyAliases, w)
    ensures var db', one := Replay(db, FromLog(info, verified, now) + [Entry(w, now)], hash), Apply(db, w, now, hash);
            && SenderKnown(db.contacts, db'.contacts, info, verified, now)
            && AliasKnown(db.aliases, db'.aliases, info, now)
            && db' == one.(contacts := db'.contacts, aliases := db'.aliases)
  {
    var from := FromLog(info, verified, now);
    var last := [Entry(w, now)];
    ReplayJoin(db, from, last, hash);
    ReplayOne(Replay(db, from, hash), Entry(w, now), hash);
    FromTells(db.contacts, db.aliases, info, verified, now);
    FromChangesNothingElse(db, info, verified, now, hash);
  }

  lemma FromChangesNothingElse(db: Db, info: Info, verified: string, now: int, hash: string -> string)
    ensures var db' := Replay(db, FromLog(info, verified, now), hash);
            db' == db.(contacts := db'.contacts, aliases := db'.aliases)
  {
    var from := FromLog(info, verified, now);
    FromTouches(info, verified, now, hash);
    NothingMatters(db.chats, from, ApplyChats);
    NothingMatters(db.messages, from, ApplyMessages);
    NothingMatters(db.reactions, from, ApplyReactions);
    NothingMatters(db.polls, from, ApplyPolls);
    NothingMatters(db.ballots, from, BallotStep(hash));
    NothingMatters(db.votes, from, ApplyVotes);
  }

  // ----- reactions -----

  /** The sender's reaction to a message is this emoji, unless a newer one is known; no emoji takes it back. */
  ghost predicate Reacted(t: map<Triple, ReactionRow>, t': map<Triple, ReactionRow>, k: Triple, emoji: string,
                          seconds: int, isFromMe: bool)
  {
    if emoji == "" then t' == t - {k}
    else if k in t && t[k].ts > seconds then t' == t
    else
      && OnlyRow(t, t', k)
      && t'[k].emoji == emoji && t'[k].ts == seconds && t'[k].isFromMe == isFromMe
  }

  predicate IsReaction(m: Envelope) {
    && m.reaction.Some? && m.reaction.value.key.Some? && m.reaction.value.key.value.id != ""
    && match m.protocol
       case None => true
       case Some(p) => p.kind.OtherProtocol? || p.key.None? || p.key.value.id == ""
  }

  lemma ReactionApplies(t: map<Triple, ReactionRow>, r: Reaction, now: int)
    requires r.chat != "" && r.target != ""
    ensures var k := (r.chat, r.target, if r.isFromMe then "" else r.sender);
            Reacted(t, Fold(t, ReactionLog(r, now), ApplyReactions), k, r.emoji, UnixSeconds(r.time), r.isFromMe)
  {
    var k := (r.chat, r.target, ReactionSenderKey(r.sender, r.isFromMe));
    if r.emoji == "" {
      FoldOne(t, Entry(DropReaction(k.0, k.1, k.2), now), ApplyReactions);
    } else {
      FoldOne(t, Entry(PutReaction(r), now), ApplyReactions);
    }
  }

  lemma ReactionLogIs(r: Reaction, now: int) returns (w: Write)
    requires r.chat != "" && r.target != ""
    ensures ReactionLog(r, now) == [Entry(w, now)] && (w.PutReaction? || w.DropReaction?)
  {
    w := ReactionLog(r, now)[0].write;
  }

  lemma LiveReactionIs(messages: map<Pair, MessageRow>, info: Info, m: Envelope, now: int)
    requires info.id != "" && IsReaction(m)
    ensures var r := m.reaction.value;
            var time := SenderMsOr(r.senderMs, if info.time == Zero then At(now * 1000) else info.time);
            var chat := Target(info, r.key.value).0;
            EventLog(messages, MessageEvent(info, Some(m), false), now) ==
            FromLog(info, "", now)
            + ReactionLog(Reaction(chat, r.key.value.id, Sender(info), r.text, time, info.isFromMe), now)
  {
    AddressIs(info.sender);
    AddressIs(info.chat);
  }

  function ReactedAt(ms: int, info: Info, now: int): int {
    if ms > 0 then ms / 1000 else HappenedAt(info, now)
  }

  lemma ReactedAtIs(ms: int, info: Info, now: int)
    ensures UnixSeconds(SenderMsOr(ms, if info.time == Zero then At(now * 1000) else info.time)) ==
            ReactedAt(ms, info, now)
  {
    SecondsOf(info.time, now);
  }

  /**
   A reaction is filed under the message and chat its key names and its sender, our own under the empty
   sender; it tells who sent it and changes no other table.
   */
  lemma ReactionEvents(db: Db, info: Info, m: Envelope, now: int, hash: string -> string)
    requires info.id != "" && IsReaction(m) && Target(info, m.reaction.value.key.value).0 != ""
    ensures var r, db' := m.reaction.value, Handled(db, MessageEvent(info, Some(m), false), now, hash);
            var target := Target(info, r.key.value);
            && db' == db.(contacts := db'.contacts, aliases := db'.aliases, reactions := db'.reactions)
            && SenderKnown(db.contacts, db'.contacts, info, "", now) && AliasKnown(db.aliases, db'.aliases, info, now)
            && Reacted(db.reactions, db'.reactions, (target.0, target.1, if info.isFromMe then "" else Sender(info)),
                       r.text, ReactedAt(r.senderMs, info, now), info.isFromMe)
  {
    var r := m.reaction.value;
    var time := SenderMsOr(r.senderMs, if info.time == Zero then At(now * 1000) else info.time);
    var reaction := Reaction(Target(info, r.key.value).0, r.key.value.id, Sender(info), r.text, time, info.isFromMe);
    LiveReactionIs(db.messages, info, m, now);
    ReactedAtIs(r.senderMs, info, now);
    ReactionReplay(db, info, reaction, now, hash);
  }

  lemma OneReaction(db: Db, r: Reaction, w: Write, now: int, hash: string -> string)
    requires r.chat != "" && r.target != "" && ReactionLog(r, now) == [Entry(w, now)]
    requires w.PutReaction? || w.DropReaction?
    ensures var one := Apply(db, w, now, hash);
            && one == db.(reactions := one.reactions)
            && Reacted(db.reactions, one.reactions, (r.chat, r.target, if r.isFromMe then "" else r.sender), r.emoji,
                       UnixSeconds(r.time), r.isFromMe)
  {
    ReactionApplies(db.reactions, r, now);
    FoldOne(db.reactions, Entry(w, now), ApplyReactions);
  }

  lemma ReactionReplay(db: Db, info: Info, r: Reaction, now: int, hash: string -> string)
    requires r.chat != "" && r.target != ""
    ensures var db' := Replay(db, FromLog(info, "", now) + ReactionLog(r, now), hash);
            && db' == db.(contacts := db'.contacts, aliases := db'.aliases, reactions := db'.reactions)
            && SenderKnown(db.contacts, db'.contacts, info, "", now) && AliasKnown(db.aliases, db'.aliases, info, now)
            && Reacted(db.reactions, db'.reactions, (r.chat, r.target, if r.isFromMe then "" else r.sender), r.emoji,
                       UnixSeconds(r.time), r.isFromMe)
  {
    var w := ReactionLogIs(r, now);
    FromAnd(db, info, "", w, now, hash);
    OneReaction(db, r, w, now, hash);
  }

  // ----- votes -----

  /** The voter's selection is this one, unless a newer one is known. */
  ghost predicate Voted(t: map<Triple, VoteRow>, t': map<Triple, VoteRow>, k: Triple, selected: seq<string>,
                        seconds: int)
  {
    if k in t && t[k].ts > seconds then t' == t
    else OnlyRow(t, t', k) && t'[k].selected == selected && t'[k].ts == seconds
  }

  predicate IsVote(m: Envelope) {
    && m.reaction.None? && m.pollUpdate.Some? && m.pollUpdate.value.pollId != "" && m.pollUpdate.value.decrypted.Some?
    && match m.protocol
       case None => true
       case Some(p) => p.kind.OtherProtocol? || p.key.None? || p.key.value.id == ""
  }

  lemma LiveVoteIs(messages: map<Pair, MessageRow>, info: Info, m: Envelope, now: int)
    requires info.id != "" && IsVote(m)
    ensures var u := m.pollUpdate.value;
            var time := SenderMsOr(u.senderMs, if info.time == Zero then At(now * 1000) else info.time);
            var chat := Address(info.chat.user, info.chat.device, info.chat.server);
            EventLog(messages, MessageEvent(info, Some(m), false), now) ==
            FromLog(info, info.verifiedName, now)
            + [Entry(PutVote(PollVote(chat, u.pollId, Sender(info), u.decrypted.value, time)), now)]
  {
    AddressIs(info.sender);
    AddressIs(info.chat);
  }

  /** A vote replaces the voter's row unless that is newer; it tells who sent it and changes no other table. */
  lemma VoteEvents(db: Db, info: Info, m: Envelope, now: int, hash: string -> string)
    requires info.id != "" && IsVote(m) && info.chat.server != "" && info.sender.server != ""
    ensures var u, db' := m.pollUpdate.value, Handled(db, MessageEvent(info, Some(m), false), now, hash);
            var k := (Address(info.chat.user, info.chat.device, info.chat.server), u.pollId, Sender(info));
            var seconds := ReactedAt(u.senderMs, info, now);
            && db' == db.(contacts := db'.contacts, aliases := db'.aliases, votes := db'.votes)
            && SenderKnown(db.contacts, db'.contacts, info, info.verifiedName, now)
            && AliasKnown(db.aliases, db'.aliases, info, now)
            && Voted(db.votes, db'.votes, k, u.decrypted.value, seconds)
  {
    var u := m.pollUpdate.value;
    var time := SenderMsOr(u.senderMs, if info.time == Zero then At(now * 1000) else info.time);
    var chat := Address(info.chat.user, info.chat.device, info.chat.server);
    LiveVoteIs(db.messages, info, m, now);
    AddressIs(info.chat);
    AddressIs(info.sender);
    ReactedAtIs(u.senderMs, info, now);
    VoteReplay(db, info, PollVote(chat, u.pollId, Sender(info), u.decrypted.value, time), now, hash);
  }

  lemma VoteReplay(db: Db, info: Info, v: PollVote, now: int, hash: string -> string)
    requires v.chat != "" && v.poll != "" && v.voter != ""
    ensures var db' := Replay(db, FromLog(info, info.verifiedName, now) + [Entry(PutVote(v), now)], hash);
            && db' == db.(contacts := db'.contacts, aliases := db'.aliases, votes := db'.votes)
            && SenderKnown(db.contacts, db'.contacts, info, info.verifiedName, now)
            && AliasKnown(db.aliases, db'.aliases, info, now)
            && Voted(db.votes, db'.votes, (v.chat, v.poll, v.voter), v.selected, UnixSeconds(v.time))
  {
    FromAnd(db, info, info.verifiedName, PutVote(v), now, hash);
    OneVote(db, v, now, hash);
  }

  lemma OneVote(db: Db, v: PollVote, now: int, hash: string -> string)
    requires v.chat != "" && v.poll != "" && v.voter != ""
    ensures var one := Apply(db, PutVote(v), now, hash);
            && one == db.(votes := one.votes)
            && Voted(db.votes, one.votes, (v.chat, v.poll, v.voter), v.selected, UnixSeconds(v.time))
  {
  }

  // ----- messages -----

  /** The ballot of a poll, with the question, the limit, the creator and the time. */
  ghost predicate PollKnown(db: Db, db': Db, k: Pair, c: PollCreation, sender: string, isFromMe: bool, seconds: int,
                            now: int, hash: string -> string)
  {
    && OnlyRow(db.polls, db'.polls, k) && OnlyRow(db.ballots, db'.ballots, k)
    && var row, ballot := db'.polls[k], db'.ballots[k];
       && row.question == c.question && row.selectable == c.selectable && row.isFromMe == isFromMe && row.ts == seconds
       && row.sender == (if sender == "" && k in db.polls then db.polls[k].sender else sender) && row.updatedAt == now
       && |ballot| == |c.options|
       && forall i :: 0 <= i < |ballot| ==> ballot[i].name == c.options[i] && ballot[i].hash == hash(c.options[i])
  }

  /** A stored option has its name and the hash it came with, or else that of its name. */
  lemma {:induction false} BallotIs(options: seq<PollOption>, hash: string -> string)
    ensures var b := HashedBallot(options, hash);
            && |b| == |options|
            && forall i :: 0 <= i < |b| ==>
                 && b[i].name == options[i].name
                 && b[i].hash == if options[i].hash == "" then hash(options[i].name) else options[i].hash
  {
    if options != [] {
      BallotIs(options[..|options| - 1], hash);
    }
  }

  lemma PollApplies(db: Db, chat: string, sender: string, id: string, time: Time, fromMe: bool, m: Envelope, now: int,
                    hash: string -> string)
    requires chat != "" && id != ""
    ensures var db' := Replay(db, PollLog(chat, sender, id, time, fromMe, m, now), hash);
            && db' == db.(polls := db'.polls, ballots := db'.ballots)
            && match m.poll
               case None => db' == db
               case Some(c) => PollKnown(db, db', (chat, id), c, sender, fromMe, UnixSeconds(time), now, hash)
  {
    var log := PollLog(chat, sender, id, time, fromMe, m, now);
    if m.poll.Some? {
      assert log == [log[0]];
      ReplayOne(db, log[0], hash);
      PollStored(db, log[0].write.poll, m.poll.value, now, hash);
    }
  }

  lemma PollStored(db: Db, p: Poll, c: PollCreation, now: int, hash: string -> string)
    requires p.chat != "" && p.id != "" && p.question == c.question && p.selectable == c.selectable
    requires |p.options| == |c.options|
    requires forall i :: 0 <= i < |c.options| ==> p.options[i] == PollOption(c.options[i], "")
    ensures var db' := Apply(db, PutPoll(p), now, hash);
            && db' == db.(polls := db'.polls, ballots := db'.ballots)
            && PollKnown(db, db', (p.chat, p.id), c, p.sender, p.isFromMe, UnixSeconds(p.time), now, hash)
  {
    BallotIs(p.options, hash);
  }

  /**
   A message makes its chat active, tells who sent it, adds its row and the ballot it carries, and
   changes neither reactions nor votes.
   */
  lemma MessageEvents(db: Db, info: Info, m: Envelope, isEdit: bool, now: int, hash: string -> string)
    requires info.id != "" && info.chat.server != "" && IsMessage(m)
    requires isEdit ==> (Address(info.chat.user, info.chat.device, info.chat.server), info.id) !in db.messages
    ensures var db' := Handled(db, MessageEvent(info, Some(m), isEdit), now, hash);
            var chat, seconds := Address(info.chat.user, info.chat.device, info.chat.server), HappenedAt(info, now);
            && ChatKnown(db.chats, db'.chats, chat, "", info.isGroup, "", seconds, 0, now)
            && SenderKnown(db.contacts, db'.contacts, info, info.verifiedName, now)
            && AliasKnown(db.aliases, db'.aliases, info, now)
            && OnlyRow(db.messages, db'.messages, (chat, info.id))
            && db'.reactions == db.reactions && db'.votes == db.votes
            && match m.poll
               case None => db'.polls == db.polls && db'.ballots == db.ballots
               case Some(c) => PollKnown(db, db', (chat, info.id), c, Sender(info), info.isFromMe, seconds, now, hash)
  {
    var time := if info.time == Zero then At(now * 1000) else info.time;
    var chat := Address(info.chat.user, info.chat.device, info.chat.server);
    AddressIs(info.chat);
    AddressIs(info.sender);
    SecondsOf(info.time, now);
    RowIs(chat, Sender(info), info.id, info.pushName, time, info.isFromMe, m);
    var row := MessageRowOf(chat, Sender(info), info.id, info.pushName, time, info.isFromMe, m).value;
    var c := Chat(chat, "", info.isGroup, "", time, 0, false, false, Zero);
    MessageLogIs(db.messages, info, m, isEdit, now, row);
    MessageReplay(db, info, m, c, row, time, now, hash);
  }

  predicate IsHandledByKey(m: Envelope) {
    m.protocol.Some? && !m.protocol.value.kind.OtherProtocol? && m.protocol.value.key.Some? &&
    m.protocol.value.key.value.id != ""
  }

  lemma ContentIs(messages: map<Pair, MessageRow>, info: Info, m: Envelope, isEdit: bool, now: int)
    requires info.id != "" && !IsHandledByKey(m) && (isEdit ==> (info.chat.ToString(), info.id) !in messages)
    ensures var time := if info.time == Zero then At(now * 1000) else info.time;
            EventLog(messages, MessageEvent(info, Some(m), isEdit), now) == ContentLog(info, m, time, now)
  {
  }

  lemma MessageContent(info: Info, m: Envelope, time: Time, now: int, row: Message)
    requires m.reaction.None? && m.pollUpdate.None?
    requires Some(row) == MessageRowOf(info.chat.ToString(), info.sender.ToNonAD().ToString(), info.id, info.pushName,
                                       time, info.isFromMe, m)
    ensures var chat := info.chat.ToString();
            ContentLog(info, m, time, now) ==
            [Entry(PutChat(Chat(chat, "", info.isGroup, "", time, 0, false, false, Zero)), now)]
            + (FromLog(info, info.verifiedName, now)
               + ([Entry(AddMessage(row), now)]
                  + PollLog(chat, info.sender.ToNonAD().ToString(), info.id, time, info.isFromMe, m, now)))
  {
  }

  lemma MessageLogIs(messages: map<Pair, MessageRow>, info: Info, m: Envelope, isEdit: bool, now: int, row: Message)
    requires info.id != "" && IsMessage(m) && (isEdit ==> (info.chat.ToString(), info.id) !in messages)
    requires var time := if info.time == Zero then At(now * 1000) else info.time;
             Some(row) == MessageRowOf(info.chat.ToString(), info.sender.ToNonAD().ToString(), info.id, info.pushName,
                                       time, info.isFromMe, m)
    ensures var time := if info.time == Zero then At(now * 1000) else info.time;
            var chat := info.chat.ToString();
            EventLog(messages, MessageEvent(info, Some(m), isEdit), now) ==
            [Entry(PutChat(Chat(chat, "", info.isGroup, "", time, 0, false, false, Zero)), now)]
            + (FromLog(info, info.verifiedName, now)
               + ([Entry(AddMessage(row), now)]
                  + PollLog(chat, info.sender.ToNonAD().ToString(), info.id, time, info.isFromMe, m, now)))
  {
    ContentIs(messages, info, m, isEdit, now);
    MessageContent(info, m, if info.time == Zero then At(now * 1000) else info.time, now, row);
  }

  lemma MessageReplay(db: Db, info: Info, m: Envelope, c: Chat, row: Message, time: Time, now: int,
                      hash: string -> string)
    requires c.jid != "" && !c.archived && !c.pinned && c.mutedUntil == Zero && c.jid == row.chat && row.id != ""
    ensures var db' := Replay(db, [Entry(PutChat(c), now)]
                                  + (FromLog(info, info.verifiedName, now)
                                     + ([Entry(AddMessage(row), now)]
                                        + PollLog(row.chat, Sender(info), row.id, time, info.isFromMe, m, now))), hash);
            && ChatKnown(db.chats, db'.chats, c.jid, c.name, c.isGroup, c.chatType, Seconds(c.lastMessage), c.unread,
                         now)
            && SenderKnown(db.contacts, db'.contacts, info, info.verifiedName, now)
            && AliasKnown(db.aliases, db'.aliases, info, now)
            && OnlyRow(db.messages, db'.messages, (row.chat, row.id))
            && db'.reactions == db.reactions && db'.votes == db.votes
            && match m.poll
               case None => db'.polls == db.polls && db'.ballots == db.ballots
               case Some(p) =>
                 PollKnown(db, db', (row.chat, row.id), p, Sender(info), info.isFromMe, UnixSeconds(time), now, hash)
  {
    var poll := PollLog(row.chat, Sender(info), row.id, time, info.isFromMe, m, now);
    var from := FromLog(info, info.verifiedName, now);
    var db1 := Apply(db, PutChat(c), now, hash);
    ReplayJoin(db, [Entry(PutChat(c), now)], from + ([Entry(AddMessage(row), now)] + poll), hash);
    ReplayOne(db, Entry(PutChat(c), now), hash);
    PutChatKnows(db, c, now, hash);
    ReplayJoin(db1, from, [Entry(AddMessage(row), now)] + poll, hash);
    FromTells(db.contacts, db.aliases, info, info.verifiedName, now);
    FromChangesNothingElse(db1, info, info.verifiedName, now, hash);
    var db2 := Replay(db1, from, hash);
    ReplayJoin(db2, [Entry(AddMessage(row), now)], poll, hash);
    ReplayOne(db2, Entry(AddMessage(row), now), hash);
    var db3 := Apply(db2, AddMessage(row), now, hash);
    assert OnlyRow(db.messages, db3.messages, (row.chat, row.id));
    PollApplies(db3, row.chat, Sender(info), row.id, time, info.isFromMe, m, now, hash);
  }

  // ----- envelopes that store no message -----

  /** A reaction that names no message changes nothing. */
  lemma ReactionToNothing(db: Db, info: Info, m: Envelope, now: int, hash: string -> string)
    requires m.reaction.Some? && (m.reaction.value.key.None? || m.reaction.value.key.value.id == "")
    requires !IsHandledByKey(m)
    ensures Handled(db, MessageEvent(info, Some(m), false), now, hash) == db
  {
  }

  lemma UnreadableVoteIs(messages: map<Pair, MessageRow>, info: Info, m: Envelope, now: int)
    requires info.id != "" && m.reaction.None? && m.pollUpdate.Some? && !IsHandledByKey(m)
    requires m.pollUpdate.value.pollId == "" || m.pollUpdate.value.decrypted.None?
    ensures EventLog(messages, MessageEvent(info, Some(m), false), now) == FromLog(info, info.verifiedName, now)
  {
    ContentIs(messages, info, m, false, now);
  }

  /** A vote that cannot be read only tells who sent it. */
  lemma UnreadableVote(db: Db, info: Info, m: Envelope, now: int, hash: string -> string)
    requires info.id != "" && m.reaction.None? && m.pollUpdate.Some? && !IsHandledByKey(m)
    requires m.pollUpdate.value.pollId == "" || m.pollUpdate.value.decrypted.None?
    ensures var db' := Handled(db, MessageEvent(info, Some(m), false), now, hash);
            && db' == db.(contacts := db'.contacts, aliases := db'.aliases)
            && SenderKnown(db.contacts, db'.contacts, info, info.verifiedName, now)
            && AliasKnown(db.aliases, db'.aliases, info, now)
  {
    UnreadableVoteIs(db.messages, info, m, now);
    FromTells(db.contacts, db.aliases, info, info.verifiedName, now);
    FromChangesNothingElse(db, info, info.verifiedName, now, hash);
  }

  lemma EmptyContent(info: Info, m: Envelope, time: Time, now: int)
    requires m.reaction.None? && m.pollUpdate.None? && IsKind(m, Other)
    ensures ContentLog(info, m, time, now) ==
            [Entry(PutChat(Chat(info.chat.ToString(), "", info.isGroup, "", time, 0, false, false, Zero)), now)]
            + FromLog(info, info.verifiedName, now)
  {
    RowIs(info.chat.ToString(), info.sender.ToNonAD().ToString(), info.id, info.pushName, time, info.isFromMe, m);
  }

  /** An envelope with nothing to show makes its chat active and tells who sent it, but stores no message. */
  lemma EmptyMessage(db: Db, info: Info, m: Envelope, now: int, hash: string -> string)
    requires info.id != "" && info.chat.server != "" && m.reaction.None? && m.pollUpdate.None? && !IsHandledByKey(m)
    requires IsKind(m, Other)
    ensures var db' := Handled(db, MessageEvent(info, Some(m), false), now, hash);
            var chat, seconds := Address(info.chat.user, info.chat.device, info.chat.server), HappenedAt(info, now);
            && db' == db.(chats := db'.chats, contacts := db'.contacts, aliases := db'.aliases)
            && ChatKnown(db.chats, db'.chats, chat, "", info.isGroup, "", seconds, 0, now)
            && SenderKnown(db.contacts, db'.contacts, info, info.verifiedName, now)
            && AliasKnown(db.aliases, db'.aliases, info, now)
  {
    var time := if info.time == Zero then At(now * 1000) else info.time;
    AddressIs(info.chat);
    SecondsOf(info.time, now);
    var c := Chat(info.chat.ToString(), "", info.isGroup, "", time, 0, false, false, Zero);
    var head, from := [Entry(PutChat(c), now)], FromLog(info, info.verifiedName, now);
    ContentIs(db.messages, info, m, false, now);
    EmptyContent(info, m, time, now);
    ReplayJoin(db, head, from, hash);
    ReplayOne(db, Entry(PutChat(c), now), hash);
    PutChatKnows(db, c, now, hash);
    FromTells(db.contacts, db.aliases, info, info.verifiedName, now);
    FromChangesNothingElse(Apply(db, PutChat(c), now, hash), info, info.verifiedName, now, hash);
  }
}
