/** The store: one field per table, one method per upsert. */
module CacheStore {
  import opened CacheTables

  class Store {
    const hash: string -> string
    var chats: map<string, ChatRow>
    var contacts: map<string, ContactRow>
    var aliases: map<Pair, int>
    var messages: map<Pair, MessageRow>
    var reactions: map<Triple, ReactionRow>
    var polls: map<Pair, PollRow>
    var ballots: map<Pair, seq<PollOption>>
    var votes: map<Triple, VoteRow>

    function Tables(): Db
      reads this
    {
      Db(chats, contacts, aliases, messages, reactions, polls, ballots, votes)
    }

    constructor (hash: string -> string)
      ensures this.hash == hash && Tables() == EMPTY
    {
      this.hash := hash;
      chats, contacts, aliases, messages := map[], map[], map[], map[];
      reactions, polls, ballots, votes := map[], map[], map[], map[];
    }

    method UpsertChat(c: Chat, now: int) returns (ok: bool)
      modifies this`chats
      ensures chats == CacheTables.UpsertChat(old(chats), c, now)
      ensures ok <==> c.jid != ""
    {
      ok := c.jid != "";
      if ok {
        var intent := c.chatType;
        var effective := intent;
        if effective == "" {
          effective := DeriveChatType(c.jid, c.isGroup);
        }
        var excluded := ChatRow(c.name, c.isGroup, effective, UnixSeconds(c.lastMessage), c.unread, c.archived,
                                c.pinned,
                                UnixSeconds(c.mutedUntil), now);
        if c.jid in chats {
          var existing := chats[c.jid];
          chats := chats[c.jid := excluded.(
            name := if excluded.name != "" then excluded.name else existing.name,
            chatType := if intent != "" then excluded.chatType else existing.chatType,
            lastTs := if existing.lastTs < excluded.lastTs then excluded.lastTs else existing.lastTs)];
        } else {
          chats := chats[c.jid := excluded];
        }
      }
    }

    method SetChatPinned(jid: string, isGroup: bool, pinned: bool, now: int)
      modifies this`chats
      ensures chats == if jid == "" then old(chats)
          else old(chats)[jid := FlagBase(old(chats), jid, isGroup).(pinned := pinned, updatedAt := now)]
    {
      if jid in chats && jid != "" {
        chats := chats[jid := chats[jid].(pinned := pinned, updatedAt := now)];
      } else if jid != "" {
        chats := chats[jid := ChatRow("", isGroup, DeriveChatType(jid, isGroup), 0, 0, false, pinned, 0, now)];
      }
    }

    method SetChatArchived(jid: string, isGroup: bool, archived: bool, now: int)
      modifies this`chats
      ensures chats == if jid == "" then old(chats)
          else old(chats)[jid := FlagBase(old(chats), jid, isGroup).(archived := archived, updatedAt := now)]
    {
      if jid in chats && jid != "" {
        chats := chats[jid := chats[jid].(archived := archived, updatedAt := now)];
      } else if jid != "" {
        chats := chats[jid := ChatRow("", isGroup, DeriveChatType(jid, isGroup), 0, 0, archived, false, 0, now)];
      }
    }

    method SetChatUnread(jid: string, isGroup: bool, unread: bool, now: int)
      modifies this`chats
      ensures chats == if jid == "" then old(chats)
          else old(chats)[jid := FlagBase(old(chats), jid, isGroup).(
                                   unread := if unread then 1 else 0, updatedAt := now)]
    {
      var count := 0;
      if unread {
        count := 1;
      }
      if jid in chats && jid != "" {
        chats := chats[jid := chats[jid].(unread := count, updatedAt := now)];
      } else if jid != "" {
        chats := chats[jid := ChatRow("", isGroup, DeriveChatType(jid, isGroup), 0, count, false, false, 0, now)];
      }
    }

    method UpsertContact(c: Contact, now: int)
      modifies this`contacts
      ensures contacts == CacheTables.UpsertContact(old(contacts), c, now)
    {
      if c.jid in contacts && c.jid != "" {
        var row := contacts[c.jid];
        if c.pushName != "" { row := row.(pushName := c.pushName); }
        if c.businessName != "" { row := row.(businessName := c.businessName); }
        if c.firstName != "" { row := row.(firstName := c.firstName); }
        if c.fullName != "" { row := row.(fullName := c.fullName); }
        contacts := contacts[c.jid := row.(updatedAt := now)];
      } else if c.jid != "" {
        var row := ContactRow(c.pushName, c.businessName, c.firstName, c.fullName, now, false, 0, 0);
        contacts := contacts[c.jid := row];
      }
    }

    method UpsertPresence(jid: string, online: bool, lastSeen: Time, now: int)
      modifies this`contacts
      ensures contacts == CacheTables.UpsertPresence(old(contacts), jid, online, lastSeen, now)
    {
      var seen := if lastSeen.Zero? then 0 else UnixSeconds(lastSeen);
      if jid in contacts && jid != "" {
        var row := contacts[jid].(online := online, seenAt := now);
        if seen != 0 {
          row := row.(lastSeen := seen);
        }
        contacts := contacts[jid := row];
      } else if jid != "" {
        contacts := contacts[jid := ContactRow("", "", "", "", now, online, seen, now)];
      }
    }

    method UpsertJIDAlias(lid: string, pn: string, now: int)
      modifies this`aliases
      ensures aliases == if lid == "" || pn == "" then old(aliases) else old(aliases)[(lid, pn) := now]
    {
      if lid != "" && pn != "" {
        aliases := aliases[(lid, pn) := now];
      }
    }

    /** Replays of a stored message are ignored. */
    method InsertMessage(m: Message)
      modifies this`messages
      ensures messages == CacheTables.InsertMessage(old(messages), m)
    {
      if m.chat != "" && m.id != "" && (m.chat, m.id) !in messages {
        var media := NO_MEDIA;
        if m.media.Some? {
          media := m.media.value;
        }
        messages := messages[(m.chat, m.id) :=
          MessageRow(m.sender, m.pushName, UnixSeconds(m.time), m.kind, m.body, m.replyTo, m.isFromMe, media,
                     false, 0, false, 0)];
      }
    }

    method MarkMessageEdited(chat: string, id: string, body: string, time: Time) returns (found: bool)
      modifies this`messages
      ensures found == ((chat, id) in old(messages))
      ensures messages == if found then old(messages)[(chat, id) := old(messages)[(chat, id)].(
                                         body := body, edited := true, editedAt := UnixSeconds(time))]
        else old(messages)
    {
      found := (chat, id) in messages;
      if found {
        var row := messages[(chat, id)];
        messages := messages[(chat, id) := row.(body := body, edited := true, editedAt := UnixSeconds(time))];
      }
    }

    method MarkMessageDeleted(chat: string, id: string, time: Time) returns (found: bool)
      modifies this`messages
      ensures found == ((chat, id) in old(messages))
      ensures messages == if found then old(messages)[(chat, id) := old(messages)[(chat, id)].(
                                         body := "", deleted := true, deletedAt := UnixSeconds(time))]
        else old(messages)
    {
      found := (chat, id) in messages;
      if found {
        var row := messages[(chat, id)];
        messages := messages[(chat, id) := row.(body := "", deleted := true, deletedAt := UnixSeconds(time))];
      }
    }

    /** A stale reaction leaves the newer row alone. */
    method UpsertReaction(r: Reaction)
      modifies this`reactions
      ensures reactions == CacheTables.UpsertReaction(old(reactions), r)
    {
      if r.chat != "" && r.target != "" && r.emoji != "" {
        var key := (r.chat, r.target, if r.isFromMe then "" else r.sender);
        var ts := UnixSeconds(r.time);
        if key !in reactions || ts >= reactions[key].ts {
          reactions := reactions[key := ReactionRow(r.emoji, ts, r.isFromMe)];
        }
      }
    }

    method DeleteReaction(chat: string, target: string, sender: string)
      modifies this`reactions
      ensures reactions == CacheTables.DeleteReaction(old(reactions), chat, target, sender)
    {
      if chat != "" && target != "" {
        reactions := reactions - {(chat, target, sender)};
      }
    }

    method UpsertPoll(p: Poll, now: int)
      modifies this`polls, this`ballots
      ensures polls == UpsertPollRow(old(polls), p, now) && ballots == UpsertBallot(old(ballots), p, hash)
    {
      if p.chat != "" && p.id != "" {
        var key := (p.chat, p.id);
        var sender := p.sender;
        if sender == "" && key in polls {
          sender := polls[key].sender;
        }
        var ballot := [];
        for i := 0 to |p.options|
          invariant ballot == HashedBallot(p.options[..i], hash)
        {
          assert p.options[..i + 1][..i] == p.options[..i];
          var opt := p.options[i];
          var digest := opt.hash;
          if digest == "" {
            digest := hash(opt.name);
          }
          ballot := ballot + [PollOption(opt.name, digest)];
        }
        assert p.options[..|p.options|] == p.options;
        polls := polls[key := PollRow(p.question, p.selectable, sender, p.isFromMe, UnixSeconds(p.time), now)];
        ballots := ballots[key := ballot];
      }
    }

    /** A vote older than the one stored is dropped. */
    method UpsertPollVote(v: PollVote)
      modifies this`votes
      ensures votes == UpsertVote(old(votes), v)
    {
      if v.chat != "" && v.poll != "" && v.voter != "" {
        var key, ts := (v.chat, v.poll, v.voter), UnixSeconds(v.time);
        if key !in votes || ts >= votes[key].ts {
          votes := votes[key := VoteRow(v.selected, ts)];
        }
      }
    }
  }
}
