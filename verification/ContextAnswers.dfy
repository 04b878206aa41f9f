/** What a message context shows, read off the tables of messages and reactions. */
module ContextAnswers {
  import opened Wrappers
  import Lex
  import opened CacheTables
  import opened ContextWindow
  import opened ContextTheorems
  import opened MessageReactions

  /** Which requests are refused and why, and how many messages the others ask for on each side. */
  lemma WindowIsRead(id: string, before: Option<int>, after: Option<int>)
    ensures var b, a := if before.Some? then before.value else 5, if after.Some? then after.value else 5;
            && (WindowOf(id, before, after) == Err(EmptyId) <==> id == "")
            && (WindowOf(id, before, after) == Err(NegativeWindow) <==> id != "" && (b < 0 || a < 0))
            && (WindowOf(id, before, after) == Err(WindowTooLarge) <==>
                id != "" && 0 <= b && 0 <= a && (b > 100 || a > 100))
            && (WindowOf(id, before, after).Ok? ==> WindowOf(id, before, after).value == (b, a))
            && WindowOf(id, before, after) != Err(NotFound)
  {
  }

  /** Sent earlier, or in the same second under the smaller id. */
  predicate Earlier(a: Msg, b: Msg) {
    a.row.ts < b.row.ts || (a.row.ts == b.row.ts && Lex.Less(a.id, b.id))
  }

  /** Every reaction to the message once, oldest first, those of one second by sender. */
  ghost predicate ReactionsTell(list: seq<Shown>, reactions: map<Triple, ReactionRow>, chat: string, id: string) {
    && (forall s :: s in list <==>
          && (chat, id, s.sender) in reactions
          && reactions[(chat, id, s.sender)].emoji == s.emoji && reactions[(chat, id, s.sender)].isFromMe == s.isFromMe)
    && forall i, j :: 0 <= i < j < |list| ==>
         var s, t := reactions[(chat, id, list[i].sender)].ts, reactions[(chat, id, list[j].sender)].ts;
         s < t || (s == t && Lex.Less(list[i].sender, list[j].sender))
  }

  ghost predicate Tells(m: Msg, messages: map<Pair, MessageRow>, reactions: map<Triple, ReactionRow>, chat: string) {
    && m.chat == chat && (chat, m.id) in messages && m.row == messages[(chat, m.id)]
    && ReactionsTell(m.reactions, reactions, chat, m.id)
  }

  lemma ListTells(list: seq<Shown>, reactions: map<Triple, ReactionRow>, chat: string, id: string)
    requires IsReactionList(list, reactions, chat, id)
    ensures ReactionsTell(list, reactions, chat, id)
  {
    forall s: Shown |
      && (chat, id, s.sender) in reactions
      && reactions[(chat, id, s.sender)].emoji == s.emoji && reactions[(chat, id, s.sender)].isFromMe == s.isFromMe
      ensures s in list
    {
      var i :| 0 <= i < |list| && list[i].sender == s.sender;
      assert list[i] == s;
    }
  }

  lemma StretchTells(shown: seq<Msg>, t: seq<Msg>, lo: nat, hi: nat, messages: map<Pair, MessageRow>,
                     reactions: map<Triple, ReactionRow>, chat: string)
    requires IsTimeline(t, messages, chat) && lo <= hi <= |t| && Carries(shown, t[lo..hi], reactions)
    ensures forall m :: m in shown ==> Tells(m, messages, reactions, chat)
    ensures forall i, j :: 0 <= i < j < |shown| ==> Earlier(shown[i], shown[j])
  {
    forall i | 0 <= i < |shown| ensures Tells(shown[i], messages, reactions, chat) {
      assert t[lo + i] in t && t[lo..hi][i] == t[lo + i];
      ListTells(shown[i].reactions, reactions, chat, shown[i].id);
    }
    forall i, j | 0 <= i < j < |shown| ensures Earlier(shown[i], shown[j]) {
      assert BY_TIME(t[lo + i], t[lo + j]);
    }
  }

  /** A message of the chat is shown, or is too early or too late for a side that is full. */
  ghost predicate Accounted(x: Msg, c: Context, before: nat, after: nat) {
    var shown := c.before + [c.message] + c.after;
    || (exists m :: m in shown && m.id == x.id)
    || (|c.before| == before && forall m :: m in shown ==> Earlier(x, m))
    || (|c.after| == after && forall m :: m in shown ==> Earlier(m, x))
  }

  lemma StretchAccounts(x: Msg, c: Context, t: seq<Msg>, p: nat, messages: map<Pair, MessageRow>,
                        reactions: map<Triple, ReactionRow>, chat: string, before: nat, after: nat)
    requires IsTimeline(t, messages, chat) && p < |t| && IsStretch(c, t, p, reactions, before, after)
    requires IsMsgOf(x, messages, chat)
    ensures Accounted(x, c, before, after)
  {
    var lo, hi := Low(p, before), High(p, after, |t|);
    var shown := c.before + [c.message] + c.after;
    var k: nat :| k < |t| && t[k] == x;
    forall i | 0 <= i < |shown| ensures shown[i].row == t[lo + i].row && shown[i].id == t[lo + i].id {
      assert t[lo..hi][i] == t[lo + i];
    }
    if lo <= k < hi {
      assert shown[k - lo].id == x.id && shown[k - lo] in shown;
    } else if k < lo {
      forall i | 0 <= i < |shown| ensures Earlier(x, shown[i]) {
        assert BY_TIME(t[k], t[lo + i]);
      }
    } else {
      forall i | 0 <= i < |shown| ensures Earlier(shown[i], x) {
        assert BY_TIME(t[lo + i], t[k]);
      }
    }
  }

  lemma StretchCentre(c: Context, t: seq<Msg>, p: nat, reactions: map<Triple, ReactionRow>, before: nat, after: nat)
    requires p < |t| && IsStretch(c, t, p, reactions, before, after)
    ensures c.message.id == t[p].id && |c.before| <= before && |c.after| <= after
  {
    var shown := c.before + [c.message] + c.after;
    assert shown[|c.before|] == c.message && t[Low(p, before)..High(p, after, |t|)][|c.before|] == t[p];
  }

  /** In order of time, each message as stored and with all its reactions. */
  ghost predicate InOrder(shown: seq<Msg>, messages: map<Pair, MessageRow>, reactions: map<Triple, ReactionRow>,
                          chat: string) {
    && (forall m :: m in shown ==> Tells(m, messages, reactions, chat))
    && forall i, j :: 0 <= i < j < |shown| ==> Earlier(shown[i], shown[j])
  }

  lemma StretchSays(c: Context, t: seq<Msg>, p: nat, messages: map<Pair, MessageRow>,
                    reactions: map<Triple, ReactionRow>, chat: string, before: nat, after: nat)
    requires IsTimeline(t, messages, chat) && p < |t| && IsStretch(c, t, p, reactions, before, after)
    ensures InOrder(c.before + [c.message] + c.after, messages, reactions, chat)
    ensures forall x :: IsMsgOf(x, messages, chat) ==> Accounted(x, c, before, after)
  {
    var lo, hi := Low(p, before), High(p, after, |t|);
    StretchTells(c.before + [c.message] + c.after, t, lo, hi, messages, reactions, chat);
    forall x | IsMsgOf(x, messages, chat) ensures Accounted(x, c, before, after) {
      StretchAccounts(x, c, t, p, messages, reactions, chat, before, after);
    }
  }

  /**
   A context shows messages of the target's chat in order of time, each as stored and with all its
   reactions; the target stands between the two sides, and nothing between two messages is left out.
   */
  lemma ContextSays(c: Context, messages: map<Pair, MessageRow>, reactions: map<Triple, ReactionRow>, target: Msg,
                    before: nat, after: nat)
    requires IsMsgOf(target, messages, target.chat) && IsContext(c, messages, reactions, target, before, after)
    ensures InOrder(c.before + [c.message] + c.after, messages, reactions, target.chat)
    ensures c.message.id == target.id && |c.before| <= before && |c.after| <= after
    ensures forall x :: IsMsgOf(x, messages, target.chat) ==> Accounted(x, c, before, after)
  {
    ContextIsSlice(c, messages, reactions, target, before, after);
    var t, p: nat :|
      && IsTimeline(t, messages, target.chat) && p < |t| && t[p] == target
      && IsStretch(c, t, p, reactions, before, after);
    StretchCentre(c, t, p, reactions, before, after);
    StretchSays(c, t, p, messages, reactions, target.chat, before, after);
  }
}
