/** The messages around a message, and the reactions attached to them. */
module ContextWindow {
  import opened Wrappers
  import Lex
  import opened Sorting
  import opened CacheTables

  /** A reaction as shown with its message. */
  datatype Shown = Shown(sender: string, emoji: string, isFromMe: bool)

  datatype Msg = Msg(chat: string, id: string, row: MessageRow, reactions: seq<Shown>)

  // ----- the order of a chat -----

  const BY_TIME := (a: Msg, b: Msg) => a.row.ts < b.row.ts || (a.row.ts == b.row.ts && Lex.Less(a.id, b.id))

  const NEWEST_FIRST := (a: Msg, b: Msg) => BY_TIME(b, a)

  lemma ByTimeIsStrict()
    ensures StrictWeakOrder(BY_TIME) && StrictWeakOrder(NEWEST_FIRST)
  {
    forall x, y | BY_TIME(x, y) ensures !BY_TIME(y, x) {
      if x.row.ts == y.row.ts { Lex.Asymmetric(x.id, y.id); }
    }
    forall x, y, z | BY_TIME(x, y) && BY_TIME(y, z) ensures BY_TIME(x, z) {
      if x.row.ts == y.row.ts == z.row.ts { Lex.Transitive(x.id, y.id, z.id); }
    }
    forall x, y, z | BY_TIME(x, z) ensures BY_TIME(x, y) || BY_TIME(y, z) {
      Lex.Connected(x.id, y.id);
      if Lex.Less(y.id, x.id) && Lex.Less(x.id, z.id) {
        Lex.Transitive(y.id, x.id, z.id);
      }
    }
    forall x, y, z | NEWEST_FIRST(x, z) ensures NEWEST_FIRST(x, y) || NEWEST_FIRST(y, z) {
      assert BY_TIME(z, y) || BY_TIME(y, x);
    }
  }

  predicate IsMsgOf(m: Msg, messages: map<Pair, MessageRow>, chat: string) {
    m.chat == chat && (chat, m.id) in messages && m.row == messages[(chat, m.id)] && m.reactions == []
  }

  /** All messages of a chat, oldest first. */
  ghost predicate IsTimeline(t: seq<Msg>, messages: map<Pair, MessageRow>, chat: string) {
    StrictlySorted(t, BY_TIME) && forall m :: m in t <==> IsMsgOf(m, messages, chat)
  }

  // ----- the two queries -----

  /** The messages of the chat on one side of the target, in the order asked for. */
  ghost predicate IsSide(s: seq<Msg>, messages: map<Pair, MessageRow>, target: Msg, older: bool) {
    && StrictlySorted(s, if older then NEWEST_FIRST else BY_TIME)
    && forall m ::
         m in s <==> IsMsgOf(m, messages, target.chat) && if older then BY_TIME(m, target) else BY_TIME(target, m)
  }

  function Limited<T>(s: seq<T>, limit: nat): seq<T> {
    if |s| <= limit then s else s[..limit]
  }

  /** As many of those messages as the limit allows. */
  ghost predicate IsLimitedSide(rows: seq<Msg>, messages: map<Pair, MessageRow>, target: Msg, older: bool, limit: nat) {
    exists all :: IsSide(all, messages, target, older) && rows == Limited(all, limit)
  }

  ghost predicate DistinctIds(s: seq<Msg>) {
    forall i, j :: 0 <= i < j < |s| ==> s[i].id != s[j].id
  }

  lemma SortedSide(s: seq<Msg>, older: bool)
    requires DistinctIds(s)
    ensures var order := if older then NEWEST_FIRST else BY_TIME;
            StrictlySorted(Sort(s, order), order) && forall m :: m in Sort(s, order) <==> m in s
  {
    var order := if older then NEWEST_FIRST else BY_TIME;
    var r := Sort(s, order);
    ByTimeIsStrict();
    SortSorted(s, order);
    PermutationNoDuplicates(s, r);
    forall m ensures m in r <==> m in s {
      SortMembers(s, order, m);
    }
    forall i, j | 0 <= i < j < |r| ensures order(r[i], r[j]) {
      assert r[i] in s && r[j] in s;
      Lex.Connected(r[i].id, r[j].id);
    }
  }

  method SelectSide(messages: map<Pair, MessageRow>, target: Msg, older: bool, limit: nat) returns (rows: seq<Msg>)
    ensures IsLimitedSide(rows, messages, target, older, limit)
  {
    var todo := messages.Keys;
    var found: seq<Msg> := [];
    while todo != {}
      invariant todo <= messages.Keys && DistinctIds(found)
      invariant forall m :: m in found <==>
                  && IsMsgOf(m, messages, target.chat) && (m.chat, m.id) !in todo
                  && if older then BY_TIME(m, target) else BY_TIME(target, m)
      decreases |todo|
    {
      var key :| key in todo;
      var m := Msg(key.0, key.1, messages[key], []);
      if key.0 == target.chat && (if older then BY_TIME(m, target) else BY_TIME(target, m)) {
        assert key == (key.0, key.1);
        found := found + [m];
      }
      todo := todo - {key};
    }
    SortedSide(found, older);
    var sorted := Sort(found, if older then NEWEST_FIRST else BY_TIME);
    rows := Limited(sorted, limit);
    assert IsSide(sorted, messages, target, older);
  }

  function Reversed<T>(s: seq<T>): (r: seq<T>)
    ensures |r| == |s|
  {
    if s == [] then [] else Reversed(s[1..]) + [s[0]]
  }

  lemma {:induction false} ReversedAt<T>(s: seq<T>, i: nat)
    requires i < |s|
    ensures Reversed(s)[i] == s[|s| - 1 - i]
  {
    if i < |s| - 1 {
      ReversedAt(s[1..], i);
    }
  }

  method ReverseMessages(s: seq<Msg>) returns (r: seq<Msg>)
    ensures r == Reversed(s)
  {
    var out := new Msg[|s|];
    for i := 0 to |s|
      invariant forall k :: |s| - i <= k < |s| ==> out[k] == s[|s| - 1 - k]
    {
      out[|s| - 1 - i] := s[i];
    }
    r := out[..];
    forall k | 0 <= k < |s| ensures r[k] == Reversed(s)[k] {
      ReversedAt(s, k);
    }
  }

  // ----- the target -----

  /** The message with this id in the first chat that has one. */
  method FindTarget(messages: map<Pair, MessageRow>, id: string) returns (r: Option<Msg>)
    ensures r.None? <==> forall c :: (c, id) !in messages
    ensures r.Some? ==> IsMsgOf(r.value, messages, r.value.chat) && r.value.id == id
    ensures r.Some? ==> forall c :: (c, id) in messages ==> c == r.value.chat || Lex.Less(r.value.chat, c)
  {
    var todo := messages.Keys;
    r := None;
    while todo != {}
      invariant todo <= messages.Keys
      invariant r.None? ==> forall c :: (c, id) in messages ==> (c, id) in todo
      invariant r.Some? ==> IsMsgOf(r.value, messages, r.value.chat) && r.value.id == id
      invariant r.Some? ==>
                forall c :: (c, id) in messages && (c, id) !in todo ==> c == r.value.chat || Lex.Less(r.value.chat, c)
      decreases |todo|
    {
      var key :| key in todo;
      if key.1 == id && (r.None? || Lex.Less(key.0, r.value.chat)) {
        Smaller(messages, todo, id, if r.Some? then r.value.chat else key.0, key.0);
        r := Some(Msg(key.0, id, messages[key], []));
      } else if key.1 == id {
        Lex.Connected(key.0, r.value.chat);
      }
      todo := todo - {key};
    }
  }

  lemma Smaller(messages: map<Pair, MessageRow>, todo: set<Pair>, id: string, chat: string, smaller: string)
    requires smaller == chat || Lex.Less(smaller, chat)
    requires forall c :: (c, id) in messages && (c, id) !in todo ==>
               c == chat || Lex.Less(chat, c) || c == smaller || Lex.Less(smaller, c)
    ensures forall c :: (c, id) in messages && (c, id) !in todo ==> c == smaller || Lex.Less(smaller, c)
  {
    forall c | (c, id) in messages && (c, id) !in todo ensures c == smaller || Lex.Less(smaller, c) {
      if Lex.Less(smaller, chat) && Lex.Less(chat, c) {
        Lex.Transitive(smaller, chat, c);
      }
    }
  }
}
