/** Attaching reactions to a batch of messages in place, and the whole message context. */
module MessageReactions {
  import opened Wrappers
  import Lex
  import opened Sorting
  import opened CacheTables
  import opened ContextWindow
  import opened ContextTheorems

  datatype Row = Row(chat: string, target: string, sender: string, emoji: string, isFromMe: bool, ts: int)

  /** Oldest reaction first, then by sender. */
  predicate Senior(s: int, a: string, t: int, b: string) {
    s < t || (s == t && Lex.Less(a, b))
  }

  const BY_SENIORITY := (a: Row, b: Row) => Senior(a.ts, a.sender, b.ts, b.sender)

  lemma SeniorityIsStrict()
    ensures StrictWeakOrder(BY_SENIORITY)
  {
    forall x, y | BY_SENIORITY(x, y) ensures !BY_SENIORITY(y, x) {
      if x.ts == y.ts { Lex.Asymmetric(x.sender, y.sender); }
    }
    forall x, y, z | BY_SENIORITY(x, y) && BY_SENIORITY(y, z) ensures BY_SENIORITY(x, z) {
      if x.ts == y.ts == z.ts { Lex.Transitive(x.sender, y.sender, z.sender); }
    }
    forall x, y, z | BY_SENIORITY(x, z) ensures BY_SENIORITY(x, y) || BY_SENIORITY(y, z) {
      Lex.Connected(x.sender, y.sender);
      if Lex.Less(y.sender, x.sender) && Lex.Less(x.sender, z.sender) {
        Lex.Transitive(y.sender, x.sender, z.sender);
      }
    }
  }

  // ----- the batched query -----

  predicate IsRowOf(r: Row, reactions: map<Triple, ReactionRow>) {
    var key := (r.chat, r.target, r.sender);
    key in reactions && reactions[key] == ReactionRow(r.emoji, r.ts, r.isFromMe)
  }

  /** The reactions to a set of messages, in order. */
  ghost predicate IsBatch(rows: seq<Row>, reactions: map<Triple, ReactionRow>, pairs: set<Pair>) {
    && NoDuplicates(rows) && Sorted(rows, BY_SENIORITY)
    && forall r :: r in rows <==> IsRowOf(r, reactions) && (r.chat, r.target) in pairs
  }

  method SelectReactions(reactions: map<Triple, ReactionRow>, pairs: set<Pair>) returns (rows: seq<Row>)
    ensures IsBatch(rows, reactions, pairs)
  {
    var todo := reactions.Keys;
    rows := [];
    while todo != {}
      invariant todo <= reactions.Keys && NoDuplicates(rows)
      invariant forall r :: r in rows <==>
                  IsRowOf(r, reactions) && (r.chat, r.target) in pairs && (r.chat, r.target, r.sender) !in todo
      decreases |todo|
    {
      var key :| key in todo;
      if (key.0, key.1) in pairs {
        var row := reactions[key];
        assert key == (key.0, key.1, key.2);
        rows := rows + [Row(key.0, key.1, key.2, row.emoji, row.isFromMe, row.ts)];
      }
      todo := todo - {key};
    }
    SortedBatch(rows);
    rows := Sort(rows, BY_SENIORITY);
  }

  lemma SortedBatch(rows: seq<Row>)
    requires NoDuplicates(rows)
    ensures NoDuplicates(Sort(rows, BY_SENIORITY)) && Sorted(Sort(rows, BY_SENIORITY), BY_SENIORITY)
    ensures forall r :: r in Sort(rows, BY_SENIORITY) <==> r in rows
  {
    SeniorityIsStrict();
    SortSorted(rows, BY_SENIORITY);
    PermutationNoDuplicates(rows, Sort(rows, BY_SENIORITY));
    forall r ensures r in Sort(rows, BY_SENIORITY) <==> r in rows {
      SortMembers(rows, BY_SENIORITY, r);
    }
  }

  // ----- one message's share of the batch -----

  function RowsAt(rows: seq<Row>, key: Pair): seq<Row> {
    if rows == [] then []
    else
      var r := rows[|rows| - 1];
      RowsAt(rows[..|rows| - 1], key) + if (r.chat, r.target) == key then [r] else []
  }

  function Show(rows: seq<Row>): (s: seq<Shown>)
    ensures |s| == |rows|
  {
    if rows == [] then []
    else
      var r := rows[|rows| - 1];
      Show(rows[..|rows| - 1]) + [Shown(r.sender, r.emoji, r.isFromMe)]
  }

  lemma {:induction false} ShowAt(rows: seq<Row>, i: nat)
    requires i < |rows|
    ensures Show(rows)[i] == Shown(rows[i].sender, rows[i].emoji, rows[i].isFromMe)
  {
    if i < |rows| - 1 {
      ShowAt(rows[..|rows| - 1], i);
    }
  }

  lemma {:induction false} RowsAtMembers(rows: seq<Row>, key: Pair)
    ensures forall r :: r in RowsAt(rows, key) <==> r in rows && (r.chat, r.target) == key
  {
    if rows != [] {
      RowsAtMembers(rows[..|rows| - 1], key);
      assert rows == rows[..|rows| - 1] + [rows[|rows| - 1]];
    }
  }

  lemma {:induction false} RowsAtInOrder(rows: seq<Row>, key: Pair)
    requires NoDuplicates(rows) && Sorted(rows, BY_SENIORITY)
    ensures NoDuplicates(RowsAt(rows, key)) && Sorted(RowsAt(rows, key), BY_SENIORITY)
  {
    if rows != [] {
      var front, last := rows[..|rows| - 1], rows[|rows| - 1];
      RowsAtInOrder(front, key);
      RowsAtMembers(front, key);
      forall r | r in RowsAt(front, key) ensures r != last && !BY_SENIORITY(last, r) {
        var k :| 0 <= k < |front| && front[k] == r;
        assert rows[k] == r;
      }
    }
  }

  /** The reactions to one message: each sender's, oldest first, then by sender. */
  ghost predicate IsReactionList(list: seq<Shown>, reactions: map<Triple, ReactionRow>, chat: string, id: string) {
    && (forall i :: 0 <= i < |list| ==>
          var key := (chat, id, list[i].sender);
          key in reactions && list[i].emoji == reactions[key].emoji && list[i].isFromMe == reactions[key].isFromMe)
    && (forall i, j :: 0 <= i < j < |list| ==>
          Senior(reactions[(chat, id, list[i].sender)].ts, list[i].sender, reactions[(chat, id, list[j].sender)].ts,
              list[j].sender))
    && (forall s :: (chat, id, s) in reactions ==> exists i :: 0 <= i < |list| && list[i].sender == s)
  }

  lemma ShareIsReactionList(rows: seq<Row>, reactions: map<Triple, ReactionRow>, pairs: set<Pair>, chat: string,
                            id: string)
    requires IsBatch(rows, reactions, pairs) && (chat, id) in pairs
    ensures IsReactionList(Show(RowsAt(rows, (chat, id))), reactions, chat, id)
  {
    var mine := RowsAt(rows, (chat, id));
    var list := Show(mine);
    RowsAtMembers(rows, (chat, id));
    RowsAtInOrder(rows, (chat, id));
    forall i | 0 <= i < |list|
      ensures list[i] == Shown(mine[i].sender, mine[i].emoji, mine[i].isFromMe) && IsRowOf(mine[i], reactions)
      ensures mine[i].chat == chat && mine[i].target == id
    {
      ShowAt(mine, i);
      assert mine[i] in mine;
    }
    forall i, j | 0 <= i < j < |list| ensures BY_SENIORITY(mine[i], mine[j]) {
      Lex.Connected(mine[i].sender, mine[j].sender);
    }
    forall s | (chat, id, s) in reactions ensures exists i :: 0 <= i < |list| && list[i].sender == s {
      var row := reactions[(chat, id, s)];
      var r := Row(chat, id, s, row.emoji, row.isFromMe, row.ts);
      assert IsRowOf(r, reactions) && r in mine;
      var i :| 0 <= i < |mine| && mine[i] == r;
      assert list[i].sender == s;
    }
  }

  // ----- attaching -----

  ghost predicate IsByMessage(byMessage: map<Pair, seq<Shown>>, rows: seq<Row>) {
    forall key :: Show(RowsAt(rows, key)) == if key in byMessage then byMessage[key] else []
  }

  lemma NextRow(rows: seq<Row>, i: nat, key: Pair)
    requires i < |rows|
    ensures Show(RowsAt(rows[..i + 1], key)) ==
            Show(RowsAt(rows[..i], key)) +
            if (rows[i].chat, rows[i].target) != key then []
            else [Shown(rows[i].sender, rows[i].emoji, rows[i].isFromMe)]
  {
    assert rows[..i + 1][..i] == rows[..i];
    var before := RowsAt(rows[..i], key);
    assert (before + [rows[i]])[..|before|] == before;
    assert before + [] == before;
  }

  method GroupByMessage(rows: seq<Row>) returns (byMessage: map<Pair, seq<Shown>>)
    ensures IsByMessage(byMessage, rows)
  {
    byMessage := map[];
    for i := 0 to |rows|
      invariant IsByMessage(byMessage, rows[..i])
    {
      var r := rows[i];
      var key := (r.chat, r.target);
      ghost var before, more := byMessage, rows[..i + 1];
      var list := if key in byMessage then byMessage[key] else [];
      byMessage := byMessage[key := list + [Shown(r.sender, r.emoji, r.isFromMe)]];
      forall k ensures Show(RowsAt(more, k)) == if k in byMessage then byMessage[k] else [] {
        NextRow(rows, i, k);
        assert Show(RowsAt(rows[..i], k)) == if k in before then before[k] else [];
      }
    }
    assert rows[..|rows|] == rows;
  }

  method Pairs(a: array<Msg>) returns (pairs: set<Pair>)
    ensures forall i :: 0 <= i < a.Length ==> (a[i].chat, a[i].id) in pairs
  {
    pairs := {};
    for i := 0 to a.Length
      invariant forall k :: 0 <= k < i ==> (a[k].chat, a[k].id) in pairs
    {
      pairs := pairs + {(a[i].chat, a[i].id)};
    }
  }

  lemma SomeReaction(list: seq<Shown>, reactions: map<Triple, ReactionRow>, chat: string, id: string)
    requires IsReactionList(list, reactions, chat, id)
    ensures IsReactionList([], reactions, chat, id) <==> list == []
  {
    if list != [] {
      var key := (chat, id, list[0].sender);
      assert key in reactions;
    } else {
      assert list == [];
    }
  }

  /** What one message becomes. */
  ghost predicate Becomes(m: Msg, was: Msg, reactions: map<Triple, ReactionRow>) {
    m.(reactions := was.reactions) == was && IsAttached(m, was.reactions, reactions)
  }

  lemma AttachOne(was: Msg, list: seq<Shown>, reactions: map<Triple, ReactionRow>)
    requires IsReactionList(list, reactions, was.chat, was.id)
    ensures Becomes(if |list| > 0 then was.(reactions := list) else was, was, reactions)
  {
    SomeReaction(list, reactions, was.chat, was.id);
  }

  lemma ShareBecomes(rows: seq<Row>, reactions: map<Triple, ReactionRow>, pairs: set<Pair>, was: Msg)
    requires IsBatch(rows, reactions, pairs) && (was.chat, was.id) in pairs
    ensures var list := Show(RowsAt(rows, (was.chat, was.id)));
            Becomes(if |list| > 0 then was.(reactions := list) else was, was, reactions)
  {
    ShareIsReactionList(rows, reactions, pairs, was.chat, was.id);
    AttachOne(was, Show(RowsAt(rows, (was.chat, was.id))), reactions);
  }

  /** Gives every message of the batch its own reactions; a message without any keeps the list it had. */
  method AttachReactions(reactions: map<Triple, ReactionRow>, a: array<Msg>)
    modifies a
    ensures forall i :: 0 <= i < a.Length ==> Becomes(a[i], old(a[i]), reactions)
  {
    var pairs := Pairs(a);
    var rows := SelectReactions(reactions, pairs);
    var byMessage := GroupByMessage(rows);
    for i := 0 to a.Length
      invariant forall k :: i <= k < a.Length ==> a[k] == old(a[k])
      invariant forall k :: 0 <= k < i ==> Becomes(a[k], old(a[k]), reactions)
    {
      var key := (a[i].chat, a[i].id);
      ghost var list := Show(RowsAt(rows, key));
      ShareBecomes(rows, reactions, pairs, a[i]);
      assert list == if key in byMessage then byMessage[key] else [];
      if key in byMessage && |byMessage[key]| > 0 {
        a[i] := a[i].(reactions := byMessage[key]);
      }
    }
  }

  ghost predicate IsAttached(m: Msg, had: seq<Shown>, reactions: map<Triple, ReactionRow>) {
    if IsReactionList([], reactions, m.chat, m.id) then m.reactions == had
    else IsReactionList(m.reactions, reactions, m.chat, m.id)
  }

  // ----- the message context -----

  datatype ContextError = EmptyId | NegativeWindow | WindowTooLarge | NotFound

  datatype Context = Context(before: seq<Msg>, message: Msg, after: seq<Msg>)

  const MAX_WINDOW := 100
  const DEFAULT_WINDOW := 5

  /** Every message of `shown` is the one of `bare`, with its reactions. */
  ghost predicate Carries(shown: seq<Msg>, bare: seq<Msg>, reactions: map<Triple, ReactionRow>) {
    && |shown| == |bare|
    && forall i :: 0 <= i < |shown| ==>
         shown[i].(reactions := bare[i].reactions) == bare[i]
             && IsReactionList(shown[i].reactions, reactions, bare[i].chat, bare[i].id)
  }

  method AttachAll(reactions: map<Triple, ReactionRow>, bare: seq<Msg>) returns (shown: seq<Msg>)
    requires forall m :: m in bare ==> m.reactions == []
    ensures Carries(shown, bare, reactions)
  {
    var a := new Msg[|bare|](i requires 0 <= i < |bare| => bare[i]);
    assert forall i :: 0 <= i < a.Length ==> a[i] in bare;
    AttachReactions(reactions, a);
    shown := a[..];
  }

  /** The messages before and after the target as selected, the first ones reversed, all with their reactions. */
  ghost predicate IsContext(c: Context, messages: map<Pair, MessageRow>, reactions: map<Triple, ReactionRow>,
                            target: Msg, before: nat, after: nat)
  {
    exists rows, following ::
      && IsLimitedSide(rows, messages, target, true, before) && IsLimitedSide(following, messages, target, false, after)
      && IsAround(c, rows, target, following, reactions)
  }

  ghost predicate IsAround(c: Context, rows: seq<Msg>, target: Msg, following: seq<Msg>,
                           reactions: map<Triple, ReactionRow>) {
    && |c.before| == |rows|
    && Carries(c.before + [c.message] + c.after, Reversed(rows) + [target] + following, reactions)
  }

  lemma NoneAttachedYet(bare: seq<Msg>, preceding: seq<Msg>, target: Msg, following: seq<Msg>, rows: seq<Msg>)
    requires bare == preceding + [target] + following && preceding == Reversed(rows) && target.reactions == []
    requires forall m :: m in rows || m in following ==> m.reactions == []
    ensures forall m :: m in bare ==> m.reactions == []
  {
    ReversedMembers(rows);
    assert forall m :: m in bare ==> m in preceding || m == target || m in following;
  }

  lemma SideHasNoReactions(rows: seq<Msg>, messages: map<Pair, MessageRow>, target: Msg, older: bool, limit: nat)
    requires IsLimitedSide(rows, messages, target, older, limit)
    ensures forall m :: m in rows ==> m.reactions == []
  {
    var all :| IsSide(all, messages, target, older) && rows == Limited(all, limit);
    assert forall m :: m in rows ==> m in all;
  }

  /** The messages around the target, oldest first, each with its reactions. */
  method AssembleContext(messages: map<Pair, MessageRow>, reactions: map<Triple, ReactionRow>, target: Msg,
                         before: nat, after: nat)
    returns (c: Context)
    requires target.reactions == []
    ensures IsContext(c, messages, reactions, target, before, after)
  {
    var rows := SelectSide(messages, target, true, before);
    var following := SelectSide(messages, target, false, after);
    SideHasNoReactions(rows, messages, target, true, before);
    SideHasNoReactions(following, messages, target, false, after);
    var preceding := ReverseMessages(rows);
    var bare := preceding + [target] + following;
    NoneAttachedYet(bare, preceding, target, following, rows);
    var shown := AttachAll(reactions, bare);
    var p := |preceding|;
    assert shown == shown[..p] + [shown[p]] + shown[p + 1..];
    c := Context(shown[..p], shown[p], shown[p + 1..]);
    assert IsAround(c, rows, target, following, reactions);
  }

  /** The window asked for, or why it is refused. */
  function WindowOf(id: string, before: Option<int>, after: Option<int>): Result<(nat, nat), ContextError> {
    var b := if before.Some? then before.value else DEFAULT_WINDOW;
    var a := if after.Some? then after.value else DEFAULT_WINDOW;
    if id == "" then Err(EmptyId)
    else if b < 0 || a < 0 then Err(NegativeWindow)
    else if b > MAX_WINDOW || a > MAX_WINDOW then Err(WindowTooLarge)
    else Ok((b, a))
  }

  /** The target is the message with the id in the first chat that has one. */
  ghost predicate IsTarget(target: Msg, messages: map<Pair, MessageRow>, id: string) {
    && IsMsgOf(target, messages, target.chat) && target.id == id
    && forall c :: (c, id) in messages ==> c == target.chat || Lex.Less(target.chat, c)
  }

  method GetMessageContext(messages: map<Pair, MessageRow>, reactions: map<Triple, ReactionRow>, id: string,
                           before: Option<int>, after: Option<int>)
    returns (r: Result<Context, ContextError>)
    ensures match WindowOf(id, before, after)
            case Err(e) => r == Err(e)
            case Ok((b, a)) =>
              if forall c :: (c, id) !in messages then r == Err(NotFound)
              else
                && r.Ok?
                && exists target ::
                     IsTarget(target, messages, id) && IsContext(r.value, messages, reactions, target, b, a)
  {
    var window := WindowOf(id, before, after);
    if window.Err? {
      return Err(window.error);
    }
    var found := FindTarget(messages, id);
    if found.None? {
      return Err(NotFound);
    }
    var c := AssembleContext(messages, reactions, found.value, window.value.0, window.value.1);
    assert IsTarget(found.value, messages, id);
    return Ok(c);
  }

  /** The context is the stretch of the timeline `t` around its message `p`, each message with its own reactions. */
  ghost predicate IsStretch(c: Context, t: seq<Msg>, p: nat, reactions: map<Triple, ReactionRow>, before: nat,
                            after: nat)
    requires p < |t|
  {
    && Carries(c.before + [c.message] + c.after, t[Low(p, before)..High(p, after, |t|)], reactions)
    && |c.before| == p - Low(p, before) && |c.after| == High(p, after, |t|) - p - 1
  }

  lemma ContextOnTimeline(c: Context, messages: map<Pair, MessageRow>, reactions: map<Triple, ReactionRow>, target: Msg,
                          before: nat, after: nat, t: seq<Msg>, p: nat)
    requires IsContext(c, messages, reactions, target, before, after)
    requires IsTimeline(t, messages, target.chat) && p < |t| && t[p] == target
    ensures IsStretch(c, t, p, reactions, before, after)
  {
    var rows, following :|
      && IsLimitedSide(rows, messages, target, true, before) && IsLimitedSide(following, messages, target, false, after)
      && IsAround(c, rows, target, following, reactions);
    WindowIsSlice(t, p, messages, rows, following, before, after);
  }

  /** Every chat has exactly one timeline, and the context of its message is a stretch of that. */
  lemma ContextIsSlice(c: Context, messages: map<Pair, MessageRow>, reactions: map<Triple, ReactionRow>, target: Msg,
                       before: nat, after: nat)
    requires IsMsgOf(target, messages, target.chat) && IsContext(c, messages, reactions, target, before, after)
    ensures exists t, p: nat ::
              && IsTimeline(t, messages, target.chat) && p < |t| && t[p] == target
              && IsStretch(c, t, p, reactions, before, after)
    ensures forall t, u :: IsTimeline(t, messages, target.chat) && IsTimeline(u, messages, target.chat) ==> t == u
  {
    var t := TimelineOf(messages, target.chat);
    var p: nat :| p < |t| && t[p] == target;
    ContextOnTimeline(c, messages, reactions, target, before, after, t, p);
    forall t, u | IsTimeline(t, messages, target.chat) && IsTimeline(u, messages, target.chat) ensures t == u {
      OneTimeline(t, u, messages, target.chat);
    }
  }
}
