/**
 What loading a chat once for each message tied on its last time does to the unread counts: every row
 brings its chat's unread count.
 */
module ConversationUnread {
  import opened Sums
  import Tables = CacheTables
  import opened Conversations
  import opened ConversationLoads

  ghost predicate UnreadCounts(db: Tables.Db) {
    forall j :: j in db.chats ==> db.chats[j].unread >= 0
  }

  /** Each chat's unread count. */
  ghost function UnreadOf(db: Tables.Db): map<string, nat>
    requires UnreadCounts(db)
  {
    map j | j in db.chats :: db.chats[j].unread
  }

  /** Each chat's unread count, once for each of its rows. */
  ghost function Counted(rows: seq<Row>, unread: map<string, nat>): map<string, nat> {
    map j | j in unread :: |RowsFor(rows, j)| * unread[j]
  }

  lemma CountedAppend(rows: seq<Row>, r: Row, unread: map<string, nat>, j: string)
    ensures Weight(j, Counted(rows + [r], unread)) ==
            Weight(j, Counted(rows, unread)) + if j == r.jid then Weight(j, unread) else 0
  {
    assert (rows + [r])[..|rows|] == rows;
    if j in unread {
      var n := |RowsFor(rows, j)|;
      assert (n + 1) * unread[j] == n * unread[j] + unread[j];
    }
  }

  lemma {:induction false} UnreadIsSum(rows: seq<Row>, unread: map<string, nat>, jids: set<string>)
    requires forall r :: r in rows ==> r.jid in jids && r.jid in unread && r.unread == unread[r.jid]
    ensures Unread(rows) == Sum(jids, Counted(rows, unread))
    decreases |rows|
  {
    if rows == [] {
      SumOfZeros(jids, Counted(rows, unread));
    } else {
      var front, r := rows[..|rows| - 1], rows[|rows| - 1];
      assert rows == front + [r];
      UnreadIsSum(front, unread, jids);
      var before, after := Counted(front, unread), Counted(rows, unread);
      forall j ensures Weight(j, after) == Weight(j, before) + if j == r.jid then Weight(j, unread) else 0 {
        CountedAppend(front, r, unread, j);
      }
      SumRemove(jids, r.jid, before);
      SumRemove(jids, r.jid, after);
      SumAgree(jids - {r.jid}, before, after);
    }
  }

  lemma {:induction false} SumOfZeros(s: set<string>, w: map<string, nat>)
    requires forall k :: k in s ==> Weight(k, w) == 0
    ensures Sum(s, w) == 0
    decreases |s|
  {
    if s != {} {
      var x :| x in s;
      SumRemove(s, x, w);
      SumOfZeros(s - {x}, w);
    }
  }

  /** Weights that are nowhere smaller have equal sums only if they are equal everywhere. */
  lemma {:induction false} SumEqualsOnlyIf(s: set<string>, v: map<string, nat>, w: map<string, nat>)
    requires forall k :: k in s ==> Weight(k, v) <= Weight(k, w)
    ensures Sum(s, v) <= Sum(s, w)
    ensures Sum(s, v) == Sum(s, w) <==> forall k :: k in s ==> Weight(k, v) == Weight(k, w)
    decreases |s|
  {
    if s != {} {
      var x :| x in s;
      SumRemove(s, x, v);
      SumRemove(s, x, w);
      SumEqualsOnlyIf(s - {x}, v, w);
    }
  }

  lemma {:induction false} RowsForOf(rows: seq<Row>, key: string, canonicalOf: map<string, string>, jid: string)
    requires KeyOf(jid, canonicalOf) == key
    ensures RowsFor(RowsOf(rows, key, canonicalOf), jid) == RowsFor(rows, jid)
  {
    if rows != [] {
      RowsForOf(rows[..|rows| - 1], key, canonicalOf, jid);
      var mine := RowsOf(rows[..|rows| - 1], key, canonicalOf);
      assert (mine + [rows[|rows| - 1]])[..|mine|] == mine;
      assert mine + [] == mine;
    }
  }

  lemma CopiesOfMember(rows: seq<Row>, q: Source, key: string, canonicalOf: map<string, string>, j: string)
    requires IsLoaded(rows, q) && UnreadCounts(q.db) && j in Jids(RowsOf(rows, key, canonicalOf))
    ensures j in q.db.chats
    ensures Weight(j, Counted(RowsOf(rows, key, canonicalOf), UnreadOf(q.db))) ==
            Copies(q.db, j, q.includeLast) * q.db.chats[j].unread
    ensures Weight(j, UnreadOf(q.db)) == q.db.chats[j].unread
  {
    RowsOfMembers(rows, key, canonicalOf);
    RowsForOf(rows, key, canonicalOf, j);
    RowCount(rows, q, j);
  }

  lemma AtLeastOnce(n: nat, u: nat)
    requires n >= 1
    ensures n * u >= u
    ensures n * u == u <==> n == 1 || u == 0
  {
    assert n * u == (n - 1) * u + u;
    if n > 1 && u > 0 {
      assert (n - 1) * u >= 1 * u;
    }
  }

  /**
   A conversation shows the sum of its chats' unread counts exactly when none of its chats has both
   unread messages and several messages at its last time; otherwise it shows more.
   */
  lemma UnreadIsExact(rows: seq<Row>, q: Source, g: Group, key: string, canonicalOf: map<string, string>)
    requires IsLoaded(rows, q) && UnreadCounts(q.db) && IsMergeOf(g, RowsOf(rows, key, canonicalOf), key)
    ensures g.members <= q.db.chats.Keys && Sum(g.members, UnreadOf(q.db)) <= g.unread
    ensures g.unread == Sum(g.members, UnreadOf(q.db)) <==>
            forall j :: j in g.members ==> q.db.chats[j].unread == 0 || Copies(q.db, j, q.includeLast) == 1
  {
    var mine := RowsOf(rows, key, canonicalOf);
    var unread, counted := UnreadOf(q.db), Counted(mine, UnreadOf(q.db));
    RowsOfMembers(rows, key, canonicalOf);
    UnreadIsSum(mine, unread, g.members);
    forall j | j in g.members
      ensures j in q.db.chats && Weight(j, unread) <= Weight(j, counted)
      ensures Weight(j, unread) == Weight(j, counted) <==>
              q.db.chats[j].unread == 0 || Copies(q.db, j, q.includeLast) == 1
    {
      CopiesOfMember(rows, q, key, canonicalOf, j);
      AtLeastOnce(Copies(q.db, j, q.includeLast), q.db.chats[j].unread);
    }
    SumEqualsOnlyIf(g.members, unread, counted);
  }

  /** One chat with one unread message and two messages in its last second: its conversation shows two. */
  lemma TiedChatCountsTwice(c: Tables.ChatRow, m: Tables.MessageRow, n: Tables.MessageRow, contactOf: string -> string)
    requires c.unread == 1 && c.lastTs == m.ts == n.ts
    ensures var q := TwoMessages(c, m, n, contactOf);
            exists rows, g ::
              && IsLoaded(rows, q) && IsMergeOf(g, RowsOf(rows, "c", map[]), "c")
              && g.unread == 2 && q.db.chats["c"].unread == 1
  {
    var q := TwoMessages(c, m, n, contactOf);
    var r, s := WithMessage(q, ("c", "1")), WithMessage(q, ("c", "2"));
    EitherOrder(c, m, n, contactOf);
    MergeOfTwo(r, s);
    assert Group("c", r, 2, {"c"}, r.contactName).unread == 2;
  }

  /** Without the last message every chat is one row, and the counts are always exact. */
  lemma ExactWithoutPreview(rows: seq<Row>, q: Source, g: Group, key: string, canonicalOf: map<string, string>)
    requires !q.includeLast && IsLoaded(rows, q) && UnreadCounts(q.db)
    requires IsMergeOf(g, RowsOf(rows, key, canonicalOf), key)
    ensures g.unread == Sum(g.members, UnreadOf(q.db))
  {
    UnreadIsExact(rows, q, g, key, canonicalOf);
  }
}
