/**
 Loading the chats with their last message: one row for each message tied on the chat's last time, or
 one bare row, newest chats first and then by JID. The order of one chat's rows is open.
 */
module ConversationLoads {
  import Lex
  import opened Sorting
  import Tables = CacheTables
  import opened Conversations

  const NO_PREVIEW := Preview("", "", "", false)

  /** What the query asks: the database, whether to join messages, the chat type, and each chat's contact name. */
  datatype Source = Source(db: Tables.Db, includeLast: bool, chatType: string, contactOf: string -> string)

  /** The messages of a chat at its last time. */
  ghost function Tied(db: Tables.Db, jid: string): set<Tables.Pair>
    requires jid in db.chats
  {
    set k | k in db.messages && k.0 == jid && db.messages[k].ts == db.chats[jid].lastTs
  }

  /** How many rows a chat is loaded as. */
  ghost function Copies(db: Tables.Db, jid: string, includeLast: bool): nat
    requires jid in db.chats
  {
    var tied := |Tied(db, jid)|;
    if includeLast && tied > 0 then tied else 1
  }

  predicate Asked(q: Source, jid: string) {
    jid in q.db.chats && (q.chatType == "" || q.db.chats[jid].chatType == q.chatType)
  }

  /** A chat's row without a message. */
  function Bare(q: Source, jid: string): Row
    requires jid in q.db.chats
  {
    var c := q.db.chats[jid];
    Row(jid, c.name, c.isGroup, c.chatType, c.lastTs, c.unread, false, NO_PREVIEW, q.contactOf(jid))
  }

  /** A chat's row with one of its messages. */
  function WithMessage(q: Source, k: Tables.Pair): Row
    requires k.0 in q.db.chats && k in q.db.messages
  {
    var m := q.db.messages[k];
    Bare(q, k.0).(hasMessage := true, preview := Preview(m.body, k.1, m.sender, m.isFromMe))
  }

  ghost predicate IsQueryRow(r: Row, q: Source) {
    && Asked(q, r.jid)
    && if q.includeLast && Tied(q.db, r.jid) != {} then
         (r.jid, r.preview.id) in Tied(q.db, r.jid) && r == WithMessage(q, (r.jid, r.preview.id))
       else r == Bare(q, r.jid)
  }

  /** Newest chat first, then by JID. */
  const QUERY_ORDER := (r: Row, s: Row) => r.ts > s.ts || (r.ts == s.ts && Lex.Less(r.jid, s.jid))

  /** One result of the query: every row once, in an order the query allows. */
  ghost predicate IsLoaded(rows: seq<Row>, q: Source) {
    && NoDuplicates(rows) && Sorted(rows, QUERY_ORDER)
    && forall r :: r in rows <==> IsQueryRow(r, q)
  }

  lemma QueryOrderIsWeak()
    ensures StrictWeakOrder(QUERY_ORDER)
  {
    forall x, y | QUERY_ORDER(x, y) ensures !QUERY_ORDER(y, x) {
      if x.ts == y.ts { Lex.Asymmetric(x.jid, y.jid); }
    }
    forall x, y, z | QUERY_ORDER(x, y) && QUERY_ORDER(y, z) ensures QUERY_ORDER(x, z) {
      if x.ts == y.ts == z.ts { Lex.Transitive(x.jid, y.jid, z.jid); }
    }
    forall x, y, z | QUERY_ORDER(x, z) ensures QUERY_ORDER(x, y) || QUERY_ORDER(y, z) {
      Lex.Connected(x.jid, y.jid);
      if Lex.Less(y.jid, x.jid) && Lex.Less(x.jid, z.jid) {
        Lex.Transitive(y.jid, x.jid, z.jid);
      }
    }
  }

  // ----- running the query -----

  /** The rows of one chat: one for each tied message, or the bare one. */
  method LoadChat(q: Source, jid: string) returns (mine: seq<Row>)
    requires Asked(q, jid)
    ensures NoDuplicates(mine) && forall r :: r in mine <==> IsQueryRow(r, q) && r.jid == jid
  {
    mine := [];
    if q.includeLast {
      var todo := q.db.messages.Keys;
      while todo != {}
        invariant todo <= q.db.messages.Keys && NoDuplicates(mine)
        invariant forall r :: r in mine <==>
                    && r.jid == jid && (jid, r.preview.id) in Tied(q.db, jid) - todo
                    && r == WithMessage(q, (jid, r.preview.id))
        decreases |todo|
      {
        var k :| k in todo;
        if k.0 == jid && q.db.messages[k].ts == q.db.chats[jid].lastTs {
          assert k == (jid, k.1) && WithMessage(q, k) !in mine;
          mine := mine + [WithMessage(q, k)];
        }
        todo := todo - {k};
      }
      assert Tied(q.db, jid) != {} ==> mine != [] by {
        if k :| k in Tied(q.db, jid) {
          assert k == (jid, k.1) && WithMessage(q, k) in mine;
        }
      }
    }
    if mine == [] {
      mine := [Bare(q, jid)];
    } else {
      assert mine[0] in mine && Tied(q.db, jid) != {};
    }
  }

  method LoadConversationChats(q: Source) returns (rows: seq<Row>)
    ensures IsLoaded(rows, q)
  {
    var todo := q.db.chats.Keys;
    rows := [];
    while todo != {}
      invariant todo <= q.db.chats.Keys && NoDuplicates(rows)
      invariant forall r :: r in rows <==> IsQueryRow(r, q) && r.jid !in todo
      decreases |todo|
    {
      var jid :| jid in todo;
      if q.chatType == "" || q.db.chats[jid].chatType == q.chatType {
        var mine := LoadChat(q, jid);
        JoinDistinct(rows, mine);
        rows := rows + mine;
      }
      todo := todo - {jid};
    }
    SortedLoad(rows);
    rows := Sort(rows, QUERY_ORDER);
  }

  lemma SortedLoad(rows: seq<Row>)
    requires NoDuplicates(rows)
    ensures NoDuplicates(Sort(rows, QUERY_ORDER)) && Sorted(Sort(rows, QUERY_ORDER), QUERY_ORDER)
    ensures forall r :: r in Sort(rows, QUERY_ORDER) <==> r in rows
  {
    QueryOrderIsWeak();
    SortSorted(rows, QUERY_ORDER);
    PermutationNoDuplicates(rows, Sort(rows, QUERY_ORDER));
    forall r ensures r in Sort(rows, QUERY_ORDER) <==> r in rows {
      SortMembers(rows, QUERY_ORDER, r);
    }
  }

  // ----- how many rows a chat has -----

  /** The rows of one chat. */
  function RowsFor(rows: seq<Row>, jid: string): seq<Row> {
    if rows == [] then []
    else RowsFor(rows[..|rows| - 1], jid) + if rows[|rows| - 1].jid == jid then [rows[|rows| - 1]] else []
  }

  lemma {:induction false} RowsForMembers(rows: seq<Row>, jid: string)
    requires NoDuplicates(rows)
    ensures NoDuplicates(RowsFor(rows, jid))
    ensures forall r :: r in RowsFor(rows, jid) <==> r in rows && r.jid == jid
  {
    if rows != [] {
      var front, last := rows[..|rows| - 1], rows[|rows| - 1];
      RowsForMembers(front, jid);
      assert rows == front + [last] && last !in front;
      JoinDistinct(RowsFor(front, jid), if last.jid == jid then [last] else []);
    }
  }

  ghost function MessagesOf(rows: seq<Row>): set<Tables.Pair> {
    set r | r in rows :: (r.jid, r.preview.id)
  }

  lemma {:induction false} OneMessageEach(rows: seq<Row>)
    requires forall i, j :: 0 <= i < j < |rows| ==> rows[i].preview.id != rows[j].preview.id
    ensures |MessagesOf(rows)| == |rows|
  {
    if rows != [] {
      var front, last := rows[..|rows| - 1], rows[|rows| - 1];
      OneMessageEach(front);
      assert rows == front + [last];
      assert MessagesOf(rows) == MessagesOf(front) + {(last.jid, last.preview.id)};
      assert (last.jid, last.preview.id) !in MessagesOf(front);
    }
  }

  lemma AllTheSame(rows: seq<Row>, r: Row)
    requires forall x :: x in rows ==> x == r
    ensures |rows| > 1 ==> !NoDuplicates(rows)
  {
    if |rows| > 1 {
      assert rows[0] in rows && rows[1] in rows;
    }
  }

  /** The query returns a chat once for each message tied on its last time, or once. */
  lemma RowCount(rows: seq<Row>, q: Source, jid: string)
    requires IsLoaded(rows, q) && Asked(q, jid)
    ensures |RowsFor(rows, jid)| == Copies(q.db, jid, q.includeLast)
  {
    var mine := RowsFor(rows, jid);
    RowsForMembers(rows, jid);
    if q.includeLast && Tied(q.db, jid) != {} {
      forall k | k in Tied(q.db, jid) ensures k in MessagesOf(mine) {
        assert k == (jid, k.1) && IsQueryRow(WithMessage(q, k), q);
        assert WithMessage(q, k) in mine;
      }
      forall i, j | 0 <= i < j < |mine| ensures mine[i].preview.id != mine[j].preview.id {
        assert mine[i] in mine && mine[j] in mine;
      }
      OneMessageEach(mine);
      assert MessagesOf(mine) == Tied(q.db, jid);
    } else {
      assert IsQueryRow(Bare(q, jid), q) && Bare(q, jid) in mine;
      AllTheSame(mine, Bare(q, jid));
    }
  }

  // ----- a chat with two messages in its last second -----

  /** One chat and its two messages. */
  function TwoMessages(c: Tables.ChatRow, m: Tables.MessageRow, n: Tables.MessageRow, contactOf: string -> string)
    : Source
  {
    var db := Tables.EMPTY.(chats := map["c" := c], messages := map[("c", "1") := m, ("c", "2") := n]);
    Source(db, true, "", contactOf)
  }

  lemma TwoTied(c: Tables.ChatRow, m: Tables.MessageRow, n: Tables.MessageRow, contactOf: string -> string)
    requires c.lastTs == m.ts == n.ts
    ensures var q := TwoMessages(c, m, n, contactOf);
            Tied(q.db, "c") == {("c", "1"), ("c", "2")} && Copies(q.db, "c", true) == 2
  {
    assert "1"[0] != "2"[0];
    assert Tied(TwoMessages(c, m, n, contactOf).db, "c") == {("c", "1"), ("c", "2")};
  }

  /** The query may return its two rows in either order. */
  lemma EitherOrder(c: Tables.ChatRow, m: Tables.MessageRow, n: Tables.MessageRow, contactOf: string -> string)
    requires c.lastTs == m.ts == n.ts
    ensures var q := TwoMessages(c, m, n, contactOf);
            var r, s := WithMessage(q, ("c", "1")), WithMessage(q, ("c", "2"));
            IsLoaded([r, s], q) && IsLoaded([s, r], q)
  {
    var q := TwoMessages(c, m, n, contactOf);
    var r, s := WithMessage(q, ("c", "1")), WithMessage(q, ("c", "2"));
    TwoTied(c, m, n, contactOf);
    assert r.preview.id[0] != s.preview.id[0];
    forall x ensures IsQueryRow(x, q) <==> x == r || x == s {
      assert IsQueryRow(x, q) ==> ("c", x.preview.id) in Tied(q.db, "c");
    }
    QueryOrderIsWeak();
    assert !Lex.Less("c", "c") by { if Lex.Less("c", "c") { Lex.Asymmetric("c", "c"); } }
  }

  lemma ShareOfTwo(r: Row, s: Row)
    requires r.jid == s.jid == "c"
    ensures RowsOf([r, s], "c", map[]) == [r, s]
  {
    assert [r, s][..1] == [r] && [r][..0] == [];
    assert RowsOf([r], "c", map[]) == [r];
  }

  /** Loaded that way, they merge under the first one's message, and each brings the unread count. */
  lemma MergeOfTwo(r: Row, s: Row)
    requires r.(preview := s.preview) == s && r.jid == "c"
    ensures IsMergeOf(Group("c", r, r.unread + r.unread, {"c"}, r.contactName), RowsOf([r, s], "c", map[]), "c")
  {
    ShareOfTwo(r, s);
    WinnerOfTwo(r, s);
    AppendRow([], r);
    AppendRow([r], s);
    assert [] + [r] == [r] && [r] + [s] == [r, s];
  }

  lemma WinnerOfTwo(r: Row, s: Row)
    requires r.(preview := s.preview) == s
    ensures IsWinner(r, [r, s])
  {
    FirstRowWins(r);
    TiedRowNames(r, [r], s);
    assert [r] + [s] == [r, s];
  }
}
