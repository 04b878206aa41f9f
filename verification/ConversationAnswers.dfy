/** What the conversation list says of the cached chats, read off the tables. */
module ConversationAnswers {
  import opened Wrappers
  import opened GoValues
  import Lex
  import CalendarKeys
  import opened Sorting
  import opened Aliases
  import opened Conversations
  import opened ConversationLoads
  import opened ConversationTies
  import opened ConversationList

  // ----- the chats of a conversation -----

  /** The chats of the requested type that are filed under `key`. */
  ghost function ChatsOf(q: Source, key: string, canonicalOf: map<string, string>): set<string> {
    set i | && i in q.db.chats && (q.chatType != "" ==> q.db.chats[i].chatType == q.chatType)
            && key == if i in canonicalOf then canonicalOf[i] else i
  }

  ghost function TimeOf(q: Source, i: string): int {
    if i in q.db.chats then q.db.chats[i].lastTs else 0
  }

  ghost function TitleOf(q: Source, i: string): string {
    if i in q.db.chats then q.db.chats[i].name else ""
  }

  /** Active more recently, or at the same time with the smaller JID. */
  ghost predicate Ahead(q: Source, i: string, j: string) {
    TimeOf(q, i) > TimeOf(q, j) || (TimeOf(q, i) == TimeOf(q, j) && Lex.Less(i, j))
  }

  ghost function ActiveAt(q: Source, chats: set<string>, ts: int): set<string> {
    set i | i in chats && TimeOf(q, i) == ts
  }

  ghost predicate IsLead(lead: string, q: Source, chats: set<string>) {
    lead in chats && forall i :: i in chats && i != lead ==> Ahead(q, lead, i)
  }

  ghost predicate IsFirstTitle(text: string, q: Source, chats: set<string>) {
    if exists i :: i in chats && TitleOf(q, i) != "" then
      exists i ::
        && i in chats && text == TitleOf(q, i) != ""
        && forall k :: k in chats && TitleOf(q, k) != "" && k != i ==> Ahead(q, i, k)
    else text == ""
  }

  ghost predicate IsFirstContact(text: string, q: Source, chats: set<string>) {
    if exists i :: i in chats && q.contactOf(i) != "" then
      exists i ::
        && i in chats && text == q.contactOf(i) != ""
        && forall k :: k in chats && q.contactOf(k) != "" && k != i ==> Ahead(q, i, k)
    else text == ""
  }

  /** The first title among the chats active last; an untitled direct chat goes by its contact. */
  ghost predicate IsNameOf(name: string, q: Source, chats: set<string>, lead: string)
    requires lead in q.db.chats
  {
    exists title ::
      && IsFirstTitle(title, q, ActiveAt(q, chats, TimeOf(q, lead)))
      && if title == "" && q.db.chats[lead].chatType == "direct" then IsFirstContact(name, q, chats) else name == title
  }

  ghost predicate HasLast(q: Source, lead: string)
    requires lead in q.db.chats
  {
    exists id :: (lead, id) in q.db.messages && q.db.messages[(lead, id)].ts == q.db.chats[lead].lastTs
  }

  /** A message of the chat in its last second, when there is one and previews are asked for. */
  ghost predicate IsPreviewOf(p: Option<Preview>, q: Source, lead: string)
    requires lead in q.db.chats
  {
    if q.includeLast && HasLast(q, lead) then
      && p.Some? && (lead, p.value.id) in q.db.messages
      && var m := q.db.messages[(lead, p.value.id)];
         m.ts == q.db.chats[lead].lastTs && p.value == Preview(m.body, p.value.id, m.sender, m.isFromMe)
    else p.None?
  }

  /** What a conversation says of the chat that leads it. */
  ghost predicate Says(c: Conv, q: Source, chats: set<string>, lead: string) {
    && IsLead(lead, q, chats) && lead in q.db.chats
    && var row := q.db.chats[lead];
       && c.isGroup == row.isGroup && c.chatType == row.chatType
       && c.lastTime == CalendarKeys.TimeKey(row.lastTs)
       && IsPreviewOf(c.preview, q, lead)
       && IsNameOf(c.name, q, chats, lead)
  }

  // ----- the rows of a conversation -----

  /** Rows as loaded: those of a set of chats, each saying what its chat says. */
  ghost predicate RowsSay(rows: seq<Row>, q: Source, chats: set<string>) {
    && Sorted(rows, QUERY_ORDER)
    && (forall r :: r in rows ==> r.jid in chats && RowSays(r, q))
    && forall i :: i in chats ==> exists r :: r in rows && r.jid == i
  }

  ghost predicate RowSays(r: Row, q: Source) {
    && r.jid in q.db.chats
    && var row := q.db.chats[r.jid];
       && r.name == row.name && r.isGroup == row.isGroup && r.chatType == row.chatType && r.ts == row.lastTs
       && r.contactName == q.contactOf(r.jid)
       && IsPreviewOf(if r.hasMessage then Some(r.preview) else None, q, r.jid)
  }

  lemma TiedIsLast(q: Source, jid: string)
    requires jid in q.db.chats
    ensures Tied(q.db, jid) != {} <==> HasLast(q, jid)
  {
    if HasLast(q, jid) {
      var id :| (jid, id) in q.db.messages && q.db.messages[(jid, id)].ts == q.db.chats[jid].lastTs;
      assert (jid, id) in Tied(q.db, jid);
    }
    if k :| k in Tied(q.db, jid) {
      assert k == (jid, k.1);
    }
  }

  lemma QueryRowSays(r: Row, q: Source)
    requires IsQueryRow(r, q)
    ensures RowSays(r, q)
  {
    TiedIsLast(q, r.jid);
  }

  lemma RowOfChat(rows: seq<Row>, q: Source, i: string) returns (r: Row)
    requires IsLoaded(rows, q) && i in q.db.chats && (q.chatType != "" ==> q.db.chats[i].chatType == q.chatType)
    ensures r in rows && r.jid == i
  {
    r := Bare(q, i);
    if q.includeLast && Tied(q.db, i) != {} {
      var k :| k in Tied(q.db, i);
      assert k == (i, k.1);
      r := WithMessage(q, k);
    }
    assert IsQueryRow(r, q);
  }

  lemma ShareSays(rows: seq<Row>, q: Source, key: string, canonicalOf: map<string, string>)
    requires IsLoaded(rows, q)
    ensures RowsSay(RowsOf(rows, key, canonicalOf), q, ChatsOf(q, key, canonicalOf))
  {
    var mine := RowsOf(rows, key, canonicalOf);
    ShareOfLoad(rows, key, canonicalOf);
    forall r | r in mine ensures r.jid in ChatsOf(q, key, canonicalOf) && RowSays(r, q) {
      assert r in rows && IsQueryRow(r, q);
      QueryRowSays(r, q);
    }
    forall i | i in ChatsOf(q, key, canonicalOf) ensures exists r :: r in mine && r.jid == i {
      var r := RowOfChat(rows, q, i);
      assert r in mine;
    }
  }

  // ----- what comes first -----

  /** The first row with some property is of the chat ahead of all others with it. */
  lemma FirstIsAhead(rows: seq<Row>, q: Source, chats: set<string>, i: nat, p: Row -> bool, r: Row)
    requires RowsSay(rows, q, chats) && IsFirst(rows, i, p)
    requires r in rows && p(r) && r.jid != rows[i].jid
    ensures Ahead(q, rows[i].jid, r.jid)
  {
    var k: nat :| k < |rows| && rows[k] == r;
    assert rows[i] in rows && i < k && !QUERY_ORDER(rows[k], rows[i]);
    Lex.Connected(rows[i].jid, r.jid);
  }

  lemma ContactIsFirst(rows: seq<Row>, q: Source, chats: set<string>)
    requires RowsSay(rows, q, chats)
    ensures IsFirstContact(FirstContact(rows), q, chats)
  {
    NoContact(rows);
    if FirstContact(rows) != "" {
      var i := FirstContactAt(rows);
      assert rows[i] in rows;
      forall k | k in chats && q.contactOf(k) != "" && k != rows[i].jid ensures Ahead(q, rows[i].jid, k) {
        var r :| r in rows && r.jid == k;
        FirstIsAhead(rows, q, chats, i, (r: Row) => r.contactName != "", r);
      }
    }
  }

  lemma {:induction false} NoContact(rows: seq<Row>)
    ensures FirstContact(rows) == "" <==> forall r :: r in rows ==> r.contactName == ""
  {
    if rows != [] {
      NoContact(rows[..|rows| - 1]);
      assert rows == rows[..|rows| - 1] + [rows[|rows| - 1]];
    }
  }

  lemma {:induction false} NoTitle(rows: seq<Row>)
    ensures FirstName(rows) == "" <==> forall r :: r in rows ==> r.name == ""
  {
    if rows != [] {
      NoTitle(rows[..|rows| - 1]);
      assert rows == rows[..|rows| - 1] + [rows[|rows| - 1]];
    }
  }

  lemma TitleIsFirst(rows: seq<Row>, q: Source, chats: set<string>)
    requires RowsSay(rows, q, chats)
    ensures IsFirstTitle(FirstName(rows), q, chats)
  {
    NoTitle(rows);
    if FirstName(rows) != "" {
      var i := FirstNameAt(rows);
      assert rows[i] in rows;
      forall k | k in chats && TitleOf(q, k) != "" && k != rows[i].jid ensures Ahead(q, rows[i].jid, k) {
        var r :| r in rows && r.jid == k;
        FirstIsAhead(rows, q, chats, i, (r: Row) => r.name != "", r);
      }
    }
  }

  lemma TopSays(rows: seq<Row>, q: Source, chats: set<string>, ts: int)
    requires RowsSay(rows, q, chats)
    ensures RowsSay(AtTime(rows, ts), q, ActiveAt(q, chats, ts))
  {
    TopOfLoad(rows, ts);
    AtTimeMembers(rows, ts);
    forall i | i in chats && TimeOf(q, i) == ts ensures exists r :: r in AtTime(rows, ts) && r.jid == i {
      var r :| r in rows && r.jid == i;
      assert r in AtTime(rows, ts);
    }
  }

  lemma WinnerLeads(w: Row, rows: seq<Row>, q: Source, chats: set<string>)
    requires RowsSay(rows, q, chats) && IsWinner(w, rows)
    ensures IsLead(w.jid, q, chats) && RowSays(AtTime(rows, w.ts)[0], q)
  {
    var top := AtTime(rows, w.ts);
    AtTimeMembers(rows, w.ts);
    TopSays(rows, q, chats, w.ts);
    assert top[0] in top && top[0] in rows;
    forall i | i in chats && i != w.jid ensures Ahead(q, w.jid, i) {
      var r :| r in rows && r.jid == i;
      if r.ts == w.ts {
        FirstIsAhead(top, q, ActiveAt(q, chats, w.ts), 0, (r: Row) => true, r);
      }
    }
  }

  lemma MergeSays(c: Conv, g: Group, rows: seq<Row>, q: Source, chats: set<string>,
                  identitiesOf: map<string, seq<string>>)
    requires RowsSay(rows, q, chats) && rows != [] && IsMergeOf(g, rows, c.jid)
    requires Shows(c, g, identitiesOf, q.includeLast)
    ensures Says(c, q, chats, g.winner.jid)
  {
    var w := g.winner;
    WinnerLeads(w, rows, q, chats);
    TopSays(rows, q, chats, w.ts);
    TitleIsFirst(AtTime(rows, w.ts), q, ActiveAt(q, chats, w.ts));
    ContactIsFirst(rows, q, chats);
  }

  /** Every conversation tells what the chat that leads it holds, and every chat asked for has a conversation. */
  lemma ConversationsTellChats(q: Source, rows: seq<Row>, aliases: seq<Alias>, m: Merge)
    requires IsLoaded(rows, q) && IsMerge(m, aliases, rows, q.includeLast)
    ensures forall c :: c in m.convs ==> exists lead :: Says(c, q, ChatsOf(q, c.jid, m.canonicalOf), lead)
    ensures forall key :: ChatsOf(q, key, m.canonicalOf) != {} <==> exists c :: c in m.convs && c.jid == key
  {
    forall c | c in m.convs
      ensures exists lead :: Says(c, q, ChatsOf(q, c.jid, m.canonicalOf), lead)
      ensures ChatsOf(q, c.jid, m.canonicalOf) != {}
    {
      ConversationSays(q, rows, aliases, m, c);
    }
    forall key | ChatsOf(q, key, m.canonicalOf) != {} ensures exists c :: c in m.convs && c.jid == key {
      ChatIsListed(q, rows, aliases, m, key);
    }
  }

  lemma ConversationSays(q: Source, rows: seq<Row>, aliases: seq<Alias>, m: Merge, c: Conv)
    requires IsLoaded(rows, q) && IsMerge(m, aliases, rows, q.includeLast) && c in m.convs
    ensures exists lead ::
              Says(c, q, ChatsOf(q, c.jid, m.canonicalOf), lead) && lead in ChatsOf(q, c.jid, m.canonicalOf)
  {
    var i :| 0 <= i < |m.convs| && m.convs[i] == c;
    var key := m.order[i];
    assert Matches(m.groups, key, RowsOf(rows, key, m.canonicalOf));
    ShareSays(rows, q, key, m.canonicalOf);
    MergeSays(c, m.groups[key], RowsOf(rows, key, m.canonicalOf), q, ChatsOf(q, key, m.canonicalOf), m.identitiesOf);
  }

  lemma ChatIsListed(q: Source, rows: seq<Row>, aliases: seq<Alias>, m: Merge, key: string)
    requires IsLoaded(rows, q) && IsMerge(m, aliases, rows, q.includeLast)
    requires ChatsOf(q, key, m.canonicalOf) != {}
    ensures exists c :: c in m.convs && c.jid == key
  {
    var i :| i in ChatsOf(q, key, m.canonicalOf);
    ShareSays(rows, q, key, m.canonicalOf);
    assert Matches(m.groups, key, RowsOf(rows, key, m.canonicalOf));
    var k :| 0 <= k < |m.order| && m.order[k] == key;
    assert m.convs[k] in m.convs;
  }

  // ----- the request -----

  /** The needle occurs in the text. */
  ghost predicate Occurs(needle: string, text: string) {
    exists before: string, after: string :: text == before + needle + after
  }

  lemma ContainsIsOccurs(text: string, needle: string)
    ensures Contains(text, needle) <==> Occurs(needle, text)
  {
    if i :| 0 <= i <= |text| && IsAt(text, needle, i) {
      assert text == text[..i] + needle + text[i + |needle|..];
    }
    if before: string, after: string :| text == before + needle + after {
      assert IsAt(text, needle, |before|);
    }
  }

  /** A filter keeps the conversations whose name or one of whose JIDs holds the query, in lower case. */
  lemma FilterKeeps(convs: seq<Conv>, query: Option<string>, lower: string -> string, c: Conv)
    ensures c in Filtered(convs, query, lower) <==>
            && c in convs
            && (query.None? || query.value == "" || (c.name != "" && Occurs(lower(query.value), lower(c.name)))
                || exists j :: j in c.jids && Occurs(lower(query.value), lower(j)))
  {
    if query.Some? && query.value != "" {
      var needle := lower(query.value);
      KeptMembers(convs, needle, lower);
      forall text ensures Contains(text, needle) <==> Occurs(needle, text) {
        ContainsIsOccurs(text, needle);
      }
    }
  }

  /** Which requests are refused and why, and what the others ask for. */
  lemma RequestIsRead(req: Request)
    ensures Check(req) == Err(BadLimit) <==> req.limit < 0 || req.limit > 200
    ensures Check(req) == Err(BadPage) <==> 0 <= req.limit <= 200 && req.page < 0
    ensures Check(req) == Err(BadSort) <==>
            0 <= req.limit <= 200 && 0 <= req.page && req.sortBy !in ["", "last_active", "name"]
    ensures Check(req) == Err(BadChatType) <==>
            && 0 <= req.limit <= 200 && 0 <= req.page && req.sortBy in ["", "last_active", "name"]
            && req.chatType !in ["", "direct", "group", "newsletter", "community"]
    ensures Check(req).Ok? ==>
              && var limit := if req.limit == 0 then 20 else req.limit;
              && var (l, offset, mode) := Check(req).value;
              && l == limit && (req.page * limit < INT64_LIMIT ==> offset == req.page * limit)
  {
    if Check(req).Ok? {
      var limit := if req.limit == 0 then 20 else req.limit;
      assert req.page * limit >= 0;
    }
  }

  /** By name the untitled come last, otherwise the latest comes first; JIDs decide between equals. */
  lemma OrderAsked(req: Request, a: Conv, b: Conv)
    requires Check(req).Ok?
    ensures var before := Order(Check(req).value.2)(a, b);
            before <==>
              if req.sortBy == "name" then
                || (a.name != "" && (b.name == "" || Lex.Less(a.name, b.name)))
                || (a.name == b.name && Lex.Less(a.jid, b.jid))
              else Lex.Less(b.lastTime, a.lastTime) || (a.lastTime == b.lastTime && Lex.Less(a.jid, b.jid))
  {
    Irreflexive(a.name);
    Irreflexive(a.lastTime);
  }

  lemma Irreflexive(s: string)
    ensures !Lex.Less(s, s)
  {
    if Lex.Less(s, s) {
      Lex.Asymmetric(s, s);
    }
  }
}
