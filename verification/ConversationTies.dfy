/**
 The query fixes the order of the rows up to the messages of one chat tied on its last time. What that
 leaves open in the merge is the preview, and nothing else.
 */
module ConversationTies {
  import Lex
  import opened Sorting
  import Tables = CacheTables
  import opened Conversations
  import opened ConversationLoads
  import opened ConversationTheorems

  // ----- what comes first in the query's order -----

  /** Rows of one chat differ in the preview at most. */
  ghost predicate AlikeByChat(rows: seq<Row>) {
    forall r, s :: r in rows && s in rows && r.jid == s.jid ==> r.(preview := s.preview) == s
  }

  lemma LoadsAreAlike(rows: seq<Row>, q: Source)
    requires IsLoaded(rows, q)
    ensures AlikeByChat(rows)
  {
  }

  /** The first row with a name, and the first with a contact name. */
  lemma {:induction false} FirstIsFirst(rows: seq<Row>)
    ensures FirstName(rows) != "" ==>
            exists i :: && 0 <= i < |rows| && rows[i].name == FirstName(rows)
                        && forall j :: 0 <= j < i ==> rows[j].name == ""
    ensures FirstContact(rows) != "" ==>
            exists i :: && 0 <= i < |rows| && rows[i].contactName == FirstContact(rows)
                        && forall j :: 0 <= j < i ==> rows[j].contactName == ""
  {
    if rows != [] {
      var front := rows[..|rows| - 1];
      FirstIsFirst(front);
      FirstNameEmpty(front);
      assert forall j :: 0 <= j < |front| ==> front[j] in front && front[j] == rows[j];
    }
  }

  ghost predicate IsFirst(rows: seq<Row>, i: nat, p: Row -> bool) {
    i < |rows| && p(rows[i]) && forall j :: 0 <= j < i ==> !p(rows[j])
  }

  /** The rows that come first among those with some property are of one chat. */
  lemma SameFirst(a: seq<Row>, b: seq<Row>, p: Row -> bool, i: nat, k: nat)
    requires Sorted(a, QUERY_ORDER) && Sorted(b, QUERY_ORDER) && forall r :: r in a <==> r in b
    requires IsFirst(a, i, p) && IsFirst(b, k, p)
    ensures a[i].jid == b[k].jid
  {
    assert a[i] in a && b[k] in b;
    var m :| 0 <= m < |a| && a[m] == b[k];
    var n :| 0 <= n < |b| && b[n] == a[i];
    QueryOrderIsWeak();
    Lex.Connected(a[i].jid, b[k].jid);
    assert !QUERY_ORDER(a[m], a[i]) && !QUERY_ORDER(b[n], b[k]);
  }

  lemma FirstNameAt(rows: seq<Row>) returns (i: nat)
    requires FirstName(rows) != ""
    ensures IsFirst(rows, i, (r: Row) => r.name != "") && rows[i].name == FirstName(rows)
  {
    FirstIsFirst(rows);
    i :| i < |rows| && rows[i].name == FirstName(rows) && forall j :: 0 <= j < i ==> rows[j].name == "";
  }

  lemma FirstContactAt(rows: seq<Row>) returns (i: nat)
    requires FirstContact(rows) != ""
    ensures IsFirst(rows, i, (r: Row) => r.contactName != "") && rows[i].contactName == FirstContact(rows)
  {
    FirstIsFirst(rows);
    i :| && i < |rows| && rows[i].contactName == FirstContact(rows)
         && forall j :: 0 <= j < i ==> rows[j].contactName == "";
  }

  /** Two loads of the same rows. */
  ghost predicate SameLoad(a: seq<Row>, b: seq<Row>) {
    Sorted(a, QUERY_ORDER) && Sorted(b, QUERY_ORDER) && (forall r :: r in a <==> r in b) && AlikeByChat(a)
  }

  lemma SameFirstRow(a: seq<Row>, b: seq<Row>, p: Row -> bool, i: nat, k: nat)
    requires SameLoad(a, b) && IsFirst(a, i, p) && IsFirst(b, k, p)
    ensures a[i].(preview := b[k].preview) == b[k]
  {
    SameFirst(a, b, p, i, k);
    assert a[i] in a && b[k] in a;
  }

  lemma FirstNamesAgree(a: seq<Row>, b: seq<Row>)
    requires SameLoad(a, b)
    ensures FirstName(a) == FirstName(b)
  {
    FirstNameEmpty(a);
    FirstNameEmpty(b);
    if FirstName(a) != "" && FirstName(b) != "" {
      var i := FirstNameAt(a);
      var k := FirstNameAt(b);
      SameFirstRow(a, b, (r: Row) => r.name != "", i, k);
    }
  }

  lemma FirstContactsAgree(a: seq<Row>, b: seq<Row>)
    requires SameLoad(a, b)
    ensures FirstContact(a) == FirstContact(b)
  {
    FirstNameEmpty(a);
    FirstNameEmpty(b);
    if FirstContact(a) != "" && FirstContact(b) != "" {
      var i := FirstContactAt(a);
      var k := FirstContactAt(b);
      SameFirstRow(a, b, (r: Row) => r.contactName != "", i, k);
    }
  }

  lemma HeadsAgree(a: seq<Row>, b: seq<Row>)
    requires SameLoad(a, b) && a != []
    ensures b != [] && a[0].(preview := b[0].preview) == b[0]
  {
    assert a[0] in b;
    SameFirstRow(a, b, (r: Row) => true, 0, 0);
  }

  // ----- the rows of one conversation -----

  lemma {:induction false} ShareOfLoad(rows: seq<Row>, key: string, canonicalOf: map<string, string>)
    requires NoDuplicates(rows) && Sorted(rows, QUERY_ORDER)
    ensures NoDuplicates(RowsOf(rows, key, canonicalOf)) && Sorted(RowsOf(rows, key, canonicalOf), QUERY_ORDER)
    ensures forall r :: r in RowsOf(rows, key, canonicalOf) <==> r in rows && KeyOf(r.jid, canonicalOf) == key
  {
    if rows != [] {
      var front, last := rows[..|rows| - 1], rows[|rows| - 1];
      ShareOfLoad(front, key, canonicalOf);
      assert rows == front + [last] && forall r :: r in front ==> r != last && !QUERY_ORDER(last, r);
    }
  }

  lemma {:induction false} TopOfLoad(rows: seq<Row>, ts: int)
    requires Sorted(rows, QUERY_ORDER)
    ensures Sorted(AtTime(rows, ts), QUERY_ORDER)
  {
    if rows != [] {
      var front, last := rows[..|rows| - 1], rows[|rows| - 1];
      TopOfLoad(front, ts);
      AtTimeMembers(front, ts);
      assert forall r :: r in front ==> !QUERY_ORDER(last, r);
    }
  }

  lemma SameWinner(v: Row, w: Row, a: seq<Row>, b: seq<Row>)
    requires SameLoad(a, b)
    requires IsWinner(v, a) && IsWinner(w, b) && v.ts == w.ts
    ensures v.(preview := w.preview) == w
  {
    var top, top' := AtTime(a, v.ts), AtTime(b, v.ts);
    TopOfLoad(a, v.ts);
    TopOfLoad(b, v.ts);
    AtTimeMembers(a, v.ts);
    AtTimeMembers(b, v.ts);
    FirstNamesAgree(top, top');
    HeadsAgree(top, top');
  }

  /** Whatever order the query returns the rows in, a conversation is the same but for its preview. */
  lemma SameUpToPreview(a: seq<Row>, b: seq<Row>, q: Source, key: string, canonicalOf: map<string, string>,
                        g: Group, h: Group)
    requires IsLoaded(a, q) && IsLoaded(b, q)
    requires IsMergeOf(g, RowsOf(a, key, canonicalOf), key) && IsMergeOf(h, RowsOf(b, key, canonicalOf), key)
    ensures g.(winner := g.winner.(preview := h.winner.preview)) == h
  {
    var mine, mine' := RowsOf(a, key, canonicalOf), RowsOf(b, key, canonicalOf);
    ShareOfLoad(a, key, canonicalOf);
    ShareOfLoad(b, key, canonicalOf);
    SameMembersSameBag(mine, mine');
    LoadsAreAlike(a, q);
    FirstContactsAgree(mine, mine');
    if mine != [] {
      MergeIgnoresOrder(g, h, mine, mine', key);
      assert mine[0] in mine';
      SameWinner(g.winner, h.winner, mine, mine');
    } else {
      assert |multiset(mine')| == 0;
    }
  }

  // ----- when the preview is open -----

  /** The newest row of a conversation that the query returns first leads its merge. */
  lemma {:induction false} FirstOfTop(rows: seq<Row>, i: nat, key: string, canonicalOf: map<string, string>, ts: int)
    requires IsFirst(rows, i, (r: Row) => KeyOf(r.jid, canonicalOf) == key && r.ts == ts)
    ensures var top := AtTime(RowsOf(rows, key, canonicalOf), ts); top != [] && top[0] == rows[i]
  {
    var front, last := rows[..|rows| - 1], rows[|rows| - 1];
    var mine := RowsOf(front, key, canonicalOf);
    assert KeyOf(last.jid, canonicalOf) != key ==> mine + [] == mine;
    AtTimeAppend(mine, last, ts);
    if i < |front| {
      FirstOfTop(front, i, key, canonicalOf, ts);
    } else {
      AtTimeMembers(mine, ts);
      RowsOfMembers(front, key, canonicalOf);
      NoMembers(AtTime(mine, ts));
    }
  }

  lemma NoMembers(rows: seq<Row>)
    ensures (forall r :: r !in rows) ==> rows == []
  {
    if rows != [] {
      assert rows[0] in rows;
    }
  }

  lemma {:induction false} SomeFirst(rows: seq<Row>, p: Row -> bool) returns (i: nat)
    requires exists r :: r in rows && p(r)
    ensures IsFirst(rows, i, p)
  {
    if p(rows[0]) {
      i := 0;
    } else {
      assert rows == [rows[0]] + rows[1..];
      var k := SomeFirst(rows[1..], p);
      i := k + 1;
    }
  }

  /** Two rows of one chat change places. */
  function Swapped(rows: seq<Row>, i: nat, k: nat): seq<Row>
    requires i < |rows| && k < |rows|
  {
    rows[i := rows[k]][k := rows[i]]
  }

  lemma SwappedIsLoaded(rows: seq<Row>, q: Source, i: nat, k: nat)
    requires IsLoaded(rows, q) && i < k < |rows| && rows[i].jid == rows[k].jid
    ensures IsLoaded(Swapped(rows, i, k), q)
  {
    var b := Swapped(rows, i, k);
    assert rows[i] in rows && rows[k] in rows;
    assert rows[i].ts == rows[k].ts;
    forall r ensures r in b <==> r in rows {
      if r in rows {
        var m :| 0 <= m < |rows| && rows[m] == r;
        assert b[if m == i then k else if m == k then i else m] == r;
      }
    }
    assert NoDuplicates(b) && Sorted(b, QUERY_ORDER);
  }

  lemma MergeUnder(rows: seq<Row>, key: string, ts: int) returns (h: Group)
    requires AtTime(rows, ts) != [] && forall r :: r in rows ==> r.ts <= ts
    ensures IsMergeOf(h, rows, key) && h.winner.preview == AtTime(rows, ts)[0].preview
  {
    var top := AtTime(rows, ts);
    AtTimeMembers(rows, ts);
    assert top[0] in top;
    h := Group(key, top[0].(name := FirstName(top)), Unread(rows), Jids(rows), FirstContact(rows));
    assert AtTime([], ts) == [];
  }

  /** Where the row stands that leads the merge of a conversation. */
  lemma LeadAt(a: seq<Row>, key: string, canonicalOf: map<string, string>, g: Group) returns (i: nat)
    requires RowsOf(a, key, canonicalOf) != [] && IsMergeOf(g, RowsOf(a, key, canonicalOf), key)
    ensures Leads(a, i, key, canonicalOf, g.winner.ts)
    ensures a[i].jid == g.winner.jid && a[i].preview == g.winner.preview
  {
    var p := (r: Row) => KeyOf(r.jid, canonicalOf) == key && r.ts == g.winner.ts;
    var r := LeadingRow(a, key, canonicalOf, g);
    assert p(r);
    i := SomeFirst(a, p);
    FirstOfTop(a, i, key, canonicalOf, g.winner.ts);
  }

  ghost predicate Leads(a: seq<Row>, i: nat, key: string, canonicalOf: map<string, string>, ts: int) {
    IsFirst(a, i, (r: Row) => KeyOf(r.jid, canonicalOf) == key && r.ts == ts)
  }

  lemma SwappedLeads(a: seq<Row>, i: nat, k: nat, key: string, canonicalOf: map<string, string>, ts: int)
    requires Leads(a, i, key, canonicalOf, ts) && k < |a| && k != i && a[k].jid == a[i].jid && a[k].ts == a[i].ts
    ensures i < k && Leads(Swapped(a, i, k), i, key, canonicalOf, ts) && Swapped(a, i, k)[i] == a[k]
  {
  }

  /** The merge of a load that starts its conversation's newest rows with row `i`. */
  lemma MergeLedAt(b: seq<Row>, i: nat, key: string, canonicalOf: map<string, string>, ts: int) returns (h: Group)
    requires Leads(b, i, key, canonicalOf, ts) && forall r :: r in RowsOf(b, key, canonicalOf) ==> r.ts <= ts
    ensures IsMergeOf(h, RowsOf(b, key, canonicalOf), key) && h.winner.preview == b[i].preview
  {
    FirstOfTop(b, i, key, canonicalOf, ts);
    h := MergeUnder(RowsOf(b, key, canonicalOf), key, ts);
  }

  lemma NothingNewer(a: seq<Row>, b: seq<Row>, key: string, canonicalOf: map<string, string>, g: Group)
    requires RowsOf(a, key, canonicalOf) != [] && IsMergeOf(g, RowsOf(a, key, canonicalOf), key)
    requires forall r :: r in b ==> r in a
    ensures forall r :: r in RowsOf(b, key, canonicalOf) ==> r.ts <= g.winner.ts
  {
    RowsOfMembers(a, key, canonicalOf);
    RowsOfMembers(b, key, canonicalOf);
  }

  /** A second row of the chat that leads may take its place. */
  lemma OtherPreview(a: seq<Row>, q: Source, key: string, canonicalOf: map<string, string>, g: Group, s: Row)
    requires IsLoaded(a, q) && RowsOf(a, key, canonicalOf) != [] && IsMergeOf(g, RowsOf(a, key, canonicalOf), key)
    requires s in a && s.jid == g.winner.jid && s.preview != g.winner.preview
    ensures exists b, h ::
              IsLoaded(b, q) && IsMergeOf(h, RowsOf(b, key, canonicalOf), key) && h.winner.preview == s.preview
  {
    var i := LeadAt(a, key, canonicalOf, g);
    var k: nat :| k < |a| && a[k] == s;
    assert a[i] in a;
    SwappedLeads(a, i, k, key, canonicalOf, g.winner.ts);
    SwappedIsLoaded(a, q, i, k);
    var b := Swapped(a, i, k);
    NothingNewer(a, b, key, canonicalOf, g);
    var h := MergeLedAt(b, i, key, canonicalOf, g.winner.ts);
  }

  lemma TwoRows(a: seq<Row>, q: Source, r: Row)
    requires IsLoaded(a, q) && r in a && Copies(q.db, r.jid, q.includeLast) > 1
    ensures exists s :: s in a && s.jid == r.jid && s.preview != r.preview
  {
    var mine := RowsFor(a, r.jid);
    RowsForMembers(a, r.jid);
    RowCount(a, q, r.jid);
    LoadsAreAlike(a, q);
    var s := if mine[0] == r then mine[1] else mine[0];
    assert mine[0] in mine && mine[1] in mine && s != r && r.(preview := s.preview) == s;
  }

  lemma OneRow(a: seq<Row>, b: seq<Row>, q: Source, r: Row, s: Row)
    requires IsLoaded(a, q) && IsLoaded(b, q) && r in a && s in b && r.jid == s.jid
    requires Copies(q.db, r.jid, q.includeLast) == 1
    ensures r == s
  {
    RowsForMembers(a, r.jid);
    RowCount(a, q, r.jid);
    assert r in RowsFor(a, r.jid) && s in RowsFor(a, r.jid);
  }

  /** The row behind the winner's preview. */
  lemma LeadingRow(a: seq<Row>, key: string, canonicalOf: map<string, string>, g: Group) returns (r: Row)
    requires RowsOf(a, key, canonicalOf) != [] && IsMergeOf(g, RowsOf(a, key, canonicalOf), key)
    ensures r in a && r.jid == g.winner.jid && r.preview == g.winner.preview
    ensures KeyOf(r.jid, canonicalOf) == key && r.ts == g.winner.ts
  {
    var mine := RowsOf(a, key, canonicalOf);
    RowsOfMembers(a, key, canonicalOf);
    AtTimeMembers(mine, g.winner.ts);
    r := AtTime(mine, g.winner.ts)[0];
    assert r in AtTime(mine, g.winner.ts);
  }

  lemma OnePreview(a: seq<Row>, b: seq<Row>, q: Source, key: string, canonicalOf: map<string, string>, g: Group,
                   h: Group)
    requires IsLoaded(a, q) && RowsOf(a, key, canonicalOf) != [] && IsMergeOf(g, RowsOf(a, key, canonicalOf), key)
    requires IsLoaded(b, q) && RowsOf(b, key, canonicalOf) != [] && IsMergeOf(h, RowsOf(b, key, canonicalOf), key)
    requires g.winner.jid in q.db.chats && Copies(q.db, g.winner.jid, q.includeLast) == 1
    ensures g == h
  {
    SameUpToPreview(a, b, q, key, canonicalOf, g, h);
    var r := LeadingRow(a, key, canonicalOf, g);
    var s := LeadingRow(b, key, canonicalOf, h);
    OneRow(a, b, q, r, s);
  }

  lemma SharesAlike(a: seq<Row>, b: seq<Row>, key: string, canonicalOf: map<string, string>)
    requires (forall r :: r in a ==> r in b) && RowsOf(a, key, canonicalOf) != []
    ensures RowsOf(b, key, canonicalOf) != []
  {
    RowsOfMembers(a, key, canonicalOf);
    RowsOfMembers(b, key, canonicalOf);
    assert RowsOf(a, key, canonicalOf)[0] in RowsOf(b, key, canonicalOf);
  }

  /**
   A conversation is the same for every order the query may return the rows in exactly when its newest
   chat, the first by JID, is loaded once: when it has at most one message in its last second.
   */
  lemma PreviewIsFixed(a: seq<Row>, q: Source, key: string, canonicalOf: map<string, string>, g: Group)
    requires IsLoaded(a, q) && RowsOf(a, key, canonicalOf) != [] && IsMergeOf(g, RowsOf(a, key, canonicalOf), key)
    ensures g.winner.jid in q.db.chats
    ensures (forall b, h :: IsLoaded(b, q) && IsMergeOf(h, RowsOf(b, key, canonicalOf), key) ==> h == g) <==>
            Copies(q.db, g.winner.jid, q.includeLast) == 1
  {
    var r := LeadingRow(a, key, canonicalOf, g);
    assert IsQueryRow(r, q);
    if Copies(q.db, r.jid, q.includeLast) == 1 {
      forall b, h | IsLoaded(b, q) && IsMergeOf(h, RowsOf(b, key, canonicalOf), key) ensures h == g {
        SharesAlike(a, b, key, canonicalOf);
        OnePreview(a, b, q, key, canonicalOf, g, h);
      }
    } else {
      TwoRows(a, q, r);
      var s :| s in a && s.jid == r.jid && s.preview != r.preview;
      OtherPreview(a, q, key, canonicalOf, g, s);
    }
  }

  /** One chat with two messages in its last second: either may be the preview. */
  lemma EitherPreview(c: Tables.ChatRow, m: Tables.MessageRow, n: Tables.MessageRow, contactOf: string -> string)
    requires c.lastTs == m.ts == n.ts
    ensures var q := TwoMessages(c, m, n, contactOf);
            exists a, b, g, h ::
              && IsLoaded(a, q) && IsMergeOf(g, RowsOf(a, "c", map[]), "c") && g.winner.preview.id == "1"
              && IsLoaded(b, q) && IsMergeOf(h, RowsOf(b, "c", map[]), "c") && h.winner.preview.id == "2"
  {
    var q := TwoMessages(c, m, n, contactOf);
    var r, s := WithMessage(q, ("c", "1")), WithMessage(q, ("c", "2"));
    EitherOrder(c, m, n, contactOf);
    MergeOfTwo(r, s);
    MergeOfTwo(s, r);
    var a, b := [r, s], [s, r];
    var g := Group("c", r, r.unread + r.unread, {"c"}, r.contactName);
    var h := Group("c", s, s.unread + s.unread, {"c"}, s.contactName);
    assert IsLoaded(a, q) && IsMergeOf(g, RowsOf(a, "c", map[]), "c") && g.winner.preview.id == "1";
    assert IsLoaded(b, q) && IsMergeOf(h, RowsOf(b, "c", map[]), "c") && h.winner.preview.id == "2";
  }
}
