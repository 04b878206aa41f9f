/** What merging keeps: every row once, every unread count, every identity. */
module ConversationTheorems {
  import opened Sorting
  import opened Conversations

  // ----- every row is in exactly one conversation -----

  /** The rows of the conversations, one conversation after the other. */
  function Gather(rows: seq<Row>, order: seq<string>, canonicalOf: map<string, string>): seq<Row> {
    if order == [] then [] else RowsOf(rows, order[0], canonicalOf) + Gather(rows, order[1..], canonicalOf)
  }

  lemma {:induction false} GatherNext(rows: seq<Row>, i: nat, order: seq<string>, canonicalOf: map<string, string>)
    requires i < |rows| && NoDuplicates(order)
    ensures multiset(Gather(rows[..i + 1], order, canonicalOf)) ==
            multiset(Gather(rows[..i], order, canonicalOf)) +
            if KeyOf(rows[i].jid, canonicalOf) in order then multiset{rows[i]} else multiset{}
  {
    if order != [] {
      RowsOfNext(rows, i, order[0], canonicalOf);
      GatherNext(rows, i, order[1..], canonicalOf);
      InTail(order, KeyOf(rows[i].jid, canonicalOf));
      JoinNext(RowsOf(rows[..i], order[0], canonicalOf), Gather(rows[..i], order[1..], canonicalOf),
               Gather(rows[..i + 1], order[1..], canonicalOf), rows[i],
               KeyOf(rows[i].jid, canonicalOf) == order[0], KeyOf(rows[i].jid, canonicalOf) in order[1..]);
    }
  }

  lemma InTail(order: seq<string>, key: string)
    requires order != [] && NoDuplicates(order)
    ensures NoDuplicates(order[1..]) && (key in order <==> key == order[0] || key in order[1..])
    ensures key == order[0] ==> key !in order[1..]
  {
    assert order == [order[0]] + order[1..];
  }

  lemma JoinNext(mine: seq<Row>, rest: seq<Row>, more: seq<Row>, r: Row, here: bool, there: bool)
    requires multiset(more) == multiset(rest) + if there then multiset{r} else multiset{}
    requires !(here && there)
    ensures multiset((mine + if here then [r] else []) + more) ==
            multiset(mine + rest) + if here || there then multiset{r} else multiset{}
  {
  }

  lemma {:induction false} GatherNone(order: seq<string>, canonicalOf: map<string, string>)
    ensures Gather([], order, canonicalOf) == []
  {
    if order != [] {
      GatherNone(order[1..], canonicalOf);
    }
  }

  lemma FrontNext(rows: seq<Row>, i: nat)
    requires i < |rows|
    ensures multiset(rows[..i + 1]) == multiset(rows[..i]) + multiset{rows[i]}
  {
    assert rows[..i + 1] == rows[..i] + [rows[i]];
  }

  lemma GatherOne(rows: seq<Row>, i: nat, order: seq<string>, canonicalOf: map<string, string>)
    requires i < |rows| && NoDuplicates(order) && KeyOf(rows[i].jid, canonicalOf) in order
    requires multiset(Gather(rows[..i], order, canonicalOf)) == multiset(rows[..i])
    ensures multiset(Gather(rows[..i + 1], order, canonicalOf)) == multiset(rows[..i + 1])
  {
    GatherNext(rows, i, order, canonicalOf);
    FrontNext(rows, i);
  }

  lemma {:induction false} GatherAll(rows: seq<Row>, i: nat, order: seq<string>, canonicalOf: map<string, string>)
    requires i <= |rows| && NoDuplicates(order)
    requires forall k :: 0 <= k < |rows| ==> KeyOf(rows[k].jid, canonicalOf) in order
    ensures multiset(Gather(rows[..i], order, canonicalOf)) == multiset(rows[..i])
  {
    if i == 0 {
      GatherNone(order, canonicalOf);
    } else {
      GatherAll(rows, i - 1, order, canonicalOf);
      GatherOne(rows, i - 1, order, canonicalOf);
    }
  }

  /** No row is lost and none is counted twice: the conversations partition the loaded rows. */
  lemma EveryRowOnce(groups: map<string, Group>, order: seq<string>, rows: seq<Row>, canonicalOf: map<string, string>)
    requires IsGrouping(groups, order, rows, canonicalOf)
    ensures multiset(Gather(rows, order, canonicalOf)) == multiset(rows)
    ensures forall r, k ::
              r in rows && k in order ==> (r in RowsOf(rows, k, canonicalOf) <==> k == KeyOf(r.jid, canonicalOf))
  {
    forall r | r in rows ensures KeyOf(r.jid, canonicalOf) in order {
      RowsOfMembers(rows, KeyOf(r.jid, canonicalOf), canonicalOf);
      assert r in RowsOf(rows, KeyOf(r.jid, canonicalOf), canonicalOf);
    }
    GatherAll(rows, |rows|, order, canonicalOf);
    assert rows[..|rows|] == rows;
    forall r, k | r in rows && k in order
      ensures r in RowsOf(rows, k, canonicalOf) <==> k == KeyOf(r.jid, canonicalOf)
    {
      RowsOfMembers(rows, k, canonicalOf);
    }
  }

  // ----- unread counts are conserved -----

  lemma {:induction false} UnreadJoin(a: seq<Row>, b: seq<Row>)
    ensures Unread(a + b) == Unread(a) + Unread(b)
  {
    if b == [] {
      assert a + b == a;
    } else {
      assert (a + b)[..|a + b| - 1] == a + b[..|b| - 1];
      UnreadJoin(a, b[..|b| - 1]);
    }
  }

  lemma {:induction false} UnreadOfPermutation(a: seq<Row>, b: seq<Row>)
    requires multiset(a) == multiset(b)
    ensures Unread(a) == Unread(b)
    decreases |a|
  {
    if a == [] {
      assert |multiset(b)| == 0;
    } else {
      var rest, r := a[..|a| - 1], a[|a| - 1];
      assert a == rest + [r];
      var front, back := Without(rest, r, b);
      UnreadJoin(front + [r], back);
      UnreadJoin(front, back);
      AppendRow(front, r);
      UnreadOfPermutation(rest, front + back);
    }
  }

  lemma Without(rest: seq<Row>, r: Row, b: seq<Row>) returns (front: seq<Row>, back: seq<Row>)
    requires multiset(b) == multiset(rest + [r])
    ensures b == (front + [r]) + back && multiset(front + back) == multiset(rest)
  {
    assert r in multiset(b);
    var i :| 0 <= i < |b| && b[i] == r;
    front, back := b[..i], b[i + 1..];
    assert multiset(b) == multiset(front) + multiset{r} + multiset(back) by {
      assert b == (front + [r]) + back;
    }
    assert multiset(rest + [r]) == multiset(rest) + multiset{r};
    assert multiset(front + back) == multiset(b) - multiset{r};
  }

  function TotalUnread(convs: seq<Conv>): int {
    if convs == [] then 0 else convs[0].unread + TotalUnread(convs[1..])
  }

  lemma {:induction false} TotalIsGathered(convs: seq<Conv>, order: seq<string>, rows: seq<Row>,
                                           canonicalOf: map<string, string>)
    requires |convs| == |order|
    requires forall i :: 0 <= i < |convs| ==> convs[i].unread == Unread(RowsOf(rows, order[i], canonicalOf))
    ensures TotalUnread(convs) == Unread(Gather(rows, order, canonicalOf))
    decreases |convs|
  {
    if order != [] {
      TotalIsGathered(convs[1..], order[1..], rows, canonicalOf);
      UnreadJoin(RowsOf(rows, order[0], canonicalOf), Gather(rows, order[1..], canonicalOf));
    }
  }

  /** Merging neither loses nor invents unread messages of the loaded rows. */
  lemma UnreadIsConserved(convs: seq<Conv>, groups: map<string, Group>, order: seq<string>, rows: seq<Row>,
                          canonicalOf: map<string, string>, identitiesOf: map<string, seq<string>>, includeLast: bool)
    requires IsGrouping(groups, order, rows, canonicalOf) && IsOverview(convs, groups, order, identitiesOf, includeLast)
    ensures TotalUnread(convs) == Unread(rows)
  {
    EveryRowOnce(groups, order, rows, canonicalOf);
    UnreadOfPermutation(Gather(rows, order, canonicalOf), rows);
    TotalIsGathered(convs, order, rows, canonicalOf);
  }

  // ----- the merge does not depend on the order of the rows -----

  lemma {:induction false} FirstNameEmpty(rows: seq<Row>)
    ensures FirstName(rows) == "" <==> forall r :: r in rows ==> r.name == ""
    ensures FirstContact(rows) == "" <==> forall r :: r in rows ==> r.contactName == ""
  {
    if rows != [] {
      FirstNameEmpty(rows[..|rows| - 1]);
      assert rows == rows[..|rows| - 1] + [rows[|rows| - 1]];
    }
  }

  /** The winner has the greatest time, and has a title exactly when a row of that time has one. */
  lemma WinnerIsNewest(w: Row, rows: seq<Row>)
    requires IsWinner(w, rows)
    ensures (exists r :: r in rows && r.ts == w.ts && r == w.(name := r.name)) && forall r :: r in rows ==> r.ts <= w.ts
    ensures w.name == "" <==> forall r :: r in rows && r.ts == w.ts ==> r.name == ""
  {
    var top := AtTime(rows, w.ts);
    AtTimeMembers(rows, w.ts);
    assert top[0] in rows && top[0] == w.(name := top[0].name);
    FirstNameEmpty(top);
  }

  lemma SameMembers(a: seq<Row>, b: seq<Row>)
    requires multiset(a) == multiset(b)
    ensures forall r :: r in a <==> r in b
  {
    forall r ensures r in a <==> r in b {
      assert r in multiset(a) <==> r in multiset(b);
    }
  }

  lemma MergeIgnoresOrder(g: Group, h: Group, a: seq<Row>, b: seq<Row>, key: string)
    requires multiset(a) == multiset(b) && a != []
    requires IsMergeOf(g, a, key) && IsMergeOf(h, b, key)
    ensures g.unread == h.unread && g.members == h.members && g.winner.ts == h.winner.ts
    ensures g.winner.name == "" <==> h.winner.name == ""
    ensures g.contactName == "" <==> h.contactName == ""
  {
    SameMembers(a, b);
    UnreadOfPermutation(a, b);
    assert b != [] by { assert a[0] in b; }
    WinnerIsNewest(g.winner, a);
    WinnerIsNewest(h.winner, b);
    FirstNameEmpty(a);
    FirstNameEmpty(b);
  }

  // ----- and when nothing of it depends on that order -----

  /** Two newest rows differ at most in a missing name, and any two in a missing contact name. */
  predicate Agree(r: Row, s: Row, ts: int) {
    && (r.ts == s.ts == ts ==> r.(name := s.name) == s && (r.name == s.name || r.name == "" || s.name == ""))
    && (r.contactName == s.contactName || r.contactName == "" || s.contactName == "")
  }

  ghost predicate RowsAgree(rows: seq<Row>, ts: int) {
    forall r, s :: r in rows && s in rows ==> Agree(r, s, ts)
  }

  /** What a merge shows when `r` is loaded first. */
  predicate LedBy(h: Group, r: Row, ts: int) {
    && (r.ts == ts ==> h.winner.(name := r.name) == r && (r.name != "" ==> h.winner.name == r.name))
    && (r.contactName != "" ==> h.contactName == r.contactName)
  }

  lemma LeadersAgree(h: Group, r: Row, s: Row, ts: int)
    requires LedBy(h, r, ts) && LedBy(h, s, ts)
    ensures Agree(r, s, ts)
  {
  }

  lemma {:induction false} FirstComesFirst(rows: seq<Row>, ts: int)
    requires rows != []
    ensures rows[0].ts == ts ==> AtTime(rows, ts) != [] && AtTime(rows, ts)[0] == rows[0]
    ensures rows[0].name != "" ==> FirstName(rows) == rows[0].name
    ensures rows[0].contactName != "" ==> FirstContact(rows) == rows[0].contactName
  {
    if |rows| > 1 {
      FirstComesFirst(rows[..|rows| - 1], ts);
    } else {
      assert rows == [] + [rows[0]];
      AtTimeAppend([], rows[0], ts);
      AppendRow([], rows[0]);
    }
  }

  lemma {:induction false} FirstIsAmong(rows: seq<Row>)
    ensures FirstName(rows) != "" ==> exists r :: r in rows && r.name == FirstName(rows)
    ensures FirstContact(rows) != "" ==> exists r :: r in rows && r.contactName == FirstContact(rows)
  {
    if rows != [] {
      FirstIsAmong(rows[..|rows| - 1]);
      assert rows == rows[..|rows| - 1] + [rows[|rows| - 1]];
    }
  }

  /** The rows with `r` loaded first, and their merge. */
  lemma MergeLedBy(rows: seq<Row>, r: Row, ts: int, key: string) returns (led: seq<Row>, h: Group)
    requires r in rows && (forall x :: x in rows ==> x.ts <= ts) && exists x :: x in rows && x.ts == ts
    ensures multiset(led) == multiset(rows) && IsMergeOf(h, led, key)
    ensures LedBy(h, r, ts)
  {
    var i :| 0 <= i < |rows| && rows[i] == r;
    led := [r] + (rows[..i] + rows[i + 1..]);
    assert multiset(led) == multiset(rows) by {
      assert rows == rows[..i] + [r] + rows[i + 1..];
    }
    SameMembers(led, rows);
    AtTimeMembers(led, ts);
    FirstComesFirst(led, ts);
    var top := AtTime(led, ts);
    assert top != [] by {
      var x :| x in rows && x.ts == ts;
      assert x in top;
    }
    assert top[0] in top;
    FirstComesFirst(top, ts);
    h := Group(key, top[0].(name := FirstName(top)), Unread(led), Jids(led), FirstContact(led));
  }

  lemma AgreeingNames(a: seq<Row>, b: seq<Row>, ts: int)
    requires a != [] && b != [] && (forall r :: r in a <==> r in b) && forall r :: r in a ==> r.ts == ts
    requires RowsAgree(a, ts)
    ensures a[0].(name := FirstName(a)) == b[0].(name := FirstName(b))
  {
    assert a[0] in a && b[0] in a && Agree(a[0], b[0], ts);
    FirstIsAmong(a);
    FirstIsAmong(b);
    FirstNameEmpty(a);
    FirstNameEmpty(b);
  }

  lemma AgreeingContacts(a: seq<Row>, b: seq<Row>, ts: int)
    requires (forall r :: r in a <==> r in b) && RowsAgree(a, ts)
    ensures FirstContact(a) == FirstContact(b)
  {
    FirstIsAmong(a);
    FirstIsAmong(b);
    FirstNameEmpty(a);
    FirstNameEmpty(b);
  }

  lemma AgreeingMerges(g: Group, h: Group, a: seq<Row>, b: seq<Row>, key: string)
    requires multiset(a) == multiset(b) && a != [] && IsMergeOf(g, a, key) && IsMergeOf(h, b, key)
    requires RowsAgree(a, g.winner.ts)
    ensures g == h
  {
    MergeIgnoresOrder(g, h, a, b, key);
    SameMembers(a, b);
    var ts := g.winner.ts;
    assert a[0] in b;
    AtTimeMembers(a, ts);
    AtTimeMembers(b, ts);
    AgreeingNames(AtTime(a, ts), AtTime(b, ts), ts);
    AgreeingContacts(a, b, ts);
  }

  lemma DifferentMerges(g: Group, rows: seq<Row>, key: string, r: Row, s: Row)
    requires IsMergeOf(g, rows, key) && r in rows && s in rows && !Agree(r, s, g.winner.ts)
    ensures exists b, h :: multiset(b) == multiset(rows) && IsMergeOf(h, b, key) && h != g
  {
    assert rows != [];
    WinnerIsNewest(g.winner, rows);
    var b, h := MergeLedBy(rows, r, g.winner.ts, key);
    var c, k := MergeLedBy(rows, s, g.winner.ts, key);
    if h == k {
      LeadersAgree(h, r, s, g.winner.ts);
    }
  }

  /**
   The whole merge, name, preview and contact included, is the same for every order of the rows exactly
   when the newest rows agree but for missing names and no two contact names differ.
   */
  lemma WholeMergeIgnoresOrder(g: Group, rows: seq<Row>, key: string)
    requires rows != [] && IsMergeOf(g, rows, key)
    ensures (forall b, h :: multiset(b) == multiset(rows) && IsMergeOf(h, b, key) ==> h == g) <==>
            RowsAgree(rows, g.winner.ts)
  {
    if RowsAgree(rows, g.winner.ts) {
      forall b, h | multiset(b) == multiset(rows) && IsMergeOf(h, b, key) ensures h == g {
        AgreeingMerges(g, h, rows, b, key);
      }
    } else {
      var r, s :| r in rows && s in rows && !Agree(r, s, g.winner.ts);
      DifferentMerges(g, rows, key, r, s);
    }
  }
}
