/** Merging chat rows that belong to one contact into conversations. */
module Conversations {
  import opened Wrappers
  import CalendarKeys
  import opened Sorting
  import opened Aliases

  /** The last message of a chat, as shown in an overview. */
  datatype Preview = Preview(body: string, id: string, sender: string, isFromMe: bool)

  /** A chat row as loaded for the overview. */
  datatype Row = Row(jid: string, name: string, isGroup: bool, chatType: string, ts: int, unread: int,
                     hasMessage: bool, preview: Preview, contactName: string)

  datatype Group = Group(canonical: string, winner: Row, unread: int, members: set<string>, contactName: string)

  datatype Conv = Conv(jid: string, name: string, isGroup: bool, chatType: string, lastTime: string,
                       preview: Option<Preview>, jids: seq<string>, unread: int)

  const NO_ROW := Row("", "", false, "", 0, 0, false, Preview("", "", "", false), "")

  function EmptyGroup(key: string): Group {
    Group(key, NO_ROW, 0, {}, "")
  }

  function KeyOf(jid: string, canonicalOf: map<string, string>): string {
    if jid in canonicalOf then canonicalOf[jid] else jid
  }

  // ----- what the rows of one conversation say -----

  /** The rows of conversation `key`, in the order they were loaded. */
  function RowsOf(rows: seq<Row>, key: string, canonicalOf: map<string, string>): seq<Row> {
    if rows == [] then []
    else
      var r := rows[|rows| - 1];
      RowsOf(rows[..|rows| - 1], key, canonicalOf) + if KeyOf(r.jid, canonicalOf) == key then [r] else []
  }

  function Unread(rows: seq<Row>): int {
    if rows == [] then 0 else Unread(rows[..|rows| - 1]) + rows[|rows| - 1].unread
  }

  function AtTime(rows: seq<Row>, ts: int): seq<Row> {
    if rows == [] then []
    else AtTime(rows[..|rows| - 1], ts) + if rows[|rows| - 1].ts == ts then [rows[|rows| - 1]] else []
  }

  /** The first name that is not empty. */
  function FirstName(rows: seq<Row>): string {
    if rows == [] then ""
    else
      var n := FirstName(rows[..|rows| - 1]);
      if n != "" then n else rows[|rows| - 1].name
  }

  function FirstContact(rows: seq<Row>): string {
    if rows == [] then ""
    else
      var n := FirstContact(rows[..|rows| - 1]);
      if n != "" then n else rows[|rows| - 1].contactName
  }

  ghost function Jids(rows: seq<Row>): set<string> {
    set r | r in rows :: r.jid
  }

  ghost predicate Named(rows: seq<Row>) {
    forall r :: r in rows ==> r.jid != ""
  }

  /** A newest row, the first one loaded, under the first name any newest row carries. */
  ghost predicate IsWinner(w: Row, rows: seq<Row>) {
    && (forall r :: r in rows ==> r.ts <= w.ts)
    && AtTime(rows, w.ts) != []
    && w == AtTime(rows, w.ts)[0].(name := FirstName(AtTime(rows, w.ts)))
  }

  ghost predicate IsMergeOf(g: Group, rows: seq<Row>, key: string) {
    && g.canonical == key
    && g.unread == Unread(rows)
    && g.members == Jids(rows)
    && g.contactName == FirstContact(rows)
    && if rows == [] then g.winner == NO_ROW else IsWinner(g.winner, rows)
  }

  lemma {:induction false} AtTimeMembers(rows: seq<Row>, ts: int)
    ensures forall r :: r in AtTime(rows, ts) <==> r in rows && r.ts == ts
  {
    if rows != [] {
      AtTimeMembers(rows[..|rows| - 1], ts);
      assert rows == rows[..|rows| - 1] + [rows[|rows| - 1]];
    }
  }

  lemma {:induction false} AtTimeAppend(rows: seq<Row>, r: Row, ts: int)
    ensures AtTime(rows + [r], ts) == AtTime(rows, ts) + if r.ts == ts then [r] else []
  {
    assert (rows + [r])[..|rows|] == rows;
  }

  lemma AppendRow(rows: seq<Row>, r: Row)
    ensures Unread(rows + [r]) == Unread(rows) + r.unread
    ensures Jids(rows + [r]) == Jids(rows) + {r.jid}
    ensures FirstContact(rows + [r]) == if FirstContact(rows) != "" then FirstContact(rows) else r.contactName
    ensures FirstName(rows + [r]) == if FirstName(rows) != "" then FirstName(rows) else r.name
  {
    assert (rows + [r])[..|rows|] == rows;
  }

  lemma FirstRowWins(r: Row)
    ensures IsWinner(r, [r])
  {
    AtTimeAppend([], r, r.ts);
    AppendRow([], r);
    assert [] + [r] == [r];
  }

  lemma {:induction false} NoneAtTime(rows: seq<Row>, ts: int)
    requires forall r :: r in rows ==> r.ts < ts
    ensures AtTime(rows, ts) == []
  {
    if rows != [] {
      NoneAtTime(rows[..|rows| - 1], ts);
    }
  }

  lemma NewerRowWins(w: Row, rows: seq<Row>, r: Row)
    requires IsWinner(w, rows) && r.ts > w.ts
    ensures IsWinner(r, rows + [r])
  {
    NoneAtTime(rows, r.ts);
    AtTimeAppend(rows, r, r.ts);
    FirstRowWins(r);
    AppendRow([], r);
    assert AtTime(rows + [r], r.ts) == [r];
    assert [] + [r] == [r];
  }

  lemma TiedRowNames(w: Row, rows: seq<Row>, r: Row)
    requires IsWinner(w, rows) && r.ts == w.ts
    ensures IsWinner(w.(name := if w.name != "" then w.name else r.name), rows + [r])
  {
    AtTimeAppend(rows, r, w.ts);
    AppendRow(AtTime(rows, w.ts), r);
  }

  lemma OlderRowLoses(w: Row, rows: seq<Row>, r: Row)
    requires IsWinner(w, rows) && r.ts < w.ts
    ensures IsWinner(w, rows + [r])
  {
    AtTimeAppend(rows, r, w.ts);
    assert AtTime(rows + [r], w.ts) == AtTime(rows, w.ts);
  }

  /** Adds one row to the conversation it belongs to. */
  method Absorb(g: Group, r: Row, ghost rows: seq<Row>) returns (h: Group)
    requires IsMergeOf(g, rows, g.canonical) && Named(rows) && r.jid != ""
    ensures IsMergeOf(h, rows + [r], g.canonical)
  {
    AppendRow(rows, r);
    h := g.(unread := g.unread + r.unread, members := g.members + {r.jid});
    if h.contactName == "" && r.contactName != "" {
      h := h.(contactName := r.contactName);
    }
    ghost var any := rows != [];
    assert any ==> g.winner.jid != "" by {
      if any {
        AtTimeMembers(rows, g.winner.ts);
        assert AtTime(rows, g.winner.ts)[0] in rows;
      }
    }
    if h.winner.jid == "" || r.ts > h.winner.ts {
      h := h.(winner := r);
      if any {
        NewerRowWins(g.winner, rows, r);
      } else {
        FirstRowWins(r);
        assert rows + [r] == [r];
      }
    } else if r.ts == h.winner.ts && h.winner.name == "" && r.name != "" {
      h := h.(winner := h.winner.(name := r.name));
      TiedRowNames(g.winner, rows, r);
    } else if r.ts == h.winner.ts {
      TiedRowNames(g.winner, rows, r);
    } else {
      OlderRowLoses(g.winner, rows, r);
    }
  }

  // ----- grouping -----

  /** Group `k` exists when it has rows, and is their merge. */
  ghost predicate Matches(groups: map<string, Group>, k: string, mine: seq<Row>) {
    && (k in groups <==> mine != [])
    && (k in groups ==> IsMergeOf(groups[k], mine, k))
  }

  ghost predicate IsGrouping(groups: map<string, Group>, order: seq<string>, rows: seq<Row>,
                             canonicalOf: map<string, string>) {
    && NoDuplicates(order)
    && (forall k :: k in order <==> k in groups)
    && (forall k :: Matches(groups, k, RowsOf(rows, k, canonicalOf)))
  }

  lemma {:induction false} RowsOfMembers(rows: seq<Row>, key: string, canonicalOf: map<string, string>)
    ensures forall r :: r in RowsOf(rows, key, canonicalOf) <==> r in rows && KeyOf(r.jid, canonicalOf) == key
  {
    if rows != [] {
      RowsOfMembers(rows[..|rows| - 1], key, canonicalOf);
      assert rows == rows[..|rows| - 1] + [rows[|rows| - 1]];
    }
  }

  lemma RowsOfNext(rows: seq<Row>, i: nat, key: string, canonicalOf: map<string, string>)
    requires i < |rows|
    ensures RowsOf(rows[..i + 1], key, canonicalOf) ==
            RowsOf(rows[..i], key, canonicalOf) + if KeyOf(rows[i].jid, canonicalOf) == key then [rows[i]] else []
  {
    assert rows[..i + 1][..i] == rows[..i];
  }

  lemma GroupingStep(groups: map<string, Group>, order: seq<string>, rows: seq<Row>, i: nat,
                     canonicalOf: map<string, string>, key: string, g: Group, next: seq<string>)
    requires i < |rows| && IsGrouping(groups, order, rows[..i], canonicalOf)
    requires key == KeyOf(rows[i].jid, canonicalOf)
    requires IsMergeOf(g, RowsOf(rows[..i], key, canonicalOf) + [rows[i]], key)
    requires next == if key in groups then order else order + [key]
    ensures IsGrouping(groups[key := g], next, rows[..i + 1], canonicalOf)
  {
    var newer, more := groups[key := g], rows[..i + 1];
    forall k ensures Matches(newer, k, RowsOf(more, k, canonicalOf)) {
      RowsOfNext(rows, i, k, canonicalOf);
      var before := RowsOf(rows[..i], k, canonicalOf);
      assert Matches(groups, k, before);
      MatchesStep(groups, key, g, k, before, rows[i]);
    }
    NextOrder(order, key, groups, g);
  }

  lemma MatchesStep(groups: map<string, Group>, key: string, g: Group, k: string, before: seq<Row>, r: Row)
    requires Matches(groups, k, before)
    requires k == key ==> IsMergeOf(g, before + [r], key)
    ensures Matches(groups[key := g], k, before + if key == k then [r] else [])
  {
    assert before + [] == before;
  }

  lemma NextOrder(order: seq<string>, key: string, groups: map<string, Group>, g: Group)
    requires NoDuplicates(order) && forall k :: k in order <==> k in groups
    ensures var next := if key in order then order else order + [key];
            NoDuplicates(next) && forall k :: k in next <==> k in groups[key := g]
  {
  }

  /** One pass over the rows; the conversations come in order of first appearance. */
  method GroupRows(rows: seq<Row>, canonicalOf: map<string, string>)
    returns (groups: map<string, Group>, order: seq<string>)
    requires Named(rows)
    ensures IsGrouping(groups, order, rows, canonicalOf)
  {
    groups, order := map[], [];
    for i := 0 to |rows|
      invariant IsGrouping(groups, order, rows[..i], canonicalOf)
    {
      var r := rows[i];
      var key := KeyOf(r.jid, canonicalOf);
      ghost var mine := RowsOf(rows[..i], key, canonicalOf);
      RowsOfMembers(rows[..i], key, canonicalOf);
      var g := if key in groups then groups[key] else EmptyGroup(key);
      g := Absorb(g, r, mine);
      GroupingStep(groups, order, rows, i, canonicalOf, key, g, if key in groups then order else order + [key]);
      if key !in groups {
        order := order + [key];
      }
      groups := groups[key := g];
    }
    assert rows[..|rows|] == rows;
  }

  // ----- building the overview -----

  /** The identities shown for a conversation: the recorded ones, or else its rows' own. */
  ghost predicate IsJidList(ids: seq<string>, key: string, members: set<string>,
                            identitiesOf: map<string, seq<string>>) {
    if key in identitiesOf then ids == identitiesOf[key]
    else StrictlySorted(ids, BY_TEXT) && NoDuplicates(ids) && forall x :: x in ids <==> x in members
  }

  method MergedIdentities(g: Group, identitiesOf: map<string, seq<string>>) returns (ids: seq<string>)
    ensures IsJidList(ids, g.canonical, g.members, identitiesOf)
  {
    if g.canonical in identitiesOf {
      return identitiesOf[g.canonical];
    }
    ids := SortedMembers(g.members);
  }

  /** The conversation shown for a group: the winner's data under the merged identities. */
  ghost predicate Shows(c: Conv, g: Group, identitiesOf: map<string, seq<string>>, includeLast: bool) {
    && c.jid == g.canonical && c.unread == g.unread
    && c.name == (if g.winner.name == "" && g.winner.chatType == "direct" then g.contactName else g.winner.name)
    && c.isGroup == g.winner.isGroup && c.chatType == g.winner.chatType
    && c.lastTime == CalendarKeys.TimeKey(g.winner.ts)
    && c.preview == (if includeLast && g.winner.hasMessage then Some(g.winner.preview) else None)
    && IsJidList(c.jids, g.canonical, g.members, identitiesOf)
  }

  ghost predicate IsOverview(convs: seq<Conv>, groups: map<string, Group>, order: seq<string>,
                             identitiesOf: map<string, seq<string>>, includeLast: bool)
  {
    && |convs| == |order|
    && forall i ::
         0 <= i < |convs| ==> order[i] in groups && Shows(convs[i], groups[order[i]], identitiesOf, includeLast)
  }

  method BuildOverview(groups: map<string, Group>, order: seq<string>, identitiesOf: map<string, seq<string>>,
                       includeLast: bool)
    returns (convs: seq<Conv>)
    requires forall k :: k in order ==> k in groups
    ensures IsOverview(convs, groups, order, identitiesOf, includeLast)
  {
    convs := [];
    for i := 0 to |order|
      invariant IsOverview(convs, groups, order[..i], identitiesOf, includeLast)
    {
      var g := groups[order[i]];
      var name := g.winner.name;
      if name == "" && g.winner.chatType == "direct" {
        name := g.contactName;
      }
      var ids := MergedIdentities(g, identitiesOf);
      var preview := if includeLast && g.winner.hasMessage then Some(g.winner.preview) else None;
      convs := convs + [Conv(g.canonical, name, g.winner.isGroup, g.winner.chatType, CalendarKeys.TimeKey(g.winner.ts),
                             preview, ids, g.unread)];
    }
    assert order[..|order|] == order;
  }
}
