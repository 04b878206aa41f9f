/** The window is a slice of the chat's timeline. */
module ContextTheorems {
  import opened Sorting
  import opened CacheTables
  import opened ContextWindow

  lemma SameElements(a: seq<Msg>, b: seq<Msg>, order: (Msg, Msg) -> bool)
    requires StrictWeakOrder(order) && StrictlySorted(a, order) && StrictlySorted(b, order)
    requires forall m :: m in a <==> m in b
    ensures a == b
  {
    SameMembersSameBag(a, b);
    SortedUnique(a, b, order);
  }

  lemma {:induction false} ReversedMembers<T>(s: seq<T>)
    ensures forall x :: x in Reversed(s) <==> x in s
  {
    if s != [] {
      ReversedMembers(s[1..]);
      assert s == [s[0]] + s[1..];
    }
  }

  lemma ReversedSorted(s: seq<Msg>)
    requires StrictlySorted(s, BY_TIME)
    ensures StrictlySorted(Reversed(s), NEWEST_FIRST)
  {
    forall i, j | 0 <= i < j < |s| ensures NEWEST_FIRST(Reversed(s)[i], Reversed(s)[j]) {
      ReversedAt(s, i);
      ReversedAt(s, j);
    }
  }

  lemma ReversedTwice<T>(s: seq<T>)
    ensures Reversed(Reversed(s)) == s
  {
    forall i | 0 <= i < |s| ensures Reversed(Reversed(s))[i] == s[i] {
      ReversedAt(Reversed(s), i);
      ReversedAt(s, |s| - 1 - i);
    }
  }

  lemma {:induction false} FrontOfReversed<T>(s: seq<T>, n: nat)
    requires n <= |s|
    ensures Reversed(s)[..n] == Reversed(s[|s| - n..])
  {
    if n < |s| {
      FrontOfReversed(s[1..], n);
      assert s[1..][|s| - 1 - n..] == s[|s| - n..];
      assert Reversed(s)[..n] == Reversed(s[1..])[..n];
    } else {
      assert s[0..] == s;
    }
  }

  lemma ReversedLimited<T>(s: seq<T>, limit: nat)
    ensures Reversed(Limited(Reversed(s), limit)) == s[if |s| <= limit then 0 else |s| - limit..]
  {
    if |s| <= limit {
      ReversedTwice(s);
    } else {
      FrontOfReversed(s, limit);
      ReversedTwice(s[|s| - limit..]);
    }
  }

  /** What lies before and after a message of the timeline. */
  lemma SidesOfTimeline(t: seq<Msg>, p: nat, messages: map<Pair, MessageRow>, chat: string, m: Msg)
    requires IsTimeline(t, messages, chat) && p < |t|
    ensures m in t[..p] <==> m in t && BY_TIME(m, t[p])
    ensures m in t[p + 1..] <==> m in t && BY_TIME(t[p], m)
  {
    ByTimeIsStrict();
    if m in t {
      var k :| 0 <= k < |t| && t[k] == m;
      assert k < p ==> t[..p][k] == m;
      assert k > p ==> t[p + 1..][k - p - 1] == m;
    }
    if m in t[..p] {
      var k :| 0 <= k < p && t[..p][k] == m;
      assert t[k] == m;
    }
    if m in t[p + 1..] {
      var k :| 0 <= k < |t| - p - 1 && t[p + 1..][k] == m;
      assert t[p + 1 + k] == m;
    }
  }

  lemma OlderIsPrefix(t: seq<Msg>, p: nat, messages: map<Pair, MessageRow>, all: seq<Msg>)
    requires p < |t| && IsTimeline(t, messages, t[p].chat) && IsSide(all, messages, t[p], true)
    ensures all == Reversed(t[..p])
  {
    ByTimeIsStrict();
    ReversedSorted(t[..p]);
    ReversedMembers(t[..p]);
    forall m ensures m in all <==> m in Reversed(t[..p]) {
      SidesOfTimeline(t, p, messages, t[p].chat, m);
    }
    SameElements(all, Reversed(t[..p]), NEWEST_FIRST);
  }

  lemma NewerIsSuffix(t: seq<Msg>, p: nat, messages: map<Pair, MessageRow>, all: seq<Msg>)
    requires p < |t| && IsTimeline(t, messages, t[p].chat) && IsSide(all, messages, t[p], false)
    ensures all == t[p + 1..]
  {
    ByTimeIsStrict();
    forall m ensures m in all <==> m in t[p + 1..] {
      SidesOfTimeline(t, p, messages, t[p].chat, m);
    }
    SameElements(all, t[p + 1..], BY_TIME);
  }

  function Low(p: nat, before: nat): nat {
    if p <= before then 0 else p - before
  }

  function High(p: nat, after: nat, n: nat): nat {
    if p + 1 + after <= n then p + 1 + after else n
  }

  lemma OlderWindow(t: seq<Msg>, p: nat, messages: map<Pair, MessageRow>, rows: seq<Msg>, before: nat)
    requires p < |t| && IsTimeline(t, messages, t[p].chat) && IsLimitedSide(rows, messages, t[p], true, before)
    ensures Reversed(rows) == t[Low(p, before)..p]
  {
    var older :| IsSide(older, messages, t[p], true) && rows == Limited(older, before);
    OlderIsPrefix(t, p, messages, older);
    ReversedLimited(t[..p], before);
    assert t[..p][Low(p, before)..] == t[Low(p, before)..p];
  }

  lemma NewerWindow(t: seq<Msg>, p: nat, messages: map<Pair, MessageRow>, following: seq<Msg>, after: nat)
    requires p < |t| && IsTimeline(t, messages, t[p].chat) && IsLimitedSide(following, messages, t[p], false, after)
    ensures following == t[p + 1..High(p, after, |t|)]
  {
    var newer :| IsSide(newer, messages, t[p], false) && following == Limited(newer, after);
    NewerIsSuffix(t, p, messages, newer);
  }

  lemma JoinSlices<T>(t: seq<T>, lo: nat, p: nat, hi: nat)
    requires lo <= p < hi <= |t|
    ensures t[lo..p] + [t[p]] + t[p + 1..hi] == t[lo..hi]
  {
  }

  /**
   Before, target and after together are one stretch of the timeline around the target, as long as the
   requested counts and the ends of the chat allow.
   */
  lemma WindowIsSlice(t: seq<Msg>, p: nat, messages: map<Pair, MessageRow>, rows: seq<Msg>, following: seq<Msg>,
                      before: nat, after: nat)
    requires p < |t| && IsTimeline(t, messages, t[p].chat)
    requires IsLimitedSide(rows, messages, t[p], true, before) && IsLimitedSide(following, messages, t[p], false, after)
    ensures Reversed(rows) + [t[p]] + following == t[Low(p, before)..High(p, after, |t|)]
    ensures |rows| == p - Low(p, before) && |following| == High(p, after, |t|) - p - 1
  {
    OlderWindow(t, p, messages, rows, before);
    NewerWindow(t, p, messages, following, after);
    JoinSlices(t, Low(p, before), p, High(p, after, |t|));
  }

  // ----- every chat has one timeline -----

  lemma {:induction false} MessagesAmong(messages: map<Pair, MessageRow>, keys: set<Pair>, chat: string)
    returns (s: seq<Msg>)
    requires keys <= messages.Keys
    ensures DistinctIds(s) && forall m :: m in s <==> IsMsgOf(m, messages, chat) && (m.chat, m.id) in keys
    decreases |keys|
  {
    if keys == {} {
      s := [];
    } else {
      var key :| key in keys;
      s := MessagesAmong(messages, keys - {key}, chat);
      if key.0 == chat {
        assert key == (key.0, key.1);
        s := s + [Msg(chat, key.1, messages[key], [])];
      }
    }
  }

  lemma TimelineOf(messages: map<Pair, MessageRow>, chat: string) returns (t: seq<Msg>)
    ensures IsTimeline(t, messages, chat)
  {
    var s := MessagesAmong(messages, messages.Keys, chat);
    SortedSide(s, false);
    t := Sort(s, BY_TIME);
  }

  lemma OneTimeline(t: seq<Msg>, u: seq<Msg>, messages: map<Pair, MessageRow>, chat: string)
    requires IsTimeline(t, messages, chat) && IsTimeline(u, messages, chat)
    ensures t == u
  {
    ByTimeIsStrict();
    SameElements(t, u, BY_TIME);
  }
}
