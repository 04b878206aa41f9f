/** Identities of one contact: the two readings of the alias table, and when they agree. */
module Aliases {
  import opened Wrappers
  import Lex
  import opened Sorting

  /** A row of the alias table: a LID and a phone JID. */
  type Alias = (string, string)

  const BY_TEXT := (a: string, b: string) => Lex.Less(a, b)

  lemma TextIsStrict()
    ensures StrictWeakOrder(BY_TEXT)
  {
    forall x, y | BY_TEXT(x, y) ensures !BY_TEXT(y, x) {
      Lex.Asymmetric(x, y);
    }
    forall x, y, z | BY_TEXT(x, y) && BY_TEXT(y, z) ensures BY_TEXT(x, z) {
      Lex.Transitive(x, y, z);
    }
    forall x, y, z | BY_TEXT(x, z) ensures BY_TEXT(x, y) || BY_TEXT(y, z) {
      Lex.Connected(x, y);
      Lex.Connected(y, z);
    }
  }

  /** Sorting distinct strings leaves them in strictly increasing order. */
  lemma SortedTexts(s: seq<string>)
    requires NoDuplicates(s)
    ensures StrictlySorted(Sort(s, BY_TEXT), BY_TEXT) && NoDuplicates(Sort(s, BY_TEXT))
    ensures forall x :: x in Sort(s, BY_TEXT) <==> x in s
  {
    TextIsStrict();
    var r := Sort(s, BY_TEXT);
    SortSorted(s, BY_TEXT);
    PermutationNoDuplicates(s, r);
    forall i, j | 0 <= i < j < |r| ensures BY_TEXT(r[i], r[j]) {
      Lex.Connected(r[i], r[j]);
    }
    forall x ensures x in r <==> x in s {
      SortMembers(s, BY_TEXT, x);
    }
  }

  /** The members of a set of strings, in increasing order. */
  method SortedMembers(members: set<string>) returns (ids: seq<string>)
    ensures StrictlySorted(ids, BY_TEXT) && NoDuplicates(ids)
    ensures forall x :: x in ids <==> x in members
  {
    ids := [];
    var todo := members;
    while todo != {}
      invariant todo <= members && NoDuplicates(ids)
      invariant forall x :: x in ids <==> x in members - todo
      decreases |todo|
    {
      var x :| x in todo;
      assert x !in ids;
      ids, todo := ids + [x], todo - {x};
    }
    SortedTexts(ids);
    ids := Sort(ids, BY_TEXT);
  }

  // ----- reading the whole table -----

  predicate Usable(a: Alias) {
    a.0 != "" && a.1 != ""
  }

  /** The LIDs recorded for a phone JID in the rows read. */
  ghost predicate Linked(rows: seq<Alias>, lid: string, pn: string) {
    lid != "" && pn != "" && (lid, pn) in rows
  }

  ghost predicate IsPhoneOf(rows: seq<Alias>, pn: string) {
    exists lid :: Linked(rows, lid, pn)
  }

  ghost predicate HasPhone(rows: seq<Alias>, lid: string) {
    exists pn :: Linked(rows, lid, pn)
  }

  /** `pn` is the phone JID of the last row read for `lid`. */
  ghost predicate IsLastPhone(rows: seq<Alias>, lid: string, pn: string) {
    && Linked(rows, lid, pn)
    && exists i :: 0 <= i < |rows| && rows[i] == (lid, pn) && NoneAfter(rows, i, lid)
  }

  ghost predicate NoneAfter(rows: seq<Alias>, i: nat, lid: string) {
    forall j :: i < j < |rows| && Usable(rows[j]) ==> rows[j].0 != lid
  }

  /** Every LID is mapped to a phone JID recorded for it, the one read last. */
  ghost predicate IsCanonical(rows: seq<Alias>, canonicalOf: map<string, string>) {
    && (forall lid :: lid in canonicalOf <==> HasPhone(rows, lid))
    && (forall lid :: lid in canonicalOf ==> IsLastPhone(rows, lid, canonicalOf[lid]))
  }

  /** A phone JID's identity list: itself first, then its LIDs in increasing order. */
  ghost predicate IsIdentityList(rows: seq<Alias>, pn: string, ids: seq<string>) {
    && ids != [] && ids[0] == pn && NoDuplicates(ids)
    && StrictlySorted(ids[1..], BY_TEXT)
    && forall x :: x in ids <==> x == pn || Linked(rows, x, pn)
  }

  ghost predicate IsIdentities(rows: seq<Alias>, identitiesOf: map<string, seq<string>>) {
    && (forall pn :: pn in identitiesOf <==> IsPhoneOf(rows, pn))
    && (forall pn :: pn in identitiesOf ==> IsIdentityList(rows, pn, identitiesOf[pn]))
  }

  ghost predicate IsIdSet(rows: seq<Alias>, idSet: map<string, set<string>>) {
    && (forall pn :: pn in idSet <==> IsPhoneOf(rows, pn))
    && (forall pn, x :: pn in idSet ==> (x in idSet[pn] <==> x == pn || Linked(rows, x, pn)))
  }

  lemma ReadOne(rows: seq<Alias>, i: nat)
    requires i < |rows|
    ensures forall lid, pn ::
              Linked(rows[..i + 1], lid, pn) <==>
              Linked(rows[..i], lid, pn) || (Usable(rows[i]) && rows[i] == (lid, pn))
  {
    assert rows[..i + 1] == rows[..i] + [rows[i]];
  }

  lemma LastPhoneStep(rows: seq<Alias>, i: nat, lid: string, pn: string)
    requires i < |rows| && IsLastPhone(rows[..i], lid, pn)
    requires !Usable(rows[i]) || rows[i].0 != lid
    ensures IsLastPhone(rows[..i + 1], lid, pn)
  {
    ReadOne(rows, i);
    var seen, more := rows[..i], rows[..i + 1];
    var k :| 0 <= k < |seen| && seen[k] == (lid, pn) && NoneAfter(seen, k, lid);
    assert more == seen + [rows[i]];
    assert more[k] == (lid, pn) && NoneAfter(more, k, lid);
  }

  lemma NewestIsLastPhone(rows: seq<Alias>, i: nat)
    requires i < |rows| && Usable(rows[i])
    ensures IsLastPhone(rows[..i + 1], rows[i].0, rows[i].1)
  {
    var more := rows[..i + 1];
    assert more[i] == (rows[i].0, rows[i].1) && NoneAfter(more, i, rows[i].0);
  }

  lemma HasPhoneStep(rows: seq<Alias>, i: nat, lid: string)
    requires i < |rows|
    ensures HasPhone(rows[..i + 1], lid) <==> HasPhone(rows[..i], lid) || (Usable(rows[i]) && rows[i].0 == lid)
  {
    ReadOne(rows, i);
    if HasPhone(rows[..i], lid) {
      var pn :| Linked(rows[..i], lid, pn);
      assert Linked(rows[..i + 1], lid, pn);
    }
    if Usable(rows[i]) && rows[i].0 == lid {
      assert Linked(rows[..i + 1], lid, rows[i].1);
    }
    if HasPhone(rows[..i + 1], lid) {
      var pn :| Linked(rows[..i + 1], lid, pn);
      assert Linked(rows[..i], lid, pn) || rows[i].0 == lid;
    }
  }

  lemma CanonicalStep(rows: seq<Alias>, i: nat, before: map<string, string>, after: map<string, string>)
    requires i < |rows| && IsCanonical(rows[..i], before)
    requires after == if Usable(rows[i]) then before[rows[i].0 := rows[i].1] else before
    ensures IsCanonical(rows[..i + 1], after)
  {
    forall lid ensures lid in after <==> HasPhone(rows[..i + 1], lid) {
      HasPhoneStep(rows, i, lid);
    }
    forall lid | lid in after ensures IsLastPhone(rows[..i + 1], lid, after[lid]) {
      if Usable(rows[i]) && rows[i].0 == lid {
        NewestIsLastPhone(rows, i);
      } else {
        LastPhoneStep(rows, i, lid, after[lid]);
      }
    }
  }

  lemma IdSetStep(rows: seq<Alias>, i: nat, before: map<string, set<string>>, after: map<string, set<string>>)
    requires i < |rows| && IsIdSet(rows[..i], before)
    requires after == if !Usable(rows[i]) then before
                      else
                        var known := if rows[i].1 in before then before[rows[i].1] else {rows[i].1};
                        before[rows[i].1 := known + {rows[i].0}]
    ensures IsIdSet(rows[..i + 1], after)
  {
    ReadOne(rows, i);
    var more := rows[..i + 1];
    forall pn ensures pn in after <==> IsPhoneOf(more, pn) {
      if IsPhoneOf(rows[..i], pn) {
        var lid :| Linked(rows[..i], lid, pn);
        assert Linked(more, lid, pn);
      }
      if Usable(rows[i]) && rows[i].1 == pn {
        assert Linked(more, rows[i].0, pn);
      }
      if IsPhoneOf(more, pn) {
        var lid :| Linked(more, lid, pn);
        assert Linked(rows[..i], lid, pn) || rows[i].1 == pn;
      }
    }
    forall pn, x | pn in after ensures x in after[pn] <==> x == pn || Linked(more, x, pn) {
      if pn !in before {
        assert !IsPhoneOf(rows[..i], pn);
        assert !Linked(rows[..i], x, pn);
      }
    }
  }

  /** Reads the alias rows in whatever order they come. */
  method LoadAliasMaps(rows: seq<Alias>)
    returns (canonicalOf: map<string, string>, identitiesOf: map<string, seq<string>>)
    ensures IsCanonical(rows, canonicalOf)
    ensures IsIdentities(rows, identitiesOf)
  {
    canonicalOf := map[];
    var idSet: map<string, set<string>> := map[];
    var i := 0;
    while i < |rows|
      invariant 0 <= i <= |rows|
      invariant IsCanonical(rows[..i], canonicalOf) && IsIdSet(rows[..i], idSet)
    {
      ghost var seenCanonical, seenIds := canonicalOf, idSet;
      var (lid, pn) := rows[i];
      if lid != "" && pn != "" {
        canonicalOf := canonicalOf[lid := pn];
        if pn !in idSet {
          idSet := idSet[pn := {pn}];
        }
        idSet := idSet[pn := idSet[pn] + {lid}];
      }
      CanonicalStep(rows, i, seenCanonical, canonicalOf);
      IdSetStep(rows, i, seenIds, idSet);
      i := i + 1;
    }
    assert rows[..i] == rows;
    identitiesOf := ListIdentities(rows, idSet);
  }

  method ListIdentities(ghost rows: seq<Alias>, idSet: map<string, set<string>>)
    returns (identitiesOf: map<string, seq<string>>)
    requires IsIdSet(rows, idSet)
    ensures IsIdentities(rows, identitiesOf)
  {
    identitiesOf := map[];
    var todo := idSet.Keys;
    while todo != {}
      invariant todo <= idSet.Keys && identitiesOf.Keys == idSet.Keys - todo
      invariant forall pn :: pn in identitiesOf ==> IsIdentityList(rows, pn, identitiesOf[pn])
      decreases |todo|
    {
      var pn :| pn in todo;
      var ids := SortedMembers(idSet[pn] - {pn});
      ListIsIdentities(rows, pn, idSet[pn], ids);
      identitiesOf := identitiesOf[pn := [pn] + ids];
      todo := todo - {pn};
    }
  }

  lemma ListIsIdentities(rows: seq<Alias>, pn: string, members: set<string>, ids: seq<string>)
    requires forall x :: x in members <==> x == pn || Linked(rows, x, pn)
    requires NoDuplicates(ids) && StrictlySorted(ids, BY_TEXT) && forall x :: x in ids <==> x in members - {pn}
    ensures IsIdentityList(rows, pn, [pn] + ids)
  {
    assert ([pn] + ids)[1..] == ids;
    assert pn !in ids;
  }

  // ----- asking for one identity -----

  /** What the union of the two lookups returns, in any order. */
  ghost predicate IsLinkSet(rows: seq<Alias>, jid: string, links: seq<string>) {
    forall x :: x in links <==> (jid, x) in rows || (x, jid) in rows
  }

  /** A jid and everything linked to it, the jid itself first. */
  method ResolveLinkedJIDs(ghost rows: seq<Alias>, jid: string, links: seq<string>) returns (out: Option<seq<string>>)
    requires IsLinkSet(rows, jid, links)
    ensures out.None? <==> jid == ""
    ensures out.Some? ==> out.value != [] && out.value[0] == jid && NoDuplicates(out.value)
    ensures out.Some? ==>
            forall x :: x in out.value <==> x == jid || (x != "" && ((jid, x) in rows || (x, jid) in rows))
  {
    if jid == "" {
      return None;
    }
    var found, seen := [jid], {jid};
    for i := 0 to |links|
      invariant found != [] && found[0] == jid && NoDuplicates(found)
      invariant forall x :: x in seen <==> x in found
      invariant forall x :: x in found <==> x == jid || (x != "" && x in links[..i])
    {
      var linked := links[i];
      assert links[..i + 1] == links[..i] + [linked];
      if linked != "" && linked !in seen {
        seen := seen + {linked};
        found := found + [linked];
      }
    }
    assert links[..|links|] == links;
    return Some(found);
  }

  // ----- when the two agree -----

  /** No JID is used both as a LID and as a phone JID. */
  ghost predicate ColumnsApart(rows: seq<Alias>) {
    forall a, b :: a in rows && b in rows ==> a.0 != b.1
  }

  lemma NotBoth(rows: seq<Alias>, lid: string, pn: string)
    requires ColumnsApart(rows) && (lid, pn) in rows
    ensures lid != pn && (forall x :: (pn, x) !in rows) && (forall x :: (x, lid) !in rows)
  {
    forall x ensures (pn, x) !in rows && (x, lid) !in rows {
      assert (pn, x) !in rows || (pn, x).0 != (lid, pn).1;
      assert (x, lid) !in rows || (lid, pn).0 != (x, lid).1;
    }
    assert (lid, pn).0 != (lid, pn).1;
  }

  /**
   For a phone JID with aliases the list in memory and the one resolved by query are the same
   identities, each once, and both put the phone JID first.
   */
  lemma PhoneIdentitiesAgree(rows: seq<Alias>, pn: string, ids: seq<string>, resolved: seq<string>)
    requires ColumnsApart(rows) && pn != "" && IsPhoneOf(rows, pn) && IsIdentityList(rows, pn, ids)
    requires resolved != [] && resolved[0] == pn && NoDuplicates(resolved)
    requires forall x :: x in resolved <==> x == pn || (x != "" && ((pn, x) in rows || (x, pn) in rows))
    ensures ids[0] == resolved[0] == pn && multiset(ids) == multiset(resolved)
  {
    var lid :| Linked(rows, lid, pn);
    NotBoth(rows, lid, pn);
    SameMembersSameBag(ids, resolved);
  }

  /**
   Starting from a LID they agree exactly when the LID has one phone JID and the phone JID no other LID:
   the query follows one link, the list in memory holds every LID of the phone JID.
   */
  lemma LidIdentitiesAgree(rows: seq<Alias>, lid: string, pn: string, ids: seq<string>, resolved: seq<string>)
    requires ColumnsApart(rows) && Linked(rows, lid, pn) && IsIdentityList(rows, pn, ids)
    requires forall x :: x in resolved <==> x == lid || (x != "" && ((lid, x) in rows || (x, lid) in rows))
    ensures (forall x :: x in ids <==> x in resolved) <==>
            (forall a :: a in rows && Usable(a) ==> (a.0 == lid <==> a.1 == pn))
  {
    NotBoth(rows, lid, pn);
    if forall x :: x in ids <==> x in resolved {
      forall a | a in rows && Usable(a) ensures a.0 == lid <==> a.1 == pn {
        assert a == (a.0, a.1);
        NotBoth(rows, a.0, a.1);
        assert a.0 == lid ==> a.1 in resolved && a.1 in ids;
        assert a.1 == pn ==> Linked(rows, a.0, pn) && a.0 in ids && a.0 in resolved;
      }
    }
    if forall a :: a in rows && Usable(a) ==> (a.0 == lid <==> a.1 == pn) {
      forall x ensures x in ids <==> x in resolved {
        if Linked(rows, x, pn) {
          assert Usable((x, pn));
        }
        if x != "" && (lid, x) in rows {
          assert Usable((lid, x));
        }
      }
    }
  }

  /** Two LIDs of one phone: the list in memory has both, the query from either finds only itself. */
  lemma TwoLidsDisagree()
    ensures var lid, other, pn := "1@lid", "2@lid", "3@s.whatsapp.net";
            var rows := [(lid, pn), (other, pn)];
            && ColumnsApart(rows) && Linked(rows, lid, pn)
            && IsIdentityList(rows, pn, [pn, lid, other])
            && (forall x :: x in [lid, pn] <==> x == lid || (x != "" && ((lid, x) in rows || (x, lid) in rows)))
            && other in [pn, lid, other] && other !in [lid, pn]
  {
    var lid, other, pn := "1@lid", "2@lid", "3@s.whatsapp.net";
    assert lid[0] != other[0] && lid[0] != pn[0] && other[0] != pn[0];
    assert [pn, lid, other][1..] == [lid, other];
    assert Lex.Less(lid, other);
  }

  /** Each LID belongs to at most one phone JID. */
  ghost predicate OnePhoneEach(rows: seq<Alias>) {
    forall lid, p, q :: Linked(rows, lid, p) && Linked(rows, lid, q) ==> p == q
  }

  ghost predicate Disjoint(a: seq<string>, b: seq<string>) {
    forall x :: x in a ==> x !in b
  }

  /** The identity lists of different phone JIDs share nothing exactly when each LID has one phone JID. */
  lemma IdentityListsDisjoint(rows: seq<Alias>, identitiesOf: map<string, seq<string>>)
    requires ColumnsApart(rows) && IsIdentities(rows, identitiesOf)
    ensures OnePhoneEach(rows) <==>
            forall p, q ::
              p in identitiesOf && q in identitiesOf && p != q ==> Disjoint(identitiesOf[p], identitiesOf[q])
  {
    if OnePhoneEach(rows) {
      forall p, q, x | p in identitiesOf && q in identitiesOf && p != q && x in identitiesOf[p]
        ensures x !in identitiesOf[q] {
        PhoneIsNotLid(rows, p, q);
        PhoneIsNotLid(rows, q, p);
      }
    } else {
      var lid, p, q :| Linked(rows, lid, p) && Linked(rows, lid, q) && p != q;
      assert IsPhoneOf(rows, p) && IsPhoneOf(rows, q);
      assert lid in identitiesOf[p] && lid in identitiesOf[q];
      assert !Disjoint(identitiesOf[p], identitiesOf[q]);
    }
  }

  lemma PhoneIsNotLid(rows: seq<Alias>, p: string, q: string)
    requires ColumnsApart(rows) && IsPhoneOf(rows, p)
    ensures !Linked(rows, p, q)
  {
    var lid :| Linked(rows, lid, p);
    NotBoth(rows, lid, p);
  }
}
