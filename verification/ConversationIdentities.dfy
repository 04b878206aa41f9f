/** Which identities the conversations list. */
module ConversationIdentities {
  import opened Aliases
  import opened Conversations

  lemma MemberKeys(rows: seq<Row>, key: string, canonicalOf: map<string, string>, jid: string)
    requires jid in Jids(RowsOf(rows, key, canonicalOf))
    ensures KeyOf(jid, canonicalOf) == key
  {
    RowsOfMembers(rows, key, canonicalOf);
  }

  lemma PhoneIsListed(aliases: seq<Alias>, canonicalOf: map<string, string>, identitiesOf: map<string, seq<string>>,
                      lid: string)
    requires IsCanonical(aliases, canonicalOf) && IsIdentities(aliases, identitiesOf) && lid in canonicalOf
    ensures canonicalOf[lid] in identitiesOf && lid in identitiesOf[canonicalOf[lid]]
  {
    assert Linked(aliases, lid, canonicalOf[lid]);
    assert IsPhoneOf(aliases, canonicalOf[lid]);
  }

  /** A conversation lists the JID of each of its rows. */
  lemma RowsAreListed(aliases: seq<Alias>, canonicalOf: map<string, string>, identitiesOf: map<string, seq<string>>,
                      rows: seq<Row>, key: string, ids: seq<string>, r: Row)
    requires IsCanonical(aliases, canonicalOf) && IsIdentities(aliases, identitiesOf)
    requires IsJidList(ids, key, Jids(RowsOf(rows, key, canonicalOf)), identitiesOf)
    requires r in RowsOf(rows, key, canonicalOf)
    ensures r.jid in ids
  {
    RowsOfMembers(rows, key, canonicalOf);
    if r.jid in canonicalOf {
      PhoneIsListed(aliases, canonicalOf, identitiesOf, r.jid);
    } else if key in identitiesOf {
      assert IsIdentityList(aliases, key, identitiesOf[key]);
    }
  }

  /** A conversation without recorded identities lists its own key and nothing else. */
  lemma UnlinkedList(aliases: seq<Alias>, canonicalOf: map<string, string>, identitiesOf: map<string, seq<string>>,
                     rows: seq<Row>, key: string, ids: seq<string>, x: string)
    requires IsCanonical(aliases, canonicalOf) && IsIdentities(aliases, identitiesOf)
    requires key !in identitiesOf && IsJidList(ids, key, Jids(RowsOf(rows, key, canonicalOf)), identitiesOf) && x in ids
    ensures x == key && x !in canonicalOf
  {
    MemberKeys(rows, key, canonicalOf, x);
    if x in canonicalOf {
      PhoneIsListed(aliases, canonicalOf, identitiesOf, x);
    }
  }

  /** Two phone JIDs that are recorded for one LID. */
  ghost predicate ShareLid(aliases: seq<Alias>, p: string, q: string) {
    exists lid :: Linked(aliases, lid, p) && Linked(aliases, lid, q)
  }

  lemma UnlinkedNotListed(aliases: seq<Alias>, canonicalOf: map<string, string>, identitiesOf: map<string, seq<string>>,
                          p: string, q: string)
    requires IsCanonical(aliases, canonicalOf) && IsIdentities(aliases, identitiesOf)
    requires p in identitiesOf && p != q && q !in canonicalOf
    ensures q !in identitiesOf[p]
  {
    assert IsIdentityList(aliases, p, identitiesOf[p]);
    if Linked(aliases, q, p) {
      assert HasPhone(aliases, q);
    }
  }

  lemma LinkedListsShare(aliases: seq<Alias>, identitiesOf: map<string, seq<string>>, p: string, q: string)
    requires ColumnsApart(aliases) && IsIdentities(aliases, identitiesOf) && p in identitiesOf && q in identitiesOf
    requires p != q
    ensures Disjoint(identitiesOf[p], identitiesOf[q]) <==> !ShareLid(aliases, p, q)
  {
    PhoneIsNotLid(aliases, p, q);
    PhoneIsNotLid(aliases, q, p);
    if ShareLid(aliases, p, q) {
      var lid :| Linked(aliases, lid, p) && Linked(aliases, lid, q);
      assert lid in identitiesOf[p] && lid in identitiesOf[q];
    }
  }

  lemma SharedLidListsBoth(aliases: seq<Alias>, identitiesOf: map<string, seq<string>>, p: string, q: string)
    requires IsIdentities(aliases, identitiesOf) && ShareLid(aliases, p, q)
    ensures p in identitiesOf && q in identitiesOf
  {
    var lid :| Linked(aliases, lid, p) && Linked(aliases, lid, q);
    assert IsPhoneOf(aliases, p) && IsPhoneOf(aliases, q);
  }

  /** Two conversations have a JID in common exactly when some LID is recorded for both. */
  lemma ListsOverlap(aliases: seq<Alias>, canonicalOf: map<string, string>, identitiesOf: map<string, seq<string>>,
                     rows: seq<Row>, p: string, q: string, a: seq<string>, b: seq<string>)
    requires ColumnsApart(aliases) && IsCanonical(aliases, canonicalOf) && IsIdentities(aliases, identitiesOf) && p != q
    requires IsJidList(a, p, Jids(RowsOf(rows, p, canonicalOf)), identitiesOf)
    requires IsJidList(b, q, Jids(RowsOf(rows, q, canonicalOf)), identitiesOf)
    ensures Disjoint(a, b) <==> !ShareLid(aliases, p, q)
  {
    if p in identitiesOf && q in identitiesOf {
      LinkedListsShare(aliases, identitiesOf, p, q);
    } else {
      assert !ShareLid(aliases, p, q) by {
        if ShareLid(aliases, p, q) { SharedLidListsBoth(aliases, identitiesOf, p, q); }
      }
      forall x | x in a ensures x !in b {
        if p !in identitiesOf {
          UnlinkedList(aliases, canonicalOf, identitiesOf, rows, p, a, x);
        }
        if x in b && q !in identitiesOf {
          UnlinkedList(aliases, canonicalOf, identitiesOf, rows, q, b, x);
        }
        if p in identitiesOf && x !in canonicalOf && x == q {
          UnlinkedNotListed(aliases, canonicalOf, identitiesOf, p, q);
        }
        if q in identitiesOf && x !in canonicalOf && x == p {
          UnlinkedNotListed(aliases, canonicalOf, identitiesOf, q, p);
        }
      }
    }
  }

  /** With one phone JID for each LID, no JID appears in two conversations. */
  lemma ListsAreDisjoint(aliases: seq<Alias>, canonicalOf: map<string, string>, identitiesOf: map<string, seq<string>>,
                         rows: seq<Row>, groups: map<string, Group>, order: seq<string>, convs: seq<Conv>,
                         includeLast: bool)
    requires ColumnsApart(aliases) && OnePhoneEach(aliases)
    requires IsCanonical(aliases, canonicalOf) && IsIdentities(aliases, identitiesOf)
    requires IsGrouping(groups, order, rows, canonicalOf) && IsOverview(convs, groups, order, identitiesOf, includeLast)
    ensures forall i, j :: 0 <= i < j < |convs| ==> Disjoint(convs[i].jids, convs[j].jids)
  {
    forall i, j | 0 <= i < j < |convs| ensures Disjoint(convs[i].jids, convs[j].jids) {
      var p, q := order[i], order[j];
      assert p in order && q in order;
      ListsOverlap(aliases, canonicalOf, identitiesOf, rows, p, q, convs[i].jids, convs[j].jids);
    }
  }

  /** A LID recorded for two phone JIDs is listed with both. */
  lemma SharedLidIsListedTwice(identitiesOf: map<string, seq<string>>)
    requires IsIdentities([("a@lid", "1@s.whatsapp.net"), ("a@lid", "2@s.whatsapp.net")], identitiesOf)
    ensures "1@s.whatsapp.net" in identitiesOf && "a@lid" in identitiesOf["1@s.whatsapp.net"]
    ensures "2@s.whatsapp.net" in identitiesOf && "a@lid" in identitiesOf["2@s.whatsapp.net"]
  {
    var aliases: seq<Alias> := [("a@lid", "1@s.whatsapp.net"), ("a@lid", "2@s.whatsapp.net")];
    assert aliases[0] in aliases && aliases[1] in aliases;
    assert Linked(aliases, "a@lid", "1@s.whatsapp.net") && Linked(aliases, "a@lid", "2@s.whatsapp.net");
    assert IsPhoneOf(aliases, "1@s.whatsapp.net") && IsPhoneOf(aliases, "2@s.whatsapp.net");
  }
}
