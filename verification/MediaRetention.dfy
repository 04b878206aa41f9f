/** Laws of the retention rule: it is the least-recently-used rule, and nothing more. */
module MediaRetention {
  import opened MediaCache
  import Lex
  import Sorting
  import Sums

  ghost predicate Keyed(es: Entries) {
    forall d :: d in es ==> es[d].digest == d
  }

  lemma BeforeIsStrictWeakOrder()
    ensures Sorting.StrictWeakOrder(Before)
  {
    forall x, y, z | Before(x, z) ensures Before(x, y) || Before(y, z) {
      Lex.Connected(x.digest, y.digest);
      Lex.Connected(y.digest, z.digest);
      BeforeIsStrictTotal(y, x, z);
      BeforeIsStrictTotal(x, y, z);
    }
    forall x, y, z ensures Before(x, y) && Before(y, z) ==> Before(x, z) {
      BeforeIsStrictTotal(x, y, z);
    }
    forall x, y ensures Before(x, y) ==> !Before(y, x) {
      BeforeIsStrictTotal(x, y, x);
    }
  }

  /** Every non-empty set of entries has a least recently used member. */
  lemma {:induction false} Oldest(es: Entries, s: set<string>) returns (m: string)
    requires Keyed(es) && s != {} && s <= es.Keys
    ensures m in s && forall e :: e in s ==> !Before(es[e], es[m])
    decreases |s|
  {
    var x :| x in s;
    if s == {x} {
      m := x;
      BeforeIsStrictTotal(es[x], es[x], es[x]);
    } else {
      var y := Oldest(es, s - {x});
      m := if Before(es[x], es[y]) then x else y;
      forall e | e in s ensures !Before(es[e], es[m]) {
        BeforeIsStrictTotal(es[e], es[x], es[y]);
        BeforeIsStrictTotal(es[x], es[e], es[x]);
        if e != x && m == x {
          BeforeIsStrictTotal(es[e], es[m], es[y]);
        }
      }
    }
  }

  lemma NoOlderGrows(es: Entries, live: set<string>, d: string, e: string)
    requires Keyed(es) && live <= es.Keys && d in es && e in es && Before(es[e], es[d])
    ensures NoOlder(es, live, d) <= NoOlder(es, live, e)
  {
    forall x | x in NoOlder(es, live, d) ensures x in NoOlder(es, live, e) {
      BeforeIsStrictTotal(es[x], es[e], es[d]);
    }
  }

  /** Whatever is older than a removed blob is removed too. */
  lemma VictimsArePrefix(es: Entries, live: set<string>, opts: Options, d: string, e: string)
    requires Keyed(es) && live <= es.Keys
    requires d in CapVictims(es, live, opts) && e in live && Before(es[e], es[d])
    ensures e in CapVictims(es, live, opts)
  {
    NoOlderGrows(es, live, d, e);
    Sums.SumSubset(NoOlder(es, live, d), NoOlder(es, live, e), Sizes(es));
  }

  /** What the cap leaves fits in the cap. */
  lemma SurvivorsFit(es: Entries, live: set<string>, opts: Options)
    requires Keyed(es) && live <= es.Keys && opts.maxBytes > 0
    ensures Sums.Sum(live - CapVictims(es, live, opts), Sizes(es)) <= opts.maxBytes
  {
    var kept := live - CapVictims(es, live, opts);
    if kept != {} {
      var m := Oldest(es, kept);
      assert kept <= NoOlder(es, live, m);
      Sums.SumSubset(kept, NoOlder(es, live, m), Sizes(es));
    }
  }

  /** No smaller least-recently-used prefix would do: any that fits contains all the victims. */
  lemma VictimsAreFewest(es: Entries, live: set<string>, opts: Options, removed: set<string>)
    requires Keyed(es) && live <= es.Keys && removed <= live
    requires forall d, e :: d in removed && e in live && Before(es[e], es[d]) ==> e in removed
    requires opts.maxBytes > 0 ==> Sums.Sum(live - removed, Sizes(es)) <= opts.maxBytes
    ensures CapVictims(es, live, opts) <= removed
  {
    forall d | d in CapVictims(es, live, opts) ensures d in removed {
      if d !in removed {
        forall e | e in NoOlder(es, live, d) ensures e !in removed {
          BeforeIsStrictTotal(es[d], es[e], es[d]);
        }
        Sums.SumSubset(NoOlder(es, live, d), live - removed, Sizes(es));
        assert false;
      }
    }
  }

  /** The kept entries, unchanged. */
  ghost predicate Restricts<T>(m: map<string, T>, kept: set<string>, m': map<string, T>) {
    m'.Keys == kept <= m.Keys && forall d :: d in kept ==> m'[d] == m[d]
  }

  /** Among the kept entries nothing has expired and everything fits the cap. */
  lemma NothingElseGoes(es: Entries, kept: set<string>, es': Entries, now: int, opts: Options)
    requires Keyed(es) && Restricts(es, kept, es')
    requires kept == es.Keys - (Expired(es, now, opts) + CapVictims(es, Unexpired(es, now, opts), opts))
    ensures Expired(es', now, opts) == {} && CapVictims(es', Unexpired(es', now, opts), opts) == {}
  {
    var live, live' := Unexpired(es, now, opts), Unexpired(es', now, opts);
    forall d | d in live' ensures !OverCap(es', live', d, opts) {
      assert NoOlder(es', live', d) <= NoOlder(es, live, d);
      Sums.SumSubset(NoOlder(es', live', d), NoOlder(es, live, d), Sizes(es));
      Sums.SumAgree(NoOlder(es', live', d), Sizes(es), Sizes(es'));
    }
  }

}
