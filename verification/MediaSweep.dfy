/** What one sweep removes and reports, pass by pass. */
module MediaSweep {
  import opened Wrappers
  import opened MediaNames
  import opened MediaCache
  import opened MediaDirectory
  import MediaRetention
  import Sorting
  import Sums

  ghost function ReportOn(blobs: Entries, sidecars: map<string, int>, now: int, opts: Options): SweepResult {
    var es := PairedEntries(blobs, sidecars);
    var orphans, expired := blobs.Keys - sidecars.Keys, Expired(es, now, opts);
    var victims := CapVictims(es, Unexpired(es, now, opts), opts);
    SweepResult(|blobs|, |expired|, |orphans| + |victims|,
                Sums.Sum(orphans + expired + victims, Sizes(blobs)),
                Sums.Sum(blobs.Keys - (orphans + expired + victims), Sizes(blobs)))
  }

  ghost function SweepReport(dir: Directory, now: int, opts: Options): SweepResult
    requires Tidy(dir)
  {
    ReportOn(Blobs(dir), Sidecars(dir), now, opts)
  }

  lemma Conserves(all: set<string>, orphans: set<string>, expired: set<string>, victims: set<string>,
                  w: map<string, nat>)
    requires orphans <= all && expired <= all && victims <= all
    requires orphans !! expired && orphans !! victims && expired !! victims
    ensures var gone := orphans + expired + victims;
            && Sums.Sum(gone, w) + Sums.Sum(all - gone, w) == Sums.Sum(all, w)
            && |orphans| + |expired| + |victims| + |all - gone| == |all|
  {
    var gone := orphans + expired + victims;
    Sums.SumUnion(gone, all - gone, w);
    assert gone + (all - gone) == all;
    assert |gone| == |orphans| + |expired| + |victims|;
    assert |gone| + |all - gone| == |all|;
  }

  /** The report conserves: blobs by count, bytes by size, and what remains is what is left on disk. */
  lemma ReportConserves(dir: Directory, now: int, opts: Options)
    requires Tidy(dir)
    ensures var res, blobs := SweepReport(dir, now, opts), Blobs(dir);
            var kept := blobs.Keys * Sidecars(dir).Keys - Evicted(dir, now, opts);
            && res.freed + res.remaining == Sums.Sum(blobs.Keys, Sizes(blobs))
            && res.expired + res.evicted + |kept| == res.scanned
            && res.remaining == Sums.Sum(kept, Sizes(blobs))
  {
    var blobs, sidecars := Blobs(dir), Sidecars(dir);
    KeptIs(blobs, sidecars, now, opts);
  }

  lemma KeptIs(blobs: Entries, sidecars: map<string, int>, now: int, opts: Options)
    ensures var es := PairedEntries(blobs, sidecars);
            var orphans, expired := blobs.Keys - sidecars.Keys, Expired(es, now, opts);
            var victims := CapVictims(es, Unexpired(es, now, opts), opts);
            var kept := blobs.Keys * sidecars.Keys - (expired + victims);
            && kept == blobs.Keys - (orphans + expired + victims)
            && Sums.Sum(orphans + expired + victims, Sizes(blobs)) + Sums.Sum(kept, Sizes(blobs))
               == Sums.Sum(blobs.Keys, Sizes(blobs))
            && |orphans| + |expired| + |victims| + |kept| == |blobs|
  {
    var es := PairedEntries(blobs, sidecars);
    var victims := CapVictims(es, Unexpired(es, now, opts), opts);
    PartsOf(blobs, sidecars, now, opts);
    KeptAmong(blobs.Keys, sidecars.Keys, Expired(es, now, opts), victims, Sizes(blobs));
    assert |blobs| == |blobs.Keys|;
  }

  lemma PartsOf(blobs: Entries, sidecars: map<string, int>, now: int, opts: Options)
    ensures var es := PairedEntries(blobs, sidecars);
            var expired, victims := Expired(es, now, opts), CapVictims(es, Unexpired(es, now, opts), opts);
            && expired <= blobs.Keys * sidecars.Keys && victims <= blobs.Keys * sidecars.Keys && expired !! victims
  {
  }

  lemma KeptAmong(all: set<string>, known: set<string>, expired: set<string>, victims: set<string>, w: map<string, nat>)
    requires expired <= all * known && victims <= all * known && expired !! victims
    ensures var orphans, kept := all - known, all * known - (expired + victims);
            && kept == all - (orphans + expired + victims)
            && Sums.Sum(orphans + expired + victims, w) + Sums.Sum(kept, w) == Sums.Sum(all, w)
            && |orphans| + |expired| + |victims| + |kept| == |all|
  {
    Conserves(all, all - known, expired, victims, w);
    assert all * known - (expired + victims) == all - (all - known + expired + victims);
  }

  lemma LiveIsUnexpired(blobs: Entries, sidecars: map<string, int>, now: int, opts: Options)
    ensures var es := PairedEntries(blobs, sidecars);
            var live := LiveAmong(blobs, sidecars, now, opts, blobs.Keys);
            && live == Unexpired(es, now, opts)
            && ExpiredAmong(blobs, sidecars, now, opts, blobs.Keys) == Expired(es, now, opts)
            && OrphansAmong(blobs, sidecars, blobs.Keys) == blobs.Keys - sidecars.Keys
            && Sums.Sum(live, Sizes(blobs)) == Sums.Sum(live, Sizes(es))
  {
    var es := PairedEntries(blobs, sidecars);
    Sums.SumAgree(Unexpired(es, now, opts), Sizes(blobs), Sizes(es));
    assert LiveAmong(blobs, sidecars, now, opts, blobs.Keys) == Unexpired(es, now, opts);
  }

  lemma BlobsAreKeyed(dir: Directory)
    requires Tidy(dir)
    ensures MediaRetention.Keyed(Blobs(dir)) && MediaRetention.Keyed(PairedEntries(Blobs(dir), Sidecars(dir)))
  {
  }

  lemma RemoveInTurn(dir: Directory, a: set<string>, b: set<string>, c: set<string>, d: set<string>, stuck: set<string>)
    ensures dir - (a - stuck) - (b - stuck) - (c - stuck) - (d - stuck) == dir - (a + b + c + d - stuck)
  {
    RemoveMore(dir, a, b, stuck);
    RemoveMore(dir, a + b, c, stuck);
    RemoveMore(dir, a + b + c, d, stuck);
  }

  lemma AgePathsAre(blobs: Entries, sidecars: map<string, int>, now: int, opts: Options)
    ensures var es := PairedEntries(blobs, sidecars);
            AgePaths(blobs, sidecars, now, opts, blobs.Keys) ==
            BlobPaths(blobs, blobs.Keys - sidecars.Keys)
            + BlobPaths(blobs, Expired(es, now, opts)) + SidecarPaths(Expired(es, now, opts))
  {
    var es := PairedEntries(blobs, sidecars);
    var expired := Expired(es, now, opts);
    forall p | p in SidecarPaths(expired) ensures p in AgePaths(blobs, sidecars, now, opts, blobs.Keys) {
      var d :| d in expired && p == SidecarPath(d);
      assert p in PathsOf(blobs[d], d, sidecars, now, opts);
    }
    forall p | p in BlobPaths(blobs, expired) + BlobPaths(blobs, blobs.Keys - sidecars.Keys)
      ensures p in AgePaths(blobs, sidecars, now, opts, blobs.Keys)
    {
      var d :| d in expired + (blobs.Keys - sidecars.Keys) && p == blobs[d].name;
      assert p in PathsOf(blobs[d], d, sidecars, now, opts);
    }
  }

  /** The paths of the three passes are the doomed ones. */
  lemma SweepPaths(dir: Directory, now: int, opts: Options, stuck: set<string>)
    requires Tidy(dir)
    ensures var blobs, sidecars := Blobs(dir), Sidecars(dir);
            var es := PairedEntries(blobs, sidecars);
            dir - (StaleTemps(dir, now) - stuck) - (SidecarPaths(sidecars.Keys - blobs.Keys) - stuck)
                - (AgePaths(blobs, sidecars, now, opts, blobs.Keys) - stuck)
                - (EvictPaths(es, CapVictims(es, Unexpired(es, now, opts), opts)) - stuck)
            == dir - (Doomed(dir, now, opts) - stuck)
  {
    PassPaths(dir, Blobs(dir), Sidecars(dir), StaleTemps(dir, now), now, opts, stuck);
  }

  lemma PassPaths(dir: Directory, blobs: Entries, sidecars: map<string, int>, stale: set<string>, now: int,
                  opts: Options, stuck: set<string>)
    ensures var es := PairedEntries(blobs, sidecars);
            var expired, victims := Expired(es, now, opts), CapVictims(es, Unexpired(es, now, opts), opts);
            dir - (stale - stuck) - (SidecarPaths(sidecars.Keys - blobs.Keys) - stuck)
                - (AgePaths(blobs, sidecars, now, opts, blobs.Keys) - stuck) - (EvictPaths(es, victims) - stuck)
            == dir - (stale + SidecarPaths(sidecars.Keys - blobs.Keys)
                      + BlobPaths(blobs, blobs.Keys - sidecars.Keys)
                      + BlobPaths(blobs, expired + victims) + SidecarPaths(expired + victims) - stuck)
  {
    var es := PairedEntries(blobs, sidecars);
    var expired, victims := Expired(es, now, opts), CapVictims(es, Unexpired(es, now, opts), opts);
    var orphans, age, capped := SidecarPaths(sidecars.Keys - blobs.Keys),
        AgePaths(blobs, sidecars, now, opts, blobs.Keys), EvictPaths(es, victims);
    RemoveInTurn(dir, stale, orphans, age, capped, stuck);
    AgePathsAre(blobs, sidecars, now, opts);
    EvictPathsSplit(blobs, es, expired, victims);
    Regroup(stale, orphans, BlobPaths(blobs, blobs.Keys - sidecars.Keys), BlobPaths(blobs, expired),
            SidecarPaths(expired),
            BlobPaths(blobs, victims), SidecarPaths(victims));
  }

  lemma EvictPathsSplit(blobs: Entries, es: Entries, expired: set<string>, victims: set<string>)
    requires es.Keys <= blobs.Keys && victims <= es.Keys && forall d :: d in es ==> es[d].name == blobs[d].name
    ensures EvictPaths(es, victims) == BlobPaths(blobs, victims) + SidecarPaths(victims)
    ensures BlobPaths(blobs, expired + victims) == BlobPaths(blobs, expired) + BlobPaths(blobs, victims)
    ensures SidecarPaths(expired + victims) == SidecarPaths(expired) + SidecarPaths(victims)
  {
    assert BlobPaths(es, victims) == BlobPaths(blobs, victims);
  }

  lemma Regroup(a: set<string>, b: set<string>, c: set<string>, d: set<string>, e: set<string>, f: set<string>,
                g: set<string>)
    ensures a + b + (c + d + e) + (f + g) == a + b + c + (d + f) + (e + g)
  {
  }

  lemma SweepCounts(blobs: Entries, sidecars: map<string, int>, now: int, opts: Options)
    ensures var es := PairedEntries(blobs, sidecars);
            var live := Unexpired(es, now, opts);
            var counted := AgeResult(blobs, sidecars, now, opts, blobs.Keys);
            && counted.remaining == Sums.Sum(live, Sizes(es))
            && CapResult(es, live, CapVictims(es, live, opts), counted) == ReportOn(blobs, sidecars, now, opts)
  {
    var es := PairedEntries(blobs, sidecars);
    var live := Unexpired(es, now, opts);
    LiveIsUnexpired(blobs, sidecars, now, opts);
    Partition(blobs, sidecars, now, opts);
    SumsInParts(blobs.Keys, blobs.Keys - sidecars.Keys, Expired(es, now, opts), live, CapVictims(es, live, opts),
                Sizes(blobs), Sizes(es));
    CountParts(es, blobs.Keys, blobs.Keys - sidecars.Keys, Expired(es, now, opts), live,
               CapVictims(es, live, opts), Sizes(blobs));
  }

  lemma Partition(blobs: Entries, sidecars: map<string, int>, now: int, opts: Options)
    ensures var es := PairedEntries(blobs, sidecars);
            var orphans, expired, live := blobs.Keys - sidecars.Keys, Expired(es, now, opts), Unexpired(es, now, opts);
            && blobs.Keys == orphans + expired + live && orphans !! expired && orphans !! live && expired !! live
            && forall d :: d in live ==> Sums.Weight(d, Sizes(es)) == Sums.Weight(d, Sizes(blobs))
  {
  }

  lemma CountParts(es: Entries, all: set<string>, orphans: set<string>, expired: set<string>, live: set<string>,
                   victims: set<string>, w: map<string, nat>)
    requires Sums.Sum(live, w) == Sums.Sum(live, Sizes(es))
    requires Sums.Sum(orphans + expired + victims, w) ==
             Sums.Sum(orphans, w) + Sums.Sum(expired, w) + Sums.Sum(victims, Sizes(es))
    requires Sums.Sum(all - (orphans + expired + victims), w) == Sums.Sum(live - victims, Sizes(es))
    ensures CapResult(es, live, victims, Report(|all|, orphans, expired, live, w)) ==
            SweepResult(|all|, |expired|, |orphans| + |victims|, Sums.Sum(orphans + expired + victims, w),
                        Sums.Sum(all - (orphans + expired + victims), w))
  {
  }

  lemma SumsInParts(all: set<string>, orphans: set<string>, expired: set<string>, live: set<string>,
                    victims: set<string>,
                    w: map<string, nat>, v: map<string, nat>)
    requires all == orphans + expired + live && orphans !! expired && orphans !! live && expired !! live
    requires victims <= live
    requires forall d :: d in live ==> Sums.Weight(d, v) == Sums.Weight(d, w)
    ensures Sums.Sum(orphans + expired + victims, w) ==
            Sums.Sum(orphans, w) + Sums.Sum(expired, w) + Sums.Sum(victims, v)
    ensures Sums.Sum(all - (orphans + expired + victims), w) == Sums.Sum(live - victims, v)
  {
    Sums.SumUnion(orphans, expired, w);
    Sums.SumUnion(orphans + expired, victims, w);
    Sums.SumAgree(victims, w, v);
    Sums.SumAgree(live - victims, w, v);
    assert live - victims == all - (orphans + expired + victims);
  }

  ghost function EvictPaths(es: Entries, ds: set<string>): set<string> {
    BlobPaths(es, ds) + SidecarPaths(ds)
  }

  ghost function CapResult(es: Entries, ds: set<string>, gone: set<string>, counted: SweepResult): SweepResult
    requires counted.remaining == Sums.Sum(ds, Sizes(es))
  {
    var freed := Sums.Sum(gone, Sizes(es));
    counted.(evicted := counted.evicted + |gone|, freed := counted.freed + freed,
             remaining := Sums.Sum(ds - gone, Sizes(es)))
  }

  /** The digests of the first `k` entries. */
  ghost function Gone(order: seq<Entry>, k: nat): set<string>
    requires k <= |order|
  {
    if k == 0 then {} else Gone(order, k - 1) + {order[k - 1].digest}
  }

  lemma {:induction false} GoneMembers(order: seq<Entry>, k: nat, d: string)
    requires k <= |order|
    ensures d in Gone(order, k) <==> exists i :: 0 <= i < k && order[i].digest == d
  {
    if k > 0 {
      GoneMembers(order, k - 1, d);
    }
  }

  ghost predicate Ordered(order: seq<Entry>, es: Entries, ds: set<string>) {
    Listed(order, es, ds) && Sorting.StrictlySorted(order, Before)
  }

  lemma OrderIsListed(live: seq<Entry>, es: Entries, ds: set<string>)
    requires MediaRetention.Keyed(es) && Listed(live, es, ds)
    ensures Ordered(Sorting.Sort(live, Before), es, ds)
  {
    var order := Sorting.Sort(live, Before);
    MediaRetention.BeforeIsStrictWeakOrder();
    Sorting.SortSorted(live, Before);
    assert Sorting.NoDuplicates(live);
    Sorting.PermutationNoDuplicates(live, order);
    forall i | 0 <= i < |order|
      ensures order[i].digest in ds && order[i].digest in es && es[order[i].digest] == order[i]
    {
      Sorting.SortMembers(live, Before, order[i]);
    }
    forall d | d in ds ensures exists i :: 0 <= i < |order| && order[i].digest == d {
      var i :| 0 <= i < |live| && live[i].digest == d;
      Sorting.SortMembers(live, Before, live[i]);
      var j :| 0 <= j < |order| && order[j] == live[i];
    }
    forall i, j | 0 <= i < j < |order|
      ensures order[i].digest != order[j].digest && Before(order[i], order[j])
    {
      BeforeIsStrictTotal(order[i], order[j], order[i]);
    }
  }

  lemma NothingEvicted(es: Entries, ds: set<string>, counted: SweepResult)
    requires counted.remaining == Sums.Sum(ds, Sizes(es))
    ensures EvictPaths(es, {}) == {} && CapResult(es, ds, {}, counted) == counted
  {
    assert ds - {} == ds;
  }

  lemma OrderDecides(order: seq<Entry>, i: nat, k: nat)
    requires Sorting.StrictlySorted(order, Before) && i < |order| && k < |order|
    ensures Before(order[i], order[k]) <==> i < k
  {
    BeforeIsStrictTotal(order[k], order[i], order[k]);
  }

  lemma GoneIsEarlier(order: seq<Entry>, k: nat, i: nat)
    requires forall a, b :: 0 <= a < b < |order| ==> order[a].digest != order[b].digest
    requires k < |order| && i < |order|
    ensures order[i].digest in Gone(order, k) <==> i < k
  {
    GoneMembers(order, k, order[i].digest);
  }

  /** From the k-th entry on, the order lists exactly what was used no earlier than that entry. */
  lemma TailIsNoOlder(es: Entries, ds: set<string>, order: seq<Entry>, k: nat)
    requires ds <= es.Keys && Ordered(order, es, ds) && k < |order|
    ensures NoOlder(es, ds, order[k].digest) == ds - Gone(order, k)
  {
    forall e | e in ds ensures !Before(es[e], order[k]) <==> e !in Gone(order, k) {
      var i :| 0 <= i < |order| && order[i].digest == e;
      OrderDecides(order, i, k);
      GoneIsEarlier(order, k, i);
    }
  }

  /** The next entry in order is the oldest of those that remain. */
  lemma NextInOrder(es: Entries, ds: set<string>, order: seq<Entry>, k: nat)
    requires ds <= es.Keys && Ordered(order, es, ds) && k < |order|
    ensures var gone, d := Gone(order, k), order[k].digest;
            && d in ds - gone && es[d] == order[k] && NoOlder(es, ds, d) == ds - gone
            && Gone(order, k + 1) == gone + {d}
  {
    TailIsNoOlder(es, ds, order, k);
    BeforeIsStrictTotal(order[k], order[k], order[k]);
    GoneMembers(order, k, order[k].digest);
  }

  /** The total never falls below zero: it counts what is left. */
  function EvictOne(res: SweepResult, size: nat): SweepResult {
    res.(evicted := res.evicted + 1, freed := res.freed + size,
         remaining := if size <= res.remaining then res.remaining - size else 0)
  }

  lemma TakeOne(ds: set<string>, gone: set<string>, w: map<string, nat>, d: string)
    requires d in ds - gone
    ensures |gone + {d}| == |gone| + 1 && Sums.Sum(gone + {d}, w) == Sums.Sum(gone, w) + Sums.Weight(d, w)
    ensures Sums.Sum(ds - gone, w) == Sums.Sum(ds - (gone + {d}), w) + Sums.Weight(d, w)
  {
    Sums.SumAdd(gone, d, w);
    Sums.SumRemove(ds - gone, d, w);
    assert ds - gone - {d} == ds - (gone + {d});
  }

  lemma CapResultStep(es: Entries, ds: set<string>, gone: set<string>, counted: SweepResult, d: string)
    requires counted.remaining == Sums.Sum(ds, Sizes(es))
    requires d in ds - gone && d in es
    ensures CapResult(es, ds, gone, counted).remaining >= es[d].size
    ensures CapResult(es, ds, gone + {d}, counted) == EvictOne(CapResult(es, ds, gone, counted), es[d].size)
  {
    assert Sums.Weight(d, Sizes(es)) == es[d].size;
    TakeOne(ds, gone, Sizes(es), d);
  }

  /** The directory after the first `k` of the order have been evicted. */
  ghost function DirAfter(dir: Directory, order: seq<Entry>, k: nat, stuck: set<string>): Directory
    requires k <= |order|
  {
    if k == 0 then dir
    else DirAfter(dir, order, k - 1, stuck) - ({order[k - 1].name, SidecarPath(order[k - 1].digest)} - stuck)
  }

  /** The counters after that. */
  ghost function CountAfter(order: seq<Entry>, k: nat, counted: SweepResult): SweepResult
    requires k <= |order|
  {
    if k == 0 then counted else EvictOne(CountAfter(order, k - 1, counted), order[k - 1].size)
  }

  /** Before each of the first `n` evictions the total was over the cap. */
  ghost predicate AllOver(order: seq<Entry>, n: nat, counted: SweepResult, opts: Options)
    requires n <= |order|
  {
    forall k :: 0 <= k < n ==> CountAfter(order, k, counted).remaining > opts.maxBytes
  }

  ghost predicate StopsAt(order: seq<Entry>, n: nat, counted: SweepResult, opts: Options)
    requires n <= |order|
  {
    AllOver(order, n, counted, opts) && (n == |order| || CountAfter(order, n, counted).remaining <= opts.maxBytes)
  }

  /** What the third pass starts from. */
  ghost predicate CapInput(es: Entries, ds: set<string>, order: seq<Entry>, counted: SweepResult, opts: Options) {
    && MediaRetention.Keyed(es) && ds <= es.Keys && Ordered(order, es, ds)
    && counted.remaining == Sums.Sum(ds, Sizes(es)) && opts.maxBytes > 0
  }

  lemma {:induction false} DirAfterIs(dir: Directory, es: Entries, ds: set<string>, order: seq<Entry>, n: nat,
                                      stuck: set<string>)
    requires Ordered(order, es, ds) && n <= |order|
    ensures DirAfter(dir, order, n, stuck) == dir - (EvictPaths(es, Gone(order, n)) - stuck)
  {
    if n == 0 {
      assert EvictPaths(es, {}) == {} && dir - ({} - stuck) == dir;
    } else {
      var e, gone := order[n - 1], Gone(order, n - 1);
      DirAfterIs(dir, es, ds, order, n - 1, stuck);
      assert es[e.digest] == e;
      EvictPathsAdd(es, gone, e.digest);
      RemoveMore(dir, EvictPaths(es, gone), {e.name, SidecarPath(e.digest)}, stuck);
    }
  }

  lemma CountNext(es: Entries, ds: set<string>, order: seq<Entry>, k: nat, counted: SweepResult, opts: Options)
    requires CapInput(es, ds, order, counted, opts) && k < |order|
    ensures var r, d := CapResult(es, ds, Gone(order, k), counted), order[k].digest;
            && d in ds && EvictOne(r, order[k].size) == CapResult(es, ds, Gone(order, k + 1), counted)
            && (r.remaining > opts.maxBytes ==> OverCap(es, ds, d, opts))
  {
    NextInOrder(es, ds, order, k);
    OneMoreOver(es, ds, Gone(order, k), counted, opts, order[k].digest);
  }

  lemma {:induction false} CountsBySteps(order: seq<Entry>, n: nat, counted: SweepResult, at: nat -> SweepResult)
    requires n <= |order| && at(0) == counted
    requires forall k: nat :: k < n ==> EvictOne(at(k), order[k].size) == at(k + 1)
    ensures CountAfter(order, n, counted) == at(n)
  {
    if n > 0 {
      CountsBySteps(order, n - 1, counted, at);
    }
  }

  /** The counters after each number of evictions. */
  ghost function CapAt(es: Entries, ds: set<string>, order: seq<Entry>, counted: SweepResult, k: nat): SweepResult {
    if k <= |order| && counted.remaining == Sums.Sum(ds, Sizes(es)) then CapResult(es, ds, Gone(order, k), counted)
    else counted
  }

  lemma CapAtNext(es: Entries, ds: set<string>, order: seq<Entry>, k: nat, counted: SweepResult, opts: Options)
    requires CapInput(es, ds, order, counted, opts) && k < |order|
    ensures EvictOne(CapAt(es, ds, order, counted, k), order[k].size) == CapAt(es, ds, order, counted, k + 1)
  {
    CountNext(es, ds, order, k, counted, opts);
  }

  lemma CapAtStarts(es: Entries, ds: set<string>, order: seq<Entry>, counted: SweepResult)
    ensures CapAt(es, ds, order, counted, 0) == counted
  {
    if counted.remaining == Sums.Sum(ds, Sizes(es)) {
      NothingEvicted(es, ds, counted);
    }
  }

  lemma CapSteps(es: Entries, ds: set<string>, order: seq<Entry>, counted: SweepResult, opts: Options)
    returns (at: nat -> SweepResult)
    requires CapInput(es, ds, order, counted, opts)
    ensures at(0) == counted && forall k: nat :: k < |order| ==> EvictOne(at(k), order[k].size) == at(k + 1)
    ensures forall k: nat :: at(k) == CapAt(es, ds, order, counted, k)
  {
    at := (k: nat) => CapAt(es, ds, order, counted, k);
    CapAtStarts(es, ds, order, counted);
    forall k: nat | k < |order| ensures EvictOne(at(k), order[k].size) == at(k + 1) {
      CapAtNext(es, ds, order, k, counted, opts);
    }
  }

  lemma CountAfterIs(es: Entries, ds: set<string>, order: seq<Entry>, n: nat, counted: SweepResult, opts: Options)
    requires CapInput(es, ds, order, counted, opts) && n <= |order|
    ensures CountAfter(order, n, counted) == CapResult(es, ds, Gone(order, n), counted)
  {
    var at := CapSteps(es, ds, order, counted, opts);
    CountsBySteps(order, n, counted, at);
    assert CountAfter(order, n, counted) == CapAt(es, ds, order, counted, n);
  }

  /** The first `n` of the order go because the cap demands it. */
  lemma GoneIsOver(es: Entries, ds: set<string>, order: seq<Entry>, n: nat, counted: SweepResult, opts: Options,
                   d: string)
    requires CapInput(es, ds, order, counted, opts) && n <= |order| && AllOver(order, n, counted, opts)
    requires d in Gone(order, n)
    ensures d in ds && OverCap(es, ds, d, opts)
  {
    GoneMembers(order, n, d);
    var k: nat :| k < n && order[k].digest == d;
    CountAfterIs(es, ds, order, k, counted, opts);
    CountNext(es, ds, order, k, counted, opts);
  }

  lemma OneMoreOver(es: Entries, ds: set<string>, gone: set<string>, counted: SweepResult, opts: Options, d: string)
    requires ds <= es.Keys && counted.remaining == Sums.Sum(ds, Sizes(es)) && opts.maxBytes > 0
    requires d in ds - gone && NoOlder(es, ds, d) == ds - gone
    ensures CapResult(es, ds, gone + {d}, counted) == EvictOne(CapResult(es, ds, gone, counted), es[d].size)
    ensures CapResult(es, ds, gone, counted).remaining > opts.maxBytes ==> OverCap(es, ds, d, opts)
  {
    CapResultStep(es, ds, gone, counted, d);
  }

  lemma EvictPathsAdd(es: Entries, gone: set<string>, d: string)
    requires d in es
    ensures EvictPaths(es, gone + {d}) == EvictPaths(es, gone) + {es[d].name, SidecarPath(d)}
  {
    assert BlobPaths(es, gone + {d}) == BlobPaths(es, gone) + {es[d].name};
    assert SidecarPaths(gone + {d}) == SidecarPaths(gone) + {SidecarPath(d)};
  }

  /** Once what remains fits, everything not yet evicted survives. */
  lemma RestFits(es: Entries, ds: set<string>, order: seq<Entry>, k: nat, opts: Options)
    requires MediaRetention.Keyed(es) && ds <= es.Keys && Ordered(order, es, ds) && k <= |order|
    requires forall d :: d in Gone(order, k) ==> d in ds && OverCap(es, ds, d, opts)
    requires k == |order| || Sums.Sum(ds - Gone(order, k), Sizes(es)) <= opts.maxBytes
    ensures CapVictims(es, ds, opts) == Gone(order, k)
  {
    forall d | d in ds && d !in Gone(order, k) ensures !OverCap(es, ds, d, opts) {
      var j :| 0 <= j < |order| && order[j].digest == d;
      TailIsNoOlder(es, ds, order, j);
      GoneMembers(order, k, d);
      forall e | e in Gone(order, k) ensures e in Gone(order, j) {
        GoneMembers(order, k, e);
        GoneMembers(order, j, e);
      }
      Sums.SumSubset(NoOlder(es, ds, d), ds - Gone(order, k), Sizes(es));
    }
  }

  lemma CapDone(dir: Directory, es: Entries, ds: set<string>, order: seq<Entry>, n: nat, counted: SweepResult,
                opts: Options, stuck: set<string>)
    requires CapInput(es, ds, order, counted, opts) && n <= |order| && StopsAt(order, n, counted, opts)
    ensures DirAfter(dir, order, n, stuck) == dir - (EvictPaths(es, CapVictims(es, ds, opts)) - stuck)
    ensures CountAfter(order, n, counted) == CapResult(es, ds, CapVictims(es, ds, opts), counted)
  {
    forall d | d in Gone(order, n) ensures d in ds && OverCap(es, ds, d, opts) {
      GoneIsOver(es, ds, order, n, counted, opts, d);
    }
    CountAfterIs(es, ds, order, n, counted, opts);
    DirAfterIs(dir, es, ds, order, n, stuck);
    RestFits(es, ds, order, n, opts);
  }

  lemma AllFit(es: Entries, ds: set<string>, opts: Options)
    requires ds <= es.Keys
    requires opts.maxBytes == 0 || Sums.Sum(ds, Sizes(es)) <= opts.maxBytes
    ensures CapVictims(es, ds, opts) == {}
  {
    forall d | d in ds ensures !OverCap(es, ds, d, opts) {
      Sums.SumSubset(NoOlder(es, ds, d), ds, Sizes(es));
    }
  }

  /** The blobs of `ds` have been judged: their paths are gone, the live ones are listed, all are counted. */
  ghost predicate Split(before: Directory, dir: Directory, blobs: Entries, sidecars: map<string, int>, now: int,
                        opts: Options, stuck: set<string>, ds: set<string>, live: seq<Entry>, res: SweepResult)
  {
    && dir == before - (AgePaths(blobs, sidecars, now, opts, ds) - stuck)
    && Listed(live, PairedEntries(blobs, sidecars), LiveAmong(blobs, sidecars, now, opts, ds))
    && res == AgeResult(blobs, sidecars, now, opts, ds)
  }

  lemma SplitTurn(before: Directory, dir: Directory, blobs: Entries, sidecars: map<string, int>, now: int,
                  opts: Options, stuck: set<string>, ds: set<string>, live: seq<Entry>, res: SweepResult, d: string)
    requires Split(before, dir, blobs, sidecars, now, opts, stuck, ds, live, res)
    requires d in blobs && d !in ds && blobs[d].digest == d
    ensures var b, fate := blobs[d], FateOf(blobs[d], sidecars, now, opts);
            Split(before, dir - (PathsOf(b, d, sidecars, now, opts) - stuck), blobs, sidecars, now, opts, stuck,
                  ds + {d},
                  if fate.Kept? then live + [b.(usedAt := sidecars[d])] else live, Count(fate, b.size, res))
  {
    AgePathsStep(blobs, sidecars, now, opts, ds, d);
    RemoveMore(before, AgePaths(blobs, sidecars, now, opts, ds), PathsOf(blobs[d], d, sidecars, now, opts), stuck);
    AgeStep(blobs, sidecars, now, opts, ds, d);
    SplitStep(blobs, sidecars, now, opts, ds, d);
    if FateOf(blobs[d], sidecars, now, opts).Kept? {
      ListMore(live, PairedEntries(blobs, sidecars), LiveAmong(blobs, sidecars, now, opts, ds), d);
    }
  }

  lemma NotStale(dir: Directory, now: int, done: set<string>, name: string)
    requires !IsTemp(name)
    ensures StaleTemps(dir, now) * (done + {name}) == StaleTemps(dir, now) * done
  {
  }

  /** The names in `done` have been listed: stale temp files are gone, blobs and sidecars collected. */
  ghost predicate Scanned(before: Directory, dir: Directory, now: int, stuck: set<string>, done: set<string>,
                          blobs: Entries, sidecars: map<string, int>)
  {
    && Tidy(before) && done <= before.Keys
    && dir == before - (StaleTemps(before, now) * done - stuck)
    && Catalogue(before, done, blobs) && sidecars == SidecarsAmong(before, done)
  }

  lemma ScanStarts(dir: Directory, now: int, stuck: set<string>)
    requires Tidy(dir)
    ensures Scanned(dir, dir, now, stuck, {}, map[], map[])
  {
  }

  lemma NotYetGone(before: Directory, dir: Directory, now: int, stuck: set<string>, done: set<string>,
                   blobs: Entries, sidecars: map<string, int>, name: string)
    requires Scanned(before, dir, now, stuck, done, blobs, sidecars) && name in before && name !in done
    ensures name in dir && dir[name] == before[name]
  {
  }

  lemma ScanEnds(before: Directory, dir: Directory, now: int, stuck: set<string>, done: set<string>,
                 blobs: Entries, sidecars: map<string, int>)
    requires Scanned(before, dir, now, stuck, done, blobs, sidecars) && done == before.Keys
    ensures dir == before - (StaleTemps(before, now) - stuck)
    ensures blobs == Blobs(before) && sidecars == Sidecars(before)
  {
    CatalogueIsBlobs(before, blobs);
    assert StaleTemps(before, now) * done == StaleTemps(before, now);
    AllSidecars(before);
  }

  lemma AllSidecars(dir: Directory)
    requires Tidy(dir)
    ensures SidecarsAmong(dir, dir.Keys) == Sidecars(dir)
  {
    forall d | d in SidecarDigests(dir) ensures SidecarPath(d) in dir {
      var n :| n in dir && IsSidecar(n) && DigestOf(n).value == d;
    }
  }

  // ----- the second pass, one blob at a time -----

  /** `live` lists the entries of `ds`, each once. */
  ghost predicate Listed(live: seq<Entry>, es: Entries, ds: set<string>) {
    && (forall i :: 0 <= i < |live| ==> live[i].digest in ds && live[i].digest in es && es[live[i].digest] == live[i])
    && (forall d :: d in ds ==> exists i :: 0 <= i < |live| && live[i].digest == d)
    && (forall i, j :: 0 <= i < j < |live| ==> live[i].digest != live[j].digest)
  }

  lemma ListMore(live: seq<Entry>, es: Entries, ds: set<string>, d: string)
    requires Listed(live, es, ds) && d !in ds && d in es && es[d].digest == d
    ensures Listed(live + [es[d]], es, ds + {d})
  {
    var live' := live + [es[d]];
    forall e | e in ds + {d} ensures exists i :: 0 <= i < |live'| && live'[i].digest == e {
      if e == d {
        assert live'[|live|].digest == d;
      } else {
        var i :| 0 <= i < |live| && live[i].digest == e;
        assert live'[i].digest == e;
      }
    }
  }

  ghost function PathsOf(b: Entry, d: string, sidecars: map<string, int>, now: int, opts: Options): set<string> {
    if d !in sidecars then {b.name}
    else if IsExpired(b, now, opts) then {b.name, SidecarPath(d)}
    else {}
  }

  ghost function AgePaths(blobs: Entries, sidecars: map<string, int>, now: int, opts: Options,
                          ds: set<string>): set<string> {
    set d, p | d in ds && d in blobs && p in PathsOf(blobs[d], d, sidecars, now, opts) :: p
  }

  ghost function OrphansAmong(blobs: Entries, sidecars: map<string, int>, ds: set<string>): set<string> {
    set d | d in ds && d in blobs && d !in sidecars
  }

  ghost function ExpiredAmong(blobs: Entries, sidecars: map<string, int>, now: int, opts: Options,
                              ds: set<string>): set<string> {
    set d | d in ds && d in blobs && d in sidecars && IsExpired(blobs[d], now, opts)
  }

  ghost function LiveAmong(blobs: Entries, sidecars: map<string, int>, now: int, opts: Options,
                           ds: set<string>): set<string> {
    set d | d in ds && d in blobs && d in sidecars && !IsExpired(blobs[d], now, opts)
  }

  ghost function Report(n: nat, orphans: set<string>, expired: set<string>, live: set<string>,
                        w: map<string, nat>): SweepResult {
    SweepResult(n, |expired|, |orphans|, Sums.Sum(orphans, w) + Sums.Sum(expired, w), Sums.Sum(live, w))
  }

  /** The report on the blobs of `ds`, before the cap is considered. */
  ghost function AgeResult(blobs: Entries, sidecars: map<string, int>, now: int, opts: Options,
                           ds: set<string>): SweepResult {
    Report(|ds|, OrphansAmong(blobs, sidecars, ds), ExpiredAmong(blobs, sidecars, now, opts, ds),
           LiveAmong(blobs, sidecars, now, opts, ds), Sizes(blobs))
  }

  lemma NothingDone(blobs: Entries, sidecars: map<string, int>, now: int, opts: Options)
    ensures AgePaths(blobs, sidecars, now, opts, {}) == {}
    ensures AgeResult(blobs, sidecars, now, opts, {}) == SweepResult(0, 0, 0, 0, 0)
  {
    assert OrphansAmong(blobs, sidecars, {}) == {};
    assert ExpiredAmong(blobs, sidecars, now, opts, {}) == {};
    assert LiveAmong(blobs, sidecars, now, opts, {}) == {};
  }

  lemma AgePathsStep(blobs: Entries, sidecars: map<string, int>, now: int, opts: Options, ds: set<string>, d: string)
    requires d in blobs
    ensures AgePaths(blobs, sidecars, now, opts, ds + {d}) ==
            AgePaths(blobs, sidecars, now, opts, ds) + PathsOf(blobs[d], d, sidecars, now, opts)
  {
  }

  datatype Fate = Orphaned | Aged | Kept

  function FateOf(b: Entry, sidecars: map<string, int>, now: int, opts: Options): Fate {
    if b.digest !in sidecars then Orphaned else if IsExpired(b, now, opts) then Aged else Kept
  }

  function Count(fate: Fate, size: nat, res: SweepResult): SweepResult {
    match fate
    case Orphaned => res.(scanned := res.scanned + 1, evicted := res.evicted + 1, freed := res.freed + size)
    case Aged => res.(scanned := res.scanned + 1, expired := res.expired + 1, freed := res.freed + size)
    case Kept => res.(scanned := res.scanned + 1, remaining := res.remaining + size)
  }

  lemma CountAdd(s: set<string>, w: map<string, nat>, d: string)
    requires d !in s
    ensures |s + {d}| == |s| + 1 && Sums.Sum(s + {d}, w) == Sums.Sum(s, w) + Sums.Weight(d, w)
  {
    Sums.SumAdd(s, d, w);
  }

  lemma ReportStep(n: nat, orphans: set<string>, expired: set<string>, live: set<string>, w: map<string, nat>,
                   d: string)
    requires d !in orphans && d !in expired && d !in live
    ensures var r, size := Report(n, orphans, expired, live, w), Sums.Weight(d, w);
            && Report(n + 1, orphans + {d}, expired, live, w) == Count(Orphaned, size, r)
            && Report(n + 1, orphans, expired + {d}, live, w) == Count(Aged, size, r)
            && Report(n + 1, orphans, expired, live + {d}, w) == Count(Kept, size, r)
  {
    CountAdd(orphans, w, d);
    CountAdd(expired, w, d);
    CountAdd(live, w, d);
    assert Report(n, orphans, expired, live, w).freed == Sums.Sum(orphans, w) + Sums.Sum(expired, w);
  }

  lemma SplitStep(blobs: Entries, sidecars: map<string, int>, now: int, opts: Options, ds: set<string>, d: string)
    requires d in blobs && blobs[d].digest == d
    ensures var fate := FateOf(blobs[d], sidecars, now, opts);
            && OrphansAmong(blobs, sidecars, ds + {d}) ==
               (if fate.Orphaned? then OrphansAmong(blobs, sidecars, ds) + {d} else OrphansAmong(blobs, sidecars, ds))
            && ExpiredAmong(blobs, sidecars, now, opts, ds + {d}) ==
               (if fate.Aged? then ExpiredAmong(blobs, sidecars, now, opts, ds) + {d}
                   else ExpiredAmong(blobs, sidecars, now, opts, ds))
            && LiveAmong(blobs, sidecars, now, opts, ds + {d}) ==
               (if fate.Kept? then LiveAmong(blobs, sidecars, now, opts, ds) + {d}
                   else LiveAmong(blobs, sidecars, now, opts, ds))
  {
  }

  lemma FateStep(n: nat, orphans: set<string>, expired: set<string>, live: set<string>, w: map<string, nat>,
                 d: string, fate: Fate)
    requires d !in orphans && d !in expired && d !in live
    ensures Report(n + 1, if fate.Orphaned? then orphans + {d} else orphans,
                   if fate.Aged? then expired + {d} else expired,
                   if fate.Kept? then live + {d} else live, w)
            == Count(fate, Sums.Weight(d, w), Report(n, orphans, expired, live, w))
  {
    ReportStep(n, orphans, expired, live, w, d);
  }

  lemma AgeStep(blobs: Entries, sidecars: map<string, int>, now: int, opts: Options, ds: set<string>, d: string)
    requires d in blobs && d !in ds && blobs[d].digest == d
    ensures AgeResult(blobs, sidecars, now, opts, ds + {d}) ==
            Count(FateOf(blobs[d], sidecars, now, opts), blobs[d].size, AgeResult(blobs, sidecars, now, opts, ds))
  {
    SplitStep(blobs, sidecars, now, opts, ds, d);
    FateStep(|ds|, OrphansAmong(blobs, sidecars, ds), ExpiredAmong(blobs, sidecars, now, opts, ds),
             LiveAmong(blobs, sidecars, now, opts, ds), Sizes(blobs), d, FateOf(blobs[d], sidecars, now, opts));
  }

  lemma Advance(todo: set<string>, done: set<string>, all: set<string>, d: string)
    requires done !! todo && done + todo == all && d in todo
    ensures done + {d} !! todo - {d} && done + {d} + (todo - {d}) == all
  {
  }

  lemma RemoveMore(dir: Directory, gone: set<string>, more: set<string>, stuck: set<string>)
    ensures dir - (gone - stuck) - (more - stuck) == dir - (gone + more - stuck)
  {
  }

  /** `blobs` lists exactly the blobs among `names`. */
  ghost predicate Catalogue(dir: Directory, names: set<string>, blobs: Entries)
    requires names <= dir.Keys
  {
    && (forall n :: n in names && IsBlob(n) ==> Held(blobs, n))
    && forall d :: d in blobs ==> Catalogued(dir, names, blobs[d], d)
  }

  ghost predicate Held(blobs: Entries, n: string)
    requires IsBlob(n)
  {
    DigestOf(n).value in blobs && blobs[DigestOf(n).value].name == n
  }

  ghost predicate Catalogued(dir: Directory, names: set<string>, b: Entry, d: string)
    requires names <= dir.Keys
  {
    b.name in names && IsBlob(b.name) && DigestOf(b.name) == Some(d) && b == FileEntry(dir, b.name)
  }

  lemma CataloguedIs(dir: Directory, b: Entry, d: string)
    requires Tidy(dir) && Catalogued(dir, dir.Keys, b, d)
    ensures d in Blobs(dir) && b == Blobs(dir)[d]
  {
    assert d in BlobDigests(dir);
    var n := BlobName(dir, d);
    assert n in dir && IsBlob(n) && DigestOf(n) == Some(d);
  }

  lemma BlobIsHeld(dir: Directory, blobs: Entries, d: string)
    requires Catalogue(dir, dir.Keys, blobs) && d in Blobs(dir)
    ensures d in blobs
  {
    var n := BlobName(dir, d);
    assert n in dir && IsBlob(n) && DigestOf(n) == Some(d);
    assert Held(blobs, n);
  }

  lemma CatalogueIsBlobs(dir: Directory, blobs: Entries)
    requires Tidy(dir) && Catalogue(dir, dir.Keys, blobs)
    ensures blobs == Blobs(dir)
  {
    CatalogueWithin(dir, blobs);
    forall d | d in Blobs(dir) ensures d in blobs {
      BlobIsHeld(dir, blobs, d);
    }
  }

  lemma CatalogueWithin(dir: Directory, blobs: Entries)
    requires Tidy(dir) && Catalogue(dir, dir.Keys, blobs)
    ensures forall d :: d in blobs ==> d in Blobs(dir) && blobs[d] == Blobs(dir)[d]
  {
    forall d | d in blobs ensures d in Blobs(dir) && blobs[d] == Blobs(dir)[d] {
      CataloguedIs(dir, blobs[d], d);
    }
  }

  ghost function SidecarsAmong(dir: Directory, names: set<string>): map<string, int>
    requires Tidy(dir)
  {
    map d | d in SidecarDigests(dir) && SidecarPath(d) in names :: dir[SidecarPath(d)].mtime
  }

  lemma ScanBlob(dir: Directory, done: set<string>, blobs: Entries, name: string)
    requires Tidy(dir) && done <= dir.Keys && name in dir && Catalogue(dir, done, blobs)
    ensures Catalogue(dir, done + {name},
      if IsBlob(name) then blobs[DigestOf(name).value := FileEntry(dir, name)] else blobs)
  {
    if IsBlob(name) {
      var d, b := DigestOf(name).value, FileEntry(dir, name);
      forall n | n in done + {name} && IsBlob(n) ensures Held(blobs[d := b], n) {
        ScanHolds(dir, done, blobs, name, n);
      }
      CatalogueAdd(dir, done, name, blobs, d, b);
    }
  }

  lemma CatalogueAdd(dir: Directory, done: set<string>, name: string, blobs: Entries, d: string, b: Entry)
    requires done <= dir.Keys && name in dir && Catalogue(dir, done, blobs) && Catalogued(dir, done + {name}, b, d)
    requires forall n :: n in done + {name} && IsBlob(n) ==> Held(blobs[d := b], n)
    ensures Catalogue(dir, done + {name}, blobs[d := b])
  {
  }

  lemma ScanHolds(dir: Directory, done: set<string>, blobs: Entries, name: string, n: string)
    requires Tidy(dir) && done <= dir.Keys && name in dir && IsBlob(name)
    requires n in done + {name} && IsBlob(n) && (n in done ==> Held(blobs, n))
    ensures Held(blobs[DigestOf(name).value := FileEntry(dir, name)], n)
  {
    assert n in dir;
  }

  lemma SidecarIs(dir: Directory, name: string, d: string)
    requires Tidy(dir) && d in SidecarDigests(dir) && name in dir
    ensures SidecarPath(d) == name <==> IsSidecar(name) && DigestOf(name).value == d
  {
    var n :| n in dir && IsSidecar(n) && DigestOf(n).value == d;
    assert n == SidecarPath(d);
  }

  lemma SidecarAdded(dir: Directory, done: set<string>, name: string, d: string)
    requires Tidy(dir) && name in dir
    ensures d in SidecarsAmong(dir, done + {name}) <==>
            d in SidecarsAmong(dir, done) || (IsSidecar(name) && DigestOf(name).value == d)
    ensures IsSidecar(name) && DigestOf(name).value == d ==> SidecarPath(d) == name
  {
    if d in SidecarDigests(dir) {
      SidecarIs(dir, name, d);
    }
  }

  lemma ScanSidecars(dir: Directory, done: set<string>, name: string)
    requires Tidy(dir) && name in dir
    ensures SidecarsAmong(dir, done + {name}) ==
      if IsSidecar(name) then SidecarsAmong(dir, done)[DigestOf(name).value := dir[name].mtime]
      else SidecarsAmong(dir, done)
  {
    var before, after := SidecarsAmong(dir, done), SidecarsAmong(dir, done + {name});
    forall d ensures d in after <==> d in before || (IsSidecar(name) && DigestOf(name).value == d) {
      SidecarAdded(dir, done, name, d);
    }
    if IsSidecar(name) {
      SidecarAdded(dir, done, name, DigestOf(name).value);
    }
  }
}
