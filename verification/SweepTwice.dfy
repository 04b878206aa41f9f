/** A sweep leaves nothing for a second sweep at the same instant, whatever the directory held. */
module SweepTwice {
  import opened Wrappers
  import opened MediaNames
  import opened MediaCache
  import opened MediaDirectory
  import opened MediaRetention
  import MediaSweep
  import Sums

  /** Digests whose two files a sweep leaves. */
  ghost function Kept(dir: Directory, now: int, opts: Options): set<string>
    requires Tidy(dir)
  {
    Blobs(dir).Keys * Sidecars(dir).Keys - Evicted(dir, now, opts)
  }

  lemma BlobOf(dir: Directory, n: string)
    requires Tidy(dir) && n in dir && IsBlob(n)
    ensures var d := DigestOf(n).value;
            d in Blobs(dir) && BlobName(dir, d) == n && Blobs(dir)[d] == FileEntry(dir, n)
  {
    var d := DigestOf(n).value;
    assert d in BlobDigests(dir);
    var m := BlobName(dir, d);
    assert m in dir && IsBlob(m) && DigestOf(m) == Some(d);
  }

  lemma BlobPathsAre(dir: Directory, ds: set<string>, n: string)
    requires Tidy(dir) && n in dir && IsBlob(n)
    ensures n in BlobPaths(Blobs(dir), ds) <==> DigestOf(n).value in ds
  {
    BlobOf(dir, n);
    forall d | d in ds && d in Blobs(dir) ensures DigestOf(Blobs(dir)[d].name) == Some(d) {
      var m := BlobName(dir, d);
      assert m in dir && IsBlob(m) && DigestOf(m) == Some(d);
    }
  }

  lemma BlobPathsAreBlobs(dir: Directory, ds: set<string>, p: string)
    requires Tidy(dir) && p in BlobPaths(Blobs(dir), ds)
    ensures IsBlob(p)
  {
    var d :| d in ds && d in Blobs(dir) && p == Blobs(dir)[d].name;
    var m := BlobName(dir, d);
    assert m in dir && IsBlob(m) && DigestOf(m) == Some(d);
  }

  lemma SidecarPathsAre(ds: set<string>, p: string)
    requires forall d :: d in ds ==> IsDigest(d)
    ensures p in SidecarPaths(ds) ==> IsSidecar(p) && !IsBlob(p)
    ensures IsSidecar(p) && p == SidecarPath(DigestOf(p).value) ==>
            (p in SidecarPaths(ds) <==> DigestOf(p).value in ds)
  {
    forall d | d in ds
      ensures DigestOf(SidecarPath(d)) == Some(d) && IsSidecar(SidecarPath(d)) && !IsBlob(SidecarPath(d))
    {
      SidecarNames(d);
    }
  }

  lemma DigestsAreDigests(dir: Directory, now: int, opts: Options)
    requires Tidy(dir)
    ensures forall d :: d in Blobs(dir) || d in Sidecars(dir) ==> IsDigest(d)
    ensures Evicted(dir, now, opts) <= Blobs(dir).Keys * Sidecars(dir).Keys
  {
  }

  /** A blob stays exactly when its digest is kept. */
  lemma BlobFate(dir: Directory, now: int, opts: Options, n: string)
    requires Tidy(dir) && n in dir && IsBlob(n)
    ensures n !in Doomed(dir, now, opts) <==> DigestOf(n).value in Kept(dir, now, opts)
  {
    var blobs, sidecars, evicted := Blobs(dir), Sidecars(dir), Evicted(dir, now, opts);
    DigestsAreDigests(dir, now, opts);
    BlobOf(dir, n);
    BlobPathsAre(dir, blobs.Keys - sidecars.Keys, n);
    BlobPathsAre(dir, evicted, n);
    SidecarPathsAre(sidecars.Keys - blobs.Keys, n);
    SidecarPathsAre(evicted, n);
  }

  /** A sidecar stays exactly when its digest is kept. */
  lemma SidecarFate(dir: Directory, now: int, opts: Options, n: string)
    requires Tidy(dir) && n in dir && IsSidecar(n)
    ensures n !in Doomed(dir, now, opts) <==> DigestOf(n).value in Kept(dir, now, opts)
  {
    var blobs, sidecars, evicted := Blobs(dir), Sidecars(dir), Evicted(dir, now, opts);
    DigestsAreDigests(dir, now, opts);
    assert DigestOf(n).value in sidecars;
    forall ds | n in BlobPaths(blobs, ds) ensures false {
      BlobPathsAreBlobs(dir, ds, n);
    }
    SidecarPathsAre(sidecars.Keys - blobs.Keys, n);
    SidecarPathsAre(evicted, n);
  }

  lemma RemovalKeepsTidy(dir: Directory, gone: set<string>)
    requires Tidy(dir)
    ensures Tidy(dir - gone)
  {
  }

  lemma BlobsAfter(dir: Directory, gone: set<string>, d: string)
    requires Tidy(dir) && Tidy(dir - gone)
    ensures d in Blobs(dir - gone) <==> d in Blobs(dir) && BlobName(dir, d) !in gone
    ensures d in Blobs(dir - gone) ==> Blobs(dir - gone)[d] == Blobs(dir)[d]
  {
    var dir' := dir - gone;
    if d in Blobs(dir') {
      var n := BlobName(dir', d);
      assert n in dir' && IsBlob(n) && DigestOf(n) == Some(d);
      BlobOf(dir, n);
      BlobOf(dir', n);
    }
    if d in Blobs(dir) && BlobName(dir, d) !in gone {
      var n := BlobName(dir, d);
      assert n in dir && IsBlob(n) && DigestOf(n) == Some(d);
      BlobOf(dir', n);
    }
  }

  lemma SidecarOf(dir: Directory, d: string)
    requires Tidy(dir)
    ensures d in Sidecars(dir) <==> IsDigest(d) && SidecarPath(d) in dir
    ensures d in Sidecars(dir) ==> Sidecars(dir)[d] == dir[SidecarPath(d)].mtime && IsSidecar(SidecarPath(d))
  {
    if IsDigest(d) {
      SidecarNames(d);
    }
  }

  lemma SweptBlobs(dir: Directory, now: int, opts: Options)
    requires Tidy(dir)
    ensures Restricts(Blobs(dir), Kept(dir, now, opts), Blobs(dir - Doomed(dir, now, opts)))
  {
    var gone, kept := Doomed(dir, now, opts), Kept(dir, now, opts);
    RemovalKeepsTidy(dir, gone);
    forall d
      ensures d in Blobs(dir - gone) <==> d in kept
      ensures d in kept ==> Blobs(dir - gone)[d] == Blobs(dir)[d]
    {
      SweptBlob(dir, now, opts, d);
    }
  }

  lemma SweptBlob(dir: Directory, now: int, opts: Options, d: string)
    requires Tidy(dir) && Tidy(dir - Doomed(dir, now, opts))
    ensures var after := Blobs(dir - Doomed(dir, now, opts));
            (d in after <==> d in Kept(dir, now, opts)) && (d in after ==> d in Blobs(dir) && after[d] == Blobs(dir)[d])
  {
    BlobsAfter(dir, Doomed(dir, now, opts), d);
    if d in Blobs(dir) {
      var n := BlobName(dir, d);
      assert n in dir && IsBlob(n) && DigestOf(n) == Some(d);
      BlobFate(dir, now, opts, n);
    }
  }

  lemma SweptSidecars(dir: Directory, now: int, opts: Options)
    requires Tidy(dir) && Tidy(dir - Doomed(dir, now, opts))
    ensures Restricts(Sidecars(dir), Kept(dir, now, opts), Sidecars(dir - Doomed(dir, now, opts)))
  {
    var gone, kept := Doomed(dir, now, opts), Kept(dir, now, opts);
    forall d
      ensures d in Sidecars(dir - gone) <==> d in kept
      ensures d in kept ==> Sidecars(dir - gone)[d] == Sidecars(dir)[d]
    {
      SidecarOf(dir, d);
      SidecarOf(dir - gone, d);
      if d in Sidecars(dir) {
        SidecarNames(d);
        SidecarFate(dir, now, opts, SidecarPath(d));
      }
    }
  }

  lemma PairsRestrict(blobs: Entries, sidecars: map<string, int>, kept: set<string>, blobs': Entries,
                      sidecars': map<string, int>)
    requires Restricts(blobs, kept, blobs') && Restricts(sidecars, kept, sidecars')
    ensures Restricts(PairedEntries(blobs, sidecars), kept, PairedEntries(blobs', sidecars'))
  {
  }

  /** Once only kept digests are left, and all in pairs, a sweep evicts and reports nothing. */
  lemma IdleReport(blobs: Entries, sidecars: map<string, int>, kept: set<string>, blobs': Entries,
                   sidecars': map<string, int>, now: int, opts: Options)
    requires Restricts(blobs, kept, blobs') && Restricts(sidecars, kept, sidecars')
    requires Keyed(PairedEntries(blobs, sidecars))
    requires var es := PairedEntries(blobs, sidecars);
             kept == es.Keys - (Expired(es, now, opts) + CapVictims(es, Unexpired(es, now, opts), opts))
    ensures var es' := PairedEntries(blobs', sidecars');
            Expired(es', now, opts) + CapVictims(es', Unexpired(es', now, opts), opts) == {}
    ensures MediaSweep.ReportOn(blobs', sidecars', now, opts) ==
            SweepResult(|kept|, 0, 0, 0, Sums.Sum(kept, Sizes(blobs)))
  {
    var es := PairedEntries(blobs, sidecars);
    PairsRestrict(blobs, sidecars, kept, blobs', sidecars');
    NothingElseGoes(es, kept, PairedEntries(blobs', sidecars'), now, opts);
    ReportOfNothing(blobs', sidecars', now, opts);
    Sums.SumAgree(kept, Sizes(blobs), Sizes(blobs'));
  }

  lemma ReportOfNothing(blobs: Entries, sidecars: map<string, int>, now: int, opts: Options)
    requires blobs.Keys == sidecars.Keys
    requires var es := PairedEntries(blobs, sidecars);
             Expired(es, now, opts) == {} && CapVictims(es, Unexpired(es, now, opts), opts) == {}
    ensures MediaSweep.ReportOn(blobs, sidecars, now, opts) ==
            SweepResult(|blobs.Keys|, 0, 0, 0, Sums.Sum(blobs.Keys, Sizes(blobs)))
  {
    assert blobs.Keys - sidecars.Keys == {};
    assert blobs.Keys - ({} + {} + {}) == blobs.Keys;
    assert |blobs| == |blobs.Keys|;
  }

  lemma NothingDoomed(dir: Directory, now: int, opts: Options)
    requires Tidy(dir) && Blobs(dir).Keys == Sidecars(dir).Keys
    requires Evicted(dir, now, opts) == {} && StaleTemps(dir, now) == {}
    ensures Doomed(dir, now, opts) == {}
  {
    var blobs, sidecars := Blobs(dir), Sidecars(dir);
    assert SidecarPaths({}) == {} && BlobPaths(blobs, {}) == {};
    assert sidecars.Keys - blobs.Keys == {} && blobs.Keys - sidecars.Keys == {};
  }

  lemma KeptIsRest(blobs: Entries, sidecars: map<string, int>, evicted: set<string>)
    ensures blobs.Keys * sidecars.Keys - evicted == PairedEntries(blobs, sidecars).Keys - evicted
  {
  }

  lemma NoStaleTemps(dir: Directory, now: int, gone: set<string>)
    requires StaleTemps(dir, now) <= gone
    ensures StaleTemps(dir - gone, now) == {}
  {
  }

  /** The second report: the survivors of the first scanned, none gone, the same bytes remaining. */
  ghost predicate Idle(first: SweepResult, second: SweepResult) {
    && second.scanned + first.expired + first.evicted == first.scanned
    && second.expired == second.evicted == second.freed == 0
    && second.remaining == first.remaining
  }

  /** A second sweep at the same instant removes no path, and its report says so. */
  lemma SecondSweepIsIdle(dir: Directory, now: int, opts: Options)
    requires Tidy(dir)
    ensures var dir' := dir - Doomed(dir, now, opts);
            && Tidy(dir') && Doomed(dir', now, opts) == {}
            && Idle(MediaSweep.SweepReport(dir, now, opts), MediaSweep.SweepReport(dir', now, opts))
  {
    var gone, kept := Doomed(dir, now, opts), Kept(dir, now, opts);
    var dir' := dir - gone;
    RemovalKeepsTidy(dir, gone);
    SweptBlobs(dir, now, opts);
    SweptSidecars(dir, now, opts);
    MediaSweep.BlobsAreKeyed(dir);
    KeptIsRest(Blobs(dir), Sidecars(dir), Evicted(dir, now, opts));
    IdleReport(Blobs(dir), Sidecars(dir), kept, Blobs(dir'), Sidecars(dir'), now, opts);
    NoStaleTemps(dir, now, gone);
    NothingDoomed(dir', now, opts);
    MediaSweep.ReportConserves(dir, now, opts);
  }
}
