/** A sweep of the directory is a sweep of the objects it holds. */
module MediaRefinement {
  import opened Wrappers
  import opened MediaNames
  import opened MediaCache
  import opened MediaDirectory
  import MediaSweep

  /** Entries that differ only in the file name. */
  ghost predicate SameUp(es: Entries, fs: Entries) {
    es.Keys == fs.Keys && forall d :: d in es ==> es[d].(name := "") == fs[d].(name := "")
  }

  lemma SameVictims(es: Entries, fs: Entries, now: int, opts: Options)
    requires SameUp(es, fs)
    ensures Expired(es, now, opts) == Expired(fs, now, opts)
    ensures Unexpired(es, now, opts) == Unexpired(fs, now, opts)
    ensures CapVictims(es, Unexpired(es, now, opts), opts) == CapVictims(fs, Unexpired(fs, now, opts), opts)
  {
    forall d | d in es ensures es[d].(name := "") == fs[d].(name := "") && es[d].storedAt == fs[d].storedAt {
    }
    var live := Unexpired(es, now, opts);
    assert live == Unexpired(fs, now, opts);
    assert Sizes(es) == Sizes(fs);
    forall d | d in live ensures NoOlder(es, live, d) == NoOlder(fs, live, d) {
      SameNoOlder(es, fs, live, d);
    }
  }

  lemma SameNoOlder(es: Entries, fs: Entries, live: set<string>, d: string)
    requires SameUp(es, fs) && live <= es.Keys && d in es
    ensures NoOlder(es, live, d) == NoOlder(fs, live, d)
  {
    forall e | e in live ensures Before(es[e], es[d]) == Before(fs[e], fs[d]) {
      assert es[e].(name := "") == fs[e].(name := "") && es[d].(name := "") == fs[d].(name := "");
    }
  }

  lemma PairedBlob(dir: Directory, env: Env, d: string)
    requires Paired(dir, env) && HasObject(dir, env, d)
    ensures d in BlobDigests(dir) && BlobName(dir, d) == BlobPath(MetaAt(dir, env, d).value)
    ensures d in SidecarDigests(dir) && d in Abs(dir, env)
  {
    var meta := MetaAt(dir, env, d).value;
    SidecarNames(d);
    BlobNames(meta);
    AbsHas(dir, env, d);
    var n := BlobName(dir, d);
    assert n in dir && IsBlob(n) && DigestOf(n) == Some(d);
  }

  lemma PairedDigests(dir: Directory, env: Env)
    requires Paired(dir, env)
    ensures Tidy(dir)
    ensures BlobDigests(dir) == SidecarDigests(dir) == Abs(dir, env).Keys
    ensures forall d :: d in BlobDigests(dir) <==> HasObject(dir, env, d)
  {
    PairedIsTidy(dir, env);
    forall d | HasObject(dir, env, d) ensures d in BlobDigests(dir) && d in SidecarDigests(dir) && d in Abs(dir, env) {
      PairedBlob(dir, env, d);
    }
    forall d | d in BlobDigests(dir) || d in SidecarDigests(dir) ensures HasObject(dir, env, d) {
      var n :| n in dir && (IsBlob(n) || IsSidecar(n)) && DigestOf(n).value == d;
    }
  }

  /** The sweeper's view of a paired directory is its objects. */
  lemma PairedView(dir: Directory, env: Env)
    requires Paired(dir, env)
    ensures Tidy(dir) && Blobs(dir).Keys == Sidecars(dir).Keys == Abs(dir, env).Keys
    ensures SameUp(PairedEntries(Blobs(dir), Sidecars(dir)), EntriesOf(Abs(dir, env)))
  {
    PairedDigests(dir, env);
    var es, fs := PairedEntries(Blobs(dir), Sidecars(dir)), EntriesOf(Abs(dir, env));
    forall d | d in es ensures es[d].(name := "") == fs[d].(name := "") {
      assert HasObject(dir, env, d);
      PairedBlob(dir, env, d);
      AbsHas(dir, env, d);
      var n := BlobName(dir, d);
      assert n in dir && IsBlob(n) && DigestOf(n) == Some(d);
    }
  }

  lemma NoOrphanPaths(blobs: Entries, sidecars: map<string, int>, stale: set<string>, evicted: set<string>)
    requires blobs.Keys == sidecars.Keys
    ensures stale + SidecarPaths(sidecars.Keys - blobs.Keys) + BlobPaths(blobs, blobs.Keys - sidecars.Keys)
            + BlobPaths(blobs, evicted) + SidecarPaths(evicted)
            == stale + BlobPaths(blobs, evicted) + SidecarPaths(evicted)
  {
    assert SidecarPaths(sidecars.Keys - blobs.Keys) == {} && BlobPaths(blobs, blobs.Keys - sidecars.Keys) == {};
  }

  lemma EvictedObjects(dir: Directory, env: Env, now: int, opts: Options)
    requires Paired(dir, env) && Tidy(dir)
    ensures Evicted(dir, now, opts) == Abs(dir, env).Keys - Survivors(Abs(dir, env), now, opts)
  {
    PairedView(dir, env);
    EvictedOf(PairedEntries(Blobs(dir), Sidecars(dir)), Abs(dir, env), now, opts);
  }

  lemma EvictedOf(es: Entries, objs: Objects, now: int, opts: Options)
    requires SameUp(es, EntriesOf(objs))
    ensures Expired(es, now, opts) + CapVictims(es, Unexpired(es, now, opts), opts) ==
            objs.Keys - Survivors(objs, now, opts)
  {
    SameVictims(es, EntriesOf(objs), now, opts);
    EvictedIsRest(EntriesOf(objs), now, opts);
    assert EntriesOf(objs).Keys == objs.Keys;
  }

  lemma DoomedPaths(dir: Directory, env: Env, now: int, opts: Options)
    requires Paired(dir, env) && Tidy(dir)
    ensures Doomed(dir, now, opts) ==
      StaleTemps(dir, now) + BlobPaths(Blobs(dir), Evicted(dir, now, opts)) + SidecarPaths(Evicted(dir, now, opts))
    ensures Evicted(dir, now, opts) == Abs(dir, env).Keys - Survivors(Abs(dir, env), now, opts)
  {
    PairedView(dir, env);
    NoOrphanPaths(Blobs(dir), Sidecars(dir), StaleTemps(dir, now), Evicted(dir, now, opts));
    EvictedObjects(dir, env, now, opts);
  }

  lemma EvictedIsRest(es: Entries, now: int, opts: Options)
    ensures var live := Unexpired(es, now, opts);
            Expired(es, now, opts) + CapVictims(es, live, opts) == es.Keys - (live - CapVictims(es, live, opts))
  {
  }

  ghost predicate WellNamed(blobs: Entries, d: string) {
    d in blobs && IsDigest(d) && IsBlob(blobs[d].name) && DigestOf(blobs[d].name) == Some(d)
  }

  lemma PathMembers(blobs: Entries, stale: set<string>, evicted: set<string>, d: string)
    requires WellNamed(blobs, d) && forall e :: e in evicted ==> WellNamed(blobs, e)
    requires forall n :: n in stale ==> IsTemp(n)
    ensures var doomed := stale + BlobPaths(blobs, evicted) + SidecarPaths(evicted);
            && (SidecarPath(d) in doomed <==> d in evicted)
            && (blobs[d].name in doomed <==> d in evicted)
  {
    SidecarNames(d);
    forall e | e in evicted ensures IsSidecar(SidecarPath(e)) && DigestOf(SidecarPath(e)) == Some(e) {
      SidecarNames(e);
    }
  }

  lemma PairedIsWellNamed(dir: Directory, env: Env, d: string)
    requires Paired(dir, env) && HasObject(dir, env, d)
    ensures WellNamed(Blobs(dir), d) && Blobs(dir)[d].name == BlobPath(MetaAt(dir, env, d).value)
  {
    PairedBlob(dir, env, d);
    BlobNames(MetaAt(dir, env, d).value);
  }

  /** A digest's two files are doomed exactly when it is evicted. */
  lemma DoomedFiles(dir: Directory, env: Env, now: int, opts: Options, d: string)
    requires Paired(dir, env) && Tidy(dir) && HasObject(dir, env, d)
    ensures SidecarPath(d) in Doomed(dir, now, opts) <==> d in Evicted(dir, now, opts)
    ensures BlobPath(MetaAt(dir, env, d).value) in Doomed(dir, now, opts) <==> d in Evicted(dir, now, opts)
  {
    var evicted := Evicted(dir, now, opts);
    DoomedPaths(dir, env, now, opts);
    PairedDigests(dir, env);
    forall e | e in evicted ensures WellNamed(Blobs(dir), e) {
      PairedIsWellNamed(dir, env, e);
    }
    PairedIsWellNamed(dir, env, d);
    PathMembers(Blobs(dir), StaleTemps(dir, now), evicted, d);
  }

  /** The files a sweep leaves are those of the surviving objects. */
  lemma SweepObjectFiles(dir: Directory, env: Env, now: int, opts: Options, d: string)
    requires Paired(dir, env) && Tidy(dir) && IsDigest(d)
    ensures var dir' := dir - Doomed(dir, now, opts);
            && (HasObject(dir', env, d) <==> d in SweepObjects(Abs(dir, env), now, opts))
            && (HasObject(dir', env, d) ==>
                 && HasObject(dir, env, d) && MetaAt(dir', env, d) == MetaAt(dir, env, d)
                 && ObjectAt(dir', env, d) == Abs(dir, env)[d])
  {
    AbsHas(dir, env, d);
    DoomedPaths(dir, env, now, opts);
    if HasObject(dir, env, d) {
      DoomedFiles(dir, env, now, opts, d);
      if d !in Evicted(dir, now, opts) {
        SameFilesSameObject(dir, dir - Doomed(dir, now, opts), env, d);
      }
    }
  }

  lemma SweepRefines(dir: Directory, env: Env, now: int, opts: Options)
    requires Paired(dir, env) && Tidy(dir)
    ensures var dir' := dir - Doomed(dir, now, opts);
            Paired(dir', env) && Abs(dir', env) == SweepObjects(Abs(dir, env), now, opts)
  {
    var dir' := dir - Doomed(dir, now, opts);
    var swept := SweepObjects(Abs(dir, env), now, opts);
    forall n | n in dir' && (IsSidecar(n) || IsBlob(n))
      ensures var d := DigestOf(n).value;
              && HasObject(dir', env, d)
              && n == if IsSidecar(n) then SidecarPath(d) else BlobPath(MetaAt(dir', env, d).value)
    {
      var d := DigestOf(n).value;
      assert n in dir && HasObject(dir, env, d);
      DoomedFiles(dir, env, now, opts, d);
      AbsHas(dir, env, d);
      DoomedPaths(dir, env, now, opts);
      SweepObjectFiles(dir, env, now, opts, d);
    }
    forall d | IsDigest(d)
      ensures HasObject(dir', env, d) <==> d in swept
      ensures d in swept ==> HasObject(dir', env, d) && swept[d] == ObjectAt(dir', env, d)
    {
      SweepObjectFiles(dir, env, now, opts, d);
    }
    AbsKeysAreDigests(dir, env);
    AbsIs(dir', env, swept);
  }

  lemma SameReport(es: Entries, fs: Entries, now: int, opts: Options)
    requires SameUp(es, fs)
    ensures ReportOf(es, now, opts) == ReportOf(fs, now, opts)
  {
    SameVictims(es, fs, now, opts);
    forall d | d in es ensures es[d].size == fs[d].size {
      assert es[d].(name := "") == fs[d].(name := "");
    }
    assert Sizes(es) == Sizes(fs);
  }

  lemma PairSizes(blobs: Entries, sidecars: map<string, int>)
    requires blobs.Keys == sidecars.Keys
    ensures PairedEntries(blobs, sidecars).Keys == blobs.Keys && Sizes(PairedEntries(blobs, sidecars)) == Sizes(blobs)
    ensures |blobs| == |blobs.Keys| && blobs.Keys - sidecars.Keys == {}
  {
  }

  lemma ReportOnPairs(blobs: Entries, sidecars: map<string, int>, now: int, opts: Options)
    requires blobs.Keys == sidecars.Keys
    ensures MediaSweep.ReportOn(blobs, sidecars, now, opts) == ReportOf(PairedEntries(blobs, sidecars), now, opts)
  {
    var es := PairedEntries(blobs, sidecars);
    PairSizes(blobs, sidecars);
    NoOrphans(Expired(es, now, opts), CapVictims(es, Unexpired(es, now, opts), opts));
  }

  lemma NoOrphans(expired: set<string>, victims: set<string>)
    ensures {} + expired + victims == expired + victims
  {
  }

  /** The report of a sweep says of the objects what it says of their files. */
  lemma ReportRefines(dir: Directory, env: Env, now: int, opts: Options)
    requires Paired(dir, env) && Tidy(dir)
    ensures MediaSweep.SweepReport(dir, now, opts) == ReportOf(EntriesOf(Abs(dir, env)), now, opts)
  {
    PairedView(dir, env);
    ReportOnPairs(Blobs(dir), Sidecars(dir), now, opts);
    SameReport(PairedEntries(Blobs(dir), Sidecars(dir)), EntriesOf(Abs(dir, env)), now, opts);
  }
}
