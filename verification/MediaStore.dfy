/** The blob store: puts, lookups, opens and sweeps as the code performs them. */
module MediaStore {
  import opened Wrappers
  import opened GoValues
  import opened MediaNames
  import opened MediaCache
  import opened MediaDirectory
  import opened MediaSweep
  import MediaRetention
  import Sorting
  import Sums

  /** A handle to a content-addressed directory. */
  class Store {
    const env: Env
    const opts: Options
    var dir: Directory

    constructor (env: Env, opts: Options)
      ensures this.env == env && this.opts == opts && dir == map[]
    {
      this.env, this.opts, dir := env, opts, map[];
    }

    /**
     Spools the payload, then moves it into place under its own digest. The blob is written at
     `wrote`, the sidecar (or the existing sidecar's mtime) at `used`; `sidecarFails` says that the
     sidecar cannot be written.
     */
    method PutStream(payload: Bytes, bounded: bool, mime: string, filename: string,
                     wrote: int, used: int, sidecarFails: bool)
      returns (r: Result<Descriptor, Error>)
      requires env.Sound()
      modifies this
      ensures (dir, r) == PutFiles(old(dir), env, opts, payload, bounded, mime, filename, wrote, used, sidecarFails)
    {
      var spooled := Spool(payload, bounded);
      if spooled.Err? {
        return Err(spooled.error);
      }
      var data := spooled.value;
      var mimeType := if mime == "" then DEFAULT_MIME else mime;
      var ext := env.ExtensionForMime(mimeType);
      var digest := env.hash(data);
      var name := filename;
      if name == "" {
        name := digest[..12] + ext;
      }
      match ReadSidecar(dir, env, digest) {
        case Ok(existing) =>
          if BlobPath(existing) in dir {
            TouchSidecar(existing, used);
            return Ok(DescriptorOf(existing));
          }
        case Err(e) =>
          if e != NotFound {
            return Err(e);
          }
      }
      r := WritePair(Meta(digest, mimeType, env.sanitize(name), |data|, ext), data, wrote, used, sidecarFails);
    }

    /** At most one byte past the cap is read from an untrusted payload, and an empty one is refused. */
    method Spool(payload: Bytes, bounded: bool) returns (r: Result<Bytes, Error>)
      ensures r == match Refusal(payload, bounded, UploadLimit(opts)) case Some(e) => Err(e) case None => Ok(payload)
    {
      var limit := if opts.maxUploadBytes > 0 then opts.maxUploadBytes else DEFAULT_MAX_UPLOAD;
      var data := if bounded && |payload| > limit + 1 then payload[..limit + 1] else payload;
      if bounded {
        if |data| > limit {
          return Err(TooLarge);
        }
        if |data| == 0 {
          return Err(EmptyUpload);
        }
      }
      return Ok(data);
    }

    /** Moves the blob into place and writes its sidecar; without the sidecar the blob goes again. */
    method WritePair(meta: Meta, data: Bytes, wrote: int, used: int, sidecarFails: bool)
      returns (r: Result<Descriptor, Error>)
      modifies this
      ensures sidecarFails ==> dir == old(dir) - {meta.sha256 + meta.ext} && r == Err(SidecarWrite)
      ensures !sidecarFails ==> dir == Stored(old(dir), env, meta, data, wrote, used) && r == Ok(DescriptorOf(meta))
    {
      var path := meta.sha256 + meta.ext;
      dir := dir[path := File(data, wrote)];
      if sidecarFails {
        dir := dir - {path};
        assert dir == old(dir) - {path};
        return Err(SidecarWrite);
      }
      dir := dir[SidecarPath(meta.sha256) := File(env.marshal(meta), used)];
      return Ok(DescriptorOf(meta));
    }

    /** The descriptor for a digest; a hit counts as a use. */
    method Lookup(digest: string, now: int) returns (r: Result<Descriptor, Error>)
      modifies this
      ensures (dir, r) == LookupFiles(old(dir), env, digest, now)
    {
      match ReadSidecar(dir, env, digest) {
        case Err(e) => return Err(e);
        case Ok(meta) =>
          if BlobPath(meta) !in dir {
            return Err(NotFound);
          }
          TouchSidecar(meta, now);
          return Ok(DescriptorOf(meta));
      }
    }

    /** The bytes, the descriptor and the time the bytes were stored; a hit counts as a use. */
    method Open(digest: string, now: int) returns (r: Result<(Bytes, Descriptor, int), Error>)
      modifies this
      ensures (dir, r) == OpenFiles(old(dir), env, digest, now)
    {
      match ReadSidecar(dir, env, digest) {
        case Err(e) => return Err(e);
        case Ok(meta) =>
          if BlobPath(meta) !in dir {
            return Err(NotFound);
          }
          var file := dir[BlobPath(meta)];
          TouchSidecar(meta, now);
          return Ok((file.data, DescriptorOf(meta), file.mtime));
      }
    }

    method TouchSidecar(meta: Meta, now: int)
      requires IsDigest(meta.sha256) && SidecarPath(meta.sha256) in dir
      modifies this
      ensures dir == Touched(old(dir), meta.sha256, now)
    {
      var path := SidecarPath(meta.sha256);
      dir := dir[path := dir[path].(mtime := now)];
    }

    /** Removing a path is best effort: the paths in `stuck` stay. */
    method Remove(path: string, stuck: set<string>)
      modifies this
      ensures dir == old(dir) - ({path} - stuck)
    {
      if path !in stuck {
        dir := dir - {path};
      }
    }

    method Evict(b: Entry, stuck: set<string>)
      modifies this
      ensures dir == old(dir) - ({b.name, SidecarPath(b.digest)} - stuck)
    {
      Remove(b.name, stuck);
      Remove(SidecarPath(b.digest), stuck);
    }

    method Record(name: string, blobs: Entries, sidecars: map<string, int>,
                  ghost listing: Directory, ghost done: set<string>)
      returns (blobs': Entries, sidecars': map<string, int>)
      requires Tidy(listing) && done <= listing.Keys && name in dir && name in listing && dir[name] == listing[name]
      requires !IsTemp(name) && Catalogue(listing, done, blobs) && sidecars == SidecarsAmong(listing, done)
      ensures Catalogue(listing, done + {name}, blobs') && sidecars' == SidecarsAmong(listing, done + {name})
    {
      blobs', sidecars' := blobs, sidecars;
      var digest := DigestOf(name);
      if digest.Some? {
        if HasSuffix(name, SIDECAR_EXT) {
          sidecars' := sidecars[digest.value := dir[name].mtime];
        } else {
          blobs' := blobs[digest.value := FileEntry(dir, name)];
        }
      }
      ScanBlob(listing, done, blobs, name);
      ScanSidecars(listing, done, name);
    }

    /** A temp file older than an hour cannot belong to a write in flight. */
    method DropStaleTemp(name: string, now: int, stuck: set<string>, ghost listing: Directory, ghost done: set<string>)
      requires name in dir && name in listing && dir[name] == listing[name] && IsTemp(name)
      requires dir == listing - (StaleTemps(listing, now) * done - stuck)
      modifies this
      ensures dir == listing - (StaleTemps(listing, now) * (done + {name}) - stuck)
    {
      if now - dir[name].mtime > STALE_TEMP_AGE {
        RemoveMore(listing, StaleTemps(listing, now) * done, {name}, stuck);
        Remove(name, stuck);
        assert StaleTemps(listing, now) * (done + {name}) == StaleTemps(listing, now) * done + {name};
      } else {
        assert StaleTemps(listing, now) * (done + {name}) == StaleTemps(listing, now) * done;
      }
    }

    /** One directory entry: a temp file, a blob, a sidecar or something else. */
    method ScanOne(name: string, now: int, stuck: set<string>, blobs: Entries, sidecars: map<string, int>,
                   ghost before: Directory, ghost done: set<string>)
      returns (blobs': Entries, sidecars': map<string, int>)
      requires name in dir && name in before && dir[name] == before[name]
      requires Scanned(before, dir, now, stuck, done, blobs, sidecars)
      modifies this
      ensures Scanned(before, dir, now, stuck, done + {name}, blobs', sidecars')
    {
      blobs', sidecars' := blobs, sidecars;
      if IsTemp(name) {
        DropStaleTemp(name, now, stuck, before, done);
        ScanBlob(before, done, blobs, name);
        ScanSidecars(before, done, name);
      } else {
        blobs', sidecars' := Record(name, blobs, sidecars, before, done);
        NotStale(before, now, done, name);
      }
    }

    /** First pass over the directory, in any order: collect blobs and sidecars, drop stale temp files. */
    method Scan(now: int, stuck: set<string>)
      returns (blobs: Entries, sidecars: map<string, int>)
      requires Tidy(dir)
      modifies this
      ensures dir == old(dir) - (StaleTemps(old(dir), now) - stuck)
      ensures blobs == Blobs(old(dir)) && sidecars == Sidecars(old(dir))
    {
      ghost var before, done: set<string> := dir, {};
      blobs, sidecars := map[], map[];
      var todo := dir.Keys;
      ScanStarts(dir, now, stuck);
      while todo != {}
        invariant done !! todo && done + todo == before.Keys
        invariant Scanned(before, dir, now, stuck, done, blobs, sidecars)
        decreases todo
      {
        var name :| name in todo;
        NotYetGone(before, dir, now, stuck, done, blobs, sidecars, name);
        blobs, sidecars := ScanOne(name, now, stuck, blobs, sidecars, before, done);
        todo, done := todo - {name}, done + {name};
      }
      ScanEnds(before, dir, now, stuck, done, blobs, sidecars);
    }

    /** Sidecars with no bytes to serve. */
    method DropOrphanSidecars(blobs: Entries, sidecars: map<string, int>, stuck: set<string>)
      modifies this
      ensures dir == old(dir) - (SidecarPaths(sidecars.Keys - blobs.Keys) - stuck)
    {
      ghost var before, done: set<string> := dir, {};
      var todo := sidecars.Keys;
      while todo != {}
        invariant done !! todo && done + todo == sidecars.Keys
        invariant dir == before - (SidecarPaths(done - blobs.Keys) - stuck)
        decreases todo
      {
        var digest :| digest in todo;
        if digest !in blobs {
          RemoveMore(before, SidecarPaths(done - blobs.Keys), {SidecarPath(digest)}, stuck);
          Remove(SidecarPath(digest), stuck);
          assert SidecarPaths(done + {digest} - blobs.Keys) == SidecarPaths(done - blobs.Keys) + {SidecarPath(digest)};
        } else {
          assert done + {digest} - blobs.Keys == done - blobs.Keys;
        }
        todo, done := todo - {digest}, done + {digest};
      }
      assert done == sidecars.Keys;
    }

    /** An orphaned blob goes regardless of age; an expired one goes with its sidecar. */
    method DropDead(b: Entry, sidecars: map<string, int>, now: int, stuck: set<string>)
      modifies this
      ensures dir == old(dir) - (PathsOf(b, b.digest, sidecars, now, opts) - stuck)
    {
      if b.digest !in sidecars {
        Remove(b.name, stuck);
      } else if opts.ttl > 0 && now - b.storedAt > opts.ttl {
        Evict(b, stuck);
      }
    }

    /** Second pass, in any order: orphaned blobs and expired ones go, the rest is live. */
    method SplitByAge(blobs: Entries, sidecars: map<string, int>, now: int, stuck: set<string>)
      returns (live: seq<Entry>, res: SweepResult)
      requires MediaRetention.Keyed(blobs)
      modifies this
      ensures Split(old(dir), dir, blobs, sidecars, now, opts, stuck, blobs.Keys, live, res)
    {
      ghost var before, done: set<string> := dir, {};
      live, res := [], SweepResult(0, 0, 0, 0, 0);
      var todo := blobs.Keys;
      NothingDone(blobs, sidecars, now, opts);
      while todo != {}
        invariant done !! todo && done + todo == blobs.Keys
        invariant Split(before, dir, blobs, sidecars, now, opts, stuck, done, live, res)
        decreases todo
      {
        var digest :| digest in todo;
        var b := blobs[digest];
        SplitTurn(before, dir, blobs, sidecars, now, opts, stuck, done, live, res, digest);
        DropDead(b, sidecars, now, stuck);
        var fate := FateOf(b, sidecars, now, opts);
        res := Count(fate, b.size, res);
        if fate.Kept? {
          live := live + [b.(usedAt := sidecars[digest])];
        }
        Advance(todo, done, blobs.Keys, digest);
        todo, done := todo - {digest}, done + {digest};
      }
      assert done == blobs.Keys;
    }

    /** Third pass: while the store exceeds the cap, the least recently used blob goes. */
    method EnforceCap(live: seq<Entry>, counted: SweepResult, stuck: set<string>, ghost es: Entries,
                      ghost ds: set<string>)
      returns (res: SweepResult)
      requires MediaRetention.Keyed(es) && ds <= es.Keys && Listed(live, es, ds)
      requires counted.remaining == Sums.Sum(ds, Sizes(es))
      modifies this
      ensures dir == old(dir) - (EvictPaths(es, CapVictims(es, ds, opts)) - stuck)
      ensures res == CapResult(es, ds, CapVictims(es, ds, opts), counted)
    {
      res := counted;
      if opts.maxBytes > 0 && res.remaining > opts.maxBytes {
        var order := Sorting.Sort(live, Before);
        OrderIsListed(live, es, ds);
        ghost var before, n := dir, 0;
        res, n := EvictOldest(order, counted, stuck);
        CapDone(before, es, ds, order, n, counted, opts, stuck);
      } else {
        NothingEvicted(es, ds, counted);
        AllFit(es, ds, opts);
      }
    }

    /** Evicts from the front of the order until the rest fits. */
    method EvictOldest(order: seq<Entry>, counted: SweepResult, stuck: set<string>)
      returns (res: SweepResult, ghost n: nat)
      modifies this
      ensures n <= |order| && dir == DirAfter(old(dir), order, n, stuck) && res == CountAfter(order, n, counted)
      ensures StopsAt(order, n, counted, opts)
    {
      res := counted;
      var k: nat := 0;
      while k < |order| && res.remaining > opts.maxBytes
        invariant k <= |order| && dir == DirAfter(old(dir), order, k, stuck) && res == CountAfter(order, k, counted)
        invariant AllOver(order, k, counted, opts)
      {
        Evict(order[k], stuck);
        res := EvictOne(res, order[k].size);
        k := k + 1;
      }
      n := k;
    }

    /**
     Enforces retention at `now`. Exactly the doomed paths go (those that are not stuck), and the
     report counts them as if every removal had succeeded.
     */
    method Sweep(now: int, stuck: set<string>) returns (res: SweepResult)
      requires Tidy(dir)
      modifies this
      ensures dir == old(dir) - (Doomed(old(dir), now, opts) - stuck)
      ensures res == SweepReport(old(dir), now, opts)
    {
      ghost var before := dir;
      var blobs, sidecars := Scan(now, stuck);
      DropOrphanSidecars(blobs, sidecars, stuck);
      var live, counted := SplitByAge(blobs, sidecars, now, stuck);
      ghost var es := PairedEntries(blobs, sidecars);
      LiveIsUnexpired(blobs, sidecars, now, opts);
      BlobsAreKeyed(before);
      res := EnforceCap(live, counted, stuck, es, Unexpired(es, now, opts));
      SweepPaths(before, now, opts, stuck);
      SweepCounts(blobs, sidecars, now, opts);
    }
  }
}
