/** What callers of the blob store are told, said of the files and the arguments themselves. */
module MediaAnswers {
  import opened Wrappers
  import Lex
  import opened MediaNames
  import opened MediaCache
  import opened MediaDirectory
  import MediaSweep
  import SweepTwice
  import opened LruRefinement
  import opened StoreGuarantees
  import Sums

  // ----- putting -----

  /** The descriptor of bytes stored as `mime` under `filename`. */
  ghost predicate Describes(d: Descriptor, env: Env, data: Bytes, mime: string, filename: string)
    requires IsDigest(env.hash(data))
  {
    && d.sha256 == env.hash(data) && d.mediaPath == "/media/" + env.hash(data) && d.size == |data|
    && d.mime == (if mime == "" then "application/octet-stream" else mime)
    && d.filename == env.sanitize(
         if filename == "" then env.hash(data)[..12] + env.ExtensionForMime(d.mime) else filename)
  }

  function Cap(opts: Options): nat {
    if opts.maxUploadBytes == 0 then 104857600 else opts.maxUploadBytes
  }

  predicate Accepted(opts: Options, data: Bytes, bounded: bool) {
    !bounded || (0 < |data| <= Cap(opts))
  }

  /**
   A put refuses an untrusted payload over the cap or empty, reports a sidecar that cannot be written, and
   otherwise describes new bytes by what it was given.
   */
  lemma PutAnswers(dir: Directory, env: Env, opts: Options, data: Bytes, bounded: bool, mime: string, filename: string,
                   wrote: int, used: int, sidecarFails: bool)
    requires env.Sound()
    ensures var (dir', r) := PutFiles(dir, env, opts, data, bounded, mime, filename, wrote, used, sidecarFails);
            && (bounded && |data| > Cap(opts) ==> r == Err(TooLarge))
            && (bounded && |data| == 0 ==> r == Err(EmptyUpload))
            && (!Accepted(opts, data, bounded) ==> dir' == dir)
            && (Accepted(opts, data, bounded) && ReadObject(dir, env, env.hash(data)) == Err(NotFound) ==>
                 if sidecarFails then r == Err(SidecarWrite)
                 else r.Ok? && Describes(r.value, env, data, mime, filename))
  {
  }

  /** So is the descriptor every later lookup and open returns, whatever happens in between. */
  lemma DescriptorComesBack(env: Env, opts: Options, start: Directory, put: Op, stored: Directory, after: seq<Op>,
                            later: Directory, at: int)
    requires Usable(env, start, [put]) && put.Put? && !put.sidecarFails
    requires Accepted(opts, put.payload, put.bounded) && env.hash(put.payload) !in Abs(start, env)
    requires stored == StepStore(env, opts, start, put).0 && Usable(env, stored, after)
    requires Remains(env, opts, stored, after, env.hash(put.payload)) && later == StoreAfter(env, opts, stored, after)
    ensures var digest := env.hash(put.payload);
            var (_, found) := LookupFiles(later, env, digest, at);
            var (_, handle) := OpenFiles(later, env, digest, at);
            && found.Ok? && Describes(found.value, env, put.payload, put.mime, put.filename)
            && handle.Ok? && handle.value == (put.payload, found.value, put.wrote)
  {
    var d := env.hash(put.payload);
    assert put in [put];
    StoreRefinesObjects(env, opts, start, put);
    FirstPut(env, opts, Abs(start, env), put);
    ObjectsAreFrozen(env, opts, stored, after, d);
    AbsKeysAreDigests(later, env);
    ReadRefines(later, env, d, at);
  }

  lemma FirstPut(env: Env, opts: Options, objs: Objects, put: Op)
    requires env.Sound() && put.Put? && !put.sidecarFails
    requires Accepted(opts, put.payload, put.bounded) && env.hash(put.payload) !in objs
    ensures var objs', d := StepObjects(env, opts, objs, put).0, env.hash(put.payload);
            && d in objs' && objs'[d].data == put.payload && objs'[d].storedAt == put.wrote
            && Describes(objs'[d].desc, env, put.payload, put.mime, put.filename)
  {
  }

  // ----- extensions -----

  /** The media types with an extension of their own. */
  function TypesWith(ext: string): seq<string> {
    match ext
    case ".jpg" => ["image/jpeg"]
    case ".png" => ["image/png"]
    case ".webp" => ["image/webp"]
    case ".gif" => ["image/gif"]
    case ".mp4" => ["video/mp4"]
    case ".3gp" => ["video/3gpp"]
    case ".mov" => ["video/quicktime"]
    case ".webm" => ["video/webm"]
    case ".ogg" => ["audio/ogg"]
    case ".opus" => ["audio/opus"]
    case ".mp3" => ["audio/mpeg"]
    case ".m4a" => ["audio/mp4"]
    case ".aac" => ["audio/aac"]
    case ".amr" => ["audio/amr"]
    case ".wav" => ["audio/wav", "audio/x-wav"]
    case ".pdf" => ["application/pdf"]
    case ".txt" => ["text/plain"]
    case _ => []
  }

  lemma TableIsTypes(base: string, ext: string)
    ensures TableExt(base) == Some(ext) <==> base in TypesWith(ext)
  {
  }

  /** An extension with a dot, in whatever case, is kept in lower case; one that is too long or odd is ".bin". */
  lemma SanitizedExt(raw: string)
    requires raw != "" && raw[0] == '.'
    ensures var r := SanitizeExt(raw);
            if |raw| <= 16 && forall i :: 1 <= i < |raw| ==> IsAlnum(raw[i])
            then |r| == |raw| && forall i :: 0 <= i < |raw| ==>
                   r[i] == if 'A' <= raw[i] <= 'Z' then (raw[i] as int + 32) as char else raw[i]
            else r == ".bin"
  {
  }

  // ----- sweeping -----

  /** The digest has a blob and a sidecar, and the blob is no older than the TTL. */
  ghost predicate IsYoung(dir: Directory, now: int, opts: Options, d: string)
    requires Tidy(dir)
  {
    && d in Blobs(dir) && d in Sidecars(dir)
    && (opts.ttl == 0 || now - dir[Blobs(dir)[d].name].mtime <= opts.ttl)
  }

  lemma BlobIsFile(dir: Directory, d: string)
    requires d in Blobs(dir)
    ensures var n := Blobs(dir)[d].name;
            && n in dir && IsBlob(n) && DigestOf(n) == Some(d)
            && Blobs(dir)[d].storedAt == dir[n].mtime && Blobs(dir)[d].size == |dir[n].data|
            && Blobs(dir)[d].digest == d
  {
    var n := BlobName(dir, d);
    assert n in dir && IsBlob(n) && DigestOf(n) == Some(d);
  }

  /** The digests used no earlier than `d`, whose blobs are kept together with its own or not at all. */
  ghost function UsedNoEarlier(dir: Directory, now: int, opts: Options, d: string): set<string>
    requires Tidy(dir) && d in Sidecars(dir)
  {
    set e | e in Blobs(dir) && IsYoung(dir, now, opts, e)
            && (Sidecars(dir)[e] > Sidecars(dir)[d] || (Sidecars(dir)[e] == Sidecars(dir)[d] && !Lex.Less(e, d)))
  }

  /** The digest's two files stay: a young pair that fits the cap with everything used no earlier. */
  ghost predicate Stays(dir: Directory, now: int, opts: Options, d: string)
    requires Tidy(dir)
  {
    && IsYoung(dir, now, opts, d)
    && (opts.maxBytes == 0 || Sums.Sum(UsedNoEarlier(dir, now, opts, d), Sizes(Blobs(dir))) <= opts.maxBytes)
  }

  lemma UnexpiredPair(blobs: Entries, sidecars: map<string, int>, now: int, opts: Options, d: string)
    ensures d in Unexpired(PairedEntries(blobs, sidecars), now, opts) <==>
            d in blobs && d in sidecars && (opts.ttl == 0 || now - blobs[d].storedAt <= opts.ttl)
  {
  }

  lemma YoungIsUnexpired(dir: Directory, now: int, opts: Options, d: string)
    requires Tidy(dir)
    ensures var es := PairedEntries(Blobs(dir), Sidecars(dir));
            IsYoung(dir, now, opts, d) <==> d in Unexpired(es, now, opts)
  {
    UnexpiredPair(Blobs(dir), Sidecars(dir), now, opts, d);
    if d in Blobs(dir) {
      BlobIsFile(dir, d);
    }
  }

  lemma EntryIs(dir: Directory, d: string)
    requires Tidy(dir) && d in Blobs(dir) && d in Sidecars(dir)
    ensures var es := PairedEntries(Blobs(dir), Sidecars(dir));
            && d in es && es[d].digest == d && es[d].usedAt == Sidecars(dir)[d] && es[d].size == Blobs(dir)[d].size
  {
    BlobIsFile(dir, d);
  }

  lemma NoEarlierIsNotBefore(dir: Directory, now: int, opts: Options, d: string, e: string)
    requires Tidy(dir) && d in Blobs(dir) && d in Sidecars(dir)
    ensures var es := PairedEntries(Blobs(dir), Sidecars(dir));
            e in NoOlder(es, Unexpired(es, now, opts), d) <==> e in UsedNoEarlier(dir, now, opts, d)
  {
    YoungIsUnexpired(dir, now, opts, e);
    EntryIs(dir, d);
    if e in Blobs(dir) && e in Sidecars(dir) {
      EntryIs(dir, e);
    }
  }

  lemma NoEarlierIsNoOlder(dir: Directory, now: int, opts: Options, d: string)
    requires Tidy(dir) && d in Blobs(dir) && d in Sidecars(dir)
    ensures var es := PairedEntries(Blobs(dir), Sidecars(dir));
            NoOlder(es, Unexpired(es, now, opts), d) == UsedNoEarlier(dir, now, opts, d)
  {
    forall e {
      NoEarlierIsNotBefore(dir, now, opts, d, e);
    }
  }

  lemma UncappedAmong(blobs: Entries, sidecars: map<string, int>, now: int, opts: Options, d: string)
    ensures var es := PairedEntries(blobs, sidecars);
            var live := Unexpired(es, now, opts);
            d in blobs.Keys * sidecars.Keys - (Expired(es, now, opts) + CapVictims(es, live, opts)) <==>
            d in live && !OverCap(es, live, d, opts)
  {
  }

  lemma KeptIsUncapped(dir: Directory, now: int, opts: Options, d: string)
    requires Tidy(dir)
    ensures var es := PairedEntries(Blobs(dir), Sidecars(dir));
            var live := Unexpired(es, now, opts);
            d in SweepTwice.Kept(dir, now, opts) <==> d in live && !OverCap(es, live, d, opts)
  {
    UncappedAmong(Blobs(dir), Sidecars(dir), now, opts, d);
  }

  lemma StaysIsKept(dir: Directory, now: int, opts: Options, d: string)
    requires Tidy(dir)
    ensures Stays(dir, now, opts, d) <==> d in SweepTwice.Kept(dir, now, opts)
  {
    KeptIsUncapped(dir, now, opts, d);
    YoungIsUnexpired(dir, now, opts, d);
    if IsYoung(dir, now, opts, d) {
      NoEarlierIsNoOlder(dir, now, opts, d);
      SameSum(dir, UsedNoEarlier(dir, now, opts, d));
    }
  }

  lemma SameSum(dir: Directory, ds: set<string>)
    requires Tidy(dir) && forall d :: d in ds ==> d in Blobs(dir) && d in Sidecars(dir)
    ensures Sums.Sum(ds, Sizes(Blobs(dir))) == Sums.Sum(ds, Sizes(PairedEntries(Blobs(dir), Sidecars(dir))))
  {
    Sums.SumAgree(ds, Sizes(Blobs(dir)), Sizes(PairedEntries(Blobs(dir), Sidecars(dir))));
  }

  /**
   A sweep leaves a temp file that is at most an hour aged, a blob or sidecar whose digest stays, and every
   file of any other name; nothing else.
   */
  lemma SweepLeaves(dir: Directory, now: int, opts: Options, n: string)
    requires Tidy(dir) && n in dir
    ensures var left := n in dir - Doomed(dir, now, opts);
            && (IsTemp(n) ==> (left <==> now - dir[n].mtime <= 3_600_000_000_000))
            && (IsBlob(n) || IsSidecar(n) ==> (left <==> Stays(dir, now, opts, DigestOf(n).value)))
            && (!IsTemp(n) && !IsBlob(n) && !IsSidecar(n) ==> left)
  {
    if IsBlob(n) {
      SweepTwice.BlobFate(dir, now, opts, n);
      StaysIsKept(dir, now, opts, DigestOf(n).value);
    } else if IsSidecar(n) {
      SweepTwice.SidecarFate(dir, now, opts, n);
      StaysIsKept(dir, now, opts, DigestOf(n).value);
    } else {
      OtherFate(dir, now, opts, n);
    }
  }

  lemma OtherFate(dir: Directory, now: int, opts: Options, n: string)
    requires Tidy(dir) && n in dir && !IsBlob(n) && !IsSidecar(n)
    ensures n in Doomed(dir, now, opts) <==> n in StaleTemps(dir, now)
  {
    var blobs, sidecars, evicted := Blobs(dir), Sidecars(dir), Evicted(dir, now, opts);
    SweepTwice.DigestsAreDigests(dir, now, opts);
    SweepTwice.SidecarPathsAre(sidecars.Keys - blobs.Keys, n);
    SweepTwice.SidecarPathsAre(evicted, n);
    forall ds | n in BlobPaths(blobs, ds) ensures false {
      SweepTwice.BlobPathsAreBlobs(dir, ds, n);
    }
  }

  /** Paired blobs past the TTL. */
  ghost function Aged(dir: Directory, now: int, opts: Options): set<string>
    requires Tidy(dir)
  {
    set d | d in Blobs(dir) && d in Sidecars(dir) && !IsYoung(dir, now, opts, d)
  }

  ghost function Staying(dir: Directory, now: int, opts: Options): set<string>
    requires Tidy(dir)
  {
    set d | d in Blobs(dir) && Stays(dir, now, opts, d)
  }

  lemma StayingIsKept(dir: Directory, now: int, opts: Options)
    requires Tidy(dir)
    ensures Staying(dir, now, opts) == SweepTwice.Kept(dir, now, opts)
  {
    forall d ensures d in Staying(dir, now, opts) <==> d in SweepTwice.Kept(dir, now, opts) {
      StaysIsKept(dir, now, opts, d);
    }
  }

  lemma AgedIsExpired(dir: Directory, now: int, opts: Options)
    requires Tidy(dir)
    ensures Aged(dir, now, opts) == Expired(PairedEntries(Blobs(dir), Sidecars(dir)), now, opts)
  {
    forall d {
      YoungIsUnexpired(dir, now, opts, d);
    }
  }

  /** All blobs are counted, those past their age as expired and the other ones that go as evicted, with their bytes. */
  ghost predicate ReportTells(res: SweepResult, all: set<string>, aged: set<string>, kept: set<string>,
                              w: map<string, nat>)
  {
    && res.scanned == |all| && res.expired == |aged| && res.evicted == |all - aged - kept|
    && res.freed == Sums.Sum(all - kept, w) && res.remaining == Sums.Sum(kept, w)
  }

  lemma Parts<T>(all: set<T>, aged: set<T>, kept: set<T>)
    requires aged <= all && kept <= all && aged !! kept
    ensures |all| == |aged| + |kept| + |all - aged - kept|
  {
    assert all == aged + kept + (all - aged - kept);
  }

  lemma Rest(all: set<string>, kept: set<string>, w: map<string, nat>)
    requires kept <= all
    ensures Sums.Sum(all - kept, w) + Sums.Sum(kept, w) == Sums.Sum(all, w)
  {
    Sums.SumUnion(all - kept, kept, w);
    assert all - kept + kept == all;
  }

  lemma Shares(res: SweepResult, all: set<string>, aged: set<string>, kept: set<string>, w: map<string, nat>)
    requires aged <= all && kept <= all && aged !! kept
    requires res.scanned == |all| && res.expired == |aged| && res.expired + res.evicted + |kept| == |all|
    requires res.freed + res.remaining == Sums.Sum(all, w) && res.remaining == Sums.Sum(kept, w)
    ensures ReportTells(res, all, aged, kept, w)
  {
    Parts(all, aged, kept);
    Rest(all, kept, w);
  }

  lemma ReportOfShares(dir: Directory, now: int, opts: Options, aged: set<string>, kept: set<string>)
    requires Tidy(dir) && kept == SweepTwice.Kept(dir, now, opts)
    requires aged == Expired(PairedEntries(Blobs(dir), Sidecars(dir)), now, opts)
    ensures var res, blobs := MediaSweep.SweepReport(dir, now, opts), Blobs(dir);
            && res.scanned == |blobs.Keys| && res.expired == |aged|
            && res.expired + res.evicted + |kept| == |blobs.Keys|
            && res.freed + res.remaining == Sums.Sum(blobs.Keys, Sizes(blobs))
            && res.remaining == Sums.Sum(kept, Sizes(blobs))
  {
    MediaSweep.ReportConserves(dir, now, opts);
    assert |Blobs(dir)| == |Blobs(dir).Keys|;
  }

  /** The report of a sweep, said of the directory. */
  lemma ReportSays(dir: Directory, now: int, opts: Options)
    requires Tidy(dir)
    ensures ReportTells(MediaSweep.SweepReport(dir, now, opts), Blobs(dir).Keys, Aged(dir, now, opts),
                        Staying(dir, now, opts), Sizes(Blobs(dir)))
  {
    var aged, kept := Aged(dir, now, opts), Staying(dir, now, opts);
    StayingIsKept(dir, now, opts);
    AgedIsExpired(dir, now, opts);
    AgedGo(dir, now, opts);
    ReportOfShares(dir, now, opts, aged, kept);
    Shares(MediaSweep.SweepReport(dir, now, opts), Blobs(dir).Keys, aged, kept, Sizes(Blobs(dir)));
  }

  lemma AgedGo(dir: Directory, now: int, opts: Options)
    requires Tidy(dir)
    ensures Aged(dir, now, opts) <= Blobs(dir).Keys && Staying(dir, now, opts) <= Blobs(dir).Keys
    ensures Aged(dir, now, opts) !! Staying(dir, now, opts)
  {
  }
}
