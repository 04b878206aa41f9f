/**
 What the blob store means to its callers: a map from digests to objects, each with the time its
 bytes were stored and the time it was last used, and what every store operation does to that map.
 */
module MediaCache {
  import opened Wrappers
  import opened MediaNames
  import Lex
  import Sums

  type Bytes = seq<bv8>

  /** The sidecar's JSON document. */
  datatype Meta = Meta(sha256: string, mime: string, filename: string, size: nat, ext: string)

  datatype Descriptor = Descriptor(mediaPath: string, mime: string, size: nat, filename: string, sha256: string)

  datatype Options = Options(maxBytes: nat, ttl: nat, maxUploadBytes: nat)

  datatype Error = NotFound | TooLarge | EmptyUpload | BadSidecar | SidecarWrite

  const DEFAULT_MIME := "application/octet-stream"
  const DEFAULT_MAX_UPLOAD: nat := 104857600
  const ROUTE_PREFIX := "/media/"

  /** Code outside this model: SHA-256, JSON, the MIME database and file-name sanitising. */
  datatype Env = Env(
    hash: Bytes -> string,
    marshal: Meta -> Bytes,
    unmarshal: Bytes -> Option<Meta>,
    baseType: string -> string,
    systemExts: string -> seq<string>,
    sanitize: string -> string)
  {
    ghost predicate Sound() {
      && (forall data :: IsDigest(hash(data)))
      && (forall meta :: unmarshal(marshal(meta)) == Some(meta))
    }

    function ExtensionForMime(mime: string): (ext: string)
      ensures SafeExt(ext)
    {
      ExtensionFor(baseType(mime), systemExts(baseType(mime)))
    }

    /** The sidecar written for fresh bytes. */
    function FreshMeta(data: Bytes, mime: string, filename: string): Meta
      requires IsDigest(hash(data))
    {
      var m := if mime == "" then DEFAULT_MIME else mime;
      var ext := ExtensionForMime(m);
      var name := if filename == "" then hash(data)[..12] + ext else filename;
      Meta(hash(data), m, sanitize(name), |data|, ext)
    }
  }

  function DescriptorOf(meta: Meta): Descriptor {
    Descriptor(ROUTE_PREFIX + meta.sha256, if meta.mime == "" then DEFAULT_MIME else meta.mime,
               meta.size, meta.filename, meta.sha256)
  }

  datatype Object = Object(data: Bytes, desc: Descriptor, storedAt: int, usedAt: int)

  type Objects = map<string, Object>

  // ----- uses -----

  function Touch(objs: Objects, digest: string, now: int): Objects
    requires digest in objs
  {
    objs[digest := objs[digest].(usedAt := now)]
  }

  /** Storing bytes: a digest already present is a use and changes nothing else. */
  function PutObject(objs: Objects, data: Bytes, meta: Meta, wrote: int, used: int): (Objects, Descriptor) {
    if meta.sha256 in objs then (Touch(objs, meta.sha256, used), objs[meta.sha256].desc)
    else (objs[meta.sha256 := Object(data, DescriptorOf(meta), wrote, used)], DescriptorOf(meta))
  }

  /** Looking up (or opening) any spelling of a digest. */
  function UseObject(objs: Objects, digest: string, now: int): (Objects, Result<Object, Error>) {
    match Normalize(digest)
    case Some(d) => if d in objs then (Touch(objs, d, now), Ok(objs[d])) else (objs, Err(NotFound))
    case None => (objs, Err(NotFound))
  }

  /** An inbound payload is refused when it is over the cap or empty. */
  function Refusal(data: Bytes, bounded: bool, limit: nat): Option<Error> {
    if bounded && |data| > limit then Some(TooLarge)
    else if bounded && |data| == 0 then Some(EmptyUpload)
    else None
  }

  function UploadLimit(opts: Options): nat {
    if opts.maxUploadBytes > 0 then opts.maxUploadBytes else DEFAULT_MAX_UPLOAD
  }

  // ----- retention -----

  /** One stored blob as the sweeper sees it. */
  datatype Entry = Entry(digest: string, name: string, size: nat, storedAt: int, usedAt: int)

  type Entries = map<string, Entry>

  predicate IsExpired(e: Entry, now: int, opts: Options) {
    opts.ttl > 0 && now - e.storedAt > opts.ttl
  }

  /** Least recently used first, the digest breaking ties. */
  predicate Before(a: Entry, b: Entry) {
    if a.usedAt == b.usedAt then Lex.Less(a.digest, b.digest) else a.usedAt < b.usedAt
  }

  ghost function Sizes(es: Entries): map<string, nat> {
    map d | d in es :: es[d].size
  }

  /** The members of `live` used no earlier than `d`, `d` included. */
  ghost function NoOlder(es: Entries, live: set<string>, d: string): set<string>
    requires live <= es.Keys && d in es
  {
    set e | e in live && !Before(es[e], es[d])
  }

  /**
   Which members of `live` the byte cap removes: those that do not fit in the cap together with
   everything used more recently. No order of removal is mentioned.
   */
  ghost predicate OverCap(es: Entries, live: set<string>, d: string, opts: Options)
    requires live <= es.Keys && d in es
  {
    opts.maxBytes > 0 && Sums.Sum(NoOlder(es, live, d), Sizes(es)) > opts.maxBytes
  }

  ghost function CapVictims(es: Entries, live: set<string>, opts: Options): set<string>
    requires live <= es.Keys
  {
    set d | d in live && OverCap(es, live, d, opts)
  }

  ghost function EntriesOf(objs: Objects): Entries {
    map d | d in objs :: Entry(d, "", |objs[d].data|, objs[d].storedAt, objs[d].usedAt)
  }

  ghost function Unexpired(es: Entries, now: int, opts: Options): set<string> {
    set d | d in es && !IsExpired(es[d], now, opts)
  }

  ghost function Expired(es: Entries, now: int, opts: Options): set<string> {
    set d | d in es && IsExpired(es[d], now, opts)
  }

  ghost function Survivors(objs: Objects, now: int, opts: Options): set<string> {
    var es := EntriesOf(objs);
    Unexpired(es, now, opts) - CapVictims(es, Unexpired(es, now, opts), opts)
  }

  /** What a sweep leaves: unexpired objects, minus those the cap removes. */
  ghost function SweepObjects(objs: Objects, now: int, opts: Options): Objects {
    var kept := Survivors(objs, now, opts);
    map d | d in objs && d in kept :: objs[d]
  }

  /** What a sweep counts: blobs by number, what went and what is left by size. */
  datatype SweepResult = SweepResult(scanned: nat, expired: nat, evicted: nat, freed: nat, remaining: nat)

  ghost function ReportOf(es: Entries, now: int, opts: Options): SweepResult {
    var expired, victims := Expired(es, now, opts), CapVictims(es, Unexpired(es, now, opts), opts);
    SweepResult(|es.Keys|, |expired|, |victims|, Sums.Sum(expired + victims, Sizes(es)),
                Sums.Sum(es.Keys - (expired + victims), Sizes(es)))
  }

  // ----- laws of the retention rule -----

  lemma BeforeIsStrictTotal(a: Entry, b: Entry, c: Entry)
    ensures !Before(a, a)
    ensures Before(a, b) ==> !Before(b, a)
    ensures Before(a, b) && Before(b, c) ==> Before(a, c)
    ensures a.digest != b.digest ==> Before(a, b) || Before(b, a)
  {
    if Lex.Less(a.digest, a.digest) { Lex.Asymmetric(a.digest, a.digest); }
    if Lex.Less(a.digest, b.digest) { Lex.Asymmetric(a.digest, b.digest); }
    if Lex.Less(a.digest, b.digest) && Lex.Less(b.digest, c.digest) {
      Lex.Transitive(a.digest, b.digest, c.digest);
    }
    Lex.Connected(a.digest, b.digest);
  }
}
