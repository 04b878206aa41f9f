/** The directory behind the blob store, and what its files mean. */
module MediaDirectory {
  import opened Wrappers
  import opened MediaNames
  import opened MediaCache

  datatype File = File(data: Bytes, mtime: int)

  type Directory = map<string, File>

  const STALE_TEMP_AGE: int := 3_600_000_000_000

  function SidecarPath(digest: string): string {
    digest + SIDECAR_EXT
  }

  /** The sidecar as read: its digest is the one in the file name, whatever the document says. */
  function MetaAt(dir: Directory, env: Env, digest: string): Option<Meta>
    requires SidecarPath(digest) in dir
  {
    match env.unmarshal(dir[SidecarPath(digest)].data)
    case Some(meta) => Some(meta.(sha256 := digest))
    case None => None
  }

  function BlobPath(meta: Meta): string {
    meta.sha256 + SanitizeExt(meta.ext)
  }

  /** Sidecars are named in lower case and no digest has two blobs. */
  ghost predicate Tidy(dir: Directory) {
    && (forall n :: n in dir && IsSidecar(n) ==> n == SidecarPath(DigestOf(n).value))
    && (forall n, m :: n in dir && m in dir && IsBlob(n) && IsBlob(m) && DigestOf(n) == DigestOf(m) ==> n == m)
  }

  ghost predicate HasObject(dir: Directory, env: Env, digest: string) {
    && IsDigest(digest)
    && SidecarPath(digest) in dir
    && MetaAt(dir, env, digest).Some?
    && var blob := BlobPath(MetaAt(dir, env, digest).value);
    && blob in dir
    && blob != SidecarPath(digest)
  }

  /** Every blob has its sidecar, and every sidecar describes a blob that is there. */
  ghost predicate Paired(dir: Directory, env: Env) {
    && (forall n :: n in dir && IsSidecar(n) ==>
         var d := DigestOf(n).value; n == SidecarPath(d) && HasObject(dir, env, d))
    && (forall n :: n in dir && IsBlob(n) ==>
         var d := DigestOf(n).value; HasObject(dir, env, d) && n == BlobPath(MetaAt(dir, env, d).value))
  }

  ghost function SidecarDigests(dir: Directory): set<string> {
    set n | n in dir && IsSidecar(n) :: DigestOf(n).value
  }

  ghost function ObjectAt(dir: Directory, env: Env, digest: string): Object
    requires HasObject(dir, env, digest)
  {
    var meta := MetaAt(dir, env, digest).value;
    var blob := dir[BlobPath(meta)];
    Object(blob.data, DescriptorOf(meta), blob.mtime, dir[SidecarPath(digest)].mtime)
  }

  /** The abstraction: the objects a directory holds. */
  ghost function Abs(dir: Directory, env: Env): Objects {
    map d | d in SidecarDigests(dir) && HasObject(dir, env, d) :: ObjectAt(dir, env, d)
  }

  lemma SidecarNames(d: string)
    requires IsDigest(d)
    ensures DigestOf(SidecarPath(d)) == Some(d) && IsSidecar(SidecarPath(d)) && !IsBlob(SidecarPath(d))
  {
    PathRoundTrip(d, SIDECAR_EXT);
  }

  lemma BlobNames(meta: Meta)
    requires IsDigest(meta.sha256)
    ensures DigestOf(BlobPath(meta)) == Some(meta.sha256)
    ensures BlobPath(meta) == SidecarPath(meta.sha256) <==> SanitizeExt(meta.ext) == SIDECAR_EXT
    ensures SanitizeExt(meta.ext) != SIDECAR_EXT ==> IsBlob(BlobPath(meta)) && !IsSidecar(BlobPath(meta))
  {
    PathRoundTrip(meta.sha256, SanitizeExt(meta.ext));
    if BlobPath(meta) == SidecarPath(meta.sha256) {
      PathInjective(meta.sha256, SanitizeExt(meta.ext), meta.sha256, SIDECAR_EXT);
    }
  }

  lemma AbsHas(dir: Directory, env: Env, d: string)
    requires IsDigest(d)
    ensures d in Abs(dir, env) <==> HasObject(dir, env, d)
    ensures d in Abs(dir, env) ==> Abs(dir, env)[d] == ObjectAt(dir, env, d)
  {
    SidecarNames(d);
    if HasObject(dir, env, d) {
      assert SidecarPath(d) in dir && DigestOf(SidecarPath(d)).value == d;
    }
  }

  lemma AbsKeysAreDigests(dir: Directory, env: Env)
    ensures forall d :: d in Abs(dir, env) ==> IsDigest(d)
  {
  }

  /** An object depends on its own two files only. */
  lemma SameFilesSameObject(dir: Directory, dir': Directory, env: Env, d: string)
    requires HasObject(dir, env, d)
    requires SidecarPath(d) in dir' && dir'[SidecarPath(d)] == dir[SidecarPath(d)]
    requires var b := BlobPath(MetaAt(dir, env, d).value); b in dir' && dir'[b] == dir[b]
    ensures HasObject(dir', env, d) && ObjectAt(dir', env, d) == ObjectAt(dir, env, d)
    ensures MetaAt(dir', env, d) == MetaAt(dir, env, d)
  {
  }

  lemma PairedIsTidy(dir: Directory, env: Env)
    requires Paired(dir, env)
    ensures Tidy(dir)
  {
  }

  lemma AbsIs(dir: Directory, env: Env, m: Objects)
    requires forall d :: d in m ==> HasObject(dir, env, d) && m[d] == ObjectAt(dir, env, d)
    requires forall d :: HasObject(dir, env, d) ==> d in m
    ensures Abs(dir, env) == m
  {
    forall d | d in m ensures d in Abs(dir, env) {
      AbsHas(dir, env, d);
    }
  }

  lemma UseKeepsObjects(dir: Directory, env: Env, d: string, now: int, e: string)
    requires HasObject(dir, env, d) && IsDigest(e)
    ensures var dir' := dir[SidecarPath(d) := dir[SidecarPath(d)].(mtime := now)];
            && (HasObject(dir', env, e) <==> HasObject(dir, env, e))
            && (HasObject(dir, env, e) ==>
                 && MetaAt(dir', env, e) == MetaAt(dir, env, e)
                 && ObjectAt(dir', env, e) ==
                    if e == d then ObjectAt(dir, env, e).(usedAt := now) else ObjectAt(dir, env, e))
  {
    var dir' := dir[SidecarPath(d) := dir[SidecarPath(d)].(mtime := now)];
    assert dir'.Keys == dir.Keys;
    assert SidecarPath(e) == SidecarPath(d) ==> e == d by {
      if SidecarPath(e) == SidecarPath(d) { PathInjective(e, SIDECAR_EXT, d, SIDECAR_EXT); }
    }
    if SidecarPath(e) in dir && MetaAt(dir, env, e).Some? {
      var meta := MetaAt(dir, env, e).value;
      assert BlobPath(meta) == SidecarPath(d) ==> e == d by {
        if BlobPath(meta) == SidecarPath(d) { PathInjective(e, SanitizeExt(meta.ext), d, SIDECAR_EXT); }
      }
    }
  }

  /** Recording a use: only the sidecar's mtime moves. */
  lemma TouchAbs(dir: Directory, env: Env, d: string, now: int)
    requires Paired(dir, env) && HasObject(dir, env, d)
    ensures var dir' := dir[SidecarPath(d) := dir[SidecarPath(d)].(mtime := now)];
            Paired(dir', env) && d in Abs(dir, env) && Abs(dir', env) == Touch(Abs(dir, env), d, now)
  {
    var dir' := dir[SidecarPath(d) := dir[SidecarPath(d)].(mtime := now)];
    assert dir'.Keys == dir.Keys;
    AbsHas(dir, env, d);
    forall e | IsDigest(e)
      ensures HasObject(dir', env, e) <==> HasObject(dir, env, e)
      ensures HasObject(dir, env, e) ==> MetaAt(dir', env, e) == MetaAt(dir, env, e)
      ensures HasObject(dir, env, e) ==> e in Abs(dir, env) && ObjectAt(dir', env, e) == Touch(Abs(dir, env), d, now)[e]
    {
      UseKeepsObjects(dir, env, d, now, e);
      AbsHas(dir, env, e);
    }
    AbsIs(dir', env, Touch(Abs(dir, env), d, now));
  }

  function Stored(dir: Directory, env: Env, meta: Meta, data: Bytes, wrote: int, used: int): Directory {
    dir[meta.sha256 + meta.ext := File(data, wrote)][SidecarPath(meta.sha256) := File(env.marshal(meta), used)]
  }

  lemma StoreKeepsObjects(dir: Directory, env: Env, meta: Meta, data: Bytes, wrote: int, used: int, e: string)
    requires IsDigest(meta.sha256) && IsDigest(e) && e != meta.sha256
    ensures var dir' := Stored(dir, env, meta, data, wrote, used);
            && (HasObject(dir', env, e) <==> HasObject(dir, env, e))
            && (HasObject(dir, env, e) ==>
                 MetaAt(dir', env, e) == MetaAt(dir, env, e) && ObjectAt(dir', env, e) == ObjectAt(dir, env, e))
  {
    var d := meta.sha256;
    forall x, y | d + x == e + y ensures false {
      PathInjective(d, x, e, y);
    }
    assert SidecarPath(e) != SidecarPath(d) && SidecarPath(e) != d + meta.ext;
    if SidecarPath(e) in dir && MetaAt(dir, env, e).Some? {
      var blob := BlobPath(MetaAt(dir, env, e).value);
      assert blob != SidecarPath(d) && blob != d + meta.ext;
    }
  }

  lemma StoreHasObject(dir: Directory, env: Env, meta: Meta, data: Bytes, wrote: int, used: int)
    requires env.Sound() && IsDigest(meta.sha256)
    requires SafeExt(meta.ext) && meta.ext != SIDECAR_EXT
    ensures var dir' := Stored(dir, env, meta, data, wrote, used);
            && HasObject(dir', env, meta.sha256) && MetaAt(dir', env, meta.sha256) == Some(meta)
            && ObjectAt(dir', env, meta.sha256) == Object(data, DescriptorOf(meta), wrote, used)
            && BlobPath(meta) == meta.sha256 + meta.ext
  {
    BlobNames(meta);
  }

  /** The name is that of a file of an object. */
  ghost predicate BelongsTo(dir: Directory, env: Env, n: string)
    requires DigestOf(n).Some?
  {
    var d := DigestOf(n).value;
    HasObject(dir, env, d) && n == if IsSidecar(n) then SidecarPath(d) else BlobPath(MetaAt(dir, env, d).value)
  }

  lemma StoredName(dir: Directory, env: Env, meta: Meta, data: Bytes, wrote: int, used: int, n: string)
    requires env.Sound() && IsDigest(meta.sha256) && !HasObject(dir, env, meta.sha256)
    requires SafeExt(meta.ext) && meta.ext != SIDECAR_EXT
    requires n in Stored(dir, env, meta, data, wrote, used) && (IsSidecar(n) || IsBlob(n))
    requires n in dir ==> BelongsTo(dir, env, n)
    ensures BelongsTo(Stored(dir, env, meta, data, wrote, used), env, n)
  {
    StoreHasObject(dir, env, meta, data, wrote, used);
    SidecarNames(meta.sha256);
    BlobNames(meta);
    if n in dir {
      StoreKeepsObjects(dir, env, meta, data, wrote, used, DigestOf(n).value);
    }
  }

  lemma StorePaired(dir: Directory, env: Env, meta: Meta, data: Bytes, wrote: int, used: int)
    requires env.Sound() && Paired(dir, env) && IsDigest(meta.sha256)
    requires !HasObject(dir, env, meta.sha256)
    requires SafeExt(meta.ext) && meta.ext != SIDECAR_EXT
    ensures Paired(Stored(dir, env, meta, data, wrote, used), env)
  {
    var dir' := Stored(dir, env, meta, data, wrote, used);
    forall n | n in dir' && (IsSidecar(n) || IsBlob(n)) ensures BelongsTo(dir', env, n) {
      StoredName(dir, env, meta, data, wrote, used, n);
    }
  }

  /** Writing a blob and its sidecar adds exactly that object. */
  lemma StoreAbs(dir: Directory, env: Env, meta: Meta, data: Bytes, wrote: int, used: int)
    requires env.Sound() && Paired(dir, env) && IsDigest(meta.sha256)
    requires !HasObject(dir, env, meta.sha256)
    requires SafeExt(meta.ext) && meta.ext != SIDECAR_EXT
    ensures var dir' := Stored(dir, env, meta, data, wrote, used);
            && Paired(dir', env)
            && Abs(dir', env) == Abs(dir, env)[meta.sha256 := Object(data, DescriptorOf(meta), wrote, used)]
  {
    var d := meta.sha256;
    var dir' := Stored(dir, env, meta, data, wrote, used);
    StorePaired(dir, env, meta, data, wrote, used);
    StoreHasObject(dir, env, meta, data, wrote, used);
    var m := Abs(dir, env)[d := Object(data, DescriptorOf(meta), wrote, used)];
    forall e | IsDigest(e)
      ensures HasObject(dir', env, e) <==> e in m
      ensures e in m ==> HasObject(dir', env, e) && m[e] == ObjectAt(dir', env, e)
    {
      AbsHas(dir, env, e);
      if e != d { StoreKeepsObjects(dir, env, meta, data, wrote, used, e); }
    }
    AbsKeysAreDigests(dir, env);
    AbsIs(dir', env, m);
  }

  // ----- reading -----

  function ReadSidecar(dir: Directory, env: Env, digest: string): Result<Meta, Error> {
    match Normalize(digest)
    case None => Err(NotFound)
    case Some(d) =>
      if SidecarPath(d) !in dir then Err(NotFound)
      else
        match MetaAt(dir, env, d)
        case Some(meta) => Ok(meta)
        case None => Err(BadSidecar)
  }

  /** What a reader is handed for a digest, in any directory whatever. */
  function ReadObject(dir: Directory, env: Env, digest: string): Result<Object, Error> {
    match ReadSidecar(dir, env, digest)
    case Err(e) => Err(e)
    case Ok(meta) =>
      var blob := BlobPath(meta);
      if blob !in dir then Err(NotFound)
      else Ok(Object(dir[blob].data, DescriptorOf(meta), dir[blob].mtime, dir[SidecarPath(meta.sha256)].mtime))
  }

  function Touched(dir: Directory, digest: string, now: int): Directory {
    match Normalize(digest)
    case Some(d) =>
      if SidecarPath(d) in dir then dir[SidecarPath(d) := dir[SidecarPath(d)].(mtime := now)] else dir
    case None => dir
  }

  /** In a paired directory reading is exactly the use of an object. */
  lemma ReadRefines(dir: Directory, env: Env, digest: string, now: int)
    requires Paired(dir, env)
    ensures var (objs, r) := UseObject(Abs(dir, env), digest, now);
            && ReadObject(dir, env, digest) == r
            && (r.Ok? ==> Paired(Touched(dir, digest, now), env) && Abs(Touched(dir, digest, now), env) == objs)
  {
    if Normalize(digest).Some? {
      var d := Normalize(digest).value;
      SidecarNames(d);
      AbsHas(dir, env, d);
      if SidecarPath(d) in dir {
        assert HasObject(dir, env, d);
        TouchAbs(dir, env, d, now);
      }
    }
  }

  // ----- storing -----

  /** Storing bytes in a paired directory is exactly PutObject, unless the extension is ".json". */
  lemma PutRefines(dir: Directory, env: Env, data: Bytes, mime: string, filename: string, wrote: int, used: int)
    requires env.Sound() && Paired(dir, env)
    requires env.FreshMeta(data, mime, filename).ext != SIDECAR_EXT
    ensures var meta := env.FreshMeta(data, mime, filename);
            var (objs, desc) := PutObject(Abs(dir, env), data, meta, wrote, used);
            match ReadObject(dir, env, meta.sha256)
            case Ok(obj) =>
              && desc == obj.desc
              && Paired(Touched(dir, meta.sha256, used), env) && Abs(Touched(dir, meta.sha256, used), env) == objs
            case Err(e) =>
              && e == NotFound && desc == DescriptorOf(meta)
              && meta.sha256 + meta.ext !in dir
              && Paired(Stored(dir, env, meta, data, wrote, used), env)
              && Abs(Stored(dir, env, meta, data, wrote, used), env) == objs
  {
    var meta := env.FreshMeta(data, mime, filename);
    ReadRefines(dir, env, meta.sha256, used);
    AbsHas(dir, env, meta.sha256);
    if meta.sha256 !in Abs(dir, env) {
      StoreAbs(dir, env, meta, data, wrote, used);
      BlobNames(meta);
    }
  }

  /** A sidecar written over its blob: the bytes are replaced by the document that describes them. */
  lemma FreshPut(dir: Directory, env: Env, data: Bytes, mime: string, filename: string, wrote: int, used: int)
    requires env.Sound()
    ensures var meta := env.FreshMeta(data, mime, filename);
            ReadObject(Stored(dir, env, meta, data, wrote, used), env, meta.sha256) ==
            Ok(if meta.ext == SIDECAR_EXT then Object(env.marshal(meta), DescriptorOf(meta), used, used)
               else Object(data, DescriptorOf(meta), wrote, used))
  {
    var meta := env.FreshMeta(data, mime, filename);
    BlobNames(meta);
  }

  lemma OrphanSidecarIsDoomed(dir: Directory, d: string, now: int, opts: Options)
    requires Tidy(dir) && IsDigest(d) && SidecarPath(d) in dir && d !in BlobDigests(dir)
    ensures SidecarPath(d) in Doomed(dir, now, opts)
  {
    SidecarNames(d);
    assert d in SidecarDigests(dir);
    assert d in Sidecars(dir).Keys - Blobs(dir).Keys;
  }

  lemma LostBlobLeavesOrphan(dir: Directory, env: Env, d: string, file: File)
    requires Paired(dir, env) && IsDigest(d) && !HasObject(dir, env, d)
    ensures Tidy(dir[SidecarPath(d) := file]) && d !in BlobDigests(dir[SidecarPath(d) := file])
  {
    var dir' := dir[SidecarPath(d) := file];
    SidecarNames(d);
    PairedIsTidy(dir, env);
    forall n | n in dir' && IsBlob(n) ensures n in dir && DigestOf(n).value != d {
      assert n in dir;
    }
  }

  // ----- the three operations on a directory, in any state -----

  function PutFiles(dir: Directory, env: Env, opts: Options, payload: Bytes, bounded: bool, mime: string,
                    filename: string, wrote: int, used: int, sidecarFails: bool): (Directory, Result<Descriptor, Error>)
    requires IsDigest(env.hash(payload))
  {
    var meta := env.FreshMeta(payload, mime, filename);
    match Refusal(payload, bounded, UploadLimit(opts))
    case Some(e) => (dir, Err(e))
    case None =>
      match ReadObject(dir, env, meta.sha256)
      case Ok(obj) => (Touched(dir, meta.sha256, used), Ok(obj.desc))
      case Err(e) =>
        if e != NotFound then (dir, Err(e))
        else if sidecarFails then (dir - {meta.sha256 + meta.ext}, Err(SidecarWrite))
        else (Stored(dir, env, meta, payload, wrote, used), Ok(DescriptorOf(meta)))
  }

  function LookupFiles(dir: Directory, env: Env, digest: string, now: int): (Directory, Result<Descriptor, Error>) {
    match ReadObject(dir, env, digest)
    case Ok(obj) => (Touched(dir, digest, now), Ok(obj.desc))
    case Err(e) => (dir, Err(e))
  }

  function OpenFiles(dir: Directory, env: Env, digest: string, now: int): (Directory,
                     Result<(Bytes, Descriptor, int), Error>) {
    match ReadObject(dir, env, digest)
    case Ok(obj) => (Touched(dir, digest, now), Ok((obj.data, obj.desc, obj.storedAt)))
    case Err(e) => (dir, Err(e))
  }

  // ----- a put followed by an open -----

  /**
   A put that succeeds makes its bytes readable if and only if the directory already read them back
   under their digest, or read nothing and the extension is not ".json". There the sidecar overwrites
   the blob, which only a payload equal to its own sidecar survives.
   */
  lemma PutThenOpen(dir: Directory, env: Env, opts: Options, data: Bytes, bounded: bool, mime: string,
                    filename: string, wrote: int, used: int, sidecarFails: bool)
    requires env.Sound()
    ensures var meta := env.FreshMeta(data, mime, filename);
            var before := ReadObject(dir, env, meta.sha256);
            var (dir', r) := PutFiles(dir, env, opts, data, bounded, mime, filename, wrote, used, sidecarFails);
            var after := ReadObject(dir', env, meta.sha256);
            r.Ok? ==>
              && after.Ok? && after.value.desc == r.value
              && (after.value.data == data <==>
                   if before.Ok? then before.value.data == data
                   else meta.ext != SIDECAR_EXT || env.marshal(meta) == data)
  {
    FreshPut(dir, env, data, mime, filename, wrote, used);
  }

  /** JSON documents are such payloads, and the next sweep discards what is left of them. */
  lemma JsonPayloadIsLost(dir: Directory, env: Env, data: Bytes, filename: string, wrote: int, used: int,
                          now: int, opts: Options)
    requires env.Sound() && Paired(dir, env) && !HasObject(dir, env, env.hash(data))
    requires env.baseType("application/json") == "application/json"
    requires env.systemExts("application/json") == [".json"]
    requires env.marshal(env.FreshMeta(data, "application/json", filename)) != data
    ensures var meta := env.FreshMeta(data, "application/json", filename);
            var dir' := Stored(dir, env, meta, data, wrote, used);
            && ReadObject(dir', env, meta.sha256).Ok? && ReadObject(dir', env, meta.sha256).value.data != data
            && Tidy(dir') && SidecarPath(meta.sha256) in Doomed(dir', now, opts)
  {
    var meta := env.FreshMeta(data, "application/json", filename);
    var d := meta.sha256;
    assert meta.ext == SanitizeExt(".json") == SIDECAR_EXT;
    var file := File(env.marshal(meta), used);
    assert Stored(dir, env, meta, data, wrote, used) == dir[SidecarPath(d) := file];
    FreshPut(dir, env, data, "application/json", filename, wrote, used);
    LostBlobLeavesOrphan(dir, env, d, file);
    OrphanSidecarIsDoomed(dir[SidecarPath(d) := file], d, now, opts);
  }

  lemma JsonAndText(env: Env, data: Bytes, filename: string)
    requires env.Sound()
    requires env.baseType("application/json") == "application/json" && env.baseType("text/plain") == "text/plain"
    requires env.systemExts("application/json") == [".json"]
    ensures env.FreshMeta(data, "application/json", filename).ext == SIDECAR_EXT
    ensures env.FreshMeta(data, "text/plain", filename).ext == ".txt"
  {
    assert SanitizeExt(".json") == SIDECAR_EXT;
  }

  /** A second put of the same bytes as plain text succeeds and does not bring them back. */
  lemma SecondPutIsLost(dir: Directory, env: Env, opts: Options, data: Bytes, filename: string, wrote: int, used: int,
                        wrote': int, used': int)
    requires env.Sound() && ReadObject(dir, env, env.hash(data)) == Err(NotFound)
    requires env.baseType("application/json") == "application/json" && env.baseType("text/plain") == "text/plain"
    requires env.systemExts("application/json") == [".json"]
    requires env.marshal(env.FreshMeta(data, "application/json", filename)) != data
    ensures var (dir1, r1) := PutFiles(dir, env, opts, data, false, "application/json", filename, wrote, used, false);
            var (dir2, r2) := PutFiles(dir1, env, opts, data, false, "text/plain", filename, wrote', used', false);
            && r1.Ok? && r2 == r1
            && env.FreshMeta(data, "text/plain", filename).ext == ".txt"
            && ReadObject(dir2, env, env.hash(data)).Ok? && ReadObject(dir2, env, env.hash(data)).value.data != data
  {
    JsonAndText(env, data, filename);
    var (dir1, _) := PutFiles(dir, env, opts, data, false, "application/json", filename, wrote, used, false);
    PutThenOpen(dir, env, opts, data, false, "application/json", filename, wrote, used, false);
    PutThenOpen(dir1, env, opts, data, false, "text/plain", filename, wrote', used', false);
  }

  // ----- what a sweep removes -----

  ghost function BlobDigests(dir: Directory): set<string> {
    set n | n in dir && IsBlob(n) :: DigestOf(n).value
  }

  ghost function BlobName(dir: Directory, d: string): string
    requires d in BlobDigests(dir)
  {
    var n :| n in dir && IsBlob(n) && DigestOf(n) == Some(d); n
  }

  function FileEntry(dir: Directory, name: string): Entry
    requires name in dir && DigestOf(name).Some?
  {
    Entry(DigestOf(name).value, name, |dir[name].data|, dir[name].mtime, dir[name].mtime)
  }

  ghost function Blobs(dir: Directory): Entries {
    map d | d in BlobDigests(dir) :: FileEntry(dir, BlobName(dir, d))
  }

  ghost function Sidecars(dir: Directory): map<string, int>
    requires Tidy(dir)
  {
    map d | d in SidecarDigests(dir) :: dir[SidecarPath(d)].mtime
  }

  /** Blobs that have a sidecar, with the sidecar's time as their last use. */
  ghost function PairedEntries(blobs: Entries, sidecars: map<string, int>): Entries {
    map d | d in blobs && d in sidecars :: blobs[d].(usedAt := sidecars[d])
  }

  ghost function StaleTemps(dir: Directory, now: int): set<string> {
    set n | n in dir && IsTemp(n) && now - dir[n].mtime > STALE_TEMP_AGE
  }

  ghost function SidecarPaths(ds: set<string>): set<string> {
    set d | d in ds :: SidecarPath(d)
  }

  ghost function BlobPaths(blobs: Entries, ds: set<string>): set<string> {
    set d | d in ds && d in blobs :: blobs[d].name
  }

  /** Digests whose blob and sidecar both go: the expired ones and those the cap removes. */
  ghost function Evicted(dir: Directory, now: int, opts: Options): set<string>
    requires Tidy(dir)
  {
    var es := PairedEntries(Blobs(dir), Sidecars(dir));
    Expired(es, now, opts) + CapVictims(es, Unexpired(es, now, opts), opts)
  }

  /** Every path a sweep tries to remove. */
  ghost function Doomed(dir: Directory, now: int, opts: Options): set<string>
    requires Tidy(dir)
  {
    var blobs, sidecars := Blobs(dir), Sidecars(dir);
    var evicted := Evicted(dir, now, opts);
    StaleTemps(dir, now)
    + SidecarPaths(sidecars.Keys - blobs.Keys)
    + BlobPaths(blobs, blobs.Keys - sidecars.Keys)
    + BlobPaths(blobs, evicted) + SidecarPaths(evicted)
  }
}
