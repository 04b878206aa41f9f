/** What a caller of the store may rely on over whole runs of operations on its directory. */
module StoreGuarantees {
  import opened Wrappers
  import opened MediaNames
  import opened MediaCache
  import opened MediaDirectory
  import opened LruRefinement
  import MediaRefinement

  ghost predicate Usable(env: Env, dir: Directory, ops: seq<Op>) {
    env.Sound() && Paired(dir, env) && Tidy(dir) && forall op :: op in ops ==> Storable(env, op)
  }

  /** The directory after a run. */
  ghost function StoreAfter(env: Env, opts: Options, dir: Directory, ops: seq<Op>): (r: Directory)
    requires Usable(env, dir, ops)
    ensures Paired(r, env) && Tidy(r)
    decreases |ops|
  {
    if ops == [] then dir
    else
      StoreRefinesObjects(env, opts, dir, ops[0]);
      StoreAfter(env, opts, StepStore(env, opts, dir, ops[0]).0, ops[1..])
  }

  /** The directory holds an object under the digest at every point of the run. */
  ghost predicate Remains(env: Env, opts: Options, dir: Directory, ops: seq<Op>, d: string)
    requires Usable(env, dir, ops)
    decreases |ops|
  {
    && d in Abs(dir, env)
    && (ops != [] ==>
         (StoreRefinesObjects(env, opts, dir, ops[0]);
          Remains(env, opts, StepStore(env, opts, dir, ops[0]).0, ops[1..], d)))
  }

  /** The same object up to its last use. */
  ghost predicate SameButUse(a: Object, b: Object) {
    a.data == b.data && a.desc == b.desc && a.storedAt == b.storedAt
  }

  lemma StepFreezes(env: Env, opts: Options, objs: Objects, op: Op, d: string)
    requires env.Sound() && d in objs && d in StepObjects(env, opts, objs, op).0
    ensures SameButUse(StepObjects(env, opts, objs, op).0[d], objs[d])
  {
  }

  /** As long as an object stays, its bytes, its descriptor and its age are those first stored. */
  lemma {:induction false} ObjectsAreFrozen(env: Env, opts: Options, dir: Directory, ops: seq<Op>, d: string)
    requires Usable(env, dir, ops) && Remains(env, opts, dir, ops, d)
    ensures var dir' := StoreAfter(env, opts, dir, ops);
            d in Abs(dir', env) && d in Abs(dir, env) && SameButUse(Abs(dir', env)[d], Abs(dir, env)[d])
    decreases |ops|
  {
    if ops != [] {
      StoreRefinesObjects(env, opts, dir, ops[0]);
      StepFreezes(env, opts, Abs(dir, env), ops[0], d);
      ObjectsAreFrozen(env, opts, StepStore(env, opts, dir, ops[0]).0, ops[1..], d);
    }
  }

  /** Every object is filed under the hash of its bytes and described by its own digest and size. */
  ghost predicate Faithful(env: Env, objs: Objects) {
    forall d :: d in objs ==>
      && IsDigest(d) && env.hash(objs[d].data) == d
      && objs[d].desc.sha256 == d && objs[d].desc.size == |objs[d].data|
  }

  lemma PutIsFaithful(env: Env, objs: Objects, data: Bytes, mime: string, filename: string, wrote: int, used: int)
    requires env.Sound() && Faithful(env, objs)
    ensures Faithful(env, PutObject(objs, data, env.FreshMeta(data, mime, filename), wrote, used).0)
  {
  }

  lemma StepIsFaithful(env: Env, opts: Options, objs: Objects, op: Op)
    requires env.Sound() && Faithful(env, objs)
    ensures Faithful(env, StepObjects(env, opts, objs, op).0)
  {
    match op {
      case Put(payload, _, mime, filename, wrote, _, at) =>
        PutIsFaithful(env, objs, payload, mime, filename, wrote, at);
      case Lookup(_, _) =>
      case Open(_, _) =>
      case Sweep(_) =>
    }
  }

  lemma {:induction false} RunIsFaithful(env: Env, opts: Options, dir: Directory, ops: seq<Op>)
    requires Usable(env, dir, ops) && Faithful(env, Abs(dir, env))
    ensures Faithful(env, Abs(StoreAfter(env, opts, dir, ops), env))
    decreases |ops|
  {
    if ops != [] {
      StoreRefinesObjects(env, opts, dir, ops[0]);
      StepIsFaithful(env, opts, Abs(dir, env), ops[0]);
      RunIsFaithful(env, opts, StepStore(env, opts, dir, ops[0]).0, ops[1..]);
    }
  }

  lemma OpenSees(env: Env, opts: Options, dir: Directory, d: string, at: int)
    requires Usable(env, dir, []) && d in Abs(dir, env)
    ensures var obj := Abs(dir, env)[d];
            StepStore(env, opts, dir, Open(d, at)).1 == Opened(Ok((obj.data, obj.desc, obj.storedAt)))
  {
    AbsKeysAreDigests(dir, env);
    ReadRefines(dir, env, d, at);
  }

  lemma PutIsSeen(env: Env, opts: Options, objs: Objects, put: Op)
    requires env.Sound() && put.Put? && Faithful(env, objs)
    requires var out := StepObjects(env, opts, objs, put).1; out.Described? && out.desc.Ok?
    requires forall data :: env.hash(data) == env.hash(put.payload) ==> data == put.payload
    ensures var (objs', out) := StepObjects(env, opts, objs, put);
            var d := env.hash(put.payload);
            d in objs' && objs'[d].data == put.payload && objs'[d].desc == out.desc.value
  {
    var d := env.hash(put.payload);
    assert d in objs ==> env.hash(objs[d].data) == d;
  }

  /**
   After any run, bytes accepted by a put open to themselves under the descriptor the put returned,
   however much happens in between, until they are evicted.
   */
  lemma StoredBytesComeBack(env: Env, opts: Options, before: seq<Op>, put: Op, after: seq<Op>, start: Directory,
                            stored: Directory, out: Outcome, at: int)
    requires Usable(env, map[], before) && put.Put? && Storable(env, put)
    requires start == StoreAfter(env, opts, map[], before) && (stored, out) == StepStore(env, opts, start, put)
    requires out.Described? && out.desc.Ok? && Usable(env, stored, after)
    requires Remains(env, opts, stored, after, env.hash(put.payload))
    requires forall data :: env.hash(data) == env.hash(put.payload) ==> data == put.payload
    ensures var open := StepStore(env, opts, StoreAfter(env, opts, stored, after), Open(env.hash(put.payload), at)).1;
            && open.Opened? && open.handle.Ok?
            && open.handle.value.0 == put.payload && open.handle.value.1 == out.desc.value
  {
    assert Abs(map[], env) == map[];
    RunIsFaithful(env, opts, map[], before);
    StoreRefinesObjects(env, opts, start, put);
    PutIsSeen(env, opts, Abs(start, env), put);
    ObjectsAreFrozen(env, opts, stored, after, env.hash(put.payload));
    OpenSees(env, opts, StoreAfter(env, opts, stored, after), env.hash(put.payload), at);
  }

  lemma ExpiredIsSwept(objs: Objects, now: int, opts: Options, d: string)
    requires d in objs && opts.ttl > 0 && now - objs[d].storedAt > opts.ttl
    ensures d !in SweepObjects(objs, now, opts)
  {
  }

  /** Uses never delay expiry: a sweep removes every object stored longer ago than the TTL, whatever was read since. */
  lemma ExpiryIsHard(env: Env, opts: Options, dir: Directory, ops: seq<Op>, d: string, now: int)
    requires Usable(env, dir, ops) && Remains(env, opts, dir, ops, d) && d in Abs(dir, env)
    requires opts.ttl > 0 && now - Abs(dir, env)[d].storedAt > opts.ttl
    ensures var after := StoreAfter(env, opts, dir, ops); d !in Abs(after - Doomed(after, now, opts), env)
  {
    ObjectsAreFrozen(env, opts, dir, ops, d);
    MediaRefinement.SweepRefines(StoreAfter(env, opts, dir, ops), env, now, opts);
    ExpiredIsSwept(Abs(StoreAfter(env, opts, dir, ops), env), now, opts, d);
  }
}
