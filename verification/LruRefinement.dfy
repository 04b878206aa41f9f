/** Under a strictly increasing clock, every run of the store is a run of that cache. */
module LruRefinement {
  import opened Wrappers
  import opened MediaNames
  import opened MediaCache
  import opened MediaDirectory
  import MediaRefinement
  import MediaSweep
  import Q = LruQueue
  import Sums

  datatype Op =
    | Put(payload: Bytes, bounded: bool, mime: string, filename: string, wrote: int, sidecarFails: bool, at: int)
    | Lookup(digest: string, at: int)
    | Open(digest: string, at: int)
    | Sweep(at: int)

  datatype Outcome =
    | Described(desc: Result<Descriptor, Error>)
    | Opened(handle: Result<(Bytes, Descriptor, int), Error>)
    | Swept(report: SweepResult)

  // ----- the store: its directory, step by step -----

  /** One operation on the directory, as the methods of the store specify it. */
  ghost function StepStore(env: Env, opts: Options, dir: Directory, op: Op): (Directory, Outcome)
    requires env.Sound() && Tidy(dir)
  {
    match op
    case Put(payload, bounded, mime, filename, wrote, fails, at) =>
      var (dir', r) := PutFiles(dir, env, opts, payload, bounded, mime, filename, wrote, at, fails);
      (dir', Described(r))
    case Lookup(digest, at) => var (dir', r) := LookupFiles(dir, env, digest, at); (dir', Described(r))
    case Open(digest, at) => var (dir', r) := OpenFiles(dir, env, digest, at); (dir', Opened(r))
    case Sweep(at) => (dir - Doomed(dir, at, opts), Swept(MediaSweep.SweepReport(dir, at, opts)))
  }

  // ----- the objects, step by step -----

  /** A put of bytes on the objects: refused, deduplicated, failed or stored. */
  ghost function PutOnObjects(env: Env, opts: Options, objs: Objects, payload: Bytes, bounded: bool, mime: string,
                              filename: string, wrote: int, used: int, fails: bool)
    : (Objects, Result<Descriptor, Error>)
    requires env.Sound()
  {
    var meta := env.FreshMeta(payload, mime, filename);
    match Refusal(payload, bounded, UploadLimit(opts))
    case Some(e) => (objs, Err(e))
    case None =>
      if meta.sha256 !in objs && fails then (objs, Err(SidecarWrite))
      else var (objs', desc) := PutObject(objs, payload, meta, wrote, used); (objs', Ok(desc))
  }

  ghost function StepObjects(env: Env, opts: Options, objs: Objects, op: Op): (Objects, Outcome)
    requires env.Sound()
  {
    match op
    case Put(payload, bounded, mime, filename, wrote, fails, at) =>
      var (objs', r) := PutOnObjects(env, opts, objs, payload, bounded, mime, filename, wrote, at, fails);
      (objs', Described(r))
    case Lookup(digest, at) =>
      (match UseObject(objs, digest, at)
       case (objs', Ok(obj)) => (objs', Described(Ok(obj.desc)))
       case (objs', Err(e)) => (objs', Described(Err(e))))
    case Open(digest, at) =>
      (match UseObject(objs, digest, at)
       case (objs', Ok(obj)) => (objs', Opened(Ok((obj.data, obj.desc, obj.storedAt))))
       case (objs', Err(e)) => (objs', Opened(Err(e))))
    case Sweep(at) => (SweepObjects(objs, at, opts), Swept(ReportOf(EntriesOf(objs), at, opts)))
  }

  // ----- the queue, step by step -----

  function StepQueue(env: Env, opts: Options, q: Q.Queue, op: Op): (Q.Queue, Outcome)
    requires op.Put? ==> IsDigest(env.hash(op.payload))
  {
    match op
    case Put(payload, bounded, mime, filename, wrote, fails, _) =>
      var meta := env.FreshMeta(payload, mime, filename);
      (match Refusal(payload, bounded, UploadLimit(opts))
       case Some(e) => (q, Described(Err(e)))
       case None =>
         if meta.sha256 !in q.items && fails then (q, Described(Err(SidecarWrite)))
         else var (q', desc) := Q.Put(q, payload, meta, wrote); (q', Described(Ok(desc))))
    case Lookup(digest, _) =>
      (match Q.Read(q, digest)
       case (q', Ok(item)) => (q', Described(Ok(item.desc)))
       case (q', Err(e)) => (q', Described(Err(e))))
    case Open(digest, _) =>
      (match Q.Read(q, digest)
       case (q', Ok(item)) => (q', Opened(Ok((item.data, item.desc, item.storedAt))))
       case (q', Err(e)) => (q', Opened(Err(e))))
    case Sweep(at) => var (q', report) := Q.Sweep(q, at, opts); (q', Swept(report))
  }

  /** The extension chosen for a payload is not ".json" (see PutThenOpen). */
  ghost predicate Storable(env: Env, op: Op)
    requires env.Sound()
  {
    op.Put? ==> env.FreshMeta(op.payload, op.mime, op.filename).ext != SIDECAR_EXT
  }

  lemma PutFilesRefine(env: Env, opts: Options, dir: Directory, payload: Bytes, bounded: bool, mime: string,
                       filename: string, wrote: int, used: int, fails: bool)
    requires env.Sound() && Paired(dir, env) && env.FreshMeta(payload, mime, filename).ext != SIDECAR_EXT
    ensures var (dir', r) := PutFiles(dir, env, opts, payload, bounded, mime, filename, wrote, used, fails);
            && Paired(dir', env)
            && (Abs(dir', env), r) ==
               PutOnObjects(env, opts, Abs(dir, env), payload, bounded, mime, filename, wrote, used, fails)
  {
    var meta := env.FreshMeta(payload, mime, filename);
    PutRefines(dir, env, payload, mime, filename, wrote, used);
    ReadHits(dir, env, meta.sha256);
    RemoveAbsent(dir, meta.sha256 + meta.ext);
  }

  lemma ReadHits(dir: Directory, env: Env, d: string)
    requires Paired(dir, env) && IsDigest(d)
    ensures ReadObject(dir, env, d).Ok? <==> d in Abs(dir, env)
  {
    ReadRefines(dir, env, d, 0);
  }

  lemma RemoveAbsent(dir: Directory, path: string)
    ensures path !in dir ==> dir - {path} == dir
  {
  }

  /** Each operation on the directory is the same operation on the objects it holds. */
  lemma StoreRefinesObjects(env: Env, opts: Options, dir: Directory, op: Op)
    requires env.Sound() && Paired(dir, env) && Tidy(dir) && Storable(env, op)
    ensures var (dir', out) := StepStore(env, opts, dir, op);
            Paired(dir', env) && Tidy(dir') && (Abs(dir', env), out) == StepObjects(env, opts, Abs(dir, env), op)
  {
    match op {
      case Put(payload, bounded, mime, filename, wrote, fails, at) =>
        PutFilesRefine(env, opts, dir, payload, bounded, mime, filename, wrote, at, fails);
      case Lookup(digest, at) => ReadRefines(dir, env, digest, at);
      case Open(digest, at) => ReadRefines(dir, env, digest, at);
      case Sweep(at) =>
        MediaRefinement.SweepRefines(dir, env, at, opts);
        MediaRefinement.ReportRefines(dir, env, at, opts);
    }
    PairedIsTidy(StepStore(env, opts, dir, op).0, env);
  }

  // ----- the queue order is the order of last use -----

  function ItemOf(obj: Object): Q.Item {
    Q.Item(obj.data, obj.desc, obj.storedAt)
  }

  ghost predicate Represents(q: Q.Queue, objs: Objects, clock: int) {
    && q.items.Keys == objs.Keys
    && (forall d :: d in objs ==> q.items[d] == ItemOf(objs[d]) && objs[d].usedAt <= clock)
    && (forall d :: d in q.order <==> d in objs)
    && Ascending(q.order, objs)
  }

  ghost predicate Ascending(order: seq<string>, objs: Objects) {
    && (forall i :: 0 <= i < |order| ==> order[i] in objs)
    && (forall i, j :: 0 <= i < j < |order| ==> objs[order[i]].usedAt < objs[order[j]].usedAt)
  }

  lemma AscendingTail(order: seq<string>, objs: Objects)
    requires Ascending(order, objs) && order != []
    ensures Ascending(order[1..], objs)
    ensures forall e :: e in order[1..] ==> e in objs && objs[order[0]].usedAt < objs[e].usedAt
  {
    forall e | e in order[1..] ensures e in objs && objs[order[0]].usedAt < objs[e].usedAt {
      var i :| 0 <= i < |order[1..]| && order[1..][i] == e;
      assert order[i + 1] == e;
    }
  }

  lemma AscendingPrepend(x: string, rest: seq<string>, objs: Objects)
    requires Ascending(rest, objs) && x in objs
    requires forall e :: e in rest ==> e in objs && objs[x].usedAt < objs[e].usedAt
    ensures Ascending([x] + rest, objs)
  {
  }

  lemma {:induction false} WithoutMembers(order: seq<string>, d: string)
    ensures forall e :: e in Q.Without(order, d) <==> e in order && e != d
  {
    if order != [] {
      WithoutMembers(order[1..], d);
      assert order == [order[0]] + order[1..];
    }
  }

  lemma {:induction false} WithoutIs(order: seq<string>, objs: Objects, d: string)
    requires Ascending(order, objs)
    ensures Ascending(Q.Without(order, d), objs) && forall e :: e in Q.Without(order, d) <==> e in order && e != d
  {
    WithoutMembers(order, d);
    if order != [] {
      AscendingTail(order, objs);
      WithoutIs(order[1..], objs, d);
      AscendingPrepend(order[0], Q.Without(order[1..], d), objs);
    }
  }

  lemma UseRepresents(q: Q.Queue, objs: Objects, clock: int, d: string, at: int)
    requires Represents(q, objs, clock) && d in objs && clock < at
    ensures Represents(Q.Use(q, d), Touch(objs, d, at), at)
  {
    WithoutIs(q.order, objs, d);
    var rest, objs' := Q.Without(q.order, d), Touch(objs, d, at);
    assert forall i :: 0 <= i < |rest| ==> rest[i] in rest;
    assert Ascending(rest + [d], objs');
  }

  lemma PutRepresents(q: Q.Queue, objs: Objects, clock: int, data: Bytes, meta: Meta, wrote: int, at: int)
    requires Represents(q, objs, clock) && clock < at
    ensures var (objs', desc) := PutObject(objs, data, meta, wrote, at);
            var (q', desc') := Q.Put(q, data, meta, wrote);
            desc == desc' && Represents(q', objs', at)
  {
    if meta.sha256 in objs {
      UseRepresents(q, objs, clock, meta.sha256, at);
    } else {
      AscendingAppend(q.order, objs, clock, meta.sha256, Object(data, DescriptorOf(meta), wrote, at));
    }
  }

  lemma AscendingAppend(order: seq<string>, objs: Objects, clock: int, d: string, obj: Object)
    requires Ascending(order, objs) && d !in objs && clock < obj.usedAt
    requires forall e :: e in objs ==> objs[e].usedAt <= clock
    ensures Ascending(order + [d], objs[d := obj])
  {
  }

  // ----- sweeping the queue -----

  lemma {:induction false} FreshIs(order: seq<string>, items: map<string, Q.Item>, objs: Objects, now: int,
                                   opts: Options)
    requires Ascending(order, objs) && forall d :: d in objs ==> d in items && items[d] == ItemOf(objs[d])
    ensures var young := Q.Fresh(order, items, now, opts);
            && Ascending(young, objs)
            && forall d :: d in young <==> d in order && !IsExpired(EntriesOf(objs)[d], now, opts)
  {
    if order != [] {
      var young := Q.Fresh(order[1..], items, now, opts);
      FreshIs(order[1..], items, objs, now, opts);
      AscendingTail(order, objs);
      assert EntriesOf(objs)[order[0]].storedAt == items[order[0]].storedAt;
      assert order == [order[0]] + order[1..];
      AscendingPrepend(order[0], young, objs);
    }
  }

  ghost function Members(order: seq<string>): set<string> {
    set d | d in order
  }

  lemma MembersOf(order: seq<string>, objs: Objects)
    requires Ascending(order, objs) && order != []
    ensures Members(order) == Members(order[1..]) + {order[0]} && order[0] !in Members(order[1..])
  {
    AscendingTail(order, objs);
    assert order == [order[0]] + order[1..];
  }

  lemma {:induction false} TotalIsSum(order: seq<string>, items: map<string, Q.Item>, objs: Objects)
    requires Ascending(order, objs) && forall d :: d in objs ==> d in items && items[d] == ItemOf(objs[d])
    ensures Q.Total(order, items) == Sums.Sum(Members(order), Sizes(EntriesOf(objs)))
  {
    if order != [] {
      AscendingTail(order, objs);
      TotalIsSum(order[1..], items, objs);
      MembersOf(order, objs);
      Sums.SumAdd(Members(order[1..]), order[0], Sizes(EntriesOf(objs)));
    } else {
      assert Members(order) == {};
    }
  }

  lemma InSuffix(order: seq<string>, objs: Objects, k: nat, i: nat)
    requires Ascending(order, objs) && k < |order| && i < |order|
    ensures order[i] in order[k..] <==> k <= i
  {
    if k <= i {
      assert order[k..][i - k] == order[i];
    }
    if order[i] in order[k..] {
      var j :| 0 <= j < |order[k..]| && order[k..][j] == order[i];
      assert order[k + j] == order[i];
    }
  }

  lemma OlderIsEarlier(order: seq<string>, objs: Objects, k: nat, i: nat)
    requires Ascending(order, objs) && k < |order| && i < |order|
    ensures var es := EntriesOf(objs); Before(es[order[i]], es[order[k]]) <==> i < k
  {
    var es := EntriesOf(objs);
    if i == k {
      BeforeIsStrictTotal(es[order[i]], es[order[i]], es[order[i]]);
    }
  }

  /** In an ascending queue, what was used no earlier than a member is the queue from that member on. */
  lemma SuffixIsNoOlder(order: seq<string>, objs: Objects, k: nat)
    requires Ascending(order, objs) && k < |order|
    ensures NoOlder(EntriesOf(objs), Members(order), order[k]) == Members(order[k..])
  {
    var es := EntriesOf(objs);
    forall d | d in Members(order) ensures d in Members(order[k..]) <==> !Before(es[d], es[order[k]]) {
      var i :| 0 <= i < |order| && order[i] == d;
      InSuffix(order, objs, k, i);
      OlderIsEarlier(order, objs, k, i);
    }
  }

  /** What Fit keeps is a suffix; everything it drops did not fit, and the rest does. */
  lemma {:induction false} FitIsSuffix(order: seq<string>, items: map<string, Q.Item>, opts: Options) returns (k: nat)
    ensures k <= |order| && Q.Fit(order, items, opts) == order[k..]
    ensures k > 0 ==> opts.maxBytes > 0
    ensures opts.maxBytes > 0 ==> Q.Total(order[k..], items) <= opts.maxBytes
    ensures forall j :: 0 <= j < k ==> Q.Total(order[j..], items) > opts.maxBytes
  {
    if order == [] || opts.maxBytes == 0 || Q.Total(order, items) <= opts.maxBytes {
      k := 0;
      assert order[0..] == order;
    } else {
      var n := FitIsSuffix(order[1..], items, opts);
      k := n + 1;
      assert order[1..][n..] == order[k..];
      forall j | 0 <= j < k ensures Q.Total(order[j..], items) > opts.maxBytes {
        if j > 0 {
          assert order[1..][j - 1..] == order[j..];
        } else {
          assert order[0..] == order;
        }
      }
    }
  }

  /** The i-th member is dropped exactly when it and everything behind it exceed the cap. */
  lemma OverCapIsTotal(young: seq<string>, items: map<string, Q.Item>, objs: Objects, opts: Options, i: nat)
    requires Ascending(young, objs) && forall d :: d in objs ==> d in items && items[d] == ItemOf(objs[d])
    requires Members(young) <= objs.Keys && i < |young|
    ensures OverCap(EntriesOf(objs), Members(young), young[i], opts) <==>
            opts.maxBytes > 0 && Q.Total(young[i..], items) > opts.maxBytes
  {
    SuffixIsNoOlder(young, objs, i);
    TotalIsSum(young[i..], items, objs);
  }

  lemma {:induction false} TotalShrinks(order: seq<string>, items: map<string, Q.Item>, k: nat)
    requires k <= |order|
    ensures Q.Total(order[k..], items) <= Q.Total(order, items)
  {
    if k == 0 {
      assert order[0..] == order;
    } else {
      assert order[1..][k - 1..] == order[k..];
      TotalShrinks(order[1..], items, k - 1);
    }
  }

  lemma KeptIfNotOverCap(young: seq<string>, items: map<string, Q.Item>, objs: Objects, opts: Options, k: nat, i: nat)
    requires Ascending(young, objs) && forall d :: d in objs ==> d in items && items[d] == ItemOf(objs[d])
    requires Members(young) <= objs.Keys && i < |young| && k <= |young|
    requires k > 0 ==> opts.maxBytes > 0
    requires opts.maxBytes > 0 ==> Q.Total(young[k..], items) <= opts.maxBytes
    requires i < k ==> Q.Total(young[i..], items) > opts.maxBytes
    ensures k <= i <==> !OverCap(EntriesOf(objs), Members(young), young[i], opts)
  {
    OverCapIsTotal(young, items, objs, opts, i);
    if k <= i {
      assert young[k..][i - k..] == young[i..];
      TotalShrinks(young[k..], items, i - k);
    }
  }

  lemma SuffixMembers(order: seq<string>, k: nat)
    requires k <= |order|
    ensures Members(order[k..]) <= Members(order)
    ensures forall d :: d in Members(order) <==> exists i :: 0 <= i < |order| && order[i] == d
  {
  }

  lemma FitKeepsSurvivors(young: seq<string>, items: map<string, Q.Item>, objs: Objects, opts: Options)
    requires Ascending(young, objs) && forall d :: d in objs ==> d in items && items[d] == ItemOf(objs[d])
    requires Members(young) <= objs.Keys
    ensures var kept := Q.Fit(young, items, opts);
            && Ascending(kept, objs)
            && Members(kept) == Members(young) - CapVictims(EntriesOf(objs), Members(young), opts)
  {
    var k := FitIsSuffix(young, items, opts);
    var victims := CapVictims(EntriesOf(objs), Members(young), opts);
    forall i | 0 <= i < |young| ensures young[i] in young[k..] <==> young[i] !in victims {
      KeptIfNotOverCap(young, items, objs, opts, k, i);
      if k < |young| { InSuffix(young, objs, k, i); }
      assert young[i] in Members(young);
    }
    SuffixMembers(young, k);
  }

  /** The members of the queue that a sweep passes on, and those it keeps. */
  lemma SweptMembers(q: Q.Queue, objs: Objects, clock: int, now: int, opts: Options)
    requires Represents(q, objs, clock)
    ensures var young := Q.Fresh(q.order, q.items, now, opts);
            var kept := Q.Fit(young, q.items, opts);
            && Ascending(young, objs) && Ascending(kept, objs)
            && Members(q.order) == objs.Keys
            && Members(young) == Unexpired(EntriesOf(objs), now, opts)
            && Members(kept) == Survivors(objs, now, opts)
  {
    FreshIs(q.order, q.items, objs, now, opts);
    var young := Q.Fresh(q.order, q.items, now, opts);
    assert Members(young) == Unexpired(EntriesOf(objs), now, opts);
    FitKeepsSurvivors(young, q.items, objs, opts);
  }

  lemma SweepRepresents(q: Q.Queue, objs: Objects, clock: int, now: int, opts: Options)
    requires Represents(q, objs, clock)
    ensures Represents(Q.Sweep(q, now, opts).0, SweepObjects(objs, now, opts), clock)
  {
    SweptMembers(q, objs, clock, now, opts);
    var kept := Q.Fit(Q.Fresh(q.order, q.items, now, opts), q.items, opts);
    forall d ensures d in kept <==> d in SweepObjects(objs, now, opts) {
      assert d in kept <==> d in Members(kept);
    }
  }

  lemma {:induction false} MemberCount(order: seq<string>, objs: Objects)
    requires Ascending(order, objs)
    ensures |Members(order)| == |order|
  {
    if order == [] {
      assert Members(order) == {};
    } else {
      AscendingTail(order, objs);
      MembersOf(order, objs);
      MemberCount(order[1..], objs);
    }
  }

  /** Counts of what expired, what the cap removed and what is left. */
  lemma CountsAre(all: set<string>, live: set<string>, victims: set<string>)
    requires victims <= live <= all
    ensures |all - live| == |all| - |live| && |victims| == |live| - |live - victims|
    ensures all - live + victims + (live - victims) == all && all - (all - live + victims) == live - victims
  {
    assert (all - live) + live == all;
    assert victims + (live - victims) == live;
  }

  lemma ReportIs(es: Entries, now: int, opts: Options)
    ensures var live, r := Unexpired(es, now, opts), ReportOf(es, now, opts);
            var kept := live - CapVictims(es, live, opts);
            && r.scanned == |es.Keys| == r.expired + |live| && |live| == r.evicted + |kept|
            && r.freed + r.remaining == Sums.Sum(es.Keys, Sizes(es)) && r.remaining == Sums.Sum(kept, Sizes(es))
  {
    var live := Unexpired(es, now, opts);
    var victims := CapVictims(es, live, opts);
    CountsAre(es.Keys, live, victims);
    Sums.SumUnion(es.Keys - live + victims, live - victims, Sizes(es));
    assert Expired(es, now, opts) == es.Keys - live;
  }

  /** What a queue of these members counts. */
  ghost predicate Counts(order: seq<string>, items: map<string, Q.Item>, es: Entries, members: set<string>) {
    |order| == |members| && Q.Total(order, items) == Sums.Sum(members, Sizes(es))
  }

  lemma QueueCounts(order: seq<string>, items: map<string, Q.Item>, objs: Objects)
    requires Ascending(order, objs) && forall d :: d in objs ==> d in items && items[d] == ItemOf(objs[d])
    ensures Counts(order, items, EntriesOf(objs), Members(order))
  {
    MemberCount(order, objs);
    TotalIsSum(order, items, objs);
  }

  lemma SweptCounts(q: Q.Queue, objs: Objects, clock: int, now: int, opts: Options)
    requires Represents(q, objs, clock)
    ensures var es := EntriesOf(objs);
            var live, young := Unexpired(es, now, opts), Q.Fresh(q.order, q.items, now, opts);
            && Counts(q.order, q.items, es, es.Keys) && Counts(young, q.items, es, live)
            && Counts(Q.Fit(young, q.items, opts), q.items, es, live - CapVictims(es, live, opts))
  {
    var young := Q.Fresh(q.order, q.items, now, opts);
    SweptMembers(q, objs, clock, now, opts);
    QueueCounts(q.order, q.items, objs);
    QueueCounts(young, q.items, objs);
    QueueCounts(Q.Fit(young, q.items, opts), q.items, objs);
    assert EntriesOf(objs).Keys == objs.Keys;
  }

  lemma SweepReports(q: Q.Queue, objs: Objects, clock: int, now: int, opts: Options)
    requires Represents(q, objs, clock)
    ensures Q.Sweep(q, now, opts).1 == ReportOf(EntriesOf(objs), now, opts)
  {
    SweptCounts(q, objs, clock, now, opts);
    ReportIs(EntriesOf(objs), now, opts);
  }

  lemma ObjectsRefineQueue(env: Env, opts: Options, q: Q.Queue, objs: Objects, clock: int, op: Op)
    requires env.Sound() && Represents(q, objs, clock) && clock < op.at
    ensures var (objs', out) := StepObjects(env, opts, objs, op);
            var (q', out') := StepQueue(env, opts, q, op);
            out == out' && Represents(q', objs', op.at)
  {
    match op {
      case Put(payload, bounded, mime, filename, wrote, fails, at) =>
        PutRepresents(q, objs, clock, payload, env.FreshMeta(payload, mime, filename), wrote, at);
      case Lookup(digest, at) =>
        if Normalize(digest).Some? && Normalize(digest).value in objs {
          UseRepresents(q, objs, clock, Normalize(digest).value, at);
        }
      case Open(digest, at) =>
        if Normalize(digest).Some? && Normalize(digest).value in objs {
          UseRepresents(q, objs, clock, Normalize(digest).value, at);
        }
      case Sweep(at) =>
        SweepRepresents(q, objs, clock, at, opts);
        SweepReports(q, objs, clock, at, opts);
    }
  }

  // ----- whole runs -----

  ghost predicate Ticking(ops: seq<Op>, clock: int) {
    ops != [] ==> clock < ops[0].at && Ticking(ops[1..], ops[0].at)
  }

  /** What the callers of a store see over a run. */
  ghost function StoreRun(env: Env, opts: Options, dir: Directory, ops: seq<Op>): seq<Outcome>
    requires env.Sound() && Paired(dir, env) && Tidy(dir) && forall op :: op in ops ==> Storable(env, op)
    decreases |ops|
  {
    if ops == [] then []
    else
      StoreRefinesObjects(env, opts, dir, ops[0]);
      var (dir', out) := StepStore(env, opts, dir, ops[0]);
      [out] + StoreRun(env, opts, dir', ops[1..])
  }

  ghost function QueueRun(env: Env, opts: Options, q: Q.Queue, ops: seq<Op>): seq<Outcome>
    requires env.Sound()
    decreases |ops|
  {
    if ops == [] then []
    else
      var (q', out) := StepQueue(env, opts, q, ops[0]);
      [out] + QueueRun(env, opts, q', ops[1..])
  }

  lemma {:induction false} RunsAgree(env: Env, opts: Options, dir: Directory, q: Q.Queue, clock: int, ops: seq<Op>)
    requires env.Sound() && Paired(dir, env) && Tidy(dir) && forall op :: op in ops ==> Storable(env, op)
    requires Represents(q, Abs(dir, env), clock) && Ticking(ops, clock)
    ensures StoreRun(env, opts, dir, ops) == QueueRun(env, opts, q, ops)
    decreases |ops|
  {
    if ops != [] {
      StoreRefinesObjects(env, opts, dir, ops[0]);
      ObjectsRefineQueue(env, opts, q, Abs(dir, env), clock, ops[0]);
      var dir', q' := StepStore(env, opts, dir, ops[0]).0, StepQueue(env, opts, q, ops[0]).0;
      RunsAgree(env, opts, dir', q', ops[0].at, ops[1..]);
    }
  }

  /** The store is an expiring LRU cache: from an empty directory no caller can tell them apart. */
  lemma StoreIsLruCache(env: Env, opts: Options, clock: int, ops: seq<Op>)
    requires env.Sound() && Ticking(ops, clock) && forall op :: op in ops ==> Storable(env, op)
    ensures Paired(map[], env) && Tidy(map[])
    ensures StoreRun(env, opts, map[], ops) == QueueRun(env, opts, Q.EMPTY, ops)
  {
    assert Abs(map[], env) == map[];
    RunsAgree(env, opts, map[], Q.EMPTY, clock, ops);
  }
}
