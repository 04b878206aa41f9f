/**
 The cache the store is meant to be: a queue of objects, least recently used first, with a hard
 expiry. No use times are kept; the queue is the recency.
 */
module LruQueue {
  import opened Wrappers
  import opened MediaNames
  import opened MediaCache

  datatype Item = Item(data: Bytes, desc: Descriptor, storedAt: int)

  datatype Queue = Queue(order: seq<string>, items: map<string, Item>)

  const EMPTY := Queue([], map[])

  function Without(order: seq<string>, d: string): seq<string> {
    if order == [] then []
    else if order[0] == d then Without(order[1..], d)
    else [order[0]] + Without(order[1..], d)
  }

  function Use(q: Queue, d: string): Queue {
    q.(order := Without(q.order, d) + [d])
  }

  function Put(q: Queue, data: Bytes, meta: Meta, wrote: int): (Queue, Descriptor) {
    if meta.sha256 in q.items then (Use(q, meta.sha256), q.items[meta.sha256].desc)
    else
      var item := Item(data, DescriptorOf(meta), wrote);
      (Queue(q.order + [meta.sha256], q.items[meta.sha256 := item]), item.desc)
  }

  function Read(q: Queue, digest: string): (Queue, Result<Item, Error>) {
    match Normalize(digest)
    case Some(d) => if d in q.items then (Use(q, d), Ok(q.items[d])) else (q, Err(NotFound))
    case None => (q, Err(NotFound))
  }

  function Total(order: seq<string>, items: map<string, Item>): nat {
    if order == [] then 0
    else (if order[0] in items then |items[order[0]].data| else 0) + Total(order[1..], items)
  }

  function Fresh(order: seq<string>, items: map<string, Item>, now: int, opts: Options): (r: seq<string>)
    ensures |r| <= |order| && Total(r, items) <= Total(order, items)
  {
    if order == [] then []
    else if order[0] in items && opts.ttl > 0 && now - items[order[0]].storedAt > opts.ttl then
      Fresh(order[1..], items, now, opts)
    else
      var rest := Fresh(order[1..], items, now, opts);
      assert ([order[0]] + rest)[1..] == rest;
      [order[0]] + rest
  }

  /** Drops from the front of the queue until the rest fits. */
  function Fit(order: seq<string>, items: map<string, Item>, opts: Options): (r: seq<string>)
    ensures |r| <= |order| && Total(r, items) <= Total(order, items)
  {
    if order == [] || opts.maxBytes == 0 || Total(order, items) <= opts.maxBytes then order
    else Fit(order[1..], items, opts)
  }

  /** The queue after a sweep, and what was counted. */
  function Sweep(q: Queue, now: int, opts: Options): (Queue, SweepResult) {
    var young := Fresh(q.order, q.items, now, opts);
    var kept := Fit(young, q.items, opts);
    (Queue(kept, map d | d in q.items && d in kept :: q.items[d]),
     SweepResult(|q.order|, |q.order| - |young|, |young| - |kept|, Total(q.order, q.items) - Total(kept, q.items),
                 Total(kept, q.items)))
  }
}
