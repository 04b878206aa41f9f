/** Schema migrations, each in its own transaction, forwards and backwards, with failures at any point. */
module Migrations {
  import opened Wrappers
  import opened Sorting

  datatype Migration = Migration(version: int, name: string, up: string, down: string)

  // ----- loading -----

  datatype Direction = Up | Down

  /** A migration file, its name already taken apart. */
  datatype File = File(version: int, name: string, direction: Direction, body: string)

  datatype LoadError = MismatchedNames(version: int) | MissingUp(version: int) | MissingDown(version: int)

  const BY_VERSION := (a: Migration, b: Migration) => a.version < b.version

  ghost predicate Ordered(migs: seq<Migration>) {
    forall i, j :: 0 <= i < j < |migs| ==> migs[i].version < migs[j].version
  }

  function LastBody(files: seq<File>, version: int, direction: Direction): string {
    if files == [] then ""
    else if files[|files| - 1].version == version && files[|files| - 1].direction == direction then
      files[|files| - 1].body
    else LastBody(files[..|files| - 1], version, direction)
  }

  ghost predicate SameNames(files: seq<File>) {
    forall f, g :: f in files && g in files && f.version == g.version ==> f.name == g.name
  }

  /** What has been read of each version. */
  ghost predicate IsRead(byVersion: map<int, Migration>, files: seq<File>) {
    && SameNames(files)
    && (forall f :: f in files ==> f.version in byVersion && byVersion[f.version].name == f.name)
    && (forall v :: v in byVersion ==> IsReadOf(byVersion[v], files, v))
  }

  ghost predicate IsReadOf(m: Migration, files: seq<File>, v: int) {
    && m.version == v && (exists f :: f in files && f.version == v)
    && m.up == LastBody(files, v, Up) && m.down == LastBody(files, v, Down)
  }

  /** The versions in an order in which they may be visited. */
  ghost predicate Enumerates(order: seq<int>, byVersion: map<int, Migration>) {
    && NoDuplicates(order)
    && (forall i :: 0 <= i < |order| ==> order[i] in byVersion)
    && (forall v :: v in byVersion ==> v in order)
  }

  method ReadFiles(files: seq<File>) returns (r: Result<map<int, Migration>, LoadError>, order: seq<int>)
    ensures r.Ok? <==> SameNames(files)
    ensures r.Ok? ==> IsRead(r.value, files) && Enumerates(order, r.value)
    ensures r.Err? ==> r.error.MismatchedNames?
  {
    var byVersion: map<int, Migration> := map[];
    order := [];
    for i := 0 to |files|
      invariant IsRead(byVersion, files[..i]) && Enumerates(order, byVersion)
    {
      var f := files[i];
      ghost var before := byVersion;
      if f.version !in byVersion {
        byVersion := byVersion[f.version := Migration(f.version, f.name, "", "")];
        order := order + [f.version];
      } else if byVersion[f.version].name != f.name {
        Conflict(before, files, i);
        return Err(MismatchedNames(f.version)), order;
      }
      var m := byVersion[f.version];
      byVersion := byVersion[f.version := if f.direction == Up then m.(up := f.body) else m.(down := f.body)];
      ReadNext(before, byVersion, files, i);
    }
    assert files[..|files|] == files;
    return Ok(byVersion), order;
  }

  lemma Conflict(before: map<int, Migration>, files: seq<File>, i: nat)
    requires i < |files| && IsRead(before, files[..i])
    requires files[i].version in before && before[files[i].version].name != files[i].name
    ensures !SameNames(files)
  {
    var f :| f in files[..i] && f.version == files[i].version;
    assert f in files && files[i] in files;
  }

  lemma {:induction false} NoBody(files: seq<File>, version: int, direction: Direction)
    requires forall f :: f in files ==> f.version != version
    ensures LastBody(files, version, direction) == ""
  {
    if files != [] {
      NoBody(files[..|files| - 1], version, direction);
    }
  }

  lemma ReadNext(before: map<int, Migration>, after: map<int, Migration>, files: seq<File>, i: nat)
    requires i < |files| && IsRead(before, files[..i])
    requires files[i].version in before ==> before[files[i].version].name == files[i].name
    requires var f := files[i];
             var m := if f.version in before then before[f.version] else Migration(f.version, f.name, "", "");
             after == before[f.version := if f.direction == Up then m.(up := f.body) else m.(down := f.body)]
    ensures IsRead(after, files[..i + 1])
  {
    var f, more := files[i], files[..i + 1];
    assert more == files[..i] + [f];
    forall v | v in after ensures IsReadOf(after[v], more, v) {
      if v == f.version {
        ReadSame(before, after, files, i);
      } else {
        ReadOther(before[v], files, i, v);
      }
    }
  }

  lemma ReadOther(m: Migration, files: seq<File>, i: nat, v: int)
    requires i < |files| && files[i].version != v && IsReadOf(m, files[..i], v)
    ensures IsReadOf(m, files[..i + 1], v)
  {
    assert files[..i + 1][..i] == files[..i];
    var g :| g in files[..i] && g.version == v;
    assert g in files[..i + 1];
  }

  lemma ReadSame(before: map<int, Migration>, after: map<int, Migration>, files: seq<File>, i: nat)
    requires i < |files| && IsRead(before, files[..i]) && files[i].version in after
    requires var f := files[i];
             var m := if f.version in before then before[f.version] else Migration(f.version, f.name, "", "");
             after[f.version] == if f.direction == Up then m.(up := f.body) else m.(down := f.body)
    ensures IsReadOf(after[files[i].version], files[..i + 1], files[i].version)
  {
    var f := files[i];
    assert files[..i + 1][..i] == files[..i] && f in files[..i + 1];
    if f.version !in before {
      NoBody(files[..i], f.version, Up);
      NoBody(files[..i], f.version, Down);
    }
  }

  ghost predicate DistinctVersions(migs: seq<Migration>) {
    forall i, j :: 0 <= i < j < |migs| ==> migs[i].version != migs[j].version
  }

  predicate Complete(m: Migration, trim: string -> string) {
    trim(m.up) != "" && trim(m.down) != ""
  }

  predicate IsEntry(byVersion: map<int, Migration>, m: Migration) {
    m.version in byVersion && m == byVersion[m.version]
  }

  method Gather(byVersion: map<int, Migration>, order: seq<int>, trim: string -> string)
    returns (r: Result<seq<Migration>, LoadError>)
    requires Enumerates(order, byVersion) && forall v :: v in byVersion ==> byVersion[v].version == v
    ensures r.Ok? ==> DistinctVersions(r.value) && forall m :: m in r.value <==> IsEntry(byVersion, m)
    ensures r.Ok? <==> forall v :: v in byVersion ==> Complete(byVersion[v], trim)
  {
    var out: seq<Migration> := [];
    for i := 0 to |order|
      invariant |out| == i
      invariant forall k :: 0 <= k < i ==> out[k] == byVersion[order[k]] && Complete(out[k], trim)
    {
      var m := byVersion[order[i]];
      assert m.version == order[i] && (Complete(m, trim) <==> trim(m.up) != "" && trim(m.down) != "");
      if trim(m.up) == "" {
        return Err(MissingUp(m.version));
      }
      if trim(m.down) == "" {
        assert !Complete(byVersion[order[i]], trim);
        return Err(MissingDown(m.version));
      }
      out := out + [m];
    }
    AllGathered(byVersion, order, out);
    return Ok(out);
  }

  lemma AllGathered(byVersion: map<int, Migration>, order: seq<int>, out: seq<Migration>)
    requires Enumerates(order, byVersion) && forall v :: v in byVersion ==> byVersion[v].version == v
    requires |out| == |order| && forall k :: 0 <= k < |out| ==> out[k] == byVersion[order[k]]
    ensures DistinctVersions(out) && forall m :: m in out <==> IsEntry(byVersion, m)
    ensures forall v :: v in byVersion ==> byVersion[v] in out
  {
    assert forall k :: 0 <= k < |out| ==> out[k].version == order[k];
    forall v | v in byVersion ensures byVersion[v] in out {
      var k :| 0 <= k < |order| && order[k] == v;
      assert out[k] == byVersion[v];
    }
  }

  /** The migrations in the order of their versions, each with both directions. */
  method LoadMigrations(files: seq<File>, trim: string -> string) returns (r: Result<seq<Migration>, LoadError>)
    ensures r.Ok? ==> Ordered(r.value) && SameNames(files)
    ensures r.Ok? ==> forall m :: m in r.value ==> Complete(m, trim) && IsReadOf(m, files, m.version)
    ensures r.Ok? ==> forall f :: f in files ==> exists m :: m in r.value && m.version == f.version && m.name == f.name
    ensures r.Err? ==> !SameNames(files) || exists f, d :: f in files && trim(LastBody(files, f.version, d)) == ""
  {
    var read, order := ReadFiles(files);
    if read.Err? {
      return Err(read.error);
    }
    var byVersion := read.value;
    var gathered := Gather(byVersion, order, trim);
    if gathered.Err? {
      Incomplete(byVersion, files, trim);
      return Err(gathered.error);
    }
    var out := gathered.value;
    SortedVersions(out);
    forall f | f in files ensures exists m :: m in Sort(out, BY_VERSION) && m.version == f.version && m.name == f.name {
      assert byVersion[f.version] in Sort(out, BY_VERSION);
    }
    return Ok(Sort(out, BY_VERSION));
  }

  lemma Incomplete(byVersion: map<int, Migration>, files: seq<File>, trim: string -> string)
    requires IsRead(byVersion, files) && exists v :: v in byVersion && !Complete(byVersion[v], trim)
    ensures exists f, d :: f in files && trim(LastBody(files, f.version, d)) == ""
  {
    var v :| v in byVersion && !Complete(byVersion[v], trim);
    assert IsReadOf(byVersion[v], files, v);
    var f :| f in files && f.version == v;
    assert trim(LastBody(files, f.version, Up)) == "" || trim(LastBody(files, f.version, Down)) == "";
  }

  lemma SortedVersions(out: seq<Migration>)
    requires DistinctVersions(out)
    ensures Ordered(Sort(out, BY_VERSION)) && forall m :: m in Sort(out, BY_VERSION) <==> m in out
  {
    var r := Sort(out, BY_VERSION);
    SortSorted(out, BY_VERSION);
    PermutationNoDuplicates(out, r);
    forall m ensures m in r <==> m in out {
      SortMembers(out, BY_VERSION, m);
    }
    forall i, j | 0 <= i < j < |r| ensures r[i].version < r[j].version {
      assert r[i] in out && r[j] in out;
    }
  }

  // ----- the database -----

  /** What goes wrong in one run: which steps the database refuses. */
  datatype Faults = Faults(create: bool, lookups: set<int>, transactions: set<int>)

  datatype MigrationError = CreateFailed | LookupFailed(version: int) | TransactionFailed(version: int)

  datatype Command = Forward(faults: Faults) | Back(target: int, faults: Faults)

  const NO_FAULTS := Faults(false, {}, {})

  /** The schema after running the given migrations on an empty database. */
  function Built<S>(migs: seq<Migration>, empty: S, run: (string, S) -> S): S {
    if migs == [] then empty else run(migs[|migs| - 1].up, Built(migs[..|migs| - 1], empty, run))
  }

  ghost function Versions(migs: seq<Migration>): set<int> {
    set m | m in migs :: m.version
  }

  /** Every down undoes its up, on the schema the ups before it build. */
  ghost predicate Invertible<S(!new)>(migs: seq<Migration>, empty: S, run: (string, S) -> S) {
    forall i :: 0 <= i < |migs| ==> run(migs[i].down, Built(migs[..i + 1], empty, run)) == Built(migs[..i], empty, run)
  }

  class Database<S(!new)> {
    const empty: S
    const run: (string, S) -> S
    var tracked: bool
    var applied: set<int>
    var schema: S

    constructor (empty: S, run: (string, S) -> S)
      ensures this.empty == empty && this.run == run && !tracked && applied == {} && schema == empty
    {
      this.empty := empty;
      this.run := run;
      tracked, applied, schema := false, {}, empty;
    }

    /** The first `k` migrations are applied, no others, and the schema is the one they build. */
    ghost predicate AtPrefix(migs: seq<Migration>, k: nat)
      reads this
    {
      && k <= |migs| && (k > 0 ==> tracked)
      && applied == Versions(migs[..k]) && schema == Built(migs[..k], empty, run)
    }

    method IsApplied(version: int, faults: Faults) returns (r: Result<bool, MigrationError>)
      ensures r == if !tracked || version in faults.lookups then Err(LookupFailed(version)) else Ok(version in applied)
    {
      if !tracked || version in faults.lookups {
        return Err(LookupFailed(version));
      }
      return Ok(version in applied);
    }

    /** A transaction: both the schema and the version change, or neither. */
    method ApplyUp(m: Migration, faults: Faults) returns (ok: bool)
      modifies this
      ensures tracked == old(tracked) && ok == (m.version !in faults.transactions)
      ensures ok ==> applied == old(applied) + {m.version} && schema == run(m.up, old(schema))
      ensures !ok ==> applied == old(applied) && schema == old(schema)
    {
      ok := m.version !in faults.transactions;
      if ok {
        schema := run(m.up, schema);
        applied := applied + {m.version};
      }
    }

    method ApplyDown(m: Migration, faults: Faults) returns (ok: bool)
      modifies this
      ensures tracked == old(tracked) && ok == (m.version !in faults.transactions)
      ensures ok ==> applied == old(applied) - {m.version} && schema == run(m.down, old(schema))
      ensures !ok ==> applied == old(applied) && schema == old(schema)
    {
      ok := m.version !in faults.transactions;
      if ok {
        schema := run(m.down, schema);
        applied := applied - {m.version};
      }
    }

    /** One turn of the upward loop. */
    method StepUp(migs: seq<Migration>, i: nat, faults: Faults, ghost k: nat) returns (r: Result<(), MigrationError>)
      requires Ordered(migs) && i < |migs| && tracked && AtPrefix(migs, Larger(k, i))
      modifies this
      ensures tracked
      ensures r.Ok? ==> AtPrefix(migs, Larger(k, i + 1))
      ensures r.Err? ==> AtPrefix(migs, Larger(k, i))
      ensures var v := migs[i].version;
              r == if v in faults.lookups then Err(LookupFailed(v))
                   else if i >= k && v in faults.transactions then Err(TransactionFailed(v)) else Ok(())
    {
      AppliedIsBelow(migs, Larger(k, i), i);
      var m := migs[i];
      var found := IsApplied(m.version, faults);
      if found.Err? {
        return Err(found.error);
      }
      if !found.value {
        NextPrefix(migs, i, empty, run);
        var ok := ApplyUp(m, faults);
        if !ok {
          return Err(TransactionFailed(m.version));
        }
      }
      return Ok(());
    }

    /** Applies what is pending, oldest first, and stops at the first failure. */
    method Migrate(migs: seq<Migration>, faults: Faults, ghost k: nat)
      returns (r: Result<(), MigrationError>, ghost n: nat)
      requires Ordered(migs) && AtPrefix(migs, k)
      modifies this
      ensures AtPrefix(migs, n) && k <= n
      ensures UpOutcome(migs, k, n, r, faults)
      ensures r.Ok? ==> tracked
    {
      n := k;
      r := Ok(());
      if faults.create {
        return Err(CreateFailed), n;
      }
      tracked := true;
      for i := 0 to |migs|
        invariant tracked && AtPrefix(migs, n) && n == Larger(k, i) && r.Ok?
      {
        r := StepUp(migs, i, faults, k);
        if r.Err? {
          return r, n;
        }
        n := Larger(k, i + 1);
      }
    }

    /** One turn of the downward loop. */
    method StepDown(migs: seq<Migration>, i: nat, faults: Faults, ghost k: nat) returns (r: Result<(), MigrationError>)
      requires Ordered(migs) && Invertible(migs, empty, run) && i < |migs| && AtPrefix(migs, Smaller(k, i + 1))
      modifies this
      ensures tracked == old(tracked)
      ensures r.Ok? ==> AtPrefix(migs, Smaller(k, i))
      ensures r.Err? ==> AtPrefix(migs, Smaller(k, i + 1))
      ensures var v := migs[i].version;
              r == if !tracked || v in faults.lookups then Err(LookupFailed(v))
                   else if i < k && v in faults.transactions then Err(TransactionFailed(v)) else Ok(())
    {
      AppliedIsBelow(migs, Smaller(k, i + 1), i);
      var m := migs[i];
      var found := IsApplied(m.version, faults);
      if found.Err? {
        return Err(found.error);
      }
      if found.value {
        NextPrefix(migs, i, empty, run);
        var ok := ApplyDown(m, faults);
        if !ok {
          return Err(TransactionFailed(m.version));
        }
      }
      return Ok(());
    }

    /** Reverts everything newer than `target`, newest first, and stops at the first failure. */
    method MigrateDown(migs: seq<Migration>, target: int, faults: Faults, ghost k: nat)
      returns (r: Result<(), MigrationError>, ghost n: nat)
      requires Ordered(migs) && Invertible(migs, empty, run) && AtPrefix(migs, k)
      modifies this
      ensures AtPrefix(migs, n) && n <= k
      ensures tracked == old(tracked) && DownOutcome(migs, k, n, target, r, faults, tracked)
    {
      n := k;
      r := Ok(());
      var i := |migs|;
      while i > 0 && migs[i - 1].version > target
        invariant 0 <= i <= |migs| && tracked == old(tracked) && r.Ok?
        invariant AtPrefix(migs, n) && n == Smaller(k, i)
        invariant forall j :: i <= j < |migs| ==> migs[j].version > target
      {
        i := i - 1;
        r := StepDown(migs, i, faults, k);
        if r.Err? {
          DownFails(migs, k, i, target, r, faults, tracked);
          return r, n;
        }
        n := Smaller(k, i);
      }
      DownEnds(migs, k, i, target, faults, tracked);
    }

    /** Any run of upward and downward migrations, each with its own failures, stays at a prefix of the list. */
    method Replay(migs: seq<Migration>, commands: seq<Command>) returns (ghost n: nat)
      requires Ordered(migs) && Invertible(migs, empty, run) && AtPrefix(migs, 0)
      modifies this
      ensures AtPrefix(migs, n)
    {
      n := 0;
      for i := 0 to |commands|
        invariant AtPrefix(migs, n)
      {
        match commands[i] {
          case Forward(faults) =>
            var r;
            r, n := Migrate(migs, faults, n);
          case Back(target, faults) =>
            var r;
            r, n := MigrateDown(migs, target, faults, n);
        }
      }
    }

    /** The newest applied version, or 0; a database that was never migrated has no versions to read. */
    method CurrentVersion(migs: seq<Migration>, ghost k: nat) returns (r: Option<int>)
      requires Ordered(migs) && AtPrefix(migs, k)
      ensures r == if !tracked then None else if k == 0 then Some(0) else Some(migs[k - 1].version)
    {
      NewestOfPrefix(migs, k);
      if !tracked {
        return None;
      }
      if applied == {} {
        return Some(0);
      }
      var v :| v in applied && forall w :: w in applied ==> w <= v;
      return Some(v);
    }
  }

  lemma NewestOfPrefix(migs: seq<Migration>, k: nat)
    requires Ordered(migs) && k <= |migs|
    ensures k == 0 ==> Versions(migs[..k]) == {}
    ensures k > 0 ==>
            && migs[k - 1].version in Versions(migs[..k])
            && forall w :: w in Versions(migs[..k]) ==> w <= migs[k - 1].version
  {
    if k > 0 {
      assert migs[..k][k - 1] in migs[..k];
    }
  }

  // ----- outcomes -----

  function Larger(a: nat, b: nat): nat {
    if a < b then b else a
  }

  function Smaller(a: nat, b: nat): nat {
    if a < b then a else b
  }

  /** Where an upward run from `k` ends: at the end of the list, or at the step that failed. */
  ghost predicate UpOutcome(migs: seq<Migration>, k: nat, n: nat, r: Result<(), MigrationError>, faults: Faults) {
    match r
    case Ok(_) => n == |migs| && !faults.create
    case Err(CreateFailed) => n == k && faults.create
    case Err(LookupFailed(v)) =>
      v in faults.lookups && exists j: nat :: j < |migs| && migs[j].version == v && n == Larger(k, j)
    case Err(TransactionFailed(v)) => v in faults.transactions && n < |migs| && migs[n].version == v
  }

  /** Where a downward run from `k` ends: with nothing above the target, or at the step that failed. */
  ghost predicate DownOutcome(migs: seq<Migration>, k: nat, n: nat, target: int, r: Result<(), MigrationError>,
                              faults: Faults, tracked: bool)
    requires n <= |migs| && k <= |migs|
  {
    match r
    case Ok(_) =>
      && (forall j :: 0 <= j < n ==> migs[j].version <= target)
      && (forall j :: n <= j < k ==> migs[j].version > target)
    case Err(CreateFailed) => false
    case Err(LookupFailed(v)) =>
      && v > target && (!tracked || v in faults.lookups)
      && exists j: nat :: j < |migs| && migs[j].version == v && n == Smaller(k, j + 1)
    case Err(TransactionFailed(v)) => v > target && v in faults.transactions && n > 0 && migs[n - 1].version == v
  }

  lemma DownFails(migs: seq<Migration>, k: nat, i: nat, target: int, r: Result<(), MigrationError>, faults: Faults,
                  tracked: bool)
    requires k <= |migs| && i < |migs| && migs[i].version > target && r.Err?
    requires var v := migs[i].version;
             r == if !tracked || v in faults.lookups then Err(LookupFailed(v))
                  else if i < k && v in faults.transactions then Err(TransactionFailed(v)) else Ok(())
    ensures DownOutcome(migs, k, Smaller(k, i + 1), target, r, faults, tracked)
  {
  }

  lemma DownEnds(migs: seq<Migration>, k: nat, i: nat, target: int, faults: Faults, tracked: bool)
    requires Ordered(migs) && k <= |migs| && i <= |migs| && (i > 0 ==> migs[i - 1].version <= target)
    requires forall j :: i <= j < |migs| ==> migs[j].version > target
    ensures DownOutcome(migs, k, Smaller(k, i), target, Ok(()), faults, tracked)
  {
  }

  /** In an ordered list the versions of a prefix are exactly those before its end. */
  lemma AppliedIsBelow(migs: seq<Migration>, n: nat, i: nat)
    requires Ordered(migs) && n <= |migs| && i < |migs|
    ensures migs[i].version in Versions(migs[..n]) <==> i < n
  {
    if i < n {
      assert migs[..n][i] in migs[..n];
    }
  }

  lemma NextPrefix<S>(migs: seq<Migration>, n: nat, empty: S, run: (string, S) -> S)
    requires Ordered(migs) && n < |migs|
    ensures Versions(migs[..n + 1]) == Versions(migs[..n]) + {migs[n].version}
    ensures Versions(migs[..n]) == Versions(migs[..n + 1]) - {migs[n].version}
    ensures Built(migs[..n + 1], empty, run) == run(migs[n].up, Built(migs[..n], empty, run))
  {
    assert migs[..n + 1] == migs[..n] + [migs[n]];
    AppliedIsBelow(migs, n, n);
  }

  /** Whatever failed before, a run without failures completes the schema. */
  lemma RetryCompletes(migs: seq<Migration>, k: nat, n: nat, r: Result<(), MigrationError>)
    requires UpOutcome(migs, k, n, r, NO_FAULTS)
    ensures r.Ok? && n == |migs|
  {
  }

  /** Undoing and migrating again gives back the full schema; undoing everything reaches the empty one. */
  lemma DownThenUp(migs: seq<Migration>, k: nat, target: int, n: nat, down: Result<(), MigrationError>, m: nat,
                   up: Result<(), MigrationError>)
    requires k <= |migs| && n <= k && DownOutcome(migs, k, n, target, down, NO_FAULTS, true)
        && UpOutcome(migs, n, m, up, NO_FAULTS)
    ensures down.Ok? && m == |migs|
    ensures (forall i :: 0 <= i < k ==> migs[i].version > target) ==> n == 0
  {
    RetryCompletes(migs, n, m, up);
    assert n == 0 || migs[0].version <= target;
  }

  /** A list that only grows at its end keeps the invariant of databases migrated with the shorter one. */
  lemma LongerList<S(!new)>(db: Database<S>, migs: seq<Migration>, more: seq<Migration>, k: nat)
    requires db.AtPrefix(migs, k) && migs <= more
    ensures db.AtPrefix(more, k)
  {
    assert more[..k] == migs[..k];
  }
}
