/** Filtering, sorting and paging the merged conversations. */
module ConversationList {
  import opened Wrappers
  import opened GoValues
  import CalendarKeys
  import Lex
  import opened Sorting
  import opened Aliases
  import opened Conversations

  // ----- filter -----

  predicate Contains(s: string, sub: string) {
    exists i | 0 <= i <= |s| :: IsAt(s, sub, i)
  }

  predicate IsAt(s: string, sub: string, i: nat) {
    i + |sub| <= |s| && s[i..i + |sub|] == sub
  }

  /** The merged name or one of the JIDs contains the needle, both in lower case. */
  predicate Hit(c: Conv, needle: string, lower: string -> string) {
    || (c.name != "" && Contains(lower(c.name), needle))
    || exists j | j in c.jids :: Contains(lower(j), needle)
  }

  function Kept(convs: seq<Conv>, needle: string, lower: string -> string): seq<Conv> {
    if convs == [] then []
    else
      var last := convs[|convs| - 1];
      Kept(convs[..|convs| - 1], needle, lower) + if Hit(last, needle, lower) then [last] else []
  }

  function Filtered(convs: seq<Conv>, query: Option<string>, lower: string -> string): seq<Conv> {
    if query.None? || query.value == "" then convs else Kept(convs, lower(query.value), lower)
  }

  lemma KeptNext(convs: seq<Conv>, i: nat, needle: string, lower: string -> string)
    requires i < |convs|
    ensures Kept(convs[..i + 1], needle, lower) ==
            Kept(convs[..i], needle, lower) + if Hit(convs[i], needle, lower) then [convs[i]] else []
  {
    assert convs[..i + 1][..i] == convs[..i];
  }

  method IsHit(c: Conv, needle: string, lower: string -> string) returns (hit: bool)
    ensures hit == Hit(c, needle, lower)
  {
    hit := c.name != "" && Contains(lower(c.name), needle);
    if !hit {
      for i := 0 to |c.jids|
        invariant !hit && forall k :: 0 <= k < i ==> !Contains(lower(c.jids[k]), needle)
      {
        if Contains(lower(c.jids[i]), needle) {
          return true;
        }
      }
    }
  }

  /** Filters within the array: what is kept moves to the front, and is what a filter of a copy would keep. */
  method FilterConversations(a: array<Conv>, query: Option<string>, lower: string -> string) returns (n: nat)
    modifies a
    ensures n <= a.Length && a[..n] == Filtered(old(a[..]), query, lower)
  {
    if query.None? || query.value == "" {
      return a.Length;
    }
    var needle := lower(query.value);
    ghost var all := a[..];
    n := 0;
    for i := 0 to a.Length
      invariant n <= i && n == |Kept(all[..i], needle, lower)|
      invariant a[..n] == Kept(all[..i], needle, lower)
      invariant forall k :: i <= k < a.Length ==> a[k] == all[k]
    {
      var c := a[i];
      KeptNext(all, i, needle, lower);
      var hit := IsHit(c, needle, lower);
      if hit {
        ghost var kept := a[..n];
        a[n] := c;
        assert a[..n + 1] == kept + [c];
        n := n + 1;
      }
    }
    assert all[..a.Length] == all;
  }

  lemma {:induction false} KeptMembers(convs: seq<Conv>, needle: string, lower: string -> string)
    ensures forall c :: c in Kept(convs, needle, lower) <==> c in convs && Hit(c, needle, lower)
    ensures DistinctJids(convs) ==> DistinctJids(Kept(convs, needle, lower))
  {
    if convs != [] {
      var front, last := convs[..|convs| - 1], convs[|convs| - 1];
      KeptMembers(front, needle, lower);
      assert convs == front + [last];
      assert DistinctJids(convs) ==> DistinctJids(front) && last.jid !in set c | c in front :: c.jid;
    }
  }

  ghost predicate DistinctJids(convs: seq<Conv>) {
    forall i, j :: 0 <= i < j < |convs| ==> convs[i].jid != convs[j].jid
  }

  // ----- sort -----

  /** Most recently active first, then by JID. */
  const BY_ACTIVITY := (a: Conv, b: Conv) =>
    if a.lastTime != b.lastTime then Lex.Less(b.lastTime, a.lastTime) else Lex.Less(a.jid, b.jid)

  /** By name, the untitled ones last, then by JID. */
  const BY_NAME := (a: Conv, b: Conv) =>
    if (a.name == "") != (b.name == "") then a.name != ""
    else if a.name != b.name then Lex.Less(a.name, b.name)
    else Lex.Less(a.jid, b.jid)

  datatype SortMode = LastActive | Name

  function Order(mode: SortMode): (Conv, Conv) -> bool {
    match mode
    case LastActive => BY_ACTIVITY
    case Name => BY_NAME
  }

  lemma ActivityAsymmetric(x: Conv, y: Conv)
    requires BY_ACTIVITY(x, y)
    ensures !BY_ACTIVITY(y, x)
  {
    if x.lastTime != y.lastTime {
      Lex.Asymmetric(y.lastTime, x.lastTime);
    } else {
      Lex.Asymmetric(x.jid, y.jid);
    }
  }

  lemma ActivityTransitive(x: Conv, y: Conv, z: Conv)
    requires BY_ACTIVITY(x, y) && BY_ACTIVITY(y, z)
    ensures BY_ACTIVITY(x, z)
  {
    if x.lastTime != y.lastTime && y.lastTime != z.lastTime {
      Lex.Transitive(z.lastTime, y.lastTime, x.lastTime);
      Lex.Asymmetric(z.lastTime, x.lastTime);
    } else if x.lastTime == y.lastTime == z.lastTime {
      Lex.Transitive(x.jid, y.jid, z.jid);
    }
  }

  lemma ActivityConnected(x: Conv, y: Conv)
    requires x.jid != y.jid
    ensures BY_ACTIVITY(x, y) || BY_ACTIVITY(y, x)
  {
    Lex.Connected(x.lastTime, y.lastTime);
    Lex.Connected(x.jid, y.jid);
  }

  lemma ActivitySplits(x: Conv, y: Conv, z: Conv)
    requires BY_ACTIVITY(x, z)
    ensures BY_ACTIVITY(x, y) || BY_ACTIVITY(y, z)
  {
    Lex.Connected(x.lastTime, y.lastTime);
    Lex.Connected(x.jid, y.jid);
    if Lex.Less(z.lastTime, x.lastTime) && Lex.Less(x.lastTime, y.lastTime) {
      Lex.Transitive(z.lastTime, x.lastTime, y.lastTime);
      Lex.Asymmetric(z.lastTime, y.lastTime);
    }
    if Lex.Less(y.jid, x.jid) && Lex.Less(x.jid, z.jid) {
      Lex.Transitive(y.jid, x.jid, z.jid);
    }
  }

  lemma NameAsymmetric(x: Conv, y: Conv)
    requires BY_NAME(x, y)
    ensures !BY_NAME(y, x)
  {
    if (x.name == "") == (y.name == "") {
      if x.name != y.name {
        Lex.Asymmetric(x.name, y.name);
      } else {
        Lex.Asymmetric(x.jid, y.jid);
      }
    }
  }

  lemma NameTransitive(x: Conv, y: Conv, z: Conv)
    requires BY_NAME(x, y) && BY_NAME(y, z)
    ensures BY_NAME(x, z)
  {
    if x.name != y.name && y.name != z.name && y.name != "" && z.name != "" {
      Lex.Transitive(x.name, y.name, z.name);
      Lex.Asymmetric(x.name, z.name);
    } else if x.name == y.name == z.name {
      Lex.Transitive(x.jid, y.jid, z.jid);
    }
  }

  lemma NameConnected(x: Conv, y: Conv)
    requires x.jid != y.jid
    ensures BY_NAME(x, y) || BY_NAME(y, x)
  {
    Lex.Connected(x.name, y.name);
    Lex.Connected(x.jid, y.jid);
  }

  lemma NameSplits(x: Conv, y: Conv, z: Conv)
    requires BY_NAME(x, z)
    ensures BY_NAME(x, y) || BY_NAME(y, z)
  {
    Lex.Connected(x.name, y.name);
    Lex.Connected(x.jid, y.jid);
    if Lex.Less(y.name, x.name) && Lex.Less(x.name, z.name) {
      Lex.Transitive(y.name, x.name, z.name);
      Lex.Asymmetric(y.name, z.name);
    }
    if Lex.Less(y.jid, x.jid) && Lex.Less(x.jid, z.jid) {
      Lex.Transitive(y.jid, x.jid, z.jid);
    }
  }

  /** Both modes are strict orders that decide between any two conversations with different JIDs. */
  lemma OrderIsStrict(mode: SortMode)
    ensures StrictWeakOrder(Order(mode))
    ensures forall x: Conv, y: Conv :: x.jid != y.jid ==> Order(mode)(x, y) || Order(mode)(y, x)
  {
    match mode {
      case LastActive =>
        forall x, y | BY_ACTIVITY(x, y) ensures !BY_ACTIVITY(y, x) { ActivityAsymmetric(x, y); }
        forall x, y, z | BY_ACTIVITY(x, y) && BY_ACTIVITY(y, z) ensures BY_ACTIVITY(x, z) {
          ActivityTransitive(x, y, z);
        }
        forall x, y, z | BY_ACTIVITY(x, z) ensures BY_ACTIVITY(x, y) || BY_ACTIVITY(y, z) { ActivitySplits(x, y, z); }
        forall x: Conv, y: Conv | x.jid != y.jid ensures BY_ACTIVITY(x, y) || BY_ACTIVITY(y, x) {
          ActivityConnected(x, y);
        }
      case Name =>
        forall x, y | BY_NAME(x, y) ensures !BY_NAME(y, x) { NameAsymmetric(x, y); }
        forall x, y, z | BY_NAME(x, y) && BY_NAME(y, z) ensures BY_NAME(x, z) { NameTransitive(x, y, z); }
        forall x, y, z | BY_NAME(x, z) ensures BY_NAME(x, y) || BY_NAME(y, z) { NameSplits(x, y, z); }
        forall x: Conv, y: Conv | x.jid != y.jid ensures BY_NAME(x, y) || BY_NAME(y, x) { NameConnected(x, y); }
    }
  }

  method SortConversations(a: array<Conv>, n: nat, mode: SortMode)
    requires n <= a.Length
    modifies a
    ensures a[..n] == Sort(old(a[..n]), Order(mode)) && a[n..] == old(a[n..])
  {
    var sorted := Sort(a[..n], Order(mode));
    WriteBack(a, sorted);
  }

  method WriteBack(a: array<Conv>, s: seq<Conv>)
    requires |s| <= a.Length
    modifies a
    ensures a[..|s|] == s && a[|s|..] == old(a[|s|..])
  {
    forall i | 0 <= i < |s| {
      a[i] := s[i];
    }
  }

  lemma DistinctMembers(convs: seq<Conv>)
    requires DistinctJids(convs)
    ensures NoDuplicates(convs)
    ensures forall x, y :: x in convs && y in convs && x.jid == y.jid ==> x == y
  {
  }

  lemma SortedStrictly(convs: seq<Conv>, mode: SortMode)
    requires DistinctJids(convs)
    ensures StrictlySorted(Sort(convs, Order(mode)), Order(mode)) && DistinctJids(Sort(convs, Order(mode)))
  {
    var less := Order(mode);
    var r := Sort(convs, less);
    OrderIsStrict(mode);
    SortSorted(convs, less);
    DistinctMembers(convs);
    PermutationNoDuplicates(convs, r);
    forall i, j | 0 <= i < j < |r| ensures less(r[i], r[j]) && r[i].jid != r[j].jid {
      SortMembers(convs, less, r[i]);
      SortMembers(convs, less, r[j]);
      assert r[i] in r && r[j] in r;
    }
  }

  /** The sorted list does not depend on the order in which the conversations were collected. */
  lemma SortIgnoresOrder(a: seq<Conv>, b: seq<Conv>, mode: SortMode)
    requires DistinctJids(a) && DistinctJids(b) && multiset(a) == multiset(b)
    ensures Sort(a, Order(mode)) == Sort(b, Order(mode))
  {
    SortedStrictly(a, mode);
    SortedStrictly(b, mode);
    OrderIsStrict(mode);
    SortedUnique(Sort(a, Order(mode)), Sort(b, Order(mode)), Order(mode));
  }

  /**
   Sorting by rendered times is newest first, the null time last and ties by JID, exactly when the
   rendered times are in order.
   */
  lemma ActivityOrderIsTimeOrder(a: Conv, b: Conv, s: int, t: int)
    ensures (BY_ACTIVITY(a.(lastTime := CalendarKeys.TimeKey(s)), b.(lastTime := CalendarKeys.TimeKey(t))) <==>
             s > t || (s == t && Lex.Less(a.jid, b.jid))) <==>
            CalendarKeys.KeysInOrder(t, s)
  {
    CalendarKeys.KeyOrderIsTimeOrder(t, s);
  }

  // ----- pages -----

  const MAX_PAGE_SIZE := 200

  datatype ListError = BadLimit | BadPage | BadSort | BadChatType | OutOfBounds

  function ValidatePagination(limit: int, page: int, default: int): Result<(int, int), ListError> {
    var l := if limit == 0 then default else limit;
    if l < 1 || l > MAX_PAGE_SIZE then Err(BadLimit)
    else if page < 0 then Err(BadPage)
    else Ok((l, Wrap64(page * l)))
  }

  /** A window of the list; a negative offset is a slice out of bounds. */
  function Paginate<T>(s: seq<T>, offset: int, limit: nat): Result<seq<T>, ListError> {
    if offset >= |s| then Ok([])
    else if offset < 0 then Err(OutOfBounds)
    else Ok(s[offset..if offset + limit > |s| then |s| else offset + limit])
  }

  /** Elements `page * limit` up to `(page + 1) * limit` of the list, as far as there are any. */
  function Page<T>(s: seq<T>, page: nat, limit: nat): seq<T> {
    s[Min(page * limit, |s|)..Min((page + 1) * limit, |s|)]
  }

  function Min(a: nat, b: nat): nat {
    if a < b then a else b
  }

  lemma WrapSmall(x: int)
    requires 0 <= x < INT64_LIMIT
    ensures Wrap64(x) == x
  {
  }

  lemma WindowAt<T>(s: seq<T>, offset: nat, limit: nat)
    ensures Paginate(s, offset, limit) == Ok(s[Min(offset, |s|)..Min(offset + limit, |s|)])
  {
    assert s[|s|..|s|] == [];
  }

  lemma PageIsWindow<T>(s: seq<T>, page: nat, limit: nat)
    requires page * limit < INT64_LIMIT
    ensures Paginate(s, Wrap64(page * limit), limit) == Ok(Page(s, page, limit))
  {
    assert 0 <= page * limit;
    WrapSmall(page * limit);
    assert (page + 1) * limit == page * limit + limit;
    WindowAt(s, page * limit, limit);
  }

  /**
   The page returned is the page asked for exactly when its first index fits 64 bits, or wraps around
   to an index past the end.
   */
  lemma PageIsExact<T>(s: seq<T>, page: nat, limit: nat)
    requires 1 <= limit <= MAX_PAGE_SIZE && page < INT64_LIMIT && |s| < INT64_LIMIT
    ensures Paginate(s, Wrap64(page * limit), limit) == Ok(Page(s, page, limit)) <==>
            page * limit < INT64_LIMIT || Wrap64(page * limit) >= |s|
  {
    if page * limit < INT64_LIMIT {
      PageIsWindow(s, page, limit);
    } else {
      assert (page + 1) * limit == page * limit + limit;
      assert Page(s, page, limit) == [];
    }
  }

  /** A limit of 2 and a page of 2^62: the offset wraps to a negative one, which no slice accepts. */
  lemma HugePageIsOutOfBounds<T>(s: seq<T>)
    ensures ValidatePagination(2, 0x4000_0000_0000_0000, DEFAULT_LIMIT) == Ok((2, -INT64_LIMIT))
    ensures Paginate(s, -INT64_LIMIT, 2) == Err(OutOfBounds)
  {
  }

  /** With a limit of 4 it wraps to 0, and the first page comes again. */
  lemma HugePageIsTheFirst<T>(s: seq<T>)
    requires 0 < |s| < INT64_LIMIT
    ensures ValidatePagination(4, 0x4000_0000_0000_0000, DEFAULT_LIMIT) == Ok((4, 0))
    ensures Paginate(s, 0, 4) == Ok(Page(s, 0, 4)) != Ok(Page(s, 0x4000_0000_0000_0000, 4))
  {
    WindowAt(s, 0, 4);
    assert s[0] in Page(s, 0, 4);
  }

  function Concat<T>(s: seq<T>, pages: nat, limit: nat): seq<T> {
    if pages == 0 then [] else Concat(s, pages - 1, limit) + Page(s, pages - 1, limit)
  }

  /** Reading page after page gives the list from its start, each element once. */
  lemma {:induction false} PagesCoverTheList<T>(s: seq<T>, pages: nat, limit: nat)
    ensures Concat(s, pages, limit) == s[..Min(pages * limit, |s|)]
    ensures pages * limit >= |s| ==> Concat(s, pages, limit) == s
  {
    if pages > 0 {
      PagesCoverTheList(s, pages - 1, limit);
      assert pages * limit == (pages - 1) * limit + limit;
    }
  }

  // ----- the whole request -----

  datatype Request = Request(query: Option<string>, limit: int, page: int, sortBy: string, includeLast: bool,
                             chatType: string)

  const DEFAULT_LIMIT := 20

  function ModeOf(sortBy: string): Result<SortMode, ListError> {
    if sortBy == "" || sortBy == "last_active" then Ok(LastActive)
    else if sortBy == "name" then Ok(Name)
    else Err(BadSort)
  }

  /** The merge behind one answer. */
  datatype Merge = Merge(canonicalOf: map<string, string>, identitiesOf: map<string, seq<string>>,
                         groups: map<string, Group>, order: seq<string>, convs: seq<Conv>)

  ghost predicate IsMerge(m: Merge, aliases: seq<Alias>, rows: seq<Row>, includeLast: bool) {
    && IsCanonical(aliases, m.canonicalOf) && IsIdentities(aliases, m.identitiesOf)
    && IsGrouping(m.groups, m.order, rows, m.canonicalOf)
    && IsOverview(m.convs, m.groups, m.order, m.identitiesOf, includeLast)
  }

  lemma MergeHasDistinctJids(m: Merge, aliases: seq<Alias>, rows: seq<Row>, includeLast: bool)
    requires IsMerge(m, aliases, rows, includeLast)
    ensures DistinctJids(m.convs)
  {
    forall i | 0 <= i < |m.convs| ensures m.convs[i].jid == m.order[i] {
      var k := m.order[i];
      assert Matches(m.groups, k, RowsOf(rows, k, m.canonicalOf));
    }
  }

  predicate KnownChatType(t: string) {
    t == "" || t == "direct" || t == "group" || t == "newsletter" || t == "community"
  }

  function Check(req: Request): Result<(int, int, SortMode), ListError> {
    match ValidatePagination(req.limit, req.page, DEFAULT_LIMIT)
    case Err(e) => Err(e)
    case Ok((limit, offset)) =>
      match ModeOf(req.sortBy)
      case Err(e) => Err(e)
      case Ok(mode) => if KnownChatType(req.chatType) then Ok((limit, offset, mode)) else Err(BadChatType)
  }

  /** One page of the merged, filtered and sorted conversations. */
  method ListConversations(aliases: seq<Alias>, rows: seq<Row>, req: Request, lower: string -> string)
    returns (r: Result<seq<Conv>, ListError>)
    requires Named(rows)
    ensures match Check(req)
            case Err(e) => r == Err(e)
            case Ok((limit, offset, mode)) =>
              exists m :: && IsMerge(m, aliases, rows, req.includeLast)
                          && r == Paginate(Sort(Filtered(m.convs, req.query, lower), Order(mode)), offset, limit)
  {
    var checked := Check(req);
    if checked.Err? {
      return Err(checked.error);
    }
    var (limit, offset, mode) := checked.value;
    var canonicalOf, identitiesOf := LoadAliasMaps(aliases);
    var groups, order := GroupRows(rows, canonicalOf);
    var convs := BuildOverview(groups, order, identitiesOf, req.includeLast);
    ghost var m := Merge(canonicalOf, identitiesOf, groups, order, convs);
    assert IsMerge(m, aliases, rows, req.includeLast);
    var sorted := FilterAndSort(convs, req.query, mode, lower);
    r := Paginate(sorted, offset, limit);
  }

  method FilterAndSort(convs: seq<Conv>, query: Option<string>, mode: SortMode, lower: string -> string)
    returns (out: seq<Conv>)
    ensures out == Sort(Filtered(convs, query, lower), Order(mode))
  {
    var a := new Conv[|convs|](i requires 0 <= i < |convs| => convs[i]);
    assert a[..] == convs;
    var n := FilterConversations(a, query, lower);
    SortConversations(a, n, mode);
    out := a[..n];
  }

  /** Reading all pages gives every conversation that passes the filter once, in strict order. */
  lemma AllPages(m: Merge, aliases: seq<Alias>, rows: seq<Row>, req: Request, lower: string -> string, mode: SortMode,
                 pages: nat, limit: nat)
    requires IsMerge(m, aliases, rows, req.includeLast)
    requires pages * limit >= |Filtered(m.convs, req.query, lower)|
    ensures var kept := Filtered(m.convs, req.query, lower);
            var read := Concat(Sort(kept, Order(mode)), pages, limit);
            multiset(read) == multiset(kept) && StrictlySorted(read, Order(mode)) && DistinctJids(read)
  {
    MergeHasDistinctJids(m, aliases, rows, req.includeLast);
    if req.query.Some? && req.query.value != "" {
      KeptMembers(m.convs, lower(req.query.value), lower);
    }
    var kept := Filtered(m.convs, req.query, lower);
    SortedStrictly(kept, mode);
    PagesCoverTheList(Sort(kept, Order(mode)), pages, limit);
  }
}
