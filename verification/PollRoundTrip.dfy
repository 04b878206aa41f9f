/** A vote that is cast shows up in the tally as exactly the options it was cast for. */
module PollRoundTrip {
  import opened Wrappers
  import Lex
  import opened Sorting
  import opened CacheTables
  import opened CacheStore
  import opened Polls
  import opened PollVoting

  // ----- listing the votes of a poll -----

  /** Oldest vote first, then by voter. */
  const BY_TIME := (a: Vote, b: Vote) => a.ts < b.ts || (a.ts == b.ts && Lex.Less(a.voter, b.voter))

  lemma ByTimeIsStrict()
    ensures StrictWeakOrder(BY_TIME)
  {
    forall x, y | BY_TIME(x, y) ensures !BY_TIME(y, x) {
      if x.ts == y.ts { Lex.Asymmetric(x.voter, y.voter); }
    }
    forall x, y, z | BY_TIME(x, y) && BY_TIME(y, z) ensures BY_TIME(x, z) {
      if x.ts == y.ts == z.ts { Lex.Transitive(x.voter, y.voter, z.voter); }
    }
    forall x, y, z | BY_TIME(x, z) ensures BY_TIME(x, y) || BY_TIME(y, z) {
      Lex.Connected(x.voter, y.voter);
      Lex.Connected(y.voter, z.voter);
      if Lex.Less(y.voter, x.voter) && Lex.Less(x.voter, z.voter) {
        Lex.Transitive(y.voter, x.voter, z.voter);
      }
    }
  }

  predicate IsVoteOf(v: Vote, votes: map<Triple, VoteRow>, chat: string, poll: string) {
    var key := (chat, poll, v.voter);
    key in votes && votes[key] == VoteRow(v.selected, v.ts)
  }

  /** The rows of one poll, each once, in order. */
  ghost predicate IsVoteList(list: seq<Vote>, votes: map<Triple, VoteRow>, chat: string, poll: string) {
    && OneVoteEach(list) && StrictlySorted(list, BY_TIME)
    && forall v :: v in list <==> IsVoteOf(v, votes, chat, poll)
  }

  lemma SortedVotes(list: seq<Vote>)
    requires OneVoteEach(list)
    ensures OneVoteEach(Sort(list, BY_TIME)) && StrictlySorted(Sort(list, BY_TIME), BY_TIME)
    ensures forall v :: v in Sort(list, BY_TIME) <==> v in list
  {
    var r := Sort(list, BY_TIME);
    ByTimeIsStrict();
    SortSorted(list, BY_TIME);
    PermutationNoDuplicates(list, r);
    forall v ensures v in r <==> v in list {
      SortMembers(list, BY_TIME, v);
    }
    forall i, j | 0 <= i < j < |r| ensures r[i].voter != r[j].voter && BY_TIME(r[i], r[j]) {
      assert r[i] in list && r[j] in list;
      Lex.Connected(r[i].voter, r[j].voter);
    }
  }

  method ListPollVotes(votes: map<Triple, VoteRow>, chat: string, poll: string) returns (list: seq<Vote>)
    ensures IsVoteList(list, votes, chat, poll)
  {
    var todo := votes.Keys;
    list := [];
    while todo != {}
      invariant todo <= votes.Keys && OneVoteEach(list)
      invariant forall v :: v in list <==> IsVoteOf(v, votes, chat, poll) && (chat, poll, v.voter) !in todo
      decreases |todo|
    {
      var key :| key in todo;
      if key.0 == chat && key.1 == poll {
        assert key == (chat, poll, key.2);
        list := list + [Vote(key.2, votes[key].selected, votes[key].ts)];
      }
      todo := todo - {key};
    }
    SortedVotes(list);
    list := Sort(list, BY_TIME);
  }

  // ----- casting a vote -----

  function Hashes(names: seq<string>, hash: string -> string): seq<string> {
    if names == [] then [] else Hashes(names[..|names| - 1], hash) + [hash(names[|names| - 1])]
  }

  datatype VoteError = BadSelection(error: MatchError) | TooManySelected | OwnJidUnknown

  /** The row written for the vote this device casts. */
  function CastVote(chat: string, poll: string, voter: string, selected: seq<string>, time: Time,
                    hash: string -> string): PollVote {
    PollVote(chat, poll, voter, Hashes(selected, hash), time)
  }

  /** Checks the request, lets the foreign client send it, and mirrors the vote into the cache. */
  method VotePoll(store: Store, chat: string, poll: string, options: seq<PollOption>, selectable: int,
                  requested: seq<string>, voter: string, time: Time, trim: string -> string)
    returns (r: Result<seq<string>, VoteError>)
    modifies store`votes
    ensures r.Ok? <==>
            Eligible(options, Trimmed(requested, trim)) && (selectable > 0 ==> |requested| <= selectable) && voter != ""
    ensures r.Ok? ==> IsSelection(r.value, options, Trimmed(requested, trim))
    ensures r.Ok? ==>
            store.votes == UpsertVote(old(store.votes), CastVote(chat, poll, voter, r.value, time, store.hash))
    ensures r.Err? ==> store.votes == old(store.votes)
    ensures r.Err? ==>
              var names := Trimmed(requested, trim);
              if Eligible(options, names) then
                r.error == if selectable > 0 && |requested| > selectable then TooManySelected else OwnJidUnknown
              else r.error.BadSelection? && IsRefusal(r.error.error, options, names)
  {
    var matched := MatchPollOptions(options, requested, trim);
    if matched.Err? {
      return Err(BadSelection(matched.error));
    }
    var selected := matched.value;
    SelectionSize(selected, options, requested, trim);
    if selectable > 0 && |selected| > selectable {
      return Err(TooManySelected);
    }
    if voter == "" {
      return Err(OwnJidUnknown);
    }
    store.UpsertPollVote(CastVote(chat, poll, voter, selected, time, store.hash));
    return Ok(selected);
  }

  lemma SelectionSize(out: seq<string>, options: seq<PollOption>, requested: seq<string>, trim: string -> string)
    requires IsSelection(out, options, Trimmed(requested, trim)) && Eligible(options, Trimmed(requested, trim))
    ensures |out| == |requested|
  {
    var names := Trimmed(requested, trim);
    SelectionIsRequest(out, options, names);
    TrimmedAt(requested, trim);
    SameMembersSameBag(out, names);
    assert |multiset(out)| == |out| && |multiset(names)| == |names|;
  }

  // ----- the round trip -----

  ghost predicate Hashed(options: seq<PollOption>, hash: string -> string) {
    forall i :: 0 <= i < |options| ==> options[i].hash == hash(options[i].name)
  }

  ghost predicate TellsApart(options: seq<PollOption>, hash: string -> string) {
    forall o, p :: o in options && p in options && hash(o.name) == hash(p.name) ==> o.name == p.name
  }

  /** The stored hashes are the hashes of the names, and tell the names apart. */
  ghost predicate FaithfulBallot(options: seq<PollOption>, hash: string -> string) {
    Hashed(options, hash) && TellsApart(options, hash)
  }

  /** The ballot stored for options that come without a hash, which all callers pass. */
  lemma {:induction false} HashedBallotIsFaithful(options: seq<PollOption>, hash: string -> string)
    requires forall o :: o in options ==> o.hash == ""
    ensures var ballot := HashedBallot(options, hash);
            && |ballot| == |options| && (forall i :: 0 <= i < |options| ==> ballot[i].name == options[i].name)
            && Hashed(ballot, hash)
            && (TellsApart(options, hash) ==> FaithfulBallot(ballot, hash))
  {
    if options != [] {
      var front, last := options[..|options| - 1], options[|options| - 1];
      HashedBallotIsFaithful(front, hash);
      assert last in options;
      var ballot := HashedBallot(options, hash);
      assert ballot == HashedBallot(front, hash) + [PollOption(last.name, hash(last.name))];
      SameNames(options, ballot, hash);
    }
  }

  lemma SameNames(options: seq<PollOption>, ballot: seq<PollOption>, hash: string -> string)
    requires |ballot| == |options| && forall i :: 0 <= i < |options| ==> ballot[i].name == options[i].name
    ensures TellsApart(options, hash) ==> TellsApart(ballot, hash)
  {
    if TellsApart(options, hash) {
      forall o, p | o in ballot && p in ballot && hash(o.name) == hash(p.name) ensures o.name == p.name {
        var i :| 0 <= i < |ballot| && ballot[i] == o;
        var j :| 0 <= j < |ballot| && ballot[j] == p;
        assert options[i] in options && options[j] in options;
      }
    }
  }

  lemma {:induction false} SameIndex(options: seq<PollOption>, hash: string -> string, name: string)
    requires FaithfulBallot(options, hash) && exists i :: 0 <= i < |options| && options[i].name == name
    ensures IndexOf(options, hash(name)) == NameIndex(options, name)
  {
    var front, last := options[..|options| - 1], options[|options| - 1];
    var i :| 0 <= i < |options| && options[i].name == name;
    if last.name != name {
      assert front[i] == options[i];
      SameIndex(front, hash, name);
    }
  }

  lemma {:induction false} HashMembers(names: seq<string>, hash: string -> string, h: string)
    ensures h in Hashes(names, hash) <==> exists n :: n in names && h == hash(n)
  {
    if names != [] {
      var front, last := names[..|names| - 1], names[|names| - 1];
      assert names == front + [last];
      HashMembers(front, hash, h);
    }
  }

  lemma {:induction false} DistinctHashes(names: seq<string>, options: seq<PollOption>, hash: string -> string)
    requires FaithfulBallot(options, hash) && NoDuplicates(names)
    requires forall n :: n in names ==> NameIndex(options, n).Some?
    ensures NoDuplicates(Hashes(names, hash))
  {
    if names != [] {
      var front, last := names[..|names| - 1], names[|names| - 1];
      DistinctHashes(front, options, hash);
      HashMembers(front, hash, hash(last));
      forall n | n in front ensures hash(n) != hash(last) {
        assert n in names && last in names;
        var i, j := NameIndex(options, n).value, NameIndex(options, last).value;
        assert options[i].name == n && options[j].name == last;
      }
    }
  }

  /** A voter with a row is credited by that row alone. */
  lemma CreditedByRow(list: seq<Vote>, votes: map<Triple, VoteRow>, chat: string, poll: string,
                      options: seq<PollOption>, i: nat, voter: string)
    requires IsVoteList(list, votes, chat, poll)
    ensures voter in Credits(AllMarks(list), options, i) <==>
            && (chat, poll, voter) in votes
            && exists h :: h in votes[(chat, poll, voter)].selected && IndexOf(options, h) == Some(i)
  {
    var key := (chat, poll, voter);
    CreditedVoter(AllMarks(list), options, i, voter);
    forall h ensures (voter, h) in AllMarks(list) <==> key in votes && h in votes[key].selected {
      AllMarkMembers(list, (voter, h));
      if key in votes && h in votes[key].selected {
        var v := Vote(voter, votes[key].selected, votes[key].ts);
        assert IsVoteOf(v, votes, chat, poll) && v in list;
      }
    }
  }

  lemma CastIsStored(votes: map<Triple, VoteRow>, chat: string, poll: string, voter: string, selected: seq<string>,
                     time: Time,
                     hash: string -> string)
    requires chat != "" && poll != "" && voter != ""
    requires !IsStale(votes, chat, poll, voter, time)
    ensures UpsertVote(votes, CastVote(chat, poll, voter, selected, time, hash)) ==
            votes[(chat, poll, voter) := VoteRow(Hashes(selected, hash), UnixSeconds(time))]
  {
  }

  lemma SelectedIndex(names: seq<string>, options: seq<PollOption>, hash: string -> string, i: nat)
    requires FaithfulBallot(options, hash) && forall n :: n in names ==> NameIndex(options, n).Some?
    ensures (exists h :: h in Hashes(names, hash) && IndexOf(options, h) == Some(i)) <==> IsChosen(options, names, i)
  {
    forall n | n in names ensures IndexOf(options, hash(n)) == NameIndex(options, n) {
      assert options[NameIndex(options, n).value].name == n;
      SameIndex(options, hash, n);
    }
    forall h ensures h in Hashes(names, hash) <==> exists n :: n in names && h == hash(n) {
      HashMembers(names, hash, h);
    }
    if IsChosen(options, names, i) {
      var n :| n in names && NameIndex(options, n) == Some(i);
      assert hash(n) in Hashes(names, hash);
    }
  }

  /** The stored vote is newer than the one cast, which is then dropped. */
  predicate IsStale(votes: map<Triple, VoteRow>, chat: string, poll: string, voter: string, time: Time) {
    (chat, poll, voter) in votes && UnixSeconds(time) < votes[(chat, poll, voter)].ts
  }

  /**
   Casting an accepted request and then tallying credits the voter with exactly the requested options,
   whatever was cast before and in whatever order the options were requested; a stale vote leaves the
   voter's credits as they were.
   */
  lemma CastThenTally(votes: map<Triple, VoteRow>, chat: string, poll: string, voter: string, options: seq<PollOption>,
                      names: seq<string>, selected: seq<string>, time: Time, hash: string -> string,
                      before: seq<Vote>, after: seq<Vote>, i: nat)
    requires FaithfulBallot(options, hash) && Eligible(options, names) && IsSelection(selected, options, names)
    requires chat != "" && poll != "" && voter != ""
    requires IsVoteList(before, votes, chat, poll)
    requires IsVoteList(after, UpsertVote(votes, CastVote(chat, poll, voter, selected, time, hash)), chat, poll)
    ensures voter in Credits(AllMarks(after), options, i) <==>
            if IsStale(votes, chat, poll, voter, time) then voter in Credits(AllMarks(before), options, i)
            else IsChosen(options, names, i)
  {
    var votes' := UpsertVote(votes, CastVote(chat, poll, voter, selected, time, hash));
    CreditedByRow(after, votes', chat, poll, options, i, voter);
    if IsStale(votes, chat, poll, voter, time) {
      CreditedByRow(before, votes, chat, poll, options, i, voter);
    } else {
      CastIsStored(votes, chat, poll, voter, selected, time, hash);
      SelectionIsRequest(selected, options, names);
      SelectedIndex(selected, options, hash, i);
      SameChoice(options, selected, names, i);
    }
  }

  lemma SameChoice(options: seq<PollOption>, a: seq<string>, b: seq<string>, i: nat)
    requires forall x :: x in a <==> x in b
    ensures IsChosen(options, a, i) <==> IsChosen(options, b, i)
  {
    if IsChosen(options, a, i) {
      var n :| n in a && NameIndex(options, n) == Some(i);
      assert n in b;
    }
    if IsChosen(options, b, i) {
      var n :| n in b && NameIndex(options, n) == Some(i);
      assert n in a;
    }
  }

  /** Nobody else's credits change. */
  lemma OthersAreUntouched(votes: map<Triple, VoteRow>, v: PollVote, before: seq<Vote>, after: seq<Vote>,
                           options: seq<PollOption>, i: nat, other: string)
    requires IsVoteList(before, votes, v.chat, v.poll) && IsVoteList(after, UpsertVote(votes, v), v.chat, v.poll)
    requires other != v.voter
    ensures other in Credits(AllMarks(before), options, i) <==> other in Credits(AllMarks(after), options, i)
  {
    CreditedByRow(before, votes, v.chat, v.poll, options, i, other);
    CreditedByRow(after, UpsertVote(votes, v), v.chat, v.poll, options, i, other);
  }

  lemma AllMarksNext(a: seq<Vote>, v: Vote)
    ensures AllMarks(a + [v]) == AllMarks(a) + MarksOf(v.voter, v.selected)
  {
    assert (a + [v])[..|a|] == a;
  }

  lemma Regroup<T>(a: seq<T>, b: seq<T>, c: seq<T>)
    ensures a + (b + c) == (a + b) + c
  {
  }

  lemma JoinNext(a: seq<Vote>, b: seq<Vote>, v: Vote)
    requires AllMarks(a + b) == AllMarks(a) + AllMarks(b)
    ensures AllMarks(a + (b + [v])) == AllMarks(a) + AllMarks(b + [v])
  {
    var marks := MarksOf(v.voter, v.selected);
    Regroup(a, b, [v]);
    AllMarksNext(a + b, v);
    AllMarksNext(b, v);
    Regroup(AllMarks(a), AllMarks(b), marks);
  }

  lemma {:induction false} AllMarksJoin(a: seq<Vote>, b: seq<Vote>)
    ensures AllMarks(a + b) == AllMarks(a) + AllMarks(b)
  {
    if b == [] {
      assert a + b == a;
    } else {
      AllMarksJoin(a, b[..|b| - 1]);
      JoinNext(a, b[..|b| - 1], b[|b| - 1]);
      assert b == b[..|b| - 1] + [b[|b| - 1]];
    }
  }

  lemma NotCredited(votes: seq<Vote>, options: seq<PollOption>, i: nat, voter: string)
    requires forall v :: v in votes ==> v.voter != voter
    ensures voter !in Credits(AllMarks(votes), options, i)
  {
    CreditedVoter(AllMarks(votes), options, i, voter);
    forall h ensures (voter, h) !in AllMarks(votes) {
      AllMarkMembers(votes, (voter, h));
    }
  }

  lemma AtMostOnce(a: seq<string>, b: seq<string>, c: seq<string>, x: string)
    requires x !in a && |b| <= 1 && x !in c
    ensures multiset(a + b + c)[x] <= 1
  {
    assert x !in multiset(a) && x !in multiset(c);
    assert b == [] || b == [b[0]];
  }

  /** A vote cast from an accepted request counts at most once for each option. */
  lemma CastCountsOnce(votes: map<Triple, VoteRow>, chat: string, poll: string, voter: string, options: seq<PollOption>,
                       names: seq<string>, selected: seq<string>, time: Time, hash: string -> string,
                       after: seq<Vote>, i: nat)
    requires FaithfulBallot(options, hash) && Eligible(options, names) && IsSelection(selected, options, names)
    requires chat != "" && poll != "" && voter != "" && !IsStale(votes, chat, poll, voter, time)
    requires IsVoteList(after, UpsertVote(votes, CastVote(chat, poll, voter, selected, time, hash)), chat, poll)
    ensures multiset(Credits(AllMarks(after), options, i))[voter] <= 1
  {
    var v := Vote(voter, Hashes(selected, hash), UnixSeconds(time));
    CastIsStored(votes, chat, poll, voter, selected, time, hash);
    assert IsVoteOf(v, UpsertVote(votes, CastVote(chat, poll, voter, selected, time, hash)), chat, poll);
    var k :| 0 <= k < |after| && after[k] == v;
    SelectionIsRequest(selected, options, names);
    DistinctHashes(selected, options, hash);
    CountedOnce(after, k, options, i);
  }

  lemma CountedOnce(list: seq<Vote>, k: nat, options: seq<PollOption>, i: nat)
    requires OneVoteEach(list) && k < |list| && NoDuplicates(list[k].selected)
    ensures multiset(Credits(AllMarks(list), options, i))[list[k].voter] <= 1
  {
    var v := list[k];
    var front, back := list[..k], list[k + 1..];
    DistinctCredits(v.voter, v.selected, options, i);
    assert list == front + [v] + back;
    AllMarksJoin(front + [v], back);
    AllMarksJoin(front, [v]);
    assert [v][..0] == [] && AllMarks([v]) == MarksOf(v.voter, v.selected);
    CreditsJoin(AllMarks(front + [v]), AllMarks(back), options, i);
    CreditsJoin(AllMarks(front), MarksOf(v.voter, v.selected), options, i);
    NotCredited(front, options, i, v.voter);
    NotCredited(back, options, i, v.voter);
    AtMostOnce(Credits(AllMarks(front), options, i), Credits(MarksOf(v.voter, v.selected), options, i),
               Credits(AllMarks(back), options, i), v.voter);
  }
}
