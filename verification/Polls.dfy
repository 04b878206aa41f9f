/** Poll ballots and tallies. */
module Polls {
  import opened Wrappers
  import opened Sorting
  import opened CacheTables

  /** One voter's current selection. */
  datatype Vote = Vote(voter: string, selected: seq<string>, ts: int)

  datatype OptionResult = OptionResult(option: string, votes: nat, voters: seq<string>)

  /** One selected hash and who selected it. */
  type Mark = (string, string)

  // ----- what the votes say -----

  function MarksOf(voter: string, hashes: seq<string>): seq<Mark> {
    if hashes == [] then [] else MarksOf(voter, hashes[..|hashes| - 1]) + [(voter, hashes[|hashes| - 1])]
  }

  /** All selected hashes, vote by vote. */
  function AllMarks(votes: seq<Vote>): seq<Mark> {
    if votes == [] then []
    else AllMarks(votes[..|votes| - 1]) + MarksOf(votes[|votes| - 1].voter, votes[|votes| - 1].selected)
  }

  /** The position of a hash on the ballot: the last one, should it occur twice. */
  function IndexOf(options: seq<PollOption>, hash: string): (r: Option<nat>)
    ensures r.Some? ==> r.value < |options| && options[r.value].hash == hash
  {
    if options == [] then None
    else if options[|options| - 1].hash == hash then Some(|options| - 1)
    else IndexOf(options[..|options| - 1], hash)
  }

  /** Who is credited to option `i`, in the order of the marks. */
  function Credits(marks: seq<Mark>, options: seq<PollOption>, i: nat): seq<string> {
    if marks == [] then []
    else
      var m := marks[|marks| - 1];
      Credits(marks[..|marks| - 1], options, i) + if IndexOf(options, m.1) == Some(i) then [m.0] else []
  }

  /** How many marks match no option. */
  function Unknown(marks: seq<Mark>, options: seq<PollOption>): nat {
    if marks == [] then 0
    else Unknown(marks[..|marks| - 1], options) + if IndexOf(options, marks[|marks| - 1].1) == None then 1 else 0
  }

  /** How many voters have a selection; an empty one is a withdrawn vote. */
  function Casting(votes: seq<Vote>): nat {
    if votes == [] then 0 else Casting(votes[..|votes| - 1]) + if votes[|votes| - 1].selected == [] then 0 else 1
  }

  ghost predicate IsTally(results: seq<OptionResult>, unknown: nat, options: seq<PollOption>, marks: seq<Mark>) {
    && |results| == |options|
    && (forall i :: 0 <= i < |options| ==>
          results[i] == OptionResult(options[i].name, |Credits(marks, options, i)|, Credits(marks, options, i)))
    && unknown == Unknown(marks, options)
  }

  lemma AppendMark(marks: seq<Mark>, m: Mark, options: seq<PollOption>, i: nat)
    ensures Credits(marks + [m], options, i) ==
            Credits(marks, options, i) + if IndexOf(options, m.1) == Some(i) then [m.0] else []
    ensures Unknown(marks + [m], options) == Unknown(marks, options) + if IndexOf(options, m.1) == None then 1 else 0
  {
    assert (marks + [m])[..|marks|] == marks;
  }

  lemma TallyOne(results: seq<OptionResult>, unknown: nat, options: seq<PollOption>, marks: seq<Mark>, m: Mark,
                 idx: nat)
    requires IsTally(results, unknown, options, marks) && IndexOf(options, m.1) == Some(idx)
    ensures IsTally(results[idx := Credited(results[idx], m.0)], unknown, options, marks + [m])
  {
    AppendMark(marks, m, options, 0);
    var after := results[idx := Credited(results[idx], m.0)];
    forall i: nat | i < |options|
      ensures after[i] ==
              OptionResult(options[i].name, |Credits(marks + [m], options, i)|, Credits(marks + [m], options, i))
    {
      AppendMark(marks, m, options, i);
      assert results[i] == OptionResult(options[i].name, |Credits(marks, options, i)|, Credits(marks, options, i));
    }
  }

  function Credited(r: OptionResult, voter: string): OptionResult {
    r.(votes := r.votes + 1, voters := r.voters + [voter])
  }

  lemma TallyUnknown(results: seq<OptionResult>, unknown: nat, options: seq<PollOption>, marks: seq<Mark>, m: Mark)
    requires IsTally(results, unknown, options, marks) && IndexOf(options, m.1) == None
    ensures IsTally(results, unknown + 1, options, marks + [m])
  {
    AppendMark(marks, m, options, 0);
    forall i: nat | i < |options| ensures Credits(marks + [m], options, i) == Credits(marks, options, i) {
      AppendMark(marks, m, options, i);
    }
  }

  // ----- the tally -----

  ghost predicate IsIndex(byHash: map<string, nat>, options: seq<PollOption>) {
    forall h :: IndexOf(options, h) == if h in byHash then Some(byHash[h]) else None
  }

  method IndexByHash(options: seq<PollOption>) returns (byHash: map<string, nat>, results: seq<OptionResult>)
    ensures IsIndex(byHash, options) && IsTally(results, 0, options, [])
  {
    byHash, results := map[], [];
    for i := 0 to |options|
      invariant IsIndex(byHash, options[..i])
      invariant |results| == i && forall k :: 0 <= k < i ==> results[k] == OptionResult(options[k].name, 0, [])
    {
      assert options[..i + 1][..i] == options[..i];
      byHash := byHash[options[i].hash := i];
      results := results + [OptionResult(options[i].name, 0, [])];
    }
    assert options[..|options|] == options;
  }

  /** Counts the hashes one voter selected. */
  method Count(byHash: map<string, nat>, vote: Vote, results: seq<OptionResult>, unknown: nat, options: seq<PollOption>,
               ghost marks: seq<Mark>)
    returns (counted: seq<OptionResult>, unmatched: nat)
    requires IsIndex(byHash, options) && IsTally(results, unknown, options, marks)
    ensures IsTally(counted, unmatched, options, marks + MarksOf(vote.voter, vote.selected))
  {
    counted, unmatched := results, unknown;
    assert marks + [] == marks;
    for k := 0 to |vote.selected|
      invariant IsTally(counted, unmatched, options, marks + MarksOf(vote.voter, vote.selected[..k]))
    {
      var hash := vote.selected[k];
      ghost var done := marks + MarksOf(vote.voter, vote.selected[..k]);
      NextMark(marks, vote, k);
      if hash in byHash {
        var idx := byHash[hash];
        TallyOne(counted, unmatched, options, done, (vote.voter, hash), idx);
        var r := counted[idx];
        counted := counted[idx := r.(votes := r.votes + 1, voters := r.voters + [vote.voter])];
      } else {
        TallyUnknown(counted, unmatched, options, done, (vote.voter, hash));
        unmatched := unmatched + 1;
      }
    }
    assert vote.selected[..|vote.selected|] == vote.selected;
  }

  lemma NextMark(marks: seq<Mark>, vote: Vote, k: nat)
    requires k < |vote.selected|
    ensures marks + MarksOf(vote.voter, vote.selected[..k + 1]) ==
            (marks + MarksOf(vote.voter, vote.selected[..k])) + [(vote.voter, vote.selected[k])]
  {
    assert vote.selected[..k + 1][..k] == vote.selected[..k];
  }

  lemma NextVote(votes: seq<Vote>, i: nat)
    requires i < |votes|
    ensures AllMarks(votes[..i + 1]) == AllMarks(votes[..i]) + MarksOf(votes[i].voter, votes[i].selected)
    ensures Casting(votes[..i + 1]) == Casting(votes[..i]) + if votes[i].selected == [] then 0 else 1
  {
    assert votes[..i + 1][..i] == votes[..i];
  }

  /** Counts every vote once, against the ballot. */
  method Tally(options: seq<PollOption>, votes: seq<Vote>)
    returns (results: seq<OptionResult>, voters: nat, unknown: nat)
    ensures IsTally(results, unknown, options, AllMarks(votes))
    ensures voters == Casting(votes)
  {
    var byHash;
    byHash, results := IndexByHash(options);
    voters, unknown := 0, 0;
    for i := 0 to |votes|
      invariant IsTally(results, unknown, options, AllMarks(votes[..i]))
      invariant voters == Casting(votes[..i])
    {
      NextVote(votes, i);
      if votes[i].selected == [] {
        assert AllMarks(votes[..i]) + [] == AllMarks(votes[..i]);
        continue;
      }
      voters := voters + 1;
      results, unknown := Count(byHash, votes[i], results, unknown, options, AllMarks(votes[..i]));
    }
    assert votes[..|votes|] == votes;
  }

  // ----- conservation -----

  function TotalVotes(results: seq<OptionResult>): nat {
    if results == [] then 0 else TotalVotes(results[..|results| - 1]) + results[|results| - 1].votes
  }

  function TotalSelected(votes: seq<Vote>): nat {
    if votes == [] then 0 else TotalSelected(votes[..|votes| - 1]) + |votes[|votes| - 1].selected|
  }

  function CreditCount(marks: seq<Mark>, options: seq<PollOption>, n: nat): nat {
    if n == 0 then 0 else CreditCount(marks, options, n - 1) + |Credits(marks, options, n - 1)|
  }

  lemma {:induction false} CountAppend(marks: seq<Mark>, m: Mark, options: seq<PollOption>, n: nat)
    ensures CreditCount(marks + [m], options, n) ==
            CreditCount(marks, options, n) +
            var idx := IndexOf(options, m.1); if idx.Some? && idx.value < n then 1 else 0
  {
    if n > 0 {
      CountAppend(marks, m, options, n - 1);
      AppendMark(marks, m, options, n - 1);
    }
  }

  lemma {:induction false} NothingCounted(options: seq<PollOption>, n: nat)
    ensures CreditCount([], options, n) == 0
  {
    if n > 0 {
      NothingCounted(options, n - 1);
    }
  }

  lemma {:induction false} MarksAreCounted(marks: seq<Mark>, options: seq<PollOption>)
    ensures CreditCount(marks, options, |options|) + Unknown(marks, options) == |marks|
    decreases |marks|
  {
    if marks == [] {
      NothingCounted(options, |options|);
    } else {
      var front, m := marks[..|marks| - 1], marks[|marks| - 1];
      assert marks == front + [m];
      MarksAreCounted(front, options);
      CountAppend(front, m, options, |options|);
      AppendMark(front, m, options, 0);
    }
  }

  lemma {:induction false} MarkCount(voter: string, hashes: seq<string>)
    ensures |MarksOf(voter, hashes)| == |hashes|
  {
    if hashes != [] {
      MarkCount(voter, hashes[..|hashes| - 1]);
    }
  }

  lemma {:induction false} AllMarkCount(votes: seq<Vote>)
    ensures |AllMarks(votes)| == TotalSelected(votes)
  {
    if votes != [] {
      AllMarkCount(votes[..|votes| - 1]);
      MarkCount(votes[|votes| - 1].voter, votes[|votes| - 1].selected);
    }
  }

  lemma {:induction false} TotalIsCount(results: seq<OptionResult>, unknown: nat, options: seq<PollOption>,
                                        marks: seq<Mark>, n: nat)
    requires IsTally(results, unknown, options, marks) && n <= |results|
    ensures TotalVotes(results[..n]) == CreditCount(marks, options, n)
  {
    if n > 0 {
      TotalIsCount(results, unknown, options, marks, n - 1);
      assert results[..n][..n - 1] == results[..n - 1];
    }
  }

  /** No selection is lost: option votes and unknown votes together are all the hashes selected. */
  lemma TallyConserves(results: seq<OptionResult>, unknown: nat, options: seq<PollOption>, votes: seq<Vote>)
    requires IsTally(results, unknown, options, AllMarks(votes))
    ensures TotalVotes(results) + unknown == TotalSelected(votes)
    ensures forall i :: 0 <= i < |results| ==> results[i].votes == |results[i].voters|
  {
    MarksAreCounted(AllMarks(votes), options);
    AllMarkCount(votes);
    TotalIsCount(results, unknown, options, AllMarks(votes), |results|);
    assert results[..|results|] == results;
  }

  // ----- who is credited -----

  lemma {:induction false} CreditedVoter(marks: seq<Mark>, options: seq<PollOption>, i: nat, voter: string)
    ensures voter in Credits(marks, options, i) <==> exists h :: (voter, h) in marks && IndexOf(options, h) == Some(i)
  {
    if marks != [] {
      var front, m := marks[..|marks| - 1], marks[|marks| - 1];
      assert marks == front + [m];
      CreditedVoter(front, options, i, voter);
      AppendMark(front, m, options, i);
      assert (m.0, m.1) in marks;
      if voter in Credits(front, options, i) {
        var h :| (voter, h) in front && IndexOf(options, h) == Some(i);
        assert (voter, h) in marks;
      }
    }
  }

  lemma {:induction false} MarkMembers(voter: string, hashes: seq<string>, m: Mark)
    ensures m in MarksOf(voter, hashes) <==> m.0 == voter && m.1 in hashes
  {
    if hashes != [] {
      MarkMembers(voter, hashes[..|hashes| - 1], m);
      assert hashes == hashes[..|hashes| - 1] + [hashes[|hashes| - 1]];
    }
  }

  lemma {:induction false} AllMarkMembers(votes: seq<Vote>, m: Mark)
    ensures m in AllMarks(votes) <==> exists v :: v in votes && v.voter == m.0 && m.1 in v.selected
  {
    if votes != [] {
      var front, last := votes[..|votes| - 1], votes[|votes| - 1];
      assert votes == front + [last];
      AllMarkMembers(front, m);
      MarkMembers(last.voter, last.selected, m);
    }
  }

  ghost predicate OneVoteEach(votes: seq<Vote>) {
    forall i, j :: 0 <= i < j < |votes| ==> votes[i].voter != votes[j].voter
  }

  lemma {:induction false} DistinctCredits(voter: string, hashes: seq<string>, options: seq<PollOption>, i: nat)
    requires NoDuplicates(hashes)
    ensures |Credits(MarksOf(voter, hashes), options, i)| <= 1
  {
    if hashes != [] {
      var front, h := hashes[..|hashes| - 1], hashes[|hashes| - 1];
      DistinctCredits(voter, front, options, i);
      AppendMark(MarksOf(voter, front), (voter, h), options, i);
      if IndexOf(options, h) == Some(i) {
        CreditedOnlyBy(voter, front, options, i);
      }
    }
  }

  lemma {:induction false} CreditedOnlyBy(voter: string, hashes: seq<string>, options: seq<PollOption>, i: nat)
    requires i < |options| && options[i].hash !in hashes
    ensures Credits(MarksOf(voter, hashes), options, i) == []
  {
    if hashes != [] {
      CreditedOnlyBy(voter, hashes[..|hashes| - 1], options, i);
      AppendMark(MarksOf(voter, hashes[..|hashes| - 1]), (voter, hashes[|hashes| - 1]), options, i);
    }
  }

  lemma {:induction false} CreditsJoin(a: seq<Mark>, b: seq<Mark>, options: seq<PollOption>, i: nat)
    ensures Credits(a + b, options, i) == Credits(a, options, i) + Credits(b, options, i)
  {
    if b == [] {
      assert a + b == a;
    } else {
      assert (a + b)[..|a + b| - 1] == a + b[..|b| - 1];
      CreditsJoin(a, b[..|b| - 1], options, i);
    }
  }

  /** When nobody selects a hash twice, no voter is credited twice to an option. */
  lemma {:induction false} NobodyCountsTwice(votes: seq<Vote>, options: seq<PollOption>, i: nat)
    requires OneVoteEach(votes) && forall v :: v in votes ==> NoDuplicates(v.selected)
    ensures NoDuplicates(Credits(AllMarks(votes), options, i))
    decreases |votes|
  {
    if votes != [] {
      var front, last := votes[..|votes| - 1], votes[|votes| - 1];
      NobodyCountsTwice(front, options, i);
      var mine := MarksOf(last.voter, last.selected);
      CreditsJoin(AllMarks(front), mine, options, i);
      DistinctCredits(last.voter, last.selected, options, i);
      forall x | x in Credits(mine, options, i) ensures x !in Credits(AllMarks(front), options, i) {
        CreditedVoter(mine, options, i, x);
        CreditedVoter(AllMarks(front), options, i, x);
        forall h ensures (x, h) in mine ==> x == last.voter {
          MarkMembers(last.voter, last.selected, (x, h));
        }
        forall h ensures x != last.voter || (x, h) !in AllMarks(front) {
          AllMarkMembers(front, (x, h));
        }
      }
      JoinDistinct(Credits(AllMarks(front), options, i), Credits(mine, options, i));
    }
  }
}
