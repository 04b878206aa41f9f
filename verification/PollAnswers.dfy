/** What a selection and a tally say, without reference to how they are collected. */
module PollAnswers {
  import opened Wrappers
  import Lex
  import opened Sorting
  import opened CacheTables
  import opened Polls
  import opened PollVoting
  import opened PollRoundTrip

  /** The last option of the ballot that has the name. */
  ghost predicate IsNameAt(options: seq<PollOption>, name: string, i: nat) {
    i < |options| && options[i].name == name && forall k :: i < k < |options| ==> options[k].name != name
  }

  lemma {:induction false} NameIndexIsLast(options: seq<PollOption>, name: string, i: nat)
    ensures NameIndex(options, name) == Some(i) <==> IsNameAt(options, name, i)
  {
    if options != [] {
      NameIndexIsLast(options[..|options| - 1], name, i);
    }
  }

  /** The selected names stand on the ballot in the order of the selection. */
  ghost predicate InOrder(out: seq<string>, options: seq<PollOption>) {
    forall i, j, k: nat, l: nat ::
      0 <= i < j < |out| && IsNameAt(options, out[i], k) && IsNameAt(options, out[j], l) ==> k < l
  }

  lemma {:induction false} ChosenInOrder(options: seq<PollOption>, names: seq<string>, chosen: set<nat>, n: nat)
    requires n <= |options| && IsChosenSet(chosen, options, names)
    ensures InOrder(InBallotOrder(options, chosen, n), options)
    ensures forall x, k: nat :: x in InBallotOrder(options, chosen, n) && IsNameAt(options, x, k) ==> k < n
  {
    if n > 0 {
      ChosenInOrder(options, names, chosen, n - 1);
      if n - 1 in chosen {
        NameIndexIsLast(options, options[n - 1].name, n - 1);
        assert IsNameAt(options, options[n - 1].name, n - 1);
      }
    }
  }

  /** Whatever the order of the request, the selection is in the order of the ballot. */
  lemma SelectionInOrder(out: seq<string>, options: seq<PollOption>, names: seq<string>)
    requires IsSelection(out, options, names)
    ensures InOrder(out, options)
  {
    var chosen: set<nat> :| IsChosenSet(chosen, options, names) && out == InBallotOrder(options, chosen, |options|);
    ChosenInOrder(options, names, chosen, |options|);
  }

  // ----- the tally -----

  /** Who selected a hash, in the order of the votes. */
  function VotersFor(votes: seq<Vote>, hash: string): seq<string> {
    if votes == [] then []
    else
      var last := votes[|votes| - 1];
      VotersFor(votes[..|votes| - 1], hash) + if hash in last.selected then [last.voter] else []
  }

  ghost predicate IsHashAt(options: seq<PollOption>, hash: string, i: nat) {
    i < |options| && options[i].hash == hash && forall k :: i < k < |options| ==> options[k].hash != hash
  }

  lemma {:induction false} IndexIsLast(options: seq<PollOption>, hash: string, i: nat)
    ensures IndexOf(options, hash) == Some(i) <==> IsHashAt(options, hash, i)
  {
    if options != [] {
      IndexIsLast(options[..|options| - 1], hash, i);
    }
  }

  lemma {:induction false} CreditsOfOne(voter: string, hashes: seq<string>, options: seq<PollOption>, i: nat)
    requires NoDuplicates(hashes) && i < |options| && IndexOf(options, options[i].hash) == Some(i)
    ensures Credits(MarksOf(voter, hashes), options, i) == if options[i].hash in hashes then [voter] else []
  {
    if hashes != [] {
      var front, h := hashes[..|hashes| - 1], hashes[|hashes| - 1];
      assert hashes == front + [h];
      CreditsOfOne(voter, front, options, i);
      AppendMark(MarksOf(voter, front), (voter, h), options, i);
    }
  }

  lemma {:induction false} CreditsAreVoters(votes: seq<Vote>, options: seq<PollOption>, i: nat)
    requires i < |options| && IndexOf(options, options[i].hash) == Some(i)
    requires forall v :: v in votes ==> NoDuplicates(v.selected)
    ensures Credits(AllMarks(votes), options, i) == VotersFor(votes, options[i].hash)
  {
    if votes != [] {
      var front, last := votes[..|votes| - 1], votes[|votes| - 1];
      CreditsAreVoters(front, options, i);
      CreditsOfOne(last.voter, last.selected, options, i);
      CreditsJoin(AllMarks(front), MarksOf(last.voter, last.selected), options, i);
    }
  }

  /** Each option of a ballot shows who selected its hash; only the last one with the hash does. */
  lemma TallySays(results: seq<OptionResult>, unknown: nat, options: seq<PollOption>, votes: seq<Vote>, i: nat)
    requires IsTally(results, unknown, options, AllMarks(votes)) && i < |options|
    requires forall v :: v in votes ==> NoDuplicates(v.selected)
    ensures |results| == |options| && results[i].option == options[i].name
    ensures results[i].voters ==
            if IsHashAt(options, options[i].hash, i) then VotersFor(votes, options[i].hash) else []
    ensures results[i].votes == |results[i].voters|
  {
    IndexIsLast(options, options[i].hash, i);
    if IsHashAt(options, options[i].hash, i) {
      CreditsAreVoters(votes, options, i);
    } else {
      NoCredits(AllMarks(votes), options, i);
    }
  }

  lemma {:induction false} NoCredits(marks: seq<Mark>, options: seq<PollOption>, i: nat)
    requires i < |options| && IndexOf(options, options[i].hash) != Some(i)
    ensures Credits(marks, options, i) == []
  {
    if marks != [] {
      NoCredits(marks[..|marks| - 1], options, i);
    }
  }

  /** The number of voters is that of the votes with a selection. */
  lemma {:induction false} VotersAreCasting(votes: seq<Vote>)
    requires OneVoteEach(votes)
    ensures Casting(votes) == |set v | v in votes && v.selected != [] :: v.voter|
    decreases |votes|
  {
    if votes != [] {
      var front, last := votes[..|votes| - 1], votes[|votes| - 1];
      VotersAreCasting(front);
      assert votes == front + [last];
      var before := set v | v in front && v.selected != [] :: v.voter;
      assert last.voter !in before;
      assert (set v | v in votes && v.selected != [] :: v.voter) ==
             if last.selected == [] then before else before + {last.voter};
    }
  }

  // ----- the tally of the stored votes -----

  /** The first voter voted earlier, or in the same second under the smaller JID. */
  ghost predicate Earlier(votes: map<Triple, VoteRow>, chat: string, poll: string, a: string, b: string) {
    && (chat, poll, a) in votes && (chat, poll, b) in votes
    && var s, t := votes[(chat, poll, a)].ts, votes[(chat, poll, b)].ts;
       s < t || (s == t && Lex.Less(a, b))
  }

  ghost predicate EarliestFirst(voters: seq<string>, votes: map<Triple, VoteRow>, chat: string, poll: string) {
    forall i, j :: 0 <= i < j < |voters| ==> Earlier(votes, chat, poll, voters[i], voters[j])
  }

  lemma EarliestNext(voters: seq<string>, votes: map<Triple, VoteRow>, chat: string, poll: string, x: string)
    requires EarliestFirst(voters, votes, chat, poll)
    requires forall v :: v in voters ==> Earlier(votes, chat, poll, v, x)
    ensures EarliestFirst(voters + [x], votes, chat, poll)
  {
  }

  lemma {:induction false} VotersInOrder(list: seq<Vote>, votes: map<Triple, VoteRow>, chat: string, poll: string,
                                         hash: string)
    requires StrictlySorted(list, BY_TIME) && forall v :: v in list ==> IsVoteOf(v, votes, chat, poll)
    ensures forall x :: x in VotersFor(list, hash) <==> exists v :: v in list && v.voter == x && hash in v.selected
    ensures EarliestFirst(VotersFor(list, hash), votes, chat, poll)
  {
    if list != [] {
      var front, last := list[..|list| - 1], list[|list| - 1];
      assert list == front + [last];
      VotersInOrder(front, votes, chat, poll, hash);
      forall x | x in VotersFor(front, hash) ensures Earlier(votes, chat, poll, x, last.voter) {
        var v :| v in front && v.voter == x && hash in v.selected;
        var k :| 0 <= k < |front| && front[k] == v;
        assert BY_TIME(list[k], last) && v in list && last in list;
      }
      if hash in last.selected {
        EarliestNext(VotersFor(front, hash), votes, chat, poll, last.voter);
      }
    }
  }

  /** The voters shown for an option are those whose stored selection has its hash, the earliest first. */
  lemma TallyOfTable(results: seq<OptionResult>, unknown: nat, options: seq<PollOption>, list: seq<Vote>,
                     votes: map<Triple, VoteRow>, chat: string, poll: string, i: nat)
    requires IsVoteList(list, votes, chat, poll) && IsTally(results, unknown, options, AllMarks(list))
    requires forall v :: v in list ==> NoDuplicates(v.selected)
    requires i < |options| && IsHashAt(options, options[i].hash, i)
    ensures |results| == |options|
    ensures forall x :: x in results[i].voters <==>
              (chat, poll, x) in votes && options[i].hash in votes[(chat, poll, x)].selected
    ensures EarliestFirst(results[i].voters, votes, chat, poll)
  {
    var hash := options[i].hash;
    TallySays(results, unknown, options, list, i);
    VotersInOrder(list, votes, chat, poll, hash);
    forall x ensures x in results[i].voters <==> (chat, poll, x) in votes && hash in votes[(chat, poll, x)].selected {
      if (chat, poll, x) in votes && hash in votes[(chat, poll, x)].selected {
        var row := votes[(chat, poll, x)];
        assert IsVoteOf(Vote(x, row.selected, row.ts), votes, chat, poll);
        assert Vote(x, row.selected, row.ts) in list;
      }
    }
  }
}
