/** The round trip on ballots as events and callers store them. */
module PollSources {
  import opened CacheTables
  import opened IngestRuns
  import opened Polls
  import opened PollVoting
  import opened PollRoundTrip

  /** Every stored ballot has an address and the hashes of its own names. */
  ghost predicate BallotsHashed(ballots: map<Pair, seq<PollOption>>, hash: string -> string) {
    forall k :: k in ballots ==> k.0 != "" && k.1 != "" && Hashed(ballots[k], hash)
  }

  /** Storing a poll whose options come without hashes, as all callers do. */
  lemma StoringKeepsHashed(ballots: map<Pair, seq<PollOption>>, p: Poll, hash: string -> string)
    requires BallotsHashed(ballots, hash) && forall o :: o in p.options ==> o.hash == ""
    ensures BallotsHashed(UpsertBallot(ballots, p, hash), hash)
  {
    HashedBallotIsFaithful(p.options, hash);
  }

  lemma {:induction false} FoldKeepsHashed(ballots: map<Pair, seq<PollOption>>, log: Log, hash: string -> string)
    requires BallotsHashed(ballots, hash) && ProperWrites(log)
    ensures BallotsHashed(Fold(ballots, log, BallotStep(hash)), hash)
    decreases |log|
  {
    if log != [] {
      assert log[0] in log;
      if log[0].write.PutPoll? {
        StoringKeepsHashed(ballots, log[0].write.poll, hash);
      }
      FoldKeepsHashed(BallotStep(hash)(ballots, log[0].write, log[0].now), log[1..], hash);
    }
  }

  lemma RunsHashBallots(db: Db, events: seq<Timed>, hash: string -> string)
    requires BallotsHashed(db.ballots, hash)
    ensures BallotsHashed(Run(db, events, hash).ballots, hash)
  {
    RunIsReplay(db, events, hash);
    RunProper(db.messages, events);
    FoldKeepsHashed(db.ballots, RunLog(db.messages, events), hash);
  }

  /**
   After any run of events, a vote cast on any stored ballot whose names the hash tells apart is tallied
   for exactly the requested options and at most once for each, unless a newer vote of the voter is
   stored, which then keeps counting.
   */
  lemma CastOnStoredBallot(start: Db, events: seq<Timed>, hash: string -> string, db: Db, chat: string, poll: string,
                           voter: string, names: seq<string>, selected: seq<string>, time: Time,
                           before: seq<Vote>, after: seq<Vote>, i: nat)
    requires BallotsHashed(start.ballots, hash) && db == Run(start, events, hash)
    requires (chat, poll) in db.ballots && TellsApart(db.ballots[(chat, poll)], hash) && voter != ""
    requires Eligible(db.ballots[(chat, poll)], names) && IsSelection(selected, db.ballots[(chat, poll)], names)
    requires IsVoteList(before, db.votes, chat, poll)
    requires IsVoteList(after, UpsertVote(db.votes, CastVote(chat, poll, voter, selected, time, hash)), chat, poll)
    ensures var options := db.ballots[(chat, poll)];
            var credits := Credits(AllMarks(after), options, i);
            if IsStale(db.votes, chat, poll, voter, time) then
              voter in credits <==> voter in Credits(AllMarks(before), options, i)
            else
              (voter in credits <==> IsChosen(options, names, i)) && multiset(credits)[voter] <= 1
  {
    RunsHashBallots(start, events, hash);
    var options := db.ballots[(chat, poll)];
    CastThenTally(db.votes, chat, poll, voter, options, names, selected, time, hash, before, after, i);
    if !IsStale(db.votes, chat, poll, voter, time) {
      CastCountsOnce(db.votes, chat, poll, voter, options, names, selected, time, hash, after, i);
    }
  }
}
