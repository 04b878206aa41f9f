/** Proposing a ballot, voting on it, and finding the vote in the tally. */
module PollVoting {
  import opened Wrappers
  import opened Sorting
  import opened CacheTables

  function Trimmed(texts: seq<string>, trim: string -> string): seq<string> {
    if texts == [] then [] else Trimmed(texts[..|texts| - 1], trim) + [trim(texts[|texts| - 1])]
  }

  lemma {:induction false} TrimmedAt(texts: seq<string>, trim: string -> string)
    ensures |Trimmed(texts, trim)| == |texts|
    ensures forall i :: 0 <= i < |texts| ==> Trimmed(texts, trim)[i] == trim(texts[i])
  {
    if texts != [] {
      TrimmedAt(texts[..|texts| - 1], trim);
    }
  }

  lemma TrimmedNext(texts: seq<string>, i: nat, trim: string -> string)
    requires i < |texts|
    ensures Trimmed(texts[..i + 1], trim) == Trimmed(texts[..i], trim) + [trim(texts[i])]
  {
    assert texts[..i + 1][..i] == texts[..i];
  }

  // ----- proposing a ballot -----

  const MIN_OPTIONS := 2
  const MAX_OPTIONS := 12

  datatype BallotError = TooFew | TooMany | EmptyOption(position: nat) | DuplicateOption(option: string)

  ghost predicate Proper(options: seq<string>) {
    "" !in options && NoDuplicates(options)
  }

  /** The first `i` options are fine and option `i` is not, for the reason given. */
  ghost predicate Explains(e: BallotError, texts: seq<string>, trim: string -> string, i: nat)
    requires i < |texts|
  {
    var before, option := Trimmed(texts[..i], trim), trim(texts[i]);
    && Proper(before)
    && (option == "" || option in before)
    && e == if option == "" then EmptyOption(i + 1) else DuplicateOption(option)
  }

  /** A ballot of 2 to 12 trimmed options that are not empty and all different, or the first thing wrong with it. */
  method NormalisePollOptions(texts: seq<string>, trim: string -> string) returns (r: Result<seq<string>, BallotError>)
    ensures r.Ok? ==> r.value == Trimmed(texts, trim)
    ensures r.Ok? <==> 2 <= |texts| <= 12 && Proper(Trimmed(texts, trim))
    ensures |texts| < 2 ==> r == Err(TooFew)
    ensures |texts| > 12 ==> r == Err(TooMany)
    ensures r.Err? && 2 <= |texts| <= 12
        ==> exists i: nat :: i < |texts| && Explains(r.error, texts, trim, i)
  {
    if |texts| < MIN_OPTIONS {
      return Err(TooFew);
    }
    if |texts| > MAX_OPTIONS {
      return Err(TooMany);
    }
    var seen: set<string> := {};
    var out: seq<string> := [];
    TrimmedAt(texts, trim);
    for i := 0 to |texts|
      invariant out == Trimmed(texts[..i], trim) && Proper(out)
      invariant forall x :: x in seen <==> x in out
    {
      var option := trim(texts[i]);
      TrimmedAt(texts[..i], trim);
      TrimmedNext(texts, i, trim);
      if option == "" {
        assert Trimmed(texts, trim)[i] == "";
        assert Explains(EmptyOption(i + 1), texts, trim, i);
        return Err(EmptyOption(i + 1));
      }
      if option in seen {
        var k :| 0 <= k < i && out[k] == option;
        assert Trimmed(texts, trim)[k] == Trimmed(texts, trim)[i];
        assert Explains(DuplicateOption(option), texts, trim, i);
        return Err(DuplicateOption(option));
      }
      seen := seen + {option};
      out := out + [option];
    }
    assert texts[..|texts|] == texts;
    return Ok(out);
  }

  // ----- choosing from a ballot -----

  datatype MatchError = NotOnBallot(option: string) | SelectedTwice(option: string)

  /** The position of a name on the ballot: the last one, should it occur twice. */
  function NameIndex(options: seq<PollOption>, name: string): (r: Option<nat>)
    ensures r.Some? ==> r.value < |options| && options[r.value].name == name
  {
    if options == [] then None
    else if options[|options| - 1].name == name then Some(|options| - 1)
    else NameIndex(options[..|options| - 1], name)
  }

  /** Every requested name is on the ballot, and none is requested twice. */
  ghost predicate Eligible(options: seq<PollOption>, names: seq<string>) {
    (forall n :: n in names ==> NameIndex(options, n).Some?) && NoDuplicates(names)
  }

  ghost predicate IsChosen(options: seq<PollOption>, names: seq<string>, i: nat) {
    exists n :: n in names && NameIndex(options, n) == Some(i)
  }

  /** The chosen options' names, in ballot order. */
  function InBallotOrder(options: seq<PollOption>, chosen: set<nat>, n: nat): seq<string>
    requires n <= |options|
  {
    if n == 0 then [] else InBallotOrder(options, chosen, n - 1) + if n - 1 in chosen then [options[n - 1].name] else []
  }

  ghost predicate IsChosenSet(chosen: set<nat>, options: seq<PollOption>, names: seq<string>) {
    forall i: nat :: i in chosen <==> IsChosen(options, names, i)
  }

  ghost predicate IsSelection(out: seq<string>, options: seq<PollOption>, names: seq<string>) {
    exists chosen: set<nat> :: IsChosenSet(chosen, options, names) && out == InBallotOrder(options, chosen, |options|)
  }

  ghost predicate IsNameIndex(byName: map<string, nat>, options: seq<PollOption>) {
    forall n :: NameIndex(options, n) == if n in byName then Some(byName[n]) else None
  }

  method IndexByName(options: seq<PollOption>) returns (byName: map<string, nat>)
    ensures IsNameIndex(byName, options)
  {
    byName := map[];
    for i := 0 to |options|
      invariant IsNameIndex(byName, options[..i])
    {
      assert options[..i + 1][..i] == options[..i];
      byName := byName[options[i].name := i];
    }
    assert options[..|options|] == options;
  }

  method Collect(options: seq<PollOption>, chosen: set<nat>) returns (out: seq<string>)
    ensures out == InBallotOrder(options, chosen, |options|)
  {
    out := [];
    for i := 0 to |options|
      invariant out == InBallotOrder(options, chosen, i)
    {
      if i in chosen {
        out := out + [options[i].name];
      }
    }
  }

  lemma ChosenNext(options: seq<PollOption>, names: seq<string>, n: string, i: nat)
    ensures IsChosen(options, names + [n], i) <==> IsChosen(options, names, i) || NameIndex(options, n) == Some(i)
  {
    if IsChosen(options, names, i) {
      var m :| m in names && NameIndex(options, m) == Some(i);
      assert m in names + [n];
    }
    assert n in names + [n];
  }

  lemma ChosenMore(chosen: set<nat>, options: seq<PollOption>, names: seq<string>, n: string, i: nat)
    requires IsChosenSet(chosen, options, names) && NameIndex(options, n) == Some(i)
    ensures IsChosenSet(chosen + {i}, options, names + [n])
  {
    forall k: nat ensures k in chosen + {i} <==> IsChosen(options, names + [n], k) {
      ChosenNext(options, names, n, k);
    }
  }

  lemma ChosenName(options: seq<PollOption>, names: seq<string>, n: string)
    requires NameIndex(options, n).Some?
    ensures IsChosen(options, names, NameIndex(options, n).value) <==> n in names
  {
  }

  /** The first `i` requests are fine and request `i` is not, for the reason given. */
  ghost predicate Refuses(e: MatchError, options: seq<PollOption>, names: seq<string>, i: nat)
    requires i < |names|
  {
    && Eligible(options, names[..i])
    && if forall o :: o in options ==> o.name != names[i] then e == NotOnBallot(names[i])
       else names[i] in names[..i] && e == SelectedTwice(names[i])
  }

  ghost predicate IsRefusal(e: MatchError, options: seq<PollOption>, names: seq<string>) {
    exists i: nat :: i < |names| && Refuses(e, options, names, i)
  }

  lemma {:induction false} OnBallot(options: seq<PollOption>, name: string)
    ensures NameIndex(options, name).Some? <==> exists o :: o in options && o.name == name
  {
    if options != [] {
      OnBallot(options[..|options| - 1], name);
      assert options == options[..|options| - 1] + [options[|options| - 1]];
    }
  }

  /** A faulty request explains the refusal. */
  lemma RefusedAt(e: MatchError, options: seq<PollOption>, requested: seq<string>, trim: string -> string, i: nat)
    requires i < |requested| && Eligible(options, Trimmed(requested[..i], trim))
    requires var option := trim(requested[i]);
             if NameIndex(options, option).None? then e == NotOnBallot(option)
             else option in Trimmed(requested[..i], trim) && e == SelectedTwice(option)
    ensures IsRefusal(e, options, Trimmed(requested, trim)) && !Eligible(options, Trimmed(requested, trim))
  {
    var names, before := Trimmed(requested, trim), Trimmed(requested[..i], trim);
    TrimmedAt(requested, trim);
    TrimmedAt(requested[..i], trim);
    OnBallot(options, names[i]);
    assert names[..i] == before;
    assert names[i] in names;
    if names[i] in before {
      var k :| 0 <= k < i && before[k] == names[i];
      assert names[k] == names[i];
    }
    assert Refuses(e, options, names, i);
  }

  lemma EligibleNext(options: seq<PollOption>, names: seq<string>, n: string)
    requires Eligible(options, names) && NameIndex(options, n).Some? && n !in names
    ensures Eligible(options, names + [n])
  {
  }

  /** Resolves the requested options against the ballot; an empty request withdraws the vote. */
  method MatchPollOptions(options: seq<PollOption>, requested: seq<string>, trim: string -> string)
    returns (r: Result<seq<string>, MatchError>)
    ensures r.Ok? <==> Eligible(options, Trimmed(requested, trim))
    ensures r.Ok? ==> IsSelection(r.value, options, Trimmed(requested, trim))
    ensures r.Err? ==> IsRefusal(r.error, options, Trimmed(requested, trim))
  {
    if requested == [] {
      NothingChosen(options, |options|);
      assert IsChosenSet({}, options, []);
      return Ok([]);
    }
    var byName := IndexByName(options);
    var chosen: set<nat> := {};
    for i := 0 to |requested|
      invariant Eligible(options, Trimmed(requested[..i], trim))
      invariant IsChosenSet(chosen, options, Trimmed(requested[..i], trim))
    {
      var option := trim(requested[i]);
      ghost var before := Trimmed(requested[..i], trim);
      TrimmedNext(requested, i, trim);
      assert NameIndex(options, option) == if option in byName then Some(byName[option]) else None;
      if option !in byName {
        RefusedAt(NotOnBallot(option), options, requested, trim, i);
        return Err(NotOnBallot(option));
      }
      var idx := byName[option];
      ChosenName(options, before, option);
      if idx in chosen {
        RefusedAt(SelectedTwice(option), options, requested, trim, i);
        return Err(SelectedTwice(option));
      }
      EligibleNext(options, before, option);
      ChosenMore(chosen, options, before, option, idx);
      chosen := chosen + {idx};
    }
    assert requested[..|requested|] == requested;
    var out := Collect(options, chosen);
    return Ok(out);
  }

  lemma {:induction false} NothingChosen(options: seq<PollOption>, n: nat)
    requires n <= |options|
    ensures InBallotOrder(options, {}, n) == []
  {
    if n > 0 {
      NothingChosen(options, n - 1);
    }
  }

  lemma {:induction false} SelectedNames(options: seq<PollOption>, chosen: set<nat>, n: nat, x: string)
    requires n <= |options|
    ensures x in InBallotOrder(options, chosen, n) <==> exists i: nat :: i < n && i in chosen && options[i].name == x
  {
    if n > 0 {
      SelectedNames(options, chosen, n - 1, x);
    }
  }

  lemma {:induction false} SelectedOnce(options: seq<PollOption>, names: seq<string>, chosen: set<nat>, n: nat)
    requires n <= |options| && IsChosenSet(chosen, options, names)
    ensures NoDuplicates(InBallotOrder(options, chosen, n))
  {
    if n > 0 {
      SelectedOnce(options, names, chosen, n - 1);
      if n - 1 in chosen {
        SelectedNames(options, chosen, n - 1, options[n - 1].name);
        assert NameIndex(options, options[n - 1].name) == Some(n - 1);
      }
    }
  }

  /** The selection is what was requested, each name once, in ballot order whatever the order of the request. */
  lemma SelectionIsRequest(out: seq<string>, options: seq<PollOption>, names: seq<string>)
    requires IsSelection(out, options, names) && Eligible(options, names)
    ensures NoDuplicates(out) && forall x :: x in out <==> x in names
  {
    var chosen: set<nat> :| IsChosenSet(chosen, options, names) && out == InBallotOrder(options, chosen, |options|);
    SelectedOnce(options, names, chosen, |options|);
    forall x ensures x in out <==> x in names {
      SelectedNames(options, chosen, |options|, x);
      if x in names {
        ChosenName(options, names, x);
      }
    }
  }

  lemma RequestOrderIsIrrelevant(out: seq<string>, again: seq<string>, options: seq<PollOption>, a: seq<string>,
                                 b: seq<string>)
    requires multiset(a) == multiset(b)
    requires IsSelection(out, options, a) && IsSelection(again, options, b)
    ensures out == again && (Eligible(options, a) <==> Eligible(options, b))
  {
    forall x ensures x in a <==> x in b {
      assert x in multiset(a) <==> x in multiset(b);
    }
    var c: set<nat> :| IsChosenSet(c, options, a) && out == InBallotOrder(options, c, |options|);
    var d: set<nat> :| IsChosenSet(d, options, b) && again == InBallotOrder(options, d, |options|);
    assert c == d;
    if NoDuplicates(a) {
      PermutationNoDuplicates(a, b);
    }
    if NoDuplicates(b) {
      PermutationNoDuplicates(b, a);
    }
  }
}
