/** Team voting in server/index.js: who votes, the tally `buildTeamVotingSnapshot`
    and `finalizeTeamRoundFromVotes` compute, the pass rule and the tie-break
    by the earliest vote, and the readiness test of `finalizeTeamRoundIfReady`. */
module Votes {
  import opened Generator
  import opened Rules

  /** A team member's vote: an option index, or `None` for a pass. */
  datatype Vote = Vote(answer: Option<int>, submittedAt: int, byName: string)

  /** A cast vote together with its voter. */
  datatype Entry = Entry(voter: Participant, vote: Vote)

  /** `getTeamVoters`: the non-host participants of `team`, in join order. */
  function TeamVoters(ps: seq<Participant>, team: Team): (r: seq<Participant>)
    ensures |r| == CountTeam(ps, team)
    ensures forall p :: p in r <==> p in ps && InTeam(p, team)
  {
    if ps == [] then []
    else
      var init := TeamVoters(ps[..|ps| - 1], team);
      var p := ps[|ps| - 1];
      assert ps == ps[..|ps| - 1] + [p];
      if InTeam(p, team) then init + [p] else init
  }

  /** The voters of `voters` that have voted, in the same order, each with
      its vote (`voteEntries`). */
  function VoteEntries(voters: seq<Participant>, votes: map<string, Vote>): (r: seq<Entry>)
    ensures |r| <= |voters|
    ensures forall e :: e in r ==> e.voter in voters && e.voter.id in votes && votes[e.voter.id] == e.vote
    ensures forall p :: p in voters && p.id in votes ==> Entry(p, votes[p.id]) in r
  {
    if voters == [] then []
    else
      var init := VoteEntries(voters[..|voters| - 1], votes);
      var p := voters[|voters| - 1];
      assert voters == voters[..|voters| - 1] + [p];
      if p.id in votes then init + [Entry(p, votes[p.id])] else init
  }

  lemma VoteEntriesSnoc(voters: seq<Participant>, p: Participant, votes: map<string, Vote>)
    ensures VoteEntries(voters + [p], votes) ==
      VoteEntries(voters, votes) + (if p.id in votes then [Entry(p, votes[p.id])] else [])
  {
    assert (voters + [p])[..|voters|] == voters;
  }

  /** How many of the entries vote for option `k`. */
  function CountOption(es: seq<Entry>, k: int): (n: nat)
    ensures n <= |es|
  {
    if es == [] then 0
    else CountOption(es[..|es| - 1], k) + (if es[|es| - 1].vote.answer == Some(k) then 1 else 0)
  }

  /** How many of the entries are passes. */
  function CountPass(es: seq<Entry>): (n: nat)
    ensures n <= |es|
  {
    if es == [] then 0
    else CountPass(es[..|es| - 1]) + (if es[|es| - 1].vote.answer.None? then 1 else 0)
  }

  lemma CountSnoc(es: seq<Entry>, e: Entry)
    ensures forall k :: CountOption(es + [e], k) == CountOption(es, k) + (if e.vote.answer == Some(k) then 1 else 0)
    ensures CountPass(es + [e]) == CountPass(es) + (if e.vote.answer.None? then 1 else 0)
  {
    assert (es + [e])[..|es|] == es;
  }

  /** A pass and a vote for one of the four options exclude each other, so
      the tally never counts more votes than were cast. */
  lemma {:induction false} TallyBound(es: seq<Entry>)
    ensures CountPass(es) + CountOption(es, 0) + CountOption(es, 1) + CountOption(es, 2) + CountOption(es, 3) <= |es|
  {
    if es != [] {
      TallyBound(es[..|es| - 1]);
    }
  }

  /** The four option counts of the entries. */
  function Counts(es: seq<Entry>): (r: seq<nat>)
    ensures |r| == 4
  {
    [CountOption(es, 0), CountOption(es, 1), CountOption(es, 2), CountOption(es, 3)]
  }

  /** One step of the counting loops: a pass, or a vote for one of the
      options 0..3; any other index is not counted. */
  method CountVote(optionVotes: seq<nat>, passVotes: nat, ghost es: seq<Entry>, e: Entry)
    returns (optionVotes': seq<nat>, passVotes': nat)
    requires optionVotes == Counts(es) && passVotes == CountPass(es)
    ensures optionVotes' == Counts(es + [e]) && passVotes' == CountPass(es + [e])
  {
    CountSnoc(es, e);
    optionVotes', passVotes' := optionVotes, passVotes;
    if e.vote.answer.None? {
      passVotes' := passVotes + 1;
    } else if 0 <= e.vote.answer.value <= 3 {
      var k := e.vote.answer.value;
      optionVotes' := optionVotes[k := optionVotes[k] + 1];
    }
  }

  /** The counting loop of `finalizeTeamRoundFromVotes`: passes, and votes
      for the options 0..3; any other index is not counted. */
  method Tally(entries: seq<Entry>) returns (optionVotes: seq<nat>, passVotes: nat)
    ensures optionVotes == Counts(entries)
    ensures passVotes == CountPass(entries)
  {
    optionVotes := [0, 0, 0, 0];
    passVotes := 0;
    var i := 0;
    while i < |entries|
      invariant 0 <= i <= |entries|
      invariant optionVotes == Counts(entries[..i])
      invariant passVotes == CountPass(entries[..i])
    {
      assert entries[..i + 1] == entries[..i] + [entries[i]];
      optionVotes, passVotes := CountVote(optionVotes, passVotes, entries[..i], entries[i]);
      i := i + 1;
    }
    assert entries[..i] == entries;
  }

  /** What `buildTeamVotingSnapshot` reports (the viewer's own vote aside). */
  datatype Snapshot = Snapshot(total: nat, submitted: nat, optionVotes: seq<nat>, passVotes: nat)

  /** `buildTeamVotingSnapshot`: the team size, how many of its members have
      voted, and the same counts the resolution uses. */
  method BuildSnapshot(voters: seq<Participant>, votes: map<string, Vote>) returns (s: Snapshot)
    ensures s.total == |voters|
    ensures s.submitted == |VoteEntries(voters, votes)|
    ensures s.optionVotes == Counts(VoteEntries(voters, votes))
    ensures s.passVotes == CountPass(VoteEntries(voters, votes))
  {
    var optionVotes: seq<nat> := [0, 0, 0, 0];
    var passVotes := 0;
    var submitted := 0;
    ghost var es: seq<Entry> := [];
    var i := 0;
    while i < |voters|
      invariant 0 <= i <= |voters|
      invariant es == VoteEntries(voters[..i], votes)
      invariant submitted == |es|
      invariant optionVotes == Counts(es)
      invariant passVotes == CountPass(es)
    {
      var p := voters[i];
      assert voters[..i + 1] == voters[..i] + [p];
      VoteEntriesSnoc(voters[..i], p, votes);
      if p.id in votes {
        optionVotes, passVotes := CountVote(optionVotes, passVotes, es, Entry(p, votes[p.id]));
        es := es + [Entry(p, votes[p.id])];
        submitted := submitted + 1;
      }
      i := i + 1;
    }
    assert voters[..i] == voters;
    s := Snapshot(|voters|, submitted, optionVotes, passVotes);
  }

  /** `finalizeTeamRoundIfReady`: an `all-voted` finalisation needs a
      non-empty team that has fully voted, a `timeout` one at least one vote. */
  function ReadyToFinalize(s: Snapshot, timeout: bool): (r: bool)
    ensures !timeout ==> (r <==> s.total >= 1 && s.submitted >= s.total)
    ensures timeout ==> (r <==> s.submitted >= 1)
  {
    if !timeout then !(s.total < 1 || s.submitted < s.total) else !(s.submitted < 1)
  }

  /** The largest count (`Math.max(...optionVotes)`). */
  function Best(ov: seq<nat>): (m: nat)
    requires |ov| == 4
    ensures forall k :: 0 <= k < 4 ==> ov[k] <= m
    ensures exists k :: 0 <= k < 4 && ov[k] == m
  {
    var a := if ov[0] >= ov[1] then ov[0] else ov[1];
    var b := if ov[2] >= ov[3] then ov[2] else ov[3];
    if a >= b then a else b
  }

  /** The options that share the top count, in index order. */
  function Winners(ov: seq<nat>): (w: seq<int>)
    requires |ov| == 4
    ensures w != []
    ensures forall k :: k in w <==> 0 <= k < 4 && ov[k] == Best(ov)
    ensures forall i, j :: 0 <= i < j < |w| ==> w[i] < w[j]
  {
    var best := Best(ov);
    (if ov[0] == best then [0] else []) + (if ov[1] == best then [1] else [])
      + (if ov[2] == best then [2] else []) + (if ov[3] == best then [3] else [])
  }

  /** An entry that votes for one of the options in `w`. */
  predicate VotesAmong(e: Entry, w: seq<int>) {
    e.vote.answer.Some? && e.vote.answer.value in w
  }

  /** The position of the vote the tie-break picks: filtering the entries
      to those for a tied option and sorting them stably by `submittedAt`
      puts first the earliest such vote, the first one among equal times. */
  function EarliestAmong(es: seq<Entry>, w: seq<int>): (r: Option<nat>)
    ensures r.None? <==> forall j :: 0 <= j < |es| ==> !VotesAmong(es[j], w)
    ensures r.Some? ==> r.value < |es| && VotesAmong(es[r.value], w)
    ensures r.Some? ==> forall j :: 0 <= j < |es| && VotesAmong(es[j], w) ==>
      es[r.value].vote.submittedAt < es[j].vote.submittedAt
      || (es[r.value].vote.submittedAt == es[j].vote.submittedAt && r.value <= j)
  {
    if es == [] then None
    else
      var n := |es| - 1;
      var init := es[..n];
      var r := EarliestAmong(init, w);
      assert forall j :: 0 <= j < n ==> es[j] == init[j];
      if !VotesAmong(es[n], w) then r
      else if r.None? || es[n].vote.submittedAt < es[r.value].vote.submittedAt then Some(n)
      else r
  }

  /** How a team round ends: a pass, or the option the team chose. */
  datatype Decision = PassDecision | AnswerDecision(index: int)

  /** The decision of `finalizeTeamRoundFromVotes` from its tally: a pass
      when passes strictly outnumber the best option or no option got a
      vote; otherwise the top option, and among tied top options the one of
      the earliest vote for any of them. */
  function Decide(optionVotes: seq<nat>, passVotes: nat, es: seq<Entry>): (d: Decision)
    requires |optionVotes| == 4
    ensures d.PassDecision? <==> passVotes > Best(optionVotes) || Best(optionVotes) == 0
    ensures d.AnswerDecision? ==> 0 <= d.index < 4 && optionVotes[d.index] == Best(optionVotes)
    ensures d.AnswerDecision? && |Winners(optionVotes)| == 1 ==> d.index == Winners(optionVotes)[0]
  {
    var best := Best(optionVotes);
    if passVotes > best || best <= 0 then PassDecision
    else
      var w := Winners(optionVotes);
      if |w| > 1 then
        var t := EarliestAmong(es, w);
        if t.Some? then AnswerDecision(es[t.value].vote.answer.value) else AnswerDecision(w[0])
      else AnswerDecision(w[0])
  }

  /** Each option with at least one vote has a voter among the entries. */
  lemma {:induction false} CountedHasVoter(es: seq<Entry>, k: int)
    requires CountOption(es, k) > 0
    ensures exists j :: 0 <= j < |es| && es[j].vote.answer == Some(k)
  {
    var n := |es| - 1;
    if es[n].vote.answer != Some(k) {
      CountedHasVoter(es[..n], k);
      var j :| 0 <= j < n && es[..n][j].vote.answer == Some(k);
      assert es[j] == es[..n][j];
    }
  }

  /** The tie-break over the real tally: with two or more options tied at
      the top, the chosen option is that of the earliest vote cast for any
      of them (the first of equally early ones), and that vote exists. */
  lemma DecideTieBreak(es: seq<Entry>)
    requires Decide(Counts(es), CountPass(es), es).AnswerDecision?
    requires |Winners(Counts(es))| > 1
    ensures var w := Winners(Counts(es));
      exists i :: 0 <= i < |es| && VotesAmong(es[i], w)
        && es[i].vote.answer == Some(Decide(Counts(es), CountPass(es), es).index)
        && forall j :: 0 <= j < |es| && VotesAmong(es[j], w) ==>
             es[i].vote.submittedAt < es[j].vote.submittedAt
             || (es[i].vote.submittedAt == es[j].vote.submittedAt && i <= j)
  {
    var ov := Counts(es);
    var w := Winners(ov);
    var k := w[0];
    assert ov[k] == Best(ov) > 0;
    CountedHasVoter(es, k);
    var j :| 0 <= j < |es| && es[j].vote.answer == Some(k);
    assert VotesAmong(es[j], w);
    var t := EarliestAmong(es, w);
    assert t.Some?;
  }

  /** The pass rule over the real tally: a round resolves as a pass exactly
      when passes outnumber every option, or when every counted vote is a
      pass (or no vote names an option). */
  lemma DecidePassRule(es: seq<Entry>)
    ensures var ov, d := Counts(es), Decide(Counts(es), CountPass(es), es);
      d.PassDecision? <==>
        (forall k :: 0 <= k < 4 ==> ov[k] < CountPass(es))
        || (forall k :: 0 <= k < 4 ==> ov[k] == 0)
  {
  }
}
