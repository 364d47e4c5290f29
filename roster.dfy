/** The room's participants and player statistics (server/index.js): the
    `participants` Map keyed by socket id (kept as a sequence in insertion
    order), the join-order sort, the pick of the player that lobby
    rebalancing moves, `ensureParticipantStat` and the loops that charge
    penalties, credit team votes, reset and disconnect the statistics. */
module Roster {
  import opened Text
  import opened Generator
  import opened Rules
  import opened Votes

  // ---------------------------------------------------------------- the participants Map

  /** Socket ids are the Map's keys, so they never repeat. */
  predicate DistinctSockets(ps: seq<Participant>) {
    forall i, j :: 0 <= i < j < |ps| ==> ps[i].socketId != ps[j].socketId
  }

  /** `participants.get(socketId)`, as a position. */
  function FindSocket(ps: seq<Participant>, sid: string): (r: Option<nat>)
    ensures r.Some? ==> r.value < |ps| && ps[r.value].socketId == sid
    ensures r.None? <==> forall i :: 0 <= i < |ps| ==> ps[i].socketId != sid
  {
    if ps == [] then None
    else if ps[|ps| - 1].socketId == sid then Some(|ps| - 1)
    else FindSocket(ps[..|ps| - 1], sid)
  }

  /** With distinct keys the lookup finds the one participant on a socket. */
  lemma FindSocketUnique(ps: seq<Participant>, i: nat)
    requires DistinctSockets(ps) && i < |ps|
    ensures FindSocket(ps, ps[i].socketId) == Some(i)
  {
    var r := FindSocket(ps, ps[i].socketId);
    assert r.Some?;
  }

  /** `participants.set(p.socketId, p)`: a present key keeps its place and
      takes the new value, a new key goes last. */
  function SetParticipant(ps: seq<Participant>, p: Participant): (r: seq<Participant>)
    requires DistinctSockets(ps)
    ensures DistinctSockets(r)
    ensures FindSocket(r, p.socketId).Some? && r[FindSocket(r, p.socketId).value] == p
    ensures forall q :: q in r ==> q == p || (q in ps && q.socketId != p.socketId)
    ensures forall q :: q in ps && q.socketId != p.socketId ==> q in r
    ensures |r| == |ps| + (if FindSocket(ps, p.socketId).None? then 1 else 0)
  {
    match FindSocket(ps, p.socketId)
    case None =>
      var r := ps + [p];
      assert forall i :: 0 <= i < |ps| ==> r[i] == ps[i];
      assert r[|ps|] == p;
      FindSocketUnique(r, |ps|);
      r
    case Some(i) =>
      var r := ps[i := p];
      assert forall j :: 0 <= j < |ps| && j != i ==> r[j] == ps[j];
      FindSocketUnique(r, i);
      r
  }

  /** `participants.delete(socketId)`. */
  function DeleteSocket(ps: seq<Participant>, sid: string): (r: seq<Participant>)
    ensures forall q :: q in r <==> q in ps && q.socketId != sid
    ensures DistinctSockets(ps) ==> DistinctSockets(r)
    ensures |r| <= |ps|
  {
    if ps == [] then []
    else
      var init := DeleteSocket(ps[..|ps| - 1], sid);
      var p := ps[|ps| - 1];
      assert ps == ps[..|ps| - 1] + [p];
      if p.socketId == sid then init
      else
        var r := init + [p];
        assert forall i :: 0 <= i < |init| ==> r[i] == init[i];
        assert DistinctSockets(ps) ==> forall q :: q in init ==> q.socketId != p.socketId;
        r
  }

  /** `getNonHostPlayers`. */
  function NonHostPlayers(ps: seq<Participant>): (r: seq<Participant>)
    ensures |r| == PlayerCount(ps)
    ensures forall q :: q in r <==> q in ps && q.role.Member?
  {
    if ps == [] then []
    else
      var init := NonHostPlayers(ps[..|ps| - 1]);
      var p := ps[|ps| - 1];
      assert ps == ps[..|ps| - 1] + [p];
      if p.role.Member? then init + [p] else init
  }

  /** The first non-host participant whose id is `id` (`host:kickPlayer`). */
  function FindPlayerById(ps: seq<Participant>, id: string): (r: Option<nat>)
    ensures r.Some? ==> r.value < |ps| && ps[r.value].id == id && ps[r.value].role.Member?
    ensures r.None? <==> forall i :: 0 <= i < |ps| ==> !(ps[i].id == id && ps[i].role.Member?)
    ensures r.Some? ==> forall i :: 0 <= i < r.value ==> !(ps[i].id == id && ps[i].role.Member?)
  {
    if ps == [] then None
    else if ps[0].id == id && ps[0].role.Member? then Some(0)
    else
      var r := FindPlayerById(ps[1..], id);
      if r.None? then None else Some(r.value + 1)
  }

  function Ids(ps: seq<Participant>): (r: seq<string>)
    ensures |r| == |ps| && forall i :: 0 <= i < |ps| ==> r[i] == ps[i].id
  {
    if ps == [] then [] else Ids(ps[..|ps| - 1]) + [ps[|ps| - 1].id]
  }

  /** Player ids never repeat among the participants. */
  predicate DistinctIds(ps: seq<Participant>) {
    forall i, j :: 0 <= i < j < |ps| ==> ps[i].id != ps[j].id
  }

  // ---------------------------------------------------------------- join order

  predicate SortedByJoin(ps: seq<Participant>) {
    forall i, j :: 0 <= i < j < |ps| ==> ps[i].joinedAt <= ps[j].joinedAt
  }

  /** Places `x` after the last element, counted from the end, that joined
      no later than it. */
  function InsertByJoin(x: Participant, s: seq<Participant>): (r: seq<Participant>)
    ensures multiset(r) == multiset(s) + multiset{x}
    ensures |r| == |s| + 1
  {
    if s == [] then [x]
    else if s[|s| - 1].joinedAt <= x.joinedAt then s + [x]
    else
      var init := s[..|s| - 1];
      var last := s[|s| - 1];
      assert s == init + [last];
      InsertByJoin(x, init) + [last]
  }

  lemma {:induction false} InsertByJoinSorted(x: Participant, s: seq<Participant>)
    requires SortedByJoin(s)
    ensures SortedByJoin(InsertByJoin(x, s))
  {
    if s != [] && s[|s| - 1].joinedAt > x.joinedAt {
      var init := s[..|s| - 1];
      var last := s[|s| - 1];
      InsertByJoinSorted(x, init);
      var r' := InsertByJoin(x, init);
      forall i | 0 <= i < |r'| ensures r'[i].joinedAt <= last.joinedAt {
        assert r'[i] in multiset(r');
        assert r'[i] in multiset(init) || r'[i] == x;
      }
    }
  }

  /** The stable sort `sort((a, b) => a.joinedAt - b.joinedAt)`: each
      element is placed after all earlier ones that joined no later. */
  function SortByJoin(ps: seq<Participant>): (r: seq<Participant>)
    ensures multiset(r) == multiset(ps)
    ensures |r| == |ps|
  {
    if ps == [] then []
    else
      assert ps == ps[..|ps| - 1] + [ps[|ps| - 1]];
      InsertByJoin(ps[|ps| - 1], SortByJoin(ps[..|ps| - 1]))
  }

  /** The sort orders by join time and keeps every participant. */
  lemma {:induction false} SortByJoinSorted(ps: seq<Participant>)
    ensures SortedByJoin(SortByJoin(ps))
    ensures forall q :: q in SortByJoin(ps) <==> q in ps
  {
    if ps != [] {
      SortByJoinSorted(ps[..|ps| - 1]);
      InsertByJoinSorted(ps[|ps| - 1], SortByJoin(ps[..|ps| - 1]));
    }
    forall q ensures q in SortByJoin(ps) <==> q in ps {
      assert q in SortByJoin(ps) <==> q in multiset(SortByJoin(ps));
      assert q in ps <==> q in multiset(ps);
    }
  }

  // ---------------------------------------------------------------- rebalancing

  predicate Unlocked(p: Participant, team: Team) {
    InTeam(p, team) && !p.teamLocked
  }

  /** `pickUnlockedCandidate`: the last unlocked element of the list. */
  function LastUnlocked(list: seq<Participant>, team: Team): (r: Option<nat>)
    ensures r.Some? ==> r.value < |list| && Unlocked(list[r.value], team)
    ensures r.Some? ==> forall j :: r.value < j < |list| ==> !Unlocked(list[j], team)
    ensures r.None? <==> forall j :: 0 <= j < |list| ==> !Unlocked(list[j], team)
  {
    if list == [] then None
    else if Unlocked(list[|list| - 1], team) then Some(|list| - 1)
    else LastUnlocked(list[..|list| - 1], team)
  }

  /** The backward scan of `pickUnlockedCandidate`. */
  method PickUnlockedCandidate(list: seq<Participant>, team: Team) returns (r: Option<nat>)
    ensures r == LastUnlocked(list, team)
  {
    var index := |list| - 1;
    while index >= 0
      invariant -1 <= index < |list|
      invariant LastUnlocked(list, team) == LastUnlocked(list[..index + 1], team)
    {
      LastUnlockedStep(list, index, team);
      if Unlocked(list[index], team) {
        return Some(index);
      }
      index := index - 1;
    }
    assert list[..0] == [];
    return None;
  }

  lemma LastUnlockedStep(list: seq<Participant>, i: nat, team: Team)
    requires i < |list|
    ensures LastUnlocked(list[..i + 1], team) ==
      if Unlocked(list[i], team) then Some(i) else LastUnlocked(list[..i], team)
  {
    assert list[..i + 1][..i] == list[..i];
  }

  /** In a join-sorted list the candidate has the latest join time of all
      unlocked members of its team. */
  lemma CandidateJoinedLast(list: seq<Participant>, team: Team)
    requires SortedByJoin(list) && LastUnlocked(list, team).Some?
    ensures forall j :: 0 <= j < |list| && Unlocked(list[j], team) ==>
      list[j].joinedAt <= list[LastUnlocked(list, team).value].joinedAt
  {
    var c := LastUnlocked(list, team).value;
    forall j | 0 <= j < |list| && Unlocked(list[j], team)
      ensures list[j].joinedAt <= list[c].joinedAt
    {
      assert j <= c;
    }
  }

  /** The player `rebalanceTeamsInLobby` moves and the team it leaves: in a
      non-duel team lobby whose teams differ by more than one, the last
      unlocked player of the larger team in the join-sorted player list. */
  function RebalanceMove(ps: seq<Participant>, status: Status, format: Format, duel: bool): Option<Participant>
  {
    if status != Lobby || format != Teams || duel then None
    else
      var players := SortByJoin(NonHostPlayers(ps));
      var a, b := TeamVoters(players, A), TeamVoters(players, B);
      if Gap(|a|, |b|) <= 1 then None
      else
        var list := if |a| > |b| then a else b;
        var c := LastUnlocked(list, if |a| > |b| then A else B);
        if c.None? then None else Some(list[c.value])
  }

  /** The participants after `rebalanceTeamsInLobby`: the moved player
      switches team in place. */
  function Rebalanced(ps: seq<Participant>, status: Status, format: Format, duel: bool): seq<Participant>
  {
    match RebalanceMove(ps, status, format, duel)
    case None => ps
    case Some(q) => if q.role.Member? then MoveToOtherTeam(ps, q) else ps
  }

  /** The moved player is an unlocked member of the team that is larger by
      at least two, joined no earlier than any other unlocked member of it,
      and sits in the room. */
  lemma RebalanceMoveSound(ps: seq<Participant>, status: Status, format: Format, duel: bool)
    requires RebalanceMove(ps, status, format, duel).Some?
    ensures var q := RebalanceMove(ps, status, format, duel).value;
      && q in ps && q.role.Member? && !q.teamLocked
      && CountTeam(ps, q.role.team) >= CountTeam(ps, Other(q.role.team)) + 2
      && forall p :: p in ps && Unlocked(p, q.role.team) ==> p.joinedAt <= q.joinedAt
  {
    var players := SortByJoin(NonHostPlayers(ps));
    var a, b := TeamVoters(players, A), TeamVoters(players, B);
    var from := if |a| > |b| then A else B;
    var list := if |a| > |b| then a else b;
    assert list == TeamVoters(players, from);
    var c := LastUnlocked(list, from).value;
    assert RebalanceMove(ps, status, format, duel) == Some(list[c]);
    SortedTeamSizes(ps, A);
    SortedTeamSizes(ps, B);
    CandidateFacts(ps, from, c);
  }

  /** The last unlocked member of a team in the join-sorted player list is
      a participant of that team and no unlocked member joined after it. */
  lemma CandidateFacts(ps: seq<Participant>, from: Team, c: nat)
    requires LastUnlocked(TeamVoters(SortByJoin(NonHostPlayers(ps)), from), from) == Some(c)
    ensures var q := TeamVoters(SortByJoin(NonHostPlayers(ps)), from)[c];
      && q in ps && InTeam(q, from) && !q.teamLocked
      && forall p :: p in ps && Unlocked(p, from) ==> p.joinedAt <= q.joinedAt
  {
    var players := SortByJoin(NonHostPlayers(ps));
    var list := TeamVoters(players, from);
    SortByJoinSorted(NonHostPlayers(ps));
    TeamVotersSorted(players, from);
    CandidateJoinedLast(list, from);
    assert list[c] in list;
    forall p | p in ps && Unlocked(p, from) ensures p.joinedAt <= list[c].joinedAt {
      assert p in players;
      assert p in list;
      var j :| 0 <= j < |list| && list[j] == p;
      assert Unlocked(list[j], from);
    }
  }

  lemma {:induction false} TeamVotersSorted(players: seq<Participant>, team: Team)
    requires SortedByJoin(players)
    ensures SortedByJoin(TeamVoters(players, team))
  {
    if players != [] {
      var init := players[..|players| - 1];
      var p := players[|players| - 1];
      TeamVotersSorted(init, team);
      var t := TeamVoters(init, team);
      forall q | q in t ensures q.joinedAt <= p.joinedAt {
        var k :| 0 <= k < |init| && init[k] == q;
        assert players[k] == q;
      }
    }
  }

  /** Team sizes of the sorted player list are those of the room. */
  lemma SortedTeamSizes(ps: seq<Participant>, t: Team)
    ensures |TeamVoters(SortByJoin(NonHostPlayers(ps)), t)| == CountTeam(ps, t)
  {
    CountTeamSorted(NonHostPlayers(ps), t);
    CountNonHost(ps, t);
  }

  lemma {:induction false} CountNonHost(ps: seq<Participant>, t: Team)
    ensures CountTeam(NonHostPlayers(ps), t) == CountTeam(ps, t)
  {
    if ps != [] {
      var init := ps[..|ps| - 1];
      var p := ps[|ps| - 1];
      CountNonHost(init, t);
      if p.role.Member? {
        CountTeamSnoc(NonHostPlayers(init), p, t);
      }
    }
  }

  lemma {:induction false} CountTeamInsert(x: Participant, s: seq<Participant>, t: Team)
    ensures CountTeam(InsertByJoin(x, s), t) == CountTeam(s, t) + (if InTeam(x, t) then 1 else 0)
  {
    if s == [] {
      CountTeamSnoc([], x, t);
    } else if s[|s| - 1].joinedAt <= x.joinedAt {
      CountTeamSnoc(s, x, t);
    } else {
      var init := s[..|s| - 1];
      var last := s[|s| - 1];
      assert s == init + [last];
      CountTeamInsert(x, init, t);
      CountTeamSnoc(InsertByJoin(x, init), last, t);
      CountTeamSnoc(init, last, t);
    }
  }

  lemma {:induction false} CountTeamSorted(ps: seq<Participant>, t: Team)
    ensures CountTeam(SortByJoin(ps), t) == CountTeam(ps, t)
  {
    if ps != [] {
      var init := ps[..|ps| - 1];
      var p := ps[|ps| - 1];
      assert ps == init + [p];
      CountTeamSorted(init, t);
      CountTeamInsert(p, SortByJoin(init), t);
      CountTeamSnoc(init, p, t);
    }
  }

  /** Switching the participant `q` to the other team in place. */
  function MoveToOtherTeam(ps: seq<Participant>, q: Participant): seq<Participant>
    requires q.role.Member?
  {
    var i := FindSocket(ps, q.socketId);
    if i.None? then ps else ps[i.value := ps[i.value].(role := Member(Other(q.role.team)))]
  }

  /** The switch changes only `q`, keeps the socket keys, and moves one
      count from `q`'s team to the other. */
  lemma MoveEffect(ps: seq<Participant>, q: Participant)
    requires DistinctSockets(ps) && q in ps && q.role.Member?
    ensures var r := MoveToOtherTeam(ps, q);
      && DistinctSockets(r) && |r| == |ps|
      && (forall k :: 0 <= k < |ps| ==> r[k] == if ps[k] == q then q.(role := Member(Other(q.role.team))) else ps[k])
      && CountTeam(r, q.role.team) == CountTeam(ps, q.role.team) - 1
      && CountTeam(r, Other(q.role.team)) == CountTeam(ps, Other(q.role.team)) + 1
  {
    var j :| 0 <= j < |ps| && ps[j] == q;
    FindSocketUnique(ps, j);
    CountTeamMove(ps, j, q.role.team);
    forall k | 0 <= k < |ps| && k != j ensures ps[k] != q {
      assert ps[k].socketId != ps[j].socketId;
    }
  }

  /** Rebalancing leaves a room alone unless it is a non-duel team lobby
      whose teams differ by more than one. */
  lemma RebalanceOnlyLopsided(ps: seq<Participant>, status: Status, format: Format, duel: bool)
    requires status != Lobby || format != Teams || duel || Gap(CountTeam(ps, A), CountTeam(ps, B)) <= 1
    ensures Rebalanced(ps, status, format, duel) == ps
  {
    SortedTeamSizes(ps, A);
    SortedTeamSizes(ps, B);
  }

  /** When rebalancing moves a player, that player changes team in place,
      the gap between the teams shrinks by two and the socket keys stay. */
  lemma RebalanceEffect(ps: seq<Participant>, status: Status, format: Format, duel: bool)
    requires DistinctSockets(ps) && RebalanceMove(ps, status, format, duel).Some?
    ensures var r := Rebalanced(ps, status, format, duel);
      var q := RebalanceMove(ps, status, format, duel).value;
      && DistinctSockets(r) && |r| == |ps|
      && (forall k :: 0 <= k < |ps| ==> r[k] == if ps[k] == q then q.(role := Member(Other(q.role.team))) else ps[k])
      && Gap(CountTeam(r, A), CountTeam(r, B)) == Gap(CountTeam(ps, A), CountTeam(ps, B)) - 2
  {
    RebalanceMoveSound(ps, status, format, duel);
    MoveEffect(ps, RebalanceMove(ps, status, format, duel).value);
  }

  /** Rebalancing only changes a team: every seat keeps its socket and id. */
  lemma RebalancedKeepsSeats(ps: seq<Participant>, status: Status, format: Format, duel: bool)
    ensures var r := Rebalanced(ps, status, format, duel);
      |r| == |ps| && forall k :: 0 <= k < |r| ==> r[k].socketId == ps[k].socketId && r[k].id == ps[k].id
  {
    var m := RebalanceMove(ps, status, format, duel);
    if m.Some? && m.value.role.Member? {
      MoveKeepsSeats(ps, m.value);
    }
  }

  lemma MoveKeepsSeats(ps: seq<Participant>, q: Participant)
    requires q.role.Member?
    ensures var r := MoveToOtherTeam(ps, q);
      |r| == |ps| && forall k :: 0 <= k < |r| ==> r[k].socketId == ps[k].socketId && r[k].id == ps[k].id
  {
  }

  // ---------------------------------------------------------------- statistics

  datatype Counters = Counters(answers: nat, correct: nat, wrong: nat, timeouts: nat, skips: nat, points: nat)

  const NoCounts := Counters(0, 0, 0, 0, 0, 0)

  /** A player's entry of `playerStats`. */
  datatype Stat = Stat(
    id: string,
    name: string,
    team: Team,
    counts: Counters,
    joinedAt: int,
    leftAt: Option<int>,
    connected: bool,
    disqualified: bool)

  /** The counters a player had before an update (zero when absent). */
  function Before(stats: map<string, Stat>, id: string): Counters {
    if id in stats then stats[id].counts else NoCounts
  }

  /** `ensureParticipantStat` for a player: the record is created with zero
      counters the first time, then name and team are refreshed and the
      player is marked present; the counters are kept. */
  function EnsureStat(stats: map<string, Stat>, p: Participant, now: int): (r: map<string, Stat>)
    requires p.role.Member?
    ensures r.Keys == stats.Keys + {p.id}
    ensures forall id :: id in stats && id != p.id ==> r[id] == stats[id]
    ensures r[p.id].counts == Before(stats, p.id)
    ensures r[p.id].name == p.name && r[p.id].team == p.role.team
    ensures r[p.id].connected && !r[p.id].disqualified && r[p.id].leftAt.None?
    ensures p.id in stats ==> r[p.id].joinedAt == stats[p.id].joinedAt
  {
    var s := if p.id in stats then stats[p.id]
             else Stat(p.id, p.name, p.role.team, NoCounts, if p.joinedAt != 0 then p.joinedAt else now, None, true, false);
    stats[p.id := s.(name := p.name, team := p.role.team, connected := true, disqualified := false, leftAt := None)]
  }

  /** The penalty kinds of `applyTeamPenaltyStats`. */
  datatype Penalty = TimeoutPenalty | SkipPenalty | PassPenalty

  /** A timeout counts a timeout, a pass counts a skip, a host skip counts both. */
  function Penalized(c: Counters, k: Penalty): (r: Counters)
    ensures r.timeouts == c.timeouts + (if k == PassPenalty then 0 else 1)
    ensures r.skips == c.skips + (if k == TimeoutPenalty then 0 else 1)
    ensures r.answers == c.answers && r.correct == c.correct && r.wrong == c.wrong && r.points == c.points
  {
    match k
    case TimeoutPenalty => c.(timeouts := c.timeouts + 1)
    case SkipPenalty => c.(timeouts := c.timeouts + 1, skips := c.skips + 1)
    case PassPenalty => c.(skips := c.skips + 1)
  }

  /** One member's step of `applyTeamPenaltyStats`: ensure the record, then
      charge it. */
  function Charge(stats: map<string, Stat>, p: Participant, k: Penalty, now: int): (r: map<string, Stat>)
    requires p.role.Member?
    ensures r.Keys == stats.Keys + {p.id}
    ensures forall id :: id in stats && id != p.id ==> r[id] == stats[id]
    ensures r[p.id].counts == Penalized(Before(stats, p.id), k)
  {
    var s := EnsureStat(stats, p, now);
    s[p.id := s[p.id].(counts := Penalized(s[p.id].counts, k))]
  }

  /** `applyTeamPenaltyStats`: every member of the team, in Map order. */
  function TeamPenalty(stats: map<string, Stat>, ps: seq<Participant>, team: Team, k: Penalty, now: int): map<string, Stat>
  {
    if ps == [] then stats
    else
      var s := TeamPenalty(stats, ps[..|ps| - 1], team, k, now);
      var p := ps[|ps| - 1];
      if InTeam(p, team) then Charge(s, p, k, now) else s
  }

  method ApplyTeamPenalty(stats: map<string, Stat>, ps: seq<Participant>, team: Team, k: Penalty, now: int)
    returns (stats': map<string, Stat>)
    ensures stats' == TeamPenalty(stats, ps, team, k, now)
  {
    stats' := stats;
    var i := 0;
    while i < |ps|
      invariant 0 <= i <= |ps|
      invariant stats' == TeamPenalty(stats, ps[..i], team, k, now)
    {
      var p := ps[i];
      assert ps[..i + 1][..i] == ps[..i];
      if InTeam(p, team) {
        stats' := EnsureStat(stats', p, now);
        stats' := stats'[p.id := stats'[p.id].(counts := Penalized(stats'[p.id].counts, k))];
      }
      i := i + 1;
    }
    assert ps[..i] == ps;
  }

  predicate MemberOf(ps: seq<Participant>, id: string, team: Team) {
    exists i :: 0 <= i < |ps| && ps[i].id == id && InTeam(ps[i], team)
  }

  /** Each team member is charged exactly once (ids are distinct), records
      appear only for team members, and no other record changes. */
  lemma {:induction false} TeamPenaltyEffect(stats: map<string, Stat>, ps: seq<Participant>, team: Team, k: Penalty, now: int)
    requires DistinctIds(ps)
    ensures var r := TeamPenalty(stats, ps, team, k, now);
      && (forall id :: id in r ==> id in stats || MemberOf(ps, id, team))
      && (forall id :: id in stats && !MemberOf(ps, id, team) ==> id in r && r[id] == stats[id])
      && (forall i :: 0 <= i < |ps| && InTeam(ps[i], team) ==>
            ps[i].id in r && r[ps[i].id].counts == Penalized(Before(stats, ps[i].id), k))
  {
    if ps != [] {
      var init := ps[..|ps| - 1];
      var p := ps[|ps| - 1];
      var s := TeamPenalty(stats, init, team, k, now);
      var r := TeamPenalty(stats, ps, team, k, now);
      TeamPenaltyEffect(stats, init, team, k, now);
      MemberOfSnoc(ps, team);
      if InTeam(p, team) {
        assert !MemberOf(init, p.id, team);
        assert Before(s, p.id) == Before(stats, p.id);
        forall i | 0 <= i < |ps| && InTeam(ps[i], team)
          ensures ps[i].id in r && r[ps[i].id].counts == Penalized(Before(stats, ps[i].id), k)
        {
          if i < |init| {
            assert ps[i] == init[i] && ps[i].id != p.id;
          }
        }
      } else {
        forall i | 0 <= i < |ps| && InTeam(ps[i], team)
          ensures ps[i].id in r && r[ps[i].id].counts == Penalized(Before(stats, ps[i].id), k)
        {
          assert i < |init| && ps[i] == init[i];
        }
      }
    }
  }

  /** Membership after appending one participant, given distinct ids. */
  lemma MemberOfSnoc(ps: seq<Participant>, team: Team)
    requires ps != [] && DistinctIds(ps)
    ensures var init, p := ps[..|ps| - 1], ps[|ps| - 1];
      && DistinctIds(init)
      && (forall id :: MemberOf(ps, id, team) <==> MemberOf(init, id, team) || (id == p.id && InTeam(p, team)))
      && !MemberOf(init, p.id, team)
  {
    var init, p := ps[..|ps| - 1], ps[|ps| - 1];
    forall id ensures MemberOf(ps, id, team) <==> MemberOf(init, id, team) || (id == p.id && InTeam(p, team)) {
      if MemberOf(ps, id, team) {
        var i :| 0 <= i < |ps| && ps[i].id == id && InTeam(ps[i], team);
        if i < |init| {
          assert init[i] == ps[i];
        }
      }
      if MemberOf(init, id, team) {
        var i :| 0 <= i < |init| && init[i].id == id && InTeam(init[i], team);
        assert ps[i] == init[i];
      }
      if id == p.id && InTeam(p, team) {
        assert ps[|ps| - 1] == p;
      }
    }
    forall i | 0 <= i < |init| ensures init[i].id != p.id {
      assert ps[i] == init[i];
    }
  }

  /** What one team vote adds to the voter's record: a pass counts a skip;
      an option counts an answer, correct or wrong against the question, and
      the round's points when it is the winning correct option. */
  function Credit(c: Counters, v: Vote, correctIndex: int, reward: Option<int>, points: nat): (r: Counters)
    ensures v.answer.None? ==> r == c.(skips := c.skips + 1)
    ensures v.answer.Some? ==> r.answers == c.answers + 1 && r.skips == c.skips && r.timeouts == c.timeouts
    ensures v.answer.Some? ==> r.correct == c.correct + (if v.answer.value == correctIndex then 1 else 0)
    ensures v.answer.Some? ==> r.wrong == c.wrong + (if v.answer.value == correctIndex then 0 else 1)
    ensures r.points == c.points + (if reward.Some? && v.answer == reward then points else 0)
  {
    if v.answer.None? then c.(skips := c.skips + 1)
    else
      var right := v.answer.value == correctIndex;
      c.(answers := c.answers + 1,
         correct := c.correct + (if right then 1 else 0),
         wrong := c.wrong + (if right then 0 else 1),
         points := c.points + (if reward.Some? && v.answer == reward then points else 0))
  }

  predicate AllMembers(es: seq<Entry>) {
    forall i :: 0 <= i < |es| ==> es[i].voter.role.Member?
  }

  /** The vote-credit loop of `finalizeTeamRoundFromVotes`. */
  function CreditVotes(stats: map<string, Stat>, es: seq<Entry>, correctIndex: int, reward: Option<int>, points: nat, now: int): map<string, Stat>
    requires AllMembers(es)
  {
    if es == [] then stats
    else
      var s := CreditVotes(stats, es[..|es| - 1], correctIndex, reward, points, now);
      var e := es[|es| - 1];
      CreditOne(s, e, correctIndex, reward, points, now)
  }

  /** One voter's step of the credit loop: ensure the record, then credit it. */
  function CreditOne(stats: map<string, Stat>, e: Entry, correctIndex: int, reward: Option<int>, points: nat, now: int): (r: map<string, Stat>)
    requires e.voter.role.Member?
    ensures r.Keys == stats.Keys + {e.voter.id}
    ensures forall id :: id in stats && id != e.voter.id ==> r[id] == stats[id]
    ensures r[e.voter.id].counts == Credit(Before(stats, e.voter.id), e.vote, correctIndex, reward, points)
  {
    var s := EnsureStat(stats, e.voter, now);
    s[e.voter.id := s[e.voter.id].(counts := Credit(s[e.voter.id].counts, e.vote, correctIndex, reward, points))]
  }

  method ApplyVoteCredits(stats: map<string, Stat>, es: seq<Entry>, correctIndex: int, reward: Option<int>, points: nat, now: int)
    returns (stats': map<string, Stat>)
    requires AllMembers(es)
    ensures stats' == CreditVotes(stats, es, correctIndex, reward, points, now)
  {
    stats' := stats;
    var i := 0;
    while i < |es|
      invariant 0 <= i <= |es|
      invariant stats' == CreditVotes(stats, es[..i], correctIndex, reward, points, now)
    {
      var e := es[i];
      assert es[..i + 1][..i] == es[..i];
      stats' := EnsureStat(stats', e.voter, now);
      stats' := stats'[e.voter.id := stats'[e.voter.id].(counts := Credit(stats'[e.voter.id].counts, e.vote, correctIndex, reward, points))];
      i := i + 1;
    }
    assert es[..i] == es;
  }

  predicate DistinctVoters(es: seq<Entry>) {
    forall i, j :: 0 <= i < j < |es| ==> es[i].voter.id != es[j].voter.id
  }

  predicate Voted(es: seq<Entry>, id: string) {
    exists i :: 0 <= i < |es| && es[i].voter.id == id
  }

  /** Records appear only for voters, and nobody else's record changes. */
  lemma {:induction false} CreditVotesFrame(stats: map<string, Stat>, es: seq<Entry>, correctIndex: int, reward: Option<int>, points: nat, now: int)
    requires AllMembers(es) && DistinctVoters(es)
    ensures var r := CreditVotes(stats, es, correctIndex, reward, points, now);
      && (forall id :: id in r ==> id in stats || Voted(es, id))
      && (forall id :: id in stats && !Voted(es, id) ==> id in r && r[id] == stats[id])
  {
    if es != [] {
      VotedSnoc(es);
      CreditVotesFrame(stats, es[..|es| - 1], correctIndex, reward, points, now);
    }
  }

  /** Every voter's record is updated from that voter's own vote, whichever
      option won. */
  lemma {:induction false} CreditVotesEffect(stats: map<string, Stat>, es: seq<Entry>, correctIndex: int, reward: Option<int>, points: nat, now: int)
    requires AllMembers(es) && DistinctVoters(es)
    ensures var r := CreditVotes(stats, es, correctIndex, reward, points, now);
      forall i :: 0 <= i < |es| ==>
        es[i].voter.id in r
        && r[es[i].voter.id].counts == Credit(Before(stats, es[i].voter.id), es[i].vote, correctIndex, reward, points)
  {
    if es != [] {
      var init := es[..|es| - 1];
      var e := es[|es| - 1];
      var s := CreditVotes(stats, init, correctIndex, reward, points, now);
      var r := CreditVotes(stats, es, correctIndex, reward, points, now);
      VotedSnoc(es);
      CreditVotesFrame(stats, init, correctIndex, reward, points, now);
      CreditVotesEffect(stats, init, correctIndex, reward, points, now);
      assert Before(s, e.voter.id) == Before(stats, e.voter.id);
      forall i | 0 <= i < |es|
        ensures es[i].voter.id in r
          && r[es[i].voter.id].counts == Credit(Before(stats, es[i].voter.id), es[i].vote, correctIndex, reward, points)
      {
        if i < |init| {
          assert es[i] == init[i] && es[i].voter.id != e.voter.id;
        }
      }
    }
  }

  /** Voting after appending one entry, given distinct voters. */
  lemma VotedSnoc(es: seq<Entry>)
    requires es != [] && DistinctVoters(es)
    ensures var init, e := es[..|es| - 1], es[|es| - 1];
      && (AllMembers(es) ==> AllMembers(init))
      && DistinctVoters(init)
      && (forall id :: Voted(es, id) <==> Voted(init, id) || id == e.voter.id)
      && !Voted(init, e.voter.id)
  {
    var init, e := es[..|es| - 1], es[|es| - 1];
    forall id ensures Voted(es, id) <==> Voted(init, id) || id == e.voter.id {
      if Voted(es, id) {
        var i :| 0 <= i < |es| && es[i].voter.id == id;
        if i < |init| {
          assert init[i] == es[i];
        }
      }
      if Voted(init, id) {
        var i :| 0 <= i < |init| && init[i].voter.id == id;
        assert es[i] == init[i];
      }
      if id == e.voter.id {
        assert es[|es| - 1] == e;
      }
    }
    forall i | 0 <= i < |init| ensures init[i].voter.id != e.voter.id {
      assert es[i] == init[i];
    }
  }

  /** The statistics reset when a game starts: every player's record is
      ensured and its counters set to zero. */
  function ResetStats(stats: map<string, Stat>, ps: seq<Participant>, now: int): map<string, Stat>
  {
    if ps == [] then stats
    else
      var s := ResetStats(stats, ps[..|ps| - 1], now);
      var p := ps[|ps| - 1];
      if p.role.Member? then
        var s' := EnsureStat(s, p, now);
        s'[p.id := s'[p.id].(counts := NoCounts, leftAt := None, disqualified := false)]
      else s
  }

  method ApplyStatReset(stats: map<string, Stat>, ps: seq<Participant>, now: int) returns (stats': map<string, Stat>)
    ensures stats' == ResetStats(stats, ps, now)
  {
    stats' := stats;
    var i := 0;
    while i < |ps|
      invariant 0 <= i <= |ps|
      invariant stats' == ResetStats(stats, ps[..i], now)
    {
      var p := ps[i];
      assert ps[..i + 1][..i] == ps[..i];
      if p.role.Member? {
        stats' := EnsureStat(stats', p, now);
        stats' := stats'[p.id := stats'[p.id].(counts := NoCounts, leftAt := None, disqualified := false)];
      }
      i := i + 1;
    }
    assert ps[..i] == ps;
  }

  /** After the reset every player present has a record with zero counters,
      connected and not disqualified. */
  lemma {:induction false} ResetStatsEffect(stats: map<string, Stat>, ps: seq<Participant>, now: int)
    ensures var r := ResetStats(stats, ps, now);
      forall i :: 0 <= i < |ps| && ps[i].role.Member? ==>
        ps[i].id in r && r[ps[i].id].counts == NoCounts && r[ps[i].id].connected && !r[ps[i].id].disqualified
  {
    if ps != [] {
      var init := ps[..|ps| - 1];
      ResetStatsEffect(stats, init, now);
      assert forall i :: 0 <= i < |init| ==> init[i] == ps[i];
    }
  }

  /** `markParticipantDisconnected`. */
  function MarkDisconnected(stats: map<string, Stat>, p: Participant, now: int): (r: map<string, Stat>)
    ensures r.Keys == stats.Keys
    ensures p.role.Member? && p.id in stats ==> !r[p.id].connected && r[p.id].leftAt == Some(now)
    ensures forall id :: id in stats && (id != p.id || p.role.HostRole?) ==> r[id] == stats[id]
  {
    if p.role.HostRole? || p.id !in stats then stats
    else stats[p.id := stats[p.id].(connected := false, leftAt := Some(now))]
  }

  /** The disconnect loop of `closeRoom`. */
  function DisconnectAll(stats: map<string, Stat>, ps: seq<Participant>, now: int): (r: map<string, Stat>)
    ensures r.Keys == stats.Keys
  {
    if ps == [] then stats else MarkDisconnected(DisconnectAll(stats, ps[..|ps| - 1], now), ps[|ps| - 1], now)
  }

  method ApplyDisconnectAll(stats: map<string, Stat>, ps: seq<Participant>, now: int) returns (stats': map<string, Stat>)
    ensures stats' == DisconnectAll(stats, ps, now)
  {
    stats' := stats;
    var i := 0;
    while i < |ps|
      invariant 0 <= i <= |ps|
      invariant stats' == DisconnectAll(stats, ps[..i], now)
    {
      assert ps[..i + 1][..i] == ps[..i];
      stats' := MarkDisconnected(stats', ps[i], now);
      i := i + 1;
    }
    assert ps[..i] == ps;
  }

  /** Once the room closes no player present is still shown as connected. */
  lemma {:induction false} DisconnectAllEffect(stats: map<string, Stat>, ps: seq<Participant>, now: int)
    ensures var r := DisconnectAll(stats, ps, now);
      forall i :: 0 <= i < |ps| && ps[i].role.Member? && ps[i].id in stats ==> !r[ps[i].id].connected
  {
    if ps != [] {
      var init := ps[..|ps| - 1];
      DisconnectAllEffect(stats, init, now);
      assert forall i :: 0 <= i < |init| ==> init[i] == ps[i];
    }
  }

  /** The per-player zero scores and streaks `host:startGame` seeds. */
  method ZeroByPlayer(players: seq<Participant>) returns (m: map<string, int>)
    ensures m.Keys == set i | 0 <= i < |players| :: players[i].id
    ensures forall id :: id in m ==> m[id] == 0
  {
    m := map[];
    var i := 0;
    while i < |players|
      invariant 0 <= i <= |players|
      invariant m.Keys == set j | 0 <= j < i :: players[j].id
      invariant forall id :: id in m ==> m[id] == 0
    {
      m := m[players[i].id := 0];
      i := i + 1;
    }
  }
}
