/** What the room engine promises across several handler calls: pausing
    and resuming keep the time left, the host's grace period pauses the
    game until the host returns or closes the room when it runs out, a
    dropped player returns with its rejoin key, joining keeps the teams
    balanced, and the guards of starting a game, answering and the tick. */
module RoomProps {
  import opened Text
  import opened Quiz
  import opened Generator
  import opened Votes
  import opened Rules
  import opened Roster
  import opened RoomSpec

  // ---------------------------------------------------------------- pause

  /** Pausing at `t1` and resuming at `t2` restarts the round with the time
      that was left at `t1` (a full round when none was), and changes
      nothing else. */
  lemma PauseResumeKeepsRemaining(c: Settings, st: RoomState, socketId: string, t1: int, t2: int)
    requires st.registered && IsHostSocket(st, socketId) && st.status == Running
    requires QuestionFor(c, st, CurrentRound(st)).Some?
    ensures var (paused, reply1) := TogglePause(c, st, socketId, t1);
      var (resumed, reply2) := TogglePause(c, paused, socketId, t2);
      && reply1 == Ok && paused.status == Paused
      && reply2 == Ok && resumed.status == Running
      && resumed == st.(pausedRemainingMs := Some(Max(0, st.roundDeadlineAt - t1)),
                        roundDeadlineAt := t2 + (if st.roundDeadlineAt > t1 then st.roundDeadlineAt - t1 else DurationMs(c)))
  {
    var paused := TogglePause(c, st, socketId, t1).0;
    assert paused == st.(pausedRemainingMs := Some(Max(0, st.roundDeadlineAt - t1)), status := Paused);
    assert IsHostSocket(paused, socketId) && CurrentRound(paused) == CurrentRound(st);
    assert QuestionFor(c, paused, CurrentRound(paused)) == QuestionFor(c, st, CurrentRound(st));
  }

  // ---------------------------------------------------------------- the host's grace period

  /** The host's connection drops during a game: the room stays, the game
      pauses with the time left kept and the grace timer runs; with the
      room's host key the host then returns on a new socket, the timer
      stops and the game is still paused with the same time left. */
  lemma HostGraceThenRejoin(c: Settings, st: RoomState, s1: string, s2: string, t1: int, t2: int, pre: string, post: string)
    requires Valid(st) && st.registered && IsHostSocket(st, s1) && st.status == Running
    requires HostKeyShape(c.hostRejoinKey)
    requires forall i :: 0 <= i < |pre| ==> IsSpace(pre[i])
    requires forall i :: 0 <= i < |post| ==> IsSpace(post[i])
    ensures var d := Disconnect(c, st, s1, t1);
      && Valid(d) && d.registered && d.status == Paused && d.hostSocketId.None?
      && d.hostReconnectDeadlineAt == t1 + HostGraceMs
      && d.pausedRemainingMs == Some(Max(0, st.roundDeadlineAt - t1))
      && var (r, reply) := HostRejoin(c, d, s2, pre + c.hostRejoinKey + post, t2);
         && reply == Ok && r.status == Paused && r.hostSocketId == Some(s2) && r.hostReconnectDeadlineAt == 0
         && IsHostSocket(r, s2) && r.pausedRemainingMs == d.pausedRemainingMs
  {
    var d := Disconnect(c, st, s1, t1);
    HostDropPauses(c, st, s1, t1);
    HostKeyRejoins(c, d, s2, t2, pre, post);
  }

  /** The first half: the host's drop pauses a running game, keeps the
      time left and starts the grace timer. */
  lemma HostDropPauses(c: Settings, st: RoomState, s1: string, t1: int)
    requires Valid(st) && st.registered && IsHostSocket(st, s1) && st.status == Running
    ensures var d := Disconnect(c, st, s1, t1);
      && Valid(d) && d.registered && d.status == Paused && d.hostSocketId.None?
      && d.hostReconnectDeadlineAt == t1 + HostGraceMs
      && d.pausedRemainingMs == Some(Max(0, st.roundDeadlineAt - t1))
  {
    var st1 := Depart(st, s1, t1);
    assert Disconnect(c, st, s1, t1) == StartHostGrace(st1, t1);
    DisconnectKeepsValid(c, st, s1, t1);
  }

  /** The second half: while the host is away, the room's host key padded
      with white space lets the host back in on a new socket, leaving the
      status and the time left as they were. */
  lemma HostKeyRejoins(c: Settings, d: RoomState, s2: string, t2: int, pre: string, post: string)
    requires Valid(d) && d.registered && d.hostSocketId.None?
    requires HostKeyShape(c.hostRejoinKey)
    requires forall i :: 0 <= i < |pre| ==> IsSpace(pre[i])
    requires forall i :: 0 <= i < |post| ==> IsSpace(post[i])
    ensures var (r, reply) := HostRejoin(c, d, s2, pre + c.hostRejoinKey + post, t2);
      && reply == Ok && r.status == d.status && r.hostSocketId == Some(s2) && r.hostReconnectDeadlineAt == 0
      && IsHostSocket(r, s2) && r.pausedRemainingMs == d.pausedRemainingMs
  {
    var k := c.hostRejoinKey;
    assert IsKeyChar(k[0]) && IsKeyChar(k[|k| - 1]);
    TrimPadded(pre, k, post);
  }

  /** Without the host's return the grace timer closes the room: at or
      after the deadline, and not before. */
  lemma HostGraceExpires(c: Settings, st: RoomState, s1: string, t1: int, t2: int)
    requires st.registered && IsHostSocket(st, s1) && t1 >= 0
    ensures var d := Disconnect(c, st, s1, t1);
      && (t2 >= t1 + HostGraceMs ==> ExpireHostGrace(d, t2) == CloseRoom(d, t2) && !ExpireHostGrace(d, t2).registered)
      && (t2 < t1 + HostGraceMs ==> ExpireHostGrace(d, t2) == d && d.registered)
  {
    assert Disconnect(c, st, s1, t1) == StartHostGrace(Depart(st, s1, t1), t1);
  }

  // ---------------------------------------------------------------- a player's rejoin window

  /** A player with a rejoin key whose connection drops during a game
      keeps its slot (the room stays even when nobody is left); joining
      with that key, on any socket, whatever the password and the stage,
      puts the saved record back on the new socket and uses the slot up. */
  lemma PlayerRejoinRestores(c: Settings, st: RoomState, s1: string, s2: string, t1: int, t2: int,
                             rawName: string, rawKey: string, password: string, suffix: nat, generatedKey: string, coin: Team)
    requires Valid(st) && st.registered && st.status != Lobby && st.status != Finished
    requires FindSocket(st.participants, s1).Some?
    requires var p := st.participants[FindSocket(st.participants, s1).value];
      p.role.Member? && p.playerKey != "" && NormalizeRejoinKey(rawKey) == p.playerKey
    ensures var p := st.participants[FindSocket(st.participants, s1).value];
      var d := Disconnect(c, st, s1, t1);
      && Valid(d) && d.registered && p.playerKey in d.slots
      && (forall q :: q in d.participants ==> q.socketId != s1)
      && var (r, reply) := RoomSpec.Join(c, d, s2, rawName, rawKey, password, t2, suffix, generatedKey, coin);
         && reply == Rejoined && p.playerKey !in r.slots
         && FindSocket(r.participants, s2).Some?
         && r.participants[FindSocket(r.participants, s2).value] == p.(socketId := s2)
  {
    var p := st.participants[FindSocket(st.participants, s1).value];
    var st1 := Depart(st, s1, t1);
    DisconnectKeepsValid(c, st, s1, t1);
    assert Disconnect(c, st, s1, t1) == Disconnected(c, st1, p, t1);
    DisconnectedKeepsSlot(c, st1, p, t1);
  }

  /** A player dropped during a game gets its slot and the room stays. */
  lemma DisconnectedKeepsSlot(c: Settings, st: RoomState, p: Participant, now: int)
    requires st.registered && st.status != Lobby && st.status != Finished && p.role.Member? && p.playerKey != ""
    ensures var d := Disconnected(c, st, p, now);
      && d.registered && d.participants == st.participants
      && d.slots == st.slots[p.playerKey := Slot(p.(socketId := ""), now + PlayerGraceMs)]
  {
    var st2 := StartPlayerGrace(st, p, now);
    assert p.playerKey in st2.slots;
  }

  // ---------------------------------------------------------------- kicking

  /** `host:kickPlayer` is refused without a change unless the room exists,
      the caller is its host and the target a player in it; a kick takes
      the target's socket out of the room with its free-for-all score and
      its rejoin slot. */
  lemma KickOutcome(c: Settings, st: RoomState, socketId: string, targetId: string, now: int)
    ensures var (r, reply) := Kick(c, st, socketId, targetId, now);
      && (reply.Err? ==> r == st)
      && (reply.Ok? ==>
            && st.registered && IsHostSocket(st, socketId) && Trim(targetId) != "" && Trim(targetId) != "host"
            && FindPlayerById(st.participants, Trim(targetId)).Some?
            && var p := st.participants[FindPlayerById(st.participants, Trim(targetId)).value];
               && (forall q :: q in r.participants ==> q.socketId != p.socketId)
               && p.id !in r.playerScores
               && (p.playerKey != "" ==> p.playerKey !in r.slots))
      && reply != Rejoined
  {
    var id := Trim(targetId);
    var j := FindPlayerById(st.participants, id);
    if st.registered && IsHostSocket(st, socketId) && id != "" && id != "host" && j.Some? {
      var p := st.participants[j.value];
      KickedRemoves(c, Disqualify(st, p, now), p, now);
    }
  }

  lemma KickedRemoves(c: Settings, st: RoomState, p: Participant, now: int)
    requires forall q :: q in st.participants ==> q.socketId != p.socketId
    requires p.id !in st.playerScores && (p.playerKey != "" ==> p.playerKey !in st.slots)
    ensures var r := Kicked(c, st, p, now);
      && (forall q :: q in r.participants ==> q.socketId != p.socketId)
      && p.id !in r.playerScores
      && (p.playerKey != "" ==> p.playerKey !in r.slots)
  {
    var st2 := if st.status == Lobby then Rebalance(c, st) else st;
    RebalancedKeepsSeats(st.participants, st.status, FormatOf(c), IsDuel(c));
    assert forall q :: q in st2.participants ==> q.socketId != p.socketId by {
      forall q | q in st2.participants ensures q.socketId != p.socketId {
        var k :| 0 <= k < |st2.participants| && st2.participants[k] == q;
        assert st.participants[k] in st.participants;
      }
    }
  }

  // ---------------------------------------------------------------- team balance

  /** A new player joining a team lobby (not a duel) on a fresh socket
      keeps the teams within one player of each other, the placement by
      `assignTeam` doing the work and the rebalance then leaving the
      roster alone. */
  lemma JoinKeepsTeamsBalanced(c: Settings, st: RoomState, socketId: string, rawName: string, rawKey: string, password: string,
                               now: int, suffix: nat, generatedKey: string, coin: Team)
    requires DistinctSockets(st.participants) && FormatOf(c) == Teams && !IsDuel(c)
    requires FindSocket(st.participants, socketId).None?
    requires Gap(CountTeam(st.participants, A), CountTeam(st.participants, B)) <= 1
    ensures var (r, reply) := RoomSpec.Join(c, st, socketId, rawName, rawKey, password, now, suffix, generatedKey, coin);
      reply == Ok ==>
        && |r.participants| == |st.participants| + 1
        && Gap(CountTeam(r.participants, A), CountTeam(r.participants, B)) <= 1
  {
    var p := NewPlayer(c, st, socketId, SanitizeName(rawName), NormalizeRejoinKey(rawKey), now, suffix, generatedKey, coin);
    AdmittedKeepsBalance(c, st, p, coin, now);
  }

  /** The admission step: a fresh socket on the team `assignTeam` picks. */
  lemma AdmittedKeepsBalance(c: Settings, st: RoomState, p: Participant, coin: Team, now: int)
    requires DistinctSockets(st.participants) && FormatOf(c) == Teams && !IsDuel(c)
    requires FindSocket(st.participants, p.socketId).None?
    requires Gap(CountTeam(st.participants, A), CountTeam(st.participants, B)) <= 1
    requires p.role == Member(AssignTeam(Teams, false, CountTeam(st.participants, A), CountTeam(st.participants, B), coin))
    ensures var r := Admitted(c, st, p, now);
      && |r.participants| == |st.participants| + 1
      && Gap(CountTeam(r.participants, A), CountTeam(r.participants, B)) <= 1
  {
    var ps := SetParticipant(st.participants, p);
    assert ps == st.participants + [p];
    CountTeamSnoc(st.participants, p, A);
    CountTeamSnoc(st.participants, p, B);
    AssignTeamKeepsBalance(false, CountTeam(st.participants, A), CountTeam(st.participants, B), coin);
    RebalanceOnlyLopsided(ps, Lobby, Teams, false);
  }

  // ---------------------------------------------------------------- starting a game

  /** `host:startGame` is accepted exactly when the room exists and
      `StartCheck` finds nothing wrong; a refusal changes nothing; an
      acceptance keeps the roster, drops every slot, plans the rounds and
      leaves the room `preparing` with no round current and every player
      at zero. */
  lemma StartGameOutcome(c: Settings, st: RoomState, socketId: string, now: int)
    ensures var (r, reply) := StartGame(c, st, socketId, now);
      var players := NonHostPlayers(st.participants);
      && (reply == Ok <==>
            st.registered
            && StartCheck(IsHostSocket(st, socketId), st.status, FormatOf(c), IsDuel(c), |players|,
                          CountTeam(st.participants, A), CountTeam(st.participants, B)).None?)
      && (reply != Ok ==> r == st)
      && (reply == Ok ==>
            && r.status == Preparing && r.registered && r.participants == st.participants
            && r.slots == map[] && r.hostReconnectDeadlineAt == 0
            && r.rounds == Plan(c, players) && r.roundIndex == -1 && r.roundHistory == []
            && r.currentSubmission.None? && r.transitionDueAt == st.transitionDueAt
            && r.scores == PerTeam(0, 0) && r.playerStats == map[]
            && (forall id :: id in r.playerScores <==> exists q :: q in players && q.id == id)
            && (forall id :: id in r.playerScores ==> r.playerScores[id] == 0 && r.playerStreaks[id] == 0))
  {
    var players := NonHostPlayers(st.participants);
    forall id ensures id in IdSet(players) <==> exists q :: q in players && q.id == id {
      if id in IdSet(players) {
        var i :| 0 <= i < |players| && players[i].id == id;
        assert players[i] in players;
      }
    }
  }

  /** The plan holds `questionCount` rounds per player in free-for-all and
      two per question (one per team) otherwise. */
  lemma PlanLength(c: Settings, players: seq<Participant>)
    ensures |Plan(c, players)| == if FormatOf(c) == Ffa then c.questionCount * |players| else 2 * c.questionCount
  {
    if FormatOf(c) == Ffa {
      FfaRoundsShape(c.questionCount, Ids(SortByJoin(players)));
    }
  }

  // ---------------------------------------------------------------- answers

  /** `round:submitAnswer` is refused without a change unless the room runs
      an unresolved round whose question is at hand, the socket is a player
      whose turn it is, and the move is an allowed pass or an option
      `0..3`.  An accepted free-for-all answer resolves the round at once;
      an accepted team vote is either recorded in the team's vote state or
      it completed the team and the round resolved. */
  lemma SubmitAnswerGuards(c: Settings, st: RoomState, socketId: string, pass: bool, answer: Option<int>, now: int)
    ensures var (r, reply) := SubmitAnswer(c, st, socketId, pass, answer, now);
      && (reply.Err? ==> r == st)
      && (reply.Ok? ==>
            && st.registered && st.status == Running && st.currentSubmission.None?
            && FindSocket(st.participants, socketId).Some?
            && var me := st.participants[FindSocket(st.participants, socketId).value];
               var round := CurrentRound(st);
               var wantsPass := pass || answer == Some(-1);
               && me.role.Member? && round.Some? && QuestionFor(c, st, round).Some?
               && (FormatOf(c) == Teams ==> InTeam(me, round.value.team))
               && (FormatOf(c) == Ffa ==> round.value.player == Some(me.id))
               && (wantsPass ==> Config(c.gameMode).passEnabled)
               && (!wantsPass ==> answer.Some? && 0 <= answer.value <= 3)
               && (FormatOf(c) == Ffa ==> r.currentSubmission.Some?)
               && (FormatOf(c) == Teams ==>
                     r.currentSubmission.Some? || (r.voteState.Some? && me.id in r.voteState.value.votes)))
      && reply != Rejoined
  {
    var r := SubmitAnswer(c, st, socketId, pass, answer, now);
    if r.1.Ok? {
      var me := st.participants[FindSocket(st.participants, socketId).value];
      var round := CurrentRound(st);
      var q := QuestionFor(c, st, round);
      var wantsPass := pass || answer == Some(-1);
      if FormatOf(c) == Teams {
        var v := if wantsPass then None else answer;
        assert r == SubmitVote(c, st, me, round.value.team, v, now);
      } else {
        var k := if wantsPass then 0 else answer.value;
        assert r.0 == SubmitFfa(c, st, me, round.value, q.value, wantsPass, k, now);
        SubmitFfaResolves(c, st, me, round.value, q.value, wantsPass, k, now);
      }
    }
  }

  /** A free-for-all answer or pass resolves the current round at once. */
  lemma SubmitFfaResolves(c: Settings, st: RoomState, me: Participant, round: Round, q: Question,
                          wantsPass: bool, k: int, now: int)
    requires me.role.Member? && CurrentRound(st).Some?
    ensures SubmitFfa(c, st, me, round, q, wantsPass, k, now).currentSubmission.Some?
  {
    var o := FfaCredited(c, st, me, round, q, wantsPass, k, now);
    assert CurrentRound(o.0) == CurrentRound(st);
  }

  // ---------------------------------------------------------------- the tick

  /** The tick changes a room only once the running round's deadline has
      passed without a resolution, and then it always resolves it (from
      the votes, or as a timeout). */
  lemma TickOnlyAfterDeadline(c: Settings, st: RoomState, now: int)
    requires Valid(st)
    ensures Tick(c, st, now) != st ==>
      st.registered && st.status == Running && st.currentSubmission.None? && 0 < st.roundDeadlineAt <= now
    ensures st.registered && st.status == Running && CurrentRound(st).Some? && st.currentSubmission.None?
            && 0 < st.roundDeadlineAt <= now ==>
      Tick(c, st, now).currentSubmission.Some?
  {
    if st.registered && st.status == Running && CurrentRound(st).Some? && st.currentSubmission.None?
       && 0 < st.roundDeadlineAt <= now {
      FinalizeIfReadyKeepsValid(c, st, true, now);
    }
  }
}
