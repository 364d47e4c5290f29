// The room object of server/index.js as the handlers change it: the fields
// of RoomState updated one assignment at a time, in the order the source
// updates them.  Every method is proved to leave exactly the state the
// matching RoomSpec function describes, so all that is proved about those
// functions (the invariant, resolving once, the outcomes) holds of the room.

module Rooms {
  import opened Text
  import opened Quiz
  import opened Generator
  import opened Rules
  import opened Votes
  import opened Roster
  import opened Supply
  import opened RoomSpec

  class Room {
    const settings: Settings
    var status: Status
    var registered: bool
    var participants: seq<Participant>
    var hostSocketId: Option<string>
    var hostReconnectDeadlineAt: int
    var slots: map<string, Slot>
    var playerStats: map<string, Stat>
    var teamMetrics: PerTeam<TeamMetrics>
    var questionSetA: seq<Question>
    var questionSetB: seq<Question>
    var questionBank: seq<Question>
    var playerScores: map<string, int>
    var playerStreaks: map<string, int>
    var rounds: seq<Round>
    var roundIndex: int
    var roundStartedAt: int
    var roundDeadlineAt: int
    var pausedRemainingMs: Option<int>
    var currentSubmission: Option<Submission>
    var voteState: Option<VoteState>
    var roundHistory: seq<HistoryEntry>
    var scores: PerTeam<nat>
    var questionStats: map<string, QuestionStat>
    var finishedAt: Option<int>
    var transitionDueAt: Option<int>

    /** The room's fields as one value. */
    function State(): RoomState
      reads this
    {
      RoomState(status, registered, participants, hostSocketId, hostReconnectDeadlineAt, slots, playerStats,
                teamMetrics, questionSetA, questionSetB, questionBank, playerScores, playerStreaks, rounds,
                roundIndex, roundStartedAt, roundDeadlineAt, pausedRemainingMs, currentSubmission, voteState,
                roundHistory, scores, questionStats, finishedAt, transitionDueAt)
    }

    /** The room invariant of RoomSpec on the fields. */
    ghost predicate Valid()
      reads this
    {
      RoomSpec.Valid(State())
    }

    /** `host:createRoom`: a lobby holding only its host. */
    constructor (c: Settings, socketId: string, now: int)
      ensures settings == c && State() == Created(c, socketId, now) && Valid()
    {
      settings := c;
      status := Lobby;
      registered := true;
      participants := [HostParticipant(c, socketId, now)];
      hostSocketId := Some(socketId);
      hostReconnectDeadlineAt := 0;
      slots := map[];
      playerStats := map[];
      teamMetrics := PerTeam(TeamMetrics(0, 0), TeamMetrics(0, 0));
      questionSetA := [];
      questionSetB := [];
      questionBank := [];
      playerScores := map[];
      playerStreaks := map[];
      rounds := [];
      roundIndex := -1;
      roundStartedAt := 0;
      roundDeadlineAt := 0;
      pausedRemainingMs := None;
      currentSubmission := None;
      voteState := None;
      roundHistory := [];
      scores := PerTeam(0, 0);
      questionStats := map[];
      finishedAt := None;
      transitionDueAt := None;
      new;
      CreatedValid(c, socketId, now);
    }

    // ------------------------------------------------------------ field updates

    // One assignment per method: each handler below is a sequence of these
    // and of other handlers, in the order the source assigns the fields.

    method SetStatus(v: Status)
      modifies this`status
      ensures State() == old(State()).(status := v)
    {
      status := v;
    }

    method SetRegistered(v: bool)
      modifies this`registered
      ensures State() == old(State()).(registered := v)
    {
      registered := v;
    }

    method SetParticipants(v: seq<Participant>)
      modifies this`participants
      ensures State() == old(State()).(participants := v)
    {
      participants := v;
    }

    method SetHostSocketId(v: Option<string>)
      modifies this`hostSocketId
      ensures State() == old(State()).(hostSocketId := v)
    {
      hostSocketId := v;
    }

    method SetHostReconnectDeadlineAt(v: int)
      modifies this`hostReconnectDeadlineAt
      ensures State() == old(State()).(hostReconnectDeadlineAt := v)
    {
      hostReconnectDeadlineAt := v;
    }

    method SetSlots(v: map<string, Slot>)
      modifies this`slots
      ensures State() == old(State()).(slots := v)
    {
      slots := v;
    }

    method SetPlayerStats(v: map<string, Stat>)
      modifies this`playerStats
      ensures State() == old(State()).(playerStats := v)
    {
      playerStats := v;
    }

    method SetTeamMetrics(v: PerTeam<TeamMetrics>)
      modifies this`teamMetrics
      ensures State() == old(State()).(teamMetrics := v)
    {
      teamMetrics := v;
    }

    method SetQuestionSetA(v: seq<Question>)
      modifies this`questionSetA
      ensures State() == old(State()).(questionSetA := v)
    {
      questionSetA := v;
    }

    method SetQuestionSetB(v: seq<Question>)
      modifies this`questionSetB
      ensures State() == old(State()).(questionSetB := v)
    {
      questionSetB := v;
    }

    method SetQuestionBank(v: seq<Question>)
      modifies this`questionBank
      ensures State() == old(State()).(questionBank := v)
    {
      questionBank := v;
    }

    method SetPlayerScores(v: map<string, int>)
      modifies this`playerScores
      ensures State() == old(State()).(playerScores := v)
    {
      playerScores := v;
    }

    method SetPlayerStreaks(v: map<string, int>)
      modifies this`playerStreaks
      ensures State() == old(State()).(playerStreaks := v)
    {
      playerStreaks := v;
    }

    method SetRounds(v: seq<Round>)
      modifies this`rounds
      ensures State() == old(State()).(rounds := v)
    {
      rounds := v;
    }

    method SetRoundIndex(v: int)
      modifies this`roundIndex
      ensures State() == old(State()).(roundIndex := v)
    {
      roundIndex := v;
    }

    method SetRoundStartedAt(v: int)
      modifies this`roundStartedAt
      ensures State() == old(State()).(roundStartedAt := v)
    {
      roundStartedAt := v;
    }

    method SetRoundDeadlineAt(v: int)
      modifies this`roundDeadlineAt
      ensures State() == old(State()).(roundDeadlineAt := v)
    {
      roundDeadlineAt := v;
    }

    method SetPausedRemainingMs(v: Option<int>)
      modifies this`pausedRemainingMs
      ensures State() == old(State()).(pausedRemainingMs := v)
    {
      pausedRemainingMs := v;
    }

    method SetCurrentSubmission(v: Option<Submission>)
      modifies this`currentSubmission
      ensures State() == old(State()).(currentSubmission := v)
    {
      currentSubmission := v;
    }

    method SetVoteState(v: Option<VoteState>)
      modifies this`voteState
      ensures State() == old(State()).(voteState := v)
    {
      voteState := v;
    }

    method SetRoundHistory(v: seq<HistoryEntry>)
      modifies this`roundHistory
      ensures State() == old(State()).(roundHistory := v)
    {
      roundHistory := v;
    }

    method SetScores(v: PerTeam<nat>)
      modifies this`scores
      ensures State() == old(State()).(scores := v)
    {
      scores := v;
    }

    method SetQuestionStats(v: map<string, QuestionStat>)
      modifies this`questionStats
      ensures State() == old(State()).(questionStats := v)
    {
      questionStats := v;
    }

    method SetFinishedAt(v: Option<int>)
      modifies this`finishedAt
      ensures State() == old(State()).(finishedAt := v)
    {
      finishedAt := v;
    }

    method SetTransitionDueAt(v: Option<int>)
      modifies this`transitionDueAt
      ensures State() == old(State()).(transitionDueAt := v)
    {
      transitionDueAt := v;
    }

    // ------------------------------------------------------------ rounds

    /** `finishGame`: the game is over and its clock stopped. */
    method FinishGame(now: int)
      modifies this
      ensures State() == RoomSpec.FinishGame(old(State()), now)
    {
      SetStatus(Finished);
      SetFinishedAt(Some(now));
      SetRoundDeadlineAt(0);
      SetRoundStartedAt(0);
      SetCurrentSubmission(None);
      SetPausedRemainingMs(None);
    }

    /** Starts the round's clock now, with `vs` as its vote. */
    method StartClock(vs: Option<VoteState>, now: int)
      modifies this
      ensures State() == old(State()).(currentSubmission := None, voteState := vs, roundStartedAt := now,
                                       roundDeadlineAt := now + DurationMs(settings), pausedRemainingMs := None, status := Running)
    {
      SetCurrentSubmission(None);
      SetVoteState(vs);
      SetRoundStartedAt(now);
      SetRoundDeadlineAt(now + DurationMs(settings));
      SetPausedRemainingMs(None);
      SetStatus(Running);
    }

    /** `startCurrentRoundIfReady`: a round whose question exists starts
        its clock and, in the team format, an empty vote of its team. */
    method StartCurrentRoundIfReady(now: int) returns (started: bool)
      modifies this
      ensures (State(), started) == StartRound(settings, old(State()), now)
    {
      var round := CurrentRound(State());
      var question := QuestionFor(settings, State(), round);
      if round.None? || question.None? {
        return false;
      }
      StartClock(if FormatOf(settings) == Teams then Some(VoteState(round.value.team, map[])) else None, now);
      return true;
    }

    /** `advanceRound`: past the last round the game finishes; otherwise the
        next round starts, or waits paused when its question is missing. */
    method AdvanceRound(now: int)
      modifies this
      ensures State() == Advance(settings, old(State()), now)
    {
      SetTransitionDueAt(None);
      if roundIndex + 1 >= |rounds| {
        FinishGame(now);
        return;
      }
      MoveToNextRound();
      if CurrentRound(State()).None? {
        FinishGame(now);
        return;
      }
      var started := StartCurrentRoundIfReady(now);
      if started {
        return;
      }
      Park();
    }

    /** The next round selected, not started yet. */
    method MoveToNextRound()
      modifies this
      ensures State() == NextRound(old(State()))
    {
      SetRoundIndex(roundIndex + 1);
      SetCurrentSubmission(None);
      SetRoundStartedAt(0);
      SetRoundDeadlineAt(0);
      SetPausedRemainingMs(None);
      SetStatus(Running);
    }

    /** The round waits, paused with a full round left. */
    method Park()
      modifies this
      ensures State() == ParkRound(settings, old(State()))
    {
      SetStatus(Paused);
      SetPausedRemainingMs(Some(DurationMs(settings)));
    }

    // ------------------------------------------------------------ resolution

    /** `applyRoundPenaltyStats`: the round's player in free-for-all, every
        member of the round's team otherwise. */
    method ApplyRoundPenaltyStats(round: Round, k: Penalty, now: int)
      modifies this
      ensures State() == old(State()).(playerStats := RoundPenalty(settings, old(State()), round, k, now))
    {
      if FormatOf(settings) == Ffa {
        if round.player.Some? && round.player.value in playerStats {
          var id := round.player.value;
          SetPlayerStats(playerStats[id := playerStats[id].(counts := Penalized(playerStats[id].counts, k))]);
        }
        return;
      }
      var stats := ApplyTeamPenalty(playerStats, participants, round.team, k, now);
      SetPlayerStats(stats);
    }

    /** The counting half of `resolveRound`: the question statistic, the
        team metric and the penalty of the outcome. */
    method CountOutcome(r: Round, question: Option<Question>, outcome: (Mark, Option<Penalty>), now: int)
      modifies this
      ensures State() == Charged(settings, old(State()), r, question, outcome, now)
    {
      SetQuestionStats(MarkQuestion(questionStats, question, r.team, outcome.0));
      if outcome.1.Some? {
        if FormatOf(settings) == Teams {
          SetTeamMetrics(teamMetrics.With(r.team, MetricsAfter(teamMetrics.At(r.team), outcome.1.value)));
        }
        ghost var mid := State();
        assert RoundPenalty(settings, mid, r, outcome.1.value, now) == RoundPenalty(settings, old(State()), r, outcome.1.value, now);
        ApplyRoundPenaltyStats(r, outcome.1.value, now);
      }
    }

    /** Stores the recorded submission, closes the vote and stops the clock. */
    method StoreResolution(final: Submission, streaks: map<string, int>, history: seq<HistoryEntry>, due: int)
      modifies this
      ensures State() == old(State()).(currentSubmission := Some(final), voteState := None, roundDeadlineAt := 0,
                                       playerStreaks := streaks, roundHistory := history, transitionDueAt := Some(due))
    {
      SetCurrentSubmission(Some(final));
      SetVoteState(None);
      SetRoundDeadlineAt(0);
      SetPlayerStreaks(streaks);
      SetRoundHistory(history);
      SetTransitionDueAt(Some(due));
    }

    /** The recording half of `resolveRound`: the final submission, the
        streak reset unless the answer was right, the history entry
        upserted and the review timer set. */
    method RecordResolution(r: Round, question: Option<Question>, final: Submission, now: int)
      requires roundIndex >= 0
      modifies this
      ensures State() == Recorded(settings, old(State()), r, question, final, now)
    {
      var entry := EntryFor(settings, State(), r, question, final);
      var streaks := if final.kind == Answer && final.correct then playerStreaks else ResetActorStreak(settings, playerStreaks, r);
      StoreResolution(final, streaks, Upsert(roundHistory, entry),
                      now + ReviewDelayMs(settings.reviewTiming,
                                          if question.Some? then |question.value.prompt| else 0,
                                          if question.Some? then |question.value.explanation| else 0,
                                          final.kind, final.correct));
    }

    /** `resolveRound`: a missing submission is a timeout; the outcome is
        counted and the resolution recorded. */
    method ResolveRound(sub: Option<Submission>, now: int)
      modifies this
      ensures State() == Resolved(settings, old(State()), sub, now)
    {
      var round := CurrentRound(State());
      if round.None? {
        return;
      }
      var question := QuestionFor(settings, State(), round);
      var final := if sub.Some? then sub.value else TimeoutSubmission(settings, question);
      CountOutcome(round.value, question, Outcome(sub), now);
      RecordResolution(round.value, question, final, now);
    }

    // ------------------------------------------------------------ team votes

    /** What the team's votes decide, on the room's value: the new team
        scores and statistics, and the submission the round resolves
        with. */
    static method VoteEffect(c: Settings, st: RoomState, team: Team, question: Question, es: seq<Entry>, now: int)
      returns (total: PerTeam<nat>, stats: map<string, Stat>, sub: Submission)
      requires AllMembers(es) && es != []
      ensures VoteOutcome(c, st, team, question, es, now) == (st.(scores := total, playerStats := stats), sub)
    {
      var optionVotes, passVotes := Tally(es);
      var elapsed := ElapsedMs(c, st, now);
      var ci := question.correctIndex;
      var decision := Decide(optionVotes, passVotes, es);
      assert decision == Decide(Counts(es), CountPass(es), es);
      match decision
      case PassDecision =>
        total := st.scores;
        stats := ApplyVoteCredits(st.playerStats, es, ci, None, 0, now);
        sub := Submission(Pass, TeamLabel(team), None, false, 0, elapsed, Some(ci));
      case AnswerDecision(k) =>
        var correct := k == ci;
        var points := if correct then Points(c, elapsed, question) else 0;
        total := st.scores.With(team, st.scores.At(team) + points);
        stats := ApplyVoteCredits(st.playerStats, es, ci, if correct then Some(k) else None, points, now);
        sub := Submission(Answer, MajorityLabel(team, Best(optionVotes), |es|), Some(k), correct, points, elapsed, Some(ci));
    }

    /** The votes of a team, tallied and credited to their voters, with
        the team's points for a right majority answer; returns the
        submission the round resolves with. */
    method CreditTeamVotes(team: Team, question: Question, es: seq<Entry>, now: int) returns (sub: Submission)
      requires AllMembers(es) && es != []
      modifies this
      ensures (State(), sub) == VoteOutcome(settings, old(State()), team, question, es, now)
    {
      var total, stats, s := VoteEffect(settings, State(), team, question, es, now);
      SetScores(total);
      SetPlayerStats(stats);
      sub := s;
    }

    /** `finalizeTeamRoundFromVotes`; `timeout` is the reason.  The round
        resolves with the team's pass or majority answer, or as a timeout
        when nobody voted and the reason is the timeout. */
    method FinalizeTeamRoundFromVotes(timeout: bool, now: int) returns (done: bool)
      modifies this
      ensures (State(), done) == FinalizeVotes(settings, old(State()), timeout, now)
    {
      var round := CurrentRound(State());
      if FormatOf(settings) != Teams || currentSubmission.Some? || round.None? {
        return false;
      }
      var question := QuestionFor(settings, State(), round);
      if question.None? || voteState.None? || voteState.value.team != round.value.team {
        return false;
      }
      var team := round.value.team;
      var es := Entries(State(), team);
      if es == [] && !timeout {
        return false;
      }
      ghost var st0 := State();
      var sub: Option<Submission> := None;
      if es != [] {
        var s := CreditTeamVotes(team, question.value, es, now);
        sub := Some(s);
      }
      assert (State(), sub) == Decided(settings, st0, timeout, now);
      ResolveRound(sub, now);
      return true;
    }

    /** The guards of `finalizeTeamRoundIfReady`, on the vote snapshot. */
    static method CheckReady(c: Settings, st: RoomState, timeout: bool) returns (ready: bool)
      ensures ready == ReadyToResolve(c, st, timeout)
    {
      var round := CurrentRound(st);
      if FormatOf(c) != Teams || st.currentSubmission.Some? || round.None? {
        return false;
      }
      var team := round.value.team;
      var votes := if st.voteState.Some? && st.voteState.value.team == team then st.voteState.value.votes else map[];
      var snapshot := BuildSnapshot(TeamVoters(st.participants, team), votes);
      ready := ReadyToFinalize(snapshot, timeout);
    }

    /** `finalizeTeamRoundIfReady`: the vote snapshot decides whether to
        finalise. */
    method FinalizeTeamRoundIfReady(timeout: bool, now: int) returns (done: bool)
      modifies this
      ensures (State(), done) == FinalizeIfReady(settings, old(State()), timeout, now)
    {
      var ready := CheckReady(settings, State(), timeout);
      if !ready {
        return false;
      }
      done := FinalizeTeamRoundFromVotes(timeout, now);
    }

    // ------------------------------------------------------------ host actions

    /** `skipRoundByHost`: only during a game, before the round is
        resolved and with its question at hand; the room runs again and the
        round resolves as the host's skip. */
    method SkipRoundByHost(hostName: string, now: int) returns (reply: Reply)
      modifies this
      ensures (State(), reply) == SkipByHost(settings, old(State()), hostName, now)
    {
      if status != Running && status != Paused {
        return Err(SkipOnlyInGame);
      }
      if currentSubmission.Some? {
        return Err(AlreadyResolved);
      }
      var question := QuestionFor(settings, State(), CurrentRound(State()));
      if question.None? {
        return Err(RoundUnavailable);
      }
      var sub := Submission(Skip, hostName, None, false, 0, ElapsedMs(settings, State(), now), Some(question.value.correctIndex));
      SetStatus(Running);
      ResolveRound(Some(sub), now);
      return Ok;
    }

    /** `host:skipRound`, and `host:nextRound`, which does the same. */
    method SkipRound(socketId: string, now: int) returns (reply: Reply)
      requires Valid()
      modifies this
      ensures (State(), reply) == RoomSpec.SkipRound(settings, old(State()), socketId, now)
      ensures Valid()
    {
      SkipRoundKeepsValid(settings, State(), socketId, now);
      if !registered {
        return Err(RoomNotFound);
      }
      var i := FindSocket(participants, socketId);
      if i.None? || !participants[i.value].role.HostRole? {
        return Err(NotAuthorized);
      }
      reply := SkipRoundByHost(participants[i.value].name, now);
    }

    /** `host:togglePause`: pausing keeps the time left; resuming restarts
        the clock with it, or with a full round when none was kept. */
    method TogglePause(socketId: string, now: int) returns (reply: Reply)
      requires Valid()
      modifies this
      ensures (State(), reply) == RoomSpec.TogglePause(settings, old(State()), socketId, now)
      ensures Valid()
    {
      if !registered {
        return Err(RoomNotFound);
      }
      var i := FindSocket(participants, socketId);
      if i.None? || !participants[i.value].role.HostRole? {
        return Err(NotAuthorized);
      }
      if status == Running {
        SetPausedRemainingMs(Some(Max(0, roundDeadlineAt - now)));
        SetStatus(Paused);
        assert Valid();
        return Ok;
      }
      if status == Paused {
        if QuestionFor(settings, State(), CurrentRound(State())).None? {
          return Err(QuestionMissing);
        }
        var left := if pausedRemainingMs.None? || pausedRemainingMs.value == 0 then DurationMs(settings) else pausedRemainingMs.value;
        SetStatus(Running);
        SetRoundDeadlineAt(now + left);
        assert Valid();
        return Ok;
      }
      return Err(PauseOnlyInGame);
    }

    // ------------------------------------------------------------ answers

    /** A free-for-all pass on the room's value: the player's skip is
        counted. */
    static method PassEffect(c: Settings, st: RoomState, me: Participant, question: Question, now: int)
      returns (stats: map<string, Stat>, sub: Submission)
      requires me.role.Member?
      ensures FfaPassed(c, st, me, question, now) == (st.(playerStats := stats), sub)
    {
      stats := EnsureStat(st.playerStats, me, now);
      var counts := stats[me.id].counts;
      stats := stats[me.id := stats[me.id].(counts := counts.(skips := counts.skips + 1))];
      sub := Submission(Pass, me.name, None, false, 0, ElapsedMs(c, st, now), Some(question.correctIndex));
    }

    /** The score of a free-for-all answer: a right one earns the points
        and, through `applyCorrectStreakBonus`, the streak bonus; a wrong
        one resets the round's streak. */
    static method ScoreAnswer(c: Settings, st: RoomState, me: Participant, round: Round, question: Question, k: int, elapsed: int)
      returns (points: nat, streaks: map<string, int>)
      ensures (points, streaks) == AnswerScore(c, st, me, round, question, k, elapsed)
    {
      points, streaks := 0, st.playerStreaks;
      if k == question.correctIndex {
        points := Points(c, elapsed, question);
        if Config(c.gameMode).streakBonus && me.id != "" {
          var bonus := StreakBonus(if me.id in streaks then streaks[me.id] else 0);
          streaks := streaks[me.id := bonus.0];
          points := points + bonus.1;
        }
      } else {
        streaks := ResetActorStreak(c, streaks, round);
      }
    }

    /** A free-for-all answer on the room's value: its points and streak,
        the player's score when right, and the answer counted in the
        statistic. */
    static method AnswerEffect(c: Settings, st: RoomState, me: Participant, round: Round, question: Question, k: int, now: int)
      returns (stats: map<string, Stat>, scores: map<string, int>, streaks: map<string, int>, sub: Submission)
      requires me.role.Member?
      ensures FfaAnswered(c, st, me, round, question, k, now)
              == (st.(playerStats := stats, playerScores := scores, playerStreaks := streaks), sub)
    {
      var elapsed := ElapsedMs(c, st, now);
      var correct := k == question.correctIndex;
      var points;
      points, streaks := ScoreAnswer(c, st, me, round, question, k, elapsed);
      scores := st.playerScores;
      if correct {
        scores := scores[me.id := (if me.id in scores then scores[me.id] else 0) + points];
      }
      sub := Submission(Answer, me.name, Some(k), correct, points, elapsed, Some(question.correctIndex));
      stats := EnsureStat(st.playerStats, me, now);
      var counts := stats[me.id].counts;
      stats := stats[me.id := stats[me.id].(counts := counts.(answers := counts.answers + 1,
                                                             correct := counts.correct + (if correct then 1 else 0),
                                                             wrong := counts.wrong + (if correct then 0 else 1),
                                                             points := counts.points + points))];
    }

    /** A free-for-all answer or pass of the round's player: credited, then
        the round resolves with it. */
    method SubmitFfa(me: Participant, round: Round, question: Question, wantsPass: bool, k: int, now: int)
      requires me.role.Member?
      modifies this
      ensures State() == RoomSpec.SubmitFfa(settings, old(State()), me, round, question, wantsPass, k, now)
    {
      var sub;
      if wantsPass {
        var stats;
        stats, sub := PassEffect(settings, State(), me, question, now);
        SetPlayerStats(stats);
      } else {
        var stats, scores, streaks;
        stats, scores, streaks, sub := AnswerEffect(settings, State(), me, round, question, k, now);
        SetPlayerStreaks(streaks);
        SetPlayerScores(scores);
        SetPlayerStats(stats);
      }
      ResolveRound(Some(sub), now);
    }

    /** A team member's vote, stored under the player's id in the round's
        vote state (a fresh one when it belongs to another team); the round
        finalises when the whole team has voted. */
    method SubmitVote(me: Participant, team: Team, answer: Option<int>, now: int) returns (reply: Reply)
      modifies this
      ensures (State(), reply) == RoomSpec.SubmitVote(settings, old(State()), me, team, answer, now)
    {
      var vs := if voteState.Some? && voteState.value.team == team then voteState.value else VoteState(team, map[]);
      if me.id in vs.votes {
        return Err(AlreadyVoted);
      }
      SetVoteState(Some(vs.(votes := vs.votes[me.id := Vote(answer, now, me.name)])));
      var _ := FinalizeTeamRoundIfReady(false, now);
      return Ok;
    }

    /** `round:submitAnswer`; `answer` is the payload's index when it is an
        integer, and a pass is the `pass` flag or the index -1. */
    method SubmitAnswer(socketId: string, pass: bool, answer: Option<int>, now: int) returns (reply: Reply)
      requires Valid()
      modifies this
      ensures (State(), reply) == RoomSpec.SubmitAnswer(settings, old(State()), socketId, pass, answer, now)
      ensures Valid()
    {
      SubmitAnswerKeepsValid(settings, State(), socketId, pass, answer, now);
      if !registered || status != Running {
        return Err(NotAccepting);
      }
      var i := FindSocket(participants, socketId);
      if i.None? || participants[i.value].role.HostRole? {
        return Err(OnlyPlayers);
      }
      var me := participants[i.value];
      var round := CurrentRound(State());
      var question := QuestionFor(settings, State(), round);
      var wantsPass := pass || answer == Some(-1);
      if question.None? {
        return Err(RoundUnavailable);
      }
      if currentSubmission.Some? {
        return Err(AlreadyAnswered);
      }
      if FormatOf(settings) == Teams && !InTeam(me, round.value.team) {
        return Err(OtherTeamsTurn);
      }
      if FormatOf(settings) == Ffa && round.value.player != Some(me.id) {
        return Err(OtherPlayersTurn);
      }
      if wantsPass && !Config(settings.gameMode).passEnabled {
        return Err(PassDisabled);
      }
      if !wantsPass && (answer.None? || answer.value < 0 || answer.value > 3) {
        return Err(ChooseOption);
      }
      if FormatOf(settings) == Teams {
        reply := SubmitVote(me, round.value.team, if wantsPass then None else answer, now);
        return;
      }
      SubmitFfa(me, round.value, question.value, wantsPass, if wantsPass then 0 else answer.value, now);
      return Ok;
    }

    // ------------------------------------------------------------ timers

    /** The one-second tick for this room: a running round past its
        deadline is finalised from the votes or resolved as a timeout. */
    method Tick(now: int)
      modifies this
      ensures State() == RoomSpec.Tick(settings, old(State()), now)
    {
      if !registered || status != Running || CurrentRound(State()).None? {
        return;
      }
      if currentSubmission.None? && roundDeadlineAt > 0 && now >= roundDeadlineAt {
        var done := false;
        if FormatOf(settings) == Teams {
          done := FinalizeTeamRoundIfReady(true, now);
        }
        if !done {
          ResolveRound(None, now);
        }
      }
    }

    /** The review timer set by a resolution fires and advances the game. */
    method FireTransition(now: int)
      requires Valid()
      modifies this
      ensures State() == RoomSpec.FireTransition(settings, old(State()), now)
      ensures Valid()
    {
      FireTransitionKeepsValid(settings, State(), now);
      if transitionDueAt.Some? && now >= transitionDueAt.value {
        AdvanceRound(now);
      }
    }

    /** `closeRoom`: the timers cleared, every participant marked
        disconnected, the room removed from the registry. */
    method CloseRoom(now: int)
      modifies this
      ensures State() == RoomSpec.CloseRoom(old(State()), now)
    {
      SetHostReconnectDeadlineAt(0);
      SetSlots(map[]);
      SetTransitionDueAt(None);
      var stats := ApplyDisconnectAll(playerStats, participants, now);
      SetPlayerStats(stats);
      SetRegistered(false);
    }

    /** The host grace timer fires and closes the room. */
    method ExpireHostGrace(now: int)
      requires Valid()
      modifies this
      ensures State() == RoomSpec.ExpireHostGrace(old(State()), now)
      ensures Valid()
    {
      ExpiriesKeepValid(State(), "", now);
      if registered && hostReconnectDeadlineAt > 0 && now >= hostReconnectDeadlineAt {
        CloseRoom(now);
      }
    }

    /** A player's rejoin timer fires and its slot goes. */
    method ExpirePlayerSlot(key: string, now: int)
      requires Valid()
      modifies this
      ensures State() == RoomSpec.ExpirePlayerSlot(old(State()), key, now)
      ensures Valid()
    {
      ExpiriesKeepValid(State(), key, now);
      if key in slots && now >= slots[key].deadlineAt {
        SetSlots(slots - {key});
      }
    }

    /** `startHostReconnectGrace`: the host is gone and the grace timer
        runs; a running game pauses with the time left kept. */
    method StartHostGrace(now: int)
      modifies this
      ensures State() == RoomSpec.StartHostGrace(old(State()), now)
    {
      SetHostReconnectDeadlineAt(now + HostGraceMs);
      SetHostSocketId(None);
      if status == Running {
        SetPausedRemainingMs(Some(Max(0, roundDeadlineAt - now)));
        SetStatus(Paused);
      }
    }

    /** `startPlayerReconnectGrace`: a player with a rejoin key gets a slot
        holding its record, without a socket, until the window closes. */
    method StartPlayerGrace(p: Participant, now: int)
      modifies this
      ensures State() == RoomSpec.StartPlayerGrace(old(State()), p, now)
    {
      if p.playerKey != "" {
        SetSlots(slots[p.playerKey := Slot(p.(socketId := ""), now + PlayerGraceMs)]);
      }
    }

    // ------------------------------------------------------------ leaving

    /** What every way of leaving does first: the socket's entry goes, the
        player is marked disconnected and loses its free-for-all score. */
    method Depart(socketId: string, now: int)
      modifies this
      ensures State() == RoomSpec.Depart(old(State()), socketId, now)
    {
      var i := FindSocket(participants, socketId);
      var ps := DeleteSocket(participants, socketId);
      if i.Some? {
        var p := participants[i.value];
        SetPlayerStats(MarkDisconnected(playerStats, p, now));
        SetPlayerScores(playerScores - {p.id});
      }
      SetParticipants(ps);
    }

    /** A kicked player's removal: the entry goes, the statistic is marked
        disqualified and disconnected, the rejoin slot and the
        free-for-all score are dropped. */
    method Disqualify(p: Participant, now: int)
      modifies this
      ensures State() == RoomSpec.Disqualify(old(State()), p, now)
    {
      var marked := MarkDisconnected(playerStats, p, now);
      if p.id in marked {
        marked := marked[p.id := marked[p.id].(disqualified := true, connected := false, leftAt := Some(now))];
      }
      SetParticipants(DeleteSocket(participants, p.socketId));
      SetPlayerStats(marked);
      if p.playerKey != "" {
        SetSlots(slots - {p.playerKey});
      }
      SetPlayerScores(playerScores - {p.id});
    }

    /** A departed player's rejoin slot is dropped. */
    method DropSlot(key: string)
      modifies this
      ensures State() == RoomSpec.DropSlot(old(State()), key)
    {
      if key != "" {
        SetSlots(slots - {key});
      }
    }

    /** `rebalanceTeamsIfNeeded`: in a non-duel team lobby whose teams
        differ by more than one, the last unlocked player of the larger
        team in join order switches team. */
    method RebalanceTeamsIfNeeded()
      modifies this
      ensures State() == Rebalance(settings, old(State()))
    {
      if status != Lobby || FormatOf(settings) != Teams || IsDuel(settings) {
        return;
      }
      var players := SortByJoin(NonHostPlayers(participants));
      var a, b := TeamVoters(players, A), TeamVoters(players, B);
      if Gap(|a|, |b|) <= 1 {
        return;
      }
      var list := if |a| > |b| then a else b;
      var c := PickUnlockedCandidate(list, if |a| > |b| then A else B);
      if c.None? {
        return;
      }
      var q := list[c.value];
      if q.role.Member? {
        SetParticipants(MoveToOtherTeam(participants, q));
      }
    }

    /** After a departure from a running, unresolved team round the rest of
        the team may all have voted: `finalizeTeamRoundIfReady(all-voted)`. */
    method Settle(now: int) returns (done: bool)
      modifies this
      ensures (State(), done) == RoomSpec.Settle(settings, old(State()), now)
    {
      if FormatOf(settings) == Teams && status == Running && currentSubmission.None? {
        done := FinalizeTeamRoundIfReady(false, now);
      } else {
        done := false;
      }
    }

    /** The room after kicked player `p` was disqualified: the lobby is
        rebalanced; a running free-for-all round of that player resolves as
        its timeout, a running team round is finalised when the rest of the
        team has voted. */
    method Kicked(p: Participant, now: int)
      modifies this
      ensures State() == RoomSpec.Kicked(settings, old(State()), p, now)
    {
      if status == Lobby {
        RebalanceTeamsIfNeeded();
      }
      var round := CurrentRound(State());
      if FormatOf(settings) == Ffa && status == Running && currentSubmission.None? && round.Some? && round.value.player == Some(p.id) {
        var question := QuestionFor(settings, State(), round);
        ResolveRound(Some(Submission(Timeout, p.name, None, false, 0, ElapsedMs(settings, State(), now),
                                     if question.Some? then Some(question.value.correctIndex) else None)), now);
        return;
      }
      var _ := Settle(now);
    }

    /** `host:kickPlayer`: the first player with that id is removed and
        disqualified. */
    method Kick(socketId: string, targetId: string, now: int) returns (reply: Reply)
      requires Valid()
      modifies this
      ensures (State(), reply) == RoomSpec.Kick(settings, old(State()), socketId, targetId, now)
      ensures Valid()
    {
      KickKeepsValid(settings, State(), socketId, targetId, now);
      if !registered {
        return Err(RoomNotFound);
      }
      var i := FindSocket(participants, socketId);
      if i.None? || !participants[i.value].role.HostRole? {
        return Err(NotAuthorized);
      }
      var id := Trim(targetId);
      if id == "" || id == "host" {
        return Err(BadTarget);
      }
      var j := FindPlayerById(participants, id);
      if j.None? {
        return Err(ParticipantNotFound);
      }
      var p := participants[j.value];
      Disqualify(p, now);
      Kicked(p, now);
      return Ok;
    }

    /** An empty room is removed from the registry: nobody left and, when
        `slotsHold`, no rejoin slot open either. */
    method Emptied(slotsHold: bool)
      modifies this
      ensures State() == RoomSpec.Emptied(old(State()), slotsHold)
    {
      if |participants| == 0 && (!slotsHold || slots == map[]) {
        SetRegistered(false);
      }
    }

    /** What follows a player's departure from a room that stays: a team
        vote the departure completed is finalised, otherwise an empty room
        is removed. */
    method Remaining(now: int, slotsHold: bool)
      modifies this
      ensures State() == RoomSpec.Remaining(settings, old(State()), now, slotsHold)
    {
      var done := Settle(now);
      if !done {
        Emptied(slotsHold);
      }
    }

    /** The room after a participant left on purpose: closed when it was the
        host, otherwise rebalanced and settled. */
    method Left(wasHost: bool, now: int)
      modifies this
      ensures State() == RoomSpec.Left(settings, old(State()), wasHost, now)
    {
      if wasHost {
        CloseRoom(now);
        return;
      }
      RebalanceTeamsIfNeeded();
      Remaining(now, false);
    }

    /** `player:leaveRoom`: the host leaving closes the room; a player gives
        up its slot, the lobby is rebalanced, a team vote may complete, and
        an empty room is removed. */
    method Leave(socketId: string, now: int)
      requires Valid()
      modifies this
      ensures State() == RoomSpec.Leave(settings, old(State()), socketId, now)
      ensures Valid()
    {
      LeaveKeepsValid(settings, State(), socketId, now);
      if !registered {
        return;
      }
      var i := FindSocket(participants, socketId);
      var key := if i.Some? then participants[i.value].playerKey else "";
      var wasHost := i.Some? && participants[i.value].role.HostRole?;
      Depart(socketId, now);
      DropSlot(key);
      Left(wasHost, now);
    }

    /** The room after participant `p` lost its connection and its entry. */
    method Disconnected(p: Participant, now: int)
      modifies this
      ensures State() == RoomSpec.Disconnected(settings, old(State()), p, now)
    {
      if p.role.HostRole? {
        StartHostGrace(now);
      } else if status == Lobby || status == Finished {
        RebalanceTeamsIfNeeded();
        Emptied(false);
      } else {
        StartPlayerGrace(p, now);
        Remaining(now, true);
      }
    }

    /** The socket `disconnect` handler: the host starts its grace period; a
        player in the lobby or after the game just leaves, one during a game
        gets a rejoin slot and may complete a team vote; a room with nobody
        left and no slot is removed. */
    method Disconnect(socketId: string, now: int)
      requires Valid()
      modifies this
      ensures State() == RoomSpec.Disconnect(settings, old(State()), socketId, now)
      ensures Valid()
    {
      DisconnectKeepsValid(settings, State(), socketId, now);
      if !registered {
        return;
      }
      var i := FindSocket(participants, socketId);
      var p := if i.Some? then Some(participants[i.value]) else None;
      Depart(socketId, now);
      if p.None? {
        Emptied(true);
      } else {
        Disconnected(p.value, now);
      }
    }

    // ------------------------------------------------------------ joining

    /** A player with a rejoin slot returns: its saved record sits on the
        new socket and the slot is used up. */
    method RestorePlayer(key: string, socketId: string, now: int)
      requires key in slots && DistinctSockets(participants)
      modifies this
      ensures State() == Restored(old(State()), key, socketId, now)
    {
      var p := slots[key].participant.(socketId := socketId);
      SetSlots(slots - {key});
      SetParticipants(SetParticipant(participants, p));
      if p.role.Member? {
        SetPlayerStats(EnsureStat(playerStats, p, now));
      }
    }

    /** A new player enters the lobby on its socket, with its statistic,
        after which teams are rebalanced. */
    method Admit(p: Participant, now: int)
      requires status == Lobby && DistinctSockets(participants) && p.role.Member?
      modifies this
      ensures State() == Admitted(settings, old(State()), p, now)
    {
      SetSlots(slots - {p.playerKey});
      SetParticipants(SetParticipant(participants, p));
      SetPlayerStats(EnsureStat(playerStats, p, now));
      RebalanceTeamsIfNeeded();
    }

    /** `player:joinRoom`: a key with a rejoin slot restores that player;
        otherwise only the lobby admits, past the password and the duel's
        two seats, a new player.  `suffix` stands for the random suffix of
        a taken name, `generatedKey` for the key made when none was sent,
        `coin` for the draw of `assignTeam`. */
    method Join(socketId: string, rawName: string, rawKey: string, password: string,
                now: int, suffix: nat, generatedKey: string, coin: Team) returns (reply: Reply)
      requires Valid()
      modifies this
      ensures (State(), reply) == RoomSpec.Join(settings, old(State()), socketId, rawName, rawKey, password, now, suffix, generatedKey, coin)
      ensures Valid()
    {
      JoinKeepsValid(settings, State(), socketId, rawName, rawKey, password, now, suffix, generatedKey, coin);
      var name := SanitizeName(rawName);
      var key := NormalizeRejoinKey(rawKey);
      if !registered {
        return Err(RoomNotFound);
      }
      if key != "" && key in slots {
        RestorePlayer(key, socketId, now);
        return Rejoined;
      }
      if status != Lobby {
        return Err(LobbyOnly);
      }
      if settings.roomPassword != "" && Trim(password) != settings.roomPassword {
        return Err(WrongPassword);
      }
      if IsDuel(settings) && PlayerCount(participants) >= 2 {
        return Err(DuelFull);
      }
      Admit(NewPlayer(settings, State(), socketId, name, key, now, suffix, generatedKey, coin), now);
      return Ok;
    }

    /** `host:rejoinRoom`: with the room's host key and no host connected,
        the host returns on the new socket and the grace timer stops. */
    method HostRejoin(socketId: string, hostKey: string, now: int) returns (reply: Reply)
      requires Valid()
      modifies this
      ensures (State(), reply) == RoomSpec.HostRejoin(settings, old(State()), socketId, hostKey, now)
      ensures Valid()
    {
      HostRejoinKeepsValid(settings, State(), socketId, hostKey, now);
      if !registered {
        return Err(RoomNotFound);
      }
      var key := Trim(hostKey);
      if key == "" || key != settings.hostRejoinKey {
        return Err(BadHostKey);
      }
      if hostSocketId.Some? {
        return Err(HostConnected);
      }
      SetHostReconnectDeadlineAt(0);
      SetHostSocketId(Some(socketId));
      SetParticipants(SetParticipant(participants, HostParticipant(settings, socketId, now)));
      return Ok;
    }

    /** `player:switchTeam`: in a team lobby a player moves to the other
        team and is locked there; in a duel only to a free seat. */
    method SwitchTeam(socketId: string, target: Option<Team>, now: int) returns (reply: Reply)
      requires Valid()
      modifies this
      ensures (State(), reply) == RoomSpec.SwitchTeam(settings, old(State()), socketId, target, now)
      ensures Valid()
    {
      SwitchTeamKeepsValid(settings, State(), socketId, target, now);
      if !registered {
        return Err(RoomNotFound);
      }
      if FormatOf(settings) != Teams {
        return Err(TeamsOnly);
      }
      if status != Lobby {
        return Err(LobbyOnly);
      }
      var i := FindSocket(participants, socketId);
      if i.None? || participants[i.value].role.HostRole? {
        return Err(OnlyPlayers);
      }
      if target.None? {
        return Err(BadTeam);
      }
      var me := participants[i.value];
      if InTeam(me, target.value) {
        return Ok;
      }
      if IsDuel(settings) && exists j :: 0 <= j < |participants| && participants[j].id != me.id && InTeam(participants[j], target.value) {
        return Err(SeatTaken);
      }
      MoveToTeam(i.value, target.value, now);
      return Ok;
    }

    /** The participant at `i` moved to `team` and locked there, with a
        statistics entry. */
    method MoveToTeam(i: nat, team: Team, now: int)
      requires i < |participants|
      modifies this
      ensures var me' := old(participants[i]).(role := Member(team), teamLocked := true);
        State() == old(State()).(participants := old(participants)[i := me'],
                                 playerStats := EnsureStat(old(playerStats), me', now))
    {
      var moved := participants[i].(role := Member(team), teamLocked := true);
      SetParticipants(participants[i := moved]);
      SetPlayerStats(EnsureStat(playerStats, moved, now));
    }

    // ------------------------------------------------------------ starting a game

    /** The timers stopped, the rejoin slots dropped, the room preparing. */
    method Prepare()
      modifies this
      ensures State() == old(State()).(hostReconnectDeadlineAt := 0, slots := map[], status := Preparing)
    {
      SetHostReconnectDeadlineAt(0);
      SetSlots(map[]);
      SetStatus(Preparing);
    }

    /** No questions yet; every player's score and streak at zero. */
    method ClearQuestions(zeros: map<string, int>)
      modifies this
      ensures State() == old(State()).(questionSetA := [], questionSetB := [], questionBank := [],
                                       playerScores := zeros, playerStreaks := zeros)
    {
      SetQuestionSetA([]);
      SetQuestionSetB([]);
      SetQuestionBank([]);
      SetPlayerScores(zeros);
      SetPlayerStreaks(zeros);
    }

    /** The round plan installed, no round current yet. */
    method ResetRounds(plan: seq<Round>)
      modifies this
      ensures State() == old(State()).(rounds := plan, roundIndex := -1, roundStartedAt := 0, roundDeadlineAt := 0,
                                       pausedRemainingMs := None, currentSubmission := None, voteState := None)
    {
      SetRounds(plan);
      SetRoundIndex(-1);
      SetRoundStartedAt(0);
      SetRoundDeadlineAt(0);
      SetPausedRemainingMs(None);
      SetCurrentSubmission(None);
      SetVoteState(None);
    }

    /** No history, no result, no statistics. */
    method ResetResults()
      modifies this
      ensures State() == old(State()).(roundHistory := [], finishedAt := None, scores := PerTeam(0, 0),
                                       teamMetrics := PerTeam(TeamMetrics(0, 0), TeamMetrics(0, 0)),
                                       questionStats := map[], playerStats := map[])
    {
      SetRoundHistory([]);
      SetFinishedAt(None);
      SetScores(PerTeam(0, 0));
      SetTeamMetrics(PerTeam(TeamMetrics(0, 0), TeamMetrics(0, 0)));
      SetQuestionStats(map[]);
      SetPlayerStats(map[]);
    }

    /** `host:startGame` up to the generation: the start checks, then the
        game state reset with the round plan built (free-for-all players in
        join order) and the room preparing. */
    method StartGame(socketId: string, now: int) returns (reply: Reply)
      requires Valid()
      modifies this
      ensures (State(), reply) == RoomSpec.StartGame(settings, old(State()), socketId, now)
      ensures Valid()
    {
      StartGameKeepsValid(settings, State(), socketId, now);
      if !registered {
        return Err(RoomNotFound);
      }
      var players := NonHostPlayers(participants);
      var check := StartCheck(IsHostSocket(State(), socketId), status, FormatOf(settings), IsDuel(settings), |players|,
                              CountTeam(participants, A), CountTeam(participants, B));
      if check.Some? {
        return Err(StartRejected(check.value));
      }
      Prepare();
      var zeros := ZeroByPlayer(players);
      assert zeros == ZeroMap(IdSet(players));
      ClearQuestions(zeros);
      var plan;
      if FormatOf(settings) == Ffa {
        plan := BuildFfaRounds(settings.questionCount, Ids(SortByJoin(players)));
      } else {
        plan := BuildRounds(settings.questionCount);
      }
      ResetRounds(plan);
      ResetResults();
      return Ok;
    }

    /** The question lists installed by `applyGeneratedQuestionSets`. */
    method InstallQuestions(bank: seq<Question>, setA: seq<Question>, setB: seq<Question>)
      modifies this
      ensures State() == old(State()).(questionBank := bank, questionSetA := setA, questionSetB := setB)
    {
      SetQuestionBank(bank);
      SetQuestionSetA(setA);
      SetQuestionSetB(setB);
    }

    /** The end of `host:startGame` once the generation has settled with
        sets `generatedA`/`generatedB` (`failed` when it threw) and the
        top-up pools at hand: on failure back to the lobby; otherwise the
        lists `applyGeneratedQuestionSets` builds are installed (unless the
        room was closed meanwhile), every player's statistics are reset and
        the first round starts.  Returns the lists built. */
    method CompleteStart(failed: bool, generatedA: seq<Question>, generatedB: seq<Question>,
                         topUpA: seq<Question>, topUpB: seq<Question>, now: int)
      returns (bank: seq<Question>, setA: seq<Question>, setB: seq<Question>)
      requires Valid()
      modifies this
      ensures State() == RoomSpec.CompleteStart(settings, old(State()), failed, bank, setA, setB, now)
      ensures FormatOf(settings) == Ffa ==> |bank| == settings.questionCount && setA == [] && setB == []
      ensures FormatOf(settings) == Teams ==> bank == [] && |setA| == settings.questionCount && |setB| == settings.questionCount
      ensures DistinctKeys(ByWords, bank) && DistinctKeys(ByWords, setA + setB)
      ensures Valid()
    {
      if FormatOf(settings) == Ffa {
        bank := ApplyFfa(generatedA, generatedB, topUpA, topUpB, settings.theme, settings.questionCount);
        setA, setB := [], [];
      } else {
        setA, setB := ApplyTeams(generatedA, generatedB, topUpA, topUpB, settings.theme, settings.questionCount);
        bank := [];
      }
      CompleteStartKeepsValid(settings, State(), failed, bank, setA, setB, now);
      if status != Preparing {
        return;
      }
      if failed {
        SetStatus(Lobby);
        return;
      }
      if registered {
        InstallQuestions(bank, setA, setB);
      }
      var stats := ApplyStatReset(playerStats, participants, now);
      SetPlayerStats(stats);
      AdvanceRound(now);
    }
  }

  /** The server's `rooms` map from room code to room.  A room whose
      `registered` flag dropped has been removed from it. */
  class Registry {
    var rooms: map<string, Room>

    /** Every code names its own room object. */
    ghost predicate Separate()
      reads this
    {
      forall a, b :: a in rooms && b in rooms && a != b ==> rooms[a] != rooms[b]
    }

    /** The one-second `setInterval` tick: every room gets its tick, at the
        same instant; the rooms are separate objects, so the order of the
        visits does not matter. */
    method Tick(now: int)
      requires Separate()
      modifies rooms.Values
      ensures forall code :: code in rooms ==> rooms[code].State() == RoomSpec.Tick(rooms[code].settings, old(rooms[code].State()), now)
    {
      var pending := rooms.Keys;
      while pending != {}
        invariant pending <= rooms.Keys
        invariant forall code | code in rooms ::
          rooms[code].State() == if code in pending then old(rooms[code].State()) else RoomSpec.Tick(rooms[code].settings, old(rooms[code].State()), now)
        decreases pending
      {
        var code :| code in pending;
        var room := rooms[code];
        assert forall other | other in rooms && other != code :: rooms[other] != room;
        room.Tick(now);
        pending := pending - {code};
      }
    }
  }
}
