/** The room engine of server/index.js as values: a room's state, and one
    function per socket handler, timer callback and helper that changes it.
    Each handler runs to completion on Node's event loop, so each is one
    step from a state to the next.  The `Room` class (room.dfy) updates its
    fields step by step and is proved equal to these functions; the lemmas
    here state what the source promises of them. */
module RoomSpec {
  import opened Text
  import opened Quiz
  import opened Generator
  import opened Rules
  import opened Votes
  import opened Roster

  // ---------------------------------------------------------------- settings

  /** What `host:createRoom` fixes for the lifetime of a room, with the
      review timing the server read at start-up. */
  datatype Settings = Settings(
    gameMode: GameMode,
    theme: string,
    speedBonusEnabled: bool,
    expert: bool,
    blitz: bool,
    timerSeconds: nat,
    questionCount: nat,
    hostName: string,
    hostRejoinKey: string,
    roomPassword: string,
    reviewTiming: ReviewTiming)

  /** The room's format is the one of its game mode. */
  function FormatOf(c: Settings): Format {
    Config(c.gameMode).format
  }

  predicate IsDuel(c: Settings) {
    c.gameMode == Duel
  }

  function DurationMs(c: Settings): nat {
    RoundDurationMs(c.timerSeconds, Config(c.gameMode).timerPermille, c.blitz)
  }

  // ---------------------------------------------------------------- state

  /** A value kept per team (`scores`, `teamMetrics`). */
  datatype PerTeam<T> = PerTeam(a: T, b: T) {
    function At(t: Team): T {
      if t == A then a else b
    }

    function With(t: Team, v: T): PerTeam<T> {
      if t == A then this.(a := v) else this.(b := v)
    }
  }

  /** An entry of `playerReconnectSlots`: the player to restore, without a
      socket, and when its window closes. */
  datatype Slot = Slot(participant: Participant, deadlineAt: int)

  datatype TeamMetrics = TeamMetrics(timeouts: nat, skips: nat)

  /** `teamVoteState`: the votes of the team whose round it is, by player id. */
  datatype VoteState = VoteState(team: Team, votes: map<string, Vote>)

  /** The three results `markQuestionStat` counts. */
  datatype Mark = CorrectMark | WrongMark | TimeoutMark

  datatype QuestionStat = QuestionStat(team: Team, prompt: string, correct: nat, wrong: nat, timeouts: nat)

  /** The history id `round-<n>-team-<T>` or `round-<n>-player-<id>`. */
  datatype HistoryId = TeamRoundId(n: nat, team: Team) | PlayerRoundId(n: nat, player: string)

  /** One entry of `roundHistory` (its display texts aside). */
  datatype HistoryEntry = HistoryEntry(
    id: HistoryId,
    roundNumber: nat,
    totalRounds: nat,
    team: Team,
    playerId: Option<string>,
    questionId: string,
    correctIndex: int,
    submission: Submission)

  /** The fields of a room object that its handlers change.  `registered`
      says the room is still in the `rooms` registry;
      `hostReconnectDeadlineAt > 0` says the host grace timer is pending,
      a slot is present exactly while its timer is, and `transitionDueAt`
      is the pending review timer. */
  datatype RoomState = RoomState(
    status: Status,
    registered: bool,
    participants: seq<Participant>,
    hostSocketId: Option<string>,
    hostReconnectDeadlineAt: int,
    slots: map<string, Slot>,
    playerStats: map<string, Stat>,
    teamMetrics: PerTeam<TeamMetrics>,
    questionSetA: seq<Question>,
    questionSetB: seq<Question>,
    questionBank: seq<Question>,
    playerScores: map<string, int>,
    playerStreaks: map<string, int>,
    rounds: seq<Round>,
    roundIndex: int,
    roundStartedAt: int,
    roundDeadlineAt: int,
    pausedRemainingMs: Option<int>,
    currentSubmission: Option<Submission>,
    voteState: Option<VoteState>,
    roundHistory: seq<HistoryEntry>,
    scores: PerTeam<nat>,
    questionStats: map<string, QuestionStat>,
    finishedAt: Option<int>,
    transitionDueAt: Option<int>)

  /** What a handler answers its caller. */
  datatype Reply = Ok | Rejoined | Err(error: RoomError)

  datatype RoomError =
    | RoomNotFound
    | NotAuthorized
    | OnlyPlayers
    | SkipOnlyInGame
    | AlreadyResolved
    | RoundUnavailable
    | QuestionMissing
    | PauseOnlyInGame
    | NotAccepting
    | AlreadyAnswered
    | OtherTeamsTurn
    | OtherPlayersTurn
    | PassDisabled
    | ChooseOption
    | AlreadyVoted
    | BadTarget
    | ParticipantNotFound
    | LobbyOnly
    | WrongPassword
    | DuelFull
    | BadHostKey
    | HostConnected
    | TeamsOnly
    | BadTeam
    | SeatTaken
    | StartRejected(reason: StartError)

  // ---------------------------------------------------------------- invariant

  /** History round numbers rise strictly, never pass the current round and
      are the numbers in the entries' ids. */
  predicate HistoryOrdered(h: seq<HistoryEntry>, roundIndex: int) {
    && (forall i :: 0 <= i < |h| ==> 1 <= h[i].roundNumber <= roundIndex + 1 && h[i].id.n == h[i].roundNumber)
    && (forall i, j :: 0 <= i < j < |h| ==> h[i].roundNumber < h[j].roundNumber)
  }

  /** The current round already has its history entry. */
  predicate ResolvedCurrent(st: RoomState) {
    |st.roundHistory| > 0 && st.roundHistory[|st.roundHistory| - 1].roundNumber == st.roundIndex + 1
  }

  /** The room invariant.  Its heart is the guard of the source:
      `currentSubmission` is set exactly when the current round has been
      resolved (outside a finished game), so a round resolves once. */
  predicate Valid(st: RoomState) {
    && -1 <= st.roundIndex
    && (st.roundIndex >= 0 ==> st.roundIndex < |st.rounds|)
    && (st.status == Running || st.status == Paused ==> st.roundIndex >= 0)
    && (st.status == Preparing ==> st.roundIndex == -1 && st.roundHistory == [] && st.currentSubmission.None?)
    && DistinctSockets(st.participants)
    && HistoryOrdered(st.roundHistory, st.roundIndex)
    && (st.currentSubmission.Some? ==> ResolvedCurrent(st) && (st.status == Running || st.status == Paused))
    && (st.status != Finished && ResolvedCurrent(st) ==> st.currentSubmission.Some?)
    && (st.transitionDueAt.Some? ==> st.currentSubmission.Some?)
  }

  // ---------------------------------------------------------------- lookups

  /** `getCurrentRound`. */
  function CurrentRound(st: RoomState): (r: Option<Round>)
    ensures r.Some? <==> 0 <= st.roundIndex < |st.rounds|
  {
    if st.roundIndex < 0 || st.roundIndex >= |st.rounds| then None else Some(st.rounds[st.roundIndex])
  }

  /** Two states that agree on the plan, the current round and the question lists. */
  predicate SameQuestions(a: RoomState, b: RoomState) {
    a.rounds == b.rounds && a.roundIndex == b.roundIndex && a.questionBank == b.questionBank
    && a.questionSetA == b.questionSetA && a.questionSetB == b.questionSetB
  }

  /** `getQuestionForRound`: the bank in free-for-all, the team's set otherwise. */
  function QuestionFor(c: Settings, st: RoomState, round: Option<Round>): Option<Question> {
    if round.None? then None
    else
      var list := if FormatOf(c) == Ffa then st.questionBank
                  else if round.value.team == A then st.questionSetA else st.questionSetB;
      if round.value.questionIndex < |list| then Some(list[round.value.questionIndex]) else None
  }

  function HostParticipant(c: Settings, socketId: string, now: int): Participant {
    Participant(socketId, "host", c.hostName, HostRole, now, "", true)
  }

  function TeamName(t: Team): string {
    if t == A then "A" else "B"
  }

  /** `Команда <team>`, the name a team's pass is recorded under. */
  function TeamLabel(t: Team): string {
    "Команда " + TeamName(t)
  }

  /** `Команда <team> (большинство <best>/<voted>)`, the name a team's
      answer is recorded under. */
  function MajorityLabel(t: Team, best: nat, voted: nat): string {
    TeamLabel(t) + " (большинство " + Decimal(best) + "/" + Decimal(voted) + ")"
  }

  /** `clamp(now − roundStartedAt, 0, duration)`. */
  function ElapsedMs(c: Settings, st: RoomState, now: int): int {
    Clamp(now - st.roundStartedAt, 0, DurationMs(c))
  }

  /** `score.base + score.bonus` for a correct answer. */
  function Points(c: Settings, elapsedMs: int, q: Question): nat {
    var s := ScoreForAnswer(c.speedBonusEnabled, c.expert && q.difficulty == Hard,
                            Config(c.gameMode).bonusCorrect, elapsedMs, DurationMs(c));
    s.base + s.bonus
  }

  /** The team's voters that have voted, with their votes. */
  function Entries(st: RoomState, team: Team): (es: seq<Entry>)
    ensures AllMembers(es)
  {
    var votes := if st.voteState.Some? && st.voteState.value.team == team then st.voteState.value.votes else map[];
    var es := VoteEntries(TeamVoters(st.participants, team), votes);
    assert forall i :: 0 <= i < |es| ==> es[i] in es;
    es
  }

  // ---------------------------------------------------------------- starting and finishing rounds

  /** `startCurrentRoundIfReady`: a round whose question exists starts now. */
  function StartRound(c: Settings, st: RoomState, now: int): (r: (RoomState, bool))
    ensures r.1 <==> QuestionFor(c, st, CurrentRound(st)).Some?
    ensures !r.1 ==> r.0 == st
    ensures SameQuestions(st, r.0) && r.0.roundHistory == st.roundHistory && r.0.transitionDueAt == st.transitionDueAt
  {
    var round := CurrentRound(st);
    if round.None? || QuestionFor(c, st, round).None? then (st, false)
    else
      (st.(currentSubmission := None,
           voteState := if FormatOf(c) == Teams then Some(VoteState(round.value.team, map[])) else None,
           roundStartedAt := now,
           roundDeadlineAt := now + DurationMs(c),
           pausedRemainingMs := None,
           status := Running), true)
  }

  /** `finishGame` (persisting the result aside). */
  function FinishGame(st: RoomState, now: int): RoomState {
    st.(status := Finished, finishedAt := Some(now), roundDeadlineAt := 0, roundStartedAt := 0,
        currentSubmission := None, pausedRemainingMs := None)
  }

  /** The next round becomes current, not yet started. */
  function NextRound(st: RoomState): RoomState {
    st.(roundIndex := st.roundIndex + 1, currentSubmission := None, roundStartedAt := 0,
        roundDeadlineAt := 0, pausedRemainingMs := None, status := Running)
  }

  /** A round without its question waits, paused with a full round left. */
  function ParkRound(c: Settings, st: RoomState): RoomState {
    st.(status := Paused, pausedRemainingMs := Some(DurationMs(c)))
  }

  /** `advanceRound`: past the last round the game finishes; otherwise the
      next round starts, or the room is paused with a full round left when
      its question is missing. */
  function Advance(c: Settings, st: RoomState, now: int): (r: RoomState)
    ensures r.status == Finished || r.status == Running || r.status == Paused
    ensures r.rounds == st.rounds && r.questionBank == st.questionBank
            && r.questionSetA == st.questionSetA && r.questionSetB == st.questionSetB
    ensures r.transitionDueAt.None? && r.registered == st.registered && r.participants == st.participants
    ensures r.roundHistory == st.roundHistory && r.slots == st.slots && r.hostSocketId == st.hostSocketId
  {
    var st0 := st.(transitionDueAt := None);
    if st0.roundIndex + 1 >= |st0.rounds| then FinishGame(st0, now)
    else
      var st1 := NextRound(st0);
      if CurrentRound(st1).None? then FinishGame(st1, now)
      else
        var started := StartRound(c, st1, now);
        if started.1 then started.0 else ParkRound(c, st1)
  }

  // ---------------------------------------------------------------- resolution

  /** The question statistic, team metric and penalty of a resolution, by
      the branches of `resolveRound`: no submission is a timeout; then a
      correct one; then a pass; then a host skip; anything else is wrong. */
  function Outcome(sub: Option<Submission>): (Mark, Option<Penalty>) {
    if sub.None? then (TimeoutMark, Some(TimeoutPenalty))
    else if sub.value.correct then (CorrectMark, None)
    else if sub.value.kind == Pass then (WrongMark, Some(PassPenalty))
    else if sub.value.kind == Skip then (TimeoutMark, Some(SkipPenalty))
    else (WrongMark, None)
  }

  /** `markQuestionStat`. */
  function MarkQuestion(stats: map<string, QuestionStat>, q: Option<Question>, team: Team, m: Mark): map<string, QuestionStat> {
    if q.None? then stats
    else
      var b := if q.value.id in stats then stats[q.value.id] else QuestionStat(team, q.value.prompt, 0, 0, 0);
      stats[q.value.id := match m
        case CorrectMark => b.(correct := b.correct + 1)
        case WrongMark => b.(wrong := b.wrong + 1)
        case TimeoutMark => b.(timeouts := b.timeouts + 1)]
  }

  /** The team metric a penalty adds to: a timeout counts a timeout, a pass
      a skip, a host skip both. */
  function MetricsAfter(m: TeamMetrics, k: Penalty): TeamMetrics {
    TeamMetrics(m.timeouts + (if k == PassPenalty then 0 else 1), m.skips + (if k == TimeoutPenalty then 0 else 1))
  }

  /** `applyRoundPenaltyStats`: the round's player in free-for-all (when it
      has a record), every member of the round's team otherwise. */
  function RoundPenalty(c: Settings, st: RoomState, round: Round, k: Penalty, now: int): map<string, Stat> {
    if FormatOf(c) == Ffa then
      if round.player.Some? && round.player.value in st.playerStats then
        var id := round.player.value;
        st.playerStats[id := st.playerStats[id].(counts := Penalized(st.playerStats[id].counts, k))]
      else st.playerStats
    else TeamPenalty(st.playerStats, st.participants, round.team, k, now)
  }

  /** The round's player, when it has a non-empty id (`round.playerId || null`). */
  function Actor(round: Round): Option<string> {
    if round.player.Some? && round.player.value != "" then round.player else None
  }

  /** `resetRoundActorStreak`. */
  function ResetActorStreak(c: Settings, streaks: map<string, int>, round: Round): map<string, int> {
    if FormatOf(c) == Ffa && Actor(round).Some? then streaks[Actor(round).value := 0] else streaks
  }

  /** The history id of the current round. */
  function HistoryIdOf(c: Settings, roundNumber: nat, round: Round): HistoryId {
    if FormatOf(c) == Ffa then PlayerRoundId(roundNumber, if Actor(round).Some? then Actor(round).value else "unknown")
    else TeamRoundId(roundNumber, round.team)
  }

  /** The first history entry with the id (`findIndex`). */
  function FindHistory(h: seq<HistoryEntry>, id: HistoryId): (r: Option<nat>)
    ensures r.Some? ==> r.value < |h| && h[r.value].id == id
    ensures r.None? <==> forall i :: 0 <= i < |h| ==> h[i].id != id
  {
    if h == [] then None
    else if h[0].id == id then Some(0)
    else
      var r := FindHistory(h[1..], id);
      assert forall i :: 1 <= i < |h| ==> h[i] == h[1..][i - 1];
      if r.None? then None else Some(r.value + 1)
  }

  /** Replace the entry with the same id, or append. */
  function Upsert(h: seq<HistoryEntry>, e: HistoryEntry): seq<HistoryEntry> {
    var i := FindHistory(h, e.id);
    if i.Some? then h[i.value := e] else h + [e]
  }

  /** The timeout submission of a round nobody answered. */
  function TimeoutSubmission(c: Settings, q: Option<Question>): Submission {
    Submission(Timeout, "Нет ответа", None, false, 0, DurationMs(c), if q.Some? then Some(q.value.correctIndex) else None)
  }

  /** `resolveRound`: records the final submission (a timeout when there is
      none), counts the question statistic, team metric and penalties,
      closes the vote, resets the free-for-all streak unless the answer was
      right, upserts the history entry and schedules the advance. */
  function Resolved(c: Settings, st: RoomState, sub: Option<Submission>, now: int): (r: RoomState)
    ensures CurrentRound(st).None? ==> r == st
    ensures CurrentRound(st).Some? ==> r.currentSubmission.Some? && r.voteState.None? && r.transitionDueAt.Some?
    ensures sub.Some? && CurrentRound(st).Some? ==> r.currentSubmission == sub
    ensures r.participants == st.participants && r.rounds == st.rounds && r.roundIndex == st.roundIndex
    ensures r.status == st.status && r.registered == st.registered && r.scores == st.scores
    ensures r.playerScores == st.playerScores && r.slots == st.slots && r.hostSocketId == st.hostSocketId
  {
    var round := CurrentRound(st);
    if round.None? then st
    else
      var q := QuestionFor(c, st, round);
      var final := if sub.Some? then sub.value else TimeoutSubmission(c, q);
      Recorded(c, Charged(c, st, round.value, q, Outcome(sub), now), round.value, q, final, now)
  }

  /** The counting half of a resolution: the question statistic, the team
      metric and the penalties of the outcome. */
  function Charged(c: Settings, st: RoomState, r: Round, q: Option<Question>, outcome: (Mark, Option<Penalty>), now: int): (x: RoomState)
    ensures x == st.(questionStats := x.questionStats, teamMetrics := x.teamMetrics, playerStats := x.playerStats)
  {
    st.(questionStats := MarkQuestion(st.questionStats, q, r.team, outcome.0),
        teamMetrics := if outcome.1.Some? && FormatOf(c) == Teams
                       then st.teamMetrics.With(r.team, MetricsAfter(st.teamMetrics.At(r.team), outcome.1.value))
                       else st.teamMetrics,
        playerStats := if outcome.1.Some? then RoundPenalty(c, st, r, outcome.1.value, now) else st.playerStats)
  }

  /** The history entry of the current round. */
  function EntryFor(c: Settings, st: RoomState, r: Round, q: Option<Question>, final: Submission): (e: HistoryEntry)
    requires st.roundIndex >= 0
    ensures e.roundNumber == st.roundIndex + 1 && e.id.n == e.roundNumber && e.submission == final
  {
    HistoryEntry(HistoryIdOf(c, st.roundIndex + 1, r), st.roundIndex + 1, |st.rounds|, r.team,
                 if FormatOf(c) == Ffa then Actor(r) else None,
                 if q.Some? then q.value.id else "", if q.Some? then q.value.correctIndex else 0, final)
  }

  /** The recording half of a resolution: the final submission, the vote
      closed, the clock stopped, the streak, the history entry and the
      review timer. */
  function Recorded(c: Settings, st: RoomState, r: Round, q: Option<Question>, final: Submission, now: int): (x: RoomState)
    requires st.roundIndex >= 0
    ensures x == st.(currentSubmission := Some(final), voteState := None, roundDeadlineAt := 0,
                     playerStreaks := x.playerStreaks, roundHistory := Upsert(st.roundHistory, EntryFor(c, st, r, q, final)),
                     transitionDueAt := x.transitionDueAt)
    ensures x.transitionDueAt.Some?
  {
    st.(currentSubmission := Some(final),
        voteState := None,
        roundDeadlineAt := 0,
        playerStreaks := if final.kind == Answer && final.correct then st.playerStreaks
                         else ResetActorStreak(c, st.playerStreaks, r),
        roundHistory := Upsert(st.roundHistory, EntryFor(c, st, r, q, final)),
        transitionDueAt := Some(now + ReviewDelayMs(c.reviewTiming,
                                                    if q.Some? then |q.value.prompt| else 0,
                                                    if q.Some? then |q.value.explanation| else 0,
                                                    final.kind, final.correct)))
  }

  // ---------------------------------------------------------------- team votes

  /** What a non-empty set of team votes decides: the votes credited to
      their voters (and the team's points added), with the submission the
      round then resolves with.  Nothing else changes. */
  function VoteOutcome(c: Settings, st: RoomState, team: Team, q: Question, es: seq<Entry>, now: int): (r: (RoomState, Submission))
    requires AllMembers(es) && es != []
    ensures r.0 == st.(scores := r.0.scores, playerStats := r.0.playerStats)
  {
    var ov := Counts(es);
    var elapsed := ElapsedMs(c, st, now);
    var ci := q.correctIndex;
    match Decide(ov, CountPass(es), es)
    case PassDecision =>
      (st.(playerStats := CreditVotes(st.playerStats, es, ci, None, 0, now)),
       Submission(Pass, TeamLabel(team), None, false, 0, elapsed, Some(ci)))
    case AnswerDecision(k) =>
      var correct := k == ci;
      var points := if correct then Points(c, elapsed, q) else 0;
      var byName := MajorityLabel(team, Best(ov), |es|);
      (st.(scores := st.scores.With(team, st.scores.At(team) + points),
           playerStats := CreditVotes(st.playerStats, es, ci, if correct then Some(k) else None, points, now)),
       Submission(Answer, byName, Some(k), correct, points, elapsed, Some(ci)))
  }

  /** The guards of `finalizeTeamRoundFromVotes`: an unresolved team
      round with its question and its team's vote state, and at least one
      vote unless the reason is `timeout`. */
  predicate Finalizable(c: Settings, st: RoomState, timeout: bool) {
    var round := CurrentRound(st);
    && FormatOf(c) == Teams && st.currentSubmission.None? && round.Some?
    && QuestionFor(c, st, round).Some?
    && st.voteState.Some? && st.voteState.value.team == round.value.team
    && (timeout || Entries(st, round.value.team) != [])
  }

  /** The state and submission a finalisation resolves with: a timeout
      when nobody voted, otherwise the votes' outcome. */
  function Decided(c: Settings, st: RoomState, timeout: bool, now: int): (r: (RoomState, Option<Submission>))
    requires Finalizable(c, st, timeout)
    ensures r.0 == st.(scores := r.0.scores, playerStats := r.0.playerStats)
  {
    var round := CurrentRound(st);
    var es := Entries(st, round.value.team);
    if es == [] then (st, None)
    else
      var o := VoteOutcome(c, st, round.value.team, QuestionFor(c, st, round).value, es, now);
      (o.0, Some(o.1))
  }

  /** `finalizeTeamRoundFromVotes`; `timeout` is the reason. */
  function FinalizeVotes(c: Settings, st: RoomState, timeout: bool, now: int): (r: (RoomState, bool))
    ensures r.1 <==> Finalizable(c, st, timeout)
    ensures !r.1 ==> r.0 == st
    ensures r.1 ==> r.0.currentSubmission.Some? && r.0.voteState.None? && r.0.transitionDueAt.Some?
    ensures r.0.participants == st.participants && r.0.status == st.status && r.0.registered == st.registered
    ensures r.0.slots == st.slots && r.0.playerScores == st.playerScores
  {
    if !Finalizable(c, st, timeout) then (st, false)
    else
      var d := Decided(c, st, timeout, now);
      (Resolved(c, d.0, d.1, now), true)
  }

  /** The guards of `finalizeTeamRoundIfReady`: an unresolved team round
      whose vote snapshot is ready for the reason given. */
  predicate ReadyToResolve(c: Settings, st: RoomState, timeout: bool) {
    var round := CurrentRound(st);
    && FormatOf(c) == Teams && st.currentSubmission.None? && round.Some?
    && var es := Entries(st, round.value.team);
       ReadyToFinalize(Snapshot(|TeamVoters(st.participants, round.value.team)|, |es|, Counts(es), CountPass(es)), timeout)
  }

  /** `finalizeTeamRoundIfReady`: finalises only a fully voted non-empty
      team (`all-voted`) or one with at least one vote (`timeout`). */
  function FinalizeIfReady(c: Settings, st: RoomState, timeout: bool, now: int): (r: (RoomState, bool))
    ensures r.1 ==> ReadyToResolve(c, st, timeout) && Finalizable(c, st, timeout)
    ensures !r.1 ==> r.0 == st
    ensures r.1 ==> r.0.currentSubmission.Some? && r.0.voteState.None?
    ensures r.0.participants == st.participants && r.0.status == st.status && r.0.registered == st.registered
    ensures r.0.slots == st.slots && r.0.playerScores == st.playerScores
  {
    if ReadyToResolve(c, st, timeout) then FinalizeVotes(c, st, timeout, now) else (st, false)
  }

  // ---------------------------------------------------------------- host actions

  /** The host's participant record, looked up by socket. */
  predicate IsHostSocket(st: RoomState, socketId: string) {
    var i := FindSocket(st.participants, socketId);
    i.Some? && st.participants[i.value].role.HostRole?
  }

  /** `skipRoundByHost`: only during a game, before the round is resolved,
      and with its question at hand; the room runs again and the round
      resolves as the host's skip. */
  function SkipByHost(c: Settings, st: RoomState, hostName: string, now: int): (r: (RoomState, Reply))
    ensures r.1 == Ok || r.1.Err?
    ensures r.1.Err? ==> r.0 == st
    ensures r.1 == Ok <==> (st.status == Running || st.status == Paused) && st.currentSubmission.None?
                           && QuestionFor(c, st, CurrentRound(st)).Some?
    ensures r.1 == Ok ==> r.0.status == Running && r.0.currentSubmission.Some?
                          && r.0.currentSubmission.value.kind == Skip && r.0.currentSubmission.value.byName == hostName
  {
    if st.status != Running && st.status != Paused then (st, Err(SkipOnlyInGame))
    else if st.currentSubmission.Some? then (st, Err(AlreadyResolved))
    else
      var q := QuestionFor(c, st, CurrentRound(st));
      if q.None? then (st, Err(RoundUnavailable))
      else
        var sub := Submission(Skip, hostName, None, false, 0, ElapsedMs(c, st, now), Some(q.value.correctIndex));
        (Resolved(c, st.(status := Running), Some(sub), now), Ok)
  }

  /** `host:skipRound` (and `host:nextRound`, which does the same). */
  function SkipRound(c: Settings, st: RoomState, socketId: string, now: int): (r: (RoomState, Reply))
    ensures r.1 == Ok || r.1.Err?
    ensures r.1.Err? ==> r.0 == st
    ensures !st.registered ==> r.1 == Err(RoomNotFound)
    ensures st.registered && !IsHostSocket(st, socketId) ==> r.1 == Err(NotAuthorized)
    ensures r.1 == Ok ==> st.registered && IsHostSocket(st, socketId) && r.0.status == Running
                          && r.0.currentSubmission.Some? && r.0.currentSubmission.value.kind == Skip
  {
    if !st.registered then (st, Err(RoomNotFound))
    else if !IsHostSocket(st, socketId) then (st, Err(NotAuthorized))
    else SkipByHost(c, st, st.participants[FindSocket(st.participants, socketId).value].name, now)
  }

  /** `host:togglePause`: pausing keeps the time left, resuming restarts
      the clock with it (or with a full round when none was kept). */
  function TogglePause(c: Settings, st: RoomState, socketId: string, now: int): (r: (RoomState, Reply))
    ensures r.1 == Ok || r.1.Err?
    ensures r.1.Err? ==> r.0 == st
    ensures r.1 == Ok <==> st.registered && IsHostSocket(st, socketId)
                           && (st.status == Running || (st.status == Paused && QuestionFor(c, st, CurrentRound(st)).Some?))
    ensures r.1 == Ok && st.status == Running ==>
              r.0 == st.(status := Paused, pausedRemainingMs := Some(Max(0, st.roundDeadlineAt - now)))
    ensures r.1 == Ok && st.status == Paused ==>
              r.0 == st.(status := Running, roundDeadlineAt := r.0.roundDeadlineAt)
              && r.0.roundDeadlineAt == now + (if st.pausedRemainingMs.None? || st.pausedRemainingMs.value == 0
                                               then DurationMs(c) else st.pausedRemainingMs.value)
  {
    if !st.registered then (st, Err(RoomNotFound))
    else if !IsHostSocket(st, socketId) then (st, Err(NotAuthorized))
    else if st.status == Running then
      (st.(pausedRemainingMs := Some(Max(0, st.roundDeadlineAt - now)), status := Paused), Ok)
    else if st.status == Paused then
      if QuestionFor(c, st, CurrentRound(st)).None? then (st, Err(QuestionMissing))
      else
        var left := if st.pausedRemainingMs.None? || st.pausedRemainingMs.value == 0 then DurationMs(c) else st.pausedRemainingMs.value;
        (st.(status := Running, roundDeadlineAt := now + left), Ok)
    else (st, Err(PauseOnlyInGame))
  }

  // ---------------------------------------------------------------- answers

  /** The credit half of a free-for-all answer or pass: the player's
      statistic, score and streak, and the submission the round resolves
      with.  Nothing else changes. */
  function FfaCredited(c: Settings, st: RoomState, me: Participant, round: Round, q: Question,
                       wantsPass: bool, k: int, now: int): (r: (RoomState, Submission))
    requires me.role.Member?
    ensures r.0 == st.(playerStats := r.0.playerStats, playerScores := r.0.playerScores, playerStreaks := r.0.playerStreaks)
    ensures r.1.kind == (if wantsPass then Pass else Answer) && r.1.byName == me.name
    ensures r.1.correct <==> !wantsPass && k == q.correctIndex
    ensures !r.1.correct ==> r.1.points == 0 && r.0.playerScores == st.playerScores
  {
    if wantsPass then FfaPassed(c, st, me, q, now) else FfaAnswered(c, st, me, round, q, k, now)
  }

  /** A free-for-all pass: the player's skip is counted. */
  function FfaPassed(c: Settings, st: RoomState, me: Participant, q: Question, now: int): (RoomState, Submission)
    requires me.role.Member?
  {
    var s := EnsureStat(st.playerStats, me, now);
    var cs := s[me.id].counts;
    (st.(playerStats := s[me.id := s[me.id].(counts := cs.(skips := cs.skips + 1))]),
     Submission(Pass, me.name, None, false, 0, ElapsedMs(c, st, now), Some(q.correctIndex)))
  }

  /** The points and streaks of a free-for-all answer: a right one earns
      the score and, when the mode has one, the streak bonus, which moves
      the player's streak on; a wrong one earns nothing and resets the
      round's streak. */
  function AnswerScore(c: Settings, st: RoomState, me: Participant, round: Round, q: Question, k: int, elapsed: int): (nat, map<string, int>) {
    if k != q.correctIndex then (0, ResetActorStreak(c, st.playerStreaks, round))
    else if Config(c.gameMode).streakBonus && me.id != "" then
      var bonus := StreakBonus(if me.id in st.playerStreaks then st.playerStreaks[me.id] else 0);
      (Points(c, elapsed, q) + bonus.1, st.playerStreaks[me.id := bonus.0])
    else (Points(c, elapsed, q), st.playerStreaks)
  }

  /** A free-for-all answer: its points and streak, the player's score
      when right, and the answer counted in the statistic. */
  function FfaAnswered(c: Settings, st: RoomState, me: Participant, round: Round, q: Question, k: int, now: int): (RoomState, Submission)
    requires me.role.Member?
  {
    var elapsed := ElapsedMs(c, st, now);
    var correct := k == q.correctIndex;
    var (points, streaks) := AnswerScore(c, st, me, round, q, k, elapsed);
    var scores := if correct then st.playerScores[me.id := (if me.id in st.playerScores then st.playerScores[me.id] else 0) + points]
                  else st.playerScores;
    var s := EnsureStat(st.playerStats, me, now);
    var cs := s[me.id].counts;
    var stats := s[me.id := s[me.id].(counts := cs.(answers := cs.answers + 1,
                                                    correct := cs.correct + (if correct then 1 else 0),
                                                    wrong := cs.wrong + (if correct then 0 else 1),
                                                    points := cs.points + points))];
    (st.(playerStreaks := streaks, playerScores := scores, playerStats := stats),
     Submission(Answer, me.name, Some(k), correct, points, elapsed, Some(q.correctIndex)))
  }

  /** A free-for-all answer or pass of the round's player: credited, then
      the round resolves with it. */
  function SubmitFfa(c: Settings, st: RoomState, me: Participant, round: Round, q: Question,
                     wantsPass: bool, k: int, now: int): (r: RoomState)
    requires me.role.Member?
    ensures CurrentRound(st).Some? ==>
              && r.currentSubmission.Some? && r.currentSubmission.value.byName == me.name
              && r.currentSubmission.value.kind == (if wantsPass then Pass else Answer)
              && (r.currentSubmission.value.correct <==> !wantsPass && k == q.correctIndex)
    ensures r.participants == st.participants && r.status == st.status && r.registered == st.registered
    ensures r.scores == st.scores && r.slots == st.slots
  {
    var o := FfaCredited(c, st, me, round, q, wantsPass, k, now);
    Resolved(c, o.0, Some(o.1), now)
  }

  /** A team member's vote: recorded under the player's id in the round's
      vote state (a fresh one when it belongs to another team), after which
      the round finalises when the whole team has voted. */
  function SubmitVote(c: Settings, st: RoomState, me: Participant, team: Team, answer: Option<int>, now: int): (r: (RoomState, Reply))
    ensures r.1 == Ok || r.1 == Err(AlreadyVoted)
    ensures r.1.Err? ==> r.0 == st
    ensures r.1.Err? <==> st.voteState.Some? && st.voteState.value.team == team && me.id in st.voteState.value.votes
    ensures r.1 == Ok ==> r.0.currentSubmission.Some? || (r.0.voteState.Some? && me.id in r.0.voteState.value.votes)
    ensures r.0.participants == st.participants && r.0.status == st.status && r.0.registered == st.registered
  {
    var vs := if st.voteState.Some? && st.voteState.value.team == team then st.voteState.value else VoteState(team, map[]);
    if me.id in vs.votes then (st, Err(AlreadyVoted))
    else
      var st1 := st.(voteState := Some(vs.(votes := vs.votes[me.id := Vote(answer, now, me.name)])));
      FinalizeIfReadyResolves(c, st1, false, now);
      (FinalizeIfReady(c, st1, false, now).0, Ok)
  }

  /** `round:submitAnswer`.  `answer` is the payload's index when it is an
      integer; a pass is the `pass` flag or the index -1. */
  function SubmitAnswer(c: Settings, st: RoomState, socketId: string, pass: bool, answer: Option<int>, now: int): (r: (RoomState, Reply))
    ensures r.1 == Ok || r.1.Err?
    ensures r.1.Err? ==> r.0 == st
    ensures r.1 == Ok ==> st.registered && st.status == Running && st.currentSubmission.None?
                          && QuestionFor(c, st, CurrentRound(st)).Some?
    ensures var i := FindSocket(st.participants, socketId);
            var round := CurrentRound(st);
            var wantsPass := pass || answer == Some(-1);
            (&& st.registered && st.status == Running && st.currentSubmission.None?
             && i.Some? && st.participants[i.value].role.Member?
             && round.Some? && QuestionFor(c, st, round).Some?
             && var me := st.participants[i.value];
                && (FormatOf(c) == Teams ==>
                      && InTeam(me, round.value.team)
                      && !(st.voteState.Some? && st.voteState.value.team == round.value.team && me.id in st.voteState.value.votes))
                && (FormatOf(c) == Ffa ==> round.value.player == Some(me.id))
                && (wantsPass ==> Config(c.gameMode).passEnabled)
                && (!wantsPass ==> answer.Some? && 0 <= answer.value <= 3))
            ==> r.1 == Ok
    ensures r.0.participants == st.participants && r.0.status == st.status && r.0.registered == st.registered
  {
    if !st.registered || st.status != Running then (st, Err(NotAccepting))
    else
      var i := FindSocket(st.participants, socketId);
      if i.None? || st.participants[i.value].role.HostRole? then (st, Err(OnlyPlayers))
      else
        var me := st.participants[i.value];
        var round := CurrentRound(st);
        var q := QuestionFor(c, st, round);
        var wantsPass := pass || answer == Some(-1);
        if q.None? then (st, Err(RoundUnavailable))
        else if st.currentSubmission.Some? then (st, Err(AlreadyAnswered))
        else if FormatOf(c) == Teams && !InTeam(me, round.value.team) then (st, Err(OtherTeamsTurn))
        else if FormatOf(c) == Ffa && round.value.player != Some(me.id) then (st, Err(OtherPlayersTurn))
        else if wantsPass && !Config(c.gameMode).passEnabled then (st, Err(PassDisabled))
        else if !wantsPass && (answer.None? || answer.value < 0 || answer.value > 3) then (st, Err(ChooseOption))
        else if FormatOf(c) == Teams then SubmitVote(c, st, me, round.value.team, if wantsPass then None else answer, now)
        else (SubmitFfa(c, st, me, round.value, q.value, wantsPass, if wantsPass then 0 else answer.value, now), Ok)
  }

  // ---------------------------------------------------------------- timers

  /** A running room whose unresolved round is past its deadline. */
  predicate Due(st: RoomState, now: int) {
    st.registered && st.status == Running && st.currentSubmission.None? && st.roundDeadlineAt > 0 && now >= st.roundDeadlineAt
  }

  /** The one-second tick for one room of the registry: a running round
      past its deadline is finalised from the votes or resolved as a
      timeout. */
  function Tick(c: Settings, st: RoomState, now: int): (r: RoomState)
    ensures !Due(st, now) ==> r == st
    ensures Due(st, now) && CurrentRound(st).Some? ==> r.currentSubmission.Some?
    ensures r.participants == st.participants && r.status == st.status && r.registered == st.registered
  {
    if !st.registered || st.status != Running || CurrentRound(st).None? then st
    else if st.currentSubmission.None? && st.roundDeadlineAt > 0 && now >= st.roundDeadlineAt then
      var fin := if FormatOf(c) == Teams then FinalizeIfReady(c, st, true, now) else (st, false);
      if fin.1 then fin.0 else Resolved(c, st, None, now)
    else st
  }

  /** The review timer set by a resolution fires and advances the game. */
  function FireTransition(c: Settings, st: RoomState, now: int): (r: RoomState)
    ensures st.transitionDueAt.None? || now < st.transitionDueAt.value ==> r == st
    ensures st.transitionDueAt.Some? && now >= st.transitionDueAt.value ==>
              r.transitionDueAt.None? && (r.status == Finished || r.status == Running || r.status == Paused)
    ensures r.registered == st.registered && r.participants == st.participants
  {
    if st.transitionDueAt.Some? && now >= st.transitionDueAt.value then Advance(c, st, now) else st
  }

  /** `closeRoom`: timers cleared, every player marked disconnected, the
      room removed from the registry. */
  function CloseRoom(st: RoomState, now: int): (r: RoomState)
    ensures !r.registered && r.slots == map[] && r.transitionDueAt.None? && r.hostReconnectDeadlineAt == 0
    ensures r.participants == st.participants && r.status == st.status && r.roundHistory == st.roundHistory
    ensures r.scores == st.scores && r.playerScores == st.playerScores
  {
    st.(hostReconnectDeadlineAt := 0, slots := map[], transitionDueAt := None,
        playerStats := DisconnectAll(st.playerStats, st.participants, now), registered := false)
  }

  /** The host grace timer fires and closes the room. */
  function ExpireHostGrace(st: RoomState, now: int): (r: RoomState)
    ensures st.registered && st.hostReconnectDeadlineAt > 0 && now >= st.hostReconnectDeadlineAt ==>
              !r.registered && r.slots == map[]
    ensures !(st.registered && st.hostReconnectDeadlineAt > 0 && now >= st.hostReconnectDeadlineAt) ==> r == st
  {
    if st.registered && st.hostReconnectDeadlineAt > 0 && now >= st.hostReconnectDeadlineAt then CloseRoom(st, now) else st
  }

  /** A player's rejoin window closes. */
  function ExpirePlayerSlot(st: RoomState, key: string, now: int): (r: RoomState)
    ensures r == st.(slots := r.slots)
    ensures key in st.slots && now >= st.slots[key].deadlineAt ==> key !in r.slots
    ensures !(key in st.slots && now >= st.slots[key].deadlineAt) ==> r == st
    ensures forall k :: k in r.slots ==> k in st.slots && r.slots[k] == st.slots[k]
    ensures forall k :: k in st.slots && k != key ==> k in r.slots
  {
    if key in st.slots && now >= st.slots[key].deadlineAt then st.(slots := st.slots - {key}) else st
  }

  /** The host grace timer is a fixed 90 s, a player's window 60 s. */
  const HostGraceMs := 90000
  const PlayerGraceMs := 60000

  /** `startHostReconnectGrace`: the host is gone; a running game pauses
      with the time left kept. */
  function StartHostGrace(st: RoomState, now: int): (r: RoomState)
    ensures r == st.(hostReconnectDeadlineAt := now + HostGraceMs, hostSocketId := None,
                     status := r.status, pausedRemainingMs := r.pausedRemainingMs)
    ensures r.status == (if st.status == Running then Paused else st.status)
    ensures st.status == Running ==> r.pausedRemainingMs == Some(Max(0, st.roundDeadlineAt - now))
  {
    var st1 := st.(hostReconnectDeadlineAt := now + HostGraceMs, hostSocketId := None);
    if st1.status == Running then st1.(pausedRemainingMs := Some(Max(0, st1.roundDeadlineAt - now)), status := Paused)
    else st1
  }

  /** `startPlayerReconnectGrace`: a player with a rejoin key gets a slot
      holding its record, without a socket, until the window closes. */
  function StartPlayerGrace(st: RoomState, p: Participant, now: int): (r: RoomState)
    ensures r == st.(slots := r.slots)
    ensures p.playerKey == "" ==> r.slots == st.slots
    ensures p.playerKey != "" ==> r.slots == st.slots[p.playerKey := Slot(p.(socketId := ""), now + PlayerGraceMs)]
  {
    if p.playerKey == "" then st
    else st.(slots := st.slots[p.playerKey := Slot(p.(socketId := ""), now + PlayerGraceMs)])
  }

  // ---------------------------------------------------------------- leaving

  /** What every way of leaving does first: the socket's entry goes, the
      player is marked disconnected and loses its free-for-all score. */
  function Depart(st: RoomState, socketId: string, now: int): (r: RoomState)
    ensures SameProgress(st, r) && r.participants == DeleteSocket(st.participants, socketId)
    ensures r.registered == st.registered && r.slots == st.slots
  {
    var i := FindSocket(st.participants, socketId);
    var ps := DeleteSocket(st.participants, socketId);
    if i.None? then st.(participants := ps)
    else
      var p := st.participants[i.value];
      st.(participants := ps, playerStats := MarkDisconnected(st.playerStats, p, now),
          playerScores := st.playerScores - {p.id})
  }

  /** A kicked player's removal: its entry goes, its statistic is marked
      disqualified and disconnected, its rejoin slot and its free-for-all
      score are dropped.  `playerScores` loses the id whether or not it
      was there. */
  function Disqualify(st: RoomState, p: Participant, now: int): (r: RoomState)
    ensures SameProgress(st, r) && r.participants == DeleteSocket(st.participants, p.socketId)
    ensures r.registered == st.registered && p.id !in r.playerScores
    ensures p.playerKey != "" ==> p.playerKey !in r.slots
  {
    var marked := MarkDisconnected(st.playerStats, p, now);
    var stats := if p.id in marked then marked[p.id := marked[p.id].(disqualified := true, connected := false, leftAt := Some(now))] else marked;
    st.(participants := DeleteSocket(st.participants, p.socketId), playerStats := stats,
        slots := if p.playerKey == "" then st.slots else st.slots - {p.playerKey},
        playerScores := st.playerScores - {p.id})
  }

  /** A departed player's rejoin slot is dropped (leaving on purpose gives
      up the way back). */
  function DropSlot(st: RoomState, key: string): (r: RoomState)
    ensures r == st.(slots := r.slots)
    ensures key != "" ==> key !in r.slots
    ensures forall k :: k != key ==> (k in r.slots <==> k in st.slots)
  {
    if key == "" then st else st.(slots := st.slots - {key})
  }

  /** `rebalanceTeamsIfNeeded` on the room's roster (it acts only in a
      team lobby); the socket keys stay distinct. */
  function Rebalance(c: Settings, st: RoomState): (r: RoomState)
    ensures r == st.(participants := r.participants)
    ensures DistinctSockets(st.participants) ==> DistinctSockets(r.participants)
  {
    var ps := Rebalanced(st.participants, st.status, FormatOf(c), IsDuel(c));
    assert DistinctSockets(st.participants) ==> DistinctSockets(ps) by {
      if DistinctSockets(st.participants) {
        RebalancedDistinct(st.participants, st.status, FormatOf(c), IsDuel(c));
      }
    }
    st.(participants := ps)
  }

  /** After someone leaves a running, unresolved team round the rest of
      the team may all have voted: `finalizeTeamRoundIfReady(all-voted)`. */
  function Settle(c: Settings, st: RoomState, now: int): (r: (RoomState, bool))
    ensures !r.1 ==> r.0 == st
    ensures r.0.participants == st.participants && r.0.registered == st.registered && r.0.slots == st.slots
    ensures r.0.playerScores == st.playerScores
  {
    if FormatOf(c) == Teams && st.status == Running && st.currentSubmission.None? then
      FinalizeIfReadyFrame(c, st, false, now);
      FinalizeIfReadyGate(c, st, false, now);
      FinalizeIfReady(c, st, false, now)
    else (st, false)
  }

  /** `host:kickPlayer`: the first player with the (trimmed) id is removed
      and disqualified. */
  function Kick(c: Settings, st: RoomState, socketId: string, targetId: string, now: int): (r: (RoomState, Reply))
    ensures r.1 == Ok || r.1.Err?
    ensures r.1.Err? ==> r.0 == st
    ensures r.1 == Ok <==> st.registered && IsHostSocket(st, socketId) && Trim(targetId) != "" && Trim(targetId) != "host"
                           && FindPlayerById(st.participants, Trim(targetId)).Some?
    ensures r.1 == Ok ==> r.0.registered && r.0.status == st.status
    ensures st.registered && IsHostSocket(st, socketId) && (Trim(targetId) == "" || Trim(targetId) == "host") ==> r.1 == Err(BadTarget)
  {
    var id := Trim(targetId);
    if !st.registered then (st, Err(RoomNotFound))
    else if !IsHostSocket(st, socketId) then (st, Err(NotAuthorized))
    else if id == "" || id == "host" then (st, Err(BadTarget))
    else
      var j := FindPlayerById(st.participants, id);
      if j.None? then (st, Err(ParticipantNotFound))
      else (Kicked(c, Disqualify(st, st.participants[j.value], now), st.participants[j.value], now), Ok)
  }

  /** The room after kicked player `p` was disqualified: in the lobby teams
      are rebalanced; a running free-for-all round of that player resolves
      as its timeout, a running team round is finalised when the rest of
      the team has voted. */
  function Kicked(c: Settings, st: RoomState, p: Participant, now: int): (r: RoomState)
    ensures r.registered == st.registered && r.slots == st.slots && r.status == st.status
    ensures r.playerScores == st.playerScores
    ensures r.participants == if st.status == Lobby then Rebalance(c, st).participants else st.participants
  {
    var st2 := if st.status == Lobby then Rebalance(c, st) else st;
    var round := CurrentRound(st2);
    if FormatOf(c) == Ffa && st2.status == Running && st2.currentSubmission.None? && round.Some? && round.value.player == Some(p.id) then
      var q := QuestionFor(c, st2, round);
      Resolved(c, st2, Some(Submission(Timeout, p.name, None, false, 0, ElapsedMs(c, st2, now),
                                       if q.Some? then Some(q.value.correctIndex) else None)), now)
    else Settle(c, st2, now).0
  }

  /** An empty room is removed from the registry: one with nobody left,
      and, when `slotsHold`, no rejoin slot open either. */
  function Emptied(st: RoomState, slotsHold: bool): (r: RoomState)
    ensures r == st.(registered := r.registered)
    ensures r.registered <==> st.registered && (|st.participants| > 0 || (slotsHold && st.slots != map[]))
  {
    if |st.participants| == 0 && (!slotsHold || st.slots == map[]) then st.(registered := false) else st
  }

  /** What follows a player's departure from a room that stays: a team
      vote the departure completed is finalised, otherwise an empty room
      is removed. */
  function Remaining(c: Settings, st: RoomState, now: int, slotsHold: bool): (r: RoomState)
    ensures r.slots == st.slots && r.participants == st.participants
    ensures r.registered ==> st.registered
    ensures |st.participants| > 0 || (slotsHold && st.slots != map[]) ==> r.registered == st.registered
  {
    var fin := Settle(c, st, now);
    if fin.1 then fin.0 else Emptied(st, slotsHold)
  }

  /** `player:leaveRoom`: the host leaving closes the room; a player leaving
      gives up its slot, rebalances the lobby and may complete a team
      vote; an empty room is removed. */
  function Leave(c: Settings, st: RoomState, socketId: string, now: int): (r: RoomState)
    ensures !st.registered ==> r == st
    ensures st.registered && IsHostSocket(st, socketId) ==> !r.registered
    ensures var i := FindSocket(st.participants, socketId);
      st.registered && i.Some? && st.participants[i.value].playerKey != "" ==> st.participants[i.value].playerKey !in r.slots
  {
    if !st.registered then st
    else
      var i := FindSocket(st.participants, socketId);
      var st2 := DropSlot(Depart(st, socketId, now), if i.Some? then st.participants[i.value].playerKey else "");
      Left(c, st2, i.Some? && st.participants[i.value].role.HostRole?, now)
  }

  /** The room after a participant left on purpose: closed when it was the
      host, otherwise rebalanced and settled. */
  function Left(c: Settings, st: RoomState, wasHost: bool, now: int): (r: RoomState)
    ensures wasHost ==> !r.registered && r.slots == map[]
    ensures !wasHost ==> r.slots == st.slots && (r.registered ==> st.registered)
  {
    if wasHost then CloseRoom(st, now) else Remaining(c, Rebalance(c, st), now, false)
  }

  /** The socket `disconnect` handler: the host starts its grace period; a
      player in the lobby or after the game just leaves, one during a game
      gets a rejoin slot and may complete a team vote; a room with nobody
      left and no slot is removed. */
  function Disconnect(c: Settings, st: RoomState, socketId: string, now: int): (r: RoomState)
    ensures !st.registered ==> r == st
    ensures st.registered && IsHostSocket(st, socketId) ==>
              && r.registered && r.hostSocketId.None? && r.hostReconnectDeadlineAt == now + HostGraceMs
              && r.status == (if st.status == Running then Paused else st.status)
  {
    if !st.registered then st
    else
      var i := FindSocket(st.participants, socketId);
      var st1 := Depart(st, socketId, now);
      if i.None? then Emptied(st1, true) else Disconnected(c, st1, st.participants[i.value], now)
  }

  /** The room after participant `p` lost its connection and its entry. */
  function Disconnected(c: Settings, st: RoomState, p: Participant, now: int): (r: RoomState)
    ensures p.role.HostRole? ==>
              && r.registered == st.registered && r.hostSocketId.None?
              && r.status == (if st.status == Running then Paused else st.status)
    ensures p.role.Member? && st.status != Lobby && st.status != Finished && p.playerKey != "" ==>
              p.playerKey in r.slots && r.slots[p.playerKey].participant == p.(socketId := "")
              && r.registered == st.registered
  {
    if p.role.HostRole? then StartHostGrace(st, now)
    else if st.status == Lobby || st.status == Finished then Emptied(Rebalance(c, st), false)
    else Remaining(c, StartPlayerGrace(st, p, now), now, true)
  }

  // ---------------------------------------------------------------- joining

  /** `sanitizeName`: whitespace collapsed and trimmed, `Игрок` when empty,
      at most 24 characters. */
  function SanitizeName(raw: string): (r: string)
    ensures 1 <= |r| <= 24
    ensures Squish(raw) == [] ==> r == "Игрок"
    ensures Squish(raw) != [] ==> r <= Squish(raw) && |r| == if |Squish(raw)| <= 24 then |Squish(raw)| else 24
  {
    var safe := Squish(raw);
    if safe == [] then "Игрок" else SliceTo(safe, 24)
  }

  predicate IsKeyChar(ch: char) {
    IsAsciiAlnum(ch) || ch == '_' || ch == '-'
  }

  /** A well-formed rejoin key: 12 to 120 letters, digits, `_` and `-`. */
  predicate RejoinKeyShape(k: string) {
    12 <= |k| <= 120 && forall i :: 0 <= i < |k| ==> IsKeyChar(k[i])
  }

  /** `normalizeRejoinKey`: the trimmed key when it is well formed,
      otherwise empty. */
  function NormalizeRejoinKey(raw: string): (r: string)
    ensures r == [] || RejoinKeyShape(r)
    ensures r != [] <==> RejoinKeyShape(Trim(raw))
    ensures r != [] ==> r == Trim(raw)
  {
    var safe := Trim(raw);
    if RejoinKeyShape(safe) then safe else ""
  }

  /** Another player already has this name, ignoring case. */
  predicate NameTaken(ps: seq<Participant>, name: string) {
    exists i :: 0 <= i < |ps| && ps[i].role.Member? && Lower(ps[i].name) == Lower(name)
  }

  /** A player with a rejoin slot returns: its saved record sits on the
      new socket and the slot is used up. */
  function Restored(st: RoomState, key: string, socketId: string, now: int): (r: RoomState)
    requires key in st.slots && DistinctSockets(st.participants)
    ensures SameProgress(st, r) && r.registered == st.registered && DistinctSockets(r.participants)
    ensures r.slots == st.slots - {key}
    ensures FindSocket(r.participants, socketId).Some?
    ensures r.participants[FindSocket(r.participants, socketId).value] == st.slots[key].participant.(socketId := socketId)
  {
    var p := st.slots[key].participant.(socketId := socketId);
    var stats := if p.role.Member? then EnsureStat(st.playerStats, p, now) else st.playerStats;
    st.(slots := st.slots - {key}, participants := SetParticipant(st.participants, p), playerStats := stats)
  }

  /** A new player enters the lobby on its socket, with its statistic,
      after which teams are rebalanced. */
  function Admitted(c: Settings, st: RoomState, p: Participant, now: int): (r: RoomState)
    requires DistinctSockets(st.participants) && p.role.Member?
    ensures SameProgress(st, r) && r.registered == st.registered && DistinctSockets(r.participants)
    ensures r.slots == st.slots - {p.playerKey}
    ensures r.participants == Rebalanced(SetParticipant(st.participants, p), Lobby, FormatOf(c), IsDuel(c))
  {
    var ps := SetParticipant(st.participants, p);
    RebalancedDistinct(ps, Lobby, FormatOf(c), IsDuel(c));
    st.(slots := st.slots - {p.playerKey}, participants := Rebalanced(ps, Lobby, FormatOf(c), IsDuel(c)),
        playerStats := EnsureStat(st.playerStats, p, now))
  }

  /** `player:joinRoom`.  A key with a rejoin slot restores that player on
      the new socket, at any stage; otherwise only the lobby admits, after
      the password and the duel's two seats, a new player (a taken name
      gets the suffix `-<suffix>`, an absent key the generated one) on the
      team `assignTeam` picks (`coin` is its draw), and teams are
      rebalanced.  `suffix` stands for the random `10..99`. */
  function Join(c: Settings, st: RoomState, socketId: string, rawName: string, rawKey: string, password: string,
                now: int, suffix: nat, generatedKey: string, coin: Team): (r: (RoomState, Reply))
    requires DistinctSockets(st.participants)
    ensures r.1.Err? ==> r.0 == st
    ensures var key := NormalizeRejoinKey(rawKey);
      r.1 == Rejoined <==> st.registered && key != "" && key in st.slots
    ensures r.1 == Rejoined ==> r.0 == Restored(st, NormalizeRejoinKey(rawKey), socketId, now)
    ensures r.1 == Ok ==>
      && st.registered && st.status == Lobby
      && (c.roomPassword == "" || Trim(password) == c.roomPassword)
      && !(IsDuel(c) && PlayerCount(st.participants) >= 2)
      && r.0 == Admitted(c, st, NewPlayer(c, st, socketId, SanitizeName(rawName), NormalizeRejoinKey(rawKey), now, suffix, generatedKey, coin), now)
    ensures var key := NormalizeRejoinKey(rawKey);
      && st.registered && !(key != "" && key in st.slots) && st.status == Lobby
      && (c.roomPassword == "" || Trim(password) == c.roomPassword)
      && !(IsDuel(c) && PlayerCount(st.participants) >= 2)
      ==> r.1 == Ok
  {
    var name := SanitizeName(rawName);
    var key := NormalizeRejoinKey(rawKey);
    if !st.registered then (st, Err(RoomNotFound))
    else if key != "" && key in st.slots then (Restored(st, key, socketId, now), Rejoined)
    else if st.status != Lobby then (st, Err(LobbyOnly))
    else if c.roomPassword != "" && Trim(password) != c.roomPassword then (st, Err(WrongPassword))
    else if IsDuel(c) && PlayerCount(st.participants) >= 2 then (st, Err(DuelFull))
    else
      (Admitted(c, st, NewPlayer(c, st, socketId, name, key, now, suffix, generatedKey, coin), now), Ok)
  }

  /** The record of a newly admitted player: id `p-<socket>`, the name made
      unique with the suffix when taken, the given or generated key, the
      team `assignTeam` picks, not locked. */
  function NewPlayer(c: Settings, st: RoomState, socketId: string, name: string, key: string, now: int,
                     suffix: nat, generatedKey: string, coin: Team): (p: Participant)
    ensures p.socketId == socketId && p.id == "p-" + socketId && p.joinedAt == now && !p.teamLocked
    ensures p.role == Member(AssignTeam(FormatOf(c), IsDuel(c), CountTeam(st.participants, A), CountTeam(st.participants, B), coin))
    ensures NameTaken(st.participants, name) ==> p.name == name + "-" + Decimal(suffix)
    ensures !NameTaken(st.participants, name) ==> p.name == name
    ensures p.playerKey == (if key != "" then key else generatedKey)
  {
    var normalized := if NameTaken(st.participants, name) then name + "-" + Decimal(suffix) else name;
    var team := AssignTeam(FormatOf(c), IsDuel(c), CountTeam(st.participants, A), CountTeam(st.participants, B), coin);
    Participant(socketId, "p-" + socketId, normalized, Member(team), now, if key != "" then key else generatedKey, false)
  }

  /** What `generateHostRejoinKey` makes: 24 random bytes in base64url,
      32 letters, digits, `_` and `-`. */
  predicate HostKeyShape(k: string) {
    |k| == 32 && forall i :: 0 <= i < |k| ==> IsKeyChar(k[i])
  }

  /** `host:rejoinRoom`: with the room's host key (trimmed) and no host
      connected, the host returns on the new socket and the grace timer
      stops.  The game stays paused: resuming is left to the host. */
  function HostRejoin(c: Settings, st: RoomState, socketId: string, hostKey: string, now: int): (r: (RoomState, Reply))
    requires DistinctSockets(st.participants)
    ensures r.1 == Ok || r.1.Err?
    ensures r.1.Err? ==> r.0 == st
    ensures r.1 == Ok <==> st.registered && Trim(hostKey) != "" && Trim(hostKey) == c.hostRejoinKey && st.hostSocketId.None?
    ensures r.1 == Ok ==> r.0.hostSocketId == Some(socketId) && r.0.hostReconnectDeadlineAt == 0
                          && r.0.status == st.status && r.0.pausedRemainingMs == st.pausedRemainingMs
  {
    var key := Trim(hostKey);
    if !st.registered then (st, Err(RoomNotFound))
    else if key == "" || key != c.hostRejoinKey then (st, Err(BadHostKey))
    else if st.hostSocketId.Some? then (st, Err(HostConnected))
    else
      (st.(hostReconnectDeadlineAt := 0, hostSocketId := Some(socketId),
           participants := SetParticipant(st.participants, HostParticipant(c, socketId, now))), Ok)
  }

  /** `player:switchTeam`: in a team lobby a player moves to the other team
      and is locked there; in a duel only to a free seat. */
  function SwitchTeam(c: Settings, st: RoomState, socketId: string, target: Option<Team>, now: int): (r: (RoomState, Reply))
    ensures r.1 == Ok || r.1.Err?
    ensures r.1.Err? ==> r.0 == st
    ensures r.0 == st.(participants := r.0.participants, playerStats := r.0.playerStats)
    ensures |r.0.participants| == |st.participants|
    ensures r.1 == Ok ==> st.registered && FormatOf(c) == Teams && st.status == Lobby && target.Some?
                          && FindSocket(st.participants, socketId).Some?
                          && InTeam(r.0.participants[FindSocket(st.participants, socketId).value], target.value)
    ensures r.1 == Ok <==>
              && st.registered && FormatOf(c) == Teams && st.status == Lobby && target.Some?
              && FindSocket(st.participants, socketId).Some?
              && !st.participants[FindSocket(st.participants, socketId).value].role.HostRole?
              && var me := st.participants[FindSocket(st.participants, socketId).value];
                 !(IsDuel(c) && !InTeam(me, target.value) && Occupied(st.participants, me.id, target.value))
    ensures r.1 == Err(SeatTaken) <==>
              && st.registered && FormatOf(c) == Teams && st.status == Lobby && target.Some?
              && FindSocket(st.participants, socketId).Some?
              && !st.participants[FindSocket(st.participants, socketId).value].role.HostRole?
              && var me := st.participants[FindSocket(st.participants, socketId).value];
                 IsDuel(c) && !InTeam(me, target.value) && Occupied(st.participants, me.id, target.value)
    ensures r.1 == Ok ==>
              var i := FindSocket(st.participants, socketId).value;
              var me := st.participants[i];
              if InTeam(me, target.value) then r.0 == st
              else
                var me' := me.(role := Member(target.value), teamLocked := true);
                r.0.participants == st.participants[i := me'] && r.0.playerStats == EnsureStat(st.playerStats, me', now)
  {
    if !st.registered then (st, Err(RoomNotFound))
    else if FormatOf(c) != Teams then (st, Err(TeamsOnly))
    else if st.status != Lobby then (st, Err(LobbyOnly))
    else
      var i := FindSocket(st.participants, socketId);
      if i.None? || st.participants[i.value].role.HostRole? then (st, Err(OnlyPlayers))
      else if target.None? then (st, Err(BadTeam))
      else
        var me := st.participants[i.value];
        if InTeam(me, target.value) then (st, Ok)
        else if IsDuel(c) && Occupied(st.participants, me.id, target.value) then (st, Err(SeatTaken))
        else
          var me' := me.(role := Member(target.value), teamLocked := true);
          (st.(participants := st.participants[i.value := me'], playerStats := EnsureStat(st.playerStats, me', now)), Ok)
  }

  /** Someone other than the player with id `id` is already in team `t`. */
  predicate Occupied(ps: seq<Participant>, id: string, t: Team) {
    exists j :: 0 <= j < |ps| && ps[j].id != id && InTeam(ps[j], t)
  }

  // ---------------------------------------------------------------- starting a game

  /** Zero scores and streaks for the ids. */
  function ZeroMap(ids: set<string>): map<string, int> {
    map id | id in ids :: 0
  }

  function IdSet(ps: seq<Participant>): set<string> {
    set i | 0 <= i < |ps| :: ps[i].id
  }

  /** The round plan of `host:startGame`: free-for-all players in join order. */
  function Plan(c: Settings, players: seq<Participant>): seq<Round> {
    if FormatOf(c) == Ffa then FfaRounds(c.questionCount, Ids(SortByJoin(players))) else TeamRounds(c.questionCount)
  }

  /** `host:startGame` up to the generation: the checks of `StartCheck`,
      then timers stopped, slots dropped and every piece of game state
      reset, with the round plan built and the room `preparing`. */
  function StartGame(c: Settings, st: RoomState, socketId: string, now: int): (r: (RoomState, Reply))
    ensures r.1 == Ok || r.1.Err?
    ensures r.1.Err? ==> r.0 == st
    ensures r.1 == Ok <==> st.registered
                           && StartCheck(IsHostSocket(st, socketId), st.status, FormatOf(c), IsDuel(c),
                                         |NonHostPlayers(st.participants)|,
                                         CountTeam(st.participants, A), CountTeam(st.participants, B)).None?
    ensures r.1 == Ok ==> && r.0.status == Preparing && r.0.roundIndex == -1 && r.0.roundHistory == []
                          && r.0.slots == map[] && r.0.hostReconnectDeadlineAt == 0
                          && r.0.rounds == Plan(c, NonHostPlayers(st.participants)) && r.0.participants == st.participants
  {
    if !st.registered then (st, Err(RoomNotFound))
    else
      var players := NonHostPlayers(st.participants);
      var check := StartCheck(IsHostSocket(st, socketId), st.status, FormatOf(c), IsDuel(c), |players|,
                              CountTeam(st.participants, A), CountTeam(st.participants, B));
      if check.Some? then (st, Err(StartRejected(check.value)))
      else
        (st.(hostReconnectDeadlineAt := 0, slots := map[], status := Preparing,
             questionSetA := [], questionSetB := [], questionBank := [],
             playerScores := ZeroMap(IdSet(players)), playerStreaks := ZeroMap(IdSet(players)),
             rounds := Plan(c, players), roundIndex := -1, roundStartedAt := 0, roundDeadlineAt := 0,
             pausedRemainingMs := None, currentSubmission := None, voteState := None, roundHistory := [],
             finishedAt := None, scores := PerTeam(0, 0), teamMetrics := PerTeam(TeamMetrics(0, 0), TeamMetrics(0, 0)),
             questionStats := map[], playerStats := map[]), Ok)
  }

  /** The end of `host:startGame` once the generation has settled: on
      failure back to the lobby; otherwise the question lists are installed
      (unless the room was closed meanwhile), every player's statistics are
      reset and the first round starts. */
  function CompleteStart(c: Settings, st: RoomState, failed: bool, bank: seq<Question>,
                         setA: seq<Question>, setB: seq<Question>, now: int): (r: RoomState)
    ensures st.status != Preparing ==> r == st
    ensures st.status == Preparing && failed ==> r == st.(status := Lobby)
    ensures st.status == Preparing && !failed ==>
              && (r.status == Running || r.status == Paused || r.status == Finished) && r.transitionDueAt.None?
              && r.participants == st.participants && r.registered == st.registered
              && (st.registered ==> r.questionBank == bank && r.questionSetA == setA && r.questionSetB == setB)
  {
    if st.status != Preparing then st
    else if failed then st.(status := Lobby)
    else
      var st1 := if st.registered then st.(questionBank := bank, questionSetA := setA, questionSetB := setB) else st;
      Advance(c, st1.(playerStats := ResetStats(st1.playerStats, st1.participants, now)), now)
  }

  /** The room `host:createRoom` makes: a lobby holding only its host. */
  function Created(c: Settings, socketId: string, now: int): RoomState {
    RoomState(Lobby, true, [HostParticipant(c, socketId, now)], Some(socketId), 0, map[], map[],
              PerTeam(TeamMetrics(0, 0), TeamMetrics(0, 0)), [], [], [], map[], map[], [], -1, 0, 0, None,
              None, None, [], PerTeam(0, 0), map[], None, None)
  }

  // ---------------------------------------------------------------- resolving once

  /** An unresolved round of a game has no history entry: every entry
      belongs to an earlier round. */
  lemma UnresolvedHasNoEntry(st: RoomState, id: HistoryId)
    requires Valid(st) && st.currentSubmission.None? && st.status != Finished && id.n == st.roundIndex + 1
    ensures FindHistory(st.roundHistory, id).None?
  {
    var h := st.roundHistory;
    forall i | 0 <= i < |h| ensures h[i].id != id {
      assert h[|h| - 1].roundNumber != st.roundIndex + 1;
      assert i < |h| - 1 ==> h[i].roundNumber < h[|h| - 1].roundNumber;
    }
  }

  /** Resolving an unresolved round of a running or paused game appends one
      history entry, for that round, and sets the guard, so the invariant
      holds and the round counts as resolved. */
  lemma ResolvedKeepsValid(c: Settings, st: RoomState, sub: Option<Submission>, now: int)
    requires Valid(st) && st.currentSubmission.None? && (st.status == Running || st.status == Paused)
    ensures var r := Resolved(c, st, sub, now);
      && Valid(r) && ResolvedCurrent(r)
      && |r.roundHistory| == |st.roundHistory| + 1 && r.roundHistory[..|st.roundHistory|] == st.roundHistory
  {
    var round := CurrentRound(st);
    var q := QuestionFor(c, st, round);
    var final := if sub.Some? then sub.value else TimeoutSubmission(c, q);
    var x := Charged(c, st, round.value, q, Outcome(sub), now);
    assert Valid(x) && CurrentRound(x) == round;
    RecordedKeepsValid(c, x, round.value, q, final, now);
  }

  /** Recording appends the round's entry: none was there, since the
      round was unresolved. */
  lemma RecordedKeepsValid(c: Settings, st: RoomState, r: Round, q: Option<Question>, final: Submission, now: int)
    requires Valid(st) && st.currentSubmission.None? && (st.status == Running || st.status == Paused)
    requires CurrentRound(st) == Some(r)
    ensures var x := Recorded(c, st, r, q, final, now);
      && Valid(x) && ResolvedCurrent(x)
      && x.roundHistory == st.roundHistory + [EntryFor(c, st, r, q, final)]
  {
    UnresolvedHasNoEntry(st, EntryFor(c, st, r, q, final).id);
  }

  /** The guard in action: once the current round has its submission, the
      finalisers refuse without a change, answers are rejected, the host
      skip is rejected and the tick passes the round by. */
  lemma NoDoubleResolution(c: Settings, st: RoomState, socketId: string, pass: bool, answer: Option<int>,
                           timeout: bool, hostName: string, now: int)
    requires st.currentSubmission.Some?
    ensures FinalizeVotes(c, st, timeout, now) == (st, false)
    ensures FinalizeIfReady(c, st, timeout, now) == (st, false)
    ensures SubmitAnswer(c, st, socketId, pass, answer, now).0 == st
    ensures SubmitAnswer(c, st, socketId, pass, answer, now).1.Err?
    ensures SkipByHost(c, st, hostName, now).0 == st
    ensures SkipByHost(c, st, hostName, now).1.Err?
    ensures Tick(c, st, now) == st
  {
  }

  /** `advanceRound`: past the last round the game is finished; otherwise
      the next round is current and either runs for a full round from now
      or, without a question, is paused with a full round left. */
  lemma AdvanceOutcome(c: Settings, st: RoomState, now: int)
    requires -1 <= st.roundIndex
    ensures var r := Advance(c, st, now);
      && r.transitionDueAt.None? && r.currentSubmission.None?
      && (st.roundIndex + 1 >= |st.rounds| ==>
            r.status == Finished && r.roundIndex == st.roundIndex && r.finishedAt == Some(now))
      && (st.roundIndex + 1 < |st.rounds| ==>
            && r.roundIndex == st.roundIndex + 1
            && (QuestionFor(c, r, CurrentRound(r)).Some? ==>
                  r.status == Running && r.roundStartedAt == now && r.roundDeadlineAt == now + DurationMs(c)
                  && r.pausedRemainingMs.None?)
            && (QuestionFor(c, r, CurrentRound(r)).None? ==>
                  r.status == Paused && r.roundDeadlineAt == 0 && r.pausedRemainingMs == Some(DurationMs(c))))
  {
    var st0 := st.(transitionDueAt := None);
    if st0.roundIndex + 1 < |st0.rounds| {
      var st1 := NextRound(st0);
      assert CurrentRound(st1).Some?;
      var started := StartRound(c, st1, now);
      if started.1 {
        assert Advance(c, st, now) == started.0;
        assert QuestionFor(c, started.0, CurrentRound(started.0)) == QuestionFor(c, st1, CurrentRound(st1));
      } else {
        var r := ParkRound(c, st1);
        assert Advance(c, st, now) == r;
        assert QuestionFor(c, r, CurrentRound(r)) == QuestionFor(c, st1, CurrentRound(st1));
      }
    }
  }

  lemma FinishKeepsValid(st: RoomState, now: int)
    requires Valid(st) && st.transitionDueAt.None?
    ensures Valid(FinishGame(st, now))
  {
  }

  lemma NextRoundKeepsValid(st: RoomState)
    requires Valid(st) && st.transitionDueAt.None? && st.roundIndex + 1 < |st.rounds|
    ensures Valid(NextRound(st))
  {
    var h := st.roundHistory;
    assert h != [] ==> h[|h| - 1].roundNumber <= st.roundIndex + 1;
  }

  lemma StartRoundKeepsValid(c: Settings, st: RoomState, now: int)
    requires Valid(st) && st.status == Running && st.currentSubmission.None?
    ensures Valid(StartRound(c, st, now).0)
  {
  }

  lemma ParkKeepsValid(c: Settings, st: RoomState)
    requires Valid(st) && st.status == Running
    ensures Valid(ParkRound(c, st))
  {
  }

  /** Advancing keeps the invariant: the new round has no entry yet. */
  lemma AdvanceKeepsValid(c: Settings, st: RoomState, now: int)
    requires Valid(st)
    ensures Valid(Advance(c, st, now))
  {
    var st0 := st.(transitionDueAt := None);
    assert Valid(st0);
    if st0.roundIndex + 1 >= |st0.rounds| {
      FinishKeepsValid(st0, now);
    } else {
      var st1 := NextRound(st0);
      NextRoundKeepsValid(st0);
      if CurrentRound(st1).None? {
        FinishKeepsValid(st1, now);
      } else if StartRound(c, st1, now).1 {
        StartRoundKeepsValid(c, st1, now);
      } else {
        ParkKeepsValid(c, st1);
      }
    }
  }

  /** The votes' outcome keeps the invariant, which does not mention
      scores or statistics. */
  lemma VoteOutcomeKeepsValid(c: Settings, st: RoomState, team: Team, q: Question, es: seq<Entry>, now: int)
    requires AllMembers(es) && es != [] && Valid(st)
    ensures Valid(VoteOutcome(c, st, team, q, es, now).0)
  {
    var o := VoteOutcome(c, st, team, q, es, now).0;
    assert o.participants == st.participants && o.roundHistory == st.roundHistory;
  }

  /** Finalising the votes of a running or paused game either changes
      nothing or resolves the round once, and keeps the invariant. */
  lemma FinalizeVotesKeepsValid(c: Settings, st: RoomState, timeout: bool, now: int)
    requires Valid(st) && (st.status == Running || st.status == Paused)
    ensures var (r, done) := FinalizeVotes(c, st, timeout, now);
      && Valid(r)
      && (!done ==> r == st)
      && (done ==> st.currentSubmission.None? && r.currentSubmission.Some? && |r.roundHistory| == |st.roundHistory| + 1)
  {
    if Finalizable(c, st, timeout) {
      var d := Decided(c, st, timeout, now);
      assert Valid(d.0);
      ResolvedKeepsValid(c, d.0, d.1, now);
    }
  }

  /** `finalizeTeamRoundIfReady` finalises only an unresolved team round
      whose team is ready: fully voted (`all-voted`), or with a vote
      (`timeout`); otherwise it changes nothing. */
  lemma FinalizeIfReadyGate(c: Settings, st: RoomState, timeout: bool, now: int)
    ensures var (r, done) := FinalizeIfReady(c, st, timeout, now);
      && (!done ==> r == st)
      && (done ==>
            && FormatOf(c) == Teams && st.currentSubmission.None? && CurrentRound(st).Some?
            && var team := CurrentRound(st).value.team;
               var voted := |Entries(st, team)|;
               var total := |TeamVoters(st.participants, team)|;
               if timeout then voted >= 1 else total >= 1 && voted >= total)
  {
  }

  /** A finalisation that happens resolves the round and closes the vote. */
  lemma FinalizeIfReadyResolves(c: Settings, st: RoomState, timeout: bool, now: int)
    ensures var (r, done) := FinalizeIfReady(c, st, timeout, now);
      done ==> r.currentSubmission.Some? && r.voteState.None?
  {
    if Finalizable(c, st, timeout) {
      var d := Decided(c, st, timeout, now);
      assert CurrentRound(d.0) == CurrentRound(st);
    }
  }

  lemma FinalizeIfReadyKeepsValid(c: Settings, st: RoomState, timeout: bool, now: int)
    requires Valid(st) && (st.status == Running || st.status == Paused)
    ensures var (r, done) := FinalizeIfReady(c, st, timeout, now);
      && Valid(r)
      && (!done ==> r == st)
      && (done ==> st.currentSubmission.None? && r.currentSubmission.Some? && |r.roundHistory| == |st.roundHistory| + 1)
  {
    FinalizeVotesKeepsValid(c, st, timeout, now);
  }

  /** Finalising keeps the roster, the plan, the status and the timers the
      room registry relies on. */
  lemma FinalizeIfReadyFrame(c: Settings, st: RoomState, timeout: bool, now: int)
    ensures var r := FinalizeIfReady(c, st, timeout, now).0;
      && r.participants == st.participants && r.status == st.status && r.registered == st.registered
      && r.slots == st.slots && r.playerScores == st.playerScores && r.hostSocketId == st.hostSocketId
      && r.roundIndex == st.roundIndex && r.rounds == st.rounds
  {
    if Finalizable(c, st, timeout) {
      var d := Decided(c, st, timeout, now);
      assert d.0.participants == st.participants;
    }
  }

  // ---------------------------------------------------------------- team score

  /** The team score moves only on a correct decision: the deciding team
      gains exactly the submission's points, the other team nothing, and
      points come only with a correct answer. */
  lemma VoteOutcomeScores(c: Settings, st: RoomState, team: Team, q: Question, es: seq<Entry>, now: int)
    requires AllMembers(es) && es != []
    ensures var (r, sub) := VoteOutcome(c, st, team, q, es, now);
      && r.scores.At(team) == st.scores.At(team) + sub.points
      && r.scores.At(Other(team)) == st.scores.At(Other(team))
      && (sub.kind == Pass <==> Decide(Counts(es), CountPass(es), es) == PassDecision)
      && (sub.kind == Answer ==> sub.answerIndex == Some(Decide(Counts(es), CountPass(es), es).index) && sub.kind != Pass)
      && (sub.correct <==> sub.kind == Answer && sub.answerIndex == Some(q.correctIndex))
      && (sub.points > 0 ==> sub.correct)
      && (sub.correct ==> sub.points == Points(c, ElapsedMs(c, st, now), q))
  {
  }

  /** No team's score ever drops when votes are finalised, and a score
      rises only when the round resolves as that team's correct answer. */
  lemma TeamScoreNeverDecreases(c: Settings, st: RoomState, timeout: bool, now: int, t: Team)
    ensures var r := FinalizeVotes(c, st, timeout, now).0;
      && r.scores.At(t) >= st.scores.At(t)
      && (r.scores.At(t) > st.scores.At(t) ==>
            && CurrentRound(st).Some? && CurrentRound(st).value.team == t
            && r.currentSubmission.Some? && r.currentSubmission.value.kind == Answer && r.currentSubmission.value.correct
            && r.scores.At(t) == st.scores.At(t) + r.currentSubmission.value.points)
  {
    if Finalizable(c, st, timeout) {
      var round := CurrentRound(st);
      var team := round.value.team;
      var es := Entries(st, team);
      var d := Decided(c, st, timeout, now);
      assert CurrentRound(d.0) == round;
      if es != [] {
        var o := VoteOutcome(c, st, team, QuestionFor(c, st, round).value, es, now);
        VoteOutcomeScores(c, st, team, QuestionFor(c, st, round).value, es, now);
        assert d == (o.0, Some(o.1));
        assert t != team ==> t == Other(team);
      }
    }
  }

  // ---------------------------------------------------------------- every handler keeps the invariant

  /** The fields the invariant speaks of, besides the roster. */
  predicate SameProgress(a: RoomState, b: RoomState) {
    && a.status == b.status && a.roundIndex == b.roundIndex && a.rounds == b.rounds
    && a.roundHistory == b.roundHistory && a.currentSubmission == b.currentSubmission
    && a.transitionDueAt == b.transitionDueAt
  }

  lemma ValidTransfer(a: RoomState, b: RoomState)
    requires Valid(a) && SameProgress(a, b) && DistinctSockets(b.participants)
    ensures Valid(b)
  {
  }

  /** Rebalancing keeps the socket keys distinct. */
  lemma RebalancedDistinct(ps: seq<Participant>, status: Status, format: Format, duel: bool)
    requires DistinctSockets(ps)
    ensures DistinctSockets(Rebalanced(ps, status, format, duel))
  {
    if RebalanceMove(ps, status, format, duel).Some? {
      RebalanceEffect(ps, status, format, duel);
    }
  }

  /** A new room satisfies the invariant. */
  lemma CreatedValid(c: Settings, socketId: string, now: int)
    ensures Valid(Created(c, socketId, now))
  {
  }

  lemma DepartKeepsValid(st: RoomState, socketId: string, now: int)
    requires Valid(st)
    ensures Valid(Depart(st, socketId, now))
  {
    ValidTransfer(st, Depart(st, socketId, now));
  }

  lemma CloseRoomKeepsValid(st: RoomState, now: int)
    requires Valid(st)
    ensures Valid(CloseRoom(st, now))
  {
  }

  lemma SkipRoundKeepsValid(c: Settings, st: RoomState, socketId: string, now: int)
    requires Valid(st)
    ensures Valid(SkipRound(c, st, socketId, now).0)
  {
    var st1 := st.(status := Running);
    if st.currentSubmission.None? && (st.status == Running || st.status == Paused) {
      forall sub | true ensures Valid(Resolved(c, st1, sub, now)) {
        ResolvedKeepsValid(c, st1, sub, now);
      }
    }
  }

  lemma TogglePauseKeepsValid(c: Settings, st: RoomState, socketId: string, now: int)
    requires Valid(st)
    ensures Valid(TogglePause(c, st, socketId, now).0)
  {
  }

  lemma SubmitFfaKeepsValid(c: Settings, st: RoomState, me: Participant, round: Round, q: Question,
                            wantsPass: bool, k: int, now: int)
    requires Valid(st) && st.status == Running && st.currentSubmission.None? && me.role.Member?
    ensures Valid(SubmitFfa(c, st, me, round, q, wantsPass, k, now))
  {
    var o := FfaCredited(c, st, me, round, q, wantsPass, k, now);
    assert Valid(o.0);
    ResolvedKeepsValid(c, o.0, Some(o.1), now);
  }

  lemma SubmitVoteKeepsValid(c: Settings, st: RoomState, me: Participant, team: Team, answer: Option<int>, now: int)
    requires Valid(st) && st.status == Running
    ensures Valid(SubmitVote(c, st, me, team, answer, now).0)
  {
    var vs := if st.voteState.Some? && st.voteState.value.team == team then st.voteState.value else VoteState(team, map[]);
    if me.id !in vs.votes {
      var st1 := st.(voteState := Some(vs.(votes := vs.votes[me.id := Vote(answer, now, me.name)])));
      assert SubmitVote(c, st, me, team, answer, now).0 == FinalizeIfReady(c, st1, false, now).0;
      FinalizeIfReadyKeepsValid(c, st1, false, now);
    }
  }

  lemma SubmitAnswerKeepsValid(c: Settings, st: RoomState, socketId: string, pass: bool, answer: Option<int>, now: int)
    requires Valid(st)
    ensures Valid(SubmitAnswer(c, st, socketId, pass, answer, now).0)
  {
    var r := SubmitAnswer(c, st, socketId, pass, answer, now);
    if r.0 != st {
      var i := FindSocket(st.participants, socketId);
      var me := st.participants[i.value];
      var round := CurrentRound(st);
      var q := QuestionFor(c, st, round);
      var wantsPass := pass || answer == Some(-1);
      if FormatOf(c) == Teams {
        var v := if wantsPass then None else answer;
        assert r == SubmitVote(c, st, me, round.value.team, v, now);
        SubmitVoteKeepsValid(c, st, me, round.value.team, v, now);
      } else {
        var k := if wantsPass then 0 else answer.value;
        assert r.0 == SubmitFfa(c, st, me, round.value, q.value, wantsPass, k, now);
        SubmitFfaKeepsValid(c, st, me, round.value, q.value, wantsPass, k, now);
      }
    }
  }

  lemma TickKeepsValid(c: Settings, st: RoomState, now: int)
    requires Valid(st)
    ensures Valid(Tick(c, st, now))
  {
    if st.registered && st.status == Running && st.currentSubmission.None? {
      FinalizeIfReadyKeepsValid(c, st, true, now);
      ResolvedKeepsValid(c, st, None, now);
    }
  }

  lemma FireTransitionKeepsValid(c: Settings, st: RoomState, now: int)
    requires Valid(st)
    ensures Valid(FireTransition(c, st, now))
  {
    AdvanceKeepsValid(c, st, now);
  }

  lemma ExpiriesKeepValid(st: RoomState, key: string, now: int)
    requires Valid(st)
    ensures Valid(ExpireHostGrace(st, now)) && Valid(ExpirePlayerSlot(st, key, now))
  {
  }

  lemma SettleKeepsValid(c: Settings, st: RoomState, now: int)
    requires Valid(st)
    ensures Valid(Settle(c, st, now).0)
  {
    if FormatOf(c) == Teams && st.status == Running && st.currentSubmission.None? {
      FinalizeIfReadyKeepsValid(c, st, false, now);
    }
  }

  lemma StartHostGraceKeepsValid(st: RoomState, now: int)
    requires Valid(st)
    ensures Valid(StartHostGrace(st, now))
  {
  }

  lemma KickedKeepsValid(c: Settings, st: RoomState, p: Participant, now: int)
    requires Valid(st)
    ensures Valid(Kicked(c, st, p, now))
  {
    var st2 := if st.status == Lobby then Rebalance(c, st) else st;
    ValidTransfer(st, st2);
    if st2.status == Running && st2.currentSubmission.None? {
      forall sub ensures Valid(Resolved(c, st2, sub, now)) {
        ResolvedKeepsValid(c, st2, sub, now);
      }
    }
    SettleKeepsValid(c, st2, now);
  }

  lemma KickKeepsValid(c: Settings, st: RoomState, socketId: string, targetId: string, now: int)
    requires Valid(st)
    ensures Valid(Kick(c, st, socketId, targetId, now).0)
  {
    var j := FindPlayerById(st.participants, Trim(targetId));
    if j.Some? {
      var p := st.participants[j.value];
      ValidTransfer(st, Disqualify(st, p, now));
      KickedKeepsValid(c, Disqualify(st, p, now), p, now);
    }
  }

  lemma RemainingKeepsValid(c: Settings, st: RoomState, now: int, slotsHold: bool)
    requires Valid(st)
    ensures Valid(Remaining(c, st, now, slotsHold))
  {
    SettleKeepsValid(c, st, now);
  }

  lemma LeaveKeepsValid(c: Settings, st: RoomState, socketId: string, now: int)
    requires Valid(st)
    ensures Valid(Leave(c, st, socketId, now))
  {
    if st.registered {
      var i := FindSocket(st.participants, socketId);
      var st1 := Depart(st, socketId, now);
      ValidTransfer(st, st1);
      var st2 := DropSlot(st1, if i.Some? then st.participants[i.value].playerKey else "");
      ValidTransfer(st1, st2);
      LeftKeepsValid(c, st2, i.Some? && st.participants[i.value].role.HostRole?, now);
    }
  }

  lemma LeftKeepsValid(c: Settings, st: RoomState, wasHost: bool, now: int)
    requires Valid(st)
    ensures Valid(Left(c, st, wasHost, now))
  {
    CloseRoomKeepsValid(st, now);
    ValidTransfer(st, Rebalance(c, st));
    RemainingKeepsValid(c, Rebalance(c, st), now, false);
  }

  lemma DisconnectedKeepsValid(c: Settings, st: RoomState, p: Participant, now: int)
    requires Valid(st)
    ensures Valid(Disconnected(c, st, p, now))
  {
    StartHostGraceKeepsValid(st, now);
    ValidTransfer(st, Rebalance(c, st));
    ValidTransfer(st, StartPlayerGrace(st, p, now));
    RemainingKeepsValid(c, StartPlayerGrace(st, p, now), now, true);
  }

  lemma DisconnectKeepsValid(c: Settings, st: RoomState, socketId: string, now: int)
    requires Valid(st)
    ensures Valid(Disconnect(c, st, socketId, now))
  {
    if st.registered {
      var i := FindSocket(st.participants, socketId);
      var st1 := Depart(st, socketId, now);
      ValidTransfer(st, st1);
      if i.Some? {
        DisconnectedKeepsValid(c, st1, st.participants[i.value], now);
      }
    }
  }

  lemma JoinKeepsValid(c: Settings, st: RoomState, socketId: string, rawName: string, rawKey: string, password: string,
                       now: int, suffix: nat, generatedKey: string, coin: Team)
    requires Valid(st)
    ensures Valid(Join(c, st, socketId, rawName, rawKey, password, now, suffix, generatedKey, coin).0)
  {
    forall key | key in st.slots ensures Valid(Restored(st, key, socketId, now)) {
      ValidTransfer(st, Restored(st, key, socketId, now));
    }
    forall p: Participant | p.role.Member? ensures Valid(Admitted(c, st, p, now)) {
      ValidTransfer(st, Admitted(c, st, p, now));
    }
  }

  lemma HostRejoinKeepsValid(c: Settings, st: RoomState, socketId: string, hostKey: string, now: int)
    requires Valid(st)
    ensures Valid(HostRejoin(c, st, socketId, hostKey, now).0)
  {
  }

  lemma SwitchTeamKeepsValid(c: Settings, st: RoomState, socketId: string, target: Option<Team>, now: int)
    requires Valid(st)
    ensures Valid(SwitchTeam(c, st, socketId, target, now).0)
  {
    var i := FindSocket(st.participants, socketId);
    if i.Some? {
      var ps := st.participants;
      forall p: Participant | p.socketId == socketId ensures DistinctSockets(ps[i.value := p]) {
      }
    }
  }

  lemma StartGameKeepsValid(c: Settings, st: RoomState, socketId: string, now: int)
    requires Valid(st)
    ensures Valid(StartGame(c, st, socketId, now).0)
  {
  }

  lemma CompleteStartKeepsValid(c: Settings, st: RoomState, failed: bool, bank: seq<Question>,
                                setA: seq<Question>, setB: seq<Question>, now: int)
    requires Valid(st)
    ensures Valid(CompleteStart(c, st, failed, bank, setA, setB, now))
  {
    forall x: RoomState | Valid(x) ensures Valid(Advance(c, x, now)) {
      AdvanceKeepsValid(c, x, now);
    }
  }
}
