/** The room engine's pure rules: the game-mode catalogue, the round plan,
    team assignment, round timing, the review delay, scoring, streaks, the
    winner and the start validation of server/index.js. */
module Rules {
  import opened Generator

  datatype Format = Teams | Ffa
  datatype Team = A | B
  datatype Status = Lobby | Preparing | Running | Paused | Finished

  function Other(t: Team): Team {
    if t == A then B else A
  }

  datatype GameMode = TeamBattle | SoloArena | Duel | TurboStorm | ComboRush

  /** One entry of `gameModeCatalog`; the timer multiplier is kept in
      per-mille (1 = 1000, 0.65 = 650, 0.9 = 900). */
  datatype ModeConfig = ModeConfig(
    format: Format,
    timerPermille: nat,
    forceSpeedBonus: bool,
    passEnabled: bool,
    bonusCorrect: nat,
    streakBonus: bool)

  function Config(m: GameMode): (c: ModeConfig)
    ensures c.timerPermille > 0
    ensures c.passEnabled <==> m != TurboStorm
    ensures c.streakBonus ==> c.format == Ffa
  {
    match m
    case TeamBattle => ModeConfig(Teams, 1000, false, true, 0, false)
    case SoloArena => ModeConfig(Ffa, 1000, false, true, 0, false)
    case Duel => ModeConfig(Teams, 1000, false, true, 0, false)
    case TurboStorm => ModeConfig(Teams, 650, true, false, 1, false)
    case ComboRush => ModeConfig(Ffa, 900, true, true, 0, true)
  }

  // ---------------------------------------------------------------- round plan

  /** One planned round: the answering team, the question index into that
      team's set (or the shared bank), and in free-for-all the player. */
  datatype Round = Round(team: Team, questionIndex: nat, player: Option<string>)

  /** The team plan, question index by question index: A, then B. */
  function TeamRounds(questionCount: nat): (r: seq<Round>)
    ensures |r| == 2 * questionCount
  {
    if questionCount == 0 then []
    else TeamRounds(questionCount - 1) + [Round(A, questionCount - 1, None), Round(B, questionCount - 1, None)]
  }

  /** `buildRounds`: every question index is played by A and then by B. */
  method BuildRounds(questionCount: nat) returns (rounds: seq<Round>)
    ensures rounds == TeamRounds(questionCount)
    ensures |rounds| == 2 * questionCount
    ensures forall i :: 0 <= i < questionCount ==>
      rounds[2 * i] == Round(A, i, None) && rounds[2 * i + 1] == Round(B, i, None)
    ensures forall k :: 0 <= k < |rounds| ==>
      rounds[k].questionIndex < questionCount && rounds[k].player.None?
  {
    rounds := [];
    var index := 0;
    while index < questionCount
      invariant 0 <= index <= questionCount
      invariant rounds == TeamRounds(index)
      invariant |rounds| == 2 * index
      invariant forall i :: 0 <= i < index ==>
        rounds[2 * i] == Round(A, i, None) && rounds[2 * i + 1] == Round(B, i, None)
      invariant forall k :: 0 <= k < |rounds| ==>
        rounds[k].questionIndex < index && rounds[k].player.None?
    {
      rounds := rounds + [Round(A, index, None), Round(B, index, None)];
      index := index + 1;
    }
  }

  /** The rounds of one question index in free-for-all: one per player, in
      the given order. */
  function RoundsOf(questionIndex: nat, players: seq<string>): (r: seq<Round>)
    ensures |r| == |players|
  {
    if players == [] then []
    else
      RoundsOf(questionIndex, players[..|players| - 1]) + [Round(A, questionIndex, Some(players[|players| - 1]))]
  }

  /** The plan `buildFfaRounds` produces, question index by question index. */
  function FfaRounds(questionCount: nat, players: seq<string>): seq<Round> {
    if questionCount == 0 then []
    else FfaRounds(questionCount - 1, players) + RoundsOf(questionCount - 1, players)
  }

  /** `buildFfaRounds`: for each question index, every player once, in join order. */
  method BuildFfaRounds(questionCount: nat, playerIds: seq<string>) returns (rounds: seq<Round>)
    ensures rounds == FfaRounds(questionCount, playerIds)
  {
    rounds := [];
    var questionIndex := 0;
    while questionIndex < questionCount
      invariant 0 <= questionIndex <= questionCount
      invariant rounds == FfaRounds(questionIndex, playerIds)
    {
      var k := 0;
      while k < |playerIds|
        invariant 0 <= k <= |playerIds|
        invariant rounds == FfaRounds(questionIndex, playerIds) + RoundsOf(questionIndex, playerIds[..k])
      {
        assert playerIds[..k + 1][..k] == playerIds[..k];
        rounds := rounds + [Round(A, questionIndex, Some(playerIds[k]))];
        k := k + 1;
      }
      assert playerIds[..k] == playerIds;
      questionIndex := questionIndex + 1;
    }
  }

  /** The rounds of one question index follow the players in order. */
  lemma {:induction false} RoundsOfAt(q: nat, players: seq<string>)
    ensures forall k :: 0 <= k < |players| ==> RoundsOf(q, players)[k] == Round(A, q, Some(players[k]))
  {
    if players != [] {
      var init := players[..|players| - 1];
      RoundsOfAt(q, init);
      forall k | 0 <= k < |players| ensures RoundsOf(q, players)[k] == Round(A, q, Some(players[k])) {
        if k < |init| {
          assert players[k] == init[k];
        }
      }
    }
  }

  lemma {:induction false} FfaRoundCovered(questionCount: nat, players: seq<string>, q: nat, k: nat)
    requires q < questionCount && k < |players|
    ensures Round(A, q, Some(players[k])) in FfaRounds(questionCount, players)
  {
    var prev, cur := FfaRounds(questionCount - 1, players), RoundsOf(questionCount - 1, players);
    assert FfaRounds(questionCount, players) == prev + cur;
    if q < questionCount - 1 {
      FfaRoundCovered(questionCount - 1, players, q, k);
    } else {
      RoundsOfAt(q, players);
      assert cur[k] == Round(A, q, Some(players[k]));
    }
  }

  /** In the free-for-all plan every player answers every question index. */
  lemma FfaRoundsCover(questionCount: nat, players: seq<string>)
    ensures forall q, k :: 0 <= q < questionCount && 0 <= k < |players| ==>
      Round(A, q, Some(players[k])) in FfaRounds(questionCount, players)
  {
    forall q, k | 0 <= q < questionCount && 0 <= k < |players|
      ensures Round(A, q, Some(players[k])) in FfaRounds(questionCount, players)
    {
      FfaRoundCovered(questionCount, players, q, k);
    }
  }

  /** The free-for-all plan goes question index by question index. */
  lemma {:induction false} FfaRoundsOrdered(questionCount: nat, players: seq<string>)
    ensures var rs := FfaRounds(questionCount, players);
      forall i, j :: 0 <= i <= j < |rs| ==> rs[i].questionIndex <= rs[j].questionIndex
  {
    if questionCount > 0 {
      var prev, cur := FfaRounds(questionCount - 1, players), RoundsOf(questionCount - 1, players);
      FfaRoundsOrdered(questionCount - 1, players);
      FfaRoundsShape(questionCount - 1, players);
      RoundsOfShape(questionCount - 1, players);
      var rs := prev + cur;
      forall i, j | 0 <= i <= j < |rs| ensures rs[i].questionIndex <= rs[j].questionIndex {
        if j < |prev| {
          assert rs[i] == prev[i] && rs[j] == prev[j];
        } else if i < |prev| {
          assert rs[i] == prev[i] && rs[j] == cur[j - |prev|];
          assert rs[i] in prev && rs[j] in cur;
        } else {
          assert rs[i] == cur[i - |prev|] && rs[j] == cur[j - |prev|];
          assert rs[i] in cur && rs[j] in cur;
        }
      }
    }
  }

  lemma {:induction false} FfaRoundsShape(questionCount: nat, players: seq<string>)
    ensures |FfaRounds(questionCount, players)| == questionCount * |players|
    ensures forall r :: r in FfaRounds(questionCount, players) ==>
      r.team == A && r.questionIndex < questionCount && r.player.Some? && r.player.value in players
  {
    if questionCount > 0 {
      FfaRoundsShape(questionCount - 1, players);
      assert questionCount * |players| == (questionCount - 1) * |players| + |players|;
      RoundsOfShape(questionCount - 1, players);
    }
  }

  lemma {:induction false} RoundsOfShape(q: nat, players: seq<string>)
    ensures forall r :: r in RoundsOf(q, players) ==>
      r.team == A && r.questionIndex == q && r.player.Some? && r.player.value in players
  {
    if players != [] {
      RoundsOfShape(q, players[..|players| - 1]);
    }
  }

  // ---------------------------------------------------------------- lobby teams

  datatype Role = HostRole | Member(team: Team)

  /** A connected participant (the host or a player). */
  datatype Participant = Participant(
    socketId: string,
    id: string,
    name: string,
    role: Role,
    joinedAt: int,
    playerKey: string,
    teamLocked: bool)

  predicate InTeam(p: Participant, t: Team) {
    p.role == Member(t)
  }

  /** The number of players (not the host) in team `t`. */
  function CountTeam(ps: seq<Participant>, t: Team): (n: nat)
    ensures n <= |ps|
  {
    if ps == [] then 0
    else CountTeam(ps[..|ps| - 1], t) + (if InTeam(ps[|ps| - 1], t) then 1 else 0)
  }

  /** The number of non-host participants. */
  function PlayerCount(ps: seq<Participant>): (n: nat)
    ensures n <= |ps|
  {
    if ps == [] then 0
    else PlayerCount(ps[..|ps| - 1]) + (if ps[|ps| - 1].role.Member? then 1 else 0)
  }

  lemma {:induction false} PlayersAreTeamMembers(ps: seq<Participant>)
    ensures PlayerCount(ps) == CountTeam(ps, A) + CountTeam(ps, B)
  {
    if ps != [] {
      PlayersAreTeamMembers(ps[..|ps| - 1]);
      var p := ps[|ps| - 1];
      if p.role.Member? {
        assert InTeam(p, p.role.team) && !InTeam(p, Other(p.role.team));
      }
    }
  }

  /** Moving one player from team `from` to the other team. */
  lemma {:induction false} CountTeamMove(ps: seq<Participant>, i: nat, from: Team)
    requires i < |ps| && InTeam(ps[i], from)
    ensures CountTeam(ps[i := ps[i].(role := Member(Other(from)))], from) == CountTeam(ps, from) - 1
    ensures CountTeam(ps[i := ps[i].(role := Member(Other(from)))], Other(from)) == CountTeam(ps, Other(from)) + 1
  {
    var moved := ps[i].(role := Member(Other(from)));
    var qs := ps[i := moved];
    var init := ps[..|ps| - 1];
    if i < |ps| - 1 {
      assert qs[..|qs| - 1] == init[i := moved];
      assert qs[|qs| - 1] == ps[|ps| - 1];
      CountTeamMove(init, i, from);
    } else {
      assert qs[..|qs| - 1] == init;
      assert qs[|qs| - 1] == moved;
      assert !InTeam(moved, from) && InTeam(moved, Other(from)) && !InTeam(ps[i], Other(from));
    }
  }

  lemma {:induction false} CountTeamSnoc(ps: seq<Participant>, p: Participant, t: Team)
    ensures CountTeam(ps + [p], t) == CountTeam(ps, t) + (if InTeam(p, t) then 1 else 0)
    ensures PlayerCount(ps + [p]) == PlayerCount(ps) + (if p.role.Member? then 1 else 0)
  {
    assert (ps + [p])[..|ps|] == ps;
  }

  /** `assignTeam`; `coin` is the outcome of the random draw the code makes
      when both teams are equally large outside the duel mode. */
  function AssignTeam(format: Format, duel: bool, popA: nat, popB: nat, coin: Team): (r: Team)
    ensures format == Ffa ==> r == A
    ensures format == Teams ==> (if r == A then popA <= popB else popB <= popA)
    ensures format == Teams && popA == popB ==> r == (if duel then A else coin)
  {
    if format == Ffa then A
    else if duel then
      (if popA == 0 then A else if popB == 0 then B else if popA <= popB then A else B)
    else if popA == popB then coin
    else if popA < popB then A
    else B
  }

  function Gap(a: nat, b: nat): nat {
    if a >= b then a - b else b - a
  }

  /** Joining the team `AssignTeam` picks never widens the gap between the
      teams: an uneven lobby gets one closer to even. */
  lemma AssignTeamKeepsBalance(duel: bool, popA: nat, popB: nat, coin: Team)
    ensures var t := AssignTeam(Teams, duel, popA, popB, coin);
      Gap(popA + (if t == A then 1 else 0), popB + (if t == B then 1 else 0))
        == if popA == popB then 1 else Gap(popA, popB) - 1
  {
  }

  // ---------------------------------------------------------------- timing

  /** `getRoundDurationMs` on whole seconds: `max(1000, round(T·1000·m))`
      with an unset timer (`|| 30`) read as 30 s, and with the blitz
      modifier `max(8000, round(base·0.65))`. */
  function RoundDurationMs(timerSeconds: nat, timerPermille: nat, blitz: bool): (r: nat)
    ensures r >= 1000
    ensures blitz ==> r >= 8000
    ensures !blitz && timerPermille == 0 ==> r == 1000 * (if timerSeconds == 0 then 30 else timerSeconds)
    ensures !blitz && timerSeconds * timerPermille >= 1000 ==> r == timerSeconds * timerPermille
  {
    var seconds := if timerSeconds == 0 then 30 else timerSeconds;
    var scale := if timerPermille > 0 then timerPermille else 1000;
    var base := Max(1000, seconds * scale);
    if blitz then Max(8000, (base * 65 + 50) / 100) else base
  }

  /** The blitz round is the normal one scaled by 0.65, rounded half up,
      and never under 8 s. */
  lemma BlitzDuration(timerSeconds: nat, timerPermille: nat)
    ensures RoundDurationMs(timerSeconds, timerPermille, true)
              == Max(8000, (RoundDurationMs(timerSeconds, timerPermille, false) * 65 + 50) / 100)
  {
  }

  function Max(a: int, b: int): int {
    if a >= b then a else b
  }

  /** A longer timer never gives a shorter round, and the blitz modifier
      never lengthens one beyond its 8 s floor. */
  lemma DurationMonotone(t1: nat, t2: nat, m: nat, blitz: bool)
    requires t1 <= t2 && (t1 == 0 ==> t2 == 0 || t2 >= 30)
    ensures RoundDurationMs(t1, m, blitz) <= RoundDurationMs(t2, m, blitz)
    ensures RoundDurationMs(t1, m, true) <= Max(8000, RoundDurationMs(t1, m, false))
  {
    var s1 := if t1 == 0 then 30 else t1;
    var s2 := if t2 == 0 then 30 else t2;
    var scale := if m > 0 then m else 1000;
    assert s1 * scale <= s2 * scale by {
      MulMonotone(s1, s2, scale);
    }
  }

  lemma MulMonotone(a: nat, b: nat, c: nat)
    requires a <= b
    ensures a * c <= b * c
  {
  }

  /** The server's review timing: `ROUND_REVIEW_BASE_MS`,
      `ROUND_REVIEW_PER_BLOCK_MS` and `ROUND_REVIEW_MAX_MS`. */
  datatype ReviewTimes = ReviewTimes(baseMs: int, perBlockMs: int, maxMs: int)

  /** Review timings within the clamps the server applies when it reads
      them from the environment. */
  type ReviewTiming = t: ReviewTimes | 2500 <= t.baseMs <= 9000 && 0 <= t.perBlockMs <= 2200 && 3200 <= t.maxMs <= 14000
    witness ReviewTimes(4200, 550, 7000)

  /** The three settings as read at start-up: a missing or non-numeric
      value takes its default of 4200, 550 or 7000 ms, and a value inside
      its range is taken as it is. */
  function ReviewTimingFrom(envBase: Option<int>, envPerBlock: Option<int>, envMax: Option<int>): (t: ReviewTiming)
    ensures envBase.None? ==> t.baseMs == 4200
    ensures envPerBlock.None? ==> t.perBlockMs == 550
    ensures envMax.None? ==> t.maxMs == 7000
    ensures envBase.Some? && 2500 <= envBase.value <= 9000 ==> t.baseMs == envBase.value
    ensures envPerBlock.Some? && 0 <= envPerBlock.value <= 2200 ==> t.perBlockMs == envPerBlock.value
    ensures envMax.Some? && 3200 <= envMax.value <= 14000 ==> t.maxMs == envMax.value
  {
    ReviewTimes(ClampNumber(envBase, 4200, 2500, 9000), ClampNumber(envPerBlock, 550, 0, 2200),
                ClampNumber(envMax, 7000, 3200, 14000))
  }

  /** What kind of resolution a round had. */
  datatype SubmissionType = Answer | Pass | Skip | Timeout

  /** The resolved result of a round (`currentSubmission`). */
  datatype Submission = Submission(
    kind: SubmissionType,
    byName: string,
    answerIndex: Option<int>,
    correct: bool,
    points: nat,
    elapsedMs: int,
    expectedCorrectIndex: Option<int>)

  /** One extra block per full 180 characters of text, at most four. */
  function ExtraBlocks(textLength: nat): nat {
    if textLength / 180 < 4 then textLength / 180 else 4
  }

  /** The review delay before the adjustment for the kind of result. */
  function PlainDelayMs(t: ReviewTiming, textLength: nat): int {
    t.baseMs + ExtraBlocks(textLength) * t.perBlockMs
  }

  /** `getRoundReviewDelayMs`: a base delay plus one block per 180
      characters of prompt and explanation (at most four), shortened for a
      timeout or a skip (never below 3 s) and lengthened for a pass or a
      wrong answer, then clamped into `[2600, maximum]`. */
  function ReviewDelayMs(t: ReviewTiming, promptLength: nat, explanationLength: nat, kind: SubmissionType, correct: bool): (r: int)
    ensures 2600 <= r <= t.maxMs
  {
    var delay := PlainDelayMs(t, promptLength + explanationLength);
    var adjusted :=
      if kind == Timeout || kind == Skip then Max(3000, delay - 600)
      else if kind == Pass || (kind == Answer && !correct) then delay + 400
      else delay;
    if adjusted < 2600 then 2600 else if adjusted > t.maxMs then t.maxMs else adjusted
  }

  /** A round that timed out or was skipped is reviewed no longer than a
      correct answer exactly when the unadjusted delay is at least 3 s
      (always so with a base of 3 s or more: below that the 3 s floor of a
      timeout exceeds the correct answer's delay); a correct answer is
      reviewed no longer than a pass or a wrong answer; longer content
      never shortens the review. */
  lemma ReviewDelayOrder(t: ReviewTiming, promptLength: nat, explanationLength: nat, moreLength: nat)
    ensures ReviewDelayMs(t, promptLength, explanationLength, Timeout, false) <= ReviewDelayMs(t, promptLength, explanationLength, Answer, true)
            <==> PlainDelayMs(t, promptLength + explanationLength) >= 3000
    ensures t.baseMs >= 3000 ==>
              ReviewDelayMs(t, promptLength, explanationLength, Timeout, false) <= ReviewDelayMs(t, promptLength, explanationLength, Answer, true)
    ensures ReviewDelayMs(t, promptLength, explanationLength, Skip, false) == ReviewDelayMs(t, promptLength, explanationLength, Timeout, false)
    ensures ReviewDelayMs(t, promptLength, explanationLength, Answer, true) <= ReviewDelayMs(t, promptLength, explanationLength, Answer, false)
    ensures ReviewDelayMs(t, promptLength, explanationLength, Pass, false) == ReviewDelayMs(t, promptLength, explanationLength, Answer, false)
    ensures forall k: SubmissionType, c: bool ::
              ReviewDelayMs(t, promptLength, explanationLength, k, c) <= ReviewDelayMs(t, promptLength + moreLength, explanationLength, k, c)
  {
    var n := promptLength + explanationLength;
    assert ExtraBlocks(n) * t.perBlockMs >= 0 by {
      MulMonotone(0, ExtraBlocks(n), t.perBlockMs);
    }
    forall k: SubmissionType, c: bool
      ensures ReviewDelayMs(t, promptLength, explanationLength, k, c) <= ReviewDelayMs(t, promptLength + moreLength, explanationLength, k, c)
    {
      assert n / 180 <= (promptLength + moreLength + explanationLength) / 180;
      assert ExtraBlocks(n) <= ExtraBlocks(promptLength + moreLength + explanationLength);
      MulMonotone(ExtraBlocks(n), ExtraBlocks(promptLength + moreLength + explanationLength), t.perBlockMs);
    }
  }

  // ---------------------------------------------------------------- scoring

  datatype Score = Score(base: nat, bonus: nat)

  /** `scoreForAnswer`: base 1, plus 1 for a hard question with the expert
      modifier, plus the mode's bonus; with the speed bonus the tier is
      taken from the remaining fraction `1 − clamp(elapsed, 0, T)/T`:
      +2 from 0.67, +1 from 0.34 (compared exactly, in hundredths). */
  function ScoreForAnswer(speedBonus: bool, expertHard: bool, modeBonus: int, elapsedMs: int, durationMs: int): (s: Score)
    ensures s.base == 1 + (if expertHard then 1 else 0) + (if modeBonus > 0 then modeBonus else 0)
    ensures !speedBonus ==> s.bonus == 0
    ensures 0 <= s.bonus <= 2
    ensures speedBonus ==>
              var total := Max(1, durationMs);
              var remaining := total - Clamp(elapsedMs, 0, total);
              && (s.bonus == 2 <==> 100 * remaining >= 67 * total)
              && (s.bonus >= 1 <==> 100 * remaining >= 34 * total)
  {
    var base := 1 + (if expertHard then 1 else 0) + (if modeBonus > 0 then modeBonus else 0);
    if !speedBonus then Score(base, 0)
    else
      var total := Max(1, durationMs);
      var remaining := total - Clamp(elapsedMs, 0, total);
      var bonus := if 100 * remaining >= 67 * total then 2 else if 100 * remaining >= 34 * total then 1 else 0;
      Score(base, bonus)
  }

  function Clamp(v: int, lo: int, hi: int): (r: int)
    requires lo <= hi
    ensures lo <= r <= hi
    ensures lo <= v <= hi ==> r == v
  {
    if v < lo then lo else if v > hi then hi else v
  }

  /** Answering later never earns a larger speed bonus; an instant answer
      earns the full +2 and one at or after the deadline earns nothing. */
  lemma SpeedBonusTiers(expertHard: bool, modeBonus: int, e1: int, e2: int, durationMs: int)
    requires e1 <= e2
    ensures ScoreForAnswer(true, expertHard, modeBonus, e1, durationMs).bonus >= ScoreForAnswer(true, expertHard, modeBonus, e2, durationMs).bonus
    ensures ScoreForAnswer(true, expertHard, modeBonus, 0, durationMs).bonus == 2
    ensures e2 >= durationMs >= 1 ==> ScoreForAnswer(true, expertHard, modeBonus, e2, durationMs).bonus == 0
  {
  }

  /** The tiers on a 30-second round: 21 s left earns +2, 20 s left (a
      fraction of two thirds, below 0.67) earns +1, 11 s left earns +1,
      and 10 s or 5 s left earn nothing. */
  lemma SpeedBonusOnThirtySeconds()
    ensures ScoreForAnswer(true, false, 0, 9000, 30000).bonus == 2
    ensures ScoreForAnswer(true, false, 0, 10000, 30000).bonus == 1
    ensures ScoreForAnswer(true, false, 0, 19000, 30000).bonus == 1
    ensures ScoreForAnswer(true, false, 0, 20000, 30000).bonus == 0
    ensures ScoreForAnswer(true, false, 0, 25000, 30000).bonus == 0
  {
  }

  /** `applyCorrectStreakBonus`: the streak grows by one and the bonus is
      `min(3, max(0, streak − 1))`. */
  function StreakBonus(streak: int): (r: (int, nat))
    ensures r.0 == streak + 1
    ensures r.1 <= 3
    ensures streak <= 0 ==> r.1 == 0
  {
    var current := streak + 1;
    (current, if current - 1 <= 0 then 0 else if current - 1 >= 3 then 3 else current - 1)
  }

  /** The streaks of `n` consecutive correct answers after a reset: the
      `k`-th one (counting from 1) earns `min(3, k − 1)`. */
  function StreakRun(n: nat): (bonuses: seq<nat>)
    ensures |bonuses| == n
  {
    if n == 0 then [] else StreakRun(n - 1) + [StreakBonus(n - 1).1]
  }

  lemma {:induction false} StreakRunBonuses(n: nat)
    ensures forall k :: 0 <= k < n ==> StreakRun(n)[k] == (if k >= 3 then 3 else k)
  {
    if n > 0 {
      StreakRunBonuses(n - 1);
    }
  }

  // ---------------------------------------------------------------- winner

  /** The team outcome of `computeWinnerState`: `None` is a draw. */
  function TeamWinner(scoreA: int, scoreB: int): (r: Option<Team>)
    ensures r.None? <==> scoreA == scoreB
    ensures r == Some(A) <==> scoreA > scoreB
    ensures r == Some(B) <==> scoreB > scoreA
  {
    if scoreA == scoreB then None else if scoreA > scoreB then Some(A) else Some(B)
  }

  /** A player's line in the free-for-all leaderboard. */
  datatype Standing = Standing(id: string, points: int)

  function TopPoints(board: seq<Standing>): (m: int)
    requires board != []
    ensures forall i :: 0 <= i < |board| ==> board[i].points <= m
    ensures exists i :: 0 <= i < |board| && board[i].points == m
  {
    if |board| == 1 then board[0].points
    else
      var rest := TopPoints(board[1..]);
      assert forall i :: 1 <= i < |board| ==> board[i].points == board[1..][i - 1].points;
      if board[0].points >= rest then board[0].points else rest
  }

  function TiedAt(board: seq<Standing>, points: int): (r: seq<string>)
    ensures forall x :: x in r <==> exists i :: 0 <= i < |board| && board[i].points == points && board[i].id == x
  {
    if board == [] then []
    else
      var rest := TiedAt(board[1..], points);
      assert forall i :: 1 <= i < |board| ==> board[i] == board[1..][i - 1];
      (if board[0].points == points then [board[0].id] else []) + rest
  }

  datatype FfaOutcome = FfaOutcome(winner: Option<string>, isDraw: bool, tied: seq<string>)

  /** The free-for-all outcome of `computeWinnerState`: the players with the
      top score are tied; one of them alone is the winner, two or more are
      a draw, and an empty leaderboard has neither. */
  function FfaWinner(board: seq<Standing>): (r: FfaOutcome)
    ensures board == [] ==> r == FfaOutcome(None, false, [])
    ensures board != [] ==> forall x :: x in r.tied <==>
      exists i :: 0 <= i < |board| && board[i].id == x && board[i].points == TopPoints(board)
    ensures r.winner.Some? <==> |r.tied| == 1
    ensures r.isDraw <==> |r.tied| > 1
    ensures r.winner.Some? ==> r.winner.value in r.tied
  {
    if board == [] then FfaOutcome(None, false, [])
    else
      var tied := TiedAt(board, TopPoints(board));
      FfaOutcome(if |tied| == 1 then Some(tied[0]) else None, |tied| > 1, tied)
  }

  // ---------------------------------------------------------------- start

  datatype StartError = NotHost | AlreadyStarted | TooFewPlayers | DuelNeedsPair | NeedBothTeams

  /** The checks of `host:startGame`, in the code's order. */
  function StartCheck(isHost: bool, status: Status, format: Format, duel: bool,
                      players: nat, popA: nat, popB: nat): (r: Option<StartError>)
    ensures r.None? <==>
      isHost && (status == Lobby || status == Finished) && players >= 2
      && (duel ==> players == 2 && popA == 1 && popB == 1)
      && (format == Teams ==> popA >= 1 && popB >= 1)
    ensures r == Some(NotHost) <==> !isHost
  {
    if !isHost then Some(NotHost)
    else if status == Preparing || status == Running || status == Paused then Some(AlreadyStarted)
    else
      assert status == Lobby || status == Finished;
      if players < 2 then Some(TooFewPlayers)
      else if duel && (players != 2 || popA != 1 || popB != 1) then Some(DuelNeedsPair)
      else if format == Teams && (popA < 1 || popB < 1) then Some(NeedBothTeams)
      else None
  }
}
