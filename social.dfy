/** The account side of the server (`server/database.js`): the rating
    change credited after a finished game, the six achievements, profile
    normalisation, the display name, and the friendship and game-invite
    tables.  The tables become a map keyed by the ordered pair of user ids
    and a sequence of invites, held by a `FriendStore` object whose methods
    are the request handlers; SQL, sessions and password hashing stay out. */
module Social {
  import opened Text
  import opened Generator

  // ---------------------------------------------------------------- rating

  /** What one player did in a finished game (`persistFinishedGame`'s per-player row). */
  datatype GameLine = GameLine(points: int, correct: int, wrong: int, timeouts: int, skips: int, isWinner: bool)

  /** `computeRatingDelta`: accumulated term by term, as the code does. */
  function RatingDelta(g: GameLine): (r: int)
    ensures r == 4 * g.points + 6 * g.correct - 2 * g.wrong - g.timeouts - g.skips + (if g.isWinner then 30 else 0)
  {
    var afterPoints := 0 + g.points * 4;
    var afterCorrect := afterPoints + g.correct * 6;
    var afterWrong := afterCorrect - g.wrong * 2;
    var afterTimeouts := afterWrong - g.timeouts;
    var afterSkips := afterTimeouts - g.skips;
    if g.isWinner then afterSkips + 30 else afterSkips
  }

  /** A win is worth exactly 30 rating points on top of the same game lost. */
  lemma WinWorthThirty(g: GameLine)
    ensures RatingDelta(g.(isWinner := true)) == RatingDelta(g.(isWinner := false)) + 30
  {
  }

  /** One more point or correct answer never lowers the delta; one more
      mistake, timeout or skip never raises it. */
  lemma RatingDeltaMonotone(g: GameLine, h: GameLine)
    requires g.isWinner == h.isWinner
    requires g.points <= h.points && g.correct <= h.correct
    requires g.wrong >= h.wrong && g.timeouts >= h.timeouts && g.skips >= h.skips
    ensures RatingDelta(g) <= RatingDelta(h)
  {
  }

  // ---------------------------------------------------------------- achievements

  datatype AccountStats = AccountStats(gamesPlayed: int, wins: int, rating: int)

  datatype Definition = Definition(key: string, title: string, description: string, value: int, target: int)

  datatype Achievement = Achievement(key: string, title: string, description: string,
                                     unlocked: bool, progress: int, target: int)

  /** The six achievement keys, in the order the profile shows them. */
  const AchievementKeys: seq<string> := ["starter", "winner", "strategist", "accuracy_80", "socializer", "veteran"]

  /** `games.reduce((best, item) => Math.max(best, item.accuracy), 0)`. */
  function MaxAccuracy(accuracies: seq<int>): (r: int)
    ensures r >= 0
    ensures forall i :: 0 <= i < |accuracies| ==> accuracies[i] <= r
    ensures r == 0 || r in accuracies
  {
    if accuracies == [] then 0
    else
      var best := MaxAccuracy(accuracies[..|accuracies| - 1]);
      var last := accuracies[|accuracies| - 1];
      if last > best then last else best
  }

  /** The definition table of `computeAchievements`. */
  function Definitions(stats: AccountStats, accuracies: seq<int>, friendsCount: int): (r: seq<Definition>)
    ensures |r| == |AchievementKeys|
    ensures forall i :: 0 <= i < |r| ==> r[i].key == AchievementKeys[i] && r[i].target >= 1
  {
    [ Definition("starter", "Первый матч", "Сыграйте первую игру", stats.gamesPlayed, 1),
      Definition("winner", "Первая победа", "Победите хотя бы в одном матче", stats.wins, 1),
      Definition("strategist", "Стратег", "Поднимите рейтинг до 1200", stats.rating, 1200),
      Definition("accuracy_80", "Снайпер", "Достигните точности 80% в одном матче", MaxAccuracy(accuracies), 80),
      Definition("socializer", "Командный игрок", "Добавьте 3 друзей", friendsCount, 3),
      Definition("veteran", "Ветеран", "Сыграйте 25 матчей", stats.gamesPlayed, 25) ]
  }

  /** `clamp(value, 0, target)`, the progress the profile shows. */
  function ClampedProgress(d: Definition): int {
    if d.value < 0 then 0 else if d.value > d.target then d.target else d.value
  }

  /** One definition turned into what the profile shows. */
  function Evaluate(d: Definition): (a: Achievement)
    requires d.target >= 1
    ensures a.key == d.key && a.target == d.target
    ensures 0 <= a.progress <= a.target
    ensures a.unlocked <==> d.value >= d.target
    ensures a.unlocked <==> a.progress == a.target
    ensures 0 <= d.value <= d.target ==> a.progress == d.value
    ensures d.value < 0 ==> a.progress == 0
    ensures d.value > d.target ==> a.progress == d.target
  {
    var capped := if d.target < d.value then d.target else d.value;
    var progress := if 0 > capped then 0 else capped;
    Achievement(d.key, d.title, d.description, d.value >= d.target, progress, d.target)
  }

  /** `computeAchievements`: the six fixed keys in order, each with its
      progress clamped into `[0, target]` and unlocked exactly when the
      counted value reaches the target. */
  function Achievements(stats: AccountStats, accuracies: seq<int>, friendsCount: int): (r: seq<Achievement>)
    ensures |r| == |AchievementKeys|
    ensures forall i :: 0 <= i < |r| ==> r[i].key == AchievementKeys[i]
    ensures forall i :: 0 <= i < |r| ==> 0 <= r[i].progress <= r[i].target
    ensures forall i :: 0 <= i < |r| ==>
              (r[i].unlocked <==> Definitions(stats, accuracies, friendsCount)[i].value >= r[i].target)
    ensures forall i :: 0 <= i < |r| ==>
              r[i].target == Definitions(stats, accuracies, friendsCount)[i].target
              && r[i].progress == ClampedProgress(Definitions(stats, accuracies, friendsCount)[i])
  {
    var defs := Definitions(stats, accuracies, friendsCount);
    seq(|defs|, i requires 0 <= i < |defs| => Evaluate(defs[i]))
  }

  /** A veteran has necessarily played a first game; "accuracy_80" is
      unlocked exactly when some game reached 80 percent. */
  lemma AchievementsConsistent(stats: AccountStats, accuracies: seq<int>, friendsCount: int)
    ensures var r := Achievements(stats, accuracies, friendsCount);
      && (r[5].unlocked ==> r[0].unlocked)
      && (r[3].unlocked <==> exists i :: 0 <= i < |accuracies| && accuracies[i] >= 80)
  {
    var r := Achievements(stats, accuracies, friendsCount);
    var defs := Definitions(stats, accuracies, friendsCount);
    assert r[3].unlocked <==> MaxAccuracy(accuracies) >= 80;
    if MaxAccuracy(accuracies) >= 80 {
      var i :| 0 <= i < |accuracies| && accuracies[i] == MaxAccuracy(accuracies);
    }
  }

  // ---------------------------------------------------------------- profile text

  /** `normalizeText(value, max)`: collapse whitespace, trim, cut to `max`. */
  function NormalizeText(s: string, max: nat): (r: string)
    ensures |r| <= max
    ensures r == [] <==> (max == 0 || Squish(s) == [])
    ensures r <= Squish(s) && |r| == if |Squish(s)| <= max then |Squish(s)| else max
  {
    SliceTo(Squish(s), max)
  }

  lemma NormalizeTextEmpty(s: string, max: nat)
    requires max > 0
    ensures NormalizeText(s, max) == [] <==> Squish(s) == []
  {
  }

  /** `normalizeLongText(value, max)`: trim and cut, inner whitespace kept. */
  function NormalizeLongText(s: string, max: nat): (r: string)
    ensures |r| <= max
    ensures r <= Trim(s) && |r| == if |Trim(s)| <= max then |Trim(s)| else max
  {
    SliceTo(Trim(s), max)
  }

  const DataImagePrefix := "data:image/"

  /** `normalizeAvatarValue`: an inline image may be long, a link may not. */
  function NormalizeAvatar(s: string): (r: string)
    ensures r <= Trim(s)
    ensures |r| <= 280000
    ensures !(DataImagePrefix <= Trim(s)) ==> |r| <= 400
    ensures var limit := if DataImagePrefix <= Trim(s) then 280000 else 400;
      |r| == if |Trim(s)| <= limit then |Trim(s)| else limit
  {
    var raw := Trim(s);
    if raw == [] then []
    else if DataImagePrefix <= raw then SliceTo(raw, 280000)
    else SliceTo(raw, 400)
  }

  /** The fields a user may send when editing a profile.  `age` is the
      value of `Number(payload.age)` when that is an integer, `None` otherwise. */
  datatype ProfilePayload = ProfilePayload(firstName: string, lastName: string, nickname: string,
                                           age: Option<int>, activity: string, avatarUrl: string, bio: string)

  datatype Profile = Profile(firstName: string, lastName: string, nickname: string,
                             age: Option<int>, activity: string, avatarUrl: string, bio: string)

  /** `a || b` on strings. */
  function OrElse(a: string, b: string): string {
    if a != [] then a else b
  }

  /** `sanitizeProfilePayload`: every field cut to its column width, an age
      kept only inside 8..120, and an empty first name or nickname replaced
      by the (normalised) account name. */
  function SanitizeProfile(p: ProfilePayload, fallbackUsername: string): (r: Profile)
    ensures |r.firstName| <= 40 && |r.lastName| <= 40 && |r.nickname| <= 40
    ensures |r.activity| <= 80 && |r.bio| <= 280 && |r.avatarUrl| <= 280000
    ensures r.age.Some? <==> p.age.Some? && 8 <= p.age.value <= 120
    ensures r.age.Some? ==> r.age == p.age
    ensures r.firstName == [] <==> Squish(p.firstName) == [] && Squish(fallbackUsername) == []
    ensures r.nickname == [] <==> Squish(p.nickname) == [] && Squish(fallbackUsername) == []
    ensures Squish(p.firstName) != [] ==> r.firstName == NormalizeText(p.firstName, 40)
    ensures Squish(p.firstName) == [] ==> r.firstName == NormalizeText(fallbackUsername, 40)
    ensures Squish(p.nickname) != [] ==> r.nickname == NormalizeText(p.nickname, 40)
    ensures Squish(p.nickname) == [] ==> r.nickname == NormalizeText(fallbackUsername, 40)
    ensures r.lastName == NormalizeText(p.lastName, 40) && r.activity == NormalizeText(p.activity, 80)
    ensures r.avatarUrl == NormalizeAvatar(p.avatarUrl) && r.bio == NormalizeLongText(p.bio, 280)
  {
    Profile(
      OrElse(NormalizeText(p.firstName, 40), NormalizeText(fallbackUsername, 40)),
      NormalizeText(p.lastName, 40),
      OrElse(NormalizeText(p.nickname, 40), NormalizeText(fallbackUsername, 40)),
      if p.age.Some? && 8 <= p.age.value <= 120 then p.age else None,
      NormalizeText(p.activity, 80),
      NormalizeAvatar(p.avatarUrl),
      NormalizeLongText(p.bio, 280))
  }

  /** The stored names of a user that the display name is built from. */
  datatype UserNames = UserNames(username: string, nickname: string, firstName: string, lastName: string)

  /** `buildDisplayName`: the nickname if there is one, else the non-empty of
      first and last name joined by a space, else the account name. */
  function DisplayName(u: UserNames): (r: string)
    ensures Squish(u.nickname) != [] ==> r == NormalizeText(u.nickname, 40)
    ensures Squish(u.nickname) == [] && Squish(u.firstName) != [] && Squish(u.lastName) != [] ==>
              r == NormalizeText(u.firstName, 40) + " " + NormalizeText(u.lastName, 40)
    ensures Squish(u.nickname) == [] && (Squish(u.firstName) != [] || Squish(u.lastName) != []) ==>
              r == FullName(NormalizeText(u.firstName, 40), NormalizeText(u.lastName, 40))
    ensures Squish(u.nickname) == [] && Squish(u.firstName) != [] && Squish(u.lastName) == [] ==>
              r == NormalizeText(u.firstName, 40)
    ensures Squish(u.nickname) == [] && Squish(u.firstName) == [] && Squish(u.lastName) != [] ==>
              r == NormalizeText(u.lastName, 40)
    ensures Squish(u.nickname) == [] && Squish(u.firstName) == [] && Squish(u.lastName) == [] ==> r == u.username
    ensures r == [] ==> u.username == []
    ensures r != u.username ==> |r| <= 81
  {
    NormalizeTextEmpty(u.nickname, 40);
    NormalizeTextEmpty(u.firstName, 40);
    NormalizeTextEmpty(u.lastName, 40);
    var nickname := NormalizeText(u.nickname, 40);
    if nickname != [] then nickname
    else
      var first := NormalizeText(u.firstName, 40);
      var last := NormalizeText(u.lastName, 40);
      var full := FullName(first, last);
      OrElse(full, u.username)
  }

  /** `parts.filter(Boolean)`. */
  function NonEmpty(parts: seq<string>): (r: seq<string>)
    ensures forall i :: 0 <= i < |r| ==> r[i] != []
  {
    if parts == [] then []
    else if parts[0] == [] then NonEmpty(parts[1..])
    else [parts[0]] + NonEmpty(parts[1..])
  }

  /** `[firstName, lastName].filter(Boolean).join(' ')`. */
  function FullName(first: string, last: string): (r: string)
    ensures r == if first != [] && last != [] then first + " " + last else if first != [] then first else last
  {
    NonEmptyPair(first, last);
    Join(NonEmpty([first, last]), " ")
  }

  lemma NonEmptyPair(a: string, b: string)
    ensures Join(NonEmpty([a, b]), " ") ==
      if a != [] && b != [] then a + " " + b else if a != [] then a else b
  {
    assert [a, b][1..] == [b];
    assert [b][1..] == [];
    assert NonEmpty([b]) == if b != [] then [b] else [];
  }

  // ---------------------------------------------------------------- friendships

  /** `makePair`: the row key of a friendship, the smaller id first. */
  datatype Pair = Pair(low: int, high: int)

  function MakePair(a: int, b: int): (r: Pair)
    ensures r.low <= r.high
    ensures (r.low == a && r.high == b) || (r.low == b && r.high == a)
  {
    Pair(if a < b then a else b, if a < b then b else a)
  }

  /** The pair does not depend on who asks. */
  lemma MakePairSymmetric(a: int, b: int)
    ensures MakePair(a, b) == MakePair(b, a)
  {
  }

  /** The `status` column of a friendship row. */
  datatype FriendStatus = Pending | Accepted | Rejected

  /** One row of the friendships table; the pair is the map key. */
  datatype Friendship = Friendship(id: nat, status: FriendStatus, requestedBy: int, createdAt: int, updatedAt: int)

  type Friendships = map<Pair, Friendship>

  /** How one user sees another (`resolveFriendshipStatus`). */
  datatype Relation = NoRelation | SelfRelation | Friends | PendingOutgoing | PendingIncoming

  /** Why a request was refused (the error messages the handlers return). */
  datatype Failure =
    | NotSignedIn | UserNotFound | SelfTarget | AlreadyFriends | AlreadyRequested
    | BadAction | BadRequestId | RequestNotFound | NoAccess | OwnRequest
    | NotFriends | MissingPin

  datatype Reply<T> = Ok(value: T) | Fail(failure: Failure)

  /** What the table always satisfies: rows are keyed by an ordered pair of
      two different users, every requester is one of the two, and ids are
      positive, below the next id and distinct. */
  predicate WellFormed(rows: Friendships, nextId: nat) {
    && nextId >= 1
    && (forall p :: p in rows ==> p.low < p.high)
    && (forall p :: p in rows ==> rows[p].requestedBy == p.low || rows[p].requestedBy == p.high)
    && (forall p :: p in rows ==> 1 <= rows[p].id < nextId)
    && (forall p, q :: p in rows && q in rows && p != q ==> rows[p].id != rows[q].id)
  }

  function StatusOf(rows: Friendships, viewer: int, target: int): (r: Relation)
    ensures r == SelfRelation <==> viewer != 0 && target != 0 && viewer == target
    ensures r == Friends <==>
              && viewer != 0 && target != 0 && viewer != target
              && MakePair(viewer, target) in rows
              && rows[MakePair(viewer, target)].status == Accepted
    ensures r == PendingOutgoing <==>
              && viewer != 0 && target != 0 && viewer != target
              && MakePair(viewer, target) in rows
              && rows[MakePair(viewer, target)].status == Pending
              && rows[MakePair(viewer, target)].requestedBy == viewer
  {
    if viewer == 0 || target == 0 then NoRelation
    else if viewer == target then SelfRelation
    else
      var key := MakePair(viewer, target);
      if key !in rows then NoRelation
      else if rows[key].status == Accepted then Friends
      else if rows[key].status == Pending then
        (if rows[key].requestedBy == viewer then PendingOutgoing else PendingIncoming)
      else NoRelation
  }

  /** A request one user sees as outgoing, the other sees as incoming. */
  lemma PendingSeenFromBothSides(rows: Friendships, nextId: nat, viewer: int, target: int)
    requires WellFormed(rows, nextId)
    ensures StatusOf(rows, viewer, target) == PendingOutgoing <==> StatusOf(rows, target, viewer) == PendingIncoming
  {
    MakePairSymmetric(viewer, target);
    var key := MakePair(viewer, target);
    if viewer != 0 && target != 0 && viewer != target && key in rows && rows[key].status == Pending {
      assert rows[key].requestedBy == viewer || rows[key].requestedBy == target;
    }
  }

  /** The outcome of `sendFriendRequest` as a function of the table. */
  function SendRequest(rows: Friendships, nextId: nat, viewer: Option<int>, target: Option<int>, ts: int)
    : (Reply<Relation>, Friendships, nat)
  {
    if viewer.None? then (Fail(NotSignedIn), rows, nextId)
    else if target.None? then (Fail(UserNotFound), rows, nextId)
    else if viewer.value == target.value then (Fail(SelfTarget), rows, nextId)
    else
      var v := viewer.value;
      var key := MakePair(v, target.value);
      if key !in rows then
        (Ok(PendingOutgoing), rows[key := Friendship(nextId, Pending, v, ts, ts)], nextId + 1)
      else
        var row := rows[key];
        if row.status == Accepted then (Fail(AlreadyFriends), rows, nextId)
        else if row.status == Pending then
          if row.requestedBy == v then (Fail(AlreadyRequested), rows, nextId)
          else (Ok(Friends), rows[key := row.(status := Accepted, requestedBy := v, updatedAt := ts)], nextId)
        else (Ok(PendingOutgoing), rows[key := row.(status := Pending, requestedBy := v, updatedAt := ts)], nextId)
  }

  /** The transition table of a friend request between two signed-in,
      different users: no row gives a new pending request by the viewer; a
      request pending from the other user is accepted; a request already
      pending from the viewer and an existing friendship are refused with
      no change; any other row becomes pending by the viewer.  Only the
      pair's row changes. */
  lemma SendRequestTable(rows: Friendships, nextId: nat, v: int, t: int, ts: int)
    requires v != t
    ensures var (reply, rows', nextId') := SendRequest(rows, nextId, Some(v), Some(t), ts);
      var key := MakePair(v, t);
      && key in rows'
      && (forall p :: p != key ==> (p in rows' <==> p in rows) && (p in rows ==> rows'[p] == rows[p]))
      && (key !in rows ==>
            reply == Ok(PendingOutgoing) && rows'[key] == Friendship(nextId, Pending, v, ts, ts) && nextId' == nextId + 1)
      && (key in rows && rows[key].status == Pending && rows[key].requestedBy != v ==>
            reply == Ok(Friends) && rows'[key].status == Accepted && rows'[key].id == rows[key].id)
      && (key in rows && rows[key].status == Pending && rows[key].requestedBy == v ==>
            reply == Fail(AlreadyRequested) && rows' == rows)
      && (key in rows && rows[key].status == Accepted ==> reply == Fail(AlreadyFriends) && rows' == rows)
      && (key in rows && rows[key].status == Rejected ==>
            reply == Ok(PendingOutgoing) && rows'[key].status == Pending && rows'[key].requestedBy == v
            && rows'[key].id == rows[key].id)
  {
  }

  /** A refused request changes nothing. */
  lemma SendFailureChangesNothing(rows: Friendships, nextId: nat, viewer: Option<int>, target: Option<int>, ts: int)
    ensures SendRequest(rows, nextId, viewer, target, ts).0.Fail? ==>
              SendRequest(rows, nextId, viewer, target, ts).1 == rows
              && SendRequest(rows, nextId, viewer, target, ts).2 == nextId
  {
  }

  /** The status a successful request reports is the status the viewer now
      sees for the target. */
  lemma SendReportsNewStatus(rows: Friendships, nextId: nat, v: int, t: int, ts: int)
    requires v != 0 && t != 0
    ensures var (reply, rows', _) := SendRequest(rows, nextId, Some(v), Some(t), ts);
      reply.Ok? ==> StatusOf(rows', v, t) == reply.value
  {
  }

  /** Two users asking each other become friends. */
  lemma MutualRequestsMakeFriends(rows: Friendships, nextId: nat, v: int, t: int, ts1: int, ts2: int)
    requires v != 0 && t != 0 && v != t
    requires MakePair(v, t) !in rows
    ensures var (_, rows1, nextId1) := SendRequest(rows, nextId, Some(v), Some(t), ts1);
      var (reply, rows2, _) := SendRequest(rows1, nextId1, Some(t), Some(v), ts2);
      reply == Ok(Friends) && StatusOf(rows2, v, t) == Friends && StatusOf(rows2, t, v) == Friends
  {
    MakePairSymmetric(v, t);
  }

  lemma SendKeepsWellFormed(rows: Friendships, nextId: nat, viewer: Option<int>, target: Option<int>, ts: int)
    requires WellFormed(rows, nextId)
    ensures var (_, rows', nextId') := SendRequest(rows, nextId, viewer, target, ts);
      WellFormed(rows', nextId')
  {
  }

  /** `String(action || '').trim().toLowerCase()` names one of the two answers. */
  function ParseAction(action: string): (r: Option<bool>)
    ensures r == Some(true) <==> Lower(Trim(action)) == "accept"
    ensures r == Some(false) <==> Lower(Trim(action)) == "decline"
  {
    var safe := Lower(Trim(action));
    if safe == "accept" then Some(true) else if safe == "decline" then Some(false) else None
  }

  /** The row a request id names, if it is still pending. */
  predicate PendingWithId(rows: Friendships, p: Pair, requestId: int) {
    p in rows && rows[p].id == requestId && rows[p].status == Pending
  }

  /** The outcome of `respondFriendRequest` as a function of the table. */
  ghost function RespondRequest(rows: Friendships, viewer: Option<int>, requestId: int, action: string, ts: int)
    : (Reply<FriendStatus>, Friendships)
  {
    if viewer.None? then (Fail(NotSignedIn), rows)
    else if ParseAction(action).None? then (Fail(BadAction), rows)
    else if requestId <= 0 then (Fail(BadRequestId), rows)
    else if !exists p :: PendingWithId(rows, p, requestId) then (Fail(RequestNotFound), rows)
    else
      var p :| PendingWithId(rows, p, requestId);
      var v := viewer.value;
      if p.low != v && p.high != v then (Fail(NoAccess), rows)
      else if rows[p].requestedBy == v then (Fail(OwnRequest), rows)
      else
        var next := if ParseAction(action) == Some(true) then Accepted else Rejected;
        (Ok(next), rows[p := rows[p].(status := next, updatedAt := ts)])
  }

  /** A response succeeds only on a pending request, only for the
      participant who did not send it, and accepts or rejects it as asked;
      every other outcome leaves the table as it was. */
  lemma RespondRules(rows: Friendships, nextId: nat, viewer: Option<int>, requestId: int, action: string, ts: int)
    requires WellFormed(rows, nextId)
    ensures var (reply, rows') := RespondRequest(rows, viewer, requestId, action, ts);
      && (reply.Fail? ==> rows' == rows)
      && (reply.Ok? ==>
            exists p :: PendingWithId(rows, p, requestId)
              && viewer.Some? && (viewer.value == p.low || viewer.value == p.high)
              && rows[p].requestedBy != viewer.value
              && rows' == rows[p := rows[p].(status := reply.value, updatedAt := ts)]
              && (reply.value == Accepted <==> ParseAction(action) == Some(true))
              && (reply.value == Rejected <==> ParseAction(action) == Some(false)))
  {
  }

  /** A request id names at most one row. */
  lemma PendingIdUnique(rows: Friendships, nextId: nat, p: Pair, q: Pair, requestId: int)
    requires WellFormed(rows, nextId)
    requires PendingWithId(rows, p, requestId) && PendingWithId(rows, q, requestId)
    ensures p == q
  {
  }

  lemma RespondKeepsWellFormed(rows: Friendships, nextId: nat, viewer: Option<int>, requestId: int, action: string, ts: int)
    requires WellFormed(rows, nextId)
    ensures WellFormed(RespondRequest(rows, viewer, requestId, action, ts).1, nextId)
  {
  }

  // ---------------------------------------------------------------- game invites

  /** A row of the game_invites table; new invites are always pending. */
  datatype GameInvite = GameInvite(from: int, to: int, pin: string, theme: string, message: string,
                                   createdAt: int, updatedAt: int)

  function KeepAsciiAlnum(s: string): (r: string)
    ensures |r| <= |s|
    ensures forall i :: 0 <= i < |r| ==> IsAsciiAlnum(r[i])
    ensures (forall i :: 0 <= i < |s| ==> IsAsciiAlnum(s[i])) ==> r == s
    ensures (forall i :: 0 <= i < |s| ==> !IsAsciiAlnum(s[i])) ==> r == []
  {
    if s == [] then []
    else if IsAsciiAlnum(s[0]) then [s[0]] + KeepAsciiAlnum(s[1..])
    else KeepAsciiAlnum(s[1..])
  }

  /** Filtering distributes over concatenation, so together with the two
      cases above it says which characters are kept: each ASCII letter or
      digit, in order, and nothing else. */
  lemma {:induction false} KeepAsciiAlnumAppend(a: string, b: string)
    ensures KeepAsciiAlnum(a + b) == KeepAsciiAlnum(a) + KeepAsciiAlnum(b)
    decreases |a|
  {
    if a == [] {
      assert a + b == b;
    } else {
      assert (a + b)[0] == a[0] && (a + b)[1..] == a[1..] + b;
      KeepAsciiAlnumAppend(a[1..], b);
    }
  }

  predicate IsPinChar(c: char) { ('A' <= c <= 'Z') || IsDigit(c) }

  /** The room pin an invite carries: only letters and digits, upper-cased,
      at most ten characters. */
  function NormalizePin(raw: string): (r: string)
    ensures |r| <= 10
    ensures forall i :: 0 <= i < |r| ==> IsPinChar(r[i])
    ensures |r| == if |KeepAsciiAlnum(raw)| <= 10 then |KeepAsciiAlnum(raw)| else 10
    ensures forall i :: 0 <= i < |r| ==> r[i] == UpperChar(KeepAsciiAlnum(raw)[i])
  {
    var kept := KeepAsciiAlnum(raw);
    var upper := Upper(kept);
    assert forall i :: 0 <= i < |upper| ==> IsPinChar(upper[i]) by {
      forall i | 0 <= i < |upper| ensures IsPinChar(upper[i]) {
        assert IsAsciiAlnum(kept[i]);
      }
    }
    SliceTo(upper, 10)
  }

  /** Normalising a normalised pin changes nothing. */
  lemma NormalizePinIdempotent(raw: string)
    ensures NormalizePin(NormalizePin(raw)) == NormalizePin(raw)
  {
    var pin := NormalizePin(raw);
    assert forall i :: 0 <= i < |pin| ==> IsAsciiAlnum(pin[i]) by {
      forall i | 0 <= i < |pin| ensures IsAsciiAlnum(pin[i]) {
        assert IsPinChar(pin[i]);
      }
    }
    assert KeepAsciiAlnum(pin) == pin;
    assert Upper(pin) == pin;
  }

  /** Why `sendGameInvite` refuses, checked in the handler's order: no
      session, no such user, oneself, not friends, a pin under 4
      characters; `None` when the invite is stored. */
  function InviteRefusal(rows: Friendships, viewer: Option<int>, target: Option<int>, rawPin: string): (r: Option<Failure>)
    ensures r.None? <==> viewer.Some? && target.Some? && viewer.value != target.value
                         && StatusOf(rows, viewer.value, target.value) == Friends && |NormalizePin(rawPin)| >= 4
    ensures r.Some? ==> r.value in {NotSignedIn, UserNotFound, SelfTarget, NotFriends, MissingPin}
  {
    if viewer.None? then Some(NotSignedIn)
    else if target.None? then Some(UserNotFound)
    else if viewer.value == target.value then Some(SelfTarget)
    else if StatusOf(rows, viewer.value, target.value) != Friends then Some(NotFriends)
    else if |NormalizePin(rawPin)| < 4 then Some(MissingPin)
    else None
  }

  /** The outcome of `sendGameInvite`: the new invites table. */
  function SendInvite(rows: Friendships, invites: seq<GameInvite>, viewer: Option<int>, target: Option<int>,
                      rawPin: string, rawTheme: string, rawMessage: string, ts: int)
    : (Reply<()>, seq<GameInvite>)
  {
    match InviteRefusal(rows, viewer, target, rawPin)
    case Some(failure) => (Fail(failure), invites)
    case None => (Ok(()), invites + [NewInvite(viewer.value, target.value, NormalizePin(rawPin), rawTheme, rawMessage, ts)])
  }

  /** The row an accepted invite stores: the theme squished and cut to 80
      characters, the message trimmed and cut to 240. */
  function NewInvite(from: int, to: int, pin: string, rawTheme: string, rawMessage: string, ts: int): GameInvite {
    GameInvite(from, to, pin, NormalizeText(rawTheme, 80), NormalizeLongText(rawMessage, 240), ts, ts)
  }

  /** An invite is stored only between friends and only with a usable pin
      of 4 to 10 letters and digits; otherwise nothing is stored. */
  lemma InviteRules(rows: Friendships, invites: seq<GameInvite>, viewer: Option<int>, target: Option<int>,
                    rawPin: string, rawTheme: string, rawMessage: string, ts: int)
    ensures var (reply, invites') := SendInvite(rows, invites, viewer, target, rawPin, rawTheme, rawMessage, ts);
      && (reply.Fail? ==> invites' == invites)
      && (reply.Ok? ==>
            && viewer.Some? && target.Some?
            && StatusOf(rows, viewer.value, target.value) == Friends
            && |invites'| == |invites| + 1 && invites'[..|invites|] == invites
            && var inv := invites'[|invites|];
               inv.from == viewer.value && inv.to == target.value
               && inv.pin == NormalizePin(rawPin) && 4 <= |inv.pin| <= 10)
  {
  }

  /** The friendship and invite tables, changed in place by the handlers. */
  class FriendStore {
    var friendships: Friendships
    var nextId: nat
    var invites: seq<GameInvite>

    ghost predicate Valid()
      reads this`friendships, this`nextId
    {
      WellFormed(friendships, nextId)
    }

    constructor ()
      ensures Valid() && friendships == map[] && nextId == 1 && invites == []
    {
      friendships := map[];
      nextId := 1;
      invites := [];
    }

    /** `resolveFriendshipStatus` against the current table. */
    function Status(viewer: int, target: int): (r: Relation)
      reads this
      ensures r == StatusOf(friendships, viewer, target)
    {
      StatusOf(friendships, viewer, target)
    }

    /** `sendFriendRequest`: inserts or updates the pair's row. */
    method SendFriendRequest(viewer: Option<int>, target: Option<int>, ts: int) returns (reply: Reply<Relation>)
      requires Valid()
      modifies this
      ensures Valid()
      ensures (reply, friendships, nextId) == SendRequest(old(friendships), old(nextId), viewer, target, ts)
      ensures invites == old(invites)
    {
      SendKeepsWellFormed(friendships, nextId, viewer, target, ts);
      if viewer.None? {
        return Fail(NotSignedIn);
      }
      if target.None? {
        return Fail(UserNotFound);
      }
      if viewer.value == target.value {
        return Fail(SelfTarget);
      }
      var v := viewer.value;
      var key := MakePair(v, target.value);
      if key !in friendships {
        friendships := friendships[key := Friendship(nextId, Pending, v, ts, ts)];
        nextId := nextId + 1;
        return Ok(PendingOutgoing);
      }
      var row := friendships[key];
      if row.status == Accepted {
        return Fail(AlreadyFriends);
      }
      if row.status == Pending {
        if row.requestedBy == v {
          return Fail(AlreadyRequested);
        }
        friendships := friendships[key := row.(status := Accepted, requestedBy := v, updatedAt := ts)];
        return Ok(Friends);
      }
      friendships := friendships[key := row.(status := Pending, requestedBy := v, updatedAt := ts)];
      reply := Ok(PendingOutgoing);
    }

    /** `respondFriendRequest`: accepts or declines a pending request by id. */
    method RespondFriendRequest(viewer: Option<int>, requestId: int, action: string, ts: int)
      returns (reply: Reply<FriendStatus>)
      requires Valid()
      modifies this
      ensures Valid()
      ensures (reply, friendships) == RespondRequest(old(friendships), viewer, requestId, action, ts)
      ensures nextId == old(nextId) && invites == old(invites)
    {
      RespondKeepsWellFormed(friendships, nextId, viewer, requestId, action, ts);
      if viewer.None? {
        return Fail(NotSignedIn);
      }
      var accept := ParseAction(action);
      if accept.None? {
        return Fail(BadAction);
      }
      if requestId <= 0 {
        return Fail(BadRequestId);
      }
      if !exists p :: p in friendships && PendingWithId(friendships, p, requestId) {
        return Fail(RequestNotFound);
      }
      var p :| p in friendships && PendingWithId(friendships, p, requestId);
      forall q | PendingWithId(friendships, q, requestId) ensures q == p {
        PendingIdUnique(friendships, nextId, p, q, requestId);
      }
      var v := viewer.value;
      if p.low != v && p.high != v {
        return Fail(NoAccess);
      }
      if friendships[p].requestedBy == v {
        return Fail(OwnRequest);
      }
      var next := if accept == Some(true) then Accepted else Rejected;
      friendships := friendships[p := friendships[p].(status := next, updatedAt := ts)];
      reply := Ok(next);
    }

    /** `sendGameInvite`: stores a pending invite between friends. */
    method SendGameInvite(viewer: Option<int>, target: Option<int>, rawPin: string, rawTheme: string,
                          rawMessage: string, ts: int) returns (reply: Reply<()>)
      requires Valid()
      modifies this
      ensures Valid()
      ensures (reply, invites) == SendInvite(old(friendships), old(invites), viewer, target, rawPin, rawTheme, rawMessage, ts)
      ensures friendships == old(friendships) && nextId == old(nextId)
    {
      var refusal := InviteRefusal(friendships, viewer, target, rawPin);
      if refusal.Some? {
        return Fail(refusal.value);
      }
      var invite := NewInvite(viewer.value, target.value, NormalizePin(rawPin), rawTheme, rawMessage, ts);
      invites := invites + [invite];
      reply := Ok(());
    }
  }
}
