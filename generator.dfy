/** The deterministic list and record operations of the question pipeline
    (server/questionGenerator.js): input normalisation, candidate
    validation, the difficulty curve, deduplicating pushes, top-N picking,
    cross-team harmonisation, option assembly, sentence compaction, fact
    rotation and provider ordering. */
module Generator {
  import opened Text
  import opened Quiz

  datatype Option<T> = None | Some(value: T)

  // ---------------------------------------------------------------------
  // Configuration values

  /** `clampNumber`: a value that is not a finite number (None) yields the
      fallback; any other value is clamped, the upper bound applied last. */
  function ClampNumber(value: Option<int>, fallback: int, min: int, max: int): (r: int)
    ensures value.None? ==> r == fallback
    ensures value.Some? && min <= max ==> min <= r <= max
    ensures value.Some? && min <= value.value <= max ==> r == value.value
    ensures value.Some? && value.value > max ==> r == max
    ensures value.Some? && value.value < min ==> r == (if min <= max then min else max)
  {
    match value
    case None => fallback
    case Some(v) =>
      var lowered := if v < min then min else v;
      if lowered < max then lowered else max
  }

  datatype AiMode = Auto | Free | OpenAiMode | YandexMode | GigaChatMode | Hybrid | Synthetic
  datatype Tone = Balanced | Fun | Challenge
  datatype DifficultyMode = Mixed | Fixed(level: Difficulty)

  function AiModeName(m: AiMode): string {
    match m
    case Auto => "auto"
    case Free => "free"
    case OpenAiMode => "openai"
    case YandexMode => "yandex"
    case GigaChatMode => "gigachat"
    case Hybrid => "hybrid"
    case Synthetic => "synthetic"
  }

  /** The mode a cleaned key names; every other key means `hybrid`. */
  function ParseAiMode(key: string): (r: AiMode)
    ensures key == AiModeName(r) || r == Hybrid
  {
    if key == "auto" then Auto
    else if key == "free" then Free
    else if key == "openai" then OpenAiMode
    else if key == "yandex" then YandexMode
    else if key == "gigachat" then GigaChatMode
    else if key == "synthetic" then Synthetic
    else Hybrid
  }

  /** `normalizeAiMode`: trimmed, lower-cased, unknown names become `hybrid`. */
  function NormalizeAiMode(raw: string): (r: AiMode)
    ensures Lower(Trim(raw)) == AiModeName(r) || r == Hybrid
  {
    ParseAiMode(Lower(Trim(raw)))
  }

  lemma NormalizeAiModeRoundTrip(m: AiMode)
    ensures NormalizeAiMode(AiModeName(m)) == m
  {
    CanonicalKey(AiModeName(m));
    ParseAiModeRoundTrip(m);
  }

  lemma ParseAiModeRoundTrip(m: AiMode)
    ensures ParseAiMode(AiModeName(m)) == m
  {
    match m
    case Auto =>
    case Free =>
    case OpenAiMode =>
    case YandexMode =>
    case GigaChatMode =>
    case Hybrid =>
    case Synthetic =>
  }

  predicate IsLowerAsciiWord(s: string) {
    s != [] && forall i :: 0 <= i < |s| ==> 'a' <= s[i] <= 'z'
  }

  /** A lower-case ASCII word is its own key. */
  lemma CanonicalKey(s: string)
    requires IsLowerAsciiWord(s)
    ensures Lower(Trim(s)) == s
  {
    WordTrimsToItself(s);
    WordLowersToItself(s);
  }

  lemma WordTrimsToItself(s: string)
    requires IsLowerAsciiWord(s)
    ensures Trim(s) == s
  {
    assert !IsSpace(s[0]);
    assert TrimStart(s) == s;
    assert !IsSpace(s[|s| - 1]);
  }

  lemma WordLowersToItself(s: string)
    requires IsLowerAsciiWord(s)
    ensures Lower(s) == s
  {
    var l := Lower(s);
    assert forall i :: 0 <= i < |s| ==> l[i] == s[i];
  }

  function ToneName(t: Tone): string {
    match t
    case Balanced => "balanced"
    case Fun => "fun"
    case Challenge => "challenge"
  }

  /** The tone a cleaned key names; every other key means `balanced`. */
  function ParseTone(key: string): (r: Tone)
    ensures key == ToneName(r) || r == Balanced
  {
    if key == "fun" then Fun else if key == "challenge" then Challenge else Balanced
  }

  /** `normalizeTone`: unknown names become `balanced`. */
  function NormalizeTone(raw: string): (r: Tone)
    ensures Lower(Trim(raw)) == ToneName(r) || r == Balanced
  {
    ParseTone(Lower(Trim(raw)))
  }

  lemma NormalizeToneRoundTrip(t: Tone)
    ensures NormalizeTone(ToneName(t)) == t
  {
    CanonicalKey(ToneName(t));
    ParseToneRoundTrip(t);
  }

  lemma ParseToneRoundTrip(t: Tone)
    ensures ParseTone(ToneName(t)) == t
  {
    match t
    case Balanced =>
    case Fun =>
    case Challenge =>
  }

  function DifficultyName(d: Difficulty): string {
    match d
    case Easy => "easy"
    case Medium => "medium"
    case Hard => "hard"
  }

  /** `normalizeDifficultyMode`: unknown names become `mixed`. */
  function NormalizeDifficultyMode(raw: string): (r: DifficultyMode)
    ensures r.Fixed? ==> Lower(Trim(raw)) == DifficultyName(r.level)
    ensures r.Mixed? <==> Lower(Trim(raw)) !in {"easy", "medium", "hard"}
  {
    var key := Lower(Trim(raw));
    if key == "easy" then Fixed(Easy)
    else if key == "medium" then Fixed(Medium)
    else if key == "hard" then Fixed(Hard)
    else Mixed
  }

  /** A difficulty's own name normalises back to that fixed difficulty. */
  lemma NormalizeDifficultyModeRoundTrip(d: Difficulty)
    ensures NormalizeDifficultyMode(DifficultyName(d)) == Fixed(d)
  {
    var name := DifficultyName(d);
    CanonicalKey(name);
    assert Lower(Trim(name)) == name;
  }

  /** The content packs the generator knows (`modeLabelMap`). */
  predicate IsKnownPack(key: string) {
    key in {"capitals", "flags", "equations", "dice", "colors", "timer", "blitz", "expert"}
  }

  function CleanKeys(raw: seq<string>): (r: seq<string>)
    ensures |r| == |raw|
    ensures forall i :: 0 <= i < |raw| ==> r[i] == Lower(Trim(raw[i]))
  {
    if raw == [] then [] else [Lower(Trim(raw[0]))] + CleanKeys(raw[1..])
  }

  /** The entries of `keys` from position `from` on that are known packs
      and occur for the first time (`list.indexOf(item) === index`). */
  function FirstKnown(keys: seq<string>, from: nat): (r: seq<string>)
    requires from <= |keys|
    ensures forall x :: x in r ==> IsKnownPack(x) && x in keys[from..]
    ensures forall x :: x in r ==> x !in keys[..from]
    ensures forall i, j :: 0 <= i < j < |r| ==> r[i] != r[j]
    ensures forall i :: from <= i < |keys| && IsKnownPack(keys[i]) && keys[i] !in keys[..i] ==> keys[i] in r
    decreases |keys| - from
  {
    if from == |keys| then []
    else
      var rest := FirstKnown(keys, from + 1);
      assert keys[..from + 1] == keys[..from] + [keys[from]];
      if IsKnownPack(keys[from]) && keys[from] !in keys[..from] then [keys[from]] + rest else rest
  }

  /** `r` lists entries of `keys` in the order of their first occurrence:
      wherever a later entry of `r` occurs in `keys`, every earlier entry of
      `r` has already occurred. */
  predicate FirstSeenOrder(r: seq<string>, keys: seq<string>) {
    forall i, j :: 0 <= i < j < |r| ==> forall k :: 0 <= k < |keys| && keys[k] == r[j] ==> r[i] in keys[..k]
  }

  /** The kept packs come in the order of their first occurrence. */
  lemma {:induction false} FirstKnownOrdered(keys: seq<string>, from: nat)
    requires from <= |keys|
    ensures FirstSeenOrder(FirstKnown(keys, from), keys)
    decreases |keys| - from
  {
    if from < |keys| {
      FirstKnownOrdered(keys, from + 1);
      var rest := FirstKnown(keys, from + 1);
      if IsKnownPack(keys[from]) && keys[from] !in keys[..from] {
        assert keys[..from + 1] == keys[..from] + [keys[from]];
        OrderCons(keys, from, rest);
        assert FirstKnown(keys, from) == [keys[from]] + rest;
      } else {
        assert FirstKnown(keys, from) == rest;
      }
    }
  }

  /** Putting the entry at `from` before packs first met after it keeps the
      order of first occurrence. */
  lemma OrderCons(keys: seq<string>, from: nat, rest: seq<string>)
    requires from < |keys|
    requires forall x :: x in rest ==> x !in keys[..from + 1]
    requires FirstSeenOrder(rest, keys)
    ensures FirstSeenOrder([keys[from]] + rest, keys)
  {
    FirstBeforeRest(keys, from, rest);
    var r := [keys[from]] + rest;
    assert forall j :: 0 < j < |r| ==> r[j] == rest[j - 1] && r[j] in rest;
  }

  /** Every occurrence of a pack first met after position `from` lies past
      `from`, so the entry at `from` comes before it. */
  lemma FirstBeforeRest(keys: seq<string>, from: nat, rest: seq<string>)
    requires from < |keys|
    requires forall x :: x in rest ==> x !in keys[..from + 1]
    ensures forall x, k :: x in rest && 0 <= k < |keys| && keys[k] == x ==> keys[from] in keys[..k]
  {
    forall x, k | x in rest && 0 <= k < |keys| && keys[k] == x
      ensures keys[from] in keys[..k]
    {
      assert keys[..k][from] == keys[from];
    }
  }

  /** `normalizeModes`: a list of known pack ids without repetitions, in
      order of first occurrence; anything that is not a list gives []. */
  function NormalizeModes(raw: Option<seq<string>>): (r: seq<string>)
    ensures forall i, j :: 0 <= i < j < |r| ==> r[i] != r[j]
    ensures forall x :: x in r ==> IsKnownPack(x)
    ensures raw.Some? ==> forall x :: x in r <==> IsKnownPack(x) && x in CleanKeys(raw.value)
    ensures raw.Some? ==> FirstSeenOrder(r, CleanKeys(raw.value))
  {
    match raw
    case None => []
    case Some(list) =>
      var keys := CleanKeys(list);
      FirstKnownComplete(keys);
      FirstKnownOrdered(keys, 0);
      FirstKnown(keys, 0)
  }

  lemma FirstKnownComplete(keys: seq<string>)
    ensures forall x :: IsKnownPack(x) && x in keys ==> x in FirstKnown(keys, 0)
  {
    var r := FirstKnown(keys, 0);
    forall x | IsKnownPack(x) && x in keys ensures x in r {
      var i :| 0 <= i < |keys| && keys[i] == x;
      FirstOccurrence(keys, i);
      var k :| 0 <= k <= i && keys[k] == keys[i] && keys[k] !in keys[..k];
      assert keys[k] in r;
    }
  }

  /** Every element of a list has a first occurrence. */
  lemma {:induction false} FirstOccurrence(keys: seq<string>, i: nat)
    requires i < |keys|
    ensures exists k :: 0 <= k <= i && keys[k] == keys[i] && keys[k] !in keys[..k]
    decreases i
  {
    if keys[i] in keys[..i] {
      var k :| 0 <= k < i && keys[k] == keys[i];
      FirstOccurrence(keys, k);
    } else {
      assert keys[i] !in keys[..i];
    }
  }

  const DefaultTheme: string := "Общая эрудиция"

  /** `normalizeTheme`: whitespace squeezed, at most 120 characters, never empty. */
  function NormalizeTheme(theme: string): (r: string)
    ensures r != [] && |r| <= 120
    ensures SliceTo(Squish(theme), 120) != [] ==> r == SliceTo(Squish(theme), 120)
  {
    var safe := SliceTo(Squish(theme), 120);
    if safe == [] then DefaultTheme else safe
  }

  // ---------------------------------------------------------------------
  // Candidate validation

  /** A candidate as a provider returns it, after JSON parsing.  `options`
      is None when the field is not an array; `correctIndex` is None when
      `Number(item.correctIndex)` is not an integer; missing strings are "". */
  datatype RawQuestion = RawQuestion(
    id: string,
    question: string,
    options: Option<seq<string>>,
    correctIndex: Option<int>,
    difficulty: string,
    explanation: string)

  const DefaultExplanation: string := "Правильный ответ подтверждается фактом из источников по теме."

  function CleanOption(o: string): (r: string)
    ensures |r| <= 180
  {
    SliceTo(Squish(o), 180)
  }

  /** The normalised options: cleaned, empty ones dropped, at most four kept. */
  function CleanOptions(raw: seq<string>, keep: nat): (r: seq<string>)
    ensures |r| <= keep
    ensures forall i :: 0 <= i < |r| ==> r[i] != [] && |r[i]| <= 180
    ensures |r| < keep ==> forall x {:trigger CleanOption(x) in r} :: x in raw && CleanOption(x) != [] ==> CleanOption(x) in r
  {
    if raw == [] || keep == 0 then []
    else
      var o := CleanOption(raw[0]);
      if o == [] then CleanOptions(raw[1..], keep)
      else [o] + CleanOptions(raw[1..], keep - 1)
  }

  predicate DistinctIgnoringCase(opts: seq<string>) {
    forall i, j :: 0 <= i < j < |opts| ==> Lower(opts[i]) != Lower(opts[j])
  }

  /** The question's own difficulty when its lower-cased text names a level,
      otherwise the hint. */
  function ParseDifficulty(raw: string, hint: Difficulty): (r: Difficulty)
    ensures Lower(raw) == "easy" ==> r == Easy
    ensures Lower(raw) == "medium" ==> r == Medium
    ensures Lower(raw) == "hard" ==> r == Hard
    ensures Lower(raw) !in {"easy", "medium", "hard"} ==> r == hint
  {
    var key := Lower(raw);
    if key == "easy" then Easy else if key == "medium" then Medium else if key == "hard" then Hard else hint
  }

  /** `normalizeQuestion`: None unless the squeezed prompt (cut to 240) has
      at least 16 characters and there are exactly four non-empty options,
      distinct ignoring case; an out-of-range correct index becomes 0 and an
      empty explanation the stock one. */
  function NormalizeQuestion(item: Option<RawQuestion>, fallbackId: string, hint: Difficulty): (r: Option<Question>)
    ensures r.Some? <==>
      item.Some?
      && |SliceTo(Squish(item.value.question), 240)| >= 16
      && |CleanOptions(if item.value.options.Some? then item.value.options.value else [], 4)| == 4
      && DistinctIgnoringCase(CleanOptions(if item.value.options.Some? then item.value.options.value else [], 4))
    ensures r.Some? ==>
      var q := r.value;
      && 16 <= |q.prompt| <= 240
      && |q.options| == 4 && DistinctIgnoringCase(q.options)
      && (forall i :: 0 <= i < 4 ==> q.options[i] != [] && |q.options[i]| <= 180)
      && 0 <= q.correctIndex <= 3
      && ((item.value.correctIndex.Some? && 0 <= item.value.correctIndex.value <= 3)
            ==> q.correctIndex == item.value.correctIndex.value)
      && q.explanation != [] && |q.explanation| <= 320
      && |q.id| <= 80
    ensures r.Some? ==>
      var it := item.value;
      var q := r.value;
      && q.prompt == SliceTo(Squish(it.question), 240)
      && q.options == CleanOptions(if it.options.Some? then it.options.value else [], 4)
      && (!(it.correctIndex.Some? && 0 <= it.correctIndex.value <= 3) ==> q.correctIndex == 0)
      && (Squish(it.explanation) != [] ==> q.explanation == SliceTo(Squish(it.explanation), 320))
      && (Squish(it.explanation) == [] ==> q.explanation == DefaultExplanation)
      && q.id == SliceTo(if it.id != [] then it.id else fallbackId, 80)
      && q.difficulty == ParseDifficulty(it.difficulty, hint)
  {
    match item
    case None => None
    case Some(it) =>
      var prompt := SliceTo(Squish(it.question), 240);
      var options := CleanOptions(if it.options.Some? then it.options.value else [], 4);
      if |prompt| < 16 || |options| != 4 then None
      else if !DistinctIgnoringCase(options) then None
      else
        var ci := if it.correctIndex.Some? && 0 <= it.correctIndex.value <= 3 then it.correctIndex.value else 0;
        var explanation := SliceTo(Squish(it.explanation), 320);
        Some(Question(
          SliceTo(if it.id != [] then it.id else fallbackId, 80),
          prompt,
          options,
          ci,
          if explanation != [] then explanation else DefaultExplanation,
          ParseDifficulty(it.difficulty, hint)))
  }

  /** Every option is non-empty and comes through cleaning unchanged. */
  predicate AllClean(raw: seq<string>) {
    raw == [] || (raw[0] != [] && CleanOption(raw[0]) == raw[0] && AllClean(raw[1..]))
  }

  /** Cleaning options that are already clean and no more than `keep`
      changes nothing. */
  lemma {:induction false} CleanOptionsOfClean(raw: seq<string>, keep: nat)
    requires |raw| <= keep && AllClean(raw)
    ensures CleanOptions(raw, keep) == raw
  {
    if raw != [] {
      var head, tail, k := raw[0], raw[1..], keep - 1;
      CleanOptionsOfClean(tail, k);
      CleanOptionsUnfold(raw, keep);
      ConsOfTail(raw);
      SameCons(CleanOption(head), head, CleanOptions(tail, k), tail);
    }
  }

  lemma SameCons(a: string, b: string, x: seq<string>, y: seq<string>)
    requires a == b && x == y
    ensures [a] + x == [b] + y
  {
  }

  lemma ConsOfTail(s: seq<string>)
    requires s != []
    ensures [s[0]] + s[1..] == s
  {
  }

  /** One step of `CleanOptions` on a first option that survives cleaning. */
  lemma CleanOptionsUnfold(raw: seq<string>, keep: nat)
    requires raw != [] && keep > 0 && CleanOption(raw[0]) != []
    ensures CleanOptions(raw, keep) == [CleanOption(raw[0])] + CleanOptions(raw[1..], keep - 1)
  {
  }

  /** A question whose four options are already clean and distinct keeps
      them in place, so a valid correct index still names the same answer
      text after normalisation. */
  lemma NormalizeQuestionKeepsAnswer(it: RawQuestion, fallbackId: string, hint: Difficulty)
    requires it.options.Some? && |it.options.value| == 4
    requires AllClean(it.options.value)
    requires DistinctIgnoringCase(it.options.value)
    requires |SliceTo(Squish(it.question), 240)| >= 16
    requires it.correctIndex.Some? && 0 <= it.correctIndex.value <= 3
    ensures var r := NormalizeQuestion(Some(it), fallbackId, hint);
      r.Some? && r.value.options == it.options.value
      && r.value.options[r.value.correctIndex] == it.options.value[it.correctIndex.value]
  {
    CleanOptionsOfClean(it.options.value, 4);
  }

  // ---------------------------------------------------------------------
  // Difficulty curve

  /** `getDifficulty`: a fixed mode is returned as is; the mixed mode maps the
      position ratio (index + 1) / max(1, count) onto easy, medium, hard with
      thresholds that depend on the tone.  The ratio comparisons are exact. */
  function GetDifficulty(index: nat, count: int, tone: Tone, mode: DifficultyMode): (r: Difficulty)
    ensures mode.Fixed? ==> r == mode.level
  {
    if mode.Fixed? then mode.level
    else
      var c := if count > 1 then count else 1;
      var pos := 100 * (index + 1);
      match tone
      case Challenge => if pos <= 20 * c then Easy else if pos <= 55 * c then Medium else Hard
      case Fun => if pos <= 50 * c then Easy else if pos <= 86 * c then Medium else Hard
      case Balanced => if pos <= 34 * c then Easy else if pos <= 74 * c then Medium else Hard
  }

  /** In the mixed mode difficulty never drops as the index grows. */
  lemma DifficultyNonDecreasing(i: nat, j: nat, count: int, tone: Tone)
    requires i <= j
    ensures Rank(GetDifficulty(i, count, tone, Mixed)) <= Rank(GetDifficulty(j, count, tone, Mixed))
  {
  }

  /** The last question of a mixed set is hard and the first of a set of
      five or more is easy, for every tone. */
  lemma DifficultyEnds(count: nat, tone: Tone)
    requires count >= 5
    ensures GetDifficulty(count - 1, count, tone, Mixed) == Hard
    ensures GetDifficulty(0, count, tone, Mixed) == Easy
  {
  }

  // ---------------------------------------------------------------------
  // Deduplicating pushes

  /** `uniquePush`: appends the question and records its lower-cased prompt
      when that prompt is new; says whether it did. */
  method UniquePush(target: seq<Question>, q: Question, used: set<string>)
    returns (pushed: bool, target': seq<Question>, used': set<string>)
    ensures pushed <==> PromptKey(q) !in used
    ensures pushed ==> target' == target + [q] && used' == used + {PromptKey(q)}
    ensures !pushed ==> target' == target && used' == used
  {
    var key := Lower(q.prompt);
    if key in used {
      return false, target, used;
    }
    return true, target + [q], used + {key};
  }

  /** "Every key of the list is recorded and none repeats" survives a push. */
  lemma UniquePushKeepsIndex(target: seq<Question>, q: Question, used: set<string>)
    requires DistinctKeys(ByPrompt, target) && KeysOf(ByPrompt, target) <= used
    ensures PromptKey(q) !in used ==>
      DistinctKeys(ByPrompt, target + [q]) && KeysOf(ByPrompt, target + [q]) <= used + {PromptKey(q)}
  {
    if PromptKey(q) !in used {
      DistinctKeysSnoc(ByPrompt, target, q);
      var t := target + [q];
      forall k | k in KeysOf(ByPrompt, t) ensures k in used + {PromptKey(q)} {
        var i :| 0 <= i < |t| && KeyOf(ByPrompt, t[i]) == k;
        if i < |target| {
          assert t[i] == target[i];
        }
      }
    }
  }

  /** The loop shared by `pushUniqueByQuestion` and the first loop of
      `harmonizeTeamSets`: walking the items in order, keep each one whose
      key is non-empty and not yet seen, and add its key to the seen set.
      The result is the kept items and the final seen set. */
  function FreshFold(kind: KeyKind, items: seq<Question>, seen: set<string>): (seq<Question>, set<string>)
    decreases |items|
  {
    if items == [] then ([], seen)
    else
      var (kept, seen') := FreshFold(kind, items[..|items| - 1], seen);
      var x := items[|items| - 1];
      var k := KeyOf(kind, x);
      if k == [] || k in seen' then (kept, seen') else (kept + [x], seen' + {k})
  }

  /** What the fold keeps: items of the list, with distinct non-empty keys
      that were not seen before; afterwards every non-empty key of the list
      has been seen. */
  lemma {:induction false} FreshFoldSound(kind: KeyKind, items: seq<Question>, seen: set<string>)
    ensures var (kept, seen') := FreshFold(kind, items, seen);
      && DistinctKeys(kind, kept)
      && seen <= seen'
      && (forall i :: 0 <= i < |kept| ==>
            KeyOf(kind, kept[i]) != [] && KeyOf(kind, kept[i]) !in seen && KeyOf(kind, kept[i]) in seen')
      && (forall i :: 0 <= i < |kept| ==> kept[i] in items)
      && (forall i :: 0 <= i < |items| && KeyOf(kind, items[i]) != [] ==> KeyOf(kind, items[i]) in seen')
  {
    FreshFoldKeys(kind, items, seen);
    FreshFoldCovers(kind, items, seen);
  }

  lemma {:induction false} FreshFoldKeys(kind: KeyKind, items: seq<Question>, seen: set<string>)
    ensures var (kept, seen') := FreshFold(kind, items, seen);
      && DistinctKeys(kind, kept)
      && seen <= seen'
      && (forall i :: 0 <= i < |kept| ==>
            KeyOf(kind, kept[i]) != [] && KeyOf(kind, kept[i]) !in seen && KeyOf(kind, kept[i]) in seen')
    decreases |items|
  {
    if items != [] {
      var init := items[..|items| - 1];
      FreshFoldKeys(kind, init, seen);
      var (kept, seen') := FreshFold(kind, init, seen);
      var x := items[|items| - 1];
      var k := KeyOf(kind, x);
      if k != [] && k !in seen' {
        DistinctKeysSnoc(kind, kept, x);
        var kept2 := kept + [x];
        assert forall i :: 0 <= i < |kept| ==> kept2[i] == kept[i];
      }
    }
  }

  lemma FreshFoldCovers(kind: KeyKind, items: seq<Question>, seen: set<string>)
    ensures var (kept, seen') := FreshFold(kind, items, seen);
      && (forall i :: 0 <= i < |kept| ==> kept[i] in items)
      && (forall i :: 0 <= i < |items| && KeyOf(kind, items[i]) != [] ==> KeyOf(kind, items[i]) in seen')
  {
    var kept := FreshFold(kind, items, seen).0;
    forall i | 0 <= i < |kept| ensures kept[i] in items {
      FreshFoldKeptIn(kind, items, seen, kept[i]);
    }
    forall i | 0 <= i < |items| && KeyOf(kind, items[i]) != [] ensures KeyOf(kind, items[i]) in FreshFold(kind, items, seen).1 {
      FreshFoldSees(kind, items, seen, items[i]);
    }
  }

  /** The fold keeps only items of the list. */
  lemma {:induction false} FreshFoldKeptIn(kind: KeyKind, items: seq<Question>, seen: set<string>, q: Question)
    requires q in FreshFold(kind, items, seen).0
    ensures q in items
    decreases |items|
  {
    var init := items[..|items| - 1];
    var x := items[|items| - 1];
    var kept := FreshFold(kind, init, seen).0;
    assert FreshFold(kind, items, seen).0 in {kept, kept + [x]};
    if q != x {
      assert q in kept;
      FreshFoldKeptIn(kind, init, seen, q);
    }
  }

  /** The fold sees every non-empty key of the list. */
  lemma {:induction false} FreshFoldSees(kind: KeyKind, items: seq<Question>, seen: set<string>, q: Question)
    requires q in items && KeyOf(kind, q) != []
    ensures KeyOf(kind, q) in FreshFold(kind, items, seen).1
    decreases |items|
  {
    var init := items[..|items| - 1];
    var x := items[|items| - 1];
    assert items == init + [x];
    var seen' := FreshFold(kind, init, seen).1;
    var k := KeyOf(kind, x);
    FreshFoldStep(kind, items, |items| - 1, seen);
    assert items[..|items|] == items;
    assert FreshFold(kind, items, seen).1 == if k == [] || k in seen' then seen' else seen' + {k};
    if q != x {
      FreshFoldSees(kind, init, seen, q);
    }
  }

  /** One more item of the list: the fold either skips it or keeps it. */
  lemma FreshFoldStep(kind: KeyKind, items: seq<Question>, i: nat, seen: set<string>)
    requires i < |items|
    ensures var (kept, seen') := FreshFold(kind, items[..i], seen);
      var k := KeyOf(kind, items[i]);
      FreshFold(kind, items[..i + 1], seen) == if k == [] || k in seen' then (kept, seen') else (kept + [items[i]], seen' + {k})
  {
    assert items[..i + 1][..i] == items[..i];
  }

  /** `pushUniqueByQuestion`: appends to `target` the items the fold keeps,
      starting from the target's own lower-cased prompts. */
  method PushUniqueByQuestion(target: seq<Question>, items: seq<Question>) returns (r: seq<Question>)
    ensures r == target + FreshFold(ByPrompt, items, KeysOf(ByPrompt, target)).0
    ensures DistinctKeys(ByPrompt, target) ==> DistinctKeys(ByPrompt, r)
    ensures forall i :: |target| <= i < |r| ==> r[i] in items
  {
    var seen := KeysOf(ByPrompt, target);
    ghost var kept: seq<Question> := [];
    r := target;
    var i := 0;
    while i < |items|
      invariant 0 <= i <= |items|
      invariant (kept, seen) == FreshFold(ByPrompt, items[..i], KeysOf(ByPrompt, target))
      invariant r == target + kept
    {
      var item := items[i];
      var key := Lower(item.prompt);
      assert items[..i + 1][..i] == items[..i];
      if key != [] && key !in seen {
        seen := seen + {key};
        kept := kept + [item];
        r := r + [item];
      }
      i := i + 1;
    }
    assert items[..|items|] == items;
    FreshFoldSound(ByPrompt, items, KeysOf(ByPrompt, target));
    assert forall j :: 0 <= j < |kept| ==> r[|target| + j] == kept[j];
    if DistinctKeys(ByPrompt, target) {
      DistinctKeysAppend(ByPrompt, target, kept);
    }
  }

  // ---------------------------------------------------------------------
  // Top-N picking

  /** A pooled candidate and its quality score (`_quality`, 0 when absent). */
  datatype Scored = Scored(q: Question, quality: int)

  predicate SortedDesc(s: seq<Scored>) {
    forall i, j :: 0 <= i < j < |s| ==> s[i].quality >= s[j].quality
  }

  /** Inserts `x` after every element of at least its quality (stable). */
  function InsertDesc(x: Scored, s: seq<Scored>): (r: seq<Scored>)
    requires SortedDesc(s)
    ensures |r| == |s| + 1
    ensures SortedDesc(r)
    ensures multiset(r) == multiset(s) + multiset{x}
    ensures r[0] == x || (s != [] && r[0] == s[0])
  {
    if s == [] then [x]
    else if s[0].quality >= x.quality then
      var tail := InsertDesc(x, s[1..]);
      assert s == [s[0]] + s[1..];
      assert s[0].quality >= tail[0].quality;
      [s[0]] + tail
    else [x] + s
  }

  /** The stable sort by descending quality that `pickTopQuestions` starts with. */
  function SortByQuality(items: seq<Scored>): (r: seq<Scored>)
    ensures SortedDesc(r) && multiset(r) == multiset(items)
  {
    if items == [] then []
    else
      assert items == items[..|items| - 1] + [items[|items| - 1]];
      InsertDesc(items[|items| - 1], SortByQuality(items[..|items| - 1]))
  }

  /** The loop of `pickTopQuestions` over the sorted pool: push a candidate
      when its lower-cased prompt is not in `used`, stop once `count` are
      picked. */
  function Pick(items: seq<Scored>, count: int, used: set<string>, acc: seq<Scored>): (r: (seq<Scored>, set<string>))
    decreases |items|
  {
    if items == [] then (acc, used)
    else
      var k := PromptKey(items[0].q);
      if k in used then Pick(items[1..], count, used, acc)
      else if |acc| + 1 >= count then (acc + [items[0]], used + {k})
      else Pick(items[1..], count, used + {k}, acc + [items[0]])
  }

  function Questions(s: seq<Scored>): (r: seq<Question>)
    ensures |r| == |s| && forall i :: 0 <= i < |s| ==> r[i] == s[i].q
  {
    if s == [] then [] else [s[0].q] + Questions(s[1..])
  }

  lemma QuestionsSnoc(s: seq<Scored>, x: Scored)
    ensures Questions(s + [x]) == Questions(s) + [x.q]
  {
    assert |Questions(s + [x])| == |Questions(s) + [x.q]|;
  }

  /** The picked prefix stays sorted: it is a subsequence of a sorted list. */
  lemma {:induction false} PickSorted(items: seq<Scored>, count: int, used: set<string>, acc: seq<Scored>)
    requires SortedDesc(acc) && SortedDesc(items)
    requires acc != [] && items != [] ==> acc[|acc| - 1].quality >= items[0].quality
    ensures SortedDesc(Pick(items, count, used, acc).0)
    decreases |items|
  {
    if items != [] {
      var x := items[0];
      var k := PromptKey(x.q);
      if k in used {
        PickSorted(items[1..], count, used, acc);
      } else {
        var acc' := acc + [x];
        assert SortedDesc(acc');
        if |acc| + 1 < count {
          PickSorted(items[1..], count, used + {k}, acc');
        }
      }
    }
  }

  /** The picked prompts are distinct, all recorded in the used set, and
      there are at most max(count, 1) of them. */
  lemma {:induction false} PickKeys(items: seq<Scored>, count: int, used: set<string>, acc: seq<Scored>)
    requires DistinctKeys(ByPrompt, Questions(acc)) && KeysOf(ByPrompt, Questions(acc)) <= used
    requires |acc| < count || acc == []
    ensures var (picked, used') := Pick(items, count, used, acc);
      && DistinctKeys(ByPrompt, Questions(picked))
      && used <= used' && KeysOf(ByPrompt, Questions(picked)) <= used'
      && |picked| <= (if count >= 1 then count else 1)
    decreases |items|
  {
    if items != [] {
      var x := items[0];
      var k := PromptKey(x.q);
      if k in used {
        PickKeys(items[1..], count, used, acc);
      } else {
        var acc' := acc + [x];
        UniquePushKeepsIndex(Questions(acc), x.q, used);
        QuestionsSnoc(acc, x);
        if |acc| + 1 < count {
          PickKeys(items[1..], count, used + {k}, acc');
        }
      }
    }
  }

  /** `pickTopQuestions`: sorts the pool by quality and keeps the first
      `count` candidates with a new lower-cased prompt; each picked prompt is
      added to `usedQuestions`. */
  method PickTopQuestions(items: seq<Scored>, count: int, used: set<string>)
    returns (picked: seq<Question>, used': set<string>)
    ensures var (spec, specUsed) := Pick(SortByQuality(items), count, used, []);
      picked == Questions(spec) && used' == specUsed
    ensures SortedDesc(Pick(SortByQuality(items), count, used, []).0)
    ensures |picked| <= (if count >= 1 then count else 1)
    ensures DistinctKeys(ByPrompt, picked)
    ensures used <= used' && KeysOf(ByPrompt, picked) <= used'
  {
    var sorted := SortByQuality(items);
    ghost var acc: seq<Scored> := [];
    picked, used' := [], used;
    var i := 0;
    while i < |sorted|
      invariant 0 <= i <= |sorted|
      invariant picked == Questions(acc)
      invariant Pick(sorted, count, used, []) == Pick(sorted[i..], count, used', acc)
    {
      var candidate := sorted[i];
      var pushed;
      assert sorted[i..][1..] == sorted[i + 1..];
      ghost var k := PromptKey(candidate.q);
      assert Pick(sorted[i..], count, used', acc) ==
        if k in used' then Pick(sorted[i + 1..], count, used', acc)
        else if |acc| + 1 >= count then (acc + [candidate], used' + {k})
        else Pick(sorted[i + 1..], count, used' + {k}, acc + [candidate]);
      ghost var before := acc;
      pushed, picked, used' := UniquePush(picked, candidate.q, used');
      if pushed {
        acc := acc + [candidate];
        QuestionsSnoc(before, candidate);
        if |picked| >= count {
          break;
        }
      }
      i := i + 1;
    }
    PickSorted(sorted, count, used, []);
    PickKeys(sorted, count, used, []);
  }

  // ---------------------------------------------------------------------
  // Cross-team harmonisation

  /** What `harmonizeTeamSets` keeps true of B while it grows: keys are
      non-empty, distinct, recorded in `used`, and none is blocked (one of A's). */
  ghost predicate HarmonyInvariant(b: seq<Question>, blocked: set<string>, used: set<string>) {
    && DistinctKeys(ByTrimmed, b)
    && (forall i :: 0 <= i < |b| ==>
          TrimmedKey(b[i]) != [] && TrimmedKey(b[i]) !in blocked && TrimmedKey(b[i]) in used)
    && blocked <= used
  }

  lemma HarmonyPush(b: seq<Question>, blocked: set<string>, used: set<string>, q: Question)
    requires HarmonyInvariant(b, blocked, used)
    requires TrimmedKey(q) != [] && TrimmedKey(q) !in used
    ensures HarmonyInvariant(b + [q], blocked, used + {TrimmedKey(q)})
  {
    assert forall i :: 0 <= i < |b| ==> KeyOf(ByTrimmed, b[i]) != KeyOf(ByTrimmed, q);
    DistinctKeysSnoc(ByTrimmed, b, q);
    var b' := b + [q];
    assert forall i :: 0 <= i < |b| ==> b'[i] == b[i];
  }

  /** The variant prompt `${q} (вариант B${n})`. */
  function VariantPrompt(source: string, n: nat): (r: string)
    ensures |source| + 1 < |r| && r[|source| + 1] == '('
  {
    source + " (вариант B" + Decimal(n) + ")"
  }

  /** The retry prompt `${q} (вариант B${n}.${attempt})`. */
  function RetryPrompt(source: string, n: nat, attempt: nat): (r: string)
    ensures |source| + 1 < |r| && r[|source| + 1] == '('
  {
    source + " (вариант B" + Decimal(n) + "." + Decimal(attempt) + ")"
  }

  /** A variant prompt always has a non-empty key. */
  lemma VariantKeyNonEmpty(p: string, n: nat, attempt: nat)
    ensures Lower(Trim(VariantPrompt(p, n))) != []
    ensures Lower(Trim(RetryPrompt(p, n, attempt))) != []
  {
    TrimEmptyIffBlank(VariantPrompt(p, n));
    TrimEmptyIffBlank(RetryPrompt(p, n, attempt));
  }

  /** First loop of `harmonizeTeamSets`: team B's own questions. */
  method KeepFreshB(teamB: seq<Question>, blocked: set<string>)
    returns (nb: seq<Question>, used: set<string>)
    ensures (nb, used) == FreshFold(ByTrimmed, teamB, blocked)
    ensures HarmonyInvariant(nb, blocked, used)
  {
    used := blocked;
    nb := [];
    var i := 0;
    while i < |teamB|
      invariant 0 <= i <= |teamB|
      invariant (nb, used) == FreshFold(ByTrimmed, teamB[..i], blocked)
    {
      var item := teamB[i];
      var key := TrimmedKey(item);
      assert teamB[..i + 1][..i] == teamB[..i];
      if key != [] && key !in used {
        used := used + {key};
        nb := nb + [item];
      }
      i := i + 1;
    }
    assert teamB[..|teamB|] == teamB;
    FreshFoldSound(ByTrimmed, teamB, blocked);
  }

  /** Second loop: at most `count * 12` filler attempts while B is short. */
  method FillFromFiller(nb: seq<Question>, blocked: set<string>, used: set<string>, count: nat,
                        tone: Tone, mode: DifficultyMode, filler: (Difficulty, nat) -> Option<Question>)
    returns (nb': seq<Question>, used': set<string>)
    requires HarmonyInvariant(nb, blocked, used)
    ensures HarmonyInvariant(nb', blocked, used')
    ensures nb <= nb' && |nb'| <= (if |nb| <= count then count else |nb|)
  {
    nb', used' := nb, used;
    var attempt := 0;
    while |nb'| < count && attempt < count * 12
      invariant HarmonyInvariant(nb', blocked, used')
      invariant nb <= nb' && |nb'| <= (if |nb| <= count then count else |nb|)
      decreases count * 12 - attempt
    {
      var difficulty := GetDifficulty(|nb'|, count, tone, mode);
      var fallback := filler(difficulty, count + attempt + 7);
      attempt := attempt + 1;
      if fallback.Some? {
        var key := TrimmedKey(fallback.value);
        if key != [] && key !in used' {
          HarmonyPush(nb', blocked, used', fallback.value);
          used' := used' + {key};
          nb' := nb' + [fallback.value];
        }
      }
    }
  }

  /** One copy of `source` numbered `n`, renumbered up to five times while
      its key is in `used`. */
  method MakeVariant(source: Question, n: nat, difficulty: Difficulty, used: set<string>)
    returns (candidate: Question, key: string)
    ensures key == TrimmedKey(candidate) && key != []
    ensures candidate.options == source.options && candidate.correctIndex == source.correctIndex
    ensures candidate.difficulty == difficulty
  {
    candidate := source.(id := source.id + "-b-" + Decimal(n),
                         prompt := VariantPrompt(source.prompt, n),
                         difficulty := difficulty);
    VariantKeyNonEmpty(source.prompt, n, 0);
    key := TrimmedKey(candidate);
    var copyAttempt := 1;
    while key in used && copyAttempt <= 5
      invariant key == TrimmedKey(candidate) && key != []
      invariant candidate.options == source.options && candidate.correctIndex == source.correctIndex
      invariant candidate.difficulty == difficulty
    {
      candidate := candidate.(prompt := RetryPrompt(source.prompt, n, copyAttempt));
      VariantKeyNonEmpty(source.prompt, n, copyAttempt);
      key := TrimmedKey(candidate);
      copyAttempt := copyAttempt + 1;
    }
  }

  /** Third loop: numbered copies of A's questions; it stops at the first
      copy whose key is still taken. */
  method FillWithVariants(a: seq<Question>, nb: seq<Question>, blocked: set<string>, used: set<string>,
                          count: nat, tone: Tone, mode: DifficultyMode)
    returns (nb': seq<Question>, used': set<string>)
    requires HarmonyInvariant(nb, blocked, used)
    ensures HarmonyInvariant(nb', blocked, used')
    ensures nb <= nb' && |nb'| <= (if |nb| <= count then count else |nb|)
  {
    nb', used' := nb, used;
    while |nb'| < count && |a| > 0
      invariant HarmonyInvariant(nb', blocked, used')
      invariant nb <= nb' && |nb'| <= (if |nb| <= count then count else |nb|)
      decreases count - |nb'|
    {
      var source := a[|nb'| % |a|];
      var candidate, key := MakeVariant(source, |nb'| + 1, GetDifficulty(|nb'|, count, tone, mode), used');
      if key in used' {
        break;
      }
      HarmonyPush(nb', blocked, used', candidate);
      used' := used' + {key};
      nb' := nb' + [candidate];
    }
  }

  /** `harmonizeTeamSets`.  `filler(difficulty, index)` stands for the
      theme question `buildMinimalThemeQuestion` builds (None when it fails).
      A is team A's list cut to `count`; B starts with team B's own new
      questions, and no key of B is empty, repeated or one of A's. */
  method HarmonizeTeamSets(teamA: seq<Question>, teamB: seq<Question>, count: nat, tone: Tone,
                           mode: DifficultyMode, filler: (Difficulty, nat) -> Option<Question>)
    returns (a: seq<Question>, b: seq<Question>)
    ensures a == teamA[..if count <= |teamA| then count else |teamA|]
    ensures |b| <= count
    ensures DistinctKeys(ByTrimmed, b)
    ensures forall i :: 0 <= i < |b| ==> TrimmedKey(b[i]) != [] && TrimmedKey(b[i]) !in KeysOf(ByTrimmed, a)
    ensures var own := FreshFold(ByTrimmed, teamB, KeysOf(ByTrimmed, a) - {[]}).0;
      var n := if |own| <= count then |own| else count;
      n <= |b| && b[..n] == own[..n]
  {
    a := teamA[..if count <= |teamA| then count else |teamA|];
    var blocked := KeysOf(ByTrimmed, a) - {[]};
    var nb, used := KeepFreshB(teamB, blocked);
    ghost var own := nb;
    nb, used := FillFromFiller(nb, blocked, used, count, tone, mode, filler);
    nb, used := FillWithVariants(a, nb, blocked, used, count, tone, mode);
    b := nb[..if |nb| <= count then |nb| else count];
    HarmonyFinish(a, own, nb, blocked, used, count);
  }

  /** The team B set cut to `count`: still fresh, apart from team A, and
      starting with the part of its own list that was kept. */
  lemma HarmonyFinish(a: seq<Question>, own: seq<Question>, nb: seq<Question>,
                      blocked: set<string>, used: set<string>, count: nat)
    requires HarmonyInvariant(nb, blocked, used) && blocked == KeysOf(ByTrimmed, a) - {[]}
    requires own <= nb
    ensures var b := nb[..if |nb| <= count then |nb| else count];
      && DistinctKeys(ByTrimmed, b)
      && (forall i :: 0 <= i < |b| ==> TrimmedKey(b[i]) != [] && TrimmedKey(b[i]) !in KeysOf(ByTrimmed, a))
      && var n := if |own| <= count then |own| else count;
         n <= |b| && b[..n] == own[..n]
  {
    var b := nb[..if |nb| <= count then |nb| else count];
    HarmonyPrefix(nb, blocked, used, |b|);
    HarmonyApart(b, a, blocked, used);
    var n := if |own| <= count then |own| else count;
    assert b[..n] == nb[..n] == own[..n];
  }

  lemma HarmonyApart(b: seq<Question>, a: seq<Question>, blocked: set<string>, used: set<string>)
    requires HarmonyInvariant(b, blocked, used) && blocked == KeysOf(ByTrimmed, a) - {[]}
    ensures forall i :: 0 <= i < |b| ==> TrimmedKey(b[i]) != [] && TrimmedKey(b[i]) !in KeysOf(ByTrimmed, a)
  {
  }

  lemma HarmonyPrefix(b: seq<Question>, blocked: set<string>, used: set<string>, m: nat)
    requires HarmonyInvariant(b, blocked, used) && m <= |b|
    ensures HarmonyInvariant(b[..m], blocked, used)
  {
    assert forall i :: 0 <= i < m ==> b[..m][i] == b[i];
  }
}
