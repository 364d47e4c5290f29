/** The pieces server/questionGenerator.js builds local (fact based)
    questions from: option assembly, year distractors, sentence compaction
    and fact rotation.  `shuffle` is random; the shuffled list is a
    parameter that must be a permutation of the input. */
module LocalQuestions {
  import opened Text

  // ---------------------------------------------------------------------
  // Option assembly

  /** What the loop of `buildOptions` keeps from the trimmed, non-empty
      options: each one whose lower-cased text is new, until four are kept. */
  function DedupOptions(options: seq<string>): (seq<string>, set<string>)
    decreases |options|
  {
    if options == [] then ([], {})
    else
      var (kept, seen) := DedupOptions(options[..|options| - 1]);
      var o := options[|options| - 1];
      if |kept| >= 4 || Lower(o) in seen then (kept, seen) else (kept + [o], seen + {Lower(o)})
  }

  lemma {:induction false} DedupOptionsSound(options: seq<string>)
    ensures var (kept, seen) := DedupOptions(options);
      && |kept| <= 4
      && (forall i, j :: 0 <= i < j < |kept| ==> Lower(kept[i]) != Lower(kept[j]))
      && (forall i :: 0 <= i < |kept| ==> kept[i] in options && Lower(kept[i]) in seen)
      && (|kept| < 4 ==> forall i :: 0 <= i < |options| ==> Lower(options[i]) in seen)
    decreases |options|
  {
    if options != [] {
      var init := options[..|options| - 1];
      DedupOptionsSound(init);
      var (kept, seen) := DedupOptions(init);
      var o := options[|options| - 1];
      assert forall i :: 0 <= i < |init| ==> options[i] == init[i];
      if !(|kept| >= 4 || Lower(o) in seen) {
        var kept2 := kept + [o];
        assert forall i :: 0 <= i < |kept| ==> kept2[i] == kept[i];
      }
    }
  }

  /** After four are kept, later options change nothing (the loop's `break`). */
  lemma {:induction false} DedupOptionsSaturated(options: seq<string>, n: nat)
    requires n <= |options| && |DedupOptions(options[..n]).0| >= 4
    ensures DedupOptions(options) == DedupOptions(options[..n])
    decreases |options| - n
  {
    if n < |options| {
      assert options[..n + 1][..n] == options[..n];
      DedupOptionsSaturated(options, n + 1);
    } else {
      assert options[..n] == options;
    }
  }

  function TrimAll(items: seq<string>): (r: seq<string>)
    ensures |r| == |items| && forall i :: 0 <= i < |items| ==> r[i] == Trim(items[i])
  {
    if items == [] then [] else [Trim(items[0])] + TrimAll(items[1..])
  }

  function NonEmpty(items: seq<string>): (r: seq<string>)
    ensures forall x :: x in r <==> x in items && x != []
  {
    if items == [] then []
    else if items[0] == [] then NonEmpty(items[1..])
    else [items[0]] + NonEmpty(items[1..])
  }

  /** The first position whose option equals `correct` ignoring case, or -1. */
  function FindIndexIgnoringCase(options: seq<string>, correct: string): (r: int)
    ensures -1 <= r < |options|
    ensures r >= 0 ==> Lower(options[r]) == Lower(correct)
    ensures r >= 0 ==> forall i :: 0 <= i < r ==> Lower(options[i]) != Lower(correct)
    ensures r == -1 ==> forall i :: 0 <= i < |options| ==> Lower(options[i]) != Lower(correct)
  {
    if options == [] then -1
    else if Lower(options[0]) == Lower(correct) then 0
    else
      var k := FindIndexIgnoringCase(options[1..], correct);
      if k == -1 then -1 else k + 1
  }

  datatype OptionBundle = OptionBundle(options: seq<string>, correctIndex: int)

  datatype Option<T> = None | Some(value: T)

  /** `buildOptions(correct, wrong)`; `shuffled` is the order `shuffle`
      produced.  None unless four options distinct ignoring case survive;
      otherwise exactly four trimmed non-empty options, and the correct index
      is the first option equal to `correct` ignoring case, or -1.  The
      comparison uses `correct` untrimmed, as the code does. */
  method BuildOptions(correct: string, wrong: seq<string>, shuffled: seq<string>) returns (r: Option<OptionBundle>)
    requires multiset(shuffled) == multiset([correct] + wrong)
    ensures var kept := DedupOptions(NonEmpty(TrimAll(shuffled))).0;
      r == if |kept| < 4 then None else Some(OptionBundle(kept, FindIndexIgnoringCase(kept, correct)))
    ensures r.Some? ==>
      && |r.value.options| == 4
      && (forall i, j :: 0 <= i < j < 4 ==> Lower(r.value.options[i]) != Lower(r.value.options[j]))
      && (forall i :: 0 <= i < 4 ==> r.value.options[i] != [] && Trim(r.value.options[i]) == r.value.options[i])
      && (r.value.correctIndex == -1 || (0 <= r.value.correctIndex < 4
            && Lower(r.value.options[r.value.correctIndex]) == Lower(correct)))
    ensures r.None? <==> |DedupOptions(NonEmpty(TrimAll(shuffled))).1| < 4
  {
    var options := NonEmpty(TrimAll(shuffled));
    var unique: seq<string> := [];
    var seen: set<string> := {};
    var i := 0;
    while i < |options|
      invariant 0 <= i <= |options|
      invariant (unique, seen) == DedupOptions(options[..i])
      invariant |unique| < 4
    {
      var option := options[i];
      var key := Lower(option);
      assert options[..i + 1][..i] == options[..i];
      if key !in seen {
        seen := seen + {key};
        unique := unique + [option];
        if |unique| >= 4 {
          DedupOptionsSaturated(options, i + 1);
          break;
        }
      }
      i := i + 1;
    }
    if i == |options| {
      assert options[..i] == options;
    }
    DedupOptionsSound(options);
    TrimmedNonEmpty(shuffled, unique);
    KeptCount(options);
    if |unique| < 4 {
      return None;
    }
    return Some(OptionBundle(unique, FindIndexIgnoringCase(unique, correct)));
  }

  lemma TrimmedNonEmpty(shuffled: seq<string>, kept: seq<string>)
    requires forall i :: 0 <= i < |kept| ==> kept[i] in NonEmpty(TrimAll(shuffled))
    ensures forall i :: 0 <= i < |kept| ==> kept[i] != [] && Trim(kept[i]) == kept[i]
  {
    forall i | 0 <= i < |kept| ensures kept[i] != [] && Trim(kept[i]) == kept[i] {
      var t := TrimAll(shuffled);
      var j :| 0 <= j < |t| && t[j] == kept[i];
      TrimIdempotent(shuffled[j]);
    }
  }

  lemma TrimIdempotent(s: string)
    ensures Trim(Trim(s)) == Trim(s)
  {
    var t := Trim(s);
    if t != [] {
      assert TrimStart(t) == t;
      assert TrimEnd(t) == t;
    }
  }

  /** The seen set and the kept list have the same size. */
  lemma KeptCount(options: seq<string>)
    ensures |DedupOptions(options).1| == |DedupOptions(options).0|
    decreases |options|
  {
    if options != [] {
      var init := options[..|options| - 1];
      KeptCount(init);
    }
  }

  // ---------------------------------------------------------------------
  // Year distractors

  /** The years near a year candidate: ±1, ±3, ±7, kept within 1000..2099. */
  function NearbyYears(year: int): (r: seq<int>)
    ensures forall i :: 0 <= i < |r| ==> 1000 <= r[i] <= 2099 && r[i] != year
  {
    var offsets := [year - 1, year + 1, year - 3, year + 3, year - 7, year + 7];
    Within(offsets, year)
  }

  function Within(ys: seq<int>, year: int): (r: seq<int>)
    requires forall i :: 0 <= i < |ys| ==> ys[i] != year
    ensures forall i :: 0 <= i < |r| ==> 1000 <= r[i] <= 2099 && r[i] != year
    ensures forall y :: y in r <==> y in ys && 1000 <= y <= 2099
  {
    if ys == [] then []
    else if 1000 <= ys[0] <= 2099 then [ys[0]] + Within(ys[1..], year)
    else Within(ys[1..], year)
  }

  function YearTexts(ys: seq<nat>): (r: seq<string>)
    ensures |r| == |ys| && forall i :: 0 <= i < |ys| ==> r[i] == Decimal(ys[i])
  {
    if ys == [] then [] else [Decimal(ys[0])] + YearTexts(ys[1..])
  }

  function Near(pool: seq<nat>, year: nat): (r: seq<nat>)
    ensures forall i :: 0 <= i < |r| ==> r[i] in pool && -35 <= r[i] - year <= 35
  {
    if pool == [] then []
    else if -35 <= pool[0] - year <= 35 then [pool[0]] + Near(pool[1..], year)
    else Near(pool[1..], year)
  }

  function AsNats(ys: seq<int>): (r: seq<nat>)
    requires forall i :: 0 <= i < |ys| ==> ys[i] >= 0
    ensures |r| == |ys| && forall i :: 0 <= i < |ys| ==> r[i] == ys[i]
  {
    if ys == [] then [] else [ys[0] as nat] + AsNats(ys[1..])
  }

  /** The candidate list of the year branch of `buildDistractors`:
      generated neighbours, then pool years within 35, then the whole pool. */
  function YearCandidates(year: nat, pool: seq<nat>): seq<string> {
    YearTexts(AsNats(NearbyYears(year))) + YearTexts(Near(pool, year)) + YearTexts(pool)
  }

  /** The loop over the candidates: skip the answer itself and repeats,
      stop at three. */
  function TakeDistractors(items: seq<string>, answer: string): (seq<string>, set<string>)
    decreases |items|
  {
    if items == [] then ([], {})
    else
      var (kept, seen) := TakeDistractors(items[..|items| - 1], answer);
      var t := items[|items| - 1];
      if |kept| >= 3 || t == answer || t in seen then (kept, seen) else (kept + [t], seen + {t})
  }

  lemma {:induction false} TakeDistractorsSound(items: seq<string>, answer: string)
    ensures var (kept, seen) := TakeDistractors(items, answer);
      && |kept| <= 3
      && (forall i, j :: 0 <= i < j < |kept| ==> kept[i] != kept[j])
      && (forall i :: 0 <= i < |kept| ==> kept[i] != answer && kept[i] in items && kept[i] in seen)
      && (forall t :: t in seen ==> t in kept)
      && (|kept| < 3 ==> forall i :: 0 <= i < |items| && items[i] != answer ==> items[i] in kept)
    decreases |items|
  {
    if items != [] {
      var init := items[..|items| - 1];
      TakeDistractorsSound(init, answer);
      var (kept, seen) := TakeDistractors(init, answer);
      assert forall i :: 0 <= i < |init| ==> items[i] == init[i];
      var t := items[|items| - 1];
      if !(|kept| >= 3 || t == answer || t in seen) {
        var kept2 := kept + [t];
        assert forall i :: 0 <= i < |kept| ==> kept2[i] == kept[i];
      }
    }
  }

  lemma {:induction false} TakeDistractorsSaturated(items: seq<string>, answer: string, n: nat)
    requires n <= |items| && |TakeDistractors(items[..n], answer).0| >= 3
    ensures TakeDistractors(items, answer) == TakeDistractors(items[..n], answer)
    decreases |items| - n
  {
    if n < |items| {
      assert items[..n + 1][..n] == items[..n];
      TakeDistractorsSaturated(items, answer, n + 1);
    } else {
      assert items[..n] == items;
    }
  }

  /** The loop over the candidate texts. */
  method TakeDistinctTexts(ordered: seq<string>, answer: string) returns (r: seq<string>)
    ensures r == TakeDistractors(ordered, answer).0
  {
    var unique: seq<string> := [];
    var seen: set<string> := {};
    var i := 0;
    while i < |ordered|
      invariant 0 <= i <= |ordered|
      invariant (unique, seen) == TakeDistractors(ordered[..i], answer)
      invariant |unique| < 3
    {
      var text := ordered[i];
      assert ordered[..i + 1][..i] == ordered[..i];
      if text != answer && text !in seen {
        seen := seen + {text};
        unique := unique + [text];
        if |unique| >= 3 {
          TakeDistractorsSaturated(ordered, answer, i + 1);
          break;
        }
      }
      i := i + 1;
    }
    if i == |ordered| {
      assert ordered[..i] == ordered;
    }
    r := unique;
  }

  /** The year branch of `buildDistractors` for a year candidate (a year of
      1000..2099, whose text is its decimal form) and the pool of years seen
      in the facts.  At most three distinct texts, none the answer; fewer
      than three only when no other candidate text exists. */
  method YearDistractors(year: nat, pool: seq<nat>) returns (r: seq<string>)
    ensures r == TakeDistractors(YearCandidates(year, pool), Decimal(year)).0
    ensures |r| <= 3 && forall i, j :: 0 <= i < j < |r| ==> r[i] != r[j]
    ensures forall i :: 0 <= i < |r| ==> r[i] != Decimal(year) && r[i] in YearCandidates(year, pool)
    ensures |r| < 3 ==> forall t :: t in YearCandidates(year, pool) && t != Decimal(year) ==> t in r
  {
    var ordered := YearCandidates(year, pool);
    r := TakeDistinctTexts(ordered, Decimal(year));
    TakeDistractorsSound(ordered, Decimal(year));
  }

  /** No generated neighbour is the answer itself. */
  lemma NeighboursAreNotTheAnswer(year: nat)
    ensures Decimal(year) !in YearTexts(AsNats(NearbyYears(year)))
  {
    var ys := AsNats(NearbyYears(year));
    forall i | 0 <= i < |ys| ensures YearTexts(ys)[i] != Decimal(year) {
      if Decimal(ys[i]) == Decimal(year) {
        DecimalInjective(ys[i], year);
      }
    }
  }

  // ---------------------------------------------------------------------
  // Sentence compaction

  /** `s.split(/[;:]/)[0]`: the text before the first `;` or `:`. */
  function FirstChunk(s: string): (r: string)
    ensures r <= s
    ensures forall i :: 0 <= i < |r| ==> r[i] != ';' && r[i] != ':'
    ensures |r| < |s| ==> s[|r|] == ';' || s[|r|] == ':'
  {
    if s == [] || s[0] == ';' || s[0] == ':' then [] else [s[0]] + FirstChunk(s[1..])
  }

  /** `s.lastIndexOf(' ', from)`: the last space at or before `from` (a
      negative `from` counts as 0), or -1. */
  function LastSpaceAtOrBefore(s: string, from: int): (r: int)
    ensures -1 <= r < |s|
    ensures r >= 0 ==> s[r] == ' ' && r <= (if from < 0 then 0 else from)
    ensures forall i :: r < i < |s| && i <= from ==> s[i] != ' '
    ensures from < 0 ==> r == (if s != [] && s[0] == ' ' then 0 else -1)
  {
    var start := if from < 0 then 0 else from;
    LastSpaceFrom(s, if start < |s| then start else |s| - 1)
  }

  function LastSpaceFrom(s: string, k: int): (r: int)
    requires -1 <= k < |s|
    ensures -1 <= r <= k
    ensures r >= 0 ==> s[r] == ' '
    ensures forall i :: r < i <= k && 0 <= i ==> s[i] != ' '
    decreases k + 1
  {
    if k < 0 then -1 else if s[k] == ' ' then k else LastSpaceFrom(s, k - 1)
  }

  /** The part of a squeezed sentence that is kept: its first chunk before a
      `;` or `:`, trimmed, or the whole sentence when that chunk is empty. */
  function LeadChunk(source: string): string {
    var first := Trim(FirstChunk(source));
    if first != [] then first else source
  }

  /** `compactSentenceForQuestion(sentence, maxLength)`: a chunk that fits is
      returned as it is; a longer one is cut as `CutChunk` says. */
  function CompactSentence(sentence: string, maxLength: int): (r: string)
    ensures maxLength >= 3 ==> |r| <= maxLength
    ensures Squish(sentence) == [] ==> r == []
    ensures Squish(sentence) != [] ==> r == CutChunk(LeadChunk(Squish(sentence)), maxLength)
  {
    var source := Squish(sentence);
    if source == [] then [] else CutChunk(LeadChunk(source), maxLength)
  }

  /** The chunk itself when it fits; otherwise cut at its last space past
      position 30 within the first `maxLength - 3` characters, or at
      `maxLength - 3` when there is no such space, and ended with `...`. */
  function CutChunk(chunk: string, maxLength: int): (r: string)
    ensures maxLength >= 3 ==> |r| <= maxLength
    ensures |chunk| <= maxLength ==> r == chunk
    ensures maxLength >= 3 && |chunk| > maxLength ==>
              var cut := |r| - 3;
              && 3 <= |r| && r[cut..] == "..." && r[..cut] <= chunk && cut <= maxLength - 3
              && ((30 < cut && chunk[cut] == ' ' && forall i :: cut < i <= maxLength - 3 ==> chunk[i] != ' ')
                  || (cut == maxLength - 3 && forall i :: 30 < i <= maxLength - 3 ==> chunk[i] != ' '))
  {
    if |chunk| <= maxLength then chunk
    else
      var cutAt := LastSpaceAtOrBefore(chunk, maxLength - 3);
      if cutAt > 30 then chunk[..cutAt] + "..."
      else SliceTo(chunk, maxLength - 3) + "..."
  }

  /** A sentence whose first chunk fits comes back as that chunk, and a short
      sentence without `;` or `:` comes back unchanged (up to whitespace). */
  lemma CompactFits(sentence: string, maxLength: int)
    requires var s := Squish(sentence); s != [] && Trim(FirstChunk(s)) != [] && |Trim(FirstChunk(s))| <= maxLength
    ensures CompactSentence(sentence, maxLength) == Trim(FirstChunk(Squish(sentence)))
  {
  }

  /** Squishing text that is already squeezed changes nothing in a chunk
      without separators: the chunk is the whole text. */
  lemma CompactPlain(sentence: string, maxLength: int)
    requires var s := Squish(sentence); s != [] && |s| <= maxLength
    requires forall i :: 0 <= i < |sentence| ==> sentence[i] != ';' && sentence[i] != ':'
    ensures CompactSentence(sentence, maxLength) == Squish(sentence)
  {
    var s := Squish(sentence);
    NoSeparatorsSurvive(sentence);
    assert FirstChunk(s) == s;
    TrimIdempotent(CollapseSpaces(sentence));
  }

  lemma NoSeparatorsSurvive(sentence: string)
    requires forall i :: 0 <= i < |sentence| ==> sentence[i] != ';' && sentence[i] != ':'
    ensures forall i :: 0 <= i < |Squish(sentence)| ==> Squish(sentence)[i] != ';' && Squish(sentence)[i] != ':'
  {
    CollapseKeepsChars(sentence);
    var c := CollapseSpaces(sentence);
    var t := TrimStart(c);
    var r := TrimEnd(t);
    forall i | 0 <= i < |r| ensures r[i] != ';' && r[i] != ':' {
      assert r[i] == t[i] == c[|c| - |t| + i];
    }
  }

  /** Collapsing whitespace only introduces spaces. */
  lemma {:induction false} CollapseKeepsChars(s: string)
    ensures forall i :: 0 <= i < |CollapseSpaces(s)| ==> CollapseSpaces(s)[i] == ' ' || CollapseSpaces(s)[i] in s
    decreases |s|
  {
    if s != [] {
      if IsSpace(s[0]) {
        var rest := DropSpaces(s[1..]);
        DropSpacesSuffix(s[1..]);
        CollapseKeepsChars(rest);
      } else {
        CollapseKeepsChars(s[1..]);
      }
    }
  }

  lemma DropSpacesSuffix(s: string)
    ensures forall c :: c in DropSpaces(s) ==> c in s
  {
  }

  // ---------------------------------------------------------------------
  // Fact rotation

  /** JavaScript's `a % n` for n > 0: the remainder takes the sign of `a`. */
  function JsRem(a: int, n: int): (r: int)
    requires n > 0
    ensures -n < r < n
    ensures a >= 0 ==> r == a % n
  {
    if a >= 0 then a % n else -((-a) % n)
  }

  /** Division with remainder has one answer. */
  lemma ModUnique(a: int, n: int, q: int, r: int)
    requires n > 0 && 0 <= r < n && a == q * n + r
    ensures a % n == r && a / n == q
  {
    var p, m := a / n, a % n;
    var d := q - p;
    assert d * n == q * n - p * n;
    assert d * n == m - r;
    assert d * n == (d - 1) * n + n;
    if d > 0 {
      MulNonNegative(d - 1, n);
    } else if d < 0 {
      MulNonNegative(-d - 1, n);
    }
  }

  lemma MulNonNegative(x: int, y: int)
    requires x >= 0 && y >= 0
    ensures x * y >= 0
  {
  }

  /** `((offset % n) + n) % n` is the non-negative remainder. */
  lemma SafeOffsetIsMod(offset: int, n: int)
    requires n > 0
    ensures JsRem(JsRem(offset, n) + n, n) == offset % n
  {
    if offset >= 0 {
      var m := offset % n;
      ModUnique(m + n, n, 1, m);
    } else {
      var m := (-offset) % n;
      var q := (-offset) / n;
      assert -offset == q * n + m;
      if m == 0 {
        ModUnique(n, n, 1, 0);
        ModUnique(offset, n, -q, 0);
      } else {
        ModUnique(n - m, n, 0, n - m);
        ModUnique(offset, n, -q - 1, n - m);
      }
    }
  }

  /** `rotateFacts`: the list rotated left by the offset taken modulo its length. */
  function RotateFacts<T>(facts: seq<T>, offset: int): (r: seq<T>)
    ensures |r| == |facts|
    ensures multiset(r) == multiset(facts)
    ensures facts != [] ==> forall i :: 0 <= i < |r| ==> r[i] == facts[(i + offset) % |facts|]
  {
    if facts == [] then []
    else
      var n := |facts|;
      var k := JsRem(JsRem(offset, n) + n, n);
      SafeOffsetIsMod(offset, n);
      assert facts == facts[..k] + facts[k..];
      var r := facts[k..] + facts[..k];
      assert forall i :: 0 <= i < n ==> r[i] == facts[(i + offset) % n] by {
        forall i | 0 <= i < n ensures r[i] == facts[(i + offset) % n] {
          ModShift(i, offset, n);
        }
      }
      r
  }

  lemma ModShift(i: int, offset: int, n: int)
    requires n > 0 && 0 <= i < n
    ensures (i + offset) % n == (if i < n - offset % n then i + offset % n else i + offset % n - n)
  {
    var k := offset % n;
    var q := offset / n;
    assert offset == q * n + k;
    if i + k < n {
      ModUnique(i + offset, n, q, i + k);
    } else {
      assert i + offset == (q + 1) * n + (i + k - n);
      ModUnique(i + offset, n, q + 1, i + k - n);
    }
  }
}
