/** Question supply for a room (server/index.js): the capped, deduplicating
    push `pushUniqueQuestions`, the supplement pool, the emergency questions
    and `applyGeneratedQuestionSets`, which fills the bank (free-for-all) or
    both team sets with exactly the room's question count and no question
    key twice. Keys are `questionUniqKey` (`UniqKey`). */
module Supply {
  import opened Text
  import opened Quiz
  import opened Generator

  /** The list after a push: the old list, then new questions whose keys are
      non-empty, distinct, new to `used` and recorded in `used'`. */
  ghost predicate FreshExtension(before: seq<Question>, after: seq<Question>, used: set<string>, used': set<string>) {
    && |before| <= |after| && after[..|before|] == before
    && used <= used'
    && DistinctKeys(ByWords, after[|before|..])
    && forall i :: |before| <= i < |after| ==>
         UniqKey(after[i]) != [] && UniqKey(after[i]) !in used && UniqKey(after[i]) in used'
  }

  lemma FreshExtensionTrans(a: seq<Question>, b: seq<Question>, c: seq<Question>,
                            u0: set<string>, u1: set<string>, u2: set<string>)
    requires FreshExtension(a, b, u0, u1) && FreshExtension(b, c, u1, u2)
    ensures FreshExtension(a, c, u0, u2)
  {
    var x, y := b[|a|..], c[|b|..];
    assert c[|a|..] == x + y;
    assert c[..|b|] == b;
    forall j | 0 <= j < |y| ensures KeyOf(ByWords, y[j]) !in KeysOf(ByWords, x) {
      assert y[j] == c[|b| + j];
    }
    DistinctKeysAppend(ByWords, x, y);
    forall i | |a| <= i < |c|
      ensures UniqKey(c[i]) != [] && UniqKey(c[i]) !in u0 && UniqKey(c[i]) in u2
    {
      if i < |b| {
        assert c[i] == b[i];
      }
    }
  }

  /** The loop of `pushUniqueQuestions` on a target of length `length`:
      walking the source in order, append each question while the target is
      short of `limit`, when its key is non-empty and unseen. */
  function LimitedFold(items: seq<Question>, length: nat, limit: int, seen: set<string>): (seq<Question>, set<string>)
  {
    if items == [] then ([], seen)
    else
      var (kept, seen') := LimitedFold(items[..|items| - 1], length, limit, seen);
      var x := items[|items| - 1];
      var k := UniqKey(x);
      if length + |kept| >= limit || k == [] || k in seen' then (kept, seen') else (kept + [x], seen' + {k})
  }

  /** What the capped push adds: fresh questions of the source, never beyond
      the limit, and, when it stops short of the limit, every non-empty key
      of the source has been seen. */
  lemma {:induction false} LimitedFoldSound(items: seq<Question>, length: nat, limit: int, seen: set<string>)
    ensures var (kept, seen') := LimitedFold(items, length, limit, seen);
      && FreshExtension([], kept, seen, seen')
      && (length + |kept| <= limit || kept == [])
      && (forall i :: 0 <= i < |kept| ==> kept[i] in items)
      && (length + |kept| < limit ==>
            forall i :: 0 <= i < |items| && UniqKey(items[i]) != [] ==> UniqKey(items[i]) in seen')
  {
    if items != [] {
      var init := items[..|items| - 1];
      LimitedFoldSound(init, length, limit, seen);
      var (kept, seen') := LimitedFold(init, length, limit, seen);
      var x := items[|items| - 1];
      var k := UniqKey(x);
      assert forall i :: 0 <= i < |init| ==> items[i] == init[i];
      assert kept[0..] == kept;
      if !(length + |kept| >= limit || k == [] || k in seen') {
        DistinctKeysSnoc(ByWords, kept, x);
        var kept2 := kept + [x];
        assert kept2[0..] == kept2;
        assert forall i :: 0 <= i < |kept| ==> kept2[i] == kept[i];
      }
    }
  }

  /** `pushUniqueQuestions`. */
  method PushUniqueQuestions(target: seq<Question>, source: seq<Question>, usedKeys: set<string>, limit: int)
    returns (target': seq<Question>, usedKeys': set<string>)
    ensures var (kept, seen) := LimitedFold(source, |target|, limit, usedKeys);
      target' == target + kept && usedKeys' == seen
    ensures FreshExtension(target, target', usedKeys, usedKeys')
    ensures |target| <= limit ==> |target'| <= limit
  {
    target' := target;
    usedKeys' := usedKeys;
    ghost var kept: seq<Question> := [];
    var i := 0;
    while i < |source|
      invariant 0 <= i <= |source|
      invariant (kept, usedKeys') == LimitedFold(source[..i], |target|, limit, usedKeys)
      invariant target' == target + kept
    {
      var question := source[i];
      assert source[..i + 1][..i] == source[..i];
      if |target'| < limit {
        var key := UniqKey(question);
        if key != [] && key !in usedKeys' {
          usedKeys' := usedKeys' + {key};
          target' := target' + [question];
          kept := kept + [question];
        }
      }
      i := i + 1;
    }
    assert source[..i] == source;
    LimitedFoldSound(source, |target|, limit, usedKeys);
    assert target'[|target|..] == kept;
    assert target'[..|target|] == target;
  }

  /** The merge loop of `buildSupplementQuestionPool`: the top-up questions
      of both sets whose key is non-empty and not used yet, first of each key. */
  method SupplementPool(topUpA: seq<Question>, topUpB: seq<Question>, usedKeys: set<string>)
    returns (pool: seq<Question>)
    ensures pool == FreshFold(ByWords, topUpA + topUpB, usedKeys).0
  {
    var localSeen;
    pool, localSeen := FreshFilter(ByWords, topUpA + topUpB, usedKeys);
  }

  /** One pass over `items` keeping each question whose key is non-empty and
      not in `seen`, then adding that key to `seen`. */
  method FreshFilter(kind: KeyKind, items: seq<Question>, seen: set<string>)
    returns (kept: seq<Question>, seen': set<string>)
    ensures (kept, seen') == FreshFold(kind, items, seen)
  {
    kept, seen' := [], seen;
    var i := 0;
    while i < |items|
      invariant 0 <= i <= |items|
      invariant (kept, seen') == FreshFold(kind, items[..i], seen)
    {
      var question := items[i];
      var key := KeyOf(kind, question);
      assert items[..i + 1][..i] == items[..i];
      if key != [] && key !in seen' {
        seen' := seen' + {key};
        kept := kept + [question];
      }
      i := i + 1;
    }
    assert items[..i] == items;
  }

  /** The supplement pool has distinct non-empty keys, none of them used. */
  lemma FreshPoolSound(items: seq<Question>, usedKeys: set<string>, pool: seq<Question>)
    requires pool == FreshFold(ByWords, items, usedKeys).0
    ensures DistinctKeys(ByWords, pool)
    ensures forall i :: 0 <= i < |pool| ==> UniqKey(pool[i]) != [] && UniqKey(pool[i]) !in usedKeys
  {
    FreshFoldKeys(ByWords, items, usedKeys);
  }

  // ------------------------------------------------------------ emergency

  /** The prompt of `buildEmergencyQuestion` up to the bracketed token. */
  function EmergencyLead(theme: string): string {
    "Какое утверждение по теме «" + theme + "» верно? "
  }

  /** `buildEmergencyQuestion(room, seq)`: a placeholder question numbered
      `seq + 1`. The id's timestamp is not modelled. */
  function EmergencyQuestion(theme: string, seqNo: nat): (q: Question)
    ensures q.correctIndex == 0 && |q.options| == 4
  {
    var token := Decimal(seqNo + 1);
    Question(
      "fallback-" + token,
      EmergencyLead(theme) + "(" + token + ")",
      ["Корректный факт по теме «" + theme + "»",
       "Случайное неверное утверждение №" + token + "A",
       "Случайное неверное утверждение №" + token + "B",
       "Случайное неверное утверждение №" + token + "C"],
      0,
      "Правильный вариант отмечает корректный факт по теме «" + theme + "».",
      Easy)
  }

  /** The key of every emergency question is a fixed stem followed by its
      token's digits. */
  function EmergencyStem(theme: string): string {
    var w := Words(EmergencyLead(theme));
    if w == [] then [] else Join(w, " ") + " "
  }

  lemma EmergencyKeyShape(theme: string, seqNo: nat)
    ensures UniqKey(EmergencyQuestion(theme, seqNo)) == EmergencyStem(theme) + Decimal(seqNo + 1)
  {
    var lead, d := EmergencyLead(theme), Decimal(seqNo + 1);
    assert EmergencyQuestion(theme, seqNo).prompt == lead + "(" + d + ")";
    WordsOfBracketedDigits(lead, d);
    JoinSnoc(Words(lead), d, " ");
  }

  /** Emergency keys are non-empty. */
  lemma EmergencyKeyNonEmpty(theme: string, seqNo: nat)
    ensures UniqKey(EmergencyQuestion(theme, seqNo)) != []
  {
    EmergencyKeyShape(theme, seqNo);
  }

  /** Emergency keys differ for different sequence numbers. */
  lemma EmergencyKeyInjective(theme: string, s1: nat, s2: nat)
    requires UniqKey(EmergencyQuestion(theme, s1)) == UniqKey(EmergencyQuestion(theme, s2))
    ensures s1 == s2
  {
    EmergencyKeyShape(theme, s1);
    EmergencyKeyShape(theme, s2);
    var stem := EmergencyStem(theme);
    var d1, d2 := Decimal(s1 + 1), Decimal(s2 + 1);
    assert d1 == (stem + d1)[|stem|..];
    assert d2 == (stem + d2)[|stem|..];
    DecimalInjective(s1 + 1, s2 + 1);
  }

  /** An emergency key no longer than `n` characters has a token below 10^n. */
  lemma EmergencyKeyBound(theme: string, seqNo: nat)
    ensures seqNo + 1 < Pow10(|UniqKey(EmergencyQuestion(theme, seqNo))|)
  {
    EmergencyKeyShape(theme, seqNo);
    DecimalBelowPow10(seqNo + 1);
    Pow10Monotone(|Decimal(seqNo + 1)|, |EmergencyStem(theme) + Decimal(seqNo + 1)|);
  }

  function Pow10(n: nat): (r: nat)
    ensures r >= 1
  {
    if n == 0 then 1 else 10 * Pow10(n - 1)
  }

  lemma {:induction false} Pow10Monotone(m: nat, n: nat)
    requires m <= n
    ensures Pow10(m) <= Pow10(n)
    decreases n
  {
    if m < n {
      Pow10Monotone(m, n - 1);
    }
  }

  lemma {:induction false} DecimalBelowPow10(n: nat)
    ensures n < Pow10(|Decimal(n)|)
  {
    if n >= 10 {
      DecimalBelowPow10(n / 10);
    }
  }

  /** The length of the longest key in a finite set. */
  ghost function MaxLength(s: set<string>): (m: nat)
    ensures forall x :: x in s ==> |x| <= m
    decreases |s|
  {
    if s == {} then 0
    else
      var x :| x in s;
      var rest := MaxLength(s - {x});
      if |x| >= rest then |x| else rest
  }

  /** An emergency key the fill loop skips was among the keys used before it
      started, so its token is below the bound that length gives. */
  lemma SkippedKeyIsOld(theme: string, used: set<string>, pushed: set<nat>, s: nat)
    requires forall t :: t in pushed ==> t < s
    ensures UniqKey(EmergencyQuestion(theme, s)) != []
    ensures UniqKey(EmergencyQuestion(theme, s)) in used + EmergencyKeys(EmergencyStem(theme), pushed) ==>
      s + 1 < Pow10(MaxLength(used))
  {
    var key := UniqKey(EmergencyQuestion(theme, s));
    EmergencyKeyNonEmpty(theme, s);
    EmergencyKeyBound(theme, s);
    EmergencyKeyShape(theme, s);
    var stem := EmergencyStem(theme);
    if key in EmergencyKeys(stem, pushed) {
      var t :| t in pushed && stem + Decimal(t + 1) == key;
      assert Decimal(t + 1) == (stem + Decimal(t + 1))[|stem|..];
      assert Decimal(s + 1) == (stem + Decimal(s + 1))[|stem|..];
      DecimalInjective(t + 1, s + 1);
    }
    if key in used {
      Pow10Monotone(|key|, MaxLength(used));
    }
  }

  /** The keys of the emergency questions with the given numbers. */
  ghost function EmergencyKeys(stem: string, seqs: set<nat>): set<string> {
    set t | t in seqs :: stem + Decimal(t + 1)
  }

  lemma EmergencyKeysAdd(usedKeys: set<string>, stem: string, seqs: set<nat>, s: nat, used: set<string>)
    requires used == usedKeys + EmergencyKeys(stem, seqs)
    ensures used + {stem + Decimal(s + 1)} == usedKeys + EmergencyKeys(stem, seqs + {s})
  {
    assert EmergencyKeys(stem, seqs + {s}) == EmergencyKeys(stem, seqs) + {stem + Decimal(s + 1)};
  }

  /** One emergency loop of `applyGeneratedQuestionSets`: push emergency
      questions numbered from `offset + |list|` onwards, skipping any whose key
      is already used, until the list holds `count` questions. It ends because
      emergency keys differ by sequence number and only finitely many of them
      can be among the used keys. */
  method FillEmergency(list: seq<Question>, offset: nat, theme: string, usedKeys: set<string>, count: nat)
    returns (list': seq<Question>, usedKeys': set<string>)
    ensures |list'| == if |list| >= count then |list| else count
    ensures FreshExtension(list, list', usedKeys, usedKeys')
  {
    list' := list;
    usedKeys' := usedKeys;
    var emergencySeq := 0;
    ghost var bound := Pow10(MaxLength(usedKeys));
    ghost var pushed: set<nat> := {};
    assert list'[|list|..] == [];
    while |list'| < count
      invariant |list| <= |list'| <= if |list| >= count then |list| else count
      invariant usedKeys' == usedKeys + EmergencyKeys(EmergencyStem(theme), pushed)
      invariant forall s :: s in pushed ==> s < offset + |list'| + emergencySeq
      invariant FreshExtension(list, list', usedKeys, usedKeys')
      decreases count - |list'|, bound - (offset + |list'| + emergencySeq)
    {
      list', usedKeys', pushed := EmergencyStep(list, list', theme, usedKeys, usedKeys', pushed, offset + |list'| + emergencySeq);
      emergencySeq := emergencySeq + 1;
    }
  }

  /** One turn of the emergency loop for sequence number `s`: the question is
      pushed when its key is unused, and otherwise skipped, which can only
      happen while `s + 1` is below the bound the old keys give. */
  method EmergencyStep(ghost list: seq<Question>, current: seq<Question>, theme: string,
                       ghost usedKeys: set<string>, used: set<string>, ghost pushed: set<nat>, s: nat)
    returns (current': seq<Question>, used': set<string>, ghost pushed': set<nat>)
    requires FreshExtension(list, current, usedKeys, used)
    requires used == usedKeys + EmergencyKeys(EmergencyStem(theme), pushed)
    requires forall t :: t in pushed ==> t < s
    ensures FreshExtension(list, current', usedKeys, used')
    ensures used' == usedKeys + EmergencyKeys(EmergencyStem(theme), pushed')
    ensures forall t :: t in pushed' ==> t <= s
    ensures current' == current + [EmergencyQuestion(theme, s)] || (current' == current && s + 1 < Pow10(MaxLength(usedKeys)))
  {
    var emergency := EmergencyQuestion(theme, s);
    var key := UniqKey(emergency);
    SkippedKeyIsOld(theme, usedKeys, pushed, s);
    if key == [] || key in used {
      current', used', pushed' := current, used, pushed;
      return;
    }
    used' := used + {key};
    current' := current + [emergency];
    pushed' := pushed + {s};
    EmergencyKeyShape(theme, s);
    EmergencyKeysAdd(usedKeys, EmergencyStem(theme), pushed, s, used);
    PushOne(list, current, emergency, usedKeys, used);
  }

  lemma PushOne(list: seq<Question>, before: seq<Question>, q: Question, used: set<string>, usedBefore: set<string>)
    requires FreshExtension(list, before, used, usedBefore)
    requires UniqKey(q) != [] && UniqKey(q) !in usedBefore
    ensures FreshExtension(list, before + [q], used, usedBefore + {UniqKey(q)})
  {
    var after := before + [q];
    var x := before[|list|..];
    assert after[|list|..] == x + [q];
    assert after[..|list|] == list;
    forall i | 0 <= i < |x| ensures KeyOf(ByWords, x[i]) != KeyOf(ByWords, q) {
      assert x[i] == before[|list| + i];
    }
    DistinctKeysSnoc(ByWords, x, q);
    forall i | |list| <= i < |after|
      ensures UniqKey(after[i]) != [] && UniqKey(after[i]) !in used && UniqKey(after[i]) in usedBefore + {UniqKey(q)}
    {
      if i < |before| {
        assert after[i] == before[i];
      }
    }
  }

  // ------------------------------------------------------------ both lists

  /** Team sets whose keys are non-empty, recorded in `used`, distinct
      within each set and never shared between the two. */
  ghost predicate Apart(a: seq<Question>, b: seq<Question>, used: set<string>) {
    && FreshExtension([], a, {}, used)
    && FreshExtension([], b, {}, used)
    && forall i, j :: 0 <= i < |a| && 0 <= j < |b| ==> UniqKey(a[i]) != UniqKey(b[j])
  }

  lemma ApartExtend(a: seq<Question>, a': seq<Question>, b: seq<Question>, used: set<string>, used': set<string>)
    requires Apart(a, b, used) && FreshExtension(a, a', used, used')
    ensures Apart(a', b, used') && Apart(b, a', used')
  {
    assert a[0..] == a && a'[0..] == a' && b[0..] == b;
    var ext := a'[|a|..];
    forall j | 0 <= j < |ext| ensures KeyOf(ByWords, ext[j]) !in KeysOf(ByWords, a) {
      assert ext[j] == a'[|a| + j];
    }
    assert a' == a + ext;
    DistinctKeysAppend(ByWords, a, ext);
    forall i, j | 0 <= i < |a'| && 0 <= j < |b| ensures UniqKey(a'[i]) != UniqKey(b[j]) {
      if i < |a| {
        assert a'[i] == a[i];
      }
    }
    ApartSwap(a', b, used');
  }

  lemma ApartSwap(a: seq<Question>, b: seq<Question>, used: set<string>)
    requires Apart(a, b, used)
    ensures Apart(b, a, used)
  {
  }

  /** Two apart sets concatenate without a repeated key. */
  lemma ApartDistinct(a: seq<Question>, b: seq<Question>, used: set<string>)
    requires Apart(a, b, used)
    ensures DistinctKeys(ByWords, a + b)
  {
    assert a[0..] == a && b[0..] == b;
    forall j | 0 <= j < |b| ensures KeyOf(ByWords, b[j]) !in KeysOf(ByWords, a) {
    }
    DistinctKeysAppend(ByWords, a, b);
  }

  /** The free-for-all branch of `applyGeneratedQuestionSets`: the bank
      filled from the primary list, then the secondary, then (only when
      still short) the supplement pool, then emergency questions. */
  method ApplyFfa(generatedA: seq<Question>, generatedB: seq<Question>,
                  topUpA: seq<Question>, topUpB: seq<Question>, theme: string, questionCount: nat)
    returns (bank: seq<Question>)
    ensures |bank| == questionCount
    ensures DistinctKeys(ByWords, bank)
    ensures forall i :: 0 <= i < |bank| ==> UniqKey(bank[i]) != []
  {
    var primary := if |generatedA| > 0 then generatedA else generatedB;
    var secondary := if |generatedA| > 0 then generatedB else generatedA;
    var usedKeys: set<string> := {};
    var b0: seq<Question> := [];
    var b1, u1 := PushUniqueQuestions(b0, primary, usedKeys, questionCount);
    var b2, u2 := PushUniqueQuestions(b1, secondary, u1, questionCount);
    FreshExtensionTrans(b0, b1, b2, usedKeys, u1, u2);
    bank, usedKeys := b2, u2;
    if |bank| < questionCount {
      var pool := SupplementPool(topUpA, topUpB, usedKeys);
      var b3, u3 := PushUniqueQuestions(bank, pool, usedKeys, questionCount);
      FreshExtensionTrans(b0, bank, b3, {}, usedKeys, u3);
      bank, usedKeys := b3, u3;
    }
    var b4, u4 := FillEmergency(bank, 0, theme, usedKeys, questionCount);
    FreshExtensionTrans(b0, bank, b4, {}, usedKeys, u4);
    bank := b4;
    assert bank[0..] == bank;
  }

  /** The team branch of `applyGeneratedQuestionSets`: each set is filled
      from its own list and then from both, then from the supplement pool
      when either is short, then with emergency questions; one set of used
      keys serves both teams. */
  method ApplyTeams(generatedA: seq<Question>, generatedB: seq<Question>,
                    topUpA: seq<Question>, topUpB: seq<Question>, theme: string, questionCount: nat)
    returns (listA: seq<Question>, listB: seq<Question>)
    ensures |listA| == questionCount && |listB| == questionCount
    ensures DistinctKeys(ByWords, listA + listB)
    ensures forall i :: 0 <= i < |listA + listB| ==> UniqKey((listA + listB)[i]) != []
  {
    var usedKeys: set<string> := {};
    var crossPool := generatedA + generatedB;
    listA, listB := [], [];
    var a, b, u;
    a, u := PushUniqueQuestions(listA, generatedA, usedKeys, questionCount);
    ApartExtend(listA, a, listB, usedKeys, u);
    listA, usedKeys := a, u;
    a, u := PushUniqueQuestions(listA, crossPool, usedKeys, questionCount);
    ApartExtend(listA, a, listB, usedKeys, u);
    listA, usedKeys := a, u;
    b, u := PushUniqueQuestions(listB, generatedB, usedKeys, questionCount);
    ApartExtend(listB, b, listA, usedKeys, u);
    listB, usedKeys := b, u;
    b, u := PushUniqueQuestions(listB, crossPool, usedKeys, questionCount);
    ApartExtend(listB, b, listA, usedKeys, u);
    listB, usedKeys := b, u;

    var teamMissing := (if questionCount > |listA| then questionCount - |listA| else 0)
                     + (if questionCount > |listB| then questionCount - |listB| else 0);
    if teamMissing > 0 {
      var pool := SupplementPool(topUpA, topUpB, usedKeys);
      a, u := PushUniqueQuestions(listA, pool, usedKeys, questionCount);
      ApartExtend(listA, a, listB, usedKeys, u);
      listA, usedKeys := a, u;
      b, u := PushUniqueQuestions(listB, pool, usedKeys, questionCount);
      ApartExtend(listB, b, listA, usedKeys, u);
      listB, usedKeys := b, u;
    }

    a, u := FillEmergency(listA, |listB|, theme, usedKeys, questionCount);
    ApartExtend(listA, a, listB, usedKeys, u);
    listA, usedKeys := a, u;
    b, u := FillEmergency(listB, |listA|, theme, usedKeys, questionCount);
    ApartExtend(listB, b, listA, usedKeys, u);
    listB, usedKeys := b, u;
    ApartDistinct(listA, listB, usedKeys);
    assert listA[0..] == listA && listB[0..] == listB;
    forall i | 0 <= i < |listA + listB| ensures UniqKey((listA + listB)[i]) != [] {
      if i < |listA| {
        assert (listA + listB)[i] == listA[i];
      } else {
        assert (listA + listB)[i] == listB[i - |listA|];
      }
    }
  }
}
