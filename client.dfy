/** The text helpers of the browser client (`client/src/App.tsx`) that shape
    what a player reads: the XML escaping of the certificate, line
    shortening, the clock, rosters, initials, the round review badge and
    sentence, the question-pack toggle and the end-of-game counters. */
module Client {
  import opened Text
  import opened Generator
  import opened Rules
  import opened RoomSpec

  // ---------------------------------------------------------------- escapeXml

  /** `s.replace(/c/g, e)` for a one-character pattern. */
  function ReplaceAll(s: string, c: char, e: string): (r: string)
    ensures (forall i :: 0 <= i < |s| ==> s[i] != c) ==> r == s
  {
    if s == [] then [] else (if s[0] == c then e else [s[0]]) + ReplaceAll(s[1..], c, e)
  }

  lemma {:induction false} ReplaceAllAppend(a: string, b: string, c: char, e: string)
    ensures ReplaceAll(a + b, c, e) == ReplaceAll(a, c, e) + ReplaceAll(b, c, e)
  {
    if a != [] {
      assert (a + b)[0] == a[0] && (a + b)[1..] == a[1..] + b;
      ReplaceAllAppend(a[1..], b, c, e);
    } else {
      assert a + b == b;
    }
  }

  /** The five characters section 4.6 of XML 1.0 (Fifth Edition) gives
      predefined entities, in the order `escapeXml` replaces them. */
  const Specials: seq<char> := ['&', '<', '>', '"', '\'']

  const Entities: seq<string> := ["&amp;", "&lt;", "&gt;", "&quot;", "&apos;"]

  /** What a character has become after the first `k` replacements. */
  function EntityAfter(ch: char, k: nat): string {
    if k > 0 && ch == '&' then "&amp;"
    else if k > 1 && ch == '<' then "&lt;"
    else if k > 2 && ch == '>' then "&gt;"
    else if k > 3 && ch == '"' then "&quot;"
    else if k > 4 && ch == '\'' then "&apos;"
    else [ch]
  }

  /** A string after the first `k` replacements, character by character. */
  function EscapedAfter(s: string, k: nat): string {
    if s == [] then [] else EntityAfter(s[0], k) + EscapedAfter(s[1..], k)
  }

  /** The reference definition: every character escaped on its own. */
  function EscapeChar(ch: char): string {
    EntityAfter(ch, 5)
  }

  lemma {:induction false} EscapedAfterNone(s: string)
    ensures EscapedAfter(s, 0) == s
  {
    if s != [] {
      EscapedAfterNone(s[1..]);
    }
  }

  /** One replacement on one already-processed character.  Because `&` is
      replaced first, no later pattern occurs in an entity written earlier. */
  lemma StepChar(ch: char, k: nat)
    requires k < 5
    ensures ReplaceAll(EntityAfter(ch, k), Specials[k], Entities[k]) == EntityAfter(ch, k + 1)
  {
    var t := EntityAfter(ch, k);
    if t != [ch] {
      assert forall i :: 0 <= i < |t| ==> t[i] != Specials[k];
    } else {
      assert ReplaceAll(t, Specials[k], Entities[k]) == (if ch == Specials[k] then Entities[k] else [ch]) + ReplaceAll([], Specials[k], Entities[k]);
    }
  }

  lemma {:induction false} Step(s: string, k: nat)
    requires k < 5
    ensures ReplaceAll(EscapedAfter(s, k), Specials[k], Entities[k]) == EscapedAfter(s, k + 1)
  {
    if s != [] {
      ReplaceAllAppend(EntityAfter(s[0], k), EscapedAfter(s[1..], k), Specials[k], Entities[k]);
      StepChar(s[0], k);
      Step(s[1..], k);
    }
  }

  /** The chain of `escapeXml` agrees with the per-character escaping. */
  lemma EscapeChain(s: string)
    ensures ReplaceAll(ReplaceAll(ReplaceAll(ReplaceAll(ReplaceAll(s, '&', "&amp;"), '<', "&lt;"), '>', "&gt;"), '"', "&quot;"), '\'', "&apos;")
            == EscapedAfter(s, 5)
  {
    EscapedAfterNone(s);
    Step(s, 0);
    Step(s, 1);
    Step(s, 2);
    Step(s, 3);
    Step(s, 4);
  }

  predicate IsSpecial(c: char) {
    c == '<' || c == '>' || c == '"' || c == '\''
  }

  /** Position `i` of `r` starts one of the five entity references. */
  predicate StartsEntity(r: string, i: nat)
    requires i <= |r|
  {
    var t := r[i..];
    "&amp;" <= t || "&lt;" <= t || "&gt;" <= t || "&quot;" <= t || "&apos;" <= t
  }

  lemma {:induction false} EscapedNoSpecials(s: string)
    ensures forall i :: 0 <= i < |EscapedAfter(s, 5)| ==> !IsSpecial(EscapedAfter(s, 5)[i])
  {
    if s != [] {
      EscapedNoSpecials(s[1..]);
      var h := EscapeChar(s[0]);
      assert forall i :: 0 <= i < |h| ==> !IsSpecial(h[i]);
    }
  }

  lemma {:induction false} EscapedAmpersands(s: string)
    ensures forall i :: 0 <= i < |EscapedAfter(s, 5)| && EscapedAfter(s, 5)[i] == '&' ==> StartsEntity(EscapedAfter(s, 5), i)
  {
    if s != [] {
      EscapedAmpersands(s[1..]);
      var h, rest := EscapeChar(s[0]), EscapedAfter(s[1..], 5);
      var r := EscapedAfter(s, 5);
      assert r == h + rest;
      forall i | 0 <= i < |r| && r[i] == '&' ensures StartsEntity(r, i) {
        if i < |h| {
          assert h != [s[0]] && i == 0;
          assert h <= r[i..];
        } else {
          assert r[i..] == rest[i - |h|..];
        }
      }
    }
  }

  /** The decoder of the five entities, the inverse of the escaping. */
  function UnescapeXml(r: string): (s: string)
    decreases |r|
  {
    if r == [] then []
    else if "&amp;" <= r then ['&'] + UnescapeXml(r[5..])
    else if "&lt;" <= r then ['<'] + UnescapeXml(r[4..])
    else if "&gt;" <= r then ['>'] + UnescapeXml(r[4..])
    else if "&quot;" <= r then ['"'] + UnescapeXml(r[6..])
    else if "&apos;" <= r then ['\''] + UnescapeXml(r[6..])
    else [r[0]] + UnescapeXml(r[1..])
  }

  lemma UnescapeCons(ch: char, rest: string)
    ensures UnescapeXml(EscapeChar(ch) + rest) == [ch] + UnescapeXml(rest)
  {
    var r := EscapeChar(ch) + rest;
    if ch == '&' {
      assert "&amp;" <= r && r[5..] == rest;
    } else if ch == '<' {
      assert r[1] == 'l';
      assert !("&amp;" <= r) && "&lt;" <= r && r[4..] == rest;
    } else if ch == '>' {
      assert r[1] == 'g';
      assert !("&amp;" <= r) && !("&lt;" <= r) && "&gt;" <= r && r[4..] == rest;
    } else if ch == '"' {
      assert r[1] == 'q';
      assert !("&amp;" <= r) && !("&lt;" <= r) && !("&gt;" <= r) && "&quot;" <= r && r[6..] == rest;
    } else if ch == '\'' {
      assert r[1] == 'a' && r[2] == 'p';
      assert !("&amp;" <= r) && !("&lt;" <= r) && !("&gt;" <= r) && !("&quot;" <= r) && "&apos;" <= r && r[6..] == rest;
    } else {
      assert r[0] == ch && r[1..] == rest;
    }
  }

  lemma {:induction false} UnescapeEscaped(s: string)
    ensures UnescapeXml(EscapedAfter(s, 5)) == s
  {
    if s != [] {
      UnescapeCons(s[0], EscapedAfter(s[1..], 5));
      UnescapeEscaped(s[1..]);
    }
  }

  /** `escapeXml`: the five replacements, `&` first.  The result is the
      per-character escaping, holds none of `<`, `>`, `"` and `'`, has an
      entity reference at every `&`, and decodes back to the input. */
  function EscapeXml(s: string): (r: string)
    ensures r == EscapedAfter(s, 5)
    ensures forall i :: 0 <= i < |r| ==> !IsSpecial(r[i])
    ensures forall i :: 0 <= i < |r| && r[i] == '&' ==> StartsEntity(r, i)
    ensures UnescapeXml(r) == s
  {
    EscapeChain(s);
    EscapedNoSpecials(s);
    EscapedAmpersands(s);
    UnescapeEscaped(s);
    ReplaceAll(ReplaceAll(ReplaceAll(ReplaceAll(ReplaceAll(s, '&', "&amp;"), '<', "&lt;"), '>', "&gt;"), '"', "&quot;"), '\'', "&apos;")
  }

  // ---------------------------------------------------------------- trimLine, formatRoster

  const Ellipsis := '…'

  /** `trimLine(value, max)`: a line longer than `max` loses its tail to an
      ellipsis and is then exactly `max` characters long. */
  function TrimLine(value: string, max: int): (r: string)
    ensures |value| <= max ==> r == value
    ensures |value| > max >= 1 ==> |r| == max && r[..max - 1] == value[..max - 1] && r[max - 1] == Ellipsis
  {
    if |value| <= max then value else SliceTo(value, max - 1) + [Ellipsis]
  }

  /** A trimmed line is never longer than its limit. */
  lemma TrimLineFits(value: string, max: int)
    requires max >= 1
    ensures |TrimLine(value, max)| <= max
    ensures TrimLine(value, max) == value <==> |value| <= max
  {
    if |value| > max {
      assert |TrimLine(value, max)| == max;
    }
  }

  /** `formatRoster(names, max)`: a dash for nobody, all names when there
      are at most `max`, else the first `max` and the number left out. */
  function FormatRoster(names: seq<string>, max: nat): (r: string)
    ensures names == [] ==> r == "—"
    ensures 0 < |names| <= max ==> r == Text.Join(names, ", ")
    ensures |names| > max ==> r == Text.Join(names[..max], ", ") + " +" + Decimal(|names| - max)
  {
    if |names| == 0 then "—"
    else if |names| <= max then Text.Join(names, ", ")
    else Text.Join(names[..max], ", ") + " +" + Decimal(|names| - max)
  }

  /** The count after `+` is exactly the number of names left out, so two
      long rosters that read the same hide the same number of names. */
  lemma RosterCountsHidden(a: seq<string>, b: seq<string>, max: nat)
    requires |a| > max && |b| > max
    requires a[..max] == b[..max]
    requires FormatRoster(a, max) == FormatRoster(b, max)
    ensures |a| == |b|
  {
    var prefix := Text.Join(a[..max], ", ") + " +";
    assert FormatRoster(a, max) == prefix + Decimal(|a| - max);
    assert FormatRoster(b, max) == prefix + Decimal(|b| - max);
    assert Decimal(|a| - max) == FormatRoster(a, max)[|prefix|..];
    assert Decimal(|b| - max) == FormatRoster(b, max)[|prefix|..];
    DecimalInjective(|a| - max, |b| - max);
  }

  // ---------------------------------------------------------------- formatMs

  /** The number a string of decimal digits denotes. */
  function DigitsValue(s: string): nat {
    if s == [] then 0
    else
      var d := s[|s| - 1] as int - '0' as int;
      DigitsValue(s[..|s| - 1]) * 10 + (if 0 <= d then d else 0)
  }

  lemma {:induction false} DecimalValue(n: nat)
    ensures DigitsValue(Decimal(n)) == n
  {
    if n >= 10 {
      var s := Decimal(n);
      assert s[..|s| - 1] == Decimal(n / 10);
      DecimalValue(n / 10);
    }
  }

  lemma {:induction false} LeadingZero(s: string)
    ensures DigitsValue("0" + s) == DigitsValue(s)
  {
    if s != [] {
      assert ("0" + s)[..|"0" + s| - 1] == "0" + s[..|s| - 1];
      LeadingZero(s[..|s| - 1]);
    }
  }

  /** The number of whole seconds left, rounded up, never negative. */
  function CeilSeconds(ms: int): (r: nat)
    ensures ms <= 0 ==> r == 0
    ensures ms > 0 ==> (r - 1) * 1000 < ms <= r * 1000
  {
    if ms <= 0 then 0 else (ms + 999) / 1000
  }

  /** `formatMs`: `mm:ss` of the remaining time, minutes padded to two
      digits (and longer past 99), seconds always two digits below 60. */
  function FormatMs(ms: int): (r: string)
    ensures |r| >= 5 && r[|r| - 3] == ':'
    ensures forall i :: 0 <= i < |r| && i != |r| - 3 ==> IsDigit(r[i])
    ensures DigitsValue(r[|r| - 2..]) < 60
    ensures DigitsValue(r[..|r| - 3]) * 60 + DigitsValue(r[|r| - 2..]) == CeilSeconds(ms)
  {
    var total := CeilSeconds(ms);
    var minutes, seconds := total / 60, total % 60;
    var mm, ss := PadTwo(Decimal(minutes)), PadTwo(Decimal(seconds));
    PaddedValue(minutes);
    PaddedValue(seconds);
    var r := mm + ":" + ss;
    assert r[..|r| - 3] == mm && r[|r| - 2..] == ss;
    r
  }

  lemma PaddedValue(n: nat)
    ensures DigitsValue(PadTwo(Decimal(n))) == n
    ensures forall i :: 0 <= i < |PadTwo(Decimal(n))| ==> IsDigit(PadTwo(Decimal(n))[i])
    ensures n < 100 ==> |PadTwo(Decimal(n))| == 2
  {
    DecimalValue(n);
    if n < 10 {
      LeadingZero(Decimal(n));
    }
  }

  // ---------------------------------------------------------------- getInitials

  /** The index of the first whitespace of `s`, or `|s|`. */
  function FirstSpace(s: string): (i: nat)
    ensures i <= |s|
    ensures forall j :: 0 <= j < i ==> !IsSpace(s[j])
    ensures i < |s| ==> IsSpace(s[i])
  {
    if s == [] || IsSpace(s[0]) then 0 else 1 + FirstSpace(s[1..])
  }

  /** `s.split(/\s+/)`: the pieces between runs of whitespace.  As in
      JavaScript, the empty string splits into one empty piece. */
  function SplitSpaces(s: string): (r: seq<string>)
    ensures |r| >= 1
    ensures r[0] == s[..FirstSpace(s)]
    ensures |r| == 1 <==> FirstSpace(s) == |s|
    decreases |s|
  {
    var i := FirstSpace(s);
    if i == |s| then [s]
    else [s[..i]] + SplitSpaces(DropSpaces(s[i + 1..]))
  }

  /** A text without white space at either end splits into non-empty pieces. */
  lemma {:induction false} SplitPiecesNonEmpty(s: string)
    requires s != [] && !IsSpace(s[0]) && !IsSpace(s[|s| - 1])
    ensures forall k :: 0 <= k < |SplitSpaces(s)| ==> SplitSpaces(s)[k] != []
    decreases |s|
  {
    var i := FirstSpace(s);
    if i < |s| {
      var tail := s[i + 1..];
      assert tail != [] && tail[|tail| - 1] == s[|s| - 1];
      var rest := DropSpaces(tail);
      DropSpacesKeepsLast(tail);
      SplitPiecesNonEmpty(rest);
      SplitUnfold(s);
    }
  }

  /** One step of the split: the first piece, then the split of the rest. */
  lemma SplitUnfold(s: string)
    requires FirstSpace(s) < |s|
    ensures SplitSpaces(s) == [s[..FirstSpace(s)]] + SplitSpaces(DropSpaces(s[FirstSpace(s) + 1..]))
  {
  }

  /** Dropping leading white space keeps a visible last character. */
  lemma {:induction false} DropSpacesKeepsLast(t: string)
    requires t != [] && !IsSpace(t[|t| - 1])
    ensures var r := DropSpaces(t); r != [] && r[|r| - 1] == t[|t| - 1]
    decreases |t|
  {
    if IsSpace(t[0]) {
      assert |t| > 1 && t[1..][|t| - 2] == t[|t| - 1];
      DropSpacesKeepsLast(t[1..]);
    }
  }

  /** A name with a visible character splits, once trimmed, into
      non-empty pieces. */
  lemma TrimmedPiecesNonEmpty(name: string)
    requires Trim(name) != []
    ensures forall k :: 0 <= k < |SplitSpaces(Trim(name))| ==> SplitSpaces(Trim(name))[k] != []
  {
    SplitPiecesNonEmpty(Trim(name));
  }

  /** `parts[k][0] || ''`. */
  function FirstChar(s: string): string {
    if s == [] then [] else [s[0]]
  }

  /** `getInitials` as written: its `'??'` fallback guards an empty list of
      parts, which `split` never returns. */
  function InitialsAsWritten(name: string): (r: string)
    ensures |r| <= 2
    ensures Trim(name) != [] ==> 1 <= |r| && r[0] == UpperChar(Trim(name)[0])
    ensures Trim(name) != [] && |SplitSpaces(Trim(name))| == 1 ==> r == Upper(SliceTo(Trim(name), 2))
    ensures Trim(name) != [] && |SplitSpaces(Trim(name))| >= 2 ==>
              |r| == 2 && r[1..] == Upper(FirstChar(SplitSpaces(Trim(name))[1]))
  {
    var t := Trim(name);
    var parts := SplitSpaces(t);
    var firstTwo := if |parts| <= 2 then parts else parts[..2];
    if |firstTwo| == 0 then "??"
    else if |firstTwo| == 1 then Upper(SliceTo(firstTwo[0], 2))
    else
      assert t != [] && firstTwo[0] == parts[0] && firstTwo[1] == parts[1];
      TrimmedPiecesNonEmpty(name);
      Upper(FirstChar(firstTwo[0]) + FirstChar(firstTwo[1]))
  }

  /** A blank name gets no initials at all instead of the placeholder. */
  lemma BlankNameHasNoInitials(name: string)
    requires Trim(name) == []
    ensures InitialsAsWritten(name) == ""
  {
    assert FirstSpace([]) == 0;
    assert SplitSpaces(Trim(name)) == [[]];
  }

  /** The evidently intended `getInitials`: the placeholder for a blank
      name, else one or two upper-cased characters of the name. */
  function Initials(name: string): (r: string)
    ensures Trim(name) == [] ==> r == "??"
    ensures Trim(name) != [] ==> 1 <= |r| <= 2 && r[0] == UpperChar(Trim(name)[0])
    ensures Trim(name) != [] && |SplitSpaces(Trim(name))| == 1 ==> r == Upper(SliceTo(Trim(name), 2))
    ensures Trim(name) != [] && |SplitSpaces(Trim(name))| >= 2 ==>
              |r| == 2 && r[1..] == Upper(FirstChar(SplitSpaces(Trim(name))[1]))
  {
    var t := Trim(name);
    if t == [] then "??"
    else
      var parts := SplitSpaces(t);
      assert FirstSpace(t) >= 1 && parts[0] != [];
      var firstTwo := if |parts| <= 2 then parts else parts[..2];
      if |firstTwo| == 1 then Upper(SliceTo(firstTwo[0], 2))
      else
        TrimmedPiecesNonEmpty(name);
        Upper(FirstChar(firstTwo[0]) + FirstChar(firstTwo[1]))
  }

  /** On a name with a visible character both versions agree. */
  lemma InitialsAgreeOnNames(name: string)
    requires Trim(name) != []
    ensures Initials(name) == InitialsAsWritten(name)
  {
  }

  // ---------------------------------------------------------------- round review

  /** The six ways a round review is shown. */
  datatype ReviewKind = Explanation | TimedOut | HostSkipped | Passed | AnsweredRight | AnsweredWrong

  function KindOf(sub: Option<Submission>): ReviewKind {
    if sub.None? then Explanation
    else if sub.value.kind == Timeout then TimedOut
    else if sub.value.kind == Skip then HostSkipped
    else if sub.value.kind == Pass then Passed
    else if sub.value.correct then AnsweredRight
    else AnsweredWrong
  }

  datatype Presentation = Presentation(toneClass: string, icon: string, title: string)

  /** `getReviewPresentation`: the badge of a resolved round. */
  function ReviewPresentation(sub: Option<Submission>): (r: Presentation)
    ensures r.toneClass == "round-review-skip" <==> KindOf(sub) == HostSkipped || KindOf(sub) == Passed
  {
    match KindOf(sub)
    case Explanation => Presentation("round-review-neutral", "ℹ️", "Пояснение")
    case TimedOut => Presentation("round-review-timeout", "⏱", "Время вышло")
    case HostSkipped => Presentation("round-review-skip", "⏭", "Пропуск")
    case Passed => Presentation("round-review-skip", "⏸", "Пас")
    case AnsweredRight => Presentation("round-review-correct", "✅", "Верный ответ")
    case AnsweredWrong => Presentation("round-review-wrong", "❌", "Ошибка")
  }

  /** Different kinds of rounds always get different badges, and the same
      kind always the same one. */
  lemma PresentationIdentifiesKind(a: Option<Submission>, b: Option<Submission>)
    ensures ReviewPresentation(a) == ReviewPresentation(b) <==> KindOf(a) == KindOf(b)
  {
    var pa, pb := ReviewPresentation(a), ReviewPresentation(b);
    if KindOf(a) != KindOf(b) {
      assert pa.icon != pb.icon by {
        var ia, ib := pa.icon, pb.icon;
        assert ia[0] != ib[0];
      }
    }
  }

  /** `formatRoundOutcome`: the sentence under the badge. */
  function RoundOutcome(sub: Submission, format: Format): (r: string)
    ensures sub.kind != Timeout && sub.kind != Skip ==> sub.byName + " " <= r
  {
    if sub.kind == Timeout then
      (if format == Ffa then "Время вышло: игрок не отправил ответ."
       else "Время вышло: команда не отправила ответ.")
    else if sub.kind == Skip then "Раунд пропущен ведущим."
    else if sub.kind == Pass then sub.byName + " выбрал(а) пас."
    else if sub.correct then sub.byName + " дал(а) верный ответ (+" + Decimal(sub.points) + ")."
    else sub.byName + " ответил(а) неверно."
  }

  /** A timeout or a skip is told without any name: the sentence depends
      only on the kind of round and, for a timeout, on the format. */
  lemma OutcomeOfNamelessRounds(a: Submission, b: Submission, format: Format)
    requires a.kind == b.kind && (a.kind == Timeout || a.kind == Skip)
    ensures RoundOutcome(a, format) == RoundOutcome(b, format)
  {
  }

  /** The sentence of an answered round names the points exactly when the
      answer was right. */
  lemma OutcomeShowsPointsWhenRight(sub: Submission, format: Format)
    requires sub.kind == Answer && sub.correct
    ensures var r := RoundOutcome(sub, format);
      var tail := Decimal(sub.points) + ").";
      |r| >= |tail| && r[|r| - |tail|..] == tail
  {
  }

  // ---------------------------------------------------------------- toggleQuestionPack

  /** `current.filter((item) => item !== id)`. */
  function Without(current: seq<string>, id: string): (r: seq<string>)
    ensures id !in r
    ensures forall x :: x in r <==> x in current && x != id
    ensures id !in current ==> r == current
    ensures NoDuplicates(current) ==> NoDuplicates(r)
  {
    if current == [] then []
    else if current[0] == id then Without(current[1..], id)
    else
      var rest := Without(current[1..], id);
      assert NoDuplicates(current) ==> NoDuplicates(current[1..]) && current[0] !in rest;
      [current[0]] + rest
  }

  predicate NoDuplicates(s: seq<string>) {
    forall i, j :: 0 <= i < j < |s| ==> s[i] != s[j]
  }

  /** `toggleQuestionPack`: deselects a selected pack unless it is the only
      one, and selects an unselected pack by appending it. */
  function TogglePack(current: seq<string>, id: string): (r: seq<string>)
    ensures NoDuplicates(current) ==> r != [] && NoDuplicates(r)
    ensures id in r <==> !(id in current && |current| >= 2)
    ensures forall x :: x != id ==> (x in r <==> x in current)
    ensures id !in current ==> r == current + [id]
    ensures id in current && |current| <= 1 ==> r == current
  {
    if id in current then
      (if |current| <= 1 then current
       else
         var r := Without(current, id);
         assert NoDuplicates(current) ==> current[0] != current[1];
         assert current[0] != id ==> current[0] in r;
         assert current[1] != id ==> current[1] in r;
         r)
    else current + [id]
  }

  /** Selecting a new pack and toggling it again restores the selection. */
  lemma ToggleTwiceRestores(current: seq<string>, id: string)
    requires current != [] && id !in current
    ensures TogglePack(TogglePack(current, id), id) == current
  {
    WithoutAppended(current, id);
  }

  lemma {:induction false} WithoutAppended(current: seq<string>, id: string)
    requires id !in current
    ensures Without(current + [id], id) == current
  {
    if current == [] {
      assert [id][1..] == [];
    } else {
      assert (current + [id])[1..] == current[1..] + [id];
      WithoutAppended(current[1..], id);
    }
  }

  // ---------------------------------------------------------------- final summary

  /** The counters `finalSummary` accumulates over the round history. */
  datatype Counters = Counters(correct: nat, wrong: nat, timeouts: nat, passes: nat, skipped: nat,
                               elapsedTotal: nat, elapsedCount: nat)

  /** One entry's effect on the counters. */
  function CountEntry(c: Counters, sub: Submission): Counters {
    if sub.kind == Timeout then c.(timeouts := c.timeouts + 1)
    else if sub.kind == Pass then c.(passes := c.passes + 1)
    else if sub.kind == Skip then c.(skipped := c.skipped + 1)
    else
      var c1 := c.(elapsedTotal := c.elapsedTotal + (if sub.elapsedMs > 0 then sub.elapsedMs else 0),
                   elapsedCount := c.elapsedCount + 1);
      if sub.correct then c1.(correct := c1.correct + 1) else c1.(wrong := c1.wrong + 1)
  }

  /** The counters after the first `|h|` entries. */
  function Tally(h: seq<HistoryEntry>): Counters {
    if h == [] then Counters(0, 0, 0, 0, 0, 0, 0)
    else CountEntry(Tally(h[..|h| - 1]), h[|h| - 1].submission)
  }

  /** Every round lands in exactly one counter, and only answered rounds
      contribute a response time. */
  lemma {:induction false} TallyPartitions(h: seq<HistoryEntry>)
    ensures var c := Tally(h);
      && c.correct + c.wrong + c.timeouts + c.passes + c.skipped == |h|
      && c.elapsedCount == c.correct + c.wrong
  {
    if h != [] {
      TallyPartitions(h[..|h| - 1]);
    }
  }

  /** `Math.round(100 * correct / total)`, rounding halves up, or 0 without rounds. */
  function Accuracy(correct: nat, total: nat): (r: nat)
    ensures total == 0 ==> r == 0
    ensures total > 0 ==> r * (2 * total) <= 200 * correct + total < (r + 1) * (2 * total)
    ensures correct <= total ==> r <= 100
  {
    if total == 0 then 0
    else
      var d, x := 2 * total, 200 * correct + total;
      var q := x / d;
      assert q * d + x % d == x && 0 <= x % d < d;
      assert (q + 1) * d == q * d + d;
      assert correct <= total ==> x < 101 * d;
      assert correct <= total ==> q <= 100 by {
        if correct <= total && q > 100 {
          MulMonotone(101, q, d);
        }
      }
      q
  }

  datatype FinalSummary = FinalSummary(totalRounds: nat, counters: Counters, accuracy: nat)

  /** The counting part of `finalSummary`: one pass over the history. */
  method SummarizeHistory(history: seq<HistoryEntry>) returns (s: FinalSummary)
    ensures s.totalRounds == |history|
    ensures s.counters == Tally(history)
    ensures s.accuracy == Accuracy(s.counters.correct, |history|)
    ensures s.counters.correct + s.counters.wrong + s.counters.timeouts + s.counters.passes + s.counters.skipped == |history|
    ensures s.accuracy <= 100
  {
    var correctRounds: nat, wrongRounds: nat, timeoutRounds: nat, passRounds: nat, skippedRounds: nat := 0, 0, 0, 0, 0;
    var elapsedTotal: nat, elapsedCount: nat := 0, 0;
    var i := 0;
    while i < |history|
      invariant 0 <= i <= |history|
      invariant Counters(correctRounds, wrongRounds, timeoutRounds, passRounds, skippedRounds, elapsedTotal, elapsedCount)
                == Tally(history[..i])
    {
      assert history[..i + 1][..i] == history[..i];
      var submission := history[i].submission;
      if submission.kind == Timeout {
        timeoutRounds := timeoutRounds + 1;
      } else if submission.kind == Pass {
        passRounds := passRounds + 1;
      } else if submission.kind == Skip {
        skippedRounds := skippedRounds + 1;
      } else {
        elapsedTotal := elapsedTotal + (if submission.elapsedMs > 0 then submission.elapsedMs else 0);
        elapsedCount := elapsedCount + 1;
        if submission.correct {
          correctRounds := correctRounds + 1;
        } else {
          wrongRounds := wrongRounds + 1;
        }
      }
      i := i + 1;
    }
    assert history[..i] == history;
    var counters := Counters(correctRounds, wrongRounds, timeoutRounds, passRounds, skippedRounds, elapsedTotal, elapsedCount);
    TallyPartitions(history);
    s := FinalSummary(|history|, counters, Accuracy(correctRounds, |history|));
  }
}
