/** The question record shared by the generator and the room engine, and the
    three keys the code compares questions by. */
module Quiz {
  import opened Text

  datatype Difficulty = Easy | Medium | Hard

  /** Position on the difficulty curve: easy < medium < hard. */
  function Rank(d: Difficulty): nat {
    match d
    case Easy => 0
    case Medium => 1
    case Hard => 2
  }

  /** A question as the pipeline hands it to a room (the optional image is
      not modelled). */
  datatype Question = Question(
    id: string,
    prompt: string,
    options: seq<string>,
    correctIndex: int,
    explanation: string,
    difficulty: Difficulty)

  /** The maximal runs of letters and digits of `s`, lower-cased.  Joined by
      single spaces they are what `questionUniqKey` computes: lower-case,
      every other character to a space, runs of spaces collapsed, trimmed. */
  function Words(s: string): (r: seq<string>)
    ensures s != [] && IsLetterOrDigit(s[|s| - 1]) ==> |r| >= 1
    ensures forall i :: 0 <= i < |r| ==> r[i] != []
    decreases |s|
  {
    if s == [] then []
    else
      var p, c := s[..|s| - 1], s[|s| - 1];
      if !IsLetterOrDigit(c) then Words(p)
      else if p != [] && IsLetterOrDigit(p[|p| - 1]) then
        var w := Words(p);
        w[..|w| - 1] + [w[|w| - 1] + [LowerChar(c)]]
      else Words(p) + [[LowerChar(c)]]
  }

  /** `questionUniqKey` of server/index.js: the key rooms deduplicate by. */
  function UniqKey(q: Question): string {
    Join(Words(q.prompt), " ")
  }

  /** `questionKey` of the generator: lower-cased and trimmed prompt. */
  function TrimmedKey(q: Question): string {
    Lower(Trim(q.prompt))
  }

  /** The key `uniquePush` and `pushUniqueByQuestion` use: the lower-cased prompt. */
  function PromptKey(q: Question): string {
    Lower(q.prompt)
  }

  /** Which of the three keys a deduplicating loop compares by. */
  datatype KeyKind = ByPrompt | ByTrimmed | ByWords

  function KeyOf(kind: KeyKind, q: Question): string {
    match kind
    case ByPrompt => PromptKey(q)
    case ByTrimmed => TrimmedKey(q)
    case ByWords => UniqKey(q)
  }

  /** No two questions of the list share a key. */
  predicate DistinctKeys(kind: KeyKind, qs: seq<Question>) {
    forall i, j :: 0 <= i < j < |qs| ==> KeyOf(kind, qs[i]) != KeyOf(kind, qs[j])
  }

  function KeysOf(kind: KeyKind, qs: seq<Question>): (r: set<string>)
    ensures forall i :: 0 <= i < |qs| ==> KeyOf(kind, qs[i]) in r
    ensures forall k :: k in r ==> exists i :: 0 <= i < |qs| && KeyOf(kind, qs[i]) == k
  {
    set i | 0 <= i < |qs| :: KeyOf(kind, qs[i])
  }

  /** Appending a question whose key is absent keeps the keys distinct. */
  lemma DistinctKeysSnoc(kind: KeyKind, qs: seq<Question>, q: Question)
    requires DistinctKeys(kind, qs)
    requires forall i :: 0 <= i < |qs| ==> KeyOf(kind, qs[i]) != KeyOf(kind, q)
    ensures DistinctKeys(kind, qs + [q])
  {
    var t := qs + [q];
    forall i, j | 0 <= i < j < |t| ensures KeyOf(kind, t[i]) != KeyOf(kind, t[j]) {
      assert t[i] == qs[i];
      if j < |qs| {
        assert t[j] == qs[j];
      }
    }
  }

  /** Two lists with distinct keys, none of the second's among the first's,
      concatenate to a list with distinct keys. */
  lemma DistinctKeysAppend(kind: KeyKind, a: seq<Question>, b: seq<Question>)
    requires DistinctKeys(kind, a) && DistinctKeys(kind, b)
    requires forall j :: 0 <= j < |b| ==> KeyOf(kind, b[j]) !in KeysOf(kind, a)
    ensures DistinctKeys(kind, a + b)
  {
    var t := a + b;
    forall i, j | 0 <= i < j < |t| ensures KeyOf(kind, t[i]) != KeyOf(kind, t[j]) {
      if j < |a| {
        assert t[i] == a[i] && t[j] == a[j];
      } else if i < |a| {
        assert t[i] == a[i] && t[j] == b[j - |a|];
      } else {
        assert t[i] == b[i - |a|] && t[j] == b[j - |a|];
      }
    }
  }

  /** A run of digits closed by a bracket is the last word of the key. */
  lemma {:induction false} WordsOfBracketedDigits(x: string, d: string)
    requires d != [] && forall i :: 0 <= i < |d| ==> IsDigit(d[i])
    ensures Words(x + "(" + d + ")") == Words(x) + [d]
  {
    var s := x + "(" + d + ")";
    assert s[..|s| - 1] == x + "(" + d;
    WordsOfOpenDigits(x, d);
  }

  lemma {:induction false} WordsOfOpenDigits(x: string, d: string)
    requires d != [] && forall i :: 0 <= i < |d| ==> IsDigit(d[i])
    ensures Words(x + "(" + d) == Words(x) + [d]
    decreases |d|
  {
    var s := x + "(" + d;
    var p := s[..|s| - 1];
    if |d| == 1 {
      assert p == x + "(";
      assert p[..|p| - 1] == x;
      assert Words(p) == Words(x);
      assert [LowerChar(d[0])] == d;
    } else {
      var d' := d[..|d| - 1];
      assert p == x + "(" + d';
      WordsOfOpenDigits(x, d');
      assert d == d' + [LowerChar(d[|d| - 1])];
    }
  }
}
