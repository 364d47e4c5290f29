/** The mutable module state of server/questionGenerator.js: the two bounded
    TTL caches (`contextCache`, `questionImageCache`), the provider cooldown
    table, and the provider orderings that read it.  `Date.now()` is the
    `now` parameter. */
module Providers {
  import opened Text
  import opened Generator

  // ---------------------------------------------------------------------
  // Provider ordering

  datatype Provider = OpenAi | Gemini | Groq | Yandex | GigaChat

  /** `providerOrder(mode)`: the providers tried for generation, in order. */
  function ProviderOrder(mode: AiMode): (r: seq<Provider>)
    ensures forall i, j :: 0 <= i < j < |r| ==> r[i] != r[j]
    ensures mode == Synthetic <==> r == []
    ensures mode == Hybrid || mode == OpenAiMode || mode == Auto ==> |r| == 5
    ensures mode == Free ==> OpenAi !in r
  {
    match mode
    case OpenAiMode => [OpenAi, Yandex, GigaChat, Groq, Gemini]
    case YandexMode => [Yandex, GigaChat, Groq, Gemini]
    case GigaChatMode => [GigaChat, Yandex, Gemini, Groq]
    case Hybrid => [Yandex, GigaChat, Gemini, Groq, OpenAi]
    case Auto => [OpenAi, Yandex, GigaChat, Groq, Gemini]
    case Free => [Yandex, GigaChat, Groq, Gemini]
    case Synthetic => []
  }

  /** The order in which `pickReviewerProvider` tries reviewers for a
      generating provider: every other provider exactly once. */
  function ReviewerPreference(generator: Provider): (r: seq<Provider>)
    ensures |r| == 4 && generator !in r
    ensures forall i, j :: 0 <= i < j < |r| ==> r[i] != r[j]
  {
    match generator
    case OpenAi => [Yandex, GigaChat, Groq, Gemini]
    case Groq => [Yandex, GigaChat, OpenAi, Gemini]
    case Gemini => [Yandex, GigaChat, Groq, OpenAi]
    case Yandex => [GigaChat, Gemini, Groq, OpenAi]
    case GigaChat => [Yandex, Gemini, Groq, OpenAi]
  }

  /** Every provider other than the generator is on its preference list. */
  lemma ReviewerPreferenceCovers(generator: Provider, p: Provider)
    requires p != generator
    ensures p in ReviewerPreference(generator)
  {
    match p
    case OpenAi =>
    case Gemini =>
    case Groq =>
    case Yandex =>
    case GigaChat =>
  }

  function FirstAvailable(candidates: seq<Provider>, available: set<Provider>, fallback: Provider): (r: Provider)
    ensures r == fallback || (r in candidates && r in available)
    ensures (forall p :: p in candidates ==> p !in available) ==> r == fallback
    ensures (exists p :: p in candidates && p in available) ==> r in candidates && r in available
  {
    if candidates == [] then fallback
    else if candidates[0] in available then candidates[0]
    else FirstAvailable(candidates[1..], available, fallback)
  }

  /** Every candidate before the chosen one is unavailable. */
  lemma {:induction false} FirstAvailableIsFirst(candidates: seq<Provider>, available: set<Provider>, fallback: Provider, i: nat)
    requires i < |candidates| && candidates[i] == FirstAvailable(candidates, available, fallback)
    requires candidates[i] != fallback && forall j, k :: 0 <= j < k < |candidates| ==> candidates[j] != candidates[k]
    ensures forall j :: 0 <= j < i ==> candidates[j] !in available
  {
    if candidates[0] !in available {
      if i > 0 {
        FirstAvailableIsFirst(candidates[1..], available, fallback, i - 1);
        assert forall j :: 1 <= j < i ==> candidates[j] == candidates[1..][j - 1];
      }
    }
  }

  /** `pickReviewerProvider`: the first available provider of the
      generator's preference list, or the generator itself when none is. */
  function PickReviewerProvider(generator: Provider, available: set<Provider>): (r: Provider)
    ensures r == generator || r in available
  {
    FirstAvailable(ReviewerPreference(generator), available, generator)
  }

  /** The generator reviews its own questions exactly when no other provider
      is available. */
  lemma ReviewerIsAnotherWhenPossible(generator: Provider, available: set<Provider>)
    ensures PickReviewerProvider(generator, available) == generator
            <==> forall p :: p in available ==> p == generator
    ensures var r := PickReviewerProvider(generator, available);
      r != generator ==> forall i :: 0 <= i < 4 && ReviewerPreference(generator)[i] == r ==>
        forall j :: 0 <= j < i ==> ReviewerPreference(generator)[j] !in available
  {
    var r := PickReviewerProvider(generator, available);
    forall i | 0 <= i < 4 && ReviewerPreference(generator)[i] == r && r != generator
      ensures forall j :: 0 <= j < i ==> ReviewerPreference(generator)[j] !in available
    {
      FirstAvailableIsFirst(ReviewerPreference(generator), available, generator, i);
    }
    var pref := ReviewerPreference(generator);
    if exists p :: p in available && p != generator {
      var p :| p in available && p != generator;
      ReviewerPreferenceCovers(generator, p);
    }
  }

  // ---------------------------------------------------------------------
  // Provider cooldowns

  /** `providerCooldownUntil`: per provider, the time until which it is not used. */
  class ProviderCooldowns {
    const cooldownMs: int
    var until: map<Provider, int>

    /** The cooldown length is `AI_PROVIDER_COOLDOWN_MS`, clamped. */
    constructor(envCooldown: Option<int>)
      ensures cooldownMs == ClampNumber(envCooldown, 600000, 60000, 3600000)
      ensures until == map[OpenAi := 0, Gemini := 0, Groq := 0, Yandex := 0, GigaChat := 0]
    {
      cooldownMs := ClampNumber(envCooldown, 600000, 60000, 3600000);
      until := map[OpenAi := 0, Gemini := 0, Groq := 0, Yandex := 0, GigaChat := 0];
    }

    /** `isProviderCoolingDown`. */
    predicate IsCoolingDown(p: Provider, now: int)
      reads this
    {
      p in until && until[p] > now
    }

    /** `setProviderCooldown`: the provider rests for `cooldownMs` from now;
        the other providers are untouched. */
    method SetCooldown(p: Provider, now: int)
      modifies this
      ensures until == old(until)[p := now + cooldownMs]
      ensures forall t :: now <= t < now + cooldownMs ==> IsCoolingDown(p, t)
      ensures forall q, t :: q != p ==> (IsCoolingDown(q, t) <==> old(IsCoolingDown(q, t)))
    {
      until := until[p := now + cooldownMs];
    }

    /** `providerAvailable` over the set of providers whose credentials are
        configured. */
    function Available(configured: set<Provider>, now: int): (r: set<Provider>)
      reads this
      ensures forall p :: p in r <==> p in configured && !IsCoolingDown(p, now)
    {
      set p | p in configured && !IsCoolingDown(p, now)
    }
  }

  // ---------------------------------------------------------------------
  // Bounded TTL caches

  datatype Entry<V> = Entry(value: V, expiresAt: int)

  /** The keys of a JavaScript `Map` without `key`, in order. */
  function Without(order: seq<string>, key: string): (r: seq<string>)
    ensures forall k :: k in r <==> k in order && k != key
    ensures |r| <= |order|
  {
    if order == [] then []
    else if order[0] == key then Without(order[1..], key)
    else [order[0]] + Without(order[1..], key)
  }

  lemma {:induction false} WithoutKeepsDistinct(order: seq<string>, key: string)
    requires forall i, j :: 0 <= i < j < |order| ==> order[i] != order[j]
    ensures var r := Without(order, key); forall i, j :: 0 <= i < j < |r| ==> r[i] != r[j]
    ensures key in order ==> |Without(order, key)| == |order| - 1
  {
    if order != [] {
      WithoutKeepsDistinct(order[1..], key);
      if order[0] != key {
        var rest := Without(order[1..], key);
        assert Without(order, key) == [order[0]] + rest;
        assert order[0] !in order[1..];
        assert order[0] !in rest;
        assert key in order ==> key in order[1..];
      } else {
        assert Without(order[1..], key) == order[1..] by {
          WithoutAbsent(order[1..], key);
        }
      }
    }
  }

  lemma {:induction false} WithoutAbsent(order: seq<string>, key: string)
    requires key !in order
    ensures Without(order, key) == order
  {
    if order != [] {
      WithoutAbsent(order[1..], key);
    }
  }

  /** A `Map` used as a cache: entries expire at `expiresAt`, and once the
      size reaches `capacity` a write first evicts the oldest key.  `order`
      is the Map's insertion order, so its length is the Map's size. */
  class TtlCache<V> {
    const capacity: int
    const ttl: int
    var entries: map<string, Entry<V>>
    var order: seq<string>

    ghost predicate Valid()
      reads this
    {
      && capacity >= 1
      && (forall i, j :: 0 <= i < j < |order| ==> order[i] != order[j])
      && (forall k :: k in entries <==> k in order)
    }

    /** The cache stays within its capacity as long as no key is empty
        (an empty oldest key is not evicted by the code). */
    ghost predicate Bounded()
      reads this
    {
      Valid() && |order| <= capacity && "" !in entries
    }

    /** `contextCache` with `CONTEXT_CACHE_MAX` and `CONTEXT_CACHE_TTL_MS`. */
    constructor Context(envMax: Option<int>, envTtl: Option<int>)
      ensures capacity == ClampNumber(envMax, 120, 20, 500)
      ensures ttl == ClampNumber(envTtl, 1200000, 60000, 7200000)
      ensures entries == map[] && order == [] && Bounded()
    {
      capacity := ClampNumber(envMax, 120, 20, 500);
      ttl := ClampNumber(envTtl, 1200000, 60000, 7200000);
      entries := map[];
      order := [];
    }

    /** `questionImageCache` with `QUESTION_IMAGE_CACHE_MAX` and
        `QUESTION_IMAGE_CACHE_TTL_MS`. */
    constructor Images(envMax: Option<int>, envTtl: Option<int>)
      ensures capacity == ClampNumber(envMax, 1200, 150, 4000)
      ensures ttl == ClampNumber(envTtl, 43200000, 1800000, 259200000)
      ensures entries == map[] && order == [] && Bounded()
    {
      capacity := ClampNumber(envMax, 1200, 150, 4000);
      ttl := ClampNumber(envTtl, 43200000, 1800000, 259200000);
      entries := map[];
      order := [];
    }

    /** `readContextCache` / `readQuestionImageCache`: a live entry's value;
        an expired entry (`expiresAt <= now`) is deleted and reads as None. */
    method Read(key: string, now: int) returns (r: Option<V>)
      requires Valid()
      modifies this
      ensures Valid()
      ensures key !in old(entries) ==> r == None && entries == old(entries) && order == old(order)
      ensures key in old(entries) && old(entries)[key].expiresAt <= now ==>
        r == None && entries == old(entries) - {key} && order == Without(old(order), key)
      ensures key in old(entries) && old(entries)[key].expiresAt > now ==>
        r == Some(old(entries)[key].value) && entries == old(entries) && order == old(order)
      ensures old(Bounded()) ==> Bounded()
    {
      if key !in entries {
        return None;
      }
      var entry := entries[key];
      if entry.expiresAt <= now {
        WithoutKeepsDistinct(order, key);
        entries := entries - {key};
        order := Without(order, key);
        return None;
      }
      return Some(entry.value);
    }

    /** `writeContextCache` / `writeQuestionImageCache`.  At capacity the
        oldest key is evicted first (when it is not empty); then the key is
        set, keeping its place if it was present and going last otherwise. */
    method Write(key: string, value: V, now: int)
      requires Valid()
      modifies this
      ensures Valid()
      ensures var evict := |old(order)| >= capacity && old(order) != [] && old(order)[0] != "";
        var order1 := if evict then old(order)[1..] else old(order);
        var entries1 := if evict then old(entries) - {old(order)[0]} else old(entries);
        && entries == entries1[key := Entry(value, now + ttl)]
        && order == (if key in entries1 then order1 else order1 + [key])
      ensures key in entries && entries[key] == Entry(value, now + ttl)
      ensures old(Bounded()) && key != "" ==> Bounded()
    {
      if |order| >= capacity && order != [] && order[0] != "" {
        var oldest := order[0];
        assert oldest !in order[1..];
        entries := entries - {oldest};
        order := order[1..];
      }
      if key !in entries {
        order := order + [key];
      }
      entries := entries[key := Entry(value, now + ttl)];
    }
  }

  /** The context cache's key: the normalised theme, lower-cased; never empty,
      so the context cache never exceeds its capacity. */
  function ContextKey(theme: string): (r: string)
    ensures r != [] && |r| <= 120
  {
    Lower(NormalizeTheme(theme))
  }
}
