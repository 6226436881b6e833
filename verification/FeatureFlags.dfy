/** Feature flags: Redis values behind a memory cache of thirty seconds in each instance. */
module FeatureFlags {
  import opened Wrappers
  import opened JsText
  import TtlCache

  const CACHE_TTL_MS: nat := 30_000

  function KnownFlags(): seq<Text> {
    [Ascii("oauth_google"), Ascii("oauth_microsoft"), Ascii("electronic_signature"), Ascii("magic_link"),
      Ascii("superadmin_panel")]
  }

  datatype CacheEntry = CacheEntry(value: bool, expiresAt: int)

  function RedisKey(flag: Text): Text { Ascii("feature:") + flag }

  lemma FlagsDoNotShareKeys(flag: Text, other: Text)
    requires flag != other
    ensures RedisKey(flag) != RedisKey(other)
  {
    assert RedisKey(flag)[|Ascii("feature:")|..] == flag && RedisKey(other)[|Ascii("feature:")|..] == other;
  }

  predicate ParseValue(raw: Option<Text>) {
    raw.Some? && (raw.value == Ascii("on") || raw.value == Ascii("true") || raw.value == Ascii("1"))
  }

  /** A flag is on exactly when Redis holds on, true or 1. */
  lemma OnValues(raw: Option<Text>)
    ensures ParseValue(raw) <==> raw in {Some([0x6F, 0x6E]), Some([0x74, 0x72, 0x75, 0x65]), Some([0x31])}
  {
    assert Ascii("on") == [0x6F, 0x6E] && Ascii("true") == [0x74, 0x72, 0x75, 0x65] && Ascii("1") == [0x31];
  }

  function RawOf(enabled: bool): Text { if enabled then Ascii("on") else Ascii("off") }

  function Lookup<K, V>(m: map<K, V>, k: K): Option<V> {
    if k in m then Some(m[k]) else None
  }

  predicate Unexpired(entry: Option<CacheEntry>, now: int) {
    entry.Some? && entry.value.expiresAt > now
  }

  /** What a read answers and what it leaves in the cache. */
  function ReadFlag(entry: Option<CacheEntry>, raw: Option<Text>, now: int): (bool, CacheEntry) {
    if Unexpired(entry, now) then (entry.value.value, entry.value)
    else (ParseValue(raw), CacheEntry(ParseValue(raw), now + CACHE_TTL_MS))
  }

  /** These flags have Redis's value for another thirty seconds; other entries are as before. */
  ghost predicate Refreshed(cache: map<Text, CacheEntry>, before: map<Text, CacheEntry>, redis: map<Text, Text>,
                            flags: seq<Text>, now: int) {
    forall flag :: Lookup(cache, flag) == if flag in flags
      then Some(CacheEntry(ParseValue(Lookup(redis, RedisKey(flag))), now + CACHE_TTL_MS))
      else Lookup(before, flag)
  }

  class FeatureFlagsService {
    var cache: map<Text, CacheEntry>
    /** The values in Redis, which all instances share. */
    var redis: map<Text, Text>

    constructor ()
      ensures cache == map[] && redis == map[]
    {
      cache, redis := map[], map[];
    }

    method IsEnabled(flag: Text, now: int) returns (value: bool)
      modifies this`cache
      ensures var (answer, entry) := ReadFlag(Lookup(old(cache), flag), Lookup(redis, RedisKey(flag)), now);
              value == answer && cache == old(cache)[flag := entry]
    {
      if flag in cache && cache[flag].expiresAt > now {
        assert cache[flag := cache[flag]] == cache;
        return cache[flag].value;
      }
      var raw := Lookup(redis, RedisKey(flag));
      value := ParseValue(raw);
      cache := cache[flag := CacheEntry(value, now + CACHE_TTL_MS)];
    }

    method RefreshCache(now: int)
      modifies this`cache
      ensures Refreshed(cache, old(cache), redis, KnownFlags(), now)
    {
      var flags := KnownFlags();
      for i := 0 to |flags|
        invariant Refreshed(cache, old(cache), redis, flags[..i], now)
      {
        assert flags[..i + 1] == flags[..i] + [flags[i]];
        cache := cache[flags[i] := CacheEntry(ParseValue(Lookup(redis, RedisKey(flags[i]))), now + CACHE_TTL_MS)];
      }
      assert flags[..|flags|] == flags;
    }

    method SetFlag(flag: Text, enabled: bool, now: int)
      modifies this
      ensures redis == old(redis)[RedisKey(flag) := RawOf(enabled)]
      ensures cache == old(cache)[flag := CacheEntry(enabled, now + CACHE_TTL_MS)]
      ensures ParseValue(Lookup(redis, RedisKey(flag))) == enabled
      ensures forall other :: other != flag ==> Lookup(redis, RedisKey(other)) == Lookup(old(redis), RedisKey(other))
    {
      forall other | other != flag ensures RedisKey(other) != RedisKey(flag) {
        FlagsDoNotShareKeys(flag, other);
      }
      redis := redis[RedisKey(flag) := RawOf(enabled)];
      cache := cache[flag := CacheEntry(enabled, now + CACHE_TTL_MS)];
    }
  }

  // ----- The cache entry of one flag as a time-to-live cache over Redis -----

  function EntryOf(s: TtlCache.State<bool>): Option<CacheEntry> {
    if s.entry.None? then None else Some(CacheEntry(s.entry.value.value, s.entry.value.expiresAt))
  }

  /** One read is one hit, or one load and one store, of the cache machine, with the same answer and the same entry. */
  lemma ReadIsItsSteps(s: TtlCache.State<bool>, raw: Option<Text>, call: nat)
    requires s.history != [] && TtlCache.Current(s) == ParseValue(raw) && call !in s.pending
    ensures var (answer, entry) := ReadFlag(EntryOf(s), raw, s.now);
            var t := if Unexpired(EntryOf(s), s.now) then TtlCache.Step(s, CACHE_TTL_MS, TtlCache.Hit)
                     else TtlCache.Step(TtlCache.Step(s, CACHE_TTL_MS, TtlCache.Load(call)), CACHE_TTL_MS,
                       TtlCache.Finish(call, true, true));
            && |t.answers| == |s.answers| + 1 && s.answers <= t.answers && EntryOf(t) == Some(entry)
            && t.answers[|s.answers|].time == s.now && t.answers[|s.answers|].value == answer
            && t.pending == s.pending && t.history == s.history && t.now == s.now
  {
  }

  /** An instance answers a value that Redis held less than thirty seconds before, plus the time that the read behind it
      took. */
  lemma {:induction false} FlagStalenessIsBounded(now: int, initial: bool, acts: seq<TtlCache.Action<bool>>, i: nat)
    requires i < |TtlCache.Run(TtlCache.Begin(now, initial), CACHE_TTL_MS, acts).answers|
    ensures var s := TtlCache.Run(TtlCache.Begin(now, initial), CACHE_TTL_MS, acts);
            var a := s.answers[i];
            a.loadedAt <= a.time < a.loadedAt + 30_000 + TtlCache.Delay(a)
              && TtlCache.HeldAt(s.history, a.loadedAt, a.value)
  {
    TtlCache.StalenessIsBounded(now, initial, CACHE_TTL_MS, acts, i);
  }
}
