/** The fail-open cache helpers of the Redis service. */
module RedisStore {
  import opened Wrappers
  import opened JsText
  import TtlCache

  /** Seconds that a catalog stays cached. */
  const CATALOG_TTL: nat := 120

  datatype Stored<V> = Stored(value: V, expiresAt: int)

  function Lookup<V>(m: map<Text, Stored<V>>, key: Text, now: int): Option<Stored<V>> {
    if key in m && now < m[key].expiresAt then Some(m[key]) else None
  }

  /** What `remember` answers and what the key holds afterwards, when the read finds or fails to find an entry
      (`getUp`), the loader would give `loaded`, and the store works or fails (`setUp`). */
  function Remembered<V>(entry: Option<Stored<V>>, loaded: V, ttl: nat,
                         getUp: bool, setUp: bool, now: int): (V, Option<Stored<V>>) {
    if getUp && entry.Some? then (entry.value.value, entry)
    else (loaded, if setUp then Some(Stored(loaded, now + ttl)) else entry)
  }

  class RedisService<V> {
    var store: map<Text, Stored<V>>

    constructor ()
      ensures store == map[]
    {
      store := map[];
    }

    method SafeGet(key: Text, up: bool, now: int) returns (value: Option<Stored<V>>)
      ensures value == if up then Lookup(store, key, now) else None
    {
      if !up || key !in store || store[key].expiresAt <= now {
        return None;
      }
      return Some(store[key]);
    }

    method SafeSet(key: Text, value: V, ttl: nat, up: bool, now: int)
      modifies this
      ensures store == if up then old(store)[key := Stored(value, now + ttl)] else old(store)
    {
      if up {
        store := store[key := Stored(value, now + ttl)];
      }
    }

    method SafeDel(keys: set<Text>, up: bool)
      modifies this
      ensures store == if up then old(store) - keys else old(store)
    {
      if keys == {} {
        assert store - keys == store;
        return;
      }
      if up {
        store := store - keys;
      }
    }

    /** A failure of Redis is never a failure of `remember`, and other keys are left alone. */
    method Remember(key: Text, ttl: nat, loaded: V, getUp: bool, setUp: bool, now: int) returns (value: V)
      requires ttl > 0
      modifies this
      ensures var (answer, entry) := Remembered(Lookup(old(store), key, now), loaded, ttl, getUp, setUp, now);
              value == answer && Lookup(store, key, now) == entry
      ensures forall other :: other != key ==> Lookup(store, other, now) == Lookup(old(store), other, now)
    {
      var cached := SafeGet(key, getUp, now);
      if cached.Some? {
        return cached.value.value;
      }
      value := loaded;
      SafeSet(key, value, ttl, setUp, now);
    }

    /** At most one caller gets the lock until it expires; when Redis fails nobody does. */
    method TryLock(key: Text, holder: V, ttl: nat, up: bool, now: int) returns (acquired: bool)
      modifies this
      ensures acquired == (up && Lookup(old(store), key, now).None?)
      ensures store == if acquired then old(store)[key := Stored(holder, now + ttl)] else old(store)
    {
      if !up || (key in store && now < store[key].expiresAt) {
        return false;
      }
      store := store[key := Stored(holder, now + ttl)];
      return true;
    }
  }

  // ----- One key as a time-to-live cache over the database -----

  function EntryOf<V>(s: TtlCache.State<V>): Option<Stored<V>> {
    if TtlCache.Live(s) then Some(Stored(s.entry.value.value, s.entry.value.expiresAt)) else None
  }

  /** One `remember` is one hit, or one load and its store, of the cache machine, with the same answer and the same live
      entry. */
  lemma RememberIsItsSteps<V>(s: TtlCache.State<V>, ttl: nat, getUp: bool, setUp: bool, call: nat)
    requires s.history != [] && call !in s.pending && ttl > 0
    ensures var (answer, entry) := Remembered(EntryOf(s), TtlCache.Current(s), ttl, getUp, setUp, s.now);
            var t := if getUp && TtlCache.Live(s) then TtlCache.Step(s, ttl, TtlCache.Hit)
                     else TtlCache.Step(TtlCache.Step(s, ttl, TtlCache.Load(call)), ttl,
                       TtlCache.Finish(call, setUp, true));
            && |t.answers| == |s.answers| + 1 && s.answers <= t.answers && EntryOf(t) == entry
            && t.answers[|s.answers|].time == s.now && t.answers[|s.answers|].value == answer
            && t.pending == s.pending && t.history == s.history && t.now == s.now
  {
  }

  /** A catalog that `remember` answers is what the database gave less than two minutes before, plus the time that the
      load behind it took, whatever races with it and whatever Redis fails to store or delete. */
  lemma {:induction false} CatalogStalenessIsBounded<V>(now: int, initial: V, acts: seq<TtlCache.Action<V>>, i: nat)
    requires i < |TtlCache.Run(TtlCache.Begin(now, initial), CATALOG_TTL, acts).answers|
    ensures var s := TtlCache.Run(TtlCache.Begin(now, initial), CATALOG_TTL, acts);
            var a := s.answers[i];
            a.loadedAt <= a.time < a.loadedAt + 120 + TtlCache.Delay(a)
              && TtlCache.HeldAt(s.history, a.loadedAt, a.value)
  {
    TtlCache.StalenessIsBounded(now, initial, CATALOG_TTL, acts, i);
  }
}
