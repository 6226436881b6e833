/** One cached value with a time to live, under every interleaving of its readers, writers and failures.
    It stands for a key of `remember` (the store is Redis, the source is the database) and for a flag of one
    instance's memory (the source is Redis). */
module TtlCache {
  import opened Wrappers

  datatype Change<V> = Change(time: int, value: V)

  /** `loadedAt` is when the source was read and `storedAt` when the entry was stored; readers do not see them. */
  datatype Entry<V> = Entry(value: V, expiresAt: int, loadedAt: int, storedAt: int)

  /** A read or write of the source that has not reached the store yet. */
  datatype Pending<V> = Pending(value: V, loadedAt: int)

  /** What a reader got, and when the load behind it read the source and ended. */
  datatype Answer<V> = Answer(time: int, value: V, loadedAt: int, storedAt: int)

  /** `history` are the values of the source, oldest first. */
  datatype State<V> = State(now: int, history: seq<Change<V>>, entry: Option<Entry<V>>, pending: map<nat, Pending<V>>,
                            answers: seq<Answer<V>>)

  datatype Action<V> =
    | Advance(ticks: nat)
    /** Anyone changes the source. */
    | Write(value: V)
    /** A reader finds a live entry. */
    | Hit
    /** A reader that found none, or could not ask, reads the source; so does a refresh. */
    | Load(call: nat)
    /** This instance changes the source and goes on to store the value. */
    | WriteThrough(call: nat, value: V)
    /** The store of a pending value, which may fail; a reader then answers it all the same. */
    | Finish(call: nat, stored: bool, answered: bool)
    /** A deletion of the entry, which may fail. */
    | Invalidate(done: bool)

  function Current<V>(s: State<V>): V
    requires s.history != []
  {
    s.history[|s.history| - 1].value
  }

  predicate Live<V>(s: State<V>) {
    s.entry.Some? && s.now < s.entry.value.expiresAt
  }

  function Written<V>(s: State<V>, v: V): State<V> {
    s.(history := s.history + [Change(s.now, v)])
  }

  function Answered<V>(s: State<V>, v: V, loadedAt: int, storedAt: int): State<V> {
    s.(answers := s.answers + [Answer(s.now, v, loadedAt, storedAt)])
  }

  function Finished<V>(s: State<V>, ttl: nat, call: nat, stored: bool): State<V>
    requires call in s.pending
  {
    var p := s.pending[call];
    s.(pending := s.pending - {call},
       entry := if stored then Some(Entry(p.value, s.now + ttl, p.loadedAt, s.now)) else s.entry)
  }

  function Step<V>(s: State<V>, ttl: nat, a: Action<V>): State<V>
    requires s.history != []
  {
    match a
    case Advance(d) => s.(now := s.now + d)
    case Write(v) => Written(s, v)
    case Hit => if Live(s) then Answered(s, s.entry.value.value, s.entry.value.loadedAt, s.entry.value.storedAt) else s
    case Load(c) => if c in s.pending then s else s.(pending := s.pending[c := Pending(Current(s), s.now)])
    case WriteThrough(c, v) =>
      if c in s.pending then s else Written(s, v).(pending := s.pending[c := Pending(v, s.now)])
    case Finish(c, stored, answered) =>
      if c !in s.pending then s
      else if answered then Answered(Finished(s, ttl, c, stored), s.pending[c].value, s.pending[c].loadedAt, s.now)
        else Finished(s, ttl, c, stored)
    case Invalidate(done) => if done then s.(entry := None) else s
  }

  function Run<V>(s: State<V>, ttl: nat, acts: seq<Action<V>>): (t: State<V>)
    requires s.history != []
    ensures t.history != []
  {
    if acts == [] then s else Step(Run(s, ttl, acts[..|acts| - 1]), ttl, acts[|acts| - 1])
  }

  function Begin<V>(now: int, v: V): State<V> {
    State(now, [Change(now, v)], None, map[], [])
  }

  // ----- Bounded staleness -----

  /** The source held `v` at `time`. */
  ghost predicate HeldAt<V>(history: seq<Change<V>>, time: int, v: V) {
    exists i :: HeldFrom(history, time, v, i)
  }

  ghost predicate HeldFrom<V>(history: seq<Change<V>>, time: int, v: V, i: int) {
    && 0 <= i < |history| && history[i].value == v && history[i].time <= time
    && (i + 1 < |history| ==> time <= history[i + 1].time)
  }

  /** An answer is the value of the source when its load read it, and is given before that load's entry expires. */
  ghost predicate FreshEnough<V>(s: State<V>, ttl: nat, a: Answer<V>) {
    && a.loadedAt <= a.storedAt <= a.time <= s.now && a.time < a.storedAt + ttl
    && HeldAt(s.history, a.loadedAt, a.value)
  }

  ghost predicate Known<V>(s: State<V>, v: V, at: int) {
    at <= s.now && HeldAt(s.history, at, v)
  }

  ghost predicate Sound<V>(s: State<V>, ttl: nat) {
    && s.history != [] && s.history[|s.history| - 1].time <= s.now
    && (s.entry.Some? ==> Known(s, s.entry.value.value, s.entry.value.loadedAt)
                          && s.entry.value.loadedAt <= s.entry.value.storedAt <= s.now
                          && s.entry.value.expiresAt == s.entry.value.storedAt + ttl)
    && (forall c :: c in s.pending ==> Known(s, s.pending[c].value, s.pending[c].loadedAt))
  }

  ghost predicate AllFresh<V>(s: State<V>, ttl: nat) {
    forall i :: 0 <= i < |s.answers| ==> FreshEnough(s, ttl, s.answers[i])
  }

  /** The history as it was, or with one value of this instant added. */
  ghost predicate Extends<V>(s: State<V>, t: State<V>) {
    && s.now <= t.now
    && (t.history == s.history
        || (|t.history| == |s.history| + 1 && s.history <= t.history && t.history[|s.history|].time == t.now))
  }

  lemma StepExtends<V>(s: State<V>, ttl: nat, a: Action<V>)
    requires s.history != []
    ensures Extends(s, Step(s, ttl, a))
  {
  }

  lemma HeldStays<V>(s: State<V>, t: State<V>, time: int, v: V)
    requires Extends(s, t) && HeldAt(s.history, time, v) && time <= s.now
    ensures HeldAt(t.history, time, v)
  {
    var i :| HeldFrom(s.history, time, v, i);
    assert HeldFrom(t.history, time, v, i);
  }

  lemma FreshStays<V>(s: State<V>, t: State<V>, ttl: nat)
    requires Extends(s, t) && AllFresh(s, ttl)
    ensures forall i :: 0 <= i < |s.answers| ==> FreshEnough(t, ttl, s.answers[i])
  {
    forall i | 0 <= i < |s.answers| ensures FreshEnough(t, ttl, s.answers[i]) {
      assert FreshEnough(s, ttl, s.answers[i]);
      HeldStays(s, t, s.answers[i].loadedAt, s.answers[i].value);
    }
  }

  lemma KnownStays<V>(s: State<V>, t: State<V>)
    requires Extends(s, t)
    ensures forall v, at :: Known(s, v, at) ==> Known(t, v, at)
  {
    forall v, at | Known(s, v, at) ensures Known(t, v, at) {
      HeldStays(s, t, at, v);
    }
  }

  lemma StepKeepsSound<V>(s: State<V>, ttl: nat, a: Action<V>)
    requires Sound(s, ttl)
    ensures Sound(Step(s, ttl, a), ttl)
  {
    var t := Step(s, ttl, a);
    StepExtends(s, ttl, a);
    KnownStays(s, t);
    match a
    case Advance(_) =>
    case Write(_) =>
    case Hit =>
    case Load(_) => assert HeldFrom(s.history, s.now, Current(s), |s.history| - 1); assert Known(s, Current(s), s.now);
    case WriteThrough(c, v) =>
      if c !in s.pending {
        assert HeldFrom(t.history, s.now, v, |s.history|);
        assert Known(t, v, s.now);
      }
    case Finish(_, _, _) =>
    case Invalidate(_) =>
  }

  lemma StepKeepsFresh<V>(s: State<V>, ttl: nat, a: Action<V>)
    requires Sound(s, ttl) && AllFresh(s, ttl) && ttl > 0
    ensures AllFresh(Step(s, ttl, a), ttl)
  {
    var t := Step(s, ttl, a);
    StepExtends(s, ttl, a);
    FreshStays(s, t, ttl);
    if a.Hit? && Live(s) {
      assert HeldAt(t.history, s.entry.value.loadedAt, s.entry.value.value);
      assert FreshEnough(t, ttl, t.answers[|s.answers|]);
    }
    if a.Finish? && a.call in s.pending && a.answered {
      assert HeldAt(t.history, s.pending[a.call].loadedAt, s.pending[a.call].value);
      assert FreshEnough(t, ttl, t.answers[|s.answers|]);
    }
  }

  lemma {:induction false} RunKeepsSound<V>(now: int, v: V, ttl: nat, acts: seq<Action<V>>)
    requires ttl > 0
    ensures var s := Run(Begin(now, v), ttl, acts); Sound(s, ttl) && AllFresh(s, ttl)
  {
    if acts == [] {
      assert HeldFrom(Begin(now, v).history, now, v, 0);
    } else {
      var s := Run(Begin(now, v), ttl, acts[..|acts| - 1]);
      RunKeepsSound(now, v, ttl, acts[..|acts| - 1]);
      StepKeepsSound(s, ttl, acts[|acts| - 1]);
      StepKeepsFresh(s, ttl, acts[|acts| - 1]);
    }
  }

  /** How long the load behind an answer took from reading the source to its end. */
  function Delay<V>(a: Answer<V>): int { a.storedAt - a.loadedAt }

  /** Under any races and failures, every answer is what the source held when its own load read it, less than the time
      to live plus the delay of that load before. */
  lemma {:induction false} StalenessIsBounded<V>(now: int, v: V, ttl: nat, acts: seq<Action<V>>, i: nat)
    requires ttl > 0 && i < |Run(Begin(now, v), ttl, acts).answers|
    ensures var s := Run(Begin(now, v), ttl, acts);
            var a := s.answers[i];
            a.loadedAt <= a.time < a.loadedAt + ttl + Delay(a) && HeldAt(s.history, a.loadedAt, a.value)
  {
    RunKeepsSound(now, v, ttl, acts);
    assert FreshEnough(Run(Begin(now, v), ttl, acts), ttl, Run(Begin(now, v), ttl, acts).answers[i]);
  }

  // ----- Reading one's own write -----

  predicate NoWrites<V>(acts: seq<Action<V>>) {
    forall i :: 0 <= i < |acts| ==> !acts[i].Write? && !acts[i].WriteThrough?
  }

  /** Whatever is on its way to the store is the current value. */
  ghost predicate PendingCurrent<V>(s: State<V>, v: V) {
    s.history != [] && Current(s) == v && forall c :: c in s.pending ==> s.pending[c].value == v
  }

  ghost predicate EntryCurrent<V>(s: State<V>, v: V) {
    PendingCurrent(s, v) && (Live(s) ==> s.entry.value.value == v)
  }

  lemma {:induction false} PendingStaysCurrent<V>(s: State<V>, v: V, ttl: nat, acts: seq<Action<V>>)
    requires PendingCurrent(s, v) && NoWrites(acts)
    ensures PendingCurrent(Run(s, ttl, acts), v)
  {
    if acts != [] {
      PendingStaysCurrent(s, v, ttl, acts[..|acts| - 1]);
    }
  }

  /** All answers from `s` to `t` are `v`. */
  ghost predicate OnlyAnswers<V>(s: State<V>, t: State<V>, v: V) {
    s.answers <= t.answers && forall i :: |s.answers| <= i < |t.answers| ==> t.answers[i].value == v
  }

  lemma EntryCurrentStep<V>(s: State<V>, v: V, ttl: nat, a: Action<V>)
    requires EntryCurrent(s, v) && !a.Write? && !a.WriteThrough?
    ensures EntryCurrent(Step(s, ttl, a), v)
    ensures s.answers <= Step(s, ttl, a).answers
    ensures forall i :: |s.answers| <= i < |Step(s, ttl, a).answers| ==> Step(s, ttl, a).answers[i].value == v
  {
  }

  lemma {:induction false} EntryStaysCurrent<V>(s: State<V>, v: V, ttl: nat, acts: seq<Action<V>>)
    requires EntryCurrent(s, v) && NoWrites(acts)
    ensures var t := Run(s, ttl, acts);
            EntryCurrent(t, v) && OnlyAnswers(s, t, v)
  {
    if acts != [] {
      EntryStaysCurrent(s, v, ttl, acts[..|acts| - 1]);
      EntryCurrentStep(Run(s, ttl, acts[..|acts| - 1]), v, ttl, acts[|acts| - 1]);
    }
  }

  /** When nothing is on its way to the store as the write reaches the source, then once the writer's own store is done
      every later answer is the written value, until someone writes again. */
  lemma {:induction false} WriterReadsItsWrite<V>(s: State<V>, v: V, ttl: nat, call: nat, during: seq<Action<V>>,
                                                  later: seq<Action<V>>)
    requires s.history != [] && s.pending == map[] && NoWrites(during) && NoWrites(later)
    requires call in Run(Step(s, ttl, WriteThrough(call, v)), ttl, during).pending
    ensures var returned := Step(Run(Step(s, ttl, WriteThrough(call, v)), ttl, during), ttl, Finish(call, true, false));
            var t := Run(returned, ttl, later);
            OnlyAnswers(returned, t, v)
  {
    var started := Step(s, ttl, WriteThrough(call, v));
    PendingStaysCurrent(started, v, ttl, during);
    var returned := Step(Run(started, ttl, during), ttl, Finish(call, true, false));
    EntryStaysCurrent(returned, v, ttl, later);
  }

  // ----- Deleting the entry after a write -----

  /** Without further writes, readers get `v` from here on. */
  ghost predicate OnlyAnswersFrom<V(!new)>(s: State<V>, v: V, ttl: nat)
    requires s.history != []
  {
    forall acts :: NoWrites(acts) ==> OnlyAnswers(s, Run(s, ttl, acts), v)
  }

  lemma PendingIsAnswered<V>(s: State<V>, v: V, ttl: nat, c: nat) returns (acts: seq<Action<V>>)
    requires s.history != [] && c in s.pending && s.pending[c].value != v
    ensures NoWrites(acts) && !OnlyAnswers(s, Run(s, ttl, acts), v)
  {
    var t;
    acts, t := Then(s, ttl, [], s, Finish(c, true, true));
    assert t.answers[|s.answers|].value == s.pending[c].value;
  }

  lemma LiveEntryIsAnswered<V>(s: State<V>, v: V, ttl: nat) returns (acts: seq<Action<V>>)
    requires s.history != [] && Live(s) && s.entry.value.value != v
    ensures NoWrites(acts) && !OnlyAnswers(s, Run(s, ttl, acts), v)
  {
    var t;
    acts, t := Then(s, ttl, [], s, Hit);
    assert t.answers[|s.answers|].value == s.entry.value.value;
  }

  /** All later answers are current, until someone writes again, exactly when every load on its way has read the current
      value and a live entry holds it. */
  lemma AnswersStayCurrentIff<V(!new)>(s: State<V>, ttl: nat)
    requires s.history != []
    ensures OnlyAnswersFrom(s, Current(s), ttl) <==> EntryCurrent(s, Current(s))
  {
    var v := Current(s);
    if EntryCurrent(s, v) {
      forall acts | NoWrites(acts) ensures OnlyAnswers(s, Run(s, ttl, acts), v) {
        EntryStaysCurrent(s, v, ttl, acts);
      }
    } else if Live(s) && s.entry.value.value != v {
      var acts := LiveEntryIsAnswered(s, v, ttl);
    } else {
      var c :| c in s.pending && s.pending[c].value != v;
      var acts := PendingIsAnswered(s, v, ttl, c);
    }
  }

  /** So a successful deletion works exactly when every load on its way has read the current value. */
  lemma DeletionWorksIffLoadsAreCurrent<V(!new)>(s: State<V>, ttl: nat)
    requires s.history != []
    ensures OnlyAnswersFrom(Step(s, ttl, Invalidate(true)), Current(s), ttl)
       <==> forall c :: c in s.pending ==> s.pending[c].value == Current(s)
  {
    AnswersStayCurrentIff(Step(s, ttl, Invalidate(true)), ttl);
  }

  /** A write, anything else but writes, and a successful deletion: with nothing on its way at the write, every answer
      after the deletion is the written value, until someone writes again. */
  lemma {:induction false} WriteThenDelete<V>(s: State<V>, v: V, ttl: nat, during: seq<Action<V>>,
                                              later: seq<Action<V>>)
    requires s.history != [] && s.pending == map[] && NoWrites(during) && NoWrites(later)
    ensures var d := Step(Run(Step(s, ttl, Write(v)), ttl, during), ttl, Invalidate(true));
            OnlyAnswers(d, Run(d, ttl, later), v)
  {
    var written := Step(s, ttl, Write(v));
    PendingStaysCurrent(written, v, ttl, during);
    EntryStaysCurrent(Step(Run(written, ttl, during), ttl, Invalidate(true)), v, ttl, later);
  }

  // ----- Both conditions are needed -----

  lemma Then<V>(s: State<V>, ttl: nat, acts: seq<Action<V>>, t: State<V>, a: Action<V>)
    returns (more: seq<Action<V>>, u: State<V>)
    requires s.history != [] && t == Run(s, ttl, acts)
    ensures more == acts + [a] && t.history != [] && u == Run(s, ttl, more) && u == Step(t, ttl, a)
  {
    more := acts + [a];
    u := Step(t, ttl, a);
    assert more[..|acts|] == acts;
  }

  /** A load that overlaps the write stores the old value over it: the writer's next answer is the old value. */
  lemma {:induction false} LoadInFlightHidesTheWrite<V>(now: int, before: V, after: V, ttl: nat)
    requires before != after && ttl > 0
    ensures var acts := [Load(0), WriteThrough(1, after), Finish(1, true, false), Finish(0, true, true), Hit];
            var s := Run(Begin(now, before), ttl, acts);
            Current(s) == after && |s.answers| == 2 && s.answers[1].value == before
  {
    var acts: seq<Action<V>>, s := [], Begin(now, before);
    acts, s := Then(Begin(now, before), ttl, acts, s, Load(0));
    acts, s := Then(Begin(now, before), ttl, acts, s, WriteThrough(1, after));
    acts, s := Then(Begin(now, before), ttl, acts, s, Finish(1, true, false));
    acts, s := Then(Begin(now, before), ttl, acts, s, Finish(0, true, true));
    acts, s := Then(Begin(now, before), ttl, acts, s, Hit);
    assert acts == [Load(0), WriteThrough(1, after), Finish(1, true, false), Finish(0, true, true), Hit];
  }

  /** Invalidating after a write does not help against a load that began before it: with a delay `d`, the old value is
      still answered one tick before `ttl + d` after the change, so the bound is exact. */
  lemma InvalidationLosesTheRace<V>(now: int, before: V, after: V, ttl: nat, d: nat)
    requires before != after && ttl > 0
    ensures var acts := [Load(0), Write(after), Invalidate(true), Advance(d), Finish(0, true, true), Advance(ttl - 1),
      Hit];
            var s := Run(Begin(now, before), ttl, acts);
            && s.history == [Change(now, before), Change(now, after)]
            && |s.answers| == 2 && s.answers[1] == Answer(now + ttl + d - 1, before, now, now + d)
  {
    var acts: seq<Action<V>>, s := [], Begin(now, before);
    acts, s := Then(Begin(now, before), ttl, acts, s, Load(0));
    acts, s := Then(Begin(now, before), ttl, acts, s, Write(after));
    acts, s := Then(Begin(now, before), ttl, acts, s, Invalidate(true));
    acts, s := Then(Begin(now, before), ttl, acts, s, Advance(d));
    acts, s := Then(Begin(now, before), ttl, acts, s, Finish(0, true, true));
    acts, s := Then(Begin(now, before), ttl, acts, s, Advance(ttl - 1));
    acts, s := Then(Begin(now, before), ttl, acts, s, Hit);
    assert acts == [Load(0), Write(after), Invalidate(true), Advance(d), Finish(0, true, true), Advance(ttl - 1), Hit];
  }
}
