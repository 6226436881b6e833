/** The fixed-window counters of PIN attempts. */
module PinRateLimiter {
  import opened Wrappers
  import opened JsText

  const MAX_ATTEMPTS_IP: nat := 10
  const MAX_ATTEMPTS_ACCOUNT: nat := 5
  const WINDOW_SECONDS: nat := 900

  /** A Redis counter; one that has no expiry yet stays until it gets one. */
  datatype Counter = Counter(count: nat, expiry: Option<int>)

  predicate Live(c: Counter, now: int) {
    c.expiry.Some? ==> now < c.expiry.value
  }

  function Incremented(c: Option<Counter>, now: int): Counter {
    if c.Some? && Live(c.value, now) then c.value.(count := c.value.count + 1) else Counter(1, None)
  }

  /** `EXPIRE` on a counter. */
  function Expiring(c: Counter, now: int): Counter {
    c.(expiry := Some(now + WINDOW_SECONDS))
  }

  // ----- One counter under any interleaving of attempts, expiries and resets -----

  /** Each call of `bump` is one `Increment` and, when it saw 1, one `SetExpiry` at any later time or never. */
  datatype Action = Advance(seconds: nat) | Increment | SetExpiry | Reset

  /** An attempt, with the lifetime of the counter it was counted in. */
  datatype Attempt = Attempt(time: int, life: nat, admitted: bool)

  /** `starts` has the instant at which each lifetime began; the last one is going on while there is a counter. */
  datatype State = State(now: int, counter: Option<Counter>, pending: nat, starts: seq<int>, log: seq<Attempt>)

  function Step(s: State, max: nat, a: Action): State {
    match a
    case Advance(d) =>
      s.(now := s.now + d, counter := if s.counter.Some? && Live(s.counter.value, s.now + d) then s.counter else None)
    case Increment =>
      var c := Incremented(s.counter, s.now);
      var starts := if c.count == 1 then s.starts + [s.now] else s.starts;
      s.(counter := Some(c),
         pending := if c.count == 1 then s.pending + 1 else s.pending,
         starts := starts,
         log := s.log + [Attempt(s.now, if |starts| > 0 then |starts| - 1 else 0, c.count <= max)])
    case SetExpiry =>
      if s.pending == 0 then s
      else s.(pending := s.pending - 1, counter := if s.counter.None? then None
        else Some(Expiring(s.counter.value, s.now)))
    case Reset => s.(counter := None)
  }

  function Run(s: State, max: nat, acts: seq<Action>): State {
    if acts == [] then s else Step(Run(s, max, acts[..|acts| - 1]), max, acts[|acts| - 1])
  }

  function Begin(now: int): State { State(now, None, 0, [], []) }

  function AttemptsIn(log: seq<Attempt>, life: nat): nat {
    if log == [] then 0
    else AttemptsIn(log[..|log| - 1], life) + if log[|log| - 1].life == life then 1 else 0
  }

  function AdmittedIn(log: seq<Attempt>, life: nat): nat {
    if log == [] then 0
    else AdmittedIn(log[..|log| - 1], life) + if log[|log| - 1].life == life && log[|log| - 1].admitted then 1 else 0
  }

  /** Every expiry that is still to be set belongs to one lifetime. */
  lemma {:induction false} ExpiriesBelongToLifetimes(now: int, max: nat, acts: seq<Action>)
    ensures Run(Begin(now), max, acts).pending <= |Run(Begin(now), max, acts).starts|
  {
    if acts != [] {
      ExpiriesBelongToLifetimes(now, max, acts[..|acts| - 1]);
    }
  }

  function Min(a: nat, b: nat): nat { if a < b then a else b }

  /** A counter holds how many attempts its lifetime has had, and each lifetime has let the first `max` through. */
  ghost predicate Counted(s: State, max: nat) {
    && (s.counter.Some? ==>
          && Live(s.counter.value, s.now) && s.starts != []
          && s.counter.value.count == AttemptsIn(s.log, |s.starts| - 1) > 0)
    && (forall life: nat :: life >= |s.starts| ==> AttemptsIn(s.log, life) == 0)
    && (forall life: nat :: AdmittedIn(s.log, life) == Min(AttemptsIn(s.log, life), max))
  }

  lemma {:induction false} Logged(log: seq<Attempt>, a: Attempt)
    ensures forall life :: AttemptsIn(log + [a], life) == AttemptsIn(log, life) + if a.life == life then 1 else 0
    ensures forall life ::
      AdmittedIn(log + [a], life) == AdmittedIn(log, life) + if a.life == life && a.admitted then 1 else 0
  {
  }

  lemma IncrementKeepsCounted(s: State, max: nat)
    requires Counted(s, max)
    ensures Counted(Step(s, max, Increment), max)
  {
    var t := Step(s, max, Increment);
    Logged(s.log, t.log[|s.log|]);
  }

  lemma StepKeepsCounted(s: State, max: nat, a: Action)
    requires Counted(s, max)
    ensures Counted(Step(s, max, a), max)
  {
    match a
    case Advance(d) =>
    case Increment => IncrementKeepsCounted(s, max);
    case SetExpiry =>
    case Reset =>
  }

  /** In every interleaving, each lifetime of the counter lets through exactly the lesser of its attempts and the
      maximum. */
  lemma {:induction false} EachLifetimeAdmitsMin(now: int, max: nat, acts: seq<Action>)
    ensures Counted(Run(Begin(now), max, acts), max)
    ensures forall life: nat ::
      var log := Run(Begin(now), max, acts).log; AdmittedIn(log, life) == Min(AttemptsIn(log, life), max)
  {
    if acts != [] {
      EachLifetimeAdmitsMin(now, max, acts[..|acts| - 1]);
      StepKeepsCounted(Run(Begin(now), max, acts[..|acts| - 1]), max, acts[|acts| - 1]);
    }
  }

  // ----- Any interval shorter than the window -----

  function Resets(acts: seq<Action>): nat {
    if acts == [] then 0 else Resets(acts[..|acts| - 1]) + if acts[|acts| - 1] == Reset then 1 else 0
  }

  /** How many lifetimes were followed by another one before a window had passed. */
  function ShortGaps(starts: seq<int>): nat {
    if |starts| <= 1 then 0
    else ShortGaps(starts[..|starts| - 1]) + if starts[|starts| - 1] < starts[|starts| - 2] + WINDOW_SECONDS then 1
      else 0
  }

  /** The last lifetime was ended before a window had passed. */
  predicate EndedEarly(s: State) {
    s.counter.None? && s.starts != [] && s.now < s.starts[|s.starts| - 1] + WINDOW_SECONDS
  }

  /** Lifetimes begin in order, and those that end by themselves last at least the window: only a reset ends one
      early. */
  ghost predicate TimedStarts(s: State, resets: nat) {
    && (forall l :: 0 <= l < |s.starts| - 1 ==> s.starts[l] <= s.starts[l + 1])
    && (s.starts != [] ==> s.starts[|s.starts| - 1] <= s.now)
    && (s.counter.Some? ==>
          && s.starts != [] && Live(s.counter.value, s.now) && s.counter.value.count > 0
          && (s.counter.value.expiry.Some? ==>
                s.starts[|s.starts| - 1] + WINDOW_SECONDS <= s.counter.value.expiry.value))
    && ShortGaps(s.starts) + (if EndedEarly(s) then 1 else 0) <= resets
  }

  predicate InLifetime(starts: seq<int>, a: Attempt) {
    && a.life < |starts| && starts[a.life] <= a.time
    && (a.life + 1 < |starts| ==> a.time <= starts[a.life + 1])
  }

  /** Attempts fall inside their lifetimes, in order. */
  ghost predicate TimedLog(s: State) {
    && (forall i :: 0 <= i < |s.log| ==> InLifetime(s.starts, s.log[i]) && s.log[i].time <= s.now)
    && (forall i, j :: 0 <= i < j < |s.log| ==> s.log[i].life <= s.log[j].life)
  }

  ghost predicate Timed(s: State, resets: nat) { TimedStarts(s, resets) && TimedLog(s) }

  lemma IncrementKeepsTimedLog(s: State, max: nat, resets: nat)
    requires Timed(s, resets)
    ensures TimedLog(Step(s, max, Increment))
  {
    var t := Step(s, max, Increment);
    forall i | 0 <= i < |t.log|
      ensures InLifetime(t.starts, t.log[i]) && t.log[i].time <= t.now && t.log[i].life <= t.log[|s.log|].life
    {
      if i < |s.log| {
        assert t.log[i] == s.log[i] && InLifetime(s.starts, s.log[i]);
      }
    }
  }

  lemma {:induction false} GapsStep(starts: seq<int>, next: int)
    ensures ShortGaps(starts + [next])
         == ShortGaps(starts) + if starts != [] && next < starts[|starts| - 1] + WINDOW_SECONDS then 1 else 0
  {
    assert (starts + [next])[..|starts|] == starts;
  }

  lemma IncrementKeepsTimedStarts(s: State, max: nat, resets: nat)
    requires TimedStarts(s, resets)
    ensures TimedStarts(Step(s, max, Increment), resets)
  {
    if s.counter.Some? {
      assert Step(s, max, Increment).starts == s.starts;
    } else {
      assert Step(s, max, Increment).starts == s.starts + [s.now];
      GapsStep(s.starts, s.now);
    }
  }

  lemma StepKeepsTimed(s: State, max: nat, a: Action, resets: nat)
    requires Timed(s, resets)
    ensures Timed(Step(s, max, a), resets + if a == Reset then 1 else 0)
  {
    match a
    case Advance(d) =>
    case Increment =>
      IncrementKeepsTimedLog(s, max, resets);
      IncrementKeepsTimedStarts(s, max, resets);
    case SetExpiry =>
    case Reset =>
  }

  lemma {:induction false} RunKeepsTimed(now: int, max: nat, acts: seq<Action>)
    ensures Timed(Run(Begin(now), max, acts), Resets(acts))
  {
    if acts != [] {
      var init := acts[..|acts| - 1];
      RunKeepsTimed(now, max, init);
      StepKeepsTimed(Run(Begin(now), max, init), max, acts[|acts| - 1], Resets(init));
    }
  }

  predicate Within(a: Attempt, first: int, last: int) { first <= a.time <= last }

  function AdmittedBetween(log: seq<Attempt>, first: int, last: int): nat {
    if log == [] then 0
    else AdmittedBetween(log[..|log| - 1], first, last)
         + if Within(log[|log| - 1], first, last) && log[|log| - 1].admitted then 1 else 0
  }

  lemma {:induction false} StartsInOrder(s: State, resets: nat, l: nat, m: nat)
    requires TimedStarts(s, resets) && l <= m < |s.starts|
    ensures s.starts[l] <= s.starts[m]
    decreases m
  {
    if l < m {
      StartsInOrder(s, resets, l, m - 1);
    }
  }

  /** Lifetimes that begin within one window of each other are separated by short gaps. */
  lemma {:induction false} GapsAreCounted(starts: seq<int>, l: nat, m: nat)
    requires l <= m < |starts| && forall k :: l <= k < m ==> starts[k + 1] < starts[k] + WINDOW_SECONDS
    ensures m - l <= ShortGaps(starts)
    decreases |starts|
  {
    if l < m {
      GapsAreCounted(starts[..|starts| - 1], l, if m < |starts| - 1 then m else m - 1);
    }
  }

  lemma CloseStarts(s: State, resets: nat, l: nat, m: nat)
    requires TimedStarts(s, resets) && l <= m < |s.starts| && s.starts[m] < s.starts[l] + WINDOW_SECONDS
    ensures m - l <= resets
  {
    forall k | l <= k < m ensures s.starts[k + 1] < s.starts[k] + WINDOW_SECONDS {
      StartsInOrder(s, resets, l, k);
      StartsInOrder(s, resets, k + 1, m);
    }
    GapsAreCounted(s.starts, l, m);
  }

  /** The attempts that the lifetimes from `lo` to before `hi` let through. */
  function AdmittedInLives(log: seq<Attempt>, lo: nat, hi: nat): nat {
    if hi <= lo then 0 else AdmittedInLives(log, lo, hi - 1) + AdmittedIn(log, hi - 1)
  }

  lemma {:induction false} LivesLogged(log: seq<Attempt>, lo: nat, hi: nat)
    requires log != []
    ensures var a := log[|log| - 1];
            AdmittedInLives(log, lo, hi) ==
            AdmittedInLives(log[..|log| - 1], lo, hi) + if lo <= a.life < hi && a.admitted then 1 else 0
  {
    if lo < hi {
      LivesLogged(log, lo, hi - 1);
    }
  }

  lemma {:induction false} LivesBound(log: seq<Attempt>, max: nat, lo: nat, hi: nat)
    requires lo <= hi && forall life: nat :: AdmittedIn(log, life) <= max
    ensures AdmittedInLives(log, lo, hi) <= (hi - lo) * max
  {
    if lo < hi {
      LivesBound(log, max, lo, hi - 1);
      assert (hi - lo) * max == (hi - 1 - lo) * max + max;
    }
  }

  /** An interval lets no more through than the lifetimes it touches, and less when one of their attempts is outside. */
  lemma {:induction false} InsideLives(log: seq<Attempt>, first: int, last: int, lo: nat, hi: nat)
    requires forall i :: 0 <= i < |log| && Within(log[i], first, last) ==> lo <= log[i].life < hi
    ensures AdmittedBetween(log, first, last) <= AdmittedInLives(log, lo, hi)
    ensures (exists k ::
      0 <= k < |log| && lo <= log[k].life < hi && log[k].admitted && !Within(log[k], first, last)) ==>
              AdmittedBetween(log, first, last) < AdmittedInLives(log, lo, hi)
  {
    if log != [] {
      InsideLives(log[..|log| - 1], first, last, lo, hi);
      LivesLogged(log, lo, hi);
      if k :| 0 <= k < |log| - 1 && lo <= log[k].life < hi && log[k].admitted && !Within(log[k], first, last) {
        assert log[..|log| - 1][k] == log[k];
      }
    }
  }

  predicate Opens(s: State, i: nat, life: nat)
    requires i < |s.log| && life < |s.starts|
  {
    s.log[i].life == life && s.log[i].time == s.starts[life] && s.log[i].admitted
  }

  /** Every lifetime was opened by an admitted attempt. */
  ghost predicate Opened(s: State) {
    forall l: nat :: l < |s.starts| ==> HasOpener(s, l)
  }

  ghost predicate HasOpener(s: State, life: nat)
    requires life < |s.starts|
  {
    exists i: nat :: i < |s.log| && Opens(s, i, life)
  }

  lemma StepKeepsOpened(s: State, max: nat, a: Action)
    requires Opened(s) && max > 0
    ensures Opened(Step(s, max, a))
  {
    var t := Step(s, max, a);
    forall l: nat | l < |t.starts| ensures HasOpener(t, l) {
      if l < |s.starts| {
        assert HasOpener(s, l);
        var i: nat :| i < |s.log| && Opens(s, i, l);
        assert Opens(t, i, l);
      } else {
        assert Opens(t, |s.log|, l);
      }
    }
  }

  lemma {:induction false} RunKeepsOpened(now: int, max: nat, acts: seq<Action>)
    requires max > 0
    ensures Opened(Run(Begin(now), max, acts))
  {
    if acts != [] {
      RunKeepsOpened(now, max, acts[..|acts| - 1]);
      StepKeepsOpened(Run(Begin(now), max, acts[..|acts| - 1]), max, acts[|acts| - 1]);
    }
  }

  lemma {:induction false} NoneWithin(log: seq<Attempt>, first: int, last: int)
    requires forall i :: 0 <= i < |log| ==> !Within(log[i], first, last)
    ensures AdmittedBetween(log, first, last) == 0
  {
    if log != [] {
      NoneWithin(log[..|log| - 1], first, last);
    }
  }

  /** The first and the last lifetime that the interval touches. */
  lemma TouchedLives(s: State, resets: nat, first: int, last: int) returns (i: nat, j: nat)
    requires TimedLog(s) && exists k :: 0 <= k < |s.log| && Within(s.log[k], first, last)
    ensures i < |s.log| && j < |s.log| && Within(s.log[i], first, last) && Within(s.log[j], first, last)
    ensures forall k :: 0 <= k < |s.log| && Within(s.log[k], first, last) ==>
              s.log[i].life <= s.log[k].life <= s.log[j].life
  {
    var w :| 0 <= w < |s.log| && Within(s.log[w], first, last);
    i, j := w, w;
    for n := 0 to |s.log|
      invariant i < |s.log| && j < |s.log| && Within(s.log[i], first, last) && Within(s.log[j], first, last)
      invariant forall k :: 0 <= k < n && Within(s.log[k], first, last) ==>
                  s.log[i].life <= s.log[k].life <= s.log[j].life
    {
      if Within(s.log[n], first, last) {
        i := if s.log[n].life < s.log[i].life then n else i;
        j := if s.log[n].life > s.log[j].life then n else j;
      }
    }
  }

  lemma MoreLives(n: nat, m: nat, max: nat)
    requires n <= m
    ensures n * max <= m * max
  {
    assert m * max == n * max + (m - n) * max;
  }

  lemma {:induction false} TouchedBound(s: State, max: nat, resets: nat, first: int, last: int, i: nat, j: nat)
    requires Timed(s, resets) && Opened(s) && last < first + WINDOW_SECONDS && max > 0
    requires forall life: nat :: AdmittedIn(s.log, life) <= max
    requires i < |s.log| && j < |s.log| && Within(s.log[i], first, last) && Within(s.log[j], first, last)
    requires forall k :: 0 <= k < |s.log| && Within(s.log[k], first, last) ==>
               s.log[i].life <= s.log[k].life <= s.log[j].life
    ensures AdmittedBetween(s.log, first, last) <= (resets + 2) * max - 1
  {
    var lo, hi := s.log[i].life, s.log[j].life;
    assert InLifetime(s.starts, s.log[i]) && InLifetime(s.starts, s.log[j]);
    InsideLives(s.log, first, last, lo, hi + 1);
    LivesBound(s.log, max, lo, hi + 1);
    if s.starts[lo] >= first {
      CloseStarts(s, resets, lo, hi);
      MoreLives(hi + 1 - lo, resets + 1, max);
      assert (resets + 2) * max == (resets + 1) * max + max;
    } else {
      if lo < hi {
        CloseStarts(s, resets, lo + 1, hi);
      }
      assert HasOpener(s, lo);
      var k: nat :| k < |s.log| && Opens(s, k, lo);
      assert !Within(s.log[k], first, last);
      MoreLives(hi + 1 - lo, resets + 2, max);
    }
  }

  lemma RunFacts(now: int, max: nat, acts: seq<Action>) returns (s: State, resets: nat)
    requires max > 0
    ensures s == Run(Begin(now), max, acts) && resets == Resets(acts)
    ensures Timed(s, resets) && Opened(s) && forall life: nat :: AdmittedIn(s.log, life) <= max
  {
    s, resets := Run(Begin(now), max, acts), Resets(acts);
    RunKeepsTimed(now, max, acts);
    RunKeepsOpened(now, max, acts);
    EachLifetimeAdmitsMin(now, max, acts);
  }

  lemma {:induction false} IntervalBound(s: State, max: nat, resets: nat, first: int, last: int)
    requires Timed(s, resets) && Opened(s) && last < first + WINDOW_SECONDS && max > 0
    requires forall life: nat :: AdmittedIn(s.log, life) <= max
    ensures AdmittedBetween(s.log, first, last) <= (resets + 2) * max - 1
  {
    if exists k :: 0 <= k < |s.log| && Within(s.log[k], first, last) {
      var i, j := TouchedLives(s, resets, first, last);
      TouchedBound(s, max, resets, first, last, i, j);
    } else {
      NoneWithin(s.log, first, last);
      MoreLives(1, resets + 2, max);
    }
  }

  /** In every interleaving, an interval shorter than the window lets at most `2 * max - 1` through, and `max` more for
      each reset. */
  lemma {:induction false} ShortIntervalsAreBounded(now: int, max: nat, acts: seq<Action>, first: int, last: int)
    requires last < first + WINDOW_SECONDS && max > 0
    ensures AdmittedBetween(Run(Begin(now), max, acts).log, first, last) <= (Resets(acts) + 2) * max - 1
  {
    var s, resets := RunFacts(now, max, acts);
    IntervalBound(s, max, resets, first, last);
  }

  // ----- The bound is exact -----

  function Increments(n: nat): seq<Action> { seq(n, _ => Increment) }

  lemma {:induction false} RunSplits(s: State, max: nat, a: seq<Action>, b: seq<Action>)
    ensures Run(s, max, a + b) == Run(Run(s, max, a), max, b)
  {
    if b == [] {
      assert a + b == a;
    } else {
      RunSplits(s, max, a, b[..|b| - 1]);
      assert (a + b)[..|a + b| - 1] == a + b[..|b| - 1];
    }
  }

  function CountOf(c: Option<Counter>): nat { if c.Some? then c.value.count else 0 }

  /** The state after admitted attempts, leaving out what the bound does not depend on. */
  ghost predicate AdmittedMore(s: State, t: State, n: nat, first: int, last: int) {
    && t.now == s.now
    && t.counter == (if n == 0 then s.counter
                     else if s.counter.None? then Some(Counter(n, None))
                     else Some(s.counter.value.(count := s.counter.value.count + n)))
    && AdmittedBetween(t.log, first, last) == AdmittedBetween(s.log, first, last) + n
  }

  lemma OneIncrement(s: State, max: nat, first: int, last: int)
    requires first <= s.now <= last && CountOf(s.counter) < max && (s.counter.Some? ==> Live(s.counter.value, s.now))
    ensures AdmittedMore(s, Step(s, max, Increment), 1, first, last)
  {
  }

  lemma MoreThenOne(s: State, t: State, u: State, n: nat, first: int, last: int)
    requires AdmittedMore(s, t, n, first, last) && AdmittedMore(t, u, 1, first, last)
    ensures AdmittedMore(s, u, n + 1, first, last)
  {
  }

  lemma {:induction false} AfterIncrements(s: State, max: nat, n: nat, first: int, last: int)
    requires first <= s.now <= last && CountOf(s.counter) + n <= max
             && (s.counter.Some? ==> Live(s.counter.value, s.now))
    ensures AdmittedMore(s, Run(s, max, Increments(n)), n, first, last)
  {
    if n > 0 {
      AfterIncrements(s, max, n - 1, first, last);
      var acts := Increments(n);
      assert acts[..n - 1] == Increments(n - 1) && acts[n - 1] == Increment;
      var t := Run(s, max, Increments(n - 1));
      OneIncrement(t, max, first, last);
      MoreThenOne(s, t, Step(t, max, Increment), n - 1, first, last);
    }
  }

  /** One more step of a run. */
  lemma Then(s: State, max: nat, acts: seq<Action>, t: State, a: Action) returns (more: seq<Action>, u: State)
    requires t == Run(s, max, acts)
    ensures u == Run(s, max, more) && u == Step(t, max, a) && more == acts + [a]
    ensures Resets(more) == Resets(acts) + if a == Reset then 1 else 0
  {
    more := acts + [a];
    u := Step(t, max, a);
    assert more[..|acts|] == acts;
  }

  lemma {:induction false} NoResets(acts: seq<Action>, n: nat)
    ensures Resets(acts + Increments(n)) == Resets(acts)
  {
    var more := acts + Increments(n);
    if n == 0 {
      assert more == acts;
    } else {
      NoResets(acts, n - 1);
      assert more[..|more| - 1] == acts + Increments(n - 1) && more[|more| - 1] == Increment;
    }
  }

  lemma ThenIncrements(s: State, max: nat, acts: seq<Action>, t: State, n: nat, first: int, last: int)
      returns (more: seq<Action>, u: State)
    requires t == Run(s, max, acts)
    requires first <= t.now <= last && CountOf(t.counter) + n <= max
             && (t.counter.Some? ==> Live(t.counter.value, t.now))
    ensures u == Run(s, max, more) && AdmittedMore(t, u, n, first, last) && Resets(more) == Resets(acts)
  {
    more := acts + Increments(n);
    NoResets(acts, n);
    RunSplits(s, max, acts, Increments(n));
    AfterIncrements(t, max, n, first, last);
    u := Run(t, max, Increments(n));
  }

  /** A lifetime opened at `now` and seen one second before it ends, with none of its attempts in the last second. */
  lemma OpenedEarlier(now: int, max: nat) returns (acts: seq<Action>, s: State)
    requires max > 0
    ensures s == Run(Begin(now), max, acts) && Resets(acts) == 0
    ensures s.now == now + 899 && s.counter == Some(Counter(1, Some(now + 900)))
    ensures AdmittedBetween(s.log, now + 899, now + 900) == 0
  {
    acts, s := [], Begin(now);
    acts, s := Then(Begin(now), max, acts, s, Increment);
    acts, s := Then(Begin(now), max, acts, s, SetExpiry);
    acts, s := Then(Begin(now), max, acts, s, Advance(899));
    assert s.log == [Attempt(now, 0, true)] && s.log[..0] == [];
  }

  /** A lifetime that lets all its attempts through, and is reset. */
  lemma OneRound(now: int, max: nat, acts: seq<Action>, s: State, first: int, last: int)
    returns (more: seq<Action>, t: State)
    requires s == Run(Begin(now), max, acts) && first <= s.now <= last && s.counter.None?
    ensures t == Run(Begin(now), max, more) && t.now == s.now && t.counter.None? && Resets(more) == Resets(acts) + 1
    ensures AdmittedBetween(t.log, first, last) == AdmittedBetween(s.log, first, last) + max
  {
    var full, s1 := ThenIncrements(Begin(now), max, acts, s, max, first, last);
    more, t := Then(Begin(now), max, full, s1, Reset);
  }

  lemma {:induction false} Rounds(now: int, max: nat, acts: seq<Action>, s: State, r: nat, first: int, last: int)
    returns (more: seq<Action>, t: State)
    requires s == Run(Begin(now), max, acts) && first <= s.now <= last && s.counter.None?
    ensures t == Run(Begin(now), max, more) && t.now == s.now && t.counter.None? && Resets(more) == Resets(acts) + r
    ensures AdmittedBetween(t.log, first, last) == AdmittedBetween(s.log, first, last) + r * max
  {
    if r == 0 {
      more, t := acts, s;
    } else {
      var before, u := Rounds(now, max, acts, s, r - 1, first, last);
      more, t := OneRound(now, max, before, u, first, last);
      assert r * max == (r - 1) * max + max;
    }
  }

  /** A lifetime that lets all but one of its attempts through in its last second, and ends. */
  lemma LastSecond(now: int, max: nat) returns (acts: seq<Action>, s: State)
    requires max > 0
    ensures s == Run(Begin(now), max, acts) && Resets(acts) == 0 && s.now == now + 900 && s.counter.None?
    ensures AdmittedBetween(s.log, now + 899, now + 900) == max - 1
  {
    var opening, s1 := OpenedEarlier(now, max);
    var firstLife, s2 := ThenIncrements(Begin(now), max, opening, s1, max - 1, now + 899, now + 900);
    acts, s := Then(Begin(now), max, firstLife, s2, Advance(1));
  }

  /** With any number of resets the bound is reached, in one second: by the last attempts of one lifetime, the first
      ones of the next, and whole lifetimes between resets. */
  lemma TheBoundIsReached(now: int, max: nat, r: nat) returns (acts: seq<Action>)
    requires max > 0
    ensures Resets(acts) == r
    ensures AdmittedBetween(Run(Begin(now), max, acts).log, now + 899, now + 900) == (r + 2) * max - 1
  {
    var ended, s1 := LastSecond(now, max);
    var rounds, s2 := Rounds(now, max, ended, s1, r, now + 899, now + 900);
    var s3;
    acts, s3 := ThenIncrements(Begin(now), max, rounds, s2, max, now + 899, now + 900);
    assert (r + 2) * max == r * max + max + max;
  }

  // ----- A counter whose expiry was never set -----

  /** A call that stops between its increment and its expiry leaves a counter that only lacks the expiry. */
  lemma LostExpiryIsReached(now: int, max: nat) returns (acts: seq<Action>)
    requires max > 0
    ensures Unaided(acts)
    ensures var s := Run(Begin(now), max, acts); s.counter == Some(Counter(max, None)) && s.now == now
  {
    acts := Increments(max);
    AfterIncrements(Begin(now), max, max, now, now);
  }

  predicate Full(s: State, max: nat) {
    s.counter.Some? && Live(s.counter.value, s.now) && s.counter.value.count >= max
  }

  /** Neither resets the counter nor sets its expiry. */
  predicate Unaided(acts: seq<Action>) { Reset !in acts && SetExpiry !in acts }

  predicate AdmitsSince(s: State, t: State) {
    exists i :: |s.log| <= i < |t.log| && t.log[i].admitted
  }

  lemma {:induction false} LostExpiryLocksOut(s: State, max: nat, acts: seq<Action>)
    requires Full(s, max) && s.counter.value.expiry.None? && Unaided(acts)
    ensures var t := Run(s, max, acts);
            Full(t, max) && t.counter.value.expiry.None? && s.log <= t.log && !AdmitsSince(s, t)
  {
    if acts != [] {
      LostExpiryLocksOut(s, max, acts[..|acts| - 1]);
    }
  }

  lemma ExpiryReopens(s: State, max: nat) returns (acts: seq<Action>)
    requires Full(s, max) && s.counter.value.expiry.Some? && max > 0
    ensures Unaided(acts) && AdmitsSince(s, Run(s, max, acts))
  {
    var wait, t := Then(s, max, [], s, Advance(s.counter.value.expiry.value - s.now));
    var u;
    acts, u := Then(s, max, wait, t, Increment);
    assert u.log[|s.log|].admitted;
  }

  /** A full counter ever lets an attempt through again, without a reset or a late expiry, exactly when its expiry is
      set. */
  lemma {:induction false} FullCounterReopensIff(s: State, max: nat)
    requires Full(s, max) && max > 0
    ensures (exists acts :: Unaided(acts) && AdmitsSince(s, Run(s, max, acts))) <==> s.counter.value.expiry.Some?
  {
    if s.counter.value.expiry.Some? {
      var acts := ExpiryReopens(s, max);
    } else {
      forall acts | Unaided(acts) ensures !AdmitsSince(s, Run(s, max, acts)) {
        LostExpiryLocksOut(s, max, acts);
      }
    }
  }

  // ----- The service, one call at a time -----

  function IpKey(ip: Text): Text { Ascii("pin:attempts:ip:") + ip }

  function AccountKey(id: Text): Text { Ascii("pin:attempts:acct:") + id }

  /** No address shares a counter with an account, nor two addresses or two accounts with each other. */
  lemma KeysDiffer(a: Text, b: Text)
    ensures IpKey(a) != AccountKey(b)
    ensures IpKey(a) == IpKey(b) ==> a == b
    ensures AccountKey(a) == AccountKey(b) ==> a == b
  {
    assert IpKey(a)[13] == 'i' as int && AccountKey(b)[13] == 'a' as int;
    assert IpKey(a)[|Ascii("pin:attempts:ip:")|..] == a && IpKey(b)[|Ascii("pin:attempts:ip:")|..] == b;
    assert AccountKey(a)[|Ascii("pin:attempts:acct:")|..] == a && AccountKey(b)[|Ascii("pin:attempts:acct:")|..] == b;
  }

  function CounterAt(counters: map<Text, Counter>, key: Text): Option<Counter> {
    if key in counters then Some(counters[key]) else None
  }

  /** The counter after one whole `bump`. */
  function Bumped(c: Option<Counter>, now: int): Counter {
    var d := Incremented(c, now);
    if d.count == 1 then Expiring(d, now) else d
  }

  /** Alone, a `bump` is the machine's increment and its expiry at once. */
  lemma BumpIsItsSteps(s: State, max: nat)
    requires s.pending == 0
    ensures Step(Step(s, max, Increment), max, SetExpiry).counter == Some(Bumped(s.counter, s.now))
    ensures Step(s, max, Increment).log
      == s.log + [Attempt(s.now, Step(s, max, Increment).log[|s.log|].life, Bumped(s.counter, s.now).count <= max)]
  {
  }

  class RateLimiter {
    var counters: map<Text, Counter>

    constructor ()
      ensures counters == map[]
    {
      counters := map[];
    }

    method Bump(key: Text, max: nat, now: int) returns (ok: bool)
      modifies this
      ensures counters == old(counters)[key := Bumped(CounterAt(old(counters), key), now)]
      ensures ok == (counters[key].count <= max)
    {
      var counter := Incremented(CounterAt(counters, key), now);
      counters := counters[key := counter];
      if counter.count == 1 {
        counters := counters[key := Expiring(counter, now)];
      }
      return counter.count <= max;
    }

    /** Counts the attempt for the address, which may have ten, and, only if that passes, for the account, which may
        have five; an empty account does not count. */
    method CheckLimit(ip: Text, account: Option<Text>, now: int) returns (ok: bool)
      modifies this
      ensures var before := old(counters);
              var forIp := Bumped(CounterAt(before, IpKey(ip)), now);
              if forIp.count > 10 || account.None? || account.value == [] then
                ok == (forIp.count <= 10) && counters == before[IpKey(ip) := forIp]
              else
                var forAccount := Bumped(CounterAt(before, AccountKey(account.value)), now);
                && ok == (forAccount.count <= 5)
                && counters == before[IpKey(ip) := forIp][AccountKey(account.value) := forAccount]
      ensures forall key :: key != IpKey(ip) && (account.Some? ==> key != AccountKey(account.value)) ==>
                CounterAt(counters, key) == CounterAt(old(counters), key)
    {
      var ipOk := Bump(IpKey(ip), MAX_ATTEMPTS_IP, now);
      if !ipOk {
        return false;
      }
      if account.Some? && account.value != [] {
        KeysDiffer(ip, account.value);
        var accountOk := Bump(AccountKey(account.value), MAX_ATTEMPTS_ACCOUNT, now);
        if !accountOk {
          return false;
        }
      }
      return true;
    }

    method ResetLimit(ip: Text, account: Option<Text>)
      modifies this
      ensures counters == old(counters) - {IpKey(ip)}
                          - if account.Some? && account.value != [] then {AccountKey(account.value)} else {}
    {
      counters := counters - {IpKey(ip)};
      if account.Some? && account.value != [] {
        counters := counters - {AccountKey(account.value)};
      }
    }
  }
}
