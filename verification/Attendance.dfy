/** Attendance: the lock around registering an entry, and the closing of records. */
module Attendance {
  import opened Wrappers
  import opened Overtime

  const LOCK_TTL_MILLIS := 10000

  /** A lock protects one user on one day. A user belongs to one organisation. */
  datatype Key = Key(user: string, day: int)

  datatype Rec = Rec(
    org: string,
    user: string,
    day: int,
    entry: int,
    exit: Option<int>,
    lunch: Option<nat>,
    worked: Option<Worked>)

  function KeyOf(r: Rec): Key { Key(r.user, r.day) }

  predicate IsOpen(r: Rec, k: Key) { r.exit.None? && KeyOf(r) == k }

  /** The local day of an instant in milliseconds. */
  function LocalDay(millis: int): int { (millis / 1000 - UTC_OFFSET) / DAY }

  /** Day d goes from 5:00 UTC of its date to 5:00 UTC of the next. */
  lemma LocalDaysBeginAtFive(millis: int, d: int)
    ensures LocalDay(millis) == d <==> d * 86_400_000 + 18_000_000 <= millis < (d + 1) * 86_400_000 + 18_000_000
  {
  }

  // ----- The protocol: one step per access to Redis or to the database -----

  /** `Created` and `Releasing` calls have written their record; a `Failed` call goes straight to the final delete. */
  datatype Stage = Acquired | Cleared | Created | Releasing | Failed

  datatype Call = Call(key: Key, acquiredAt: int, stage: Stage)

  datatype World = World(
    now: int,
    locks: map<Key, int>,
    records: seq<Rec>,
    calls: map<nat, Call>,
    exits: map<nat, nat>)

  datatype Action =
    | Tick(elapsed: nat)
    | Begin(pid: nat, user: string)
    | FailEarly(pid: nat)
    | CheckOpen(pid: nat)
    | Create(pid: nat, org: string)
    | Delete(pid: nat)
    | LoadExit(pid: nat, index: nat)
    | WriteExit(pid: nat)

  function Step(w: World, a: Action): World {
    match a
    case Tick(elapsed) => w.(now := w.now + elapsed)
    case Begin(pid, user) =>
      var k := Key(user, LocalDay(w.now));
      if pid in w.calls || (k in w.locks && w.now < w.locks[k]) then w
      else w.(locks := w.locks[k := w.now + LOCK_TTL_MILLIS], calls := w.calls[pid := Call(k, w.now, Acquired)])
    case FailEarly(pid) =>
      if pid in w.calls && (w.calls[pid].stage.Acquired? || w.calls[pid].stage.Cleared?)
      then w.(calls := w.calls[pid := w.calls[pid].(stage := Failed)]) else w
    case CheckOpen(pid) =>
      if pid in w.calls && w.calls[pid].stage.Acquired? then
        var found := exists i :: 0 <= i < |w.records| && IsOpen(w.records[i], w.calls[pid].key);
        w.(calls := w.calls[pid := w.calls[pid].(stage := if found then Failed else Cleared)])
      else w
    case Create(pid, org) =>
      if pid in w.calls && w.calls[pid].stage.Cleared? then
        var c := w.calls[pid];
        w.(records := w.records + [Rec(org, c.key.user, c.key.day, w.now, None, None, None)],
           calls := w.calls[pid := c.(stage := Created)])
      else w
    case Delete(pid) =>
      if pid in w.calls && w.calls[pid].stage.Created? then
        w.(locks := w.locks - {w.calls[pid].key}, calls := w.calls[pid := w.calls[pid].(stage := Releasing)])
      else if pid in w.calls && (w.calls[pid].stage.Releasing? || w.calls[pid].stage.Failed?) then
        w.(locks := w.locks - {w.calls[pid].key}, calls := w.calls - {pid})
      else w
    case LoadExit(pid, i) =>
      if pid !in w.exits && i < |w.records| && w.records[i].exit.None? then w.(exits := w.exits[pid := i]) else w
    case WriteExit(pid) =>
      if pid in w.exits && w.exits[pid] < |w.records| then
        var i := w.exits[pid];
        w.(records := w.records[i := w.records[i].(exit := Some(w.now))], exits := w.exits - {pid})
      else w
  }

  function Run(w: World, acts: seq<Action>): World
    decreases |acts|
  {
    if acts == [] then w else Run(Step(w, acts[0]), acts[1..])
  }

  /** The lock of a call lasts ten seconds, if nothing deletes it. */
  lemma LockLastsTenSeconds(w: World, pid: nat, user: string, elapsed: nat)
    requires pid !in w.calls && !(Key(user, LocalDay(w.now)) in w.locks && w.now < w.locks[Key(user, LocalDay(w.now))])
    ensures var v, k := Step(Step(w, Begin(pid, user)), Tick(elapsed)), Key(user, LocalDay(w.now));
            k in v.locks && (v.now < v.locks[k] <==> elapsed < 10_000)
  {
  }

  // ----- The invariant -----

  predicate AtMostOneOpen(records: seq<Rec>) {
    forall i, j :: 0 <= i < j < |records| && records[i].exit.None? && records[j].exit.None? ==>
      KeyOf(records[i]) != KeyOf(records[j])
  }

  predicate HasOpen(w: World, k: Key) {
    exists i :: 0 <= i < |w.records| && IsOpen(w.records[i], k)
  }

  /** The call has created nothing, owns its live lock and is alone with its key. */
  ghost predicate OwnsLock(w: World, pid: nat)
    requires pid in w.calls
  {
    var c := w.calls[pid];
    && (c.stage.Acquired? || c.stage.Cleared? || c.stage.Failed?)
    && c.key in w.locks && w.locks[c.key] == c.acquiredAt + LOCK_TTL_MILLIS && w.now < w.locks[c.key]
    && (forall other :: other in w.calls && w.calls[other].key == c.key ==> other == pid)
  }

  /** A call past its check has no open record, and a call without an open record owns its lock. */
  ghost predicate Inv(w: World) {
    && AtMostOneOpen(w.records)
    && (forall pid :: pid in w.calls && HasOpen(w, w.calls[pid].key) ==> !w.calls[pid].stage.Cleared?)
    && (forall pid :: pid in w.calls && !HasOpen(w, w.calls[pid].key) ==> OwnsLock(w, pid))
  }

  // ----- The side conditions -----

  /** An open record is closed only while every entry call of its user and day owns its lock, and time passes only as
      far as every call without an open record is still younger than its lock. */
  ghost predicate Undisturbed(w: World, a: Action) {
    match a
    case WriteExit(pid) =>
      pid in w.exits && w.exits[pid] < |w.records| && w.records[w.exits[pid]].exit.None? ==>
        forall p :: p in w.calls && w.calls[p].key == KeyOf(w.records[w.exits[pid]]) ==> OwnsLock(w, p)
    case Tick(elapsed) =>
      forall p :: p in w.calls && !HasOpen(w, w.calls[p].key) ==>
        w.now + elapsed < w.calls[p].acquiredAt + LOCK_TTL_MILLIS
    case _ => true
  }

  ghost predicate UndisturbedRun(w: World, acts: seq<Action>)
    decreases |acts|
  {
    acts == [] || (Undisturbed(w, acts[0]) && UndisturbedRun(Step(w, acts[0]), acts[1..]))
  }

  lemma SameRecordsSameOpen(w: World, v: World)
    requires v.records == w.records
    ensures forall k :: HasOpen(v, k) <==> HasOpen(w, k)
  {
  }

  lemma BeginKeepsInv(w: World, pid: nat, user: string)
    requires Inv(w)
    ensures Inv(Step(w, Begin(pid, user)))
  {
    var v := Step(w, Begin(pid, user));
    SameRecordsSameOpen(w, v);
    forall p | p in v.calls && !HasOpen(v, v.calls[p].key) ensures OwnsLock(v, p) {
      if p in w.calls {
        assert OwnsLock(w, p);
      } else {
        forall other | other in w.calls ensures v.calls != w.calls ==> w.calls[other].key != v.calls[p].key {
          assert HasOpen(w, w.calls[other].key) || OwnsLock(w, other);
        }
      }
    }
  }

  lemma DeleteKeepsInv(w: World, pid: nat)
    requires Inv(w)
    ensures Inv(Step(w, Delete(pid)))
  {
    var v := Step(w, Delete(pid));
    SameRecordsSameOpen(w, v);
    forall p | p in v.calls && !HasOpen(v, v.calls[p].key) ensures OwnsLock(v, p) {
      assert OwnsLock(w, p);
    }
  }

  lemma StageKeepsInv(w: World, v: World, pid: nat, stage: Stage)
    requires Inv(w) && pid in w.calls && (w.calls[pid].stage.Acquired? || w.calls[pid].stage.Cleared?)
    requires v == w.(calls := w.calls[pid := w.calls[pid].(stage := stage)])
    requires stage.Failed? || (stage.Cleared? && !HasOpen(w, w.calls[pid].key))
    ensures Inv(v)
  {
    SameRecordsSameOpen(w, v);
    forall p | p in v.calls && !HasOpen(v, v.calls[p].key) ensures OwnsLock(v, p) {
      assert OwnsLock(w, p);
    }
  }

  lemma FailEarlyKeepsInv(w: World, pid: nat)
    requires Inv(w)
    ensures Inv(Step(w, FailEarly(pid)))
  {
    if Step(w, FailEarly(pid)) != w {
      StageKeepsInv(w, Step(w, FailEarly(pid)), pid, Failed);
    }
  }

  lemma CheckOpenKeepsInv(w: World, pid: nat)
    requires Inv(w)
    ensures Inv(Step(w, CheckOpen(pid)))
  {
    if pid in w.calls && w.calls[pid].stage.Acquired? {
      StageKeepsInv(w, Step(w, CheckOpen(pid)), pid, if HasOpen(w, w.calls[pid].key) then Failed else Cleared);
    }
  }

  lemma IdleStepKeepsInv(w: World, a: Action)
    requires Inv(w) && Undisturbed(w, a)
    requires a.Tick? || a.LoadExit?
    ensures Inv(Step(w, a))
  {
    var v := Step(w, a);
    SameRecordsSameOpen(w, v);
    forall p | p in v.calls && !HasOpen(v, v.calls[p].key) ensures OwnsLock(v, p) {
      assert OwnsLock(w, p);
    }
  }

  lemma CreateKeepsInv(w: World, pid: nat, org: string)
    requires Inv(w)
    ensures Inv(Step(w, Create(pid, org)))
  {
    var v := Step(w, Create(pid, org));
    if v.records != w.records {
      var k := w.calls[pid].key;
      assert OwnsLock(w, pid);
      assert IsOpen(v.records[|w.records|], k);
      assert v.records == w.records + [v.records[|w.records|]];
      forall other: Key ensures HasOpen(v, other) <==> HasOpen(w, other) || other == k {
        if HasOpen(w, other) {
          var i :| 0 <= i < |w.records| && IsOpen(w.records[i], other);
          assert IsOpen(v.records[i], other);
        }
      }
      forall p | p in v.calls && !HasOpen(v, v.calls[p].key) ensures OwnsLock(v, p) {
        assert OwnsLock(w, p);
      }
    }
  }

  /** Closing the only open record of a key leaves none, and changes no other key. */
  lemma ClosedKey(w: World, pid: nat)
    requires AtMostOneOpen(w.records) && pid in w.exits && w.exits[pid] < |w.records|
    requires w.records[w.exits[pid]].exit.None?
    ensures var v, k := Step(w, WriteExit(pid)), KeyOf(w.records[w.exits[pid]]);
            && !HasOpen(v, k) && AtMostOneOpen(v.records)
            && forall other: Key :: other != k ==> (HasOpen(v, other) <==> HasOpen(w, other))
  {
    var v, k := Step(w, WriteExit(pid)), KeyOf(w.records[w.exits[pid]]);
    forall other: Key | other != k ensures HasOpen(v, other) <==> HasOpen(w, other) {
      if HasOpen(w, other) {
        var i :| 0 <= i < |w.records| && IsOpen(w.records[i], other);
        assert IsOpen(v.records[i], other);
      }
    }
  }

  lemma RewrittenExit(w: World, pid: nat)
    requires pid in w.exits ==> w.exits[pid] >= |w.records| || w.records[w.exits[pid]].exit.Some?
    ensures var v := Step(w, WriteExit(pid));
            (forall k :: HasOpen(v, k) <==> HasOpen(w, k)) && (AtMostOneOpen(v.records) <==> AtMostOneOpen(w.records))
  {
    var v := Step(w, WriteExit(pid));
    assert |v.records| == |w.records| && forall i :: 0 <= i < |w.records| ==>
      KeyOf(v.records[i]) == KeyOf(w.records[i]) && (v.records[i].exit.None? <==> w.records[i].exit.None?);
    forall k ensures HasOpen(v, k) <==> HasOpen(w, k) {
      if HasOpen(w, k) {
        var i :| 0 <= i < |w.records| && IsOpen(w.records[i], k);
        assert IsOpen(v.records[i], k);
      }
    }
  }

  lemma WriteExitKeepsInv(w: World, pid: nat)
    requires Inv(w) && Undisturbed(w, WriteExit(pid))
    ensures Inv(Step(w, WriteExit(pid)))
  {
    var v := Step(w, WriteExit(pid));
    if pid in w.exits && w.exits[pid] < |w.records| && w.records[w.exits[pid]].exit.None? {
      ClosedKey(w, pid);
    } else {
      RewrittenExit(w, pid);
    }
    forall p | p in v.calls && !HasOpen(v, v.calls[p].key) ensures OwnsLock(v, p) {
      assert OwnsLock(w, p);
    }
  }

  lemma StepKeepsInv(w: World, a: Action)
    requires Inv(w) && Undisturbed(w, a)
    ensures Inv(Step(w, a))
  {
    match a
    case Begin(pid, user) => BeginKeepsInv(w, pid, user);
    case Delete(pid) => DeleteKeepsInv(w, pid);
    case Create(pid, org) => CreateKeepsInv(w, pid, org);
    case WriteExit(pid) => WriteExitKeepsInv(w, pid);
    case FailEarly(pid) => FailEarlyKeepsInv(w, pid);
    case CheckOpen(pid) => CheckOpenKeepsInv(w, pid);
    case _ => IdleStepKeepsInv(w, a);
  }

  /** In every undisturbed interleaving there is at most one open record per user and day,
      although the second delete of a call may remove the lock of another. */
  lemma {:induction false} OneOpenRecord(w: World, acts: seq<Action>)
    requires Inv(w) && UndisturbedRun(w, acts)
    ensures Inv(Run(w, acts)) && AtMostOneOpen(Run(w, acts).records)
    decreases |acts|
  {
    if acts != [] {
      StepKeepsInv(w, acts[0]);
      OneOpenRecord(Step(w, acts[0]), acts[1..]);
    }
  }

  // ----- The side conditions are exact -----

  /** Every undisturbed continuation has at most one open record per user and day. */
  ghost predicate SafeFrom(w: World) {
    forall acts :: UndisturbedRun(w, acts) ==> AtMostOneOpen(Run(w, acts).records)
  }

  /** A live lock belongs to a call in flight that has not deleted it. */
  ghost predicate Owned(w: World) {
    forall k :: k in w.locks && w.now < w.locks[k] ==> HasOwner(w, k)
  }

  ghost predicate HasOwner(w: World, k: Key) {
    exists p :: p in w.calls && OwnerOf(w, p, k)
  }

  predicate OwnerOf(w: World, p: nat, k: Key)
    requires p in w.calls
  {
    k in w.locks && w.calls[p].key == k && w.locks[k] == w.calls[p].acquiredAt + LOCK_TTL_MILLIS
      && !w.calls[p].stage.Releasing?
  }

  /** Every step keeps it, whatever exits and the clock do. */
  lemma StepKeepsOwned(w: World, a: Action)
    requires Owned(w)
    ensures Owned(Step(w, a))
  {
    var v := Step(w, a);
    forall k | k in v.locks && v.now < v.locks[k] ensures HasOwner(v, k) {
      if a.Begin? && v != w && k == Key(a.user, LocalDay(w.now)) {
        assert OwnerOf(v, a.pid, k);
      } else {
        assert HasOwner(w, k);
        var p :| p in w.calls && OwnerOf(w, p, k);
        assert p in v.calls && OwnerOf(v, p, k);
      }
    }
  }

  /** So it holds throughout every run that begins without locks. */
  lemma {:induction false} RunKeepsOwned(w: World, acts: seq<Action>)
    requires Owned(w)
    ensures Owned(Run(w, acts))
    decreases |acts|
  {
    if acts != [] {
      StepKeepsOwned(w, acts[0]);
      RunKeepsOwned(Step(w, acts[0]), acts[1..]);
    }
  }

  /** The calls in flight are of today, so that another call of their users competes with them. */
  predicate Today(w: World) {
    forall p :: p in w.calls ==> w.calls[p].key.day == LocalDay(w.now)
  }

  predicate FreeLock(w: World, k: Key) { !Locked(w.locks, k, w.now) }

  predicate Locked(locks: map<Key, int>, k: Key, now: int) { k in locks && now < locks[k] }

  predicate Creator(w: World, p: nat, k: Key) {
    p in w.calls && w.calls[p].key == k && (w.calls[p].stage.Acquired? || w.calls[p].stage.Cleared?)
  }

  predicate Deleter(w: World, p: nat, k: Key) {
    p in w.calls && w.calls[p].key == k
      && (w.calls[p].stage.Failed? || w.calls[p].stage.Created? || w.calls[p].stage.Releasing?)
  }

  lemma Diverges(w: World, a: Action)
    requires Undisturbed(w, a) && !SafeFrom(Step(w, a))
    ensures !SafeFrom(w)
  {
    var acts :| UndisturbedRun(Step(w, a), acts) && !AtMostOneOpen(Run(Step(w, a), acts).records);
    RunCons(w, a, acts);
    assert ([a] + acts)[1..] == acts;
    assert UndisturbedRun(w, [a] + acts);
  }

  lemma TwoOpen(w: World)
    requires !AtMostOneOpen(w.records)
    ensures !SafeFrom(w)
  {
    assert UndisturbedRun(w, []) && Run(w, []) == w;
  }

  /** A call past its check creates a record beside an open one. */
  lemma ClearedBesideOpen(w: World, p: nat)
    requires p in w.calls && w.calls[p].stage.Cleared? && HasOpen(w, w.calls[p].key)
    ensures !SafeFrom(w)
  {
    var k := w.calls[p].key;
    var v := Step(w, Create(p, "org"));
    var i :| 0 <= i < |w.records| && IsOpen(w.records[i], k);
    assert IsOpen(v.records[i], k) && IsOpen(v.records[|w.records|], k);
    TwoOpen(v);
    Diverges(w, Create(p, "org"));
  }

  lemma BothCleared(w: World, p: nat, q: nat)
    requires p != q && p in w.calls && q in w.calls && w.calls[p].key == w.calls[q].key
    requires w.calls[p].stage.Cleared? && w.calls[q].stage.Cleared?
    ensures !SafeFrom(w)
  {
    var v := Step(w, Create(p, "org"));
    assert IsOpen(v.records[|w.records|], w.calls[p].key);
    ClearedBesideOpen(v, q);
    Diverges(w, Create(p, "org"));
  }

  /** Two calls that may still create, and no open record: both create. */
  lemma {:induction false} TwoCreators(w: World, p: nat, q: nat, k: Key)
    requires p != q && Creator(w, p, k) && Creator(w, q, k) && !HasOpen(w, k)
    ensures !SafeFrom(w)
    decreases (if w.calls[p].stage.Acquired? then 1 else 0) + (if w.calls[q].stage.Acquired? then 1 else 0)
  {
    if w.calls[p].stage.Acquired? {
      SameRecordsSameOpen(w, Step(w, CheckOpen(p)));
      TwoCreators(Step(w, CheckOpen(p)), p, q, k);
      Diverges(w, CheckOpen(p));
    } else if w.calls[q].stage.Acquired? {
      SameRecordsSameOpen(w, Step(w, CheckOpen(q)));
      TwoCreators(Step(w, CheckOpen(q)), p, q, k);
      Diverges(w, CheckOpen(q));
    } else {
      BothCleared(w, p, q);
    }
  }

  lemma {:induction false} AboveAll(keys: set<nat>) returns (n: nat)
    ensures forall k :: k in keys ==> k < n
    decreases |keys|
  {
    if keys == {} {
      n := 0;
    } else {
      var k :| k in keys;
      var m := AboveAll(keys - {k});
      n := if k < m then m else k + 1;
      forall x | x in keys ensures x < n {
        assert x == k || x in keys - {k};
      }
    }
  }

  /** A free lock lets one more call in. */
  lemma Joins(w: World, k: Key) returns (p: nat)
    requires FreeLock(w, k) && k.day == LocalDay(w.now)
    ensures p !in w.calls
    ensures var v := Step(w, Begin(p, k.user));
            && Creator(v, p, k) && v.records == w.records && v.now == w.now
            && forall q :: q in w.calls ==> q in v.calls && v.calls[q] == w.calls[q]
  {
    p := AboveAll(w.calls.Keys);
  }

  lemma CreatorAndFreeLock(w: World, p: nat, k: Key)
    requires Creator(w, p, k) && FreeLock(w, k) && k.day == LocalDay(w.now) && !HasOpen(w, k)
    ensures !SafeFrom(w)
  {
    var q := Joins(w, k);
    var v := Step(w, Begin(q, k.user));
    SameRecordsSameOpen(w, v);
    TwoCreators(v, p, q, k);
    Diverges(w, Begin(q, k.user));
  }

  lemma CreatorAndDeleter(w: World, p: nat, q: nat, k: Key)
    requires Creator(w, p, k) && Deleter(w, q, k) && k.day == LocalDay(w.now) && !HasOpen(w, k)
    ensures !SafeFrom(w)
  {
    var v := Step(w, Delete(q));
    SameRecordsSameOpen(w, v);
    CreatorAndFreeLock(v, p, k);
    Diverges(w, Delete(q));
  }

  lemma DeleterAndFreeLock(w: World, p: nat, k: Key)
    requires Deleter(w, p, k) && FreeLock(w, k) && k.day == LocalDay(w.now) && !HasOpen(w, k)
    ensures !SafeFrom(w)
  {
    var q := Joins(w, k);
    var v := Step(w, Begin(q, k.user));
    SameRecordsSameOpen(w, v);
    CreatorAndDeleter(v, q, p, k);
    Diverges(w, Begin(q, k.user));
  }

  /** A delete after which a deleter of the key is still in flight. */
  lemma DeleterRemains(w: World, q: nat, p: nat, k: Key)
    requires Deleter(w, q, k) && Deleter(w, p, k) && (q != p || w.calls[q].stage.Created?)
    requires k.day == LocalDay(w.now) && !HasOpen(w, k)
    ensures !SafeFrom(w)
  {
    var v := Step(w, Delete(q));
    SameRecordsSameOpen(w, v);
    DeleterAndFreeLock(v, p, k);
    Diverges(w, Delete(q));
  }

  lemma TwoCalls(w: World, p: nat, q: nat, k: Key)
    requires p != q && p in w.calls && q in w.calls && w.calls[p].key == w.calls[q].key == k
    requires k.day == LocalDay(w.now) && !HasOpen(w, k)
    ensures !SafeFrom(w)
  {
    if Creator(w, p, k) && Creator(w, q, k) {
      TwoCreators(w, p, q, k);
    } else if Creator(w, p, k) {
      CreatorAndDeleter(w, p, q, k);
    } else if Creator(w, q, k) {
      CreatorAndDeleter(w, q, p, k);
    } else {
      DeleterRemains(w, p, q, k);
    }
  }

  /** Without an open record, a call that does not own its lock leads to two open records. */
  lemma NotOwningDiverges(w: World, p: nat)
    requires p in w.calls && !HasOpen(w, w.calls[p].key) && !OwnsLock(w, p) && Owned(w) && Today(w)
    ensures !SafeFrom(w)
  {
    var k := w.calls[p].key;
    if q :| q in w.calls && q != p && w.calls[q].key == k {
      TwoCalls(w, p, q, k);
    } else if FreeLock(w, k) {
      if Creator(w, p, k) {
        CreatorAndFreeLock(w, p, k);
      } else {
        DeleterAndFreeLock(w, p, k);
      }
    } else {
      assert HasOwner(w, k);
      assert OwnerOf(w, p, k);
      DeleterRemains(w, p, p, k);
    }
  }

  /** With the calls in flight of today, every undisturbed continuation has at most one open record per user and day
      exactly when the invariant holds. */
  lemma SafeIffInv(w: World)
    requires Owned(w) && Today(w)
    ensures SafeFrom(w) <==> Inv(w)
  {
    if Inv(w) {
      forall acts | UndisturbedRun(w, acts) ensures AtMostOneOpen(Run(w, acts).records) {
        OneOpenRecord(w, acts);
      }
    } else if !AtMostOneOpen(w.records) {
      TwoOpen(w);
    } else if p :| p in w.calls && !HasOpen(w, w.calls[p].key) && !OwnsLock(w, p) {
      NotOwningDiverges(w, p);
    } else {
      var p :| p in w.calls && HasOpen(w, w.calls[p].key) && w.calls[p].stage.Cleared?;
      ClearedBesideOpen(w, p);
    }
  }

  lemma InvMeansUndisturbed(w: World, a: Action)
    requires Inv(w) && Inv(Step(w, a))
    ensures Undisturbed(w, a)
  {
    var v := Step(w, a);
    match a
    case WriteExit(pid) =>
      if pid in w.exits && w.exits[pid] < |w.records| && w.records[w.exits[pid]].exit.None? {
        ClosedKey(w, pid);
        forall p | p in w.calls && w.calls[p].key == KeyOf(w.records[w.exits[pid]]) ensures OwnsLock(w, p) {
          assert OwnsLock(v, p);
        }
      }
    case Tick(elapsed) =>
      SameRecordsSameOpen(w, v);
      forall p | p in w.calls && !HasOpen(w, w.calls[p].key)
        ensures w.now + elapsed < w.calls[p].acquiredAt + LOCK_TTL_MILLIS
      {
        assert OwnsLock(v, p);
      }
    case _ =>
  }

  /** The side condition of a step is exact: from a state of the invariant, a step leaves every undisturbed continuation
      with at most one open record per user and day exactly when it is undisturbed. An exit is harmless exactly when
      every entry call of its user and day owns its lock, and time exactly when it expires no lock of a call without an
      open record. */
  lemma SideConditionIsExact(w: World, a: Action)
    requires Inv(w) && Owned(w) && Today(Step(w, a))
    ensures SafeFrom(Step(w, a)) <==> Undisturbed(w, a)
  {
    StepKeepsOwned(w, a);
    SafeIffInv(Step(w, a));
    if Undisturbed(w, a) {
      StepKeepsInv(w, a);
    } else if Inv(Step(w, a)) {
      InvMeansUndisturbed(w, a);
    }
  }

  // ----- Runs that show both side conditions are needed -----

  function Fresh(now: int): World { World(now, map[], [], map[], map[]) }

  lemma {:induction false} RunCons(w: World, a: Action, rest: seq<Action>)
    ensures Run(w, [a] + rest) == Run(Step(w, a), rest)
  {
  }

  function OpenRecord(user: string, now: int): Rec { Rec("org", user, LocalDay(now), now, None, None, None) }

  /** One complete successful entry up to its first delete. */
  lemma {:induction false} EnterOnce(user: string, now: int, rest: seq<Action>)
    ensures Run(Fresh(now), [Begin(1, user)] + ([CheckOpen(1)] + ([Create(1, "org")] + ([Delete(1)] + rest))))
         == Run(World(now, map[], [OpenRecord(user, now)], map[1 := Call(Key(user, LocalDay(now)), now, Releasing)],
           map[]), rest)
  {
    var k := Key(user, LocalDay(now));
    var locks := map[k := now + LOCK_TTL_MILLIS];
    RunCons(Fresh(now), Begin(1, user), [CheckOpen(1)] + ([Create(1, "org")] + ([Delete(1)] + rest)));
    var w1 := World(now, locks, [], map[1 := Call(k, now, Acquired)], map[]);
    assert Step(Fresh(now), Begin(1, user)) == w1;
    RunCons(w1, CheckOpen(1), [Create(1, "org")] + ([Delete(1)] + rest));
    var w2 := World(now, locks, [], map[1 := Call(k, now, Cleared)], map[]);
    assert Step(w1, CheckOpen(1)) == w2;
    CreateAndDelete(user, now, rest);
  }

  lemma {:induction false} CreateAndDelete(user: string, now: int, rest: seq<Action>)
    ensures var k := Key(user, LocalDay(now)); (
            Run(World(now, map[k := now + LOCK_TTL_MILLIS], [], map[1 := Call(k, now, Cleared)], map[]),
              [Create(1, "org")] + ([Delete(1)] + rest))
         == Run(World(now, map[], [OpenRecord(user, now)], map[1 := Call(k, now, Releasing)], map[]), rest))
  {
    var k := Key(user, LocalDay(now));
    var locks := map[k := now + LOCK_TTL_MILLIS];
    var w2 := World(now, locks, [], map[1 := Call(k, now, Cleared)], map[]);
    RunCons(w2, Create(1, "org"), [Delete(1)] + rest);
    var w3 := World(now, locks, [OpenRecord(user, now)], map[1 := Call(k, now, Created)], map[]);
    assert w2.calls[1 := Call(k, now, Created)] == w3.calls;
    assert w2.records + [OpenRecord(user, now)] == w3.records;
    assert Step(w2, Create(1, "org")) == w3;
    DeleteFirst(w3, k, rest);
  }

  lemma {:induction false} DeleteFirst(w: World, k: Key, rest: seq<Action>)
    requires w.locks.Keys == {k} && w.calls == map[1 := Call(k, w.now, Created)]
    ensures Run(w, [Delete(1)] + rest)
      == Run(World(w.now, map[], w.records, map[1 := Call(k, w.now, Releasing)], w.exits), rest)
  {
    RunCons(w, Delete(1), rest);
    assert w.locks - {k} == map[];
    assert w.calls[1 := Call(k, w.now, Releasing)] == map[1 := Call(k, w.now, Releasing)];
    assert Step(w, Delete(1)) == World(w.now, map[], w.records, map[1 := Call(k, w.now, Releasing)], w.exits);
  }

  /** Closing the record and losing the second caller's lock to the late delete. */
  lemma {:induction false} CloseAndLoseLock(user: string, now: int, rest: seq<Action>)
    ensures var k := Key(user, LocalDay(now)); (
            Run(World(now, map[], [OpenRecord(user, now)], map[1 := Call(k, now, Releasing)], map[]),
                [LoadExit(9, 0)] + ([WriteExit(9)] + ([Begin(2, user)] + ([Delete(1)] + rest))))
         == Run(World(now, map[], [OpenRecord(user, now).(exit := Some(now))], map[2 := Call(k, now, Acquired)], map[]),
           rest))
  {
    var k := Key(user, LocalDay(now));
    var calls := map[1 := Call(k, now, Releasing)];
    var w := World(now, map[], [OpenRecord(user, now)], calls, map[]);
    RunCons(w, LoadExit(9, 0), [WriteExit(9)] + ([Begin(2, user)] + ([Delete(1)] + rest)));
    var w1 := World(now, map[], [OpenRecord(user, now)], calls, map[9 := 0]);
    assert Step(w, LoadExit(9, 0)) == w1;
    RunCons(w1, WriteExit(9), [Begin(2, user)] + ([Delete(1)] + rest));
    var w2 := World(now, map[], [OpenRecord(user, now).(exit := Some(now))], calls, map[]);
    assert Step(w1, WriteExit(9)) == w2 by {
      assert w1.exits - {9} == map[];
      assert w1.records[0 := w2.records[0]] == w2.records;
    }
    LoseLock(user, w2, rest);
  }

  lemma {:induction false} LoseLock(user: string, w: World, rest: seq<Action>)
    requires w.locks == map[] && w.calls == map[1 := Call(Key(user, LocalDay(w.now)), w.now, Releasing)]
    ensures Run(w, [Begin(2, user)] + ([Delete(1)] + rest))
         == Run(w.(calls := map[2 := Call(Key(user, LocalDay(w.now)), w.now, Acquired)]), rest)
  {
    var k := Key(user, LocalDay(w.now));
    RunCons(w, Begin(2, user), [Delete(1)] + rest);
    var w3 := Step(w, Begin(2, user));
    RunCons(w3, Delete(1), rest);
    var w4 := Step(w3, Delete(1));
    assert w4.locks == map[];
    assert w4.calls == map[2 := Call(k, w.now, Acquired)];
  }

  /** Two callers past the check both create. */
  lemma {:induction false} BothCreate(user: string, w: World)
    requires var k := Key(user, LocalDay(w.now));
             2 in w.calls && w.calls[2] == Call(k, w.calls[2].acquiredAt, Acquired)
             && 3 in w.calls && w.calls[3] == Call(k, w.calls[3].acquiredAt, Acquired)
             && !HasOpen(w, k)
    ensures !AtMostOneOpen(Run(w, [CheckOpen(2)]
      + ([CheckOpen(3)] + ([Create(2, "org")] + ([Create(3, "org")] + [])))).records)
  {
    RunCons(w, CheckOpen(2), [CheckOpen(3)] + ([Create(2, "org")] + ([Create(3, "org")] + [])));
    var w1 := Step(w, CheckOpen(2));
    RunCons(w1, CheckOpen(3), [Create(2, "org")] + ([Create(3, "org")] + []));
    assert !HasOpen(w1, w1.calls[3].key);
    var w2 := Step(w1, CheckOpen(3));
    RunCons(w2, Create(2, "org"), [Create(3, "org")] + []);
    var w3 := Step(w2, Create(2, "org"));
    RunCons(w3, Create(3, "org"), []);
    var w4 := Step(w3, Create(3, "org"));
    var n := |w.records|;
    assert KeyOf(w4.records[n]) == KeyOf(w4.records[n + 1]);
  }

  /** An exit that closes the record between the two deletes lets two entries stay open. */
  lemma ExitBetweenDeletesBreaksIt(user: string, now: int) returns (acts: seq<Action>)
    ensures Inv(Fresh(now)) && !AtMostOneOpen(Run(Fresh(now), acts).records)
  {
    var last := [CheckOpen(2)] + ([CheckOpen(3)] + ([Create(2, "org")] + ([Create(3, "org")] + [])));
    var mid := [LoadExit(9, 0)] + ([WriteExit(9)] + ([Begin(2, user)] + ([Delete(1)] + ([Begin(3, user)] + last))));
    acts := [Begin(1, user)] + ([CheckOpen(1)] + ([Create(1, "org")] + ([Delete(1)] + mid)));
    var k := Key(user, LocalDay(now));
    EnterOnce(user, now, mid);
    CloseAndLoseLock(user, now, [Begin(3, user)] + last);
    var w := World(now, map[], [OpenRecord(user, now).(exit := Some(now))], map[2 := Call(k, now, Acquired)], map[]);
    RunCons(w, Begin(3, user), last);
    BothCreate(user, Step(w, Begin(3, user)));
  }

  /** A lock that expires inside a call does the same. */
  lemma ExpiryInsideCallBreaksIt(user: string, now: int) returns (acts: seq<Action>)
    requires LocalDay(now) == LocalDay(now + LOCK_TTL_MILLIS)
    ensures Inv(Fresh(now)) && !AtMostOneOpen(Run(Fresh(now), acts).records)
  {
    var last := [CheckOpen(2)] + ([CheckOpen(3)] + ([Create(2, "org")] + ([Create(3, "org")] + [])));
    acts := [Begin(2, user)] + ([Tick(LOCK_TTL_MILLIS)] + ([Begin(3, user)] + last));
    RunCons(Fresh(now), Begin(2, user), [Tick(LOCK_TTL_MILLIS)] + ([Begin(3, user)] + last));
    var w1 := Step(Fresh(now), Begin(2, user));
    RunCons(w1, Tick(LOCK_TTL_MILLIS), [Begin(3, user)] + last);
    var w2 := Step(w1, Tick(LOCK_TTL_MILLIS));
    RunCons(w2, Begin(3, user), last);
    BothCreate(user, Step(w2, Begin(3, user)));
  }

  // ----- Closing records -----

  function ClosedAt(r: Rec, exit: int, lunchForCalc: Option<nat>, c: Config): Rec {
    r.(exit := Some(exit), worked := Some(OvertimeOf(r.entry, exit, r.day * MILLIS_PER_DAY, lunchForCalc, c)))
  }

  function AutoClosed(r: Rec, c: Config): Rec {
    ClosedAt(r, r.entry + AUTO_CLOSE_MINUTES * 60000, r.lunch, c)
  }

  predicate OpenOn(r: Rec, org: string, day: int) { r.org == org && r.day == day && r.exit.None? }

  /** The record was closed at that instant: its minutes are those of `OvertimeOf` from its entry, on its day, with that
      lunch; besides, only the stored lunch may be another. */
  predicate ClosedRecord(before: Rec, after: Rec, exit: int, lunchForCalc: Option<nat>, c: Config) {
    && after.org == before.org && after.user == before.user && after.day == before.day && after.entry == before.entry
    && after.exit == Some(exit)
    && after.worked == Some(OvertimeOf(before.entry, exit, before.day * 86_400_000, lunchForCalc, c))
  }

  /** What the automatic close writes: an exit 7 hours and 20 minutes after the entry, which counts 440 minutes less
      lunch, and nothing else. */
  predicate AutoClosedRecord(before: Rec, after: Rec, c: Config) {
    && ClosedRecord(before, after, before.entry + 26_400_000, before.lunch, c) && after.lunch == before.lunch
    && after.worked.value.totalMinutes ==
         var lunch := if before.lunch.Some? then before.lunch.value else 0; if lunch < 440 then 440 - lunch else 0
  }

  /** What an exit writes: its lunch counts if one is given, and is stored if it is not zero. */
  predicate ExitWritten(before: Rec, after: Rec, now: int, lunchMinutes: Option<nat>, c: Config) {
    && ClosedRecord(before, after, now, if lunchMinutes.Some? then lunchMinutes else before.lunch, c)
    && after.lunch == (if lunchMinutes.Some? && lunchMinutes != Some(0) then lunchMinutes else before.lunch)
  }

  lemma AutoCloseWrites(r: Rec, c: Config)
    ensures AutoClosedRecord(r, AutoClosed(r, c), c)
  {
    AutoCloseCounts440(r.entry, r.day * MILLIS_PER_DAY, r.lunch, c);
  }

  lemma {:induction false} CountOpenIsCardinality(records: seq<Rec>, org: string, day: int, n: nat)
    requires n <= |records|
    ensures CountOpen(records[..n], org, day)
         == |set i | 0 <= i < n && records[i].org == org && records[i].day == day && records[i].exit == None|
  {
    var here := set i | 0 <= i < n && records[i].org == org && records[i].day == day && records[i].exit == None;
    if n == 0 {
      assert here == {};
    } else {
      CountOpenIsCardinality(records, org, day, n - 1);
      assert records[..n][..n - 1] == records[..n - 1];
      OneMoreRecord(records, org, day, n - 1);
    }
  }

  lemma OneMoreRecord(records: seq<Rec>, org: string, day: int, n: nat)
    requires n < |records|
    ensures |set i | 0 <= i < n + 1 && records[i].org == org && records[i].day == day && records[i].exit == None|
      == |set i | 0 <= i < n && records[i].org == org && records[i].day == day && records[i].exit == None|
         + if OpenOn(records[n], org, day) then 1 else 0
  {
    var here := set i | 0 <= i < n + 1 && records[i].org == org && records[i].day == day && records[i].exit == None;
    var before := set i | 0 <= i < n && records[i].org == org && records[i].day == day && records[i].exit == None;
    assert here == if OpenOn(records[n], org, day) then before + {n} else before;
  }

  function CountOpen(records: seq<Rec>, org: string, day: int): nat {
    if records == [] then 0
    else CountOpen(records[..|records| - 1], org, day) + if OpenOn(records[|records| - 1], org, day) then 1 else 0
  }

  /** The record in row `i` is the first open one of the user today. */
  predicate FirstOpenFor(records: seq<Rec>, i: int, user: string, org: string, now: int) {
    && 0 <= i < |records| && OpenFor(records[i], user, org, now)
    && forall j :: 0 <= j < i ==> !OpenFor(records[j], user, org, now)
  }

  /** An open record of the user in the organisation, of the local day of the instant. */
  predicate OpenFor(r: Rec, user: string, org: string, now: int) {
    r.user == user && r.org == org && r.exit == None && r.day == (now / 1000 - 18_000) / 86_400
  }

  datatype EntryOutcome = Entered | InProgress | Refused | AlreadyOpen

  /** Whether a user has an open record of the organisation today. */
  predicate HasEntry(records: seq<Rec>, user: string, org: string, now: int) {
    exists i :: 0 <= i < |records| && OpenOn(records[i], org, LocalDay(now)) && records[i].user == user
  }

  datatype ExitOutcome = Exited(record: Rec) | NoOpenEntry | NoConfig | ExitInProgress

  class AttendanceService {
    var records: seq<Rec>
    /** The entry and the exit locks in Redis, with their expiry. */
    var locks: map<Key, int>
    var exitLocks: map<Key, int>

    constructor ()
      ensures records == [] && locks == map[] && exitLocks == map[]
    {
      records, locks, exitLocks := [], map[], map[];
    }

    /** `registerEntry`, run without interruption; `allowed` stands for the location and configuration checks. */
    method RegisterEntry(user: string, org: string, allowed: bool, now: int) returns (outcome: EntryOutcome)
      modifies this`records, this`locks
      ensures var k := Key(user, LocalDay(now));
              && outcome == (if Locked(old(locks), k, now) then InProgress
                             else if !allowed then Refused
                             else if HasEntry(old(records), user, org, now) then AlreadyOpen
                             else Entered)
              && locks == (if outcome.InProgress? then old(locks) else old(locks) - {k})
              && records == old(records) + if outcome.Entered?
                   then [Rec(org, user, LocalDay(now), now, None, None, None)] else []
      ensures outcome.AlreadyOpen? ==> exists i :: 0 <= i < |old(records)| && OpenFor(old(records)[i], user, org, now)
      ensures outcome.Entered? ==> forall i :: 0 <= i < |old(records)| ==> !OpenFor(old(records)[i], user, org, now)
    {
      var k := Key(user, LocalDay(now));
      if Locked(locks, k, now) {
        return InProgress;
      }
      locks := locks[k := now + LOCK_TTL_MILLIS];
      if !allowed {
        outcome := Refused;
      } else if exists i :: 0 <= i < |records| && OpenOn(records[i], org, LocalDay(now)) && records[i].user == user {
        outcome := AlreadyOpen;
      } else {
        records := records + [Rec(org, user, LocalDay(now), now, None, None, None)];
        locks := locks - {k};
        outcome := Entered;
      }
      locks := locks - {k};
    }

    /** Closes every open record of the organisation on the day; returns how many. */
    method CloseDay(org: string, day: int, config: Option<Config>) returns (closed: nat)
      requires config.Some? ==> ValidConfig(config.value)
      modifies this`records
      ensures |records| == |old(records)|
      ensures forall i :: 0 <= i < |records| ==>
                records[i] == if config.Some? && OpenOn(old(records)[i], org, day)
                  then AutoClosed(old(records)[i], config.value) else old(records)[i]
      ensures forall i :: 0 <= i < |records| ==>
                if config.Some? && old(records)[i].org == org && old(records)[i].day == day
                  && old(records)[i].exit == None
                then AutoClosedRecord(old(records)[i], records[i], config.value) else records[i] == old(records)[i]
      ensures closed == if config.None? then 0
                else |set i | 0 <= i < |old(records)| && old(records)[i].org == org && old(records)[i].day == day
                              && old(records)[i].exit == None|
    {
      if config.None? {
        return 0;
      }
      closed := 0;
      var loaded := records;
      for n := 0 to |loaded|
        invariant |records| == |loaded|
        invariant forall i :: 0 <= i < |loaded| ==>
          records[i] == if i < n && OpenOn(loaded[i], org, day) then AutoClosed(loaded[i], config.value) else loaded[i]
        invariant closed == CountOpen(loaded[..n], org, day)
      {
        var record := loaded[n];
        assert loaded[..n + 1][..n] == loaded[..n];
        if OpenOn(record, org, day) {
          var exitTime := record.entry + AUTO_CLOSE_MINUTES * 60000;
          var overtime := CalculateOvertime(record.entry, exitTime, record.day * MILLIS_PER_DAY, record.lunch,
            config.value);
          records := records[n := records[n].(exit := Some(exitTime), worked := Some(overtime))];
          closed := closed + 1;
        }
      }
      assert loaded[..|loaded|] == loaded;
      CountOpenIsCardinality(loaded, org, day, |loaded|);
      forall i | 0 <= i < |loaded| && OpenOn(loaded[i], org, day)
        ensures AutoClosedRecord(loaded[i], records[i], config.value)
      {
        AutoCloseWrites(loaded[i], config.value);
      }
    }

    /** `registerExit`, run without interruption: under its lock, the first open record of the user today is closed. */
    method RegisterExit(user: string, org: string, lunchMinutes: Option<nat>, now: int, config: Option<Config>)
      returns (outcome: ExitOutcome)
      requires config.Some? ==> ValidConfig(config.value)
      modifies this`records, this`exitLocks
      ensures var k := Key(user, LocalDay(now));
              && (outcome.ExitInProgress? <==> Locked(old(exitLocks), k, now))
              && exitLocks == if outcome.ExitInProgress? then old(exitLocks) else old(exitLocks) - {k}
      ensures !outcome.ExitInProgress? ==> (outcome.NoOpenEntry? <==> !HasEntry(old(records), user, org, now))
      ensures outcome.NoConfig? ==> config.None?
      ensures outcome.Exited? ==> config.Some?
      ensures !outcome.Exited? ==> records == old(records)
      ensures outcome.Exited? ==>
                exists i :: FirstOpenFor(old(records), i, user, org, now)
                  && ExitWritten(old(records)[i], outcome.record, now, lunchMinutes, config.value)
                  && records == old(records)[i := outcome.record]
    {
      var k := Key(user, LocalDay(now));
      if Locked(exitLocks, k, now) {
        return ExitInProgress;
      }
      exitLocks := exitLocks[k := now + LOCK_TTL_MILLIS];
      outcome := CloseFirst(user, org, lunchMinutes, now, config);
      exitLocks := exitLocks - {k};
    }

    /** What an exit does while it holds its lock. */
    method CloseFirst(user: string, org: string, lunchMinutes: Option<nat>, now: int, config: Option<Config>)
      returns (outcome: ExitOutcome)
      requires config.Some? ==> ValidConfig(config.value)
      modifies this`records
      ensures !outcome.ExitInProgress?
      ensures outcome.NoOpenEntry? <==> !HasEntry(old(records), user, org, now)
      ensures outcome.NoConfig? ==> config.None?
      ensures outcome.Exited? ==> config.Some?
      ensures !outcome.Exited? ==> records == old(records)
      ensures outcome.Exited? ==>
                exists i :: FirstOpenFor(old(records), i, user, org, now)
                  && ExitWritten(old(records)[i], outcome.record, now, lunchMinutes, config.value)
                  && records == old(records)[i := outcome.record]
    {
      var n := 0;
      while n < |records| && !(OpenOn(records[n], org, LocalDay(now)) && records[n].user == user)
        invariant 0 <= n <= |records|
        invariant forall i :: 0 <= i < n ==> !(OpenOn(records[i], org, LocalDay(now)) && records[i].user == user)
      {
        n := n + 1;
      }
      if n == |records| {
        return NoOpenEntry;
      }
      if config.None? {
        return NoConfig;
      }
      var record := records[n];
      var lunchForCalc := if lunchMinutes.Some? then lunchMinutes else record.lunch;
      var lunchForStore := if lunchMinutes.Some? && lunchMinutes.value > 0 then lunchMinutes else record.lunch;
      var overtime := CalculateOvertime(record.entry, now, record.day * MILLIS_PER_DAY, lunchForCalc, config.value);
      var updated := record.(exit := Some(now), lunch := lunchForStore, worked := Some(overtime));
      records := records[n := updated];
      return Exited(updated);
    }
  }

  lemma {:induction false} RunFive(w: World, a: Action, b: Action, c: Action, d: Action, e: Action)
    ensures Run(w, [a, b, c, d, e]) == Step(Step(Step(Step(Step(w, a), b), c), d), e)
  {
    assert [a, b, c, d, e][1..][1..] == [c, d, e];
    assert [c, d, e][1..] == [d, e] && [d, e][1..] == [e] && [e][1..] == [];
    assert [a, b, c, d, e][1..] == [b, c, d, e];
    assert Run(w, [a, b, c, d, e]) == Run(Step(w, a), [b, c, d, e]);
    assert Run(Step(w, a), [b, c, d, e]) == Run(Step(Step(w, a), b), [c, d, e]);
    var v := Step(Step(w, a), b);
    assert Run(v, [c, d, e]) == Run(Step(v, c), [d, e]);
    assert Run(Step(v, c), [d, e]) == Run(Step(Step(v, c), d), [e]);
  }

  /** The call after its check of open records. */
  lemma EntryChecked(w: World, user: string)
    requires w.calls == map[] && !Locked(w.locks, Key(user, LocalDay(w.now)), w.now)
    ensures var k := Key(user, LocalDay(w.now));
            Step(Step(w, Begin(0, user)), CheckOpen(0)) ==
              w.(locks := w.locks[k := w.now + LOCK_TTL_MILLIS],
                 calls := map[0 := Call(k, w.now, if HasOpen(w, k) then Failed else Cleared)])
  {
  }

  /** The rest of a call: the record when none is open, and the two deletes. */
  lemma EntryFinished(v: World, k: Key, org: string, at: int)
    requires v.calls == map[0 := Call(k, at, Failed)] || v.calls == map[0 := Call(k, at, Cleared)]
    ensures Step(Step(Step(v, Create(0, org)), Delete(0)), Delete(0))
         == v.(locks := v.locks - {k}, calls := map[],
               records := v.records + if v.calls[0].stage.Failed? then []
                 else [Rec(org, k.user, k.day, v.now, None, None, None)])
  {
  }

  /** An uninterrupted entry leaves what its protocol steps leave, for a user of one organisation. */
  lemma {:induction false} EntryIsItsSteps(w: World, user: string, org: string)
    requires w.calls == map[] && !Locked(w.locks, Key(user, LocalDay(w.now)), w.now)
    requires forall i :: 0 <= i < |w.records| && w.records[i].user == user ==> w.records[i].org == org
    ensures Run(w, [Begin(0, user), CheckOpen(0), Create(0, org), Delete(0), Delete(0)])
         == w.(locks := w.locks - {Key(user, LocalDay(w.now))},
               records := w.records + if HasEntry(w.records, user, org, w.now) then []
                                      else [Rec(org, user, LocalDay(w.now), w.now, None, None, None)])
  {
    SameOpen(w, user, org);
    var v := EntryRuns(w, user, org);
    EntryFinished(v, Key(user, LocalDay(w.now)), org, w.now);
    assert v.locks - {Key(user, LocalDay(w.now))} == w.locks - {Key(user, LocalDay(w.now))};
  }

  lemma EntryRuns(w: World, user: string, org: string) returns (v: World)
    requires w.calls == map[] && !Locked(w.locks, Key(user, LocalDay(w.now)), w.now)
    ensures Run(w, [Begin(0, user), CheckOpen(0), Create(0, org), Delete(0), Delete(0)])
         == Step(Step(Step(v, Create(0, org)), Delete(0)), Delete(0))
    ensures var k := Key(user, LocalDay(w.now));
            v == w.(locks := w.locks[k := w.now + LOCK_TTL_MILLIS],
                    calls := map[0 := Call(k, w.now, if HasOpen(w, k) then Failed else Cleared)])
  {
    RunFive(w, Begin(0, user), CheckOpen(0), Create(0, org), Delete(0), Delete(0));
    EntryChecked(w, user);
    v := Step(Step(w, Begin(0, user)), CheckOpen(0));
  }

  lemma SameOpen(w: World, user: string, org: string)
    requires forall i :: 0 <= i < |w.records| && w.records[i].user == user ==> w.records[i].org == org
    ensures HasEntry(w.records, user, org, w.now) <==> HasOpen(w, Key(user, LocalDay(w.now)))
  {
  }
}
