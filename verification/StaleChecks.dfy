/** From which submissions a check that decided to wait can undo the approval that the signatures bring. */
module StaleChecks {
  import opened SignatureData
  import opened FormApproval
  import opened SignatureProtocol
  import opened SignatureRuns
  import opened SigningOrder
  import opened SigningRaces

  /** Once its checks are done, the submission is approved exactly when someone signed and all is complete. */
  ghost predicate SettledAs(u: World, w: World, s: Id) {
    && s in w.subs && w.subs[s].template in w.templates
    && (w.subs[s].status == APPROVED <==> AnySigned(w.records, |u.records|, s) && Complete(w, s))
  }

  /** In every interleaving of signings. */
  ghost predicate AlwaysSettles(env: Env, u: World, s: Id) {
    forall acts :: (forall a :: a in acts ==> OnlySigns(a)) && ChecksDone(Run(env, u, acts), s) ==>
      SettledAs(u, Run(env, u, acts), s)
  }

  predicate Unsigned(u: World, s: Id, t: nat) {
    t < |u.tokens| && u.tokens[t].submission == s && u.tokens[t].link != SIGNED
  }

  /** Some link is unsigned, every unsigned link can still be used, and signatures are all that is missing. */
  predicate Racing(u: World, s: Id)
    requires Quiescent(u, s)
  {
    && u.subs[s].status == SUBMITTED && NeedsSignatures(u.templates[u.subs[s].template])
    && AllFilled(u.templates[u.subs[s].template].required, u.subs[s].values)
    && (exists t: nat :: t < |u.tokens| && Unsigned(u, s, t))
    && (forall t: nat :: t < |u.tokens| && Unsigned(u, s, t) ==> Usable(u.tokens[t], u.now))
  }

  // ----- A link that can no longer be used is never signed -----

  /** The token is unsigned, and is consumed or has expired with no request to sign through it in flight. */
  ghost predicate Lost(w: World, s: Id, t: nat) {
    && Unsigned(w, s, t)
    && (w.tokens[t].usedAt.Some? ||
        (w.tokens[t].expiresAt < w.now
         && forall pid :: pid in w.procs && w.procs[pid].Signing? && w.procs[pid].who.External? ==>
              w.procs[pid].who.token != t))
  }

  lemma CommittedStaysLost(w: World, pid: nat, record: Record, s: Id, t: nat)
    requires Lost(w, s, t) && CommitSucceeds(w, record.submission, record.who)
    requires pid in w.procs && w.procs[pid].Signing? && w.procs[pid].who == record.who
    ensures Lost(Committed(w, pid, record), s, t)
  {
  }

  lemma SignStaysLost(w: World, a: SignAction, s: Id, t: nat)
    requires Lost(w, s, t)
    ensures Lost(SignStep(w, a), s, t)
  {
  }

  lemma CheckStaysLost(w: World, c: CheckAction, s: Id, t: nat)
    requires Lost(w, s, t)
    ensures Lost(CheckStep(w, c), s, t)
  {
  }

  lemma CommitStaysLost(env: Env, w: World, pid: nat, s: Id, t: nat)
    requires Lost(w, s, t)
    ensures Lost(CommitStep(env, w, pid), s, t)
  {
    if pid in w.procs && w.procs[pid].Signing? && w.procs[pid].stage.Hashed? && w.procs[pid].submission in w.subs {
      var p := w.procs[pid];
      if CommitSucceeds(w, p.submission, p.who) {
        var hash := StoredHash(env, w.subs[p.submission], p);
        CommittedStaysLost(w, pid, Record(p.submission, p.who, hash, HASH_VERSION, w.now), s, t);
      }
    }
  }

  lemma StepStaysLost(env: Env, w: World, a: Action, s: Id, t: nat)
    requires Lost(w, s, t) && OnlySigns(a)
    ensures Lost(Step(env, w, a), s, t)
  {
    match a
    case Tick(_) =>
    case Sign(i) => SignStaysLost(w, i, s, t);
    case Check(c) => CheckStaysLost(w, c, s, t);
    case Commit(pid) => CommitStaysLost(env, w, pid, s, t);
  }

  lemma {:induction false} RunStaysLost(env: Env, w: World, acts: seq<Action>, s: Id, t: nat)
    requires Lost(w, s, t) && forall a :: a in acts ==> OnlySigns(a)
    ensures Lost(Run(env, w, acts), s, t)
  {
    if acts != [] {
      RunStaysLost(env, w, acts[..|acts| - 1], s, t);
      StepStaysLost(env, Run(env, w, acts[..|acts| - 1]), acts[|acts| - 1], s, t);
    }
  }

  // ----- Where no stale check can undo an approval -----

  lemma {:induction false} NeverCompleteSettles(env: Env, u: World, acts: seq<Action>, s: Id)
    requires Inv(env, u) && Quiescent(u, s) && u.subs[s].status == SUBMITTED
    requires (forall a :: a in acts ==> OnlySigns(a)) && ChecksDone(Run(env, u, acts), s)
    requires !CaseFilled(CaseOf(u, s)) || (NeedsSignatures(CaseOf(u, s).template) && exists t: nat :: Lost(u, s, t))
    ensures SettledAs(u, Run(env, u, acts), s)
  {
    var w, whos := SettledRows(env, u, acts, s);
    SigningsNeverApproveEarly(env, u, acts, s);
    if NeedsSignatures(CaseOf(u, s).template) {
      if t: nat :| Lost(u, s, t) {
        RunStaysLost(env, u, acts, s, t);
        StillRequired(env, u, acts, s);
      }
    }
  }

  lemma {:induction false} StillRequired(env: Env, u: World, acts: seq<Action>, s: Id)
    requires Inv(env, u) && Quiescent(u, s) && Processable(u.subs[s].status) && forall a :: a in acts ==> OnlySigns(a)
    ensures var w := Run(env, u, acts);
            s in w.subs && w.subs[s].template == u.subs[s].template && w.templates == u.templates
  {
    RunSettles(env, u, Origin(|u.records|, u.subs[s].status, false), acts, s);
    RunGrows(env, u, acts);
    assert SubGrows(u.subs[s], Run(env, u, acts).subs[s]);
  }

  lemma {:induction false} CalmSettles(env: Env, u: World, acts: seq<Action>, s: Id)
    requires Inv(env, u) && Quiescent(u, s) && u.subs[s].status == SUBMITTED && NoneWaits(u, s)
    requires (forall a :: a in acts ==> OnlySigns(a)) && ChecksDone(Run(env, u, acts), s)
    ensures SettledAs(u, Run(env, u, acts), s)
  {
    var w, whos := SettledRows(env, u, acts, s);
    SigningsSettle(env, u, acts, s);
  }

  lemma {:induction false} NotRacingSettles(env: Env, u: World, acts: seq<Action>, s: Id)
    requires Inv(env, u) && Quiescent(u, s) && u.subs[s].status == SUBMITTED && !Racing(u, s)
    requires (forall a :: a in acts ==> OnlySigns(a)) && ChecksDone(Run(env, u, acts), s)
    ensures SettledAs(u, Run(env, u, acts), s)
  {
    if NoneWaits(u, s) {
      CalmSettles(env, u, acts, s);
    } else {
      if CaseFilled(CaseOf(u, s)) {
        var k :| 0 <= k < |u.tokens| && u.tokens[k].submission == s && u.tokens[k].link != SIGNED;
        assert Unsigned(u, s, k);
        var t: nat :| t < |u.tokens| && Unsigned(u, s, t) && !Usable(u.tokens[t], u.now);
        assert Lost(u, s, t);
      }
      NeverCompleteSettles(env, u, acts, s);
    }
  }

  // ----- A run in which one does -----

  lemma {:induction false} FreshUser(records: seq<Record>) returns (user: Id)
    ensures forall k :: 0 <= k < |records| && records[k].who.Internal? ==> |records[k].who.user| < |user|
  {
    if records == [] {
      user := [];
    } else {
      user := FreshUser(records[..|records| - 1]);
      var last := records[|records| - 1].who;
      if last.Internal? && |user| <= |last.user| {
        user := last.user + [0];
      }
      assert forall k :: 0 <= k < |records| - 1 ==> records[..|records| - 1][k] == records[k];
    }
  }

  /** A user signs, and the check that follows decides what to do and does not do it yet. */
  function SignAndDecide(s: Id, user: Id): seq<Action> {
    [Sign(BeginInternal(1, s, user))] + (ReadRows(1) + ([Commit(1)] + [Check(CheckRead(1))]))
  }

  lemma SignAndDecideState(env: Env, u: World, s: Id, user: Id) returns (w: World)
    requires Quiescent(u, s) && Racing(u, s) && !AlreadySigned(u.records, s, user)
    ensures w.procs == map[] && w == u.(records := w.records) && |w.records| == |u.records| + 1
    ensures u.records <= w.records && w.records[|u.records|].submission == s
      && w.records[|u.records|].who == Internal(user)
    ensures Run(env, u, SignAndDecide(s, user)) == w.(procs := map[1 := CheckDecided(s, AwaitSignatures)])
  {
    HashFirst(env, u, 1, BeginInternal(1, s, user), s, Internal(user), [Commit(1)] + [Check(CheckRead(1))]);
    var hash := CommitFirst(env, u, 1, s, Internal(user), [Check(CheckRead(1))]);
    w := RowsSigned(u, s, Internal(user), hash);
    DecidingState(env, u, w, s);
  }

  lemma {:induction false} DecidingState(env: Env, u: World, w: World, s: Id)
    requires Quiescent(u, s) && Racing(u, s) && w == u.(records := w.records)
    ensures Run(env, Awaiting(w, 1, s), [Check(CheckRead(1))])
      == w.(procs := map[1 := CheckDecided(s, AwaitSignatures)])
  {
    RunOne(env, Awaiting(w, 1, s), Check(CheckRead(1)));
    CheckReadState(w, 1, s);
    DecidesToWait(u, w, s);
  }

  lemma DecidesToWait(u: World, w: World, s: Id)
    requires Quiescent(u, s) && Racing(u, s) && w == u.(records := w.records)
    ensures Decide(w.subs[s], s, w.templates[w.subs[s].template], w.tokens, w.records) == AwaitSignatures
  {
    var t: nat :| t < |u.tokens| && Unsigned(u, s, t);
    assert !ExternalsSigned(w.tokens, s);
  }

  /** The step is of another request than `q`. */
  predicate Avoids(a: Action, q: nat) {
    match a
    case Tick(_) => true
    case Sign(i) => i.pid != q
    case Commit(pid) => pid != q
    case Check(c) => c.pid != q
    case _ => false
  }

  function With(w: World, q: nat, p: Proc): World { w.(procs := w.procs[q := p]) }

  lemma Swapped(m: map<nat, Proc>, q: nat, p: Proc, r: nat, x: Proc)
    requires q != r
    ensures m[q := p][r := x] == m[r := x][q := p]
  {
  }

  lemma FinishBeside(w: World, pid: nat, q: nat, p: Proc)
    requires pid != q
    ensures Finish(With(w, q, p), pid) == With(Finish(w, pid), q, p)
  {
    assert w.procs[q := p] - {pid} == (w.procs - {pid})[q := p];
  }

  lemma SignBeside(w: World, a: SignAction, q: nat, p: Proc)
    requires a.pid != q && q !in w.procs
    ensures SignStep(With(w, q, p), a) == With(SignStep(w, a), q, p) && q !in SignStep(w, a).procs
  {
    var v := SignStep(w, a);
    if a.pid in v.procs {
      Swapped(w.procs, q, p, a.pid, v.procs[a.pid]);
    }
  }

  lemma CheckBeside(w: World, a: CheckAction, q: nat, p: Proc)
    requires a.pid != q && q !in w.procs
    ensures CheckStep(With(w, q, p), a) == With(CheckStep(w, a), q, p) && q !in CheckStep(w, a).procs
  {
    var v := CheckStep(w, a);
    if a.pid in v.procs {
      Swapped(w.procs, q, p, a.pid, v.procs[a.pid]);
    }
    FinishBeside(w, a.pid, q, p);
  }

  lemma CommittedBeside(w: World, pid: nat, record: Record, q: nat, p: Proc)
    requires pid != q && q !in w.procs && CommitSucceeds(w, record.submission, record.who)
    ensures Committed(With(w, q, p), pid, record) == With(Committed(w, pid, record), q, p)
    ensures q !in Committed(w, pid, record).procs
  {
    Swapped(w.procs, q, p, pid, CheckPending(record.submission));
  }

  lemma CommitBeside(env: Env, w: World, pid: nat, q: nat, p: Proc)
    requires pid != q && q !in w.procs
    ensures CommitStep(env, With(w, q, p), pid) == With(CommitStep(env, w, pid), q, p)
    ensures q !in CommitStep(env, w, pid).procs
  {
    if pid in w.procs && w.procs[pid].Signing? && w.procs[pid].stage.Hashed? && w.procs[pid].submission in w.subs {
      var r := w.procs[pid];
      if CommitSucceeds(w, r.submission, r.who) {
        var hash := StoredHash(env, w.subs[r.submission], r);
        CommittedBeside(w, pid, Record(r.submission, r.who, hash, HASH_VERSION, w.now), q, p);
      } else {
        FinishBeside(w, pid, q, p);
      }
    }
  }

  lemma StepBeside(env: Env, w: World, a: Action, q: nat, p: Proc)
    requires Avoids(a, q) && q !in w.procs
    ensures Step(env, With(w, q, p), a) == With(Step(env, w, a), q, p) && q !in Step(env, w, a).procs
  {
    match a
    case Tick(_) =>
    case Sign(i) => SignBeside(w, i, q, p);
    case Commit(pid) => CommitBeside(env, w, pid, q, p);
    case Check(c) => CheckBeside(w, c, q, p);
  }

  /** A request that does nothing changes nothing for the others. */
  lemma {:induction false} RunBeside(env: Env, w: World, acts: seq<Action>, q: nat, p: Proc)
    requires q !in w.procs && forall a :: a in acts ==> Avoids(a, q)
    ensures Run(env, With(w, q, p), acts) == With(Run(env, w, acts), q, p) && q !in Run(env, w, acts).procs
  {
    if acts != [] {
      RunBeside(env, w, acts[..|acts| - 1], q, p);
      StepBeside(env, Run(env, w, acts[..|acts| - 1]), acts[|acts| - 1], q, p);
    }
  }

  /** One visit through every unsigned link among the first `n` tokens. */
  function Links(w: World, s: Id, n: nat): seq<Visit> {
    if n == 0 then [] else Links(w, s, n - 1) + if Unsigned(w, s, n - 1) then [ByLink(0, n - 1)] else []
  }

  predicate OpenLink(w: World, s: Id, n: nat, v: Visit) {
    v.ByLink? && v.elapsed == 0 && v.token < n && Unsigned(w, s, v.token)
  }

  lemma {:induction false} LinksAreUnsigned(w: World, s: Id, n: nat)
    ensures forall i :: 0 <= i < |Links(w, s, n)| ==> OpenLink(w, s, n, Links(w, s, n)[i])
    ensures forall i, j :: 0 <= i < j < |Links(w, s, n)| ==> Links(w, s, n)[i] != Links(w, s, n)[j]
  {
    if n > 0 {
      var init := Links(w, s, n - 1);
      LinksAreUnsigned(w, s, n - 1);
      forall i | 0 <= i < |Links(w, s, n)| ensures OpenLink(w, s, n, Links(w, s, n)[i]) {
        if i < |init| {
          assert OpenLink(w, s, n - 1, init[i]) && Links(w, s, n)[i] == init[i];
        }
      }
    }
  }

  lemma {:induction false} UnsignedAreLinks(w: World, s: Id, n: nat, t: nat)
    requires t < n && Unsigned(w, s, t)
    ensures ByLink(0, t) in Links(w, s, n)
  {
    if t < n - 1 {
      UnsignedAreLinks(w, s, n - 1, t);
    }
  }

  lemma {:induction false} LinksTakeNoTime(w: World, s: Id, n: nat)
    ensures Duration(Links(w, s, n)) == 0
  {
    if n > 0 {
      LinksTakeNoTime(w, s, n - 1);
      DurationAdds(Links(w, s, n - 1), if Unsigned(w, s, n - 1) then [ByLink(0, n - 1)] else []);
    }
  }

  lemma {:induction false} DurationAdds(vs: seq<Visit>, more: seq<Visit>)
    ensures Duration(vs + more) == Duration(vs) + Duration(more)
  {
    if vs == [] {
      assert vs + more == more;
    } else {
      DurationAdds(vs[1..], more);
      assert (vs + more)[1..] == vs[1..] + more;
    }
  }

  lemma {:induction false} StretchesAvoid(s: Id, vs: seq<Visit>)
    ensures forall a :: a in Stretches(s, vs) ==> OnlySigns(a) && Avoids(a, 1)
  {
    if vs != [] {
      StretchesAvoid(s, vs[1..]);
      StretchAvoids(s, vs[0]);
    }
  }

  lemma StretchAvoids(s: Id, v: Visit)
    ensures forall a :: a in Stretch(s, v) ==> OnlySigns(a) && Avoids(a, 1)
  {
  }

  /** Everyone who is still missing signs, one after the other. */
  lemma RestSigns(env: Env, u: World, w: World, s: Id) returns (acts: seq<Action>, v: World)
    requires Quiescent(u, s) && Racing(u, s) && w.procs == map[] && w == u.(records := w.records)
    requires InternallySigned(w.records, s)
    ensures v == Run(env, w, acts) && forall a :: a in acts ==> OnlySigns(a) && Avoids(a, 1)
    ensures Quiescent(v, s) && v.subs[s].status == APPROVED
  {
    var vs := Links(w, s, |w.tokens|);
    acts, v := Stretches(s, vs), Run(env, w, Stretches(s, vs));
    StretchesAvoid(s, vs);
    RestCanSign(u, w, s);
    RestCompletes(u, w, s);
    var ops := RunIsSignAll(env, w, s, vs);
    FinalStatus(CaseOf(w, s), ops);
    assert |ops| == |Whos(ops)| == |vs|;
  }

  lemma {:induction false} RestCanSign(u: World, w: World, s: Id)
    requires Quiescent(u, s) && Racing(u, s) && w.procs == map[] && w == u.(records := w.records)
    ensures var vs := Links(w, s, |w.tokens|); AllCanSign(CaseOf(w, s), WhosOf(w.tokens, vs)) && Unexpired(w, vs)
  {
    var vs := Links(w, s, |w.tokens|);
    var whos := WhosOf(w.tokens, vs);
    LinksAreUnsigned(w, s, |w.tokens|);
    LinksTakeNoTime(w, s, |w.tokens|);
    forall i | 0 <= i < |vs| ensures CanSign(CaseOf(w, s), whos[i]) && LinkLasts(w, vs[i], w.now) {
      assert OpenLink(w, s, |w.tokens|, vs[i]) && Unsigned(u, s, vs[i].token);
      assert Usable(u.tokens[vs[i].token], u.now);
    }
    forall i, j | 0 <= i < j < |whos| ensures !Exclude(whos[i], whos[j]) {
      assert OpenLink(w, s, |w.tokens|, vs[i]) && OpenLink(w, s, |w.tokens|, vs[j]) && vs[i] != vs[j];
    }
  }

  lemma {:induction false} RestCompletes(u: World, w: World, s: Id)
    requires Quiescent(u, s) && Racing(u, s) && w.procs == map[] && w == u.(records := w.records)
    requires InternallySigned(w.records, s)
    ensures var vs := Links(w, s, |w.tokens|); vs != [] && CompleteWith(CaseOf(w, s), WhosOf(w.tokens, vs))
  {
    var vs := Links(w, s, |w.tokens|);
    var whos := WhosOf(w.tokens, vs);
    forall t | 0 <= t < |w.tokens| && w.tokens[t].submission == s && w.tokens[t].link != SIGNED
      ensures vs != [] && exists who :: who in whos && who.External? && who.token == t
    {
      assert Unsigned(w, s, t);
      UnsignedAreLinks(w, s, |w.tokens|, t);
      var i :| 0 <= i < |vs| && vs[i] == ByLink(0, t);
      assert whos[i] in whos;
    }
    var t: nat :| t < |u.tokens| && Unsigned(u, s, t);
    assert Unsigned(w, s, t);
  }

  lemma OtherwiseSound(env: Env, w: World)
    requires Inv(env, w)
    ensures Inv(env, w.(procs := map[]))
  {
    var v := w.(procs := map[]);
    forall t | 0 <= t < |v.tokens| ensures TokenSound(v, t) {
      assert TokenSound(w, t);
    }
    forall k | 0 <= k < |v.records| ensures RecordSound(v, v.records[k]) {
      assert RecordSound(w, w.records[k]);
    }
  }

  lemma AllInOne(env: Env, u: World, w: World, s: Id, first: seq<Action>, acts: seq<Action>) returns (all: seq<Action>)
    requires Run(env, u, first) == With(w, 1, CheckDecided(s, AwaitSignatures)) && w.procs == map[]
    requires forall a :: a in first ==> OnlySigns(a)
    requires forall a :: a in acts ==> OnlySigns(a) && Avoids(a, 1)
    ensures forall a :: a in all ==> OnlySigns(a)
    ensures Run(env, u, all) == CheckStep(With(Run(env, w, acts), 1, CheckDecided(s, AwaitSignatures)), CheckWrite(1))
  {
    var decided := CheckDecided(s, AwaitSignatures);
    all := first + (acts + [Check(CheckWrite(1))]);
    RunBeside(env, w, acts, 1, decided);
    RunSplits(env, u, first, acts + [Check(CheckWrite(1))]);
    RunSplits(env, With(w, 1, decided), acts, [Check(CheckWrite(1))]);
    RunOne(env, With(Run(env, w, acts), 1, decided), Check(CheckWrite(1)));
  }

  lemma FirstStep(env: Env, u: World, s: Id) returns (w: World, first: seq<Action>)
    requires Inv(env, u) && Quiescent(u, s) && Racing(u, s)
    ensures Run(env, u, first) == With(w, 1, CheckDecided(s, AwaitSignatures)) && w.procs == map[] && Inv(env, w)
    ensures forall a :: a in first ==> OnlySigns(a)
    ensures w == u.(records := w.records) && u.records <= w.records && |u.records| < |w.records|
    ensures w.records[|u.records|].submission == s && InternallySigned(w.records, s)
  {
    var user := FreshUser(u.records);
    w := SignAndDecideState(env, u, s, user);
    first := SignAndDecide(s, user);
    RunKeepsInv(env, u, first);
    OtherwiseSound(env, With(w, 1, CheckDecided(s, AwaitSignatures)));
    assert With(w, 1, CheckDecided(s, AwaitSignatures)).(procs := map[]) == w;
  }

  /** A user signs, its check decides to wait, all others sign and the submission is approved, and the check writes. */
  lemma RacingDoesNotSettle(env: Env, u: World, s: Id)
    requires Inv(env, u) && Quiescent(u, s) && Racing(u, s)
    ensures !AlwaysSettles(env, u, s)
  {
    var w, first := FirstStep(env, u, s);
    var acts, v := RestSigns(env, u, w, s);
    var last := LastWrite(env, u, w, v, s, acts);
    var all := AllInOne(env, u, w, s, first, acts);
  }

  lemma LastWrite(env: Env, u: World, w: World, v: World, s: Id, acts: seq<Action>) returns (last: World)
    requires Inv(env, w) && Quiescent(w, s) && w.subs[s].status == SUBMITTED && v == Run(env, w, acts)
    requires forall a :: a in acts ==> OnlySigns(a)
    requires Quiescent(v, s) && v.subs[s].status == APPROVED
    requires u.records <= w.records && |u.records| < |w.records| && w.records[|u.records|].submission == s
    ensures last == CheckStep(With(v, 1, CheckDecided(s, AwaitSignatures)), CheckWrite(1))
    ensures ChecksDone(last, s) && !SettledAs(u, last, s)
  {
    last := CheckStep(With(v, 1, CheckDecided(s, AwaitSignatures)), CheckWrite(1));
    var x, whos := SettledRows(env, w, acts, s);
    SigningsNeverApproveEarly(env, w, acts, s);
    assert last.procs == map[] && last.subs[s].status == PENDING_SIGNATURES;
    assert Complete(v, s) && v.records[|u.records|] == w.records[|u.records|];
    assert Complete(last, s) && AnySigned(last.records, |u.records|, s);
  }

  /** For a submission that was just sent in, no interleaving of signings leaves it unapproved with everything complete,
      or approved without, exactly when it is not racing. */
  lemma SettlesIffNotRacing(env: Env, u: World, s: Id)
    requires Inv(env, u) && Quiescent(u, s) && u.subs[s].status == SUBMITTED
    ensures AlwaysSettles(env, u, s) <==> !Racing(u, s)
  {
    if Racing(u, s) {
      RacingDoesNotSettle(env, u, s);
    } else {
      forall acts | (forall a :: a in acts ==> OnlySigns(a)) && ChecksDone(Run(env, u, acts), s)
        ensures SettledAs(u, Run(env, u, acts), s)
      {
        NotRacingSettles(env, u, acts, s);
      }
    }
  }
}
