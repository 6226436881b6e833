/** Signing requests that interleave: once their checks are done, only who has signed matters. */
module SigningRaces {
  import opened SignatureData
  import opened FormApproval
  import opened DocumentHash
  import opened SignatureProtocol
  import opened SigningOrder

  /** A step of a signing request, of whatever submission, or of a check, or the passing of time. */
  predicate OnlySigns(a: Action) {
    a.Tick? || a.Sign? || a.Commit? || a.Check?
  }

  /** The signers of the submission since the first `n` records, in order. */
  function NewSigners(records: seq<Record>, n: nat, s: Id): seq<SignedBy>
    requires n <= |records|
  {
    Select(records[n..], (r: Record) => r.submission == s, (r: Record) => r.who)
  }

  ghost predicate SignedSince(records: seq<Record>, n: nat, s: Id, who: SignedBy) {
    exists k :: n <= k < |records| && records[k].submission == s && records[k].who == who
  }

  lemma NewSignerSigned(records: seq<Record>, n: nat, s: Id, who: SignedBy)
    requires n <= |records|
    ensures who in NewSigners(records, n, s) <==> SignedSince(records, n, s, who)
  {
    var rows := records[n..];
    Selected(rows, (r: Record) => r.submission == s, (r: Record) => r.who, who);
    if SignedSince(records, n, s, who) {
      var k :| n <= k < |records| && records[k].submission == s && records[k].who == who;
      assert rows[k - n] == records[k];
    }
  }

  // ----- What a stretch of signings keeps -----

  ghost predicate AnySigned(records: seq<Record>, n: nat, s: Id) {
    exists k :: n <= k < |records| && records[k].submission == s
  }

  /** Nothing happened to the tokens of the submission since `u` but signings. */
  ghost predicate SignedFrom(u: World, w: World, s: Id) {
    && u.records <= w.records && |w.tokens| == |u.tokens| && w.templates == u.templates
    && (forall t :: 0 <= t < |u.tokens| ==>
          w.tokens[t].submission == u.tokens[t].submission && w.tokens[t].signer == u.tokens[t].signer)
    && (forall t :: 0 <= t < |u.tokens| && u.tokens[t].submission == s ==>
          (w.tokens[t].link == SIGNED <==>
             u.tokens[t].link == SIGNED || SignedSince(w.records, |u.records|, s, External(u.tokens[t].signer, t))))
  }

  predicate CompleteFor(t: Template, sub: Submission, w: World, s: Id) {
    AllFilled(t.required, sub.values) && SignaturesComplete(t, w.tokens, w.records, s)
  }

  predicate Complete(w: World, s: Id)
    requires s in w.subs && w.subs[s].template in w.templates
  {
    CompleteFor(w.templates[w.subs[s].template], w.subs[s], w, s)
  }

  predicate SignaturesIn(w: World, s: Id)
    requires s in w.subs && w.subs[s].template in w.templates
  {
    SignaturesComplete(w.templates[w.subs[s].template], w.tokens, w.records, s)
  }

  /** A check of the submission has not begun, or has decided so. */
  ghost predicate Checking(w: World, s: Id, verdict: Verdict) {
    exists pid :: pid in w.procs && (w.procs[pid] == CheckPending(s) || w.procs[pid] == CheckDecided(s, verdict))
  }

  /** How a stretch of signings begins: from which status, and whether no check in it can decide to wait. */
  datatype Origin = Origin(n: nat, status: Status, calm: bool)

  /** A request in flight agrees with the rows: a check follows a signing, and approves what is complete. */
  ghost predicate CheckSound(o: Origin, w: World, p: Proc, s: Id)
    requires s in w.subs && w.subs[s].template in w.templates
  {
    && (o.calm ==> p != CheckDecided(s, AwaitSignatures))
    && (p == CheckPending(s) ==> AnySigned(w.records, o.n, s))
    && (p == CheckDecided(s, Approve) ==> Complete(w, s) && AnySigned(w.records, o.n, s))
  }

  /** From SUBMITTED, a check can decide to wait only while some link is unsigned: every other signing completes. */
  ghost predicate CalmRows(o: Origin, w: World, s: Id)
    requires s in w.subs && w.subs[s].template in w.templates
  {
    || !NeedsSignatures(w.templates[w.subs[s].template])
    || (ExternalsSigned(w.tokens, s) && (AnySigned(w.records, o.n, s) ==> SignaturesIn(w, s)))
  }

  /** The status of the submission agrees with the rows, or a check will see to it. */
  ghost predicate Settling(o: Origin, w: World, s: Id) {
    && s in w.subs && w.subs[s].template in w.templates && Processable(o.status)
    && (w.subs[s].status == o.status || w.subs[s].status == APPROVED
          || (!o.calm && w.subs[s].status == PENDING_SIGNATURES))
    && (forall pid :: pid in w.procs ==> CheckSound(o, w, w.procs[pid], s))
    && (w.subs[s].status == APPROVED ==> Complete(w, s) && AnySigned(w.records, o.n, s))
    && (o.calm && o.status == SUBMITTED ==> CalmRows(o, w, s))
    && (o.calm && Complete(w, s) && AnySigned(w.records, o.n, s) ==>
          w.subs[s].status == APPROVED || Checking(w, s, Approve))
    && (AnySigned(w.records, o.n, s) && !SignaturesIn(w, s) ==>
          w.subs[s].status == PENDING_SIGNATURES || Checking(w, s, AwaitSignatures))
  }

  /** A record for the token it signs through. */
  predicate Fits(w: World, record: Record) {
    && CommitSucceeds(w, record.submission, record.who)
    && (record.who.External? ==> w.tokens[record.who.token].submission == record.submission
                                 && w.tokens[record.who.token].signer == record.who.signer)
  }

  lemma CommittedIsSignedFrom(u: World, w: World, pid: nat, record: Record, s: Id)
    requires SignedFrom(u, w, s) && Fits(w, record)
    ensures SignedFrom(u, Committed(w, pid, record), s)
  {
    var v := Committed(w, pid, record);
    assert v.records[|w.records|] == record;
    forall t | 0 <= t < |u.tokens| && u.tokens[t].submission == s
      ensures v.tokens[t].link == SIGNED <==>
        u.tokens[t].link == SIGNED || SignedSince(v.records, |u.records|, s, External(u.tokens[t].signer, t))
    {
      SignedSinceStep(w.records, record, |u.records|, s, External(u.tokens[t].signer, t));
    }
  }

  lemma SignedSinceStep(records: seq<Record>, record: Record, n: nat, s: Id, who: SignedBy)
    requires n <= |records|
    ensures SignedSince(records + [record], n, s, who) <==>
      SignedSince(records, n, s, who) || (record.submission == s && record.who == who)
  {
    var more := records + [record];
    assert more[|records|] == record && forall k :: 0 <= k < |records| ==> more[k] == records[k];
  }

  lemma InternallySignedStep(records: seq<Record>, record: Record, s: Id)
    ensures InternallySigned(records + [record], s) <==>
      InternallySigned(records, s) || (record.submission == s && record.who.Internal?)
  {
    var more := records + [record];
    assert more[|records|] == record && forall k :: 0 <= k < |records| ==> more[k] == records[k];
  }

  lemma AnySignedStep(records: seq<Record>, record: Record, n: nat, s: Id)
    requires n <= |records|
    ensures AnySigned(records + [record], n, s) <==> AnySigned(records, n, s) || record.submission == s
  {
    var more := records + [record];
    assert more[|records|] == record && forall k :: 0 <= k < |records| ==> more[k] == records[k];
  }

  /** A signing completes its own submission or none. */
  lemma CommittedCompletes(t: Template, sub: Submission, w: World, pid: nat, record: Record, s: Id)
    requires Fits(w, record)
    ensures CompleteFor(t, sub, w, s) ==> CompleteFor(t, sub, Committed(w, pid, record), s)
    ensures record.submission != s ==>
      (CompleteFor(t, sub, w, s) <==> CompleteFor(t, sub, Committed(w, pid, record), s))
  {
    var v := Committed(w, pid, record);
    InternallySignedStep(w.records, record, s);
    assert forall i :: 0 <= i < |w.tokens| ==> v.tokens[i].submission == w.tokens[i].submission;
    if record.submission != s {
      assert forall i :: 0 <= i < |w.tokens| && w.tokens[i].submission == s ==> v.tokens[i] == w.tokens[i];
    }
  }

  lemma CommittedSoundly(o: Origin, w: World, pid: nat, record: Record, s: Id)
    requires Settling(o, w, s) && o.n <= |w.records| && Fits(w, record) && pid in w.procs && w.procs[pid].Signing?
    ensures var v := Committed(w, pid, record); forall q :: q in v.procs ==> CheckSound(o, v, v.procs[q], s)
  {
    var v := Committed(w, pid, record);
    AnySignedStep(w.records, record, o.n, s);
    CommittedCompletes(w.templates[w.subs[s].template], w.subs[s], w, pid, record, s);
    forall q | q in v.procs ensures CheckSound(o, v, v.procs[q], s) {
      if q != pid {
        assert CheckSound(o, w, w.procs[q], s);
      }
    }
  }

  lemma CommittedCalmly(o: Origin, w: World, pid: nat, record: Record, s: Id)
    requires s in w.subs && w.subs[s].template in w.templates && CalmRows(o, w, s) && o.n <= |w.records|
             && Fits(w, record)
    requires forall t :: 0 <= t < |w.tokens| && w.tokens[t].link == SIGNED ==> w.tokens[t].usedAt.Some?
    ensures CalmRows(o, Committed(w, pid, record), s)
  {
    AnySignedStep(w.records, record, o.n, s);
    InternallySignedStep(w.records, record, s);
  }

  lemma OthersStillCheck(w: World, v: World, pid: nat, s: Id, verdict: Verdict)
    requires Checking(w, s, verdict) && (pid in w.procs ==> w.procs[pid].Signing?)
    requires forall q :: q in w.procs && q != pid ==> q in v.procs && v.procs[q] == w.procs[q]
    ensures Checking(v, s, verdict)
  {
    var q :| q in w.procs && (w.procs[q] == CheckPending(s) || w.procs[q] == CheckDecided(s, verdict));
    assert v.procs[q] == w.procs[q];
  }

  lemma CommittedSettles(o: Origin, w: World, pid: nat, record: Record, s: Id)
    requires Settling(o, w, s) && o.n <= |w.records| && Fits(w, record) && pid in w.procs && w.procs[pid].Signing?
    requires forall t :: 0 <= t < |w.tokens| && w.tokens[t].link == SIGNED ==> w.tokens[t].usedAt.Some?
    ensures Settling(o, Committed(w, pid, record), s)
  {
    var v := Committed(w, pid, record);
    AnySignedStep(w.records, record, o.n, s);
    CommittedCompletes(w.templates[w.subs[s].template], w.subs[s], w, pid, record, s);
    CommittedSoundly(o, w, pid, record, s);
    if CalmRows(o, w, s) {
      CommittedCalmly(o, w, pid, record, s);
    }
    if record.submission == s {
      assert v.procs[pid] == CheckPending(s);
    } else {
      if Checking(w, s, Approve) {
        OthersStillCheck(w, v, pid, s, Approve);
      }
      if Checking(w, s, AwaitSignatures) {
        OthersStillCheck(w, v, pid, s, AwaitSignatures);
      }
    }
  }

  lemma CheckReadSettles(o: Origin, w: World, pid: nat, s: Id)
    requires Settling(o, w, s)
    ensures Settling(o, CheckStep(w, CheckRead(pid)), s)
  {
    var v := CheckStep(w, CheckRead(pid));
    if pid in w.procs {
      assert CheckSound(o, w, w.procs[pid], s);
    }
    forall q | q in v.procs ensures CheckSound(o, v, v.procs[q], s) {
      if q != pid {
        assert CheckSound(o, w, w.procs[q], s);
      }
    }
    if o.calm && Complete(w, s) && AnySigned(w.records, o.n, s) && w.subs[s].status != APPROVED {
      var q :| q in w.procs && (w.procs[q] == CheckPending(s) || w.procs[q] == CheckDecided(s, Approve));
      assert q in v.procs && (v.procs[q] == w.procs[q] || v.procs[q] == CheckDecided(s, Approve));
    }
    if AnySigned(w.records, o.n, s) && !SignaturesIn(w, s) && w.subs[s].status != PENDING_SIGNATURES {
      var q :| q in w.procs && (w.procs[q] == CheckPending(s) || w.procs[q] == CheckDecided(s, AwaitSignatures));
      assert q in v.procs && (v.procs[q] == w.procs[q] || v.procs[q] == CheckDecided(s, AwaitSignatures));
    }
  }

  lemma CheckWriteSettles(o: Origin, w: World, pid: nat, s: Id)
    requires Settling(o, w, s)
    ensures Settling(o, CheckStep(w, CheckWrite(pid)), s)
  {
    var v := CheckStep(w, CheckWrite(pid));
    if pid in w.procs {
      assert CheckSound(o, w, w.procs[pid], s);
    }
    forall q | q in v.procs ensures CheckSound(o, v, v.procs[q], s) {
      assert CheckSound(o, w, w.procs[q], s);
    }
    if o.calm && Complete(w, s) && AnySigned(w.records, o.n, s) && w.subs[s].status != APPROVED {
      var q :| q in w.procs && (w.procs[q] == CheckPending(s) || w.procs[q] == CheckDecided(s, Approve));
      assert v.subs[s].status == APPROVED || (q in v.procs && v.procs[q] == w.procs[q]);
    }
    if AnySigned(w.records, o.n, s) && !SignaturesIn(w, s) && w.subs[s].status != PENDING_SIGNATURES {
      var q :| q in w.procs && (w.procs[q] == CheckPending(s) || w.procs[q] == CheckDecided(s, AwaitSignatures));
      assert v.subs[s].status == PENDING_SIGNATURES || (q in v.procs && v.procs[q] == w.procs[q]);
    }
  }

  /** Only a request to sign goes on, begins or ends. */
  ghost predicate OnlyRequest(w: World, v: World, pid: nat) {
    && v == w.(procs := v.procs)
    && (pid in w.procs ==> w.procs[pid].Signing?) && (pid in v.procs ==> v.procs[pid].Signing?)
    && (forall q :: q in v.procs && q != pid ==> q in w.procs && v.procs[q] == w.procs[q])
    && (forall q :: q in w.procs && q != pid ==> q in v.procs)
  }

  lemma RequestSettles(o: Origin, w: World, v: World, pid: nat, s: Id)
    requires Settling(o, w, s) && OnlyRequest(w, v, pid)
    ensures Settling(o, v, s)
  {
    forall q | q in v.procs ensures CheckSound(o, v, v.procs[q], s) {
      if q != pid {
        assert CheckSound(o, w, w.procs[q], s);
      }
    }
    if Checking(w, s, Approve) {
      OthersStillCheck(w, v, pid, s, Approve);
    }
    if Checking(w, s, AwaitSignatures) {
      OthersStillCheck(w, v, pid, s, AwaitSignatures);
    }
  }

  lemma SignIsOnlyRequest(w: World, a: SignAction)
    ensures SignStep(w, a) == w || OnlyRequest(w, SignStep(w, a), a.pid)
  {
  }

  lemma CommitSettles(env: Env, u: World, o: Origin, w: World, pid: nat, s: Id)
    requires Inv(env, w) && SignedFrom(u, w, s) && Settling(o, w, s) && o.n == |u.records|
    ensures var v := CommitStep(env, w, pid); SignedFrom(u, v, s) && Settling(o, v, s)
  {
    if pid in w.procs && w.procs[pid].Signing? && w.procs[pid].stage.Hashed? && w.procs[pid].submission in w.subs {
      var p := w.procs[pid];
      assert ProcSound(w, p);
      if CommitSucceeds(w, p.submission, p.who) {
        var hash := StoredHash(env, w.subs[p.submission], p);
        SignedAreUsed(env, w);
        CommittedIsSignedFrom(u, w, pid, Record(p.submission, p.who, hash, HASH_VERSION, w.now), s);
        CommittedSettles(o, w, pid, Record(p.submission, p.who, hash, HASH_VERSION, w.now), s);
      } else {
        RequestSettles(o, w, Finish(w, pid), pid, s);
      }
    }
  }

  lemma SignedAreUsed(env: Env, w: World)
    requires Inv(env, w)
    ensures forall t :: 0 <= t < |w.tokens| && w.tokens[t].link == SIGNED ==> w.tokens[t].usedAt.Some?
  {
    forall t | 0 <= t < |w.tokens| && w.tokens[t].link == SIGNED ensures w.tokens[t].usedAt.Some? {
      assert TokenSound(w, t);
    }
  }

  lemma TickSettles(o: Origin, w: World, elapsed: nat, s: Id)
    requires Settling(o, w, s)
    ensures Settling(o, w.(now := w.now + elapsed), s)
  {
    var v := w.(now := w.now + elapsed);
    forall q | q in v.procs ensures CheckSound(o, v, v.procs[q], s) {
      assert CheckSound(o, w, w.procs[q], s);
    }
    assert forall verdict :: Checking(w, s, verdict) ==> Checking(v, s, verdict);
  }

  lemma SameRowsSignedFrom(u: World, w: World, v: World, s: Id)
    requires SignedFrom(u, w, s) && v.tokens == w.tokens && v.records == w.records && v.templates == w.templates
    ensures SignedFrom(u, v, s)
  {
  }

  lemma CheckKeepsRows(w: World, c: CheckAction)
    ensures var v := CheckStep(w, c); v.tokens == w.tokens && v.records == w.records && v.templates == w.templates
  {
  }

  lemma CheckSettles(u: World, o: Origin, w: World, c: CheckAction, s: Id)
    requires SignedFrom(u, w, s) && Settling(o, w, s)
    ensures SignedFrom(u, CheckStep(w, c), s) && Settling(o, CheckStep(w, c), s)
  {
    CheckKeepsRows(w, c);
    SameRowsSignedFrom(u, w, CheckStep(w, c), s);
    match c
    case CheckRead(pid) => CheckReadSettles(o, w, pid, s);
    case CheckWrite(pid) => CheckWriteSettles(o, w, pid, s);
  }

  lemma StepSettles(env: Env, u: World, o: Origin, w: World, a: Action, s: Id)
    requires Inv(env, w) && SignedFrom(u, w, s) && Settling(o, w, s) && o.n == |u.records| && OnlySigns(a)
    ensures var v := Step(env, w, a); SignedFrom(u, v, s) && Settling(o, v, s)
  {
    match a
    case Tick(elapsed) =>
      TickSettles(o, w, elapsed, s);
      SameRowsSignedFrom(u, w, w.(now := w.now + elapsed), s);
    case Sign(i) =>
      SignIsOnlyRequest(w, i);
      if SignStep(w, i) != w {
        RequestSettles(o, w, SignStep(w, i), i.pid, s);
        SameRowsSignedFrom(u, w, SignStep(w, i), s);
      }
    case Commit(pid) =>
      CommitSettles(env, u, o, w, pid, s);
    case Check(c) =>
      CheckSettles(u, o, w, c, s);
  }

  /** From here no check of the submission can decide to wait: it waits already, its template asks for no signatures, or
      every link is signed. */
  predicate NoneWaits(u: World, s: Id)
    requires Quiescent(u, s)
  {
    || u.subs[s].status == PENDING_SIGNATURES
    || !NeedsSignatures(u.templates[u.subs[s].template])
    || ExternalsSigned(u.tokens, s)
  }

  lemma {:induction false} RunSettles(env: Env, u: World, o: Origin, acts: seq<Action>, s: Id)
    requires Inv(env, u) && Quiescent(u, s) && Processable(u.subs[s].status)
    requires o.n == |u.records| && o.status == u.subs[s].status && (o.calm ==> NoneWaits(u, s))
    requires forall a :: a in acts ==> OnlySigns(a)
    ensures var w := Run(env, u, acts); SignedFrom(u, w, s) && Settling(o, w, s)
  {
    if acts != [] {
      var init := acts[..|acts| - 1];
      RunSettles(env, u, o, init, s);
      RunKeepsInv(env, u, init);
      StepSettles(env, u, o, Run(env, u, init), acts[|acts| - 1], s);
    }
  }

  // ----- Who has signed decides -----

  lemma SignedFromCompletes(env: Env, u: World, w: World, s: Id)
    requires Inv(env, w) && SignedFrom(u, w, s) && Quiescent(u, s)
    ensures SignaturesComplete(CaseOf(u, s).template, w.tokens, w.records, s) <==>
      CompleteWith(CaseOf(u, s), NewSigners(w.records, |u.records|, s))
  {
    var whos, n := NewSigners(w.records, |u.records|, s), |u.records|;
    forall t | 0 <= t < |u.tokens| && u.tokens[t].submission == s
      ensures SignedSince(w.records, n, s, External(u.tokens[t].signer, t)) <==>
        exists who :: who in whos && who.External? && who.token == t
    {
      TokenSigners(env, u, w, s, t);
    }
    InternalSigners(u, w, s);
  }

  lemma TokenSigners(env: Env, u: World, w: World, s: Id, t: nat)
    requires Inv(env, w) && SignedFrom(u, w, s) && t < |u.tokens|
    ensures SignedSince(w.records, |u.records|, s, External(u.tokens[t].signer, t)) <==>
      exists who :: who in NewSigners(w.records, |u.records|, s) && who.External? && who.token == t
  {
    var whos := NewSigners(w.records, |u.records|, s);
    NewSignerSigned(w.records, |u.records|, s, External(u.tokens[t].signer, t));
    if who :| who in whos && who.External? && who.token == t {
      NewSignerSigned(w.records, |u.records|, s, who);
      var k :| |u.records| <= k < |w.records| && w.records[k].submission == s && w.records[k].who == who;
      assert RecordSound(w, w.records[k]);
    }
  }

  lemma InternalSigners(u: World, w: World, s: Id)
    requires SignedFrom(u, w, s)
    ensures InternallySigned(w.records, s) <==>
      InternallySigned(u.records, s) || exists who :: who in NewSigners(w.records, |u.records|, s) && who.Internal?
  {
    var whos := NewSigners(w.records, |u.records|, s);
    if who :| who in whos && who.Internal? {
      NewSignerSigned(w.records, |u.records|, s, who);
    }
    if InternallySigned(w.records, s) {
      var k :| 0 <= k < |w.records| && w.records[k].submission == s && w.records[k].who.Internal?;
      if k < |u.records| {
        assert u.records[k] == w.records[k];
      } else {
        NewSignerSigned(w.records, |u.records|, s, w.records[k].who);
      }
    }
    if InternallySigned(u.records, s) {
      var k :| 0 <= k < |u.records| && u.records[k].submission == s && u.records[k].who.Internal?;
      assert w.records[k] == u.records[k];
    }
  }

  lemma SomeSigner(records: seq<Record>, n: nat, s: Id)
    requires n <= |records|
    ensures AnySigned(records, n, s) <==> NewSigners(records, n, s) != []
  {
    var whos := NewSigners(records, n, s);
    if AnySigned(records, n, s) {
      var k :| n <= k < |records| && records[k].submission == s;
      NewSignerSigned(records, n, s, records[k].who);
    }
    if whos != [] {
      NewSignerSigned(records, n, s, whos[0]);
    }
  }

  /** No check of the submission is in flight. */
  ghost predicate ChecksDone(w: World, s: Id) {
    forall pid :: pid in w.procs ==>
      !((w.procs[pid].CheckPending? || w.procs[pid].CheckDecided?) && w.procs[pid].submission == s)
  }

  lemma SettledRows(env: Env, u: World, acts: seq<Action>, s: Id) returns (w: World, whos: seq<SignedBy>)
    requires Inv(env, u) && Quiescent(u, s) && Processable(u.subs[s].status)
    requires forall a :: a in acts ==> OnlySigns(a)
    ensures w == Run(env, u, acts) && u.records <= w.records && whos == NewSigners(w.records, |u.records|, s)
    ensures s in w.subs && w.subs[s].template in w.templates
    ensures Complete(w, s) <==> CaseFilled(CaseOf(u, s)) && CompleteWith(CaseOf(u, s), whos)
    ensures SignaturesIn(w, s) <==> CompleteWith(CaseOf(u, s), whos)
    ensures AnySigned(w.records, |u.records|, s) <==> whos != []
  {
    w := Run(env, u, acts);
    RunSettles(env, u, Origin(|u.records|, u.subs[s].status, false), acts, s);
    whos := NewSigners(w.records, |u.records|, s);
    RunKeepsInv(env, u, acts);
    RunGrows(env, u, acts);
    assert SubGrows(u.subs[s], w.subs[s]);
    SignedFromCompletes(env, u, w, s);
    SomeSigner(w.records, |u.records|, s);
  }

  /** However signing requests interleave, of this submission or of others, and however their checks do: once no check
      of the submission is in flight, its status is decided by who has signed, if it waited for signatures before, or no
      check could decide to wait. */
  lemma {:induction false} SigningsSettle(env: Env, u: World, acts: seq<Action>, s: Id)
    requires Inv(env, u) && Quiescent(u, s) && Processable(u.subs[s].status) && NoneWaits(u, s)
    requires (forall a :: a in acts ==> OnlySigns(a)) && ChecksDone(Run(env, u, acts), s)
    ensures var w := Run(env, u, acts);
            && u.records <= w.records && s in w.subs
            && var whos := NewSigners(w.records, |u.records|, s);
               w.subs[s].status ==
               if whos != [] && CaseFilled(CaseOf(u, s)) && CompleteWith(CaseOf(u, s), whos) then APPROVED
               else u.subs[s].status
  {
    var w, whos := SettledRows(env, u, acts, s);
    RunSettles(env, u, Origin(|u.records|, u.subs[s].status, true), acts, s);
    assert !Checking(w, s, Approve);
  }

  /** Also where a check can decide to wait: nobody is approved unless someone signed and all is complete, and a
      submission whose signatures are not complete waits for them as soon as someone has signed. */
  lemma {:induction false} SigningsNeverApproveEarly(env: Env, u: World, acts: seq<Action>, s: Id)
    requires Inv(env, u) && Quiescent(u, s) && Processable(u.subs[s].status)
    requires (forall a :: a in acts ==> OnlySigns(a)) && ChecksDone(Run(env, u, acts), s)
    ensures var w := Run(env, u, acts);
            && u.records <= w.records && s in w.subs
            && var whos := NewSigners(w.records, |u.records|, s);
               && (w.subs[s].status == APPROVED ==>
                     whos != [] && CaseFilled(CaseOf(u, s)) && CompleteWith(CaseOf(u, s), whos))
               && (whos != [] && !CompleteWith(CaseOf(u, s), whos) ==> w.subs[s].status == PENDING_SIGNATURES)
               && Processable(w.subs[s].status) != (w.subs[s].status == APPROVED)
  {
    var w, whos := SettledRows(env, u, acts, s);
    RunSettles(env, u, Origin(|u.records|, u.subs[s].status, false), acts, s);
    assert !Checking(w, s, AwaitSignatures);
  }

  /** Two stretches of interleaved signings in which the same signers sign leave the same status. */
  lemma {:induction false} InterleavingDoesNotMatter(env: Env, u: World, acts: seq<Action>, others: seq<Action>, s: Id)
    requires Inv(env, u) && Quiescent(u, s) && Processable(u.subs[s].status) && NoneWaits(u, s)
    requires (forall a :: a in acts ==> OnlySigns(a)) && ChecksDone(Run(env, u, acts), s)
    requires (forall a :: a in others ==> OnlySigns(a)) && ChecksDone(Run(env, u, others), s)
    requires forall who :: SignedSince(Run(env, u, acts).records, |u.records|, s, who)
                      <==> SignedSince(Run(env, u, others).records, |u.records|, s, who)
    ensures var w, v := Run(env, u, acts), Run(env, u, others);
            s in w.subs && s in v.subs && w.subs[s].status == v.subs[s].status
  {
    SigningsSettle(env, u, acts, s);
    SigningsSettle(env, u, others, s);
    var a, b := Run(env, u, acts).records, Run(env, u, others).records;
    SameSigners(CaseOf(u, s), a, b, |u.records|, s);
  }

  lemma SameSigners(c: Case, a: seq<Record>, b: seq<Record>, n: nat, s: Id)
    requires n <= |a| && n <= |b| && forall who :: SignedSince(a, n, s, who) <==> SignedSince(b, n, s, who)
    ensures NewSigners(a, n, s) == [] <==> NewSigners(b, n, s) == []
    ensures CompleteWith(c, NewSigners(a, n, s)) <==> CompleteWith(c, NewSigners(b, n, s))
  {
    var whos, others := NewSigners(a, n, s), NewSigners(b, n, s);
    forall who ensures who in whos <==> who in others {
      NewSignerSigned(a, n, s, who);
      NewSignerSigned(b, n, s, who);
    }
    assert whos != [] ==> whos[0] in others;
    assert others != [] ==> others[0] in whos;
  }
}
