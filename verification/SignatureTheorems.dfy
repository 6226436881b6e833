/** What holds in every run of the signing and approval protocol. */
module SignatureTheorems {
  import opened Wrappers
  import opened SignatureData
  import opened FormApproval
  import opened DocumentHash
  import opened DocumentContents
  import DocumentText
  import opened SignatureProtocol
  import opened SignatureRuns

  predicate Initial(w: World) {
    w.tokens == [] && w.records == [] && w.subs == map[] && w.procs == map[]
  }

  // ----- Exactly-once signing -----

  /** In every run a token has at most one record; SIGNED means consumed with exactly one. */
  lemma {:induction false} TokensAreSignedOnce(env: Env, w: World, acts: seq<Action>, t: nat)
    requires Initial(w)
    ensures var v := Run(env, w, acts);
            && (forall j, k :: 0 <= j < k < |v.records| ==>
                  !(IsRecordOf(v.records[j], t) && IsRecordOf(v.records[k], t)))
            && (HasRecord(v.records, t) ==> t < |v.tokens| && v.tokens[t].usedAt.Some?)
            && (t < |v.tokens| && v.tokens[t].link == SIGNED ==> v.tokens[t].usedAt.Some? && HasRecord(v.records, t))
  {
    RunKeepsInv(env, w, acts);
    var v := Run(env, w, acts);
    if HasRecord(v.records, t) {
      var k :| 0 <= k < |v.records| && IsRecordOf(v.records[k], t);
      assert RecordSound(v, v.records[k]);
    }
    if t < |v.tokens| {
      assert TokenSound(v, t);
    }
    forall j, k | 0 <= j < k < |v.records| ensures !(IsRecordOf(v.records[j], t) && IsRecordOf(v.records[k], t)) {
      assert !SameSigning(v.records[j], v.records[k]);
    }
  }

  /** Once consumed, a token keeps its moment of consumption, whatever runs next. */
  lemma {:induction false} ConsumptionIsForever(env: Env, w: World, acts: seq<Action>, t: nat)
    requires Inv(env, w) && t < |w.tokens| && w.tokens[t].usedAt.Some?
    ensures var v := Run(env, w, acts); t < |v.tokens| && v.tokens[t].usedAt == w.tokens[t].usedAt
  {
    RunGrows(env, w, acts);
    assert TokenGrows(w.tokens[t], Run(env, w, acts).tokens[t]);
  }

  /** A consumed token without SIGNED status: superseded by a re-issue, or signed and then marked as viewed. */
  predicate Dead(t: Token) { t.usedAt.Some? && t.link != SIGNED }

  /** Re-issuing supersedes every unused token of the pair, and none of them has a record. */
  lemma ReissueSupersedes(env: Env, w: World, pid: nat, t: nat)
    requires Inv(env, w) && pid in w.procs && w.procs[pid].Issuing? && !w.procs[pid].invalidated
    requires t < |w.tokens| && SupersededBy(w.tokens[t], w.procs[pid].submission, w.procs[pid].signer)
    ensures var v := Step(env, w, Issue(InvalidateOld(pid))); Dead(v.tokens[t]) && !HasRecord(v.records, t)
  {
    assert TokenSound(w, t);
    forall k | 0 <= k < |w.records| ensures !IsRecordOf(w.records[k], t) {
      assert RecordSound(w, w.records[k]);
    }
  }

  /** A superseded token is never signed: not by a request that loaded it before, nor by any later one. */
  lemma {:induction false} SupersededNeverSigns(env: Env, w: World, acts: seq<Action>, t: nat)
    requires Inv(env, w) && t < |w.tokens| && w.tokens[t].usedAt.Some? && !HasRecord(w.records, t)
    ensures var v := Run(env, w, acts);
            t < |v.tokens| && Dead(v.tokens[t]) && !HasRecord(v.records, t)
  {
    var v := Run(env, w, acts);
    RunGrows(env, w, acts);
    assert TokenSound(w, t) && TokenGrows(w.tokens[t], v.tokens[t]);
    forall k | 0 <= k < |v.records| ensures !IsRecordOf(v.records[k], t) {
      if k < |w.records| {
        assert v.records[k] == w.records[k] && !IsRecordOf(w.records[k], t);
      } else {
        assert NewRecordSound(w, v.records[k]);
      }
    }
  }

  // ----- How long a signed token keeps its status -----

  ghost predicate BeingViewed(w: World, t: nat) {
    exists q :: q in w.procs && w.procs[q] == Viewing(t)
  }

  ghost predicate SignedForGood(w: World, t: nat) {
    t < |w.tokens| && w.tokens[t].usedAt.Some? && w.tokens[t].link == SIGNED && !BeingViewed(w, t)
  }

  lemma IssueKeepsSigned(w: World, a: IssueAction, t: nat)
    requires SignedForGood(w, t)
    ensures SignedForGood(IssueStep(w, a), t)
  {
  }

  lemma ViewKeepsSigned(w: World, a: ViewAction, t: nat)
    requires SignedForGood(w, t)
    ensures SignedForGood(ViewStep(w, a), t)
  {
  }

  lemma SignKeepsSigned(w: World, a: SignAction, t: nat)
    requires SignedForGood(w, t)
    ensures SignedForGood(SignStep(w, a), t)
  {
  }

  lemma CommittedKeepsSigned(w: World, pid: nat, record: Record, t: nat)
    requires SignedForGood(w, t) && CommitSucceeds(w, record.submission, record.who)
    ensures SignedForGood(Committed(w, pid, record), t)
  {
  }

  lemma CommitKeepsSigned(env: Env, w: World, pid: nat, t: nat)
    requires SignedForGood(w, t)
    ensures SignedForGood(CommitStep(env, w, pid), t)
  {
    if pid in w.procs && w.procs[pid].Signing? && w.procs[pid].stage.Hashed? && w.procs[pid].submission in w.subs {
      var p := w.procs[pid];
      if CommitSucceeds(w, p.submission, p.who) {
        var hash := StoredHash(env, w.subs[p.submission], p);
        CommittedKeepsSigned(w, pid, Record(p.submission, p.who, hash, HASH_VERSION, w.now), t);
      }
    }
  }

  lemma CheckKeepsSigned(w: World, a: CheckAction, t: nat)
    requires SignedForGood(w, t)
    ensures SignedForGood(CheckStep(w, a), t)
  {
  }

  lemma AdminKeepsSigned(env: Env, w: World, a: AdminAction, t: nat)
    requires SignedForGood(w, t)
    ensures SignedForGood(AdminStep(env, w, a), t)
  {
  }

  lemma StepKeepsSigned(env: Env, w: World, a: Action, t: nat)
    requires SignedForGood(w, t)
    ensures SignedForGood(Step(env, w, a), t)
  {
    match a
    case Issue(i) => IssueKeepsSigned(w, i, t);
    case View(i) => ViewKeepsSigned(w, i, t);
    case Sign(i) => SignKeepsSigned(w, i, t);
    case Commit(pid) => CommitKeepsSigned(env, w, pid, t);
    case Check(c) => CheckKeepsSigned(w, c, t);
    case Administer(d) => AdminKeepsSigned(env, w, d, t);
    case _ =>
  }

  lemma {:induction false} RunKeepsSigned(env: Env, w: World, acts: seq<Action>, t: nat)
    requires SignedForGood(w, t)
    ensures SignedForGood(Run(env, w, acts), t)
  {
    if acts != [] {
      RunKeepsSigned(env, w, acts[..|acts| - 1], t);
      StepKeepsSigned(env, Run(env, w, acts[..|acts| - 1]), acts[|acts| - 1], t);
    }
  }

  /** In every continuation the token has SIGNED status. */
  ghost predicate StaysSigned(env: Env, w: World, t: nat) {
    forall acts :: t < |Run(env, w, acts).tokens| && Run(env, w, acts).tokens[t].link == SIGNED
  }

  lemma LateViewOverwrites(env: Env, w: World, t: nat)
    requires BeingViewed(w, t)
    ensures !StaysSigned(env, w, t)
  {
    var q :| q in w.procs && w.procs[q] == Viewing(t);
    RunOne(env, w, View(WriteView(q)));
    if t < |w.tokens| {
      assert Run(env, w, [View(WriteView(q))]).tokens[t].link == VIEWED;
    } else {
      assert Run(env, w, [View(WriteView(q))]).tokens == w.tokens;
    }
  }

  lemma CommitKeepsViews(env: Env, w: World, pid: nat, t: nat)
    requires AboutToSign(env, w, pid)
    ensures BeingViewed(Step(env, w, Commit(pid)), t) <==> BeingViewed(w, t)
    ensures w.procs[pid].who.External? && w.procs[pid].who.token == t && !BeingViewed(w, t) ==>
      SignedForGood(Step(env, w, Commit(pid)), t)
  {
    var u := Step(env, w, Commit(pid));
    assert forall q :: q in u.procs && u.procs[q] == Viewing(t) <==> q in w.procs && w.procs[q] == Viewing(t);
  }

  /** An external signature leaves its token SIGNED for good exactly when no view of the token is in flight as it
      commits. */
  lemma SignedStatusLastsIff(env: Env, w: World, pid: nat)
    requires AboutToSign(env, w, pid) && w.procs[pid].who.External?
    ensures StaysSigned(env, Step(env, w, Commit(pid)), w.procs[pid].who.token) <==>
      !BeingViewed(w, w.procs[pid].who.token)
  {
    var t, u := w.procs[pid].who.token, Step(env, w, Commit(pid));
    CommitKeepsViews(env, w, pid, t);
    if BeingViewed(w, t) {
      LateViewOverwrites(env, u, t);
    } else {
      forall acts ensures t < |Run(env, u, acts).tokens| && Run(env, u, acts).tokens[t].link == SIGNED {
        RunKeepsSigned(env, u, acts, t);
      }
    }
  }

  // ----- Verification as of the signing instant -----

  /** `verifyDocumentIntegrity` for one record, when the database returns the rows in the order `got`: version 1 hashes
      cannot be verified. */
  function Verify(env: Env, w: World, r: Record, got: Rows): Option<bool>
    requires r.submission in w.subs
  {
    if r.hashVersion == 1 then None
    else
      var sub := w.subs[r.submission];
      var rows := Returned(got, TableRows(env, r.submission, sub, w.tokens, w.records, r.signedAt));
      Some(r.documentHash == HashOf(env.platform, BodyOf(env, r.submission, sub), rows))
  }

  ghost predicate Verifies(env: Env, w: World, k: nat, got: Rows) {
    k < |w.records| && w.records[k].submission in w.subs && Verify(env, w, w.records[k], got) == Some(true)
  }

  ghost predicate VerifiesInAnyOrder(env: Env, w: World, k: nat) {
    forall got :: Verifies(env, w, k, got)
  }

  ghost predicate VerifiesInSomeOrder(env: Env, w: World, k: nat) {
    exists got :: Verifies(env, w, k, got)
  }

  /** A signing request that is about to commit and will succeed. */
  ghost predicate AboutToSign(env: Env, w: World, pid: nat) {
    && Inv(env, w)
    && pid in w.procs && w.procs[pid].Signing? && w.procs[pid].stage.Hashed?
    && w.procs[pid].submission in w.subs
    && CommitSucceeds(w, w.procs[pid].submission, w.procs[pid].who)
  }

  lemma CommitShape(env: Env, w: World, pid: nat)
    requires AboutToSign(env, w, pid)
    ensures var p, u := w.procs[pid], Step(env, w, Commit(pid));
            && u.now == w.now && u.subs == w.subs && |u.tokens| == |w.tokens|
            && u.records == w.records
                 + [Record(p.submission, p.who, StoredHash(env, w.subs[p.submission], p), HASH_VERSION, w.now)]
  {
  }

  /** Of a record of version 2 with the hash of `read`, verifying is agreeing. */
  lemma VerifyingIsAgreeing(env: Env, v: World, k: nat, body: Body, read: Rows, table: Rows)
    requires k < |v.records| && v.records[k].submission in v.subs && v.records[k].hashVersion == HASH_VERSION
    requires body == BodyOf(env, v.records[k].submission, v.subs[v.records[k].submission])
    requires table == RowsAsOf(env.directory, body, v.tokens, v.records, v.records[k].signedAt)
    requires v.records[k].documentHash == HashOf(env.platform, body, read)
    ensures VerifiesInAnyOrder(env, v, k) <==> AgreesInAnyOrder(env.platform, body, read, table)
    ensures VerifiesInSomeOrder(env, v, k) <==> AgreesInSomeOrder(env.platform, body, read, table)
  {
    forall got
      ensures Verifies(env, v, k, got) <==>
        HashOf(env.platform, body, Returned(got, table)) == HashOf(env.platform, body, read)
    {
    }
  }

  /** What a continuation keeps of the record of a commit. */
  lemma CommittedRecordStays(env: Env, w: World, pid: nat, acts: seq<Action>) returns (v: World, read: Rows)
    requires AboutToSign(env, w, pid)
    ensures v == Run(env, Step(env, w, Commit(pid)), acts)
      && read == RowsRead(env, w.subs[w.procs[pid].submission], w.procs[pid])
    ensures var p, k := w.procs[pid], |w.records|;
            && k < |v.records| && p.submission in v.subs && Grows(w, v) && StageSound(v, p.stage)
            && v.records[k] == Record(p.submission, p.who, v.records[k].documentHash, HASH_VERSION, w.now)
            && BodyOf(env, p.submission, v.subs[p.submission]) == BodyOf(env, p.submission, w.subs[p.submission])
            && v.records[k].documentHash == HashOf(env.platform, BodyOf(env, p.submission, v.subs[p.submission]), read)
  {
    var p, u, k := w.procs[pid], Step(env, w, Commit(pid)), |w.records|;
    v, read := Run(env, u, acts), RowsRead(env, w.subs[p.submission], p);
    StepKeepsInv(env, w, Commit(pid));
    StepGrows(env, w, Commit(pid));
    RunGrows(env, u, acts);
    GrowsIsTransitive(w, u, v);
    CommitShape(env, w, pid);
    assert v.records[k] == u.records[k];
    assert ProcSound(w, p);
    GrowingKeepsProc(w, v, p);
    assert SubGrows(w.subs[p.submission], v.subs[p.submission]);
  }

  /** The record made by a commit verifies after a continuation, in some order of the rows, exactly when no counted row,
      stamped by the instant of signing, was missing from what the request had read; and in any order exactly when,
      besides, no two different rows of one list are tied. */
  lemma {:induction false} VerificationIsExact(env: Env, w: World, pid: nat, acts: seq<Action>)
    requires AboutToSign(env, w, pid)
    ensures var p, v, k := w.procs[pid], Run(env, Step(env, w, Commit(pid)), acts), |w.records|;
            var complete := NothingMissed(p.stage.tokens, p.stage.records, p.stage.cutoff, v.tokens, v.records, w.now,
              p.submission);
            var untied := NoTies(env.platform, RowsRead(env, w.subs[p.submission], p));
            && k < |v.records| && p.submission in v.subs
            && v.records[k] == Record(p.submission, p.who, v.records[k].documentHash, HASH_VERSION, w.now)
            && (complete ==> VerifiesInSomeOrder(env, v, k))
            && (Injective(env.platform.sha256) && VerifiesInSomeOrder(env, v, k) ==> complete)
            && (Collation(env.platform) && complete && untied ==> VerifiesInAnyOrder(env, v, k))
            && (Collation(env.platform) && Injective(env.platform.sha256) && VerifiesInAnyOrder(env, v, k) ==>
                  complete && untied)
  {
    var p, k := w.procs[pid], |w.records|;
    var v, read := CommittedRecordStays(env, w, pid, acts);
    var body := BodyOf(env, p.submission, v.subs[p.submission]);
    var table := RowsAsOf(env.directory, body, v.tokens, v.records, w.now);
    VerifyingIsAgreeing(env, v, k, body, read, table);
    assert ProcSound(w, p);
    HashAgreesIff(env.platform, env.directory, body, p.stage.tokens, p.stage.records, p.stage.cutoff, read,
                  v.tokens, v.records, w.now, table);
  }

  /** Nothing was issued or signed internally for the submission since the request read the rows. */
  ghost predicate NothingSinceRead(w: World, p: Proc)
    requires p.Signing? && p.stage.Hashed?
  {
    && (forall i :: 0 <= i < |w.tokens| && w.tokens[i].submission == p.submission ==>
          i < |p.stage.tokens| && p.stage.tokens[i].createdAt <= p.stage.cutoff)
    && (forall k :: 0 <= k < |w.records| && w.records[k].submission == p.submission && w.records[k].who.Internal? ==>
          k < |p.stage.records| && p.stage.records[k].signedAt <= p.stage.cutoff)
  }

  lemma QuietMeansNothingMissed(w: World, p: Proc, r: Record, u: World, v: World)
    requires p.Signing? && p.stage.Hashed? && StageSound(w, p.stage) && NothingSinceRead(w, p)
    requires Grows(w, u) && |u.tokens| == |w.tokens| && u.records == w.records + [r] && r.who.External?
    requires Grows(u, v) && u.now > w.now
    ensures NothingMissed(p.stage.tokens, p.stage.records, p.stage.cutoff, v.tokens, v.records, w.now, p.submission)
  {
  }

  /** What was counted before the commit is still counted afterwards. */
  lemma NothingMissedMeansNothingSince(env: Env, w: World, p: Proc, v: World)
    requires Inv(env, w) && Grows(w, v) && p.Signing? && p.stage.Hashed? && StageSound(w, p.stage)
    requires NothingMissed(p.stage.tokens, p.stage.records, p.stage.cutoff, v.tokens, v.records, w.now, p.submission)
    ensures NothingSinceRead(w, p)
  {
    forall i | 0 <= i < |w.tokens| && w.tokens[i].submission == p.submission
      ensures i < |p.stage.tokens| && p.stage.tokens[i].createdAt <= p.stage.cutoff
    {
      assert TokenSound(w, i) && TokenGrows(w.tokens[i], v.tokens[i]);
      assert CountsToken(v.tokens[i], p.submission, w.now);
    }
    forall k | 0 <= k < |w.records| && w.records[k].submission == p.submission && w.records[k].who.Internal?
      ensures k < |p.stage.records| && p.stage.records[k].signedAt <= p.stage.cutoff
    {
      assert RecordSound(w, w.records[k]) && v.records[k] == w.records[k];
      assert CountsRecord(v.records[k], p.submission, w.now);
    }
  }

  lemma VerifiedMeansNothingSince(env: Env, w: World, pid: nat, acts: seq<Action>)
    requires AboutToSign(env, w, pid) && Injective(env.platform.sha256)
    requires MayVerifyAfter(env, w, pid, acts)
    ensures NothingSinceRead(w, w.procs[pid])
  {
    var p, u := w.procs[pid], Step(env, w, Commit(pid));
    VerificationIsExact(env, w, pid, acts);
    StepKeepsInv(env, w, Commit(pid));
    StepGrows(env, w, Commit(pid));
    RunGrows(env, u, acts);
    GrowsIsTransitive(w, u, Run(env, u, acts));
    assert ProcSound(w, p);
    NothingMissedMeansNothingSince(env, w, p, Run(env, u, acts));
  }

  /** The record of the commit verifies after a continuation, in whatever order the database returns the rows. */
  ghost predicate VerifiesAfter(env: Env, w: World, pid: nat, acts: seq<Action>) {
    VerifiesInAnyOrder(env, Run(env, Step(env, w, Commit(pid)), acts), |w.records|)
  }

  /** It does in some order, at least. */
  ghost predicate MayVerifyAfter(env: Env, w: World, pid: nat, acts: seq<Action>) {
    VerifiesInSomeOrder(env, Run(env, Step(env, w, Commit(pid)), acts), |w.records|)
  }

  /** No two different rows that the request has read are tied in the sorting. */
  ghost predicate UntiedRows(env: Env, w: World, pid: nat)
    requires AboutToSign(env, w, pid)
  {
    NoTies(env.platform, RowsRead(env, w.subs[w.procs[pid].submission], w.procs[pid]))
  }

  lemma SignatureMayVerifyIff(env: Env, w: World, pid: nat, elapsed: nat, acts: seq<Action>)
    requires AboutToSign(env, w, pid) && Injective(env.platform.sha256) && elapsed > 0
    ensures MayVerifyAfter(env, w, pid, [Tick(elapsed)] + acts)
       <==> w.procs[pid].who.External? && NothingSinceRead(w, w.procs[pid])
  {
    if w.procs[pid].who.External? && NothingSinceRead(w, w.procs[pid]) {
      ExternalSignatureKeepsVerifying(env, w, pid, elapsed, acts);
    } else if MayVerifyAfter(env, w, pid, [Tick(elapsed)] + acts) {
      VerifiedMeansNothingSince(env, w, pid, [Tick(elapsed)] + acts);
      InternalSignatureMayNotVerify(env, w, pid, [Tick(elapsed)] + acts);
    }
  }

  lemma VerifyingIsPossible(env: Env, w: World, k: nat)
    requires VerifiesInAnyOrder(env, w, k)
    ensures VerifiesInSomeOrder(env, w, k)
  {
    assert Verifies(env, w, k, Rows([], [], []));
  }

  lemma VerifiedMeansUntied(env: Env, w: World, pid: nat, acts: seq<Action>)
    requires AboutToSign(env, w, pid) && Injective(env.platform.sha256) && Collation(env.platform)
    requires VerifiesAfter(env, w, pid, acts)
    ensures UntiedRows(env, w, pid)
  {
    VerificationIsExact(env, w, pid, acts);
  }

  /** With a collision-free digest, after every continuation in which the clock moves on first: a signature may verify
      exactly when it is external and nothing was issued or signed internally since its request read the rows, and it
      verifies in whatever order the rows come exactly when, besides, no two different ones are tied. */
  lemma SignatureVerifiesIff(env: Env, w: World, pid: nat, elapsed: nat, acts: seq<Action>)
    requires AboutToSign(env, w, pid) && Injective(env.platform.sha256) && Collation(env.platform) && elapsed > 0
    ensures MayVerifyAfter(env, w, pid, [Tick(elapsed)] + acts)
       <==> w.procs[pid].who.External? && NothingSinceRead(w, w.procs[pid])
    ensures VerifiesAfter(env, w, pid, [Tick(elapsed)] + acts)
       <==> w.procs[pid].who.External? && NothingSinceRead(w, w.procs[pid]) && UntiedRows(env, w, pid)
  {
    SignatureMayVerifyIff(env, w, pid, elapsed, acts);
    if w.procs[pid].who.External? && NothingSinceRead(w, w.procs[pid]) && UntiedRows(env, w, pid) {
      ExternalSignatureKeepsVerifying(env, w, pid, elapsed, acts);
    } else if VerifiesAfter(env, w, pid, [Tick(elapsed)] + acts) {
      VerifiedMeansUntied(env, w, pid, [Tick(elapsed)] + acts);
      VerifyingIsPossible(env, Run(env, Step(env, w, Commit(pid)), [Tick(elapsed)] + acts), |w.records|);
    }
  }

  lemma IssuedRow(env: Env, u: World, q: nat, submission: Id, signer: Id, expiresAt: Instant) returns (v: World)
    requires q !in u.procs && submission in u.subs
    ensures v == Run(env, u, IssueOne(q, submission, signer, expiresAt))
    ensures |v.tokens| == |u.tokens| + 1 && CountsToken(v.tokens[|u.tokens|], submission, u.now)
  {
    IssueOneState(env, u, q, submission, signer, expiresAt);
    v := Run(env, u, IssueOne(q, submission, signer, expiresAt));
  }

  lemma {:induction false} CountedButNotReadBreaksIt(env: Env, w: World, pid: nat, acts: seq<Action>, v: World, i: nat)
    requires AboutToSign(env, w, pid) && Injective(env.platform.sha256)
    requires v == Run(env, Step(env, w, Commit(pid)), acts)
    requires |w.tokens| <= i < |v.tokens| && CountsToken(v.tokens[i], w.procs[pid].submission, w.now)
    ensures !MayVerifyAfter(env, w, pid, acts)
  {
    VerificationIsExact(env, w, pid, acts);
    assert ProcSound(w, w.procs[pid]);
  }

  /** The clock has to move on: a token created in the instant of the signing, after it, is counted as well. */
  lemma IssueInTheSameInstantBreaksIt(env: Env, w: World, pid: nat, q: nat, signer: Id, expiresAt: Instant)
    requires AboutToSign(env, w, pid) && Injective(env.platform.sha256) && q !in w.procs
    ensures !MayVerifyAfter(env, w, pid, IssueOne(q, w.procs[pid].submission, signer, expiresAt))
  {
    CommitShape(env, w, pid);
    CommitKeepsOthers(env, w, pid, q);
    var submission := w.procs[pid].submission;
    var v := IssuedRow(env, Step(env, w, Commit(pid)), q, submission, signer, expiresAt);
    CountedButNotReadBreaksIt(env, w, pid, IssueOne(q, submission, signer, expiresAt), v, |w.tokens|);
  }

  lemma CommitKeepsOthers(env: Env, w: World, pid: nat, q: nat)
    requires AboutToSign(env, w, pid) && q !in w.procs
    ensures q !in Step(env, w, Commit(pid)).procs
  {
  }

  /** An undisturbed external signature may verify after every continuation in which the clock moves on first. */
  lemma ExternalSignatureKeepsVerifying(env: Env, w: World, pid: nat, elapsed: nat, acts: seq<Action>)
    requires AboutToSign(env, w, pid) && w.procs[pid].who.External? && NothingSinceRead(w, w.procs[pid]) && elapsed > 0
    ensures MayVerifyAfter(env, w, pid, [Tick(elapsed)] + acts)
    ensures Collation(env.platform) && UntiedRows(env, w, pid) ==> VerifiesAfter(env, w, pid, [Tick(elapsed)] + acts)
  {
    VerificationIsExact(env, w, pid, [Tick(elapsed)] + acts);
    var p, u := w.procs[pid], Step(env, w, Commit(pid));
    var later := Step(env, u, Tick(elapsed));
    RunSplits(env, u, [Tick(elapsed)], acts);
    RunOne(env, u, Tick(elapsed));
    StepKeepsInv(env, w, Commit(pid));
    StepKeepsInv(env, u, Tick(elapsed));
    RunGrows(env, later, acts);
    assert ProcSound(w, p);
    CommitShape(env, w, pid);
    StepGrows(env, w, Commit(pid));
    QuietMeansNothingMissed(w, p, u.records[|w.records|], later, Run(env, later, acts));
  }

  lemma InternalSignatureMayNotVerify(env: Env, w: World, pid: nat, acts: seq<Action>)
    requires AboutToSign(env, w, pid) && w.procs[pid].who.Internal? && Injective(env.platform.sha256)
    ensures !MayVerifyAfter(env, w, pid, acts)
  {
    VerificationIsExact(env, w, pid, acts);
    var p, v, k := w.procs[pid], Run(env, Step(env, w, Commit(pid)), acts), |w.records|;
    assert ProcSound(w, p);
    assert CountsRecord(v.records[k], p.submission, w.now);
  }

  /** An internal record counts itself among the signers, but was hashed before it existed: it verifies in no order. */
  lemma {:induction false} InternalSignatureNeverVerifies(env: Env, w: World, pid: nat, acts: seq<Action>)
    requires AboutToSign(env, w, pid) && w.procs[pid].who.Internal? && Injective(env.platform.sha256)
    ensures var v, k := Run(env, Step(env, w, Commit(pid)), acts), |w.records|;
            && k < |v.records| && v.records[k].submission in v.subs
            && forall got :: Verify(env, v, v.records[k], got) == Some(false)
  {
    InternalSignatureMayNotVerify(env, w, pid, acts);
    var v, read := CommittedRecordStays(env, w, pid, acts);
    forall got ensures Verify(env, v, v.records[|w.records|], got) == Some(false) {
      assert !Verifies(env, v, |w.records|, got);
    }
  }

  /** What a signing request hashes: the submission and its template and date, one question for every stored value, and
      the signers it counted. */
  lemma WhatIsSigned(env: Env, sub: Submission, p: Proc, shown: seq<Question>, x: Signer) returns (d: CanonicalDocument)
    requires p.Signing? && p.stage.Hashed? && |shown| == |sub.values|
    requires forall i :: 0 <= i < |shown| ==>
               Shows(env.platform, LabelledValue(sub.values[i], env.fieldLabel(sub.values[i].field)), shown[i])
    ensures StoredHash(env, sub, p) == env.platform.sha256(DocumentText.TextOf(d))
    ensures d.permisoId == p.submission && d.empresaId == sub.org && d.tipoPermiso == env.templateName(sub.template)
    ensures d.fechaCreacion == env.platform.showDate(sub.submittedAt) && multiset(d.preguntas) == multiset(shown)
    ensures var dir, cutoff := env.directory, p.stage.cutoff;
            x in d.firmantes <==>
              || (exists k :: 0 <= k < |p.stage.tokens| && Invites(dir, p.stage.tokens[k], p.submission, cutoff, x))
              || (exists k ::
                0 <= k < |p.stage.records| && SignedInside(dir, p.stage.records[k], p.submission, cutoff, x))
  {
    var body, rows := BodyOf(env, p.submission, sub), RowsRead(env, sub, p);
    d := DocumentOf(env.platform, body, rows);
    DocumentText.DocumentIsPrinted(d);
    DocumentNames(env.platform, env.directory, body, p.stage.tokens, p.stage.records, p.stage.cutoff, rows, x);
    ShownAsMultiset(env.platform, body, rows, shown);
  }

  /** With an injective digest and printers: once a stored answer to the submission has been changed to another one in
      the same column, no record signed before verifies, in whatever order the rows come. */
  lemma TamperedAnswerFailsVerification(env: Env, sub: Submission, p: Proc, w: World, r: Record, i: nat)
    requires Injective(env.platform.sha256) && InjectivePrinters(env.platform)
    requires p.Signing? && p.stage.Hashed? && r.submission == p.submission && r.hashVersion == HASH_VERSION
    requires r.documentHash == StoredHash(env, sub, p)
    requires r.submission in w.subs && |w.subs[r.submission].values| == |sub.values| && i < |sub.values|
    requires forall j :: 0 <= j < |sub.values| && j != i ==> w.subs[r.submission].values[j] == sub.values[j]
    requires sub.values[i].field == w.subs[r.submission].values[i].field
    requires ColumnChanged(sub.values[i], w.subs[r.submission].values[i])
    ensures forall got :: Verify(env, w, r, got) == Some(false)
  {
    var now := w.subs[r.submission];
    var a, b := BodyOf(env, r.submission, sub), BodyOf(env, r.submission, now);
    forall got ensures Verify(env, w, r, got) == Some(false) {
      var rows := Returned(got, TableRows(env, r.submission, now, w.tokens, w.records, r.signedAt));
      TamperingShows(env.platform, a, b, i, RowsRead(env, sub, p), rows);
    }
  }

  // ----- Superseded tokens block approval -----

  ghost predicate Blocked(w: World, s: Id) {
    && s in w.subs && w.subs[s].status != APPROVED
    && w.subs[s].template in w.templates && NeedsSignatures(w.templates[w.subs[s].template])
    && (exists t :: 0 <= t < |w.tokens| && w.tokens[t].submission == s && Dead(w.tokens[t]))
    && NotApproving(w, s)
  }

  /** No check of the submission has decided to approve it and is about to write. */
  ghost predicate NotApproving(w: World, s: Id) {
    forall pid :: pid in w.procs ==> w.procs[pid] != CheckDecided(s, Approve)
  }

  /** The template keeps requiring signatures. */
  ghost predicate KeepsRequiring(a: Action, template: Id) {
    a.EditTemplate? && a.template == template ==> NeedsSignatures(a.edited)
  }

  /** Requests that will write a submission without reading it again. */
  predicate AboutToWrite(p: Proc) { p.CheckDecided? || p.Rejecting? || p.ChangingStatus? }

  /** A step that neither checks nor administers: submissions and templates stay, and no write is prepared. */
  ghost predicate Quiet(w: World, v: World) {
    && v.subs == w.subs && v.templates == w.templates
    && (forall pid :: pid in v.procs && AboutToWrite(v.procs[pid]) ==> pid in w.procs && w.procs[pid] == v.procs[pid])
  }

  lemma IssueIsQuiet(w: World, a: IssueAction)
    ensures Quiet(w, IssueStep(w, a))
  {
  }

  lemma ViewIsQuiet(w: World, a: ViewAction)
    ensures Quiet(w, ViewStep(w, a))
  {
  }

  lemma SignIsQuiet(w: World, a: SignAction)
    ensures Quiet(w, SignStep(w, a))
  {
  }

  lemma CommittedIsQuiet(w: World, pid: nat, record: Record)
    requires CommitSucceeds(w, record.submission, record.who)
    ensures Quiet(w, Committed(w, pid, record))
  {
  }

  lemma CommitIsQuiet(env: Env, w: World, pid: nat)
    ensures Quiet(w, CommitStep(env, w, pid))
  {
    if pid in w.procs && w.procs[pid].Signing? && w.procs[pid].stage.Hashed? && w.procs[pid].submission in w.subs {
      var p := w.procs[pid];
      if CommitSucceeds(w, p.submission, p.who) {
        var hash := StoredHash(env, w.subs[p.submission], p);
        CommittedIsQuiet(w, pid, Record(p.submission, p.who, hash, HASH_VERSION, w.now));
      }
    }
  }

  lemma StepIsQuiet(env: Env, w: World, a: Action)
    requires a.Issue? || a.View? || a.Sign? || a.Commit? || a.Tick? || a.Abort?
    ensures Quiet(w, Step(env, w, a))
  {
    match a
    case Issue(i) => IssueIsQuiet(w, i);
    case View(i) => ViewIsQuiet(w, i);
    case Sign(i) => SignIsQuiet(w, i);
    case Commit(pid) => CommitIsQuiet(env, w, pid);
    case _ =>
  }

  lemma CheckStaysBlocked(w: World, c: CheckAction, s: Id)
    requires Blocked(w, s)
    ensures var v := CheckStep(w, c);
            NotApproving(v, s) && v.templates == w.templates && s in v.subs && v.subs[s].status != APPROVED
  {
  }

  lemma AdminStaysBlocked(env: Env, w: World, d: AdminAction, s: Id)
    requires Inv(env, w) && Blocked(w, s)
    ensures var v := AdminStep(env, w, d);
            NotApproving(v, s) && v.templates == w.templates && s in v.subs && v.subs[s].status != APPROVED
  {
    if d.pid in w.procs {
      assert ProcSound(w, w.procs[d.pid]);
    }
  }

  lemma DeadStaysDead(w: World, v: World, s: Id)
    requires Grows(w, v) && exists t :: 0 <= t < |w.tokens| && w.tokens[t].submission == s && Dead(w.tokens[t])
    ensures exists t :: 0 <= t < |v.tokens| && v.tokens[t].submission == s && Dead(v.tokens[t])
  {
  }

  lemma StepApprovesNothing(env: Env, w: World, a: Action, s: Id)
    requires Inv(env, w) && Blocked(w, s) && KeepsRequiring(a, w.subs[s].template)
    ensures var v := Step(env, w, a);
            && NotApproving(v, s) && s in v.subs && v.subs[s].status != APPROVED
            && w.subs[s].template in v.templates && NeedsSignatures(v.templates[w.subs[s].template])
  {
    match a {
      case Check(c) => CheckStaysBlocked(w, c, s);
      case Administer(d) => AdminStaysBlocked(env, w, d, s);
      case EditTemplate(_, _) =>
      case _ => StepIsQuiet(env, w, a);
    }
  }

  lemma StepStaysBlocked(env: Env, w: World, a: Action, s: Id)
    requires Inv(env, w) && Blocked(w, s) && KeepsRequiring(a, w.subs[s].template)
    ensures Blocked(Step(env, w, a), s)
  {
    var v := Step(env, w, a);
    StepGrows(env, w, a);
    StepApprovesNothing(env, w, a, s);
    StaysBlocked(w, v, s);
  }

  lemma StaysBlocked(w: World, v: World, s: Id)
    requires Blocked(w, s) && Grows(w, v) && NotApproving(v, s) && v.subs[s].status != APPROVED
    requires w.subs[s].template in v.templates && NeedsSignatures(v.templates[w.subs[s].template])
    ensures Blocked(v, s)
  {
    DeadStaysDead(w, v, s);
    assert SubGrows(w.subs[s], v.subs[s]);
  }

  /** While the template requires signatures, a submission with a dead token is never approved. */
  lemma {:induction false} DeadTokenBlocksApproval(env: Env, w: World, acts: seq<Action>, s: Id)
    requires Inv(env, w) && Blocked(w, s)
    requires forall a :: a in acts ==> KeepsRequiring(a, w.subs[s].template)
    ensures Blocked(Run(env, w, acts), s)
  {
    if acts != [] {
      var init := acts[..|acts| - 1];
      DeadTokenBlocksApproval(env, w, init, s);
      RunKeepsInv(env, w, init);
      RunGrows(env, w, init);
      assert SubGrows(w.subs[s], Run(env, w, init).subs[s]);
      StepStaysBlocked(env, Run(env, w, init), acts[|acts| - 1], s);
    }
  }

  /** No continuation that keeps requiring signatures approves the submission. */
  ghost predicate NeverApproved(env: Env, w: World, s: Id)
    requires s in w.subs
  {
    forall acts :: (forall a :: a in acts ==> KeepsRequiring(a, w.subs[s].template)) ==>
      s in Run(env, w, acts).subs && Run(env, w, acts).subs[s].status != APPROVED
  }

  lemma DecisionInFlightApproves(env: Env, w: World, s: Id)
    requires s in w.subs && !NotApproving(w, s)
    ensures !NeverApproved(env, w, s)
  {
    var q :| q in w.procs && w.procs[q] == CheckDecided(s, Approve);
    RunOne(env, w, Check(CheckWrite(q)));
    assert Run(env, w, [Check(CheckWrite(q))]).subs[s].status == APPROVED;
    assert forall a :: a in [Check(CheckWrite(q))] ==> KeepsRequiring(a, w.subs[s].template);
  }

  /** A submission with a dead token whose template requires signatures is never approved, in whatever continuation
      keeps requiring them, exactly when no check has already decided to approve it. */
  lemma DeadTokenBlocksIff(env: Env, w: World, s: Id)
    requires Inv(env, w) && s in w.subs && w.subs[s].status != APPROVED
    requires w.subs[s].template in w.templates && NeedsSignatures(w.templates[w.subs[s].template])
    requires exists t :: 0 <= t < |w.tokens| && w.tokens[t].submission == s && Dead(w.tokens[t])
    ensures NeverApproved(env, w, s) <==> NotApproving(w, s)
  {
    if NotApproving(w, s) {
      forall acts | forall a :: a in acts ==> KeepsRequiring(a, w.subs[s].template)
        ensures s in Run(env, w, acts).subs && Run(env, w, acts).subs[s].status != APPROVED
      {
        DeadTokenBlocksApproval(env, w, acts, s);
      }
    } else {
      DecisionInFlightApproves(env, w, s);
    }
  }

  // ----- How long an approval lasts -----

  /** A request that decided before the approval, and would undo it. */
  predicate Undoing(p: Proc, s: Id) {
    || p == CheckDecided(s, AwaitSignatures)
    || (p.Rejecting? && p.submission == s)
    || (p.ChangingStatus? && p.submission == s)
  }

  ghost predicate NothingUndoes(w: World, s: Id) {
    forall pid :: pid in w.procs ==> !Undoing(w.procs[pid], s)
  }

  ghost predicate ApprovedForGood(w: World, s: Id) {
    s in w.subs && w.subs[s].status == APPROVED && NothingUndoes(w, s)
  }

  /** An administrator sets the status of the submission by hand. */
  predicate ChangesByHand(a: Action, s: Id) {
    a.Administer? && a.admin.BeginChange? && a.admin.submission == s
  }

  lemma CheckKeepsApproved(w: World, c: CheckAction, s: Id)
    requires ApprovedForGood(w, s)
    ensures ApprovedForGood(CheckStep(w, c), s)
  {
  }

  lemma AdminKeepsApproved(env: Env, w: World, d: AdminAction, s: Id)
    requires ApprovedForGood(w, s) && !ChangesByHand(Administer(d), s)
    ensures ApprovedForGood(AdminStep(env, w, d), s)
  {
  }

  lemma StepKeepsApproved(env: Env, w: World, a: Action, s: Id)
    requires ApprovedForGood(w, s) && !ChangesByHand(a, s)
    ensures ApprovedForGood(Step(env, w, a), s)
  {
    match a
    case Check(c) => CheckKeepsApproved(w, c, s);
    case Administer(d) => AdminKeepsApproved(env, w, d, s);
    case EditTemplate(_, _) =>
    case _ => StepIsQuiet(env, w, a);
  }

  lemma {:induction false} RunKeepsApproved(env: Env, w: World, acts: seq<Action>, s: Id)
    requires ApprovedForGood(w, s) && forall a :: a in acts ==> !ChangesByHand(a, s)
    ensures ApprovedForGood(Run(env, w, acts), s)
  {
    if acts != [] {
      RunKeepsApproved(env, w, acts[..|acts| - 1], s);
      StepKeepsApproved(env, Run(env, w, acts[..|acts| - 1]), acts[|acts| - 1], s);
    }
  }

  ghost predicate ApprovedAfter(env: Env, w: World, acts: seq<Action>, s: Id) {
    s in Run(env, w, acts).subs && Run(env, w, acts).subs[s].status == APPROVED
  }

  /** The submission stays approved in every continuation in which no administrator sets its status by hand. */
  ghost predicate StaysApproved(env: Env, w: World, s: Id) {
    forall acts :: (forall a :: a in acts ==> !ChangesByHand(a, s)) ==> ApprovedAfter(env, w, acts, s)
  }

  lemma WriteUndoes(env: Env, w: World, s: Id, pid: nat) returns (a: Action)
    requires Inv(env, w) && s in w.subs && pid in w.procs && Undoing(w.procs[pid], s)
    ensures !ChangesByHand(a, s) && s in Step(env, w, a).subs && Step(env, w, a).subs[s].status != APPROVED
  {
    assert ProcSound(w, w.procs[pid]);
    a := match w.procs[pid]
      case CheckDecided(_, _) => Check(CheckWrite(pid))
      case Rejecting(_, _, _) => Administer(WriteReject(pid))
      case _ => Administer(WriteChange(pid));
  }

  /** An approved submission stays approved, unless an administrator sets its status by hand, exactly when no request in
      flight is a rejection, a change of status, or a check that has already decided to wait for signatures. */
  lemma ApprovalLastsIff(env: Env, w: World, s: Id)
    requires Inv(env, w) && s in w.subs && w.subs[s].status == APPROVED
    ensures StaysApproved(env, w, s) <==> NothingUndoes(w, s)
  {
    if NothingUndoes(w, s) {
      forall acts | forall a :: a in acts ==> !ChangesByHand(a, s) ensures ApprovedAfter(env, w, acts, s) {
        RunKeepsApproved(env, w, acts, s);
      }
    } else {
      var pid :| pid in w.procs && Undoing(w.procs[pid], s);
      var a := WriteUndoes(env, w, s, pid);
      RunOne(env, w, a);
      assert forall b :: b in [a] ==> !ChangesByHand(b, s);
      assert !ApprovedAfter(env, w, [a], s);
    }
  }

  // ----- Where approvals come from -----

  /** Everything `checkAutoApproval` asks for holds in this state. */
  predicate Ready(w: World, s: Id) {
    && s in w.subs && w.subs[s].template in w.templates && Processable(w.subs[s].status)
    && AllFilled(w.templates[w.subs[s].template].required, w.subs[s].values)
    && SignaturesComplete(w.templates[w.subs[s].template], w.tokens, w.records, s)
  }

  ghost predicate Approving(w: World, s: Id) {
    (s in w.subs && w.subs[s].status == APPROVED) || !NotApproving(w, s)
  }

  lemma AdminApprovesNothing(env: Env, w: World, d: AdminAction, s: Id)
    requires Inv(env, w) && Approving(AdminStep(env, w, d), s)
    ensures Approving(w, s)
  {
    if d.pid in w.procs {
      assert ProcSound(w, w.procs[d.pid]);
    }
    var v := AdminStep(env, w, d);
    if pid :| pid in v.procs && v.procs[pid] == CheckDecided(s, Approve) {
      assert pid in w.procs && w.procs[pid] == v.procs[pid];
    }
  }

  lemma CheckApprovesWhenReady(w: World, c: CheckAction, s: Id)
    requires Approving(CheckStep(w, c), s)
    ensures Approving(w, s) || Ready(w, s)
  {
  }

  lemma StepApprovesWhenReady(env: Env, w: World, a: Action, s: Id)
    requires Inv(env, w) && Approving(Step(env, w, a), s)
    ensures Approving(w, s) || Ready(w, s)
  {
    match a
    case Check(c) => CheckApprovesWhenReady(w, c, s);
    case Administer(d) => AdminApprovesNothing(env, w, d, s);
    case EditTemplate(_, _) =>
    case _ => StepIsQuiet(env, w, a);
  }

  lemma {:induction false} ApprovalComesFromReadiness(env: Env, w: World, acts: seq<Action>, s: Id)
    requires Initial(w) && Approving(Run(env, w, acts), s)
    ensures exists n :: 0 <= n <= |acts| && Ready(Run(env, w, acts[..n]), s)
  {
    if acts != [] {
      var init := acts[..|acts| - 1];
      RunKeepsInv(env, w, init);
      StepApprovesWhenReady(env, Run(env, w, init), acts[|acts| - 1], s);
      if Ready(Run(env, w, init), s) {
        assert acts[..|init|] == init;
      } else {
        ApprovalComesFromReadiness(env, w, init, s);
        var n :| 0 <= n <= |init| && Ready(Run(env, w, init[..n]), s);
        assert acts[..n] == init[..n];
      }
    }
  }

  lemma {:induction false} ReadyMeansAnswered(env: Env, w: World, acts: seq<Action>, n: nat, s: Id)
    requires Initial(w) && n <= |acts| && Ready(Run(env, w, acts[..n]), s)
    ensures s in Run(env, w, acts).subs
    ensures AnsweredAll(RequiredFields(Run(env, w, acts[..n]), s), Run(env, w, acts).subs[s].answers)
  {
    var u := Run(env, w, acts[..n]);
    RunSplits(env, w, acts[..n], acts[n..]);
    assert acts[..n] + acts[n..] == acts;
    RunKeepsInv(env, w, acts[..n]);
    RunGrows(env, u, acts[n..]);
    assert SubGrows(u.subs[s], Run(env, w, acts).subs[s]);
    FilledMeansAnswered(env, RequiredFields(u, s), u.subs[s]);
  }

  function RequiredFields(w: World, s: Id): seq<Id>
    requires s in w.subs && w.subs[s].template in w.templates
  {
    w.templates[w.subs[s].template].required
  }

  /** What holds of every submission in every run: its dates and reasons are consistent with its status, and an
      approved one was at some instant complete, with a real answer given at creation for every required field. */
  lemma {:induction false} StatusesAreEarned(env: Env, w: World, acts: seq<Action>, s: Id)
    requires Initial(w) && s in Run(env, w, acts).subs
    ensures StatusSound(Run(env, w, acts).subs[s])
    ensures Run(env, w, acts).subs[s].status == APPROVED ==>
              exists n :: 0 <= n <= |acts| && Ready(Run(env, w, acts[..n]), s)
                && AnsweredAll(RequiredFields(Run(env, w, acts[..n]), s), Run(env, w, acts).subs[s].answers)
  {
    RunKeepsInv(env, w, acts);
    assert SubSound(env, Run(env, w, acts).subs[s]);
    if Run(env, w, acts).subs[s].status == APPROVED {
      ApprovalComesFromReadiness(env, w, acts, s);
      var n :| 0 <= n <= |acts| && Ready(Run(env, w, acts[..n]), s);
      ReadyMeansAnswered(env, w, acts, n, s);
    }
  }

  lemma FilledMeansAnswered(env: Env, required: seq<Id>, sub: Submission)
    requires SubSound(env, sub) && AllFilled(required, sub.values)
    ensures AnsweredAll(required, sub.answers)
  {
    forall f | f in required
      ensures exists i :: 0 <= i < |sub.answers| && sub.answers[i].field == f && !Blank(sub.answers[i].raw)
    {
      FilledIffAnswered(sub.answers, env.parseDate, f);
    }
  }

  predicate AnsweredAll(required: seq<Id>, answers: seq<Answer>) {
    forall f :: f in required ==> exists i :: 0 <= i < |answers| && answers[i].field == f && !Blank(answers[i].raw)
  }

  lemma AdminApprovesNoSubmission(env: Env, w: World, d: AdminAction, s: Id)
    requires Inv(env, w)
    ensures var v := AdminStep(env, w, d);
            s in v.subs && v.subs[s].status == APPROVED ==> s in w.subs && w.subs[s].status == APPROVED
  {
    if d.pid in w.procs {
      assert ProcSound(w, w.procs[d.pid]);
    }
  }

  /** A submission becomes approved in no other way than by the write of a check that decided so. */
  lemma OnlyChecksApprove(env: Env, w: World, a: Action, s: Id)
    requires Inv(env, w)
    requires s in Step(env, w, a).subs && Step(env, w, a).subs[s].status == APPROVED
    requires s in w.subs ==> w.subs[s].status != APPROVED
    ensures a.Check? && a.check.CheckWrite? && a.check.pid in w.procs
      && w.procs[a.check.pid] == CheckDecided(s, Approve)
  {
    match a
    case Check(c) =>
    case Administer(d) => AdminApprovesNoSubmission(env, w, d, s);
    case EditTemplate(_, _) =>
    case _ => StepIsQuiet(env, w, a);
  }
}
