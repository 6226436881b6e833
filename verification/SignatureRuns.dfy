/** Whole requests as uninterrupted stretches of a run. */
module SignatureRuns {
  import opened Wrappers
  import opened JsText
  import opened SignatureData
  import opened FormApproval
  import opened SignatureProtocol

  lemma {:induction false} RunSplits(env: Env, w: World, first: seq<Action>, rest: seq<Action>)
    ensures Run(env, w, first + rest) == Run(env, Run(env, w, first), rest)
    decreases |rest|
  {
    if rest == [] {
      assert first + rest == first;
    } else {
      var init := rest[..|rest| - 1];
      RunSplits(env, w, first, init);
      assert (first + rest)[..|first + rest| - 1] == first + init;
    }
  }

  lemma {:induction false} RunOne(env: Env, w: World, a: Action)
    ensures Run(env, w, [a]) == Step(env, w, a)
  {
    assert [a][..0] == [];
  }

  lemma {:induction false} RunFirst(env: Env, w: World, a: Action, rest: seq<Action>)
    ensures Run(env, w, [a] + rest) == Run(env, Step(env, w, a), rest)
  {
    RunSplits(env, w, [a], rest);
    RunOne(env, w, a);
  }

  lemma {:induction false} RunThree(env: Env, w: World, a: Action, b: Action, c: Action)
    ensures Run(env, w, [a, b, c]) == Step(env, Step(env, Step(env, w, a), b), c)
  {
    assert [a, b, c] == [a] + ([b] + [c]);
    RunFirst(env, w, a, [b] + [c]);
    RunFirst(env, Step(env, w, a), b, [c]);
    RunOne(env, Step(env, Step(env, w, a), b), c);
  }

  /** One complete issue of a token. */
  function IssueOne(pid: nat, s: Id, g: Id, expiresAt: Instant): seq<Action> {
    [Issue(BeginIssue(pid, s, g)), Issue(InvalidateOld(pid)), Issue(CreateToken(pid, expiresAt))]
  }

  lemma {:induction false} IssueOneState(env: Env, w: World, pid: nat, s: Id, g: Id, expiresAt: Instant)
    requires pid !in w.procs && s in w.subs
    ensures Run(env, w, IssueOne(pid, s, g, expiresAt))
         == w.(tokens := Invalidated(w.tokens, s, g, w.now) + [Token(s, g, SENT, expiresAt, None, None, w.now)])
  {
    var acts := IssueOne(pid, s, g, expiresAt);
    var w1 := Step(env, w, acts[0]);
    var w2 := Step(env, w1, acts[1]);
    var w3 := Step(env, w2, acts[2]);
    RunThree(env, w, acts[0], acts[1], acts[2]);
    assert w3.procs == w.procs;
  }

  /** One complete view of a token. */
  function ViewOne(pid: nat, t: nat): seq<Action> { [View(BeginView(pid, t))] + [View(WriteView(pid))] }

  lemma {:induction false} ViewOneState(env: Env, w: World, pid: nat, t: nat)
    requires pid !in w.procs && t < |w.tokens| && Usable(w.tokens[t], w.now) && w.tokens[t].link == SENT
    ensures Run(env, w, ViewOne(pid, t))
      == w.(tokens := w.tokens[t := w.tokens[t].(link := VIEWED, viewedAt := Some(w.now))])
  {
    RunFirst(env, w, View(BeginView(pid, t)), [View(WriteView(pid))]);
    var w1 := Step(env, w, View(BeginView(pid, t)));
    RunOne(env, w1, View(WriteView(pid)));
    assert w1.procs - {pid} == w.procs;
  }

  /** What a signing request reads to hash the document. */
  function ReadRows(pid: nat): seq<Action> { [Sign(TakeCutoff(pid)), Sign(ReadTokens(pid)), Sign(ReadRecords(pid))] }

  lemma {:induction false} ReadRowsState(env: Env, w: World, pid: nat)
    requires pid in w.procs && w.procs[pid].Signing? && w.procs[pid].stage.Loaded?
    ensures Run(env, w, ReadRows(pid))
      == w.(procs := w.procs[pid := w.procs[pid].(stage := Hashed(w.now, w.tokens, w.records))])
  {
    var acts := ReadRows(pid);
    var w1 := Step(env, w, acts[0]);
    var w2 := Step(env, w1, acts[1]);
    var w3 := Step(env, w2, acts[2]);
    RunThree(env, w, acts[0], acts[1], acts[2]);
    assert w3.procs == w.procs[pid := w3.procs[pid]];
  }

  /** From loading the token to being ready to commit. */
  function HashIt(pid: nat, t: nat): seq<Action> { [Sign(BeginExternal(pid, t))] + ReadRows(pid) }

  lemma {:induction false} HashItState(env: Env, w: World, pid: nat, t: nat)
    requires pid !in w.procs && t < |w.tokens| && Usable(w.tokens[t], w.now) && w.tokens[t].submission in w.subs
    ensures var token := w.tokens[t];
            Run(env, w, HashIt(pid, t)) ==
              w.(procs := w.procs[pid := Signing(token.submission, External(token.signer, t),
                Hashed(w.now, w.tokens, w.records))])
  {
    RunFirst(env, w, Sign(BeginExternal(pid, t)), ReadRows(pid));
    var w1 := Step(env, w, Sign(BeginExternal(pid, t)));
    ReadRowsState(env, w1, pid);
    assert w1.procs[pid := Signing(w.tokens[t].submission, External(w.tokens[t].signer, t),
      Hashed(w.now, w.tokens, w.records))]
        == w.procs[pid := Signing(w.tokens[t].submission, External(w.tokens[t].signer, t),
          Hashed(w.now, w.tokens, w.records))];
  }

  /** The transaction of a signing and the check that follows it. */
  function CommitAndCheck(pid: nat): seq<Action> { [Commit(pid)] + CheckOne(pid) }

  function CheckOne(pid: nat): seq<Action> { [Check(CheckRead(pid))] + [Check(CheckWrite(pid))] }

  /** The hash that a signing stores when nothing interrupts it. */
  function HashNow(env: Env, w: World, s: Id, who: SignedBy): Digest
    requires s in w.subs
  {
    StoredHash(env, w.subs[s], Signing(s, who, Hashed(w.now, w.tokens, w.records)))
  }

  function TokensSigned(w: World, who: SignedBy): seq<Token>
    requires who.External? ==> who.token < |w.tokens|
  {
    if who.External? then w.tokens[who.token := w.tokens[who.token].(usedAt := Some(w.now), link := SIGNED)]
      else w.tokens
  }

  /** The state after a submission has been checked when nothing interrupts it. */
  function CheckedNow(w: World, s: Id): World
    requires s in w.subs
  {
    if w.subs[s].template in w.templates
    then w.(subs := w.subs[s := Checked(w.subs[s], s, w.templates[w.subs[s].template], w.tokens, w.records, w.now)])
    else w
  }

  /** The rows right after the transaction of a signing. */
  function RowsSigned(w: World, s: Id, who: SignedBy, hash: Digest): World
    requires CommitSucceeds(w, s, who)
  {
    w.(tokens := TokensSigned(w, who), records := w.records + [Record(s, who, hash, HASH_VERSION, w.now)])
  }

  /** The state after a whole signing and its check. */
  function SignedWith(w: World, s: Id, who: SignedBy, hash: Digest): World
    requires s in w.subs && CommitSucceeds(w, s, who)
  {
    CheckedNow(RowsSigned(w, s, who, hash), s)
  }

  function SignedNow(env: Env, w: World, s: Id, who: SignedBy): World
    requires s in w.subs && CommitSucceeds(w, s, who)
  {
    SignedWith(w, s, who, HashNow(env, w, s, who))
  }

  /** The same rows with one request about to check the submission, or about to commit a signing. */
  function Awaiting(w: World, pid: nat, s: Id): World { w.(procs := map[pid := CheckPending(s)]) }

  function HashedOnly(w: World, pid: nat, s: Id, who: SignedBy): World {
    w.(procs := map[pid := Signing(s, who, Hashed(w.now, w.tokens, w.records))])
  }

  lemma CheckReadState(w: World, pid: nat, s: Id)
    requires s in w.subs && w.subs[s].template in w.templates
    ensures CheckStep(Awaiting(w, pid, s), CheckRead(pid))
         == w.(procs := map[pid := CheckDecided(s,
           Decide(w.subs[s], s, w.templates[w.subs[s].template], w.tokens, w.records))])
  {
  }

  lemma CheckWriteState(w: World, pid: nat, s: Id, verdict: Verdict)
    requires w.procs == map[] && s in w.subs
    ensures CheckStep(w.(procs := map[pid := CheckDecided(s, verdict)]), CheckWrite(pid))
         == w.(subs := w.subs[s := ApplyVerdict(w.subs[s], verdict, w.now)])
  {
    assert map[pid := CheckDecided(s, verdict)] - {pid} == w.procs;
  }

  lemma CheckNothing(w: World, pid: nat, s: Id)
    requires w.procs == map[] && s in w.subs && w.subs[s].template !in w.templates
    ensures CheckStep(CheckStep(Awaiting(w, pid, s), CheckRead(pid)), CheckWrite(pid)) == w
  {
    assert map[pid := CheckPending(s)] - {pid} == w.procs;
  }

  /** The two steps of a check, with nothing in between. */
  lemma {:induction false} CheckOneState(env: Env, w: World, pid: nat, s: Id)
    requires w.procs == map[] && s in w.subs
    ensures Run(env, Awaiting(w, pid, s), CheckOne(pid)) == CheckedNow(w, s)
  {
    RunFirst(env, Awaiting(w, pid, s), Check(CheckRead(pid)), [Check(CheckWrite(pid))]);
    RunOne(env, CheckStep(Awaiting(w, pid, s), CheckRead(pid)), Check(CheckWrite(pid)));
    if w.subs[s].template in w.templates {
      CheckReadState(w, pid, s);
      CheckWriteState(w, pid, s, Decide(w.subs[s], s, w.templates[w.subs[s].template], w.tokens, w.records));
    } else {
      CheckNothing(w, pid, s);
    }
  }

  /** A check that nothing interrupts, in closed form. */
  lemma {:induction false} CheckOneInClosedForm(env: Env, w: World, pid: nat, s: Id)
    requires w.procs == map[] && s in w.subs && w.subs[s].template in w.templates && SubSound(env, w.subs[s])
    ensures var v := Run(env, Awaiting(w, pid, s), CheckOne(pid));
            && s in v.subs && v == w.(subs := w.subs[s := v.subs[s]])
            && CheckedAs(w.subs[s], v.subs[s], s, w.templates[w.subs[s].template], w.tokens, w.records, w.now)
  {
    CheckOneState(env, w, pid, s);
    AnswersAreStored(w.subs[s].answers, env.parseDate);
    CheckInClosedForm(w.subs[s], s, w.templates[w.subs[s].template], w.tokens, w.records, w.now, env.parseDate);
  }

  // ----- Creating, rejecting and changing by hand -----

  /** A submission that is created and checked at once: its row holds the answers, and its status is that of the
      check. */
  lemma CreateOneState(env: Env, w: World, pid: nat, s: Id, org: Id, t: Id, answers: seq<Answer>)
    returns (sub: Submission)
    requires w.procs == map[] && s !in w.subs && t in w.templates && DistinctFields(answers)
    ensures sub.org == org && sub.template == t && sub.submittedAt == w.now && sub.answers == answers
    ensures sub.status == SUBMITTED && StoredFrom(sub.values, answers, env.parseDate)
    ensures sub.autoApprovedAt == sub.rejectedAt == None && sub.rejectedBy == sub.rejectionReason == None
    ensures var v := Run(env, w, [Administer(CreateSubmission(pid, s, org, t, answers))] + CheckOne(pid));
            && s in v.subs && v == w.(subs := w.subs[s := v.subs[s]])
            && CheckedAs(sub, v.subs[s], s, w.templates[t], w.tokens, w.records, w.now)
  {
    var create := Administer(CreateSubmission(pid, s, org, t, answers));
    var w1 := Step(env, w, create);
    sub := w1.subs[s];
    AnswersAreStored(answers, env.parseDate);
    RunFirst(env, w, create, CheckOne(pid));
    var u := w.(subs := w.subs[s := sub]);
    assert w1 == Awaiting(u, pid, s);
    CheckOneInClosedForm(env, u, pid, s);
    var v := Run(env, w1, CheckOne(pid));
    assert u.subs[s := v.subs[s]] == w.subs[s := v.subs[s]];
  }

  function RejectOne(pid: nat, s: Id, org: Id, admin: Id, reason: Text): seq<Action> {
    [Administer(BeginReject(pid, s, org, admin, reason))] + [Administer(WriteReject(pid))]
  }

  /** A rejection that nothing interrupts. */
  lemma {:induction false} RejectOneState(env: Env, w: World, pid: nat, s: Id, org: Id, admin: Id, reason: Text)
    requires w.procs == map[]
    ensures Run(env, w, RejectOne(pid, s, org, admin, reason)) ==
            if |Trim(reason)| >= 10 && s in w.subs && w.subs[s].org == org
               && w.subs[s].status in {SUBMITTED, PENDING_SIGNATURES} then
              w.(subs := w.subs[s := w.subs[s].(status := REJECTED, rejectedAt := Some(w.now),
                                                rejectedBy := Some(admin), rejectionReason := Some(Trim(reason)))])
            else w
  {
    var begin, write := Administer(BeginReject(pid, s, org, admin, reason)), Administer(WriteReject(pid));
    var w1 := Step(env, w, begin);
    RunFirst(env, w, begin, [write]);
    RunOne(env, w1, write);
    assert w1.procs - {pid} == map[];
  }

  function ChangeOne(pid: nat, s: Id, org: Id, status: Status): seq<Action> {
    [Administer(BeginChange(pid, s, org, status))] + [Administer(WriteChange(pid))]
  }

  /** A status set by hand: never approved or rejected, and nothing else of the submission changes. */
  lemma {:induction false} ChangeOneState(env: Env, w: World, pid: nat, s: Id, org: Id, status: Status)
    requires w.procs == map[]
    ensures Run(env, w, ChangeOne(pid, s, org, status)) ==
            if status !in {APPROVED, REJECTED} && s in w.subs && w.subs[s].org == org
            then w.(subs := w.subs[s := w.subs[s].(status := status)]) else w
  {
    var begin, write := Administer(BeginChange(pid, s, org, status)), Administer(WriteChange(pid));
    var w1 := Step(env, w, begin);
    RunFirst(env, w, begin, [write]);
    RunOne(env, w1, write);
    assert w1.procs - {pid} == map[];
  }

  // ----- Whole signings -----

  lemma CommittedForm(w: World, pid: nat, p: Proc, record: Record)
    requires CommitSucceeds(w, record.submission, record.who) && record.signedAt == w.now
    ensures Committed(w.(procs := map[pid := p]), pid, record)
         == w.(tokens := TokensSigned(w, record.who), records := w.records
           + [record], procs := map[pid := CheckPending(record.submission)])
  {
  }

  lemma CommitState(env: Env, w: World, pid: nat, s: Id, who: SignedBy) returns (hash: Digest, u: World)
    requires s in w.subs && CommitSucceeds(w, s, who)
    ensures hash == HashNow(env, w, s, who) && u == Awaiting(RowsSigned(w, s, who, hash), pid, s)
    ensures CommitStep(env, HashedOnly(w, pid, s, who), pid) == u
  {
    var p := Signing(s, who, Hashed(w.now, w.tokens, w.records));
    hash := StoredHash(env, w.subs[s], p);
    u := Awaiting(RowsSigned(w, s, who, hash), pid, s);
    CommittedForm(w, pid, p, Record(s, who, hash, HASH_VERSION, w.now));
  }

  lemma {:induction false} RunCommitFirst(env: Env, w: World, pid: nat, rest: seq<Action>)
    ensures Run(env, w, [Commit(pid)] + rest) == Run(env, CommitStep(env, w, pid), rest)
  {
    RunFirst(env, w, Commit(pid), rest);
  }

  lemma CommitFirst(env: Env, w: World, pid: nat, s: Id, who: SignedBy, rest: seq<Action>) returns (hash: Digest)
    requires s in w.subs && CommitSucceeds(w, s, who)
    ensures hash == HashNow(env, w, s, who)
    ensures Run(env, HashedOnly(w, pid, s, who), [Commit(pid)] + rest)
         == Run(env, Awaiting(RowsSigned(w, s, who, hash), pid, s), rest)
  {
    RunCommitFirst(env, HashedOnly(w, pid, s, who), pid, rest);
    var u;
    hash, u := CommitState(env, w, pid, s, who);
  }

  lemma CommitAndCheckState(env: Env, w: World, pid: nat, s: Id, who: SignedBy) returns (hash: Digest)
    requires w.procs == map[] && s in w.subs && CommitSucceeds(w, s, who)
    ensures hash == HashNow(env, w, s, who)
    ensures Run(env, HashedOnly(w, pid, s, who), CommitAndCheck(pid)) == SignedWith(w, s, who, hash)
  {
    hash := CommitFirst(env, w, pid, s, who, CheckOne(pid));
    CheckOneState(env, RowsSigned(w, s, who, hash), pid, s);
  }

  /** One complete signing, beginning with `begin`. */
  function SignOne(pid: nat, begin: SignAction): seq<Action> { [Sign(begin)] + (ReadRows(pid) + CommitAndCheck(pid)) }

  /** A signing up to its transaction. */
  lemma {:induction false} HashFirst(env: Env, w: World, pid: nat, begin: SignAction, s: Id, who: SignedBy,
                                     rest: seq<Action>)
    requires w.procs == map[] && Step(env, w, Sign(begin)) == w.(procs := map[pid := Signing(s, who, Loaded)])
    ensures Run(env, w, [Sign(begin)] + (ReadRows(pid) + rest)) == Run(env, HashedOnly(w, pid, s, who), rest)
  {
    RunFirst(env, w, Sign(begin), ReadRows(pid) + rest);
    var w1 := Step(env, w, Sign(begin));
    RunSplits(env, w1, ReadRows(pid), rest);
    ReadRowsState(env, w1, pid);
    assert Run(env, w1, ReadRows(pid)).procs == HashedOnly(w, pid, s, who).procs;
  }

  lemma {:induction false} SignOneState(env: Env, w: World, pid: nat, begin: SignAction, s: Id, who: SignedBy)
    requires w.procs == map[] && s in w.subs && CommitSucceeds(w, s, who)
    requires Step(env, w, Sign(begin)) == w.(procs := map[pid := Signing(s, who, Loaded)])
    ensures Run(env, w, SignOne(pid, begin)) == SignedNow(env, w, s, who)
  {
    HashFirst(env, w, pid, begin, s, who, CommitAndCheck(pid));
    var hash := CommitAndCheckState(env, w, pid, s, who);
  }

  lemma {:induction false} SignExternalState(env: Env, w: World, pid: nat, t: nat)
    requires w.procs == map[] && t < |w.tokens| && Usable(w.tokens[t], w.now) && w.tokens[t].submission in w.subs
    ensures Run(env, w, SignOne(pid, BeginExternal(pid, t)))
         == SignedNow(env, w, w.tokens[t].submission, External(w.tokens[t].signer, t))
  {
    SignOneState(env, w, pid, BeginExternal(pid, t), w.tokens[t].submission, External(w.tokens[t].signer, t));
  }

  lemma {:induction false} SignInternalState(env: Env, w: World, pid: nat, s: Id, user: Id)
    requires w.procs == map[] && s in w.subs && !AlreadySigned(w.records, s, user)
    ensures Run(env, w, SignOne(pid, BeginInternal(pid, s, user))) == SignedNow(env, w, s, Internal(user))
  {
    SignOneState(env, w, pid, BeginInternal(pid, s, user), s, Internal(user));
  }
}
