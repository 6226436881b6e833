/** Runs showing that the side conditions of the protocol theorems are needed. */
module SignatureWitnesses {
  import opened Wrappers
  import opened JsText
  import opened SignatureData
  import opened StableSorting
  import opened FormApproval
  import opened DocumentHash
  import opened SignatureProtocol
  import opened SignatureRuns
  import opened SignatureTheorems

  /** Two signing-free requests that create a submission and leave its first check pending. */
  function CreateOne(s: Id, t: Id, internal: Option<bool>): seq<Action> {
    [EditTemplate(t, Template([], ONCE, internal)), Administer(CreateSubmission(0, s, [], t, [])), Tick(0)]
  }

  ghost predicate OneSubmission(w: World, s: Id, t: Id, internal: Option<bool>) {
    && w.now == 0 && w.tokens == [] && w.records == [] && w.procs == map[0 := CheckPending(s)]
    && w.templates == map[t := Template([], ONCE, internal)]
    && w.subs == map[s := Submission([], t, 0, [], [], SUBMITTED, None, None, None, None)]
  }

  lemma {:induction false} CreateOneState(env: Env, w: World, s: Id, t: Id, internal: Option<bool>)
    requires Initial(w) && w.now == 0 && w.templates == map[]
    ensures OneSubmission(Run(env, w, CreateOne(s, t, internal)), s, t, internal)
  {
    var acts := CreateOne(s, t, internal);
    RunThree(env, w, acts[0], acts[1], acts[2]);
    assert BuildValues([], env.parseDate) == [];
  }

  lemma {:induction false} ApproveNow(env: Env, w: World, s: Id)
    requires 0 in w.procs && w.procs[0] == CheckDecided(s, Approve) && s in w.subs
    ensures var v := Run(env, w, [Check(CheckWrite(0))]);
            v.tokens == w.tokens && s in v.subs && v.subs[s].status == APPROVED
  {
    RunOne(env, w, Check(CheckWrite(0)));
  }

  lemma {:induction false} ApproveAfterReissue(env: Env, w: World, s: Id, g: Id)
    requires w.procs == map[0 := CheckDecided(s, Approve)] && w.tokens == [] && s in w.subs && w.now == 0
    ensures var v := Run(env, w, IssueOne(1, s, g, 1000) + (IssueOne(2, s, g, 1000) + [Check(CheckWrite(0))]));
            |v.tokens| == 2 && v.tokens[0].submission == s && Dead(v.tokens[0]) && s in v.subs
              && v.subs[s].status == APPROVED
  {
    var a1, a2, a3 := IssueOne(1, s, g, 1000), IssueOne(2, s, g, 1000), [Check(CheckWrite(0))];
    RunSplits(env, w, a1, a2 + a3);
    IssueOneState(env, w, 1, s, g, 1000);
    var w1 := Run(env, w, a1);
    assert w1.tokens == [Token(s, g, SENT, 1000, None, None, 0)];
    RunSplits(env, w1, a2, a3);
    IssueOneState(env, w1, 2, s, g, 1000);
    ApproveNow(env, Run(env, w1, a2), s);
  }

  /** A check that decided before the token existed may still approve after the token was superseded. */
  lemma DecisionInFlightEscapesTheBlock(env: Env, w: World, s: Id, t: Id, g: Id) returns (acts: seq<Action>)
    requires Initial(w) && w.now == 0 && w.templates == map[]
    ensures var v := Run(env, w, acts);
            |v.tokens| == 2 && v.tokens[0].submission == s && Dead(v.tokens[0]) && s in v.subs
              && v.subs[s].status == APPROVED
  {
    var rest := IssueOne(1, s, g, 1000) + (IssueOne(2, s, g, 1000) + [Check(CheckWrite(0))]);
    acts := CreateOne(s, t, None) + ([Check(CheckRead(0))] + rest);
    RunSplits(env, w, CreateOne(s, t, None), [Check(CheckRead(0))] + rest);
    CreateOneState(env, w, s, t, None);
    var u := Run(env, w, CreateOne(s, t, None));
    RunFirst(env, u, Check(CheckRead(0)), rest);
    assert Decide(u.subs[s], s, u.templates[t], u.tokens, u.records) == Approve;
    var v := Step(env, u, Check(CheckRead(0)));
    assert v.procs == map[0 := CheckDecided(s, Approve)];
    ApproveAfterReissue(env, v, s, g);
  }

  lemma CommittedFirstToken(w: World, record: Record) returns (u: World)
    requires |w.tokens| == 1 && w.tokens[0].usedAt.None? && IsRecordOf(record, 0)
    ensures u == Committed(w, 6, record)
    ensures 5 in w.procs ==> 5 in u.procs && u.procs[5] == w.procs[5]
    ensures |u.tokens| == 1 && u.tokens[0].usedAt.Some? && HasRecord(u.records, 0)
  {
    u := Committed(w, 6, record);
    assert IsRecordOf(u.records[|w.records|], 0);
  }

  lemma CommitFirstToken(env: Env, w: World, s: Id, g: Id, stage: Stage, rest: seq<Action>) returns (u: World)
    requires 6 in w.procs && w.procs[6] == Signing(s, External(g, 0), stage) && stage.Hashed? && s in w.subs
    requires |w.tokens| == 1 && w.tokens[0].usedAt.None?
    ensures Run(env, w, [Commit(6)] + rest) == Run(env, u, rest)
    ensures 5 in w.procs ==> 5 in u.procs && u.procs[5] == w.procs[5]
    ensures |u.tokens| == 1 && u.tokens[0].usedAt.Some? && HasRecord(u.records, 0)
  {
    RunCommitFirst(env, w, 6, rest);
    var hash := StoredHash(env, w.subs[s], w.procs[6]);
    u := CommittedFirstToken(w, Record(s, External(g, 0), hash, HASH_VERSION, w.now));
  }

  /** A view that was loaded before the signing and writes after it leaves a signed token without SIGNED status. */
  lemma LateViewHidesSignature(env: Env, w: World, s: Id, t: Id, g: Id) returns (acts: seq<Action>)
    requires Initial(w) && w.now == 0 && w.templates == map[]
    ensures var v := Run(env, w, acts); |v.tokens| == 1 && HasRecord(v.records, 0) && Dead(v.tokens[0])
  {
    var rest := [View(BeginView(5, 0))] + (HashIt(6, 0) + ([Commit(6)] + [View(WriteView(5))]));
    acts := CreateOne(s, t, None) + (IssueOne(1, s, g, 1000) + rest);
    RunSplits(env, w, CreateOne(s, t, None), IssueOne(1, s, g, 1000) + rest);
    CreateOneState(env, w, s, t, None);
    var u := Run(env, w, CreateOne(s, t, None));
    RunSplits(env, u, IssueOne(1, s, g, 1000), rest);
    IssueOneState(env, u, 1, s, g, 1000);
    ViewAroundSigning(env, Run(env, u, IssueOne(1, s, g, 1000)));
  }

  lemma {:induction false} ViewAfterSigning(env: Env, w: World)
    requires 5 in w.procs && w.procs[5] == Viewing(0)
    requires |w.tokens| == 1 && w.tokens[0].usedAt.Some? && HasRecord(w.records, 0)
    ensures var v := Run(env, w, [View(WriteView(5))]); |v.tokens| == 1 && HasRecord(v.records, 0) && Dead(v.tokens[0])
  {
    RunOne(env, w, View(WriteView(5)));
  }

  lemma {:induction false} CommitThenView(env: Env, w: World, s: Id, g: Id, stage: Stage)
    requires 6 in w.procs && w.procs[6] == Signing(s, External(g, 0), stage) && stage.Hashed? && s in w.subs
    requires 5 in w.procs && w.procs[5] == Viewing(0)
    requires |w.tokens| == 1 && w.tokens[0].usedAt.None?
    ensures var v := Run(env, w, [Commit(6)] + [View(WriteView(5))]);
            |v.tokens| == 1 && HasRecord(v.records, 0) && Dead(v.tokens[0])
  {
    var u := CommitFirstToken(env, w, s, g, stage, [View(WriteView(5))]);
    ViewAfterSigning(env, u);
  }

  lemma {:induction false} SignWhileViewing(env: Env, w: World)
    requires |w.tokens| == 1 && Usable(w.tokens[0], w.now) && w.tokens[0].submission in w.subs
    requires 5 in w.procs && w.procs[5] == Viewing(0) && 6 !in w.procs
    ensures var v := Run(env, w, HashIt(6, 0) + ([Commit(6)] + [View(WriteView(5))]));
            |v.tokens| == 1 && HasRecord(v.records, 0) && Dead(v.tokens[0])
  {
    var t, stage := w.tokens[0], Hashed(w.now, w.tokens, w.records);
    RunSplits(env, w, HashIt(6, 0), [Commit(6)] + [View(WriteView(5))]);
    HashItState(env, w, 6, 0);
    CommitThenView(env, w.(procs := w.procs[6 := Signing(t.submission, External(t.signer, 0), stage)]), t.submission,
      t.signer, stage);
  }

  lemma {:induction false} ViewAroundSigning(env: Env, w: World)
    requires |w.tokens| == 1 && Usable(w.tokens[0], w.now) && w.tokens[0].link == SENT
             && w.tokens[0].submission in w.subs
    requires 5 !in w.procs && 6 !in w.procs
    ensures var v := Run(env, w, [View(BeginView(5, 0))] + (HashIt(6, 0) + ([Commit(6)] + [View(WriteView(5))])));
            |v.tokens| == 1 && HasRecord(v.records, 0) && Dead(v.tokens[0])
  {
    RunFirst(env, w, View(BeginView(5, 0)), HashIt(6, 0) + ([Commit(6)] + [View(WriteView(5))]));
    SignWhileViewing(env, Step(env, w, View(BeginView(5, 0))));
  }

  /** A run that is about to sign, with nothing issued or signed since the request read the rows. */
  ghost predicate SignsUndisturbed(env: Env, u: World, s: Id, tokens: seq<Token>) {
    && AboutToSign(env, u, 6) && u.procs[6].who.External? && NothingSinceRead(u, u.procs[6])
    && u.procs[6].submission == s && 2 !in u.procs
    && s in u.subs && u.subs[s].values == []
    && u.tokens == tokens && u.procs[6].stage == Hashed(0, tokens, []) && u.now == 0
  }

  lemma {:induction false} HashItIsUndisturbed(env: Env, w: World, s: Id)
    requires |w.tokens| > 0 && Usable(w.tokens[0], w.now) && s in w.subs && w.subs[s].values == [] && w.now == 0
    requires forall t :: 0 <= t < |w.tokens| ==> w.tokens[t].submission == s && w.tokens[t].createdAt == 0
    requires w.records == [] && 2 !in w.procs && 6 !in w.procs && Inv(env, Run(env, w, HashIt(6, 0)))
    ensures SignsUndisturbed(env, Run(env, w, HashIt(6, 0)), s, w.tokens)
  {
    HashItState(env, w, 6, 0);
  }

  function IssueAll(s: Id, signers: seq<Id>): seq<Action> {
    if signers == [] then [] else IssueOne(1, s, signers[0], 1000) + IssueAll(s, signers[1..])
  }

  function Invited(s: Id, signers: seq<Id>): seq<Token> {
    seq(|signers|, i requires 0 <= i < |signers| => Token(s, signers[i], SENT, 1000, None, None, 0))
  }

  /** A new submission, a token for each of the signers, and the first token about to be signed. */
  function InviteAndHash(s: Id, t: Id, signers: seq<Id>): seq<Action> {
    CreateOne(s, t, None) + (IssueAll(s, signers) + HashIt(6, 0))
  }

  lemma IssueNew(env: Env, w: World, s: Id, h: Id, signers: seq<Id>, rest: seq<Action>) returns (u: World)
    requires w.now == 0 && w.tokens == Invited(s, signers) && h !in signers && 1 !in w.procs && s in w.subs
    ensures u == w.(tokens := Invited(s, signers + [h]))
    ensures Run(env, w, IssueOne(1, s, h, 1000) + rest) == Run(env, u, rest)
  {
    RunSplits(env, w, IssueOne(1, s, h, 1000), rest);
    IssueOneState(env, w, 1, s, h, 1000);
    assert Invalidated(w.tokens, s, h, w.now) == w.tokens;
    u := w.(tokens := Invited(s, signers + [h]));
    assert Invited(s, signers + [h]) == w.tokens + [Token(s, h, SENT, 1000, None, None, 0)];
  }

  lemma {:induction false} IssueAllState(env: Env, w: World, s: Id, before: seq<Id>, signers: seq<Id>,
                                         rest: seq<Action>)
    returns (u: World)
    requires w.now == 0 && w.tokens == Invited(s, before) && 1 !in w.procs && s in w.subs
    requires forall i, j :: 0 <= i < j < |before + signers| ==> (before + signers)[i] != (before + signers)[j]
    ensures u == w.(tokens := Invited(s, before + signers))
    ensures Run(env, w, IssueAll(s, signers) + rest) == Run(env, u, rest)
    decreases |signers|
  {
    if signers == [] {
      assert before + signers == before && IssueAll(s, signers) + rest == rest;
      u := w;
    } else {
      var next := IssueOne(1, s, signers[0], 1000);
      assert IssueAll(s, signers) + rest == next + (IssueAll(s, signers[1..]) + rest);
      forall i | 0 <= i < |before| ensures before[i] != signers[0] {
        assert (before + signers)[i] != (before + signers)[|before|];
      }
      u := IssueNew(env, w, s, signers[0], before, IssueAll(s, signers[1..]) + rest);
      assert (before + [signers[0]]) + signers[1..] == before + signers;
      u := IssueAllState(env, u, s, before + [signers[0]], signers[1..], rest);
    }
  }

  lemma {:induction false} InviteAndHashState(env: Env, w: World, s: Id, t: Id, signers: seq<Id>)
    requires Initial(w) && w.now == 0 && w.templates == map[] && signers != []
    requires forall i, j :: 0 <= i < j < |signers| ==> signers[i] != signers[j]
    ensures SignsUndisturbed(env, Run(env, w, InviteAndHash(s, t, signers)), s, Invited(s, signers))
  {
    RunKeepsInv(env, w, InviteAndHash(s, t, signers));
    RunSplits(env, w, CreateOne(s, t, None), IssueAll(s, signers) + HashIt(6, 0));
    CreateOneState(env, w, s, t, None);
    var u := Run(env, w, CreateOne(s, t, None));
    assert u.tokens == Invited(s, []) && [] + signers == signers;
    u := IssueAllState(env, u, s, [], signers, HashIt(6, 0));
    HashItIsUndisturbed(env, u, s);
  }

  lemma {:induction false} InvitedExternals(dir: Directory, s: Id, signers: seq<Id>)
    ensures ExternalsAsOf(dir, Invited(s, signers), s, 0)
         == Mapped(signers, (g: Id) => Signer(dir.external(g).cedula, dir.external(g).nombre, Ascii("EXTERNAL")))
  {
    if signers != [] {
      var init := signers[..|signers| - 1];
      InvitedExternals(dir, s, init);
      assert Invited(s, signers)[..|signers| - 1] == Invited(s, init);
    }
  }

  /** What the request has read: the invited signers, in some order, and nothing else. */
  lemma RowsOfInvited(env: Env, u: World, s: Id, signers: seq<Id>) returns (shown: seq<Signer>)
    requires SignsUndisturbed(env, u, s, Invited(s, signers))
    ensures |shown| == |signers|
    ensures forall i :: 0 <= i < |signers| ==>
      shown[i].cedula == env.directory.external(signers[i]).cedula
        && shown[i].nombre == env.directory.external(signers[i]).nombre
    ensures var rows := RowsRead(env, u.subs[s], u.procs[6]);
            rows.values == [] && rows.internals == [] && multiset(rows.externals) == multiset(shown)
  {
    InvitedExternals(env.directory, s, signers);
    shown := ExternalsAsOf(env.directory, Invited(s, signers), s, 0);
    var rows := RowsRead(env, u.subs[s], u.procs[6]);
    assert |rows.values| == |multiset(rows.values)| && |rows.internals| == |multiset(rows.internals)|;
  }

  lemma OneSignerIsUntied(env: Env, u: World, s: Id, g: Id)
    requires SignsUndisturbed(env, u, s, Invited(s, [g]))
    ensures UntiedRows(env, u, 6)
  {
    var shown := RowsOfInvited(env, u, s, [g]);
    var rows := RowsRead(env, u.subs[s], u.procs[6]);
    assert |rows.externals| == |multiset(rows.externals)| == |multiset(shown)| == 1;
  }

  lemma NamesakesAreTied(env: Env, u: World, s: Id, g: Id, h: Id)
    requires SignsUndisturbed(env, u, s, Invited(s, [g, h])) && Collation(env.platform)
    requires env.directory.external(g).cedula == env.directory.external(h).cedula
    requires env.directory.external(g).nombre != env.directory.external(h).nombre
    ensures !UntiedRows(env, u, 6)
  {
    var shown := RowsOfInvited(env, u, s, [g, h]);
    assert Tied(shown[0], shown[1], ByCedula(env.platform)) && shown[0] != shown[1];
    if UntiedRows(env, u, 6) {
      TiesEqualInAnyOrder(RowsRead(env, u.subs[s], u.procs[6]).externals, shown, ByCedula(env.platform));
    }
  }

  /** With a collision-free digest, the same signature verifies once the clock has moved on, and does not, in any order
      of the rows, when a token is issued in its instant. */
  lemma SameInstantIssueHidesSignature(env: Env, w: World, s: Id, t: Id, g: Id) returns (acts: seq<Action>)
    requires Initial(w) && w.now == 0 && w.templates == map[]
    requires Injective(env.platform.sha256) && Collation(env.platform)
    ensures AboutToSign(env, Run(env, w, acts), 6)
    ensures VerifiesAfter(env, Run(env, w, acts), 6, [Tick(1)] + [])
    ensures !MayVerifyAfter(env, Run(env, w, acts), 6, IssueOne(2, s, g, 1000))
  {
    acts := InviteAndHash(s, t, [g]);
    InviteAndHashState(env, w, s, t, [g]);
    var u := Run(env, w, acts);
    OneSignerIsUntied(env, u, s, g);
    SignatureVerifiesIff(env, u, 6, 1, []);
    IssueInTheSameInstantBreaksIt(env, u, 6, 2, g, 1000);
  }

  /** Two external signers may share a cedula, one per work location. When their names differ, whether the signature of
      one verifies depends on the order in which the database returns the rows, however undisturbed it was. */
  lemma NamesakesBreakVerification(env: Env, w: World, s: Id, t: Id, g: Id, h: Id, elapsed: nat, rest: seq<Action>)
    returns (acts: seq<Action>)
    requires Initial(w) && w.now == 0 && w.templates == map[] && elapsed > 0
    requires Injective(env.platform.sha256) && Collation(env.platform)
    requires env.directory.external(g).cedula == env.directory.external(h).cedula
    requires env.directory.external(g).nombre != env.directory.external(h).nombre
    ensures var u := Run(env, w, acts);
            && AboutToSign(env, u, 6) && u.procs[6].who.External? && NothingSinceRead(u, u.procs[6])
            && MayVerifyAfter(env, u, 6, [Tick(elapsed)] + rest) && !VerifiesAfter(env, u, 6, [Tick(elapsed)] + rest)
  {
    acts := InviteAndHash(s, t, [g, h]);
    InviteAndHashState(env, w, s, t, [g, h]);
    var u := Run(env, w, acts);
    NamesakesAreTied(env, u, s, g, h);
    SignatureVerifiesIff(env, u, 6, elapsed, rest);
  }

  // ----- A check that read before an approval and writes after it -----

  lemma CommitWithOthers(env: Env, w: World, s: Id, user: Id, rest: seq<Action>) returns (u: World, record: Record)
    requires 1 in w.procs && w.procs[1].Signing? && w.procs[1].stage.Hashed? && s in w.subs && w.records == []
    requires w.procs[1].submission == s && w.procs[1].who == Internal(user)
    ensures record.submission == s && record.who == Internal(user)
    ensures u == w.(records := [record], procs := w.procs[1 := CheckPending(s)])
    ensures Run(env, w, [Commit(1)] + rest) == Run(env, u, rest)
  {
    RunCommitFirst(env, w, 1, rest);
    record := Record(s, Internal(user), StoredHash(env, w.subs[s], w.procs[1]), HASH_VERSION, w.now);
    u := Committed(w, 1, record);
  }

  function WriteBoth(): seq<Action> { [Check(CheckRead(1)), Check(CheckWrite(1)), Check(CheckWrite(0))] }

  lemma {:induction false} BothWrite(env: Env, w: World, s: Id, t: Id, record: Record)
    requires w.procs == map[0 := CheckDecided(s, AwaitSignatures), 1 := CheckPending(s)] && w.tokens == []
    requires w.records == [record] && record.submission == s && record.who.Internal?
    requires s in w.subs && w.subs[s].template == t && w.subs[s].status == SUBMITTED
    requires t in w.templates && w.templates[t] == Template([], ONCE, Some(true))
    ensures var v := Run(env, w, WriteBoth());
            v.procs == map[] && Ready(v, s) && v.subs[s].status == PENDING_SIGNATURES
  {
    RunThree(env, w, WriteBoth()[0], WriteBoth()[1], WriteBoth()[2]);
    assert InternallySigned(w.records, s) by { assert w.records[0].who.Internal?; }
    assert Decide(w.subs[s], s, w.templates[t], w.tokens, w.records) == Approve;
    var u := Step(env, w, Check(CheckRead(1)));
    assert u.procs[1] == CheckDecided(s, Approve);
    var v := Step(env, u, Check(CheckWrite(1)));
    assert v.procs == map[0 := CheckDecided(s, AwaitSignatures)] && v.subs[s].status == APPROVED;
  }

  lemma {:induction false} SignThenBothWrite(env: Env, w: World, s: Id, t: Id, user: Id)
    requires w.procs == map[0 := CheckDecided(s, AwaitSignatures)] && w.tokens == [] && w.records == []
    requires s in w.subs && w.subs[s].template == t && w.subs[s].status == SUBMITTED
    requires t in w.templates && w.templates[t] == Template([], ONCE, Some(true))
    ensures var v := Run(env, w, [Sign(BeginInternal(1, s, user))] + (ReadRows(1) + ([Commit(1)] + WriteBoth())));
            v.procs == map[] && Ready(v, s) && v.subs[s].status == PENDING_SIGNATURES
  {
    RunFirst(env, w, Sign(BeginInternal(1, s, user)), ReadRows(1) + ([Commit(1)] + WriteBoth()));
    var u := Step(env, w, Sign(BeginInternal(1, s, user)));
    RunSplits(env, u, ReadRows(1), [Commit(1)] + WriteBoth());
    ReadRowsState(env, u, 1);
    var v, record := CommitWithOthers(env, Run(env, u, ReadRows(1)), s, user, WriteBoth());
    BothWrite(env, v, s, t, record);
  }

  /** A check that decided to wait for signatures overwrites the approval that the signature brought: the submission is
      left waiting with everything complete and no request in flight. */
  lemma StaleCheckUndoesApproval(env: Env, w: World, s: Id, t: Id, user: Id) returns (acts: seq<Action>)
    requires Initial(w) && w.now == 0 && w.templates == map[]
    ensures var v := Run(env, w, acts); v.procs == map[] && Ready(v, s) && v.subs[s].status == PENDING_SIGNATURES
  {
    var signing := [Sign(BeginInternal(1, s, user))] + (ReadRows(1) + ([Commit(1)] + WriteBoth()));
    acts := CreateOne(s, t, Some(true)) + ([Check(CheckRead(0))] + signing);
    RunSplits(env, w, CreateOne(s, t, Some(true)), [Check(CheckRead(0))] + signing);
    CreateOneState(env, w, s, t, Some(true));
    var u := Run(env, w, CreateOne(s, t, Some(true)));
    RunFirst(env, u, Check(CheckRead(0)), signing);
    assert Decide(u.subs[s], s, u.templates[t], u.tokens, u.records) == AwaitSignatures;
    var v := Step(env, u, Check(CheckRead(0)));
    assert v.procs == map[0 := CheckDecided(s, AwaitSignatures)];
    SignThenBothWrite(env, v, s, t, user);
  }
}
