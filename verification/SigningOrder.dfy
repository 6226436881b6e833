/** Signing in any order, as stretches of a run of the protocol. */
module SigningOrder {
  import opened SignatureData
  import opened FormApproval
  import opened SignatureProtocol
  import opened SignatureRuns

  /** A request to sign the submission: through the link of a token, or as a user, some time after the one before. */
  datatype Visit = ByLink(elapsed: nat, token: nat) | ByUser(elapsed: nat, user: Id)

  function WhoOf(tokens: seq<Token>, v: Visit): SignedBy {
    match v
    case ByLink(_, t) => External(if t < |tokens| then tokens[t].signer else [], t)
    case ByUser(_, user) => Internal(user)
  }

  function WhosOf(tokens: seq<Token>, vs: seq<Visit>): seq<SignedBy> {
    seq(|vs|, i requires 0 <= i < |vs| => WhoOf(tokens, vs[i]))
  }

  function BeginOf(s: Id, v: Visit): SignAction {
    match v
    case ByLink(_, t) => BeginExternal(0, t)
    case ByUser(_, user) => BeginInternal(0, s, user)
  }

  function Stretch(s: Id, v: Visit): seq<Action> { [Tick(v.elapsed)] + SignOne(0, BeginOf(s, v)) }

  function Stretches(s: Id, vs: seq<Visit>): seq<Action> {
    if vs == [] then [] else Stretch(s, vs[0]) + Stretches(s, vs[1..])
  }

  function Duration(vs: seq<Visit>): nat {
    if vs == [] then 0 else vs[0].elapsed + Duration(vs[1..])
  }

  /** No link is older than its token when the last visit ends. */
  predicate Unexpired(w: World, vs: seq<Visit>) {
    forall i :: 0 <= i < |vs| ==> LinkLasts(w, vs[i], w.now + Duration(vs))
  }

  predicate Quiescent(w: World, s: Id) {
    w.procs == map[] && s in w.subs && w.subs[s].template in w.templates
  }

  function CaseOf(w: World, s: Id): Case
    requires Quiescent(w, s)
  {
    Case(w.subs[s], s, w.templates[w.subs[s].template], w.tokens, w.records)
  }

  lemma RowsSignedCase(w: World, s: Id, who: SignedBy, hash: Digest)
    requires Quiescent(w, s) && CanSign(CaseOf(w, s), who) && CommitSucceeds(w, s, who)
    ensures Quiescent(RowsSigned(w, s, who, hash), s)
    ensures CaseOf(RowsSigned(w, s, who, hash), s) == Signed(CaseOf(w, s), who, hash, w.now)
  {
  }

  lemma CheckedNowCase(w: World, s: Id)
    requires Quiescent(w, s)
    ensures Quiescent(CheckedNow(w, s), s) && CaseOf(CheckedNow(w, s), s) == CheckCase(CaseOf(w, s), w.now)
  {
  }

  /** The signing transition of one case is that of the protocol. */
  lemma SigningIsSignAndCheck(w: World, s: Id, who: SignedBy, hash: Digest)
    requires Quiescent(w, s) && CanSign(CaseOf(w, s), who) && CommitSucceeds(w, s, who)
    ensures Quiescent(SignedWith(w, s, who, hash), s)
    ensures CaseOf(SignedWith(w, s, who, hash), s) == SignAndCheck(CaseOf(w, s), SigningStep(who, hash, w.now))
  {
    RowsSignedCase(w, s, who, hash);
    CheckedNowCase(RowsSigned(w, s, who, hash), s);
  }

  /** The same tokens, but for their status. */
  ghost predicate SameLinks(w: World, v: World) {
    && |v.tokens| == |w.tokens|
    && forall t :: 0 <= t < |v.tokens| ==>
         v.tokens[t].signer == w.tokens[t].signer && v.tokens[t].expiresAt == w.tokens[t].expiresAt
  }

  lemma SigningKeepsLinks(w: World, s: Id, who: SignedBy, hash: Digest)
    requires s in w.subs && CommitSucceeds(w, s, who)
    ensures SameLinks(w, SignedWith(w, s, who, hash)) && SignedWith(w, s, who, hash).now == w.now
  {
  }

  predicate LinkLasts(w: World, v: Visit, until: Instant) {
    v.ByLink? && v.token < |w.tokens| ==> w.tokens[v.token].expiresAt >= until
  }

  lemma VisitSigns(env: Env, w: World, s: Id, v: Visit) returns (hash: Digest)
    requires Quiescent(w, s) && CanSign(CaseOf(w, s), WhoOf(w.tokens, v)) && LinkLasts(w, v, w.now)
    requires CommitSucceeds(w, s, WhoOf(w.tokens, v))
    ensures Run(env, w, SignOne(0, BeginOf(s, v))) == SignedWith(w, s, WhoOf(w.tokens, v), hash)
  {
    hash := HashNow(env, w, s, WhoOf(w.tokens, v));
    match v
    case ByLink(_, t) => SignExternalState(env, w, 0, t);
    case ByUser(_, user) => SignInternalState(env, w, 0, s, user);
  }

  lemma TimePasses(w: World, later: World, s: Id, v: Visit)
    requires Quiescent(w, s) && CanSign(CaseOf(w, s), WhoOf(w.tokens, v)) && LinkLasts(w, v, later.now)
    requires later == w.(now := later.now)
    ensures Quiescent(later, s) && CaseOf(later, s) == CaseOf(w, s) && LinkLasts(later, v, later.now)
    ensures CommitSucceeds(later, s, WhoOf(later.tokens, v))
  {
  }

  lemma TickFirst(env: Env, w: World, elapsed: nat, rest: seq<Action>) returns (later: World)
    ensures later == w.(now := w.now + elapsed) && Run(env, w, [Tick(elapsed)] + rest) == Run(env, later, rest)
  {
    RunFirst(env, w, Tick(elapsed), rest);
    later := w.(now := w.now + elapsed);
  }

  lemma VisitLater(env: Env, w: World, s: Id, v: Visit) returns (later: World, hash: Digest)
    requires Quiescent(w, s) && CanSign(CaseOf(w, s), WhoOf(w.tokens, v)) && LinkLasts(w, v, w.now + v.elapsed)
    ensures later == w.(now := w.now + v.elapsed) && CommitSucceeds(later, s, WhoOf(w.tokens, v))
    ensures Run(env, w, Stretch(s, v)) == SignedWith(later, s, WhoOf(w.tokens, v), hash)
  {
    later := TickFirst(env, w, v.elapsed, SignOne(0, BeginOf(s, v)));
    TimePasses(w, later, s, v);
    hash := VisitSigns(env, later, s, v);
  }

  lemma StretchState(env: Env, w: World, s: Id, v: Visit) returns (op: SigningStep, after: World)
    requires Quiescent(w, s) && CanSign(CaseOf(w, s), WhoOf(w.tokens, v)) && LinkLasts(w, v, w.now + v.elapsed)
    ensures after == Run(env, w, Stretch(s, v)) && Quiescent(after, s) && SameLinks(w, after)
      && after.now == w.now + v.elapsed
    ensures op.who == WhoOf(w.tokens, v) && CaseOf(after, s) == SignAndCheck(CaseOf(w, s), op)
  {
    var who := WhoOf(w.tokens, v);
    var later, hash := VisitLater(env, w, s, v);
    TimePasses(w, later, s, v);
    SigningIsSignAndCheck(later, s, who, hash);
    SigningKeepsLinks(later, s, who, hash);
    op := SigningStep(who, hash, later.now);
    after := SignedWith(later, s, who, hash);
  }

  lemma {:induction false} SignAllCons(c: Case, op: SigningStep, rest: seq<SigningStep>)
    requires CanSign(c, op.who) && AllSucceed(SignAndCheck(c, op), rest)
    ensures AllSucceed(c, [op] + rest) && SignAll(c, [op] + rest) == SignAll(SignAndCheck(c, op), rest)
    ensures Whos([op] + rest) == [op.who] + Whos(rest)
  {
    assert ([op] + rest)[1..] == rest;
  }

  /** A run of visits that can all sign is a list of signings of its case, by the same signers, and all succeed. */
  lemma {:induction false} RunIsSignAll(env: Env, w: World, s: Id, vs: seq<Visit>) returns (ops: seq<SigningStep>)
    requires Quiescent(w, s) && AllCanSign(CaseOf(w, s), WhosOf(w.tokens, vs)) && Unexpired(w, vs)
    ensures Whos(ops) == WhosOf(w.tokens, vs) && AllSucceed(CaseOf(w, s), ops)
    ensures Quiescent(Run(env, w, Stretches(s, vs)), s)
    ensures CaseOf(Run(env, w, Stretches(s, vs)), s) == SignAll(CaseOf(w, s), ops)
    decreases |vs|
  {
    if vs == [] {
      ops := [];
    } else {
      var op, v := FirstVisit(env, w, s, vs);
      RunSplits(env, w, Stretch(s, vs[0]), Stretches(s, vs[1..]));
      var rest := RunIsSignAll(env, v, s, vs[1..]);
      ops := [op] + rest;
      SignAllCons(CaseOf(w, s), op, rest);
    }
  }

  lemma RemainingVisits(w: World, v: World, vs: seq<Visit>)
    requires vs != [] && SameLinks(w, v) && v.now == w.now + vs[0].elapsed && Unexpired(w, vs)
    ensures WhosOf(w.tokens, vs) == [WhoOf(w.tokens, vs[0])] + WhosOf(v.tokens, vs[1..])
    ensures Unexpired(v, vs[1..]) && LinkLasts(w, vs[0], w.now + vs[0].elapsed)
  {
  }

  lemma FirstVisit(env: Env, w: World, s: Id, vs: seq<Visit>) returns (op: SigningStep, v: World)
    requires vs != [] && Quiescent(w, s) && AllCanSign(CaseOf(w, s), WhosOf(w.tokens, vs)) && Unexpired(w, vs)
    ensures v == Run(env, w, Stretch(s, vs[0])) && Quiescent(v, s)
    ensures CanSign(CaseOf(w, s), op.who) && CaseOf(v, s) == SignAndCheck(CaseOf(w, s), op)
    ensures WhosOf(w.tokens, vs) == [op.who] + WhosOf(v.tokens, vs[1..])
    ensures AllCanSign(CaseOf(v, s), WhosOf(v.tokens, vs[1..])) && Unexpired(v, vs[1..])
  {
    assert WhosOf(w.tokens, vs)[0] == WhoOf(w.tokens, vs[0]);
    assert LinkLasts(w, vs[0], w.now + Duration(vs));
    op, v := StretchState(env, w, s, vs[0]);
    RemainingVisits(w, v, vs);
    AllCanSignCons(CaseOf(w, s), op, WhosOf(v.tokens, vs[1..]));
  }

  /** From a state that waits for signatures with no request in flight: when a list of visits can all sign, the same
      signers in any other order, at any times before their links expire, sign as well and leave the same status. */
  lemma {:induction false} VisitOrderDoesNotMatter(env: Env, w: World, s: Id, vs: seq<Visit>, others: seq<Visit>)
    requires Quiescent(w, s) && w.subs[s].status == PENDING_SIGNATURES
    requires AllCanSign(CaseOf(w, s), WhosOf(w.tokens, vs))
             && multiset(WhosOf(w.tokens, vs)) == multiset(WhosOf(w.tokens, others))
    requires Unexpired(w, vs) && Unexpired(w, others)
    ensures var v, u := Run(env, w, Stretches(s, vs)), Run(env, w, Stretches(s, others));
            && s in v.subs && s in u.subs && u.subs[s].status == v.subs[s].status
            && |v.records| == |u.records| == |w.records| + |vs|
  {
    var c := CaseOf(w, s);
    PermutedCanSign(c, WhosOf(w.tokens, vs), WhosOf(w.tokens, others));
    var ops := RunIsSignAll(env, w, s, vs);
    var otherOps := RunIsSignAll(env, w, s, others);
    SigningOrderDoesNotMatter(c, ops, otherOps);
    assert |vs| == |multiset(Whos(ops))| == |multiset(Whos(otherOps))| == |others|;
    EachSigningRecords(c, ops);
    EachSigningRecords(c, otherOps);
  }

  lemma {:induction false} EachSigningRecords(c: Case, ops: seq<SigningStep>)
    requires AllSucceed(c, ops)
    ensures |SignAll(c, ops).records| == |c.records| + |ops|
    decreases |ops|
  {
    if ops != [] {
      EachSigningRecords(SignAndCheck(c, ops[0]), ops[1..]);
    }
  }
}
