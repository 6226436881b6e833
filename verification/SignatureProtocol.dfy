/** Signing, viewing, re-issuing, checking, rejecting: every database access is one step,
    and the steps of different requests interleave freely. */
module SignatureProtocol {
  import opened Wrappers
  import opened JsText
  import opened SignatureData
  import opened FormApproval
  import opened StableSorting
  import opened DocumentHash

  /** How far a signing request has got with hashing the document. */
  datatype Stage =
    | Loaded
    | CutoffTaken(cutoff: Instant)
    | TokensRead(cutoff: Instant, tokens: seq<Token>)
    | Hashed(cutoff: Instant, tokens: seq<Token>, records: seq<Record>)

  /** A request in flight. */
  datatype Proc =
    | Issuing(submission: Id, signer: Id, invalidated: bool)
    | Viewing(token: nat)
    | Signing(submission: Id, who: SignedBy, stage: Stage)
    | CheckPending(submission: Id)
    | CheckDecided(submission: Id, verdict: Verdict)
    | Rejecting(submission: Id, admin: Id, reason: Text)
    | ChangingStatus(submission: Id, status: Status)

  datatype World = World(
    now: Instant,
    tokens: seq<Token>,
    records: seq<Record>,
    subs: map<Id, Submission>,
    templates: map<Id, Template>,
    procs: map<nat, Proc>)

  /** What stays fixed during a run, with the order in which the database returns rows to a signing request: a signer
      has at most one record of a submission, so every choice of orders for the records of a run is one such
      function. */
  datatype Env = Env(
    platform: Platform,
    directory: Directory,
    parseDate: Text -> Option<Instant>,
    fieldLabel: Id -> Text,
    templateName: Id -> Text,
    order: (Id, SignedBy, Stage) -> Rows)

  datatype IssueAction =
    | BeginIssue(pid: nat, submission: Id, signer: Id)
    | InvalidateOld(pid: nat)
    | CreateToken(pid: nat, expiresAt: Instant)

  datatype ViewAction =
    | BeginView(pid: nat, token: nat)
    | WriteView(pid: nat)

  datatype SignAction =
    | BeginExternal(pid: nat, token: nat)
    | BeginInternal(pid: nat, submission: Id, user: Id)
    | TakeCutoff(pid: nat)
    | ReadTokens(pid: nat)
    | ReadRecords(pid: nat)

  datatype CheckAction =
    | CheckRead(pid: nat)
    | CheckWrite(pid: nat)

  datatype AdminAction =
    | BeginReject(pid: nat, submission: Id, org: Id, admin: Id, reason: Text)
    | WriteReject(pid: nat)
    | BeginChange(pid: nat, submission: Id, org: Id, status: Status)
    | WriteChange(pid: nat)
    | CreateSubmission(pid: nat, submission: Id, org: Id, template: Id, answers: seq<Answer>)

  datatype Action =
    | Tick(elapsed: nat)
    | EditTemplate(template: Id, edited: Template)
    | Abort(pid: nat)
    | Issue(issue: IssueAction)
    | View(view: ViewAction)
    | Sign(sign: SignAction)
    | Commit(pid: nat)
    | Check(check: CheckAction)
    | Administer(admin: AdminAction)

  // ----- Steps -----

  predicate Usable(t: Token, now: Instant) {
    t.usedAt.None? && !(t.expiresAt < now)
  }

  predicate SupersededBy(t: Token, submission: Id, signer: Id) {
    t.submission == submission && t.signer == signer && t.usedAt.None?
  }

  function Invalidated(tokens: seq<Token>, submission: Id, signer: Id, now: Instant): (r: seq<Token>)
    ensures |r| == |tokens|
    ensures forall i :: 0 <= i < |tokens| ==>
      r[i] == if SupersededBy(tokens[i], submission, signer) then tokens[i].(usedAt := Some(now)) else tokens[i]
  {
    seq(|tokens|, i requires 0 <= i < |tokens| =>
      if SupersededBy(tokens[i], submission, signer) then tokens[i].(usedAt := Some(now)) else tokens[i])
  }

  function BodyOf(env: Env, id: Id, sub: Submission): Body {
    Body(id, sub.org, env.templateName(sub.template), sub.submittedAt,
         Mapped(sub.values, (v: ValueRow) => LabelledValue(v, env.fieldLabel(v.field))))
  }

  function Start(w: World, pid: nat, p: Proc): World {
    w.(procs := w.procs[pid := p])
  }

  function Finish(w: World, pid: nat): World {
    w.(procs := w.procs - {pid})
  }

  predicate AlreadySigned(records: seq<Record>, submission: Id, user: Id) {
    exists k :: 0 <= k < |records| && records[k].submission == submission && records[k].who == Internal(user)
  }

  /** The transaction of a signing: an external token is consumed only if it is still unused,
      an internal record is created only if the user has none. */
  predicate CommitSucceeds(w: World, submission: Id, who: SignedBy) {
    match who
    case External(_, t) => t < |w.tokens| && w.tokens[t].usedAt.None?
    case Internal(user) => !AlreadySigned(w.records, submission, user)
  }

  /** The rows of the submission stamped by an instant, in table order. */
  function TableRows(env: Env, id: Id, sub: Submission, tokens: seq<Token>, records: seq<Record>, asOf: Instant): Rows {
    RowsAsOf(env.directory, BodyOf(env, id, sub), tokens, records, asOf)
  }

  /** The rows a signing request has read, in the order it got them. */
  function RowsRead(env: Env, sub: Submission, p: Proc): Rows
    requires p.Signing? && p.stage.Hashed?
  {
    Returned(env.order(p.submission, p.who, p.stage),
             TableRows(env, p.submission, sub, p.stage.tokens, p.stage.records, p.stage.cutoff))
  }

  /** The hash a signing request computes from the rows it has read. */
  function StoredHash(env: Env, sub: Submission, p: Proc): Digest
    requires p.Signing? && p.stage.Hashed?
  {
    HashOf(env.platform, BodyOf(env, p.submission, sub), RowsRead(env, sub, p))
  }

  function Committed(w: World, pid: nat, record: Record): World
    requires CommitSucceeds(w, record.submission, record.who)
  {
    var tokens := if record.who.External?
      then w.tokens[record.who.token := w.tokens[record.who.token].(usedAt := Some(w.now), link := SIGNED)]
      else w.tokens;
    Start(w.(tokens := tokens, records := w.records + [record]), pid, CheckPending(record.submission))
  }

  function IssueStep(w: World, a: IssueAction): World {
    match a
    case BeginIssue(pid, s, signer) =>
      if pid !in w.procs && s in w.subs then Start(w, pid, Issuing(s, signer, false)) else w
    case InvalidateOld(pid) =>
      if pid in w.procs && w.procs[pid].Issuing? && !w.procs[pid].invalidated then
        var p := w.procs[pid];
        Start(w.(tokens := Invalidated(w.tokens, p.submission, p.signer, w.now)), pid, p.(invalidated := true))
      else w
    case CreateToken(pid, expiresAt) =>
      if pid in w.procs && w.procs[pid].Issuing? && w.procs[pid].invalidated then
        var p := w.procs[pid];
        Finish(w.(tokens := w.tokens + [Token(p.submission, p.signer, SENT, expiresAt, None, None, w.now)]), pid)
      else w
  }

  function ViewStep(w: World, a: ViewAction): World {
    match a
    case BeginView(pid, t) =>
      if pid !in w.procs && t < |w.tokens| && Usable(w.tokens[t], w.now) && w.tokens[t].link == SENT
      then Start(w, pid, Viewing(t)) else w
    case WriteView(pid) =>
      if pid in w.procs && w.procs[pid].Viewing? && w.procs[pid].token < |w.tokens| then
        var t := w.procs[pid].token;
        Finish(w.(tokens := w.tokens[t := w.tokens[t].(link := VIEWED, viewedAt := Some(w.now))]), pid)
      else w
  }

  function SignStep(w: World, a: SignAction): World {
    match a
    case BeginExternal(pid, t) =>
      if pid !in w.procs && t < |w.tokens| && Usable(w.tokens[t], w.now) && w.tokens[t].submission in w.subs
      then Start(w, pid, Signing(w.tokens[t].submission, External(w.tokens[t].signer, t), Loaded)) else w
    case BeginInternal(pid, s, user) =>
      if pid !in w.procs && s in w.subs && !AlreadySigned(w.records, s, user)
      then Start(w, pid, Signing(s, Internal(user), Loaded)) else w
    case TakeCutoff(pid) =>
      if pid in w.procs && w.procs[pid].Signing? && w.procs[pid].stage.Loaded?
      then Start(w, pid, w.procs[pid].(stage := CutoffTaken(w.now))) else w
    case ReadTokens(pid) =>
      if pid in w.procs && w.procs[pid].Signing? && w.procs[pid].stage.CutoffTaken?
      then Start(w, pid, w.procs[pid].(stage := TokensRead(w.procs[pid].stage.cutoff, w.tokens))) else w
    case ReadRecords(pid) =>
      if pid in w.procs && w.procs[pid].Signing? && w.procs[pid].stage.TokensRead?
      then Start(w, pid,
        w.procs[pid].(stage := Hashed(w.procs[pid].stage.cutoff, w.procs[pid].stage.tokens, w.records))) else w
  }

  function CommitStep(env: Env, w: World, pid: nat): World {
    if pid in w.procs && w.procs[pid].Signing? && w.procs[pid].stage.Hashed? && w.procs[pid].submission in w.subs then
      var p := w.procs[pid];
      if CommitSucceeds(w, p.submission, p.who) then
        Committed(w, pid, Record(p.submission, p.who, StoredHash(env, w.subs[p.submission], p), HASH_VERSION, w.now))
      else Finish(w, pid)
    else w
  }

  function CheckStep(w: World, a: CheckAction): World {
    match a
    case CheckRead(pid) =>
      if pid in w.procs && w.procs[pid].CheckPending? then
        var s := w.procs[pid].submission;
        if s in w.subs && w.subs[s].template in w.templates then
          Start(w, pid, CheckDecided(s, Decide(w.subs[s], s, w.templates[w.subs[s].template], w.tokens, w.records)))
        else Finish(w, pid)
      else w
    case CheckWrite(pid) =>
      if pid in w.procs && w.procs[pid].CheckDecided? then
        var p := w.procs[pid];
        if p.submission in w.subs then
          Finish(w.(subs := w.subs[p.submission := ApplyVerdict(w.subs[p.submission], p.verdict, w.now)]), pid)
        else Finish(w, pid)
      else w
  }

  function AdminStep(env: Env, w: World, a: AdminAction): World {
    match a
    case BeginReject(pid, s, org, admin, reason) =>
      if pid !in w.procs && AcceptableReason(reason) && s in w.subs && w.subs[s].org == org
        && Processable(w.subs[s].status)
      then Start(w, pid, Rejecting(s, admin, reason)) else w
    case WriteReject(pid) =>
      if pid in w.procs && w.procs[pid].Rejecting? && w.procs[pid].submission in w.subs then
        var p := w.procs[pid];
        Finish(w.(subs := w.subs[p.submission := Rejected(w.subs[p.submission], p.admin, p.reason, w.now)]), pid)
      else w
    case BeginChange(pid, s, org, status) =>
      if pid !in w.procs && !status.APPROVED? && !status.REJECTED? && s in w.subs && w.subs[s].org == org
      then Start(w, pid, ChangingStatus(s, status)) else w
    case WriteChange(pid) =>
      if pid in w.procs && w.procs[pid].ChangingStatus? && w.procs[pid].submission in w.subs then
        var p := w.procs[pid];
        Finish(w.(subs := w.subs[p.submission := w.subs[p.submission].(status := p.status)]), pid)
      else w
    case CreateSubmission(pid, s, org, t, answers) =>
      if pid !in w.procs && s !in w.subs && t in w.templates && DistinctFields(answers) then
        var sub := Submission(org, t, w.now, answers, BuildValues(answers, env.parseDate), SUBMITTED, None, None, None,
          None);
        Start(w.(subs := w.subs[s := sub]), pid, CheckPending(s))
      else w
  }

  /** One step; an action that is not enabled changes nothing. */
  function Step(env: Env, w: World, a: Action): World {
    match a
    case Tick(elapsed) => w.(now := w.now + elapsed)
    case EditTemplate(t, edited) => w.(templates := w.templates[t := edited])
    case Abort(pid) => Finish(w, pid)
    case Issue(i) => IssueStep(w, i)
    case View(v) => ViewStep(w, v)
    case Sign(s) => SignStep(w, s)
    case Commit(pid) => CommitStep(env, w, pid)
    case Check(c) => CheckStep(w, c)
    case Administer(d) => AdminStep(env, w, d)
  }

  /** The state after a sequence of actions: any sequence is a run. */
  function Run(env: Env, w: World, acts: seq<Action>): World {
    if acts == [] then w else Step(env, Run(env, w, acts[..|acts| - 1]), acts[|acts| - 1])
  }

  // ----- What every run keeps -----

  predicate IsRecordOf(r: Record, t: nat) { r.who.External? && r.who.token == t }

  ghost predicate HasRecord(records: seq<Record>, t: nat) {
    exists k :: 0 <= k < |records| && IsRecordOf(records[k], t)
  }

  ghost predicate TokenSound(w: World, t: nat)
    requires t < |w.tokens|
  {
    && w.tokens[t].createdAt <= w.now
    && (w.tokens[t].link == SIGNED ==> w.tokens[t].usedAt.Some? && HasRecord(w.records, t))
  }

  ghost predicate RecordSound(w: World, r: Record) {
    && r.signedAt <= w.now
    && r.submission in w.subs
    && (r.who.External? ==>
          && r.who.token < |w.tokens|
          && w.tokens[r.who.token].usedAt.Some?
          && w.tokens[r.who.token].submission == r.submission
          && w.tokens[r.who.token].signer == r.who.signer)
  }

  /** No token and no user of a submission has two records. */
  ghost predicate RecordsUnique(records: seq<Record>) {
    forall j, k :: 0 <= j < k < |records| ==> !SameSigning(records[j], records[k])
  }

  predicate SameSigning(a: Record, b: Record) {
    (a.who.External? && b.who.External? && a.who.token == b.who.token) ||
    (a.who.Internal? && a.who == b.who && a.submission == b.submission)
  }

  ghost predicate StageSound(w: World, s: Stage) {
    && (!s.Loaded? ==> s.cutoff <= w.now)
    && (s.TokensRead? || s.Hashed? ==> TokensExtend(s.tokens, w.tokens))
    && (s.Hashed? ==> s.records <= w.records)
  }

  ghost predicate ProcSound(w: World, p: Proc) {
    match p
    case Signing(s, who, stage) =>
      && s in w.subs
      && StageSound(w, stage)
      && (who.External? ==>
            who.token < |w.tokens| && w.tokens[who.token].submission == s && w.tokens[who.token].signer == who.signer)
    case Rejecting(_, _, reason) => AcceptableReason(reason)
    case ChangingStatus(_, status) => !status.APPROVED? && !status.REJECTED?
    case _ => true
  }

  ghost predicate SubSound(env: Env, sub: Submission) {
    StatusSound(sub) && DistinctFields(sub.answers) && sub.values == BuildValues(sub.answers, env.parseDate)
  }

  ghost predicate Inv(env: Env, w: World) {
    && (forall t :: 0 <= t < |w.tokens| ==> TokenSound(w, t))
    && (forall k :: 0 <= k < |w.records| ==> RecordSound(w, w.records[k]))
    && RecordsUnique(w.records)
    && (forall pid :: pid in w.procs ==> ProcSound(w, w.procs[pid]))
    && (forall s :: s in w.subs ==> SubSound(env, w.subs[s]))
  }

  // ----- How a state relates to every later one -----

  ghost predicate TokenGrows(t: Token, u: Token) {
    && u.submission == t.submission && u.signer == t.signer && u.createdAt == t.createdAt && u.expiresAt == t.expiresAt
    && (t.usedAt.Some? ==> u.usedAt == t.usedAt)
    && (t.usedAt.Some? && t.link != SIGNED ==> u.link != SIGNED)
  }

  ghost predicate SubGrows(s: Submission, u: Submission) {
    u.org == s.org && u.template == s.template && u.submittedAt == s.submittedAt && u.answers == s.answers
      && u.values == s.values
  }

  ghost predicate NewRecordSound(w: World, r: Record) {
    && r.signedAt >= w.now
    && (r.who.External? && r.who.token < |w.tokens| ==> w.tokens[r.who.token].usedAt.None?)
  }

  /** `v` is later than `w`: rows are only added, a consumed token stays consumed,
      and a token that was consumed before has no new record. */
  ghost predicate Grows(w: World, v: World) {
    && w.now <= v.now
    && |w.tokens| <= |v.tokens|
    && (forall t :: 0 <= t < |w.tokens| ==> TokenGrows(w.tokens[t], v.tokens[t]))
    && (forall t :: |w.tokens| <= t < |v.tokens| ==> v.tokens[t].createdAt >= w.now)
    && w.records <= v.records
    && (forall k :: |w.records| <= k < |v.records| ==> NewRecordSound(w, v.records[k]))
    && (forall s :: s in w.subs ==> s in v.subs && SubGrows(w.subs[s], v.subs[s]))
  }

  /** A step that signs nothing: no record is added and no link becomes SIGNED. */
  ghost predicate Calm(w: World, v: World) {
    && w.now <= v.now
    && v.records == w.records
    && |w.tokens| <= |v.tokens|
    && (forall t :: 0 <= t < |w.tokens| ==>
          TokenGrows(w.tokens[t], v.tokens[t])
            && (v.tokens[t].link == SIGNED ==> w.tokens[t].link == SIGNED && w.tokens[t].usedAt == v.tokens[t].usedAt))
    && (forall t :: |w.tokens| <= t < |v.tokens| ==> v.tokens[t].link != SIGNED && v.tokens[t].createdAt == v.now)
    && (forall s :: s in w.subs ==> s in v.subs && SubGrows(w.subs[s], v.subs[s]))
  }

  lemma IssueIsCalm(env: Env, w: World, a: IssueAction)
    requires Inv(env, w)
    ensures Calm(w, IssueStep(w, a))
  {
    forall t | 0 <= t < |w.tokens| ensures w.tokens[t].usedAt.None? ==> w.tokens[t].link != SIGNED {
      assert TokenSound(w, t);
    }
  }

  lemma ViewIsCalm(w: World, a: ViewAction)
    ensures Calm(w, ViewStep(w, a))
  {
  }

  lemma SignIsCalm(w: World, a: SignAction)
    ensures Calm(w, SignStep(w, a))
  {
  }

  lemma CheckIsCalm(w: World, a: CheckAction)
    ensures Calm(w, CheckStep(w, a))
  {
  }

  lemma AdminIsCalm(env: Env, w: World, a: AdminAction)
    ensures Calm(w, AdminStep(env, w, a))
  {
  }

  lemma StepIsCalm(env: Env, w: World, a: Action)
    requires Inv(env, w)
    ensures !a.Commit? ==> Calm(w, Step(env, w, a))
  {
    match a
    case Issue(i) => IssueIsCalm(env, w, i);
    case View(v) => ViewIsCalm(w, v);
    case Sign(s) => SignIsCalm(w, s);
    case Check(c) => CheckIsCalm(w, c);
    case Administer(d) => AdminIsCalm(env, w, d);
    case _ =>
  }

  lemma CommittedGrows(w: World, pid: nat, record: Record)
    requires CommitSucceeds(w, record.submission, record.who) && record.signedAt == w.now
    ensures Grows(w, Committed(w, pid, record))
  {
  }

  lemma CommitGrows(env: Env, w: World, pid: nat)
    ensures Grows(w, CommitStep(env, w, pid))
  {
    if pid in w.procs && w.procs[pid].Signing? && w.procs[pid].stage.Hashed? && w.procs[pid].submission in w.subs {
      var p := w.procs[pid];
      if CommitSucceeds(w, p.submission, p.who) {
        CommittedGrows(w, pid,
          Record(p.submission, p.who, StoredHash(env, w.subs[p.submission], p), HASH_VERSION, w.now));
      }
    }
  }

  lemma StepGrows(env: Env, w: World, a: Action)
    requires Inv(env, w)
    ensures Grows(w, Step(env, w, a))
  {
    if a.Commit? {
      CommitGrows(env, w, a.pid);
    } else {
      StepIsCalm(env, w, a);
    }
  }

  lemma GrowsIsTransitive(u: World, v: World, w: World)
    requires Grows(u, v) && Grows(v, w)
    ensures Grows(u, w)
  {
  }

  lemma {:induction false} RunGrows(env: Env, w: World, acts: seq<Action>)
    requires Inv(env, w)
    ensures Grows(w, Run(env, w, acts))
  {
    if acts != [] {
      var init := acts[..|acts| - 1];
      RunGrows(env, w, init);
      RunKeepsInv(env, w, init);
      StepGrows(env, Run(env, w, init), acts[|acts| - 1]);
      GrowsIsTransitive(w, Run(env, w, init), Run(env, w, acts));
    }
  }

  // ----- The invariant -----

  lemma GrowingKeepsProc(w: World, v: World, p: Proc)
    requires Grows(w, v) && ProcSound(w, p)
    ensures ProcSound(v, p)
  {
  }

  /** Every request in flight after a step was in flight before it, or is sound on its own. */
  ghost predicate ProcsFrom(w: World, v: World) {
    forall pid :: pid in v.procs ==> (pid in w.procs && v.procs[pid] == w.procs[pid]) || ProcSound(v, v.procs[pid])
  }

  lemma IssueProcs(w: World, a: IssueAction)
    ensures ProcsFrom(w, IssueStep(w, a))
  {
  }

  lemma SignProcs(env: Env, w: World, a: SignAction)
    requires Inv(env, w)
    ensures ProcsFrom(w, SignStep(w, a))
  {
    if a.pid in w.procs {
      assert ProcSound(w, w.procs[a.pid]);
    }
  }

  lemma CommitProcs(env: Env, w: World, pid: nat)
    ensures ProcsFrom(w, CommitStep(env, w, pid))
  {
  }

  lemma CheckProcs(w: World, a: CheckAction)
    ensures ProcsFrom(w, CheckStep(w, a))
  {
  }

  lemma AdminProcs(env: Env, w: World, a: AdminAction)
    ensures ProcsFrom(w, AdminStep(env, w, a))
  {
  }

  lemma StepKeepsProcs(env: Env, w: World, a: Action)
    requires Inv(env, w)
    ensures var v := Step(env, w, a); forall pid :: pid in v.procs ==> ProcSound(v, v.procs[pid])
  {
    match a {
      case Issue(i) => IssueProcs(w, i);
      case Sign(s) => SignProcs(env, w, s);
      case Commit(pid) => CommitProcs(env, w, pid);
      case Check(c) => CheckProcs(w, c);
      case Administer(d) => AdminProcs(env, w, d);
      case _ =>
    }
    var v := Step(env, w, a);
    StepGrows(env, w, a);
    assert ProcsFrom(w, v);
    forall pid | pid in v.procs ensures ProcSound(v, v.procs[pid]) {
      if pid in w.procs && v.procs[pid] == w.procs[pid] {
        GrowingKeepsProc(w, v, w.procs[pid]);
      }
    }
  }

  lemma CalmKeepsTokensAndRecords(env: Env, w: World, v: World)
    requires Inv(env, w) && Calm(w, v)
    ensures forall t :: 0 <= t < |v.tokens| ==> TokenSound(v, t)
    ensures forall k :: 0 <= k < |v.records| ==> RecordSound(v, v.records[k])
  {
    forall t | 0 <= t < |v.tokens| ensures TokenSound(v, t) {
      if t < |w.tokens| {
        assert TokenSound(w, t) && TokenGrows(w.tokens[t], v.tokens[t]);
      }
    }
    forall k | 0 <= k < |v.records| ensures RecordSound(v, v.records[k]) {
      assert RecordSound(w, w.records[k]);
      if w.records[k].who.External? {
        assert TokenGrows(w.tokens[w.records[k].who.token], v.tokens[w.records[k].who.token]);
      }
    }
  }

  lemma RecordsStayWith(records: seq<Record>, more: seq<Record>, t: nat)
    requires records <= more
    ensures HasRecord(records, t) ==> HasRecord(more, t)
  {
  }

  lemma CommittedKeepsTokensAndRecords(env: Env, w: World, pid: nat, record: Record)
    requires Inv(env, w)
    requires CommitSucceeds(w, record.submission, record.who) && record.signedAt == w.now && record.submission in w.subs
    requires record.who.External? ==> w.tokens[record.who.token].submission == record.submission
                                      && w.tokens[record.who.token].signer == record.who.signer
    ensures var v := Committed(w, pid, record);
            && (forall t :: 0 <= t < |v.tokens| ==> TokenSound(v, t))
            && (forall k :: 0 <= k < |v.records| ==> RecordSound(v, v.records[k]))
            && RecordsUnique(v.records)
  {
    var v := Committed(w, pid, record);
    assert v.records[|w.records|] == record;
    forall t | 0 <= t < |v.tokens| ensures TokenSound(v, t) {
      assert TokenSound(w, t);
      RecordsStayWith(w.records, v.records, t);
      assert record.who.External? && record.who.token == t ==> IsRecordOf(v.records[|w.records|], t);
    }
    forall k | 0 <= k < |w.records| ensures RecordSound(v, w.records[k]) && !SameSigning(w.records[k], record) {
      assert RecordSound(w, w.records[k]);
    }
  }

  lemma CommitKeepsTokensAndRecords(env: Env, w: World, pid: nat)
    requires Inv(env, w)
    ensures var v := CommitStep(env, w, pid);
            && (forall t :: 0 <= t < |v.tokens| ==> TokenSound(v, t))
            && (forall k :: 0 <= k < |v.records| ==> RecordSound(v, v.records[k]))
            && RecordsUnique(v.records)
  {
    if pid in w.procs && w.procs[pid].Signing? && w.procs[pid].stage.Hashed? && w.procs[pid].submission in w.subs {
      var p := w.procs[pid];
      assert ProcSound(w, p);
      if CommitSucceeds(w, p.submission, p.who) {
        CommittedKeepsTokensAndRecords(env, w, pid,
          Record(p.submission, p.who, StoredHash(env, w.subs[p.submission], p), HASH_VERSION, w.now));
      } else {
        CalmKeepsTokensAndRecords(env, w, Finish(w, pid));
      }
    }
  }

  lemma AdminKeepsSubs(env: Env, w: World, a: AdminAction)
    requires Inv(env, w)
    ensures var v := AdminStep(env, w, a); forall s :: s in v.subs ==> SubSound(env, v.subs[s])
  {
    if a.pid in w.procs {
      assert ProcSound(w, w.procs[a.pid]);
    }
  }

  lemma CheckKeepsSubs(env: Env, w: World, a: CheckAction)
    requires Inv(env, w)
    ensures var v := CheckStep(w, a); forall s :: s in v.subs ==> SubSound(env, v.subs[s])
  {
  }

  lemma StepKeepsTokensAndRecords(env: Env, w: World, a: Action)
    requires Inv(env, w)
    ensures var v := Step(env, w, a);
            && (forall t :: 0 <= t < |v.tokens| ==> TokenSound(v, t))
            && (forall k :: 0 <= k < |v.records| ==> RecordSound(v, v.records[k]))
            && RecordsUnique(v.records)
  {
    if a.Commit? {
      CommitKeepsTokensAndRecords(env, w, a.pid);
    } else {
      StepIsCalm(env, w, a);
      CalmKeepsTokensAndRecords(env, w, Step(env, w, a));
    }
  }

  lemma StepKeepsSubs(env: Env, w: World, a: Action)
    requires Inv(env, w)
    ensures var v := Step(env, w, a); forall s :: s in v.subs ==> SubSound(env, v.subs[s])
  {
    match a {
      case Check(c) => CheckKeepsSubs(env, w, c);
      case Administer(d) => AdminKeepsSubs(env, w, d);
      case _ =>
    }
  }

  lemma StepKeepsInv(env: Env, w: World, a: Action)
    requires Inv(env, w)
    ensures Inv(env, Step(env, w, a))
  {
    StepKeepsTokensAndRecords(env, w, a);
    StepKeepsProcs(env, w, a);
    StepKeepsSubs(env, w, a);
  }

  lemma {:induction false} RunKeepsInv(env: Env, w: World, acts: seq<Action>)
    requires Inv(env, w)
    ensures Inv(env, Run(env, w, acts))
  {
    if acts != [] {
      RunKeepsInv(env, w, acts[..|acts| - 1]);
      StepKeepsInv(env, Run(env, w, acts[..|acts| - 1]), acts[|acts| - 1]);
    }
  }
}
