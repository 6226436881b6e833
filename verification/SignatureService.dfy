/** The signature service over mutable rows: each method, run without interruption, is a stretch of a protocol run. */
module SignatureService {
  import opened Wrappers
  import opened JsText
  import opened SignatureData
  import opened FormApproval
  import opened DocumentHash
  import opened SignatureProtocol
  import opened SignatureTheorems
  import opened SignatureRuns

  // ----- The checks of a request to sign -----

  const MAX_SECONDS_PER_SECTION := 300
  const DEFAULT_MIN_SECONDS := 30

  /** One entry of a reading log: a section or field, and how long it was viewed. */
  datatype Reading = Reading(place: Text, seconds: nat)

  /** The seconds that count, each entry up to its cap. */
  function ReadingSeconds(log: seq<Reading>): nat {
    if log == [] then 0
    else
      var last := log[|log| - 1].seconds;
      ReadingSeconds(log[..|log| - 1]) + if last < MAX_SECONDS_PER_SECTION then last else MAX_SECONDS_PER_SECTION
  }

  predicate EnoughReading(log: seq<Reading>, minSeconds: int) {
    minSeconds == 0 || ReadingSeconds(log) >= minSeconds
  }

  /** The reading time is the sum over the entries, each capped at 300 seconds. */
  lemma {:induction false} ReadingAdds(log: seq<Reading>, more: seq<Reading>)
    ensures ReadingSeconds(log + more) == ReadingSeconds(log) + ReadingSeconds(more)
    ensures |more| == 1 ==> ReadingSeconds(more) == if more[0].seconds < 300 then more[0].seconds else 300
  {
    if more == [] {
      assert log + more == log;
    } else {
      ReadingAdds(log, more[..|more| - 1]);
      assert (log + more)[..|log + more| - 1] == log + more[..|more| - 1];
      assert |more| == 1 ==> more[..0] == [];
    }
  }

  /** Every place that was read is a field of the document, or the section of one. */
  predicate KnownPlaces(log: seq<Reading>, values: seq<ValueRow>, section: Id -> Option<Text>) {
    forall i :: 0 <= i < |log| ==> KnownPlace(log[i].place, values, section)
  }

  predicate KnownPlace(place: Text, values: seq<ValueRow>, section: Id -> Option<Text>) {
    exists v :: v in values && (v.field == place || (section(v.field) == Some(place) && place != []))
  }

  /** The place is the field of the value, or its section, which is not empty. */
  predicate IsPlace(place: Text, v: ValueRow, section: Id -> Option<Text>) {
    match section(v.field)
    case Some(name) => place == v.field || (|name| > 0 && place == name)
    case None => place == v.field
  }

  /** A log that is accepted has enough entries: no entry counts for more than its cap. */
  lemma {:induction false} AcceptedLogsAreLong(log: seq<Reading>)
    ensures ReadingSeconds(log) <= MAX_SECONDS_PER_SECTION * |log|
    ensures forall minSeconds :: minSeconds > MAX_SECONDS_PER_SECTION * |log| ==> !EnoughReading(log, minSeconds)
  {
    if log != [] {
      AcceptedLogsAreLong(log[..|log| - 1]);
    }
  }

  datatype Outcome =
    | Done
    | TokenInvalid
    | TokenUsed
    | TokenExpired
    | NotFound
    | AlreadyDone
    | TooLittleReading
    | UnknownPlace

  function TokenOutcome(tokens: seq<Token>, t: nat, now: Instant): Outcome {
    if t >= |tokens| then TokenInvalid
    else if tokens[t].usedAt.Some? then TokenUsed
    else if tokens[t].expiresAt < now then TokenExpired
    else Done
  }

  /** An unused token of the signer for the submission becomes used; any other stays as it is. */
  function SupersededIf(t: Token, submission: Id, signer: Id, now: Instant): Token {
    if t.submission == submission && t.signer == signer && t.usedAt == None then t.(usedAt := Some(now)) else t
  }

  /** One record was added, of version 2, with the instant of the signing. */
  predicate Recorded(before: seq<Record>, after: seq<Record>, submission: Id, who: SignedBy, now: Instant) {
    && |after| == |before| + 1 && after[..|before|] == before
    && after[|before|].submission == submission && after[|before|].who == who
    && after[|before|].signedAt == now && after[|before|].hashVersion == 2
  }

  /** Nothing but the submission was written, with what a whole check makes of it. */
  ghost predicate CheckedAfter(before: map<Id, Submission>, after: map<Id, Submission>, s: Id,
                               templates: map<Id, Template>, tokens: seq<Token>, records: seq<Record>, now: Instant) {
    && s in before && s in after && after == before[s := after[s]]
    && (before[s].template !in templates ==> after[s] == before[s])
    && (before[s].template in templates && DistinctFields(before[s].answers) ==>
          forall parseDate :: StoredFrom(before[s].values, before[s].answers, parseDate) ==>
            CheckedAs(before[s], after[s], s, templates[before[s].template], tokens, records, now))
  }

  lemma SoundlyChecked(sub: Submission, s: Id, t: Template, tokens: seq<Token>, records: seq<Record>, now: Instant)
    ensures DistinctFields(sub.answers) ==>
              forall parseDate :: StoredFrom(sub.values, sub.answers, parseDate) ==>
                CheckedAs(sub, Checked(sub, s, t, tokens, records, now), s, t, tokens, records, now)
  {
    if DistinctFields(sub.answers) {
      forall parseDate | StoredFrom(sub.values, sub.answers, parseDate)
        ensures CheckedAs(sub, Checked(sub, s, t, tokens, records, now), s, t, tokens, records, now)
      {
        CheckInClosedForm(sub, s, t, tokens, records, now, parseDate);
      }
    }
  }

  class ElectronicSignatureService {
    const env: Env
    /** The section of a field. */
    const section: Id -> Option<Text>
    var tokens: seq<Token>
    var records: seq<Record>
    var subs: map<Id, Submission>
    var templates: map<Id, Template>
    /** The organization of every external signer, and the reading time a template asks for. */
    var signers: map<Id, Id>
    var minSeconds: map<Id, int>

    constructor (environment: Env, sections: Id -> Option<Text>)
      ensures env == environment && section == sections && At(0) == World(0, [], [], map[], map[], map[])
      ensures signers == map[] && minSeconds == map[] && Valid()
    {
      env, section := environment, sections;
      tokens, records, subs, templates := [], [], map[], map[];
      signers, minSeconds := map[], map[];
    }

    /** How much reading a template asks for: 30 seconds when it has no signature configuration. */
    function MinSeconds(template: Id): int
      reads this
    {
      if template in minSeconds then minSeconds[template] else DEFAULT_MIN_SECONDS
    }

    function ReadingOutcome(log: seq<Reading>, submission: Id): (r: Outcome)
      requires submission in subs
      reads this
      ensures var least := if subs[submission].template in minSeconds then minSeconds[subs[submission].template]
        else 30;
              r.TooLittleReading? <==> least != 0 && ReadingSeconds(log) < least
      ensures !r.TooLittleReading? ==> r.Done? || r.UnknownPlace?
      ensures r.Done? ==>
                forall i :: 0 <= i < |log| ==> exists v ::
                  v in subs[submission].values && IsPlace(log[i].place, v, section)
      ensures r.UnknownPlace? ==>
                exists i :: 0 <= i < |log| && forall v :: v in subs[submission].values ==>
                  !IsPlace(log[i].place, v, section)
    {
      if !EnoughReading(log, MinSeconds(subs[submission].template)) then TooLittleReading
      else if !KnownPlaces(log, subs[submission].values, section) then UnknownPlace
      else Done
    }

    /** Every token is of a submission. */
    ghost predicate Valid()
      reads this
    {
      forall t :: 0 <= t < |tokens| ==> tokens[t].submission in subs
    }

    predicate OwnSubmission(submission: Id, org: Id)
      reads this
    {
      submission in subs && subs[submission].org == org
    }

    /** The protocol state at an instant with no request in flight. */
    function At(now: Instant): World
      reads this
    {
      World(now, tokens, records, subs, templates, map[])
    }

    /** Issues a link that lasts for the configured hours, and invalidates the unused ones of the same signer. */
    method CreateSignatureToken(org: Id, submission: Id, signer: Id, ttlHours: nat, now: Instant)
      returns (created: Option<nat>)
      requires Valid()
      modifies this`tokens
      ensures Valid()
      ensures created == if submission in subs && subs[submission].org == org && signer in signers
        && signers[signer] == org
        then Some(|old(tokens)|) else None
      ensures At(now) ==
              if created.Some? then Run(env, old(At(now)), IssueOne(0, submission, signer, now + ttlHours * 3_600_000))
              else old(At(now))
      ensures created.Some? ==>
                && |tokens| == |old(tokens)| + 1
                && tokens[|old(tokens)|] == Token(submission, signer, SENT, now + ttlHours * 3_600_000, None, None, now)
                && (forall i :: 0 <= i < |old(tokens)| ==>
                      tokens[i] == SupersededIf(old(tokens)[i], submission, signer, now))
    {
      var expiresAt := now + ttlHours * 3_600_000;
      if !OwnSubmission(submission, org) || signer !in signers || signers[signer] != org {
        return None;
      }
      IssueOneState(env, At(now), 0, submission, signer, expiresAt);
      created := Some(|tokens|);
      tokens := Invalidated(tokens, submission, signer, now);
      tokens := tokens + [Token(submission, signer, SENT, expiresAt, None, None, now)];
    }

    /** Opens the document through a link: the first time, the token becomes VIEWED. */
    method GetPublicSignatureContent(t: nat, now: Instant) returns (shown: bool)
      modifies this`tokens
      requires Valid()
      ensures Valid()
      ensures shown == (t < |old(tokens)| && old(tokens)[t].usedAt == None && now <= old(tokens)[t].expiresAt)
      ensures tokens == if shown && old(tokens)[t].link == SENT
                        then old(tokens)[t := old(tokens)[t].(link := VIEWED, viewedAt := Some(now))] else old(tokens)
      ensures At(now) == if shown && old(tokens)[t].link == SENT then Run(env, old(At(now)), ViewOne(0, t))
        else old(At(now))
    {
      if t >= |tokens| || !Usable(tokens[t], now) {
        return false;
      }
      if tokens[t].link == SENT {
        ViewOneState(env, At(now), 0, t);
        tokens := tokens[t := tokens[t].(link := VIEWED, viewedAt := Some(now))];
      }
      return true;
    }

    /** Signs through a link: an unused and unexpired token is consumed, if the document was read. */
    method SignExternal(t: nat, log: seq<Reading>, now: Instant) returns (outcome: Outcome)
      requires Valid()
      modifies this`tokens, this`records, this`subs
      ensures Valid()
      ensures outcome == (if t >= |old(tokens)| then TokenInvalid
                          else if old(tokens)[t].usedAt != None then TokenUsed
                          else if old(tokens)[t].expiresAt < now then TokenExpired
                          else old(ReadingOutcome(log, tokens[t].submission)))
      ensures outcome.Done? ==>
                && tokens == old(tokens)[t := old(tokens)[t].(usedAt := Some(now), link := SIGNED)]
                && Recorded(old(records), records, old(tokens)[t].submission, External(old(tokens)[t].signer, t), now)
                && CheckedAfter(old(subs), subs, old(tokens)[t].submission, templates, tokens, records, now)
      ensures At(now) == if outcome.Done? then Run(env, old(At(now)), SignOne(0, BeginExternal(0, t))) else old(At(now))
    {
      outcome := TokenOutcome(tokens, t, now);
      if !outcome.Done? {
        return;
      }
      outcome := ReadingOutcome(log, tokens[t].submission);
      if !outcome.Done? {
        return;
      }
      SignExternalState(env, At(now), 0, t);
      RecordSignature(tokens[t].submission, External(tokens[t].signer, t), now);
    }

    /** Signs as a user of the organization, who can do so once. */
    method SignInternal(submission: Id, user: Id, org: Id, log: seq<Reading>, now: Instant) returns (outcome: Outcome)
      requires Valid()
      modifies this`tokens, this`records, this`subs
      ensures Valid()
      ensures outcome == (if submission !in old(subs) || old(subs)[submission].org != org then NotFound
                          else if exists k :: 0 <= k < |old(records)| && old(records)[k].submission == submission
                                              && old(records)[k].who == Internal(user) then AlreadyDone
                          else old(ReadingOutcome(log, submission)))
      ensures outcome.Done? ==>
                && tokens == old(tokens)
                && Recorded(old(records), records, submission, Internal(user), now)
                && CheckedAfter(old(subs), subs, submission, templates, tokens, records, now)
      ensures At(now) == if outcome.Done? then Run(env, old(At(now)), SignOne(0, BeginInternal(0, submission, user)))
        else old(At(now))
    {
      if !OwnSubmission(submission, org) {
        return NotFound;
      }
      if AlreadySigned(records, submission, user) {
        return AlreadyDone;
      }
      outcome := ReadingOutcome(log, submission);
      if !outcome.Done? {
        return;
      }
      SignInternalState(env, At(now), 0, submission, user);
      RecordSignature(submission, Internal(user), now);
    }

    method ComputeDocumentHash(submission: Id, who: SignedBy, now: Instant) returns (hash: Digest)
      requires submission in subs
      ensures hash == HashNow(env, At(now), submission, who)
    {
      hash := StoredHash(env, subs[submission], Signing(submission, who, Hashed(now, tokens, records)));
    }

    /** Hashes the document, and writes the signature. */
    method RecordSignature(submission: Id, who: SignedBy, now: Instant)
      requires Valid() && submission in subs && CommitSucceeds(At(now), submission, who)
      modifies this`tokens, this`records, this`subs
      ensures Valid()
      ensures At(now) == SignedNow(env, old(At(now)), submission, who)
      ensures Recorded(old(records), records, submission, who, now)
      ensures CheckedAfter(old(subs), subs, submission, templates, tokens, records, now)
    {
      var documentHash := ComputeDocumentHash(submission, who, now);
      WriteSignature(submission, who, documentHash, now);
    }

    /** Consumes the token of an external signer, records the signature and checks the submission. */
    method WriteSignature(submission: Id, who: SignedBy, documentHash: Digest, now: Instant)
      requires Valid() && submission in subs && CommitSucceeds(At(now), submission, who)
      modifies this`tokens, this`records, this`subs
      ensures Valid()
      ensures At(now) == SignedWith(old(At(now)), submission, who, documentHash)
      ensures Recorded(old(records), records, submission, who, now)
      ensures CheckedAfter(old(subs), subs, submission, templates, tokens, records, now)
    {
      if who.External? {
        tokens := tokens[who.token := tokens[who.token].(usedAt := Some(now), link := SIGNED)];
      }
      records := records + [Record(submission, who, documentHash, HASH_VERSION, now)];
      CheckAutoApproval(submission, now);
    }

    method CheckAutoApproval(submission: Id, now: Instant)
      requires submission in subs
      modifies this`subs
      ensures At(now) == CheckedNow(old(At(now)), submission)
      ensures CheckedAfter(old(subs), subs, submission, templates, tokens, records, now)
    {
      var sub := subs[submission];
      if sub.template in templates {
        SoundlyChecked(sub, submission, templates[sub.template], tokens, records, now);
        subs := subs[submission := Checked(sub, submission, templates[sub.template], tokens, records, now)];
      }
    }

    /** Hashes the document again as of the signing, from rows that come in the order `got`. */
    method VerifyRecord(r: Record, got: Rows, now: Instant) returns (valid: Option<bool>)
      requires r.submission in subs
      ensures valid == Verify(env, At(now), r, got)
    {
      if r.hashVersion == 1 {
        return None;
      }
      var sub := subs[r.submission];
      var rows := Returned(got, TableRows(env, r.submission, sub, tokens, records, r.signedAt));
      var current := HashOf(env.platform, BodyOf(env, r.submission, sub), rows);
      return Some(r.documentHash == current);
    }

    /** One result per record of the submission, in row order, where `orders` tells in which order the rows come for
        each; the report fails exactly when some record does. A submission of another organization is refused. */
    method VerifyDocumentIntegrity(submission: Id, org: Id, orders: nat -> Rows, now: Instant)
      returns (report: Option<Report>)
      ensures report.Some? <==> OwnSubmission(submission, org)
      ensures report.Some? ==> report.value.results == Verdicts(env, At(now), submission, orders, |records|)
      ensures report.Some? ==> (report.value.valid <==> Some(false) !in report.value.results)
    {
      if !OwnSubmission(submission, org) {
        return None;
      }
      var results, valid := [], true;
      for n := 0 to |records|
        invariant results == Verdicts(env, At(now), submission, orders, n)
        invariant valid <==> Some(false) !in results
      {
        if records[n].submission == submission {
          var result := VerifyRecord(records[n], orders(n), now);
          results := results + [result];
          valid := valid && result != Some(false);
        }
      }
      return Some(Report(results, valid));
    }
  }

  datatype Report = Report(results: seq<Option<bool>>, valid: bool)

  /** The results for the first `n` records. */
  function Verdicts(env: Env, w: World, submission: Id, orders: nat -> Rows, n: nat): seq<Option<bool>>
    requires submission in w.subs && n <= |w.records|
  {
    if n == 0 then []
    else
      Verdicts(env, w, submission, orders, n - 1) +
      if w.records[n - 1].submission == submission then [Verify(env, w, w.records[n - 1], orders(n - 1))] else []
  }

  lemma {:induction false} VerdictIsListed(env: Env, w: World, submission: Id, orders: nat -> Rows, n: nat, k: nat)
    requires submission in w.subs && k < n <= |w.records| && w.records[k].submission == submission
    ensures Verify(env, w, w.records[k], orders(k)) in Verdicts(env, w, submission, orders, n)
  {
    if k < n - 1 {
      VerdictIsListed(env, w, submission, orders, n - 1, k);
    }
  }

  /** With a collision-free digest, every report fails as soon as one user has signed: the stored hash of an internal
      signature never verifies. */
  lemma {:induction false} InternalSignatureFailsTheReport(env: Env, w: World, pid: nat, acts: seq<Action>,
                                                           orders: nat -> Rows)
    requires AboutToSign(env, w, pid) && w.procs[pid].who.Internal? && Injective(env.platform.sha256)
    ensures var v, s := Run(env, Step(env, w, Commit(pid)), acts), w.procs[pid].submission;
            s in v.subs && Some(false) in Verdicts(env, v, s, orders, |v.records|)
  {
    InternalSignatureNeverVerifies(env, w, pid, acts);
    var v, read := CommittedRecordStays(env, w, pid, acts);
    VerdictIsListed(env, v, w.procs[pid].submission, orders, |v.records|, |w.records|);
  }
}
