/** Submissions: how their values are stored, and when they are approved or rejected. */
module FormApproval {
  import opened Wrappers
  import opened JsText
  import opened SignatureData

  // ----- Values -----

  /** A value as it arrives in the request body. */
  datatype Raw =
    | Undefined
    | NullValue
    | Number(number: real)
    | Boolean(truth: bool)
    | DateValue(date: Instant)
    | Chars(chars: Text)
    | Items(items: seq<Raw>)
    | Fields(fields: map<Text, Raw>)

  datatype ValueRow = ValueRow(
    field: Id,
    text: Option<Text>,
    number: Option<real>,
    date: Option<Instant>,
    json: Option<Raw>,
    file: Option<Text>)

  const DASH: CodeUnit := 0x2D

  predicate StartsLikeDate(s: Text) {
    |s| >= 10
    && IsDigit(s[0]) && IsDigit(s[1]) && IsDigit(s[2]) && IsDigit(s[3]) && s[4] == DASH
    && IsDigit(s[5]) && IsDigit(s[6]) && s[7] == DASH && IsDigit(s[8]) && IsDigit(s[9])
  }

  /** The column a raw value is stored in; `parseDate` is the date parser of the platform. */
  function BuildValueRecord(field: Id, raw: Raw, parseDate: Text -> Option<Instant>): ValueRow {
    var base := ValueRow(field, None, None, None, None, None);
    match raw
    case Undefined => base
    case NullValue => base
    case Number(n) => base.(number := Some(n))
    case Boolean(_) => base.(json := Some(raw))
    case DateValue(d) => base.(date := Some(d))
    case Chars(s) =>
      if StartsLikeDate(s) && parseDate(s).Some? then base.(date := parseDate(s))
      else base.(text := Some(s))
    case Items(_) => base.(json := Some(raw))
    case Fields(_) => base.(json := Some(raw))
  }

  predicate IsValueEmpty(v: ValueRow) {
    if v.text.Some? && v.text.value != [] then false
    else if v.number.Some? then false
    else if v.date.Some? then false
    else if v.json.Some? && !v.json.value.NullValue? && !v.json.value.Undefined? && v.json.value != Items([]) then false
    else if v.file.Some? && v.file.value != [] then false
    else true
  }

  /** A stored value is empty exactly when no column is there but an empty text, an empty file, or a JSON null or empty
      list. */
  lemma EmptyIffNothingHeld(v: ValueRow)
    ensures IsValueEmpty(v) <==>
      && v.text in {None, Some([])} && v.number == None && v.date == None && v.file in {None, Some([])}
      && v.json in {None, Some(NullValue), Some(Undefined), Some(Items([]))}
  {
  }

  /** The answers that count as not given. */
  predicate Blank(raw: Raw) {
    raw.Undefined? || raw.NullValue? || raw == Chars([]) || raw == Items([])
  }

  lemma StoredEmptyIffBlank(field: Id, raw: Raw, parseDate: Text -> Option<Instant>)
    ensures IsValueEmpty(BuildValueRecord(field, raw, parseDate)) <==> Blank(raw)
  {
  }

  /** An answer to one field of the template, as `create` received it. */
  datatype Answer = Answer(field: Id, raw: Raw)

  function BuildValues(answers: seq<Answer>, parseDate: Text -> Option<Instant>): seq<ValueRow> {
    seq(|answers|, i requires 0 <= i < |answers| => BuildValueRecord(answers[i].field, answers[i].raw, parseDate))
  }

  // ----- What a stored row tells of the answer -----

  /** The instant of a date, or of a text that begins with four digits, a dash, two digits, a dash and two digits, as
      far as the platform can read it. */
  function DateOf(raw: Raw, parseDate: Text -> Option<Instant>): Option<Instant> {
    if raw.DateValue? then Some(raw.date)
    else if raw.Chars? && |raw.chars| >= 10 && (forall i :: 0 <= i < 10 ==>
              if i == 4 || i == 7 then raw.chars[i] == 0x2D else 0x30 <= raw.chars[i] <= 0x39)
      then parseDate(raw.chars)
    else None
  }

  /** The row holds the answer in the one column of its kind, and nothing else: each column by itself. */
  predicate Stores(v: ValueRow, field: Id, raw: Raw, parseDate: Text -> Option<Instant>) {
    && v.field == field
    && v.number == (if raw.Number? then Some(raw.number) else None)
    && v.date == DateOf(raw, parseDate)
    && v.text == (if raw.Chars? && DateOf(raw, parseDate).None? then Some(raw.chars) else None)
    && v.json == (if raw.Boolean? || raw.Items? || raw.Fields? then Some(raw) else None)
    && v.file == None
  }

  lemma AnswerIsStored(field: Id, raw: Raw, parseDate: Text -> Option<Instant>)
    ensures Stores(BuildValueRecord(field, raw, parseDate), field, raw, parseDate)
  {
    if raw.Chars? && StartsLikeDate(raw.chars) {
      var s := raw.chars;
      forall i | 0 <= i < 10 ensures if i == 4 || i == 7 then s[i] == 0x2D else 0x30 <= s[i] <= 0x39 {
      }
    }
  }

  /** The answers that no stored row tells apart: equal ones, null and an absent one, and texts or dates of one
      instant. */
  predicate SameAnswer(raw: Raw, other: Raw, parseDate: Text -> Option<Instant>) {
    || raw == other
    || ((raw.NullValue? || raw.Undefined?) && (other.NullValue? || other.Undefined?))
    || (DateOf(raw, parseDate).Some? && DateOf(raw, parseDate) == DateOf(other, parseDate))
  }

  /** Two answers to a field are stored as equal rows exactly when they are the same up to that. */
  lemma EqualRowsIffSameAnswer(v: ValueRow, w: ValueRow, field: Id, raw: Raw, other: Raw,
                               parseDate: Text -> Option<Instant>)
    requires Stores(v, field, raw, parseDate) && Stores(w, field, other, parseDate)
    ensures v == w <==> SameAnswer(raw, other, parseDate)
  {
    assert raw.Chars? && DateOf(raw, parseDate).None? ==> v.text == Some(raw.chars);
    assert other.Chars? && DateOf(other, parseDate).None? ==> w.text == Some(other.chars);
  }

  /** Every answer of the submission is stored, in order. */
  predicate StoredFrom(values: seq<ValueRow>, answers: seq<Answer>, parseDate: Text -> Option<Instant>) {
    && |values| == |answers|
    && forall i :: 0 <= i < |values| ==> Stores(values[i], answers[i].field, answers[i].raw, parseDate)
  }

  lemma AnswersAreStored(answers: seq<Answer>, parseDate: Text -> Option<Instant>)
    ensures StoredFrom(BuildValues(answers, parseDate), answers, parseDate)
  {
    forall i | 0 <= i < |answers|
      ensures Stores(BuildValues(answers, parseDate)[i], answers[i].field, answers[i].raw, parseDate)
    {
      AnswerIsStored(answers[i].field, answers[i].raw, parseDate);
    }
  }

  lemma StoredAreBuilt(values: seq<ValueRow>, answers: seq<Answer>, parseDate: Text -> Option<Instant>)
    requires StoredFrom(values, answers, parseDate)
    ensures values == BuildValues(answers, parseDate)
  {
    AnswersAreStored(answers, parseDate);
    forall i | 0 <= i < |values| ensures values[i] == BuildValues(answers, parseDate)[i] {
      assert Stores(values[i], answers[i].field, answers[i].raw, parseDate);
    }
  }

  /** The row a `Map` built from the value list keeps for a field: the last one. */
  function LastRow(values: seq<ValueRow>, field: Id): Option<ValueRow> {
    if values == [] then None
    else if values[|values| - 1].field == field then Some(values[|values| - 1])
    else LastRow(values[..|values| - 1], field)
  }

  predicate Filled(values: seq<ValueRow>, field: Id) {
    var row := LastRow(values, field);
    row.Some? && !IsValueEmpty(row.value)
  }

  predicate AllFilled(required: seq<Id>, values: seq<ValueRow>) {
    forall f :: f in required ==> Filled(values, f)
  }

  predicate DistinctFields(answers: seq<Answer>) {
    forall i, j :: 0 <= i < j < |answers| ==> answers[i].field != answers[j].field
  }

  /** A field counts as filled exactly when `create` received a real answer for it. */
  lemma {:induction false} FilledIffAnswered(answers: seq<Answer>, parseDate: Text -> Option<Instant>, field: Id)
    requires DistinctFields(answers)
    ensures Filled(BuildValues(answers, parseDate), field)
       <==> exists i :: 0 <= i < |answers| && answers[i].field == field && !Blank(answers[i].raw)
  {
    if answers != [] {
      var init, last := answers[..|answers| - 1], answers[|answers| - 1];
      assert BuildValues(answers, parseDate)[..|init|] == BuildValues(init, parseDate);
      FilledIffAnswered(init, parseDate, field);
      StoredEmptyIffBlank(last.field, last.raw, parseDate);
      if last.field != field {
        assert forall i :: 0 <= i < |init| ==> init[i] == answers[i];
      }
    }
  }

  // ----- Submissions and templates -----

  datatype Status = DRAFT | SUBMITTED | PENDING_SIGNATURES | APPROVED | REJECTED

  datatype Submission = Submission(
    org: Id,
    template: Id,
    submittedAt: Instant,
    answers: seq<Answer>,
    values: seq<ValueRow>,
    status: Status,
    autoApprovedAt: Option<Instant>,
    rejectedAt: Option<Instant>,
    rejectedBy: Option<Id>,
    rejectionReason: Option<Text>)

  datatype Frequency = INHERIT | NONE | DAILY | WEEKLY | MONTHLY | PER_EVENT | ONCE

  /** `requiresInternal` is absent when the template has no signature configuration. */
  datatype Template = Template(required: seq<Id>, signatureFrequency: Frequency, requiresInternal: Option<bool>)

  predicate NeedsSignatures(t: Template) { !t.signatureFrequency.NONE? }

  predicate ExternalsSigned(tokens: seq<Token>, sub: Id) {
    forall i :: 0 <= i < |tokens| && tokens[i].submission == sub ==> tokens[i].link == SIGNED
  }

  predicate InternallySigned(records: seq<Record>, sub: Id) {
    exists i :: 0 <= i < |records| && records[i].submission == sub && records[i].who.Internal?
  }

  predicate SignaturesComplete(t: Template, tokens: seq<Token>, records: seq<Record>, sub: Id) {
    NeedsSignatures(t) ==>
      && ExternalsSigned(tokens, sub)
      && (t.requiresInternal == Some(true) ==> InternallySigned(records, sub))
  }

  datatype Verdict = NoChange | Approve | AwaitSignatures

  predicate Processable(s: Status) { s.SUBMITTED? || s.PENDING_SIGNATURES? }

  /** What `checkAutoApproval` decides from the rows it has read. */
  function Decide(sub: Submission, id: Id, t: Template, tokens: seq<Token>, records: seq<Record>): Verdict {
    if !Processable(sub.status) then NoChange
    else
      var filled := AllFilled(t.required, sub.values);
      var complete := SignaturesComplete(t, tokens, records, id);
      if filled && complete then Approve
      else if NeedsSignatures(t) && !complete && !sub.status.PENDING_SIGNATURES? then AwaitSignatures
      else NoChange
  }

  /** What it then writes. */
  function ApplyVerdict(sub: Submission, v: Verdict, now: Instant): Submission {
    match v
    case NoChange => sub
    case Approve => sub.(status := APPROVED, autoApprovedAt := Some(now))
    case AwaitSignatures => sub.(status := PENDING_SIGNATURES)
  }

  function Checked(sub: Submission, id: Id, t: Template, tokens: seq<Token>, records: seq<Record>,
                   now: Instant): Submission {
    ApplyVerdict(sub, Decide(sub, id, t, tokens, records), now)
  }

  /** Repeating the check changes nothing, whenever it is repeated. */
  lemma CheckIsIdempotent(sub: Submission, id: Id, t: Template, tokens: seq<Token>, records: seq<Record>, now: Instant,
                          later: Instant)
    ensures var once := Checked(sub, id, t, tokens, records, now);
            Checked(once, id, t, tokens, records, later) == once
  {
  }

  // ----- One whole check -----

  /** Some answer to the field is not null, absent, empty text or an empty list. */
  predicate Answered(answers: seq<Answer>, field: Id) {
    exists i :: 0 <= i < |answers| && answers[i].field == field
      && answers[i].raw != NullValue && answers[i].raw != Undefined
      && answers[i].raw != Chars([]) && answers[i].raw != Items([])
  }

  /** Every token of the submission is signed, and an internal record exists where the template asks for one. */
  predicate AllSigned(id: Id, t: Template, tokens: seq<Token>, records: seq<Record>) {
    && (forall i :: 0 <= i < |tokens| && tokens[i].submission == id ==> tokens[i].link == SIGNED)
    && (t.requiresInternal == Some(true) ==>
          exists k :: 0 <= k < |records| && records[k].submission == id && records[k].who.Internal?)
  }

  /** What one whole check makes of a submission, from any status. */
  predicate CheckedAs(before: Submission, after: Submission, id: Id, t: Template, tokens: seq<Token>,
                      records: seq<Record>, now: Instant) {
    var waiting := before.status == SUBMITTED || before.status == PENDING_SIGNATURES;
    var answered := forall f :: f in t.required ==> Answered(before.answers, f);
    var signed := AllSigned(id, t, tokens, records);
    after ==
      if waiting && answered && (t.signatureFrequency == NONE || signed)
        then before.(status := APPROVED, autoApprovedAt := Some(now))
      else if waiting && t.signatureFrequency != NONE && !signed then before.(status := PENDING_SIGNATURES)
      else before
  }

  lemma AnsweredIffFilled(sub: Submission, parseDate: Text -> Option<Instant>, required: seq<Id>)
    requires DistinctFields(sub.answers) && StoredFrom(sub.values, sub.answers, parseDate)
    ensures AllFilled(required, sub.values) <==> forall f :: f in required ==> Answered(sub.answers, f)
  {
    StoredAreBuilt(sub.values, sub.answers, parseDate);
    forall f ensures Filled(sub.values, f) <==> Answered(sub.answers, f) {
      FilledIffAnswered(sub.answers, parseDate, f);
    }
  }

  /** The check in closed form, over the answers as they came, the signatures and the columns of the template. */
  lemma CheckInClosedForm(sub: Submission, id: Id, t: Template, tokens: seq<Token>, records: seq<Record>, now: Instant,
                          parseDate: Text -> Option<Instant>)
    requires DistinctFields(sub.answers) && StoredFrom(sub.values, sub.answers, parseDate)
    ensures CheckedAs(sub, Checked(sub, id, t, tokens, records, now), id, t, tokens, records, now)
  {
    AnsweredIffFilled(sub, parseDate, t.required);
    assert SignaturesComplete(t, tokens, records, id) <==>
      t.signatureFrequency == NONE || AllSigned(id, t, tokens, records);
  }

  // ----- Rejection -----

  const MIN_REASON := 10

  predicate AcceptableReason(reason: Text) { |Trim(reason)| >= MIN_REASON }

  function Rejected(sub: Submission, admin: Id, reason: Text, now: Instant): Submission {
    sub.(status := REJECTED, rejectedAt := Some(now), rejectedBy := Some(admin), rejectionReason := Some(Trim(reason)))
  }

  /** What every submission row satisfies. */
  ghost predicate StatusSound(sub: Submission) {
    && (sub.status == APPROVED ==> sub.autoApprovedAt.Some?)
    && (sub.status == REJECTED ==>
          sub.rejectedAt.Some? && sub.rejectedBy.Some? && sub.rejectionReason.Some?
            && |sub.rejectionReason.value| >= MIN_REASON)
  }

  // ----- Order independence -----

  /** The rows around one submission. */
  datatype Case = Case(sub: Submission, id: Id, template: Template, tokens: seq<Token>, records: seq<Record>)

  /** A signing succeeds on an unused token of the submission, or for a user who has not signed it yet. */
  predicate CanSign(c: Case, who: SignedBy) {
    match who
    case External(signer, t) => t < |c.tokens| && c.tokens[t].submission == c.id && c.tokens[t].usedAt.None?
    case Internal(user) =>
      forall i :: 0 <= i < |c.records| && c.records[i].submission == c.id ==> c.records[i].who != who
  }

  function Signed(c: Case, who: SignedBy, hash: Digest, now: Instant): Case
    requires CanSign(c, who)
  {
    var records := c.records + [Record(c.id, who, hash, HASH_VERSION, now)];
    match who
    case External(_, t) =>
      c.(tokens := c.tokens[t := c.tokens[t].(link := SIGNED, usedAt := Some(now))], records := records)
    case Internal(_) => c.(records := records)
  }

  function CheckCase(c: Case, now: Instant): Case {
    c.(sub := Checked(c.sub, c.id, c.template, c.tokens, c.records, now))
  }

  /** One signing: who signs, the hash stored with the signature, and when. */
  datatype SigningStep = SigningStep(who: SignedBy, hash: Digest, at: Instant)

  function SignAndCheck(c: Case, op: SigningStep): Case
    requires CanSign(c, op.who)
  {
    CheckCase(Signed(c, op.who, op.hash, op.at), op.at)
  }

  predicate AllSucceed(c: Case, ops: seq<SigningStep>)
    decreases |ops|
  {
    ops == [] || (CanSign(c, ops[0].who) && AllSucceed(SignAndCheck(c, ops[0]), ops[1..]))
  }

  /** A sequence of signings, each followed by the check. */
  function SignAll(c: Case, ops: seq<SigningStep>): Case
    requires AllSucceed(c, ops)
    decreases |ops|
  {
    if ops == [] then c else SignAll(SignAndCheck(c, ops[0]), ops[1..])
  }

  function Whos(ops: seq<SigningStep>): seq<SignedBy> {
    seq(|ops|, i requires 0 <= i < |ops| => ops[i].who)
  }

  predicate CaseComplete(c: Case) { SignaturesComplete(c.template, c.tokens, c.records, c.id) }

  predicate CaseFilled(c: Case) { AllFilled(c.template.required, c.sub.values) }

  /** Whether the signatures would be complete once the given signers had signed too. */
  predicate CompleteWith(c: Case, whos: seq<SignedBy>) {
    NeedsSignatures(c.template) ==>
      && (forall i :: 0 <= i < |c.tokens| && c.tokens[i].submission == c.id && c.tokens[i].link != SIGNED ==>
            exists who :: who in whos && who.External? && who.token == i)
      && (c.template.requiresInternal == Some(true) && !InternallySigned(c.records, c.id) ==>
            exists who :: who in whos && who.Internal?)
  }

  lemma CompleteWithOne(c: Case, who: SignedBy, rest: seq<SignedBy>, hash: Digest, now: Instant)
    requires CanSign(c, who)
    ensures CompleteWith(Signed(c, who, hash, now), rest) <==> CompleteWith(c, [who] + rest)
  {
    var d := Signed(c, who, hash, now);
    var whos := [who] + rest;
    assert forall w :: w in whos <==> w == who || w in rest;
    assert d.records[|c.records|].who == who;
    assert forall i :: 0 <= i < |c.records| ==> d.records[i] == c.records[i];
    assert InternallySigned(d.records, c.id) <==> InternallySigned(c.records, c.id) || who.Internal?;
    if CompleteWith(d, rest) && NeedsSignatures(c.template) {
      forall i | 0 <= i < |c.tokens| && c.tokens[i].submission == c.id && c.tokens[i].link != SIGNED
        ensures exists w :: w in whos && w.External? && w.token == i
      {
        if who.External? && who.token == i {
          assert who in whos;
        } else {
          assert d.tokens[i] == c.tokens[i];
        }
      }
      if who.Internal? {
        assert who in whos;
      }
    }
  }

  /** From PENDING_SIGNATURES (or once approved and complete), the final status is decided by who signed. */
  lemma {:induction false} FinalStatusFromPending(c: Case, ops: seq<SigningStep>)
    requires AllSucceed(c, ops)
    requires c.sub.status == PENDING_SIGNATURES || (c.sub.status == APPROVED && CaseFilled(c) && CompleteWith(c, []))
    ensures SignAll(c, ops).sub.status ==
            if ops == [] then c.sub.status
            else if CaseFilled(c) && CompleteWith(c, Whos(ops)) then APPROVED else PENDING_SIGNATURES
    decreases |ops|
  {
    if ops != [] {
      var op := ops[0];
      var signed := Signed(c, op.who, op.hash, op.at);
      assert Whos(ops) == [op.who] + Whos(ops[1..]);
      CompleteWithOne(c, op.who, Whos(ops[1..]), op.hash, op.at);
      CompleteWithOne(c, op.who, [], op.hash, op.at);
      assert CaseComplete(signed) <==> CompleteWith(signed, []);
      assert CompleteWith(signed, []) ==> CompleteWith(signed, Whos(ops[1..]));
      FinalStatusFromPending(SignAndCheck(c, op), ops[1..]);
    }
  }

  lemma MoreSigners(c: Case, whos: seq<SignedBy>, more: seq<SignedBy>)
    requires CompleteWith(c, whos) && forall who :: who in whos ==> who in more
    ensures CompleteWith(c, more)
  {
  }

  /** The first signing of a submission that has just been sent in, and its check. */
  lemma FirstSigning(c: Case, op: SigningStep)
    requires CanSign(c, op.who) && c.sub.status == SUBMITTED
    ensures var d := SignAndCheck(c, op);
            && d.sub == c.sub.(status := d.sub.status, autoApprovedAt := d.sub.autoApprovedAt)
            && d.sub.status == (if CompleteWith(c, [op.who]) then if CaseFilled(c) then APPROVED else SUBMITTED
                                else PENDING_SIGNATURES)
            && (CompleteWith(c, [op.who]) ==> CompleteWith(d, []))
  {
    CompleteWithOne(c, op.who, [], op.hash, op.at);
    var signed := Signed(c, op.who, op.hash, op.at);
    assert [op.who] + [] == [op.who];
    assert CaseComplete(signed) <==> CompleteWith(signed, []);
  }

  lemma {:induction false} CompleteStaysSubmitted(c: Case, ops: seq<SigningStep>)
    requires AllSucceed(c, ops) && c.sub.status == SUBMITTED && CompleteWith(c, []) && !CaseFilled(c)
    ensures SignAll(c, ops).sub.status == SUBMITTED
    decreases |ops|
  {
    if ops != [] {
      MoreSigners(c, [], [ops[0].who]);
      FirstSigning(c, ops[0]);
      CompleteStaysSubmitted(SignAndCheck(c, ops[0]), ops[1..]);
    }
  }

  /** The final status after signings that each are followed by the check. From SUBMITTED it is PENDING_SIGNATURES, when
      the required fields are not all answered, if the first signing left something unsigned. */
  lemma {:induction false} FinalStatus(c: Case, ops: seq<SigningStep>)
    requires AllSucceed(c, ops) && Processable(c.sub.status)
    ensures SignAll(c, ops).sub.status ==
            if ops == [] then c.sub.status
            else if CaseFilled(c) && CompleteWith(c, Whos(ops)) then APPROVED
            else if c.sub.status == SUBMITTED && CompleteWith(c, [ops[0].who]) then SUBMITTED
            else PENDING_SIGNATURES
  {
    if c.sub.status == PENDING_SIGNATURES {
      FinalStatusFromPending(c, ops);
    } else if ops != [] {
      var op, d := ops[0], SignAndCheck(c, ops[0]);
      assert Whos(ops) == [op.who] + Whos(ops[1..]);
      FirstSigning(c, op);
      CompleteWithOne(c, op.who, Whos(ops[1..]), op.hash, op.at);
      if CompleteWith(c, [op.who]) {
        MoreSigners(c, [op.who], Whos(ops));
      }
      if CompleteWith(c, [op.who]) && !CaseFilled(c) {
        CompleteStaysSubmitted(d, ops[1..]);
      } else {
        FinalStatusFromPending(d, ops[1..]);
      }
    }
  }

  // ----- Which lists of signings succeed -----

  /** Two signings of which the second cannot succeed after the first. */
  predicate Exclude(a: SignedBy, b: SignedBy) {
    (a.External? && b.External? && a.token == b.token) || (a.Internal? && a == b)
  }

  predicate Compatible(whos: seq<SignedBy>) {
    forall i, j :: 0 <= i < j < |whos| ==> !Exclude(whos[i], whos[j])
  }

  /** Every signer can sign at the beginning, and no two of them use the same token or are the same user. */
  predicate AllCanSign(c: Case, whos: seq<SignedBy>) {
    (forall i :: 0 <= i < |whos| ==> CanSign(c, whos[i])) && Compatible(whos)
  }

  lemma CanSignAfter(c: Case, op: SigningStep, who: SignedBy)
    requires CanSign(c, op.who)
    ensures CanSign(SignAndCheck(c, op), who) <==> CanSign(c, who) && !Exclude(op.who, who)
  {
    var d := SignAndCheck(c, op);
    assert d.records == c.records + [Record(c.id, op.who, op.hash, HASH_VERSION, op.at)];
    if who.Internal? {
      assert d.records[|c.records|].who == op.who;
      assert forall i :: 0 <= i < |c.records| ==> d.records[i] == c.records[i];
    }
  }

  /** A list of signings succeeds exactly when each could succeed alone and no two exclude each other: no order
      matters. */
  lemma {:induction false} SucceedIffAllCanSign(c: Case, ops: seq<SigningStep>)
    ensures AllSucceed(c, ops) <==> AllCanSign(c, Whos(ops))
    decreases |ops|
  {
    if ops != [] {
      var whos := Whos(ops);
      assert whos[0] == ops[0].who && whos[1..] == Whos(ops[1..]);
      if CanSign(c, ops[0].who) {
        SucceedIffAllCanSign(SignAndCheck(c, ops[0]), ops[1..]);
        AllCanSignCons(c, ops[0], whos[1..]);
        assert whos == [ops[0].who] + whos[1..];
      }
    }
  }

  lemma CompatibleCons(who: SignedBy, rest: seq<SignedBy>)
    ensures Compatible([who] + rest) <==> Compatible(rest) && forall i :: 0 <= i < |rest| ==> !Exclude(who, rest[i])
  {
    var whos := [who] + rest;
    if Compatible(whos) {
      forall i, j | 0 <= i < j < |rest| ensures !Exclude(rest[i], rest[j]) {
        assert !Exclude(whos[i + 1], whos[j + 1]);
      }
      forall i | 0 <= i < |rest| ensures !Exclude(who, rest[i]) {
        assert !Exclude(whos[0], whos[i + 1]);
      }
    }
  }

  lemma AllCanSignCons(c: Case, op: SigningStep, rest: seq<SignedBy>)
    requires CanSign(c, op.who)
    ensures AllCanSign(c, [op.who] + rest) <==> AllCanSign(SignAndCheck(c, op), rest)
  {
    CompatibleCons(op.who, rest);
    forall i | 0 <= i < |rest| ensures CanSign(SignAndCheck(c, op), rest[i]) <==>
      CanSign(c, rest[i]) && !Exclude(op.who, rest[i]) {
      CanSignAfter(c, op, rest[i]);
    }
    if AllCanSign(c, [op.who] + rest) {
      forall i | 0 <= i < |rest| ensures CanSign(c, rest[i]) {
        assert CanSign(c, ([op.who] + rest)[i + 1]);
      }
    }
  }

  lemma TwiceIsCounted(whos: seq<SignedBy>, i: nat, j: nat)
    requires i < j < |whos| && whos[i] == whos[j]
    ensures multiset(whos)[whos[i]] >= 2
  {
    assert whos == whos[..j] + whos[j..];
    assert whos[..j][i] == whos[i] && whos[j..][0] == whos[i];
    assert whos[i] in multiset(whos[..j]) && whos[i] in multiset(whos[j..]);
  }

  lemma {:induction false} OnceIsCounted(whos: seq<SignedBy>, who: SignedBy)
    requires forall i, j :: 0 <= i < j < |whos| ==> !(whos[i] == who && whos[j] == who)
    ensures multiset(whos)[who] <= 1
  {
    if whos != [] {
      assert whos == [whos[0]] + whos[1..];
      OnceIsCounted(whos[1..], who);
      if whos[0] == who {
        assert who !in whos[1..];
      }
    }
  }

  lemma PermutedCanSign(c: Case, whos: seq<SignedBy>, others: seq<SignedBy>)
    requires multiset(whos) == multiset(others) && AllCanSign(c, whos)
    ensures AllCanSign(c, others)
  {
    forall i | 0 <= i < |others| ensures CanSign(c, others[i]) {
      assert others[i] in multiset(whos);
    }
    forall i, j | 0 <= i < j < |others| ensures !Exclude(others[i], others[j]) {
      assert others[i] in multiset(whos) && others[j] in multiset(whos);
      assert Exclude(others[i], others[j]) == Exclude(others[j], others[i]);
      if others[i] == others[j] {
        TwiceIsCounted(others, i, j);
        OnceIsCounted(whos, others[i]);
      }
    }
  }

  lemma {:induction false} PermutedSigners(c: Case, ops: seq<SigningStep>, others: seq<SigningStep>)
    requires multiset(Whos(ops)) == multiset(Whos(others)) && AllSucceed(c, ops)
    ensures AllSucceed(c, others) && |ops| == |others|
    ensures CompleteWith(c, Whos(ops)) <==> CompleteWith(c, Whos(others))
  {
    SucceedIffAllCanSign(c, ops);
    PermutedCanSign(c, Whos(ops), Whos(others));
    SucceedIffAllCanSign(c, others);
    assert |ops| == |multiset(Whos(ops))| == |multiset(Whos(others))| == |others|;
    forall who ensures who in Whos(ops) <==> who in Whos(others) {
      assert who in multiset(Whos(ops)) <==> who in multiset(Whos(others));
    }
  }

  /** When a list of signings succeeds, the same signers succeed in any other order, at any times, and leave the same
      status. */
  lemma {:induction false} SigningOrderDoesNotMatter(c: Case, ops: seq<SigningStep>, others: seq<SigningStep>)
    requires c.sub.status == PENDING_SIGNATURES
    requires multiset(Whos(ops)) == multiset(Whos(others)) && AllSucceed(c, ops)
    ensures AllSucceed(c, others) && SignAll(c, ops).sub.status == SignAll(c, others).sub.status
  {
    PermutedSigners(c, ops, others);
    FinalStatus(c, ops);
    FinalStatus(c, others);
  }

  /** From SUBMITTED the order matters exactly when not all required fields are answered, or some signer is missing, and
      one order begins with a signing that leaves nothing unsigned while the other does not. */
  lemma {:induction false} SigningOrderFromSubmittedIff(c: Case, ops: seq<SigningStep>, others: seq<SigningStep>)
    requires c.sub.status == SUBMITTED && ops != [] && others != []
    requires multiset(Whos(ops)) == multiset(Whos(others)) && AllSucceed(c, ops)
    ensures AllSucceed(c, others)
    ensures SignAll(c, ops).sub.status == SignAll(c, others).sub.status <==>
      || (CaseFilled(c) && CompleteWith(c, Whos(ops)))
      || (CompleteWith(c, [ops[0].who]) <==> CompleteWith(c, [others[0].who]))
  {
    PermutedSigners(c, ops, others);
    FinalStatus(c, ops);
    FinalStatus(c, others);
  }
}
