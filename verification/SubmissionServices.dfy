/** The services that write submissions, over mutable rows. */
module SubmissionServices {
  import opened Wrappers
  import opened JsText
  import opened SignatureData
  import opened FormApproval

  datatype Field = Field(id: Id, key: Text)

  datatype Outcome = Done | BadRequest | NotFound | Forbidden

  datatype Role = OPERATOR | ADMIN | SUPER_ADMIN

  /** What the request body has under a key. */
  function Lookup(body: map<Text, Raw>, key: Text): Raw {
    if key in body then body[key] else Undefined
  }

  function Answers(fields: seq<Field>, body: map<Text, Raw>): seq<Answer> {
    seq(|fields|, i requires 0 <= i < |fields| => Answer(fields[i].id, Lookup(body, fields[i].key)))
  }

  predicate DistinctIds(fields: seq<Field>) {
    forall i, j :: 0 <= i < j < |fields| ==> fields[i].id != fields[j].id
  }

  class SubmissionService {
    /** The date parser of the platform. */
    const parseDate: Text -> Option<Instant>
    var submissions: map<Id, Submission>
    var templates: map<Id, Template>
    var tokens: seq<Token>
    var records: seq<Record>

    /** Every submission has a template, a consistent status and the value rows of its answers, one per field. */
    ghost predicate Valid()
      reads this
    {
      forall id :: id in submissions ==>
        && submissions[id].template in templates && StatusSound(submissions[id])
        && DistinctFields(submissions[id].answers)
        && StoredFrom(submissions[id].values, submissions[id].answers, parseDate)
    }

    constructor (parser: Text -> Option<Instant>)
      ensures parseDate == parser && Valid() && submissions == map[] && tokens == [] && records == []
    {
      parseDate := parser;
      submissions, templates, tokens, records := map[], map[], [], [];
    }

    /** The snapshot and the value rows that `create` builds from the request body: each field's answer, in order. */
    method Collect(fields: seq<Field>, body: map<Text, Raw>) returns (data: map<Text, Raw>, values: seq<ValueRow>)
      ensures data.Keys == set f | f in fields :: f.key
      ensures forall k :: k in data ==> data[k] == if k in body && body[k] != Undefined then body[k] else NullValue
      ensures |values| == |fields|
      ensures forall i :: 0 <= i < |fields| ==>
                Stores(values[i], fields[i].id, if fields[i].key in body then body[fields[i].key]
                  else Undefined, parseDate)
    {
      data := Snapshot(fields, body);
      var answers := Answers(fields, body);
      values := BuildValues(answers, parseDate);
      AnswersAreStored(answers, parseDate);
    }

    method Snapshot(fields: seq<Field>, body: map<Text, Raw>) returns (data: map<Text, Raw>)
      ensures data.Keys == set f | f in fields :: f.key
      ensures forall k :: k in data ==> data[k] == if k in body && body[k] != Undefined then body[k] else NullValue
    {
      data := map[];
      for n := 0 to |fields|
        invariant data.Keys == set f | f in fields[..n] :: f.key
        invariant forall k :: k in data ==> data[k] == if k in body && body[k] != Undefined then body[k] else NullValue
      {
        var raw := Lookup(body, fields[n].key);
        data := data[fields[n].key := if raw.Undefined? then NullValue else raw];
        assert fields[..n + 1] == fields[..n] + [fields[n]];
      }
      assert fields[..|fields|] == fields;
    }

    /** Sends a form in, on the active template of the organization that was asked for, if there is one. */
    method Create(id: Id, org: Id, template: Option<Id>, fields: seq<Field>, body: map<Text, Raw>, now: Instant)
      returns (outcome: Outcome)
      requires Valid() && id !in submissions && DistinctIds(fields)
      requires template.Some? ==> template.value in templates
      modifies this`submissions
      ensures Valid()
      ensures outcome == if template.Some? then Done else NotFound
      ensures outcome.NotFound? ==> submissions == old(submissions)
      ensures outcome.Done? ==>
                && id in submissions && submissions == old(submissions)[id := submissions[id]]
                && submissions[id].org == org && submissions[id].template == template.value
                && submissions[id].submittedAt == now && submissions[id].status == SUBMITTED
                && submissions[id].autoApprovedAt == None
                && |submissions[id].answers| == |fields|
                && (forall i :: 0 <= i < |fields| ==>
                      submissions[id].answers[i]
                      == Answer(fields[i].id, if fields[i].key in body then body[fields[i].key] else Undefined))
    {
      if template.None? {
        return NotFound;
      }
      var data, values := Collect(fields, body);
      var answers := Answers(fields, body);
      submissions := submissions[id :=
        Submission(org, template.value, now, answers, values, SUBMITTED, None, None, None, None)];
      return Done;
    }

    /** `checkAutoApproval`, run without interruption. */
    method CheckAutoApproval(id: Id, now: Instant)
      requires Valid()
      modifies this`submissions
      ensures Valid()
      ensures id !in old(submissions) ==> submissions == old(submissions)
      ensures id in old(submissions) ==>
                && id in submissions && submissions == old(submissions)[id := submissions[id]]
                && CheckedAs(old(submissions[id]), submissions[id], id, templates[old(submissions[id]).template],
                             tokens, records, now)
    {
      if id !in submissions {
        return;
      }
      var sub := submissions[id];
      ghost var checked := CheckedForm(sub, id, templates[sub.template], tokens, records, now, parseDate);
      if !Processable(sub.status) {
        assert submissions == submissions[id := sub];
        return;
      }
      var template := templates[sub.template];
      var allRequiredFilled := true;
      var n := 0;
      while n < |template.required|
        invariant 0 <= n <= |template.required|
        invariant allRequiredFilled <==> forall i :: 0 <= i < n ==> Filled(sub.values, template.required[i])
      {
        var row := LastRow(sub.values, template.required[n]);
        n := n + 1;
        if row.None? || IsValueEmpty(row.value) {
          allRequiredFilled := false;
          assert !Filled(sub.values, template.required[n - 1]);
          break;
        }
      }
      assert allRequiredFilled <==> AllFilled(template.required, sub.values);
      var signaturesComplete := true;
      if NeedsSignatures(template) {
        var pendingExternal := exists i :: 0 <= i < |tokens| && tokens[i].submission == id && tokens[i].link != SIGNED;
        if pendingExternal {
          signaturesComplete := false;
        } else if template.requiresInternal == Some(true) && !InternallySigned(records, id) {
          signaturesComplete := false;
        }
      }
      if allRequiredFilled && signaturesComplete {
        submissions := submissions[id := sub.(status := APPROVED, autoApprovedAt := Some(now))];
      } else if NeedsSignatures(template) && !signaturesComplete {
        if !sub.status.PENDING_SIGNATURES? {
          submissions := submissions[id := sub.(status := PENDING_SIGNATURES)];
        }
      }
      assert submissions[id] == checked;
    }

    method Reject(id: Id, admin: Id, adminOrg: Id, reason: Text, now: Instant) returns (outcome: Outcome)
      requires Valid()
      modifies this`submissions
      ensures Valid()
      ensures outcome ==
              if |Trim(reason)| < 10 then BadRequest
              else if id !in old(submissions) || old(submissions[id]).org != adminOrg then NotFound
              else if old(submissions[id]).status !in {SUBMITTED, PENDING_SIGNATURES} then Forbidden
              else Done
      ensures submissions ==
              if outcome.Done? then
                old(submissions)[id := old(submissions[id]).(
                  status := REJECTED, rejectedAt := Some(now), rejectedBy := Some(admin),
                  rejectionReason := Some(Trim(reason)))]
              else old(submissions)
    {
      if |Trim(reason)| < MIN_REASON {
        return BadRequest;
      }
      if id !in submissions || submissions[id].org != adminOrg {
        return NotFound;
      }
      if !Processable(submissions[id].status) {
        return Forbidden;
      }
      submissions := submissions[id := Rejected(submissions[id], admin, reason, now)];
      return Done;
    }

    /** The legacy status endpoint: it can neither approve nor skip the rules of rejection. */
    method ChangeStatus(id: Id, org: Id, status: Status, user: Id, role: Role, reason: Option<Text>, now: Instant)
      returns (outcome: Outcome)
      requires Valid()
      modifies this`submissions
      ensures Valid()
      ensures status.APPROVED? ==> outcome.Forbidden?
      ensures status.REJECTED? && role.OPERATOR? ==> outcome.Forbidden?
      ensures status.REJECTED? && !role.OPERATOR? ==>
                outcome == RejectOutcome(old(submissions), id, org, if reason.Some? then reason.value else [])
      ensures !outcome.Done? ==> submissions == old(submissions)
      ensures outcome.Done? ==>
                && id in old(submissions) && old(submissions[id]).org == org
                && submissions == old(submissions)[id :=
                     if status.REJECTED?
                       then Rejected(old(submissions[id]), user, if reason.Some? then reason.value else [], now)
                     else old(submissions[id]).(status := status)]
      ensures !status.APPROVED? && !status.REJECTED? ==>
                (outcome.Done? <==> id in old(submissions) && old(submissions[id]).org == org)
    {
      if status.APPROVED? {
        return Forbidden;
      }
      if status.REJECTED? {
        if role.OPERATOR? {
          return Forbidden;
        }
        outcome := Reject(id, user, org, if reason.Some? then reason.value else [], now);
        return;
      }
      if id !in submissions || submissions[id].org != org {
        return NotFound;
      }
      submissions := submissions[id := submissions[id].(status := status)];
      return Done;
    }
  }

  lemma CheckedForm(sub: Submission, id: Id, t: Template, tokens: seq<Token>, records: seq<Record>, now: Instant,
                    parseDate: Text -> Option<Instant>) returns (after: Submission)
    requires DistinctFields(sub.answers) && StoredFrom(sub.values, sub.answers, parseDate)
    ensures after ==
            if Processable(sub.status) && AllFilled(t.required, sub.values)
              && SignaturesComplete(t, tokens, records, id)
              then sub.(status := APPROVED, autoApprovedAt := Some(now))
            else if Processable(sub.status) && !SignaturesComplete(t, tokens, records, id)
              then sub.(status := PENDING_SIGNATURES)
            else sub
    ensures CheckedAs(sub, after, id, t, tokens, records, now)
  {
    after := Checked(sub, id, t, tokens, records, now);
    CheckInClosedForm(sub, id, t, tokens, records, now, parseDate);
  }

  function RejectOutcome(submissions: map<Id, Submission>, id: Id, adminOrg: Id, reason: Text): Outcome {
    if !AcceptableReason(reason) then BadRequest
    else if id !in submissions || submissions[id].org != adminOrg then NotFound
    else if !Processable(submissions[id].status) then Forbidden
    else Done
  }
}
