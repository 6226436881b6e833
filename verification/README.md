# SEÑAL: a verified model of its core

SEÑAL is a backend for safety forms, electronic signatures and attendance. This project models the places of it where
something can go wrong between two database accesses, in an arithmetic detail, or in a string, and proves what its code
decides there.

- **Signatures and approvals.** `CanonicalJson` is the canonical printer with a parser that inverts it; `StableSorting`
  and `DocumentHash` build the signed document and its hash as of an instant; `DocumentContents` says what the document
  contains and that a stored answer cannot change without changing the hash, `DocumentText` writes out the text that is
  hashed. `SignatureProtocol` is a state machine in which every database access of every request (issuing, viewing,
  signing, checking, rejecting, changing status) is one step and requests interleave freely; every sequence of actions
  is a run. `SignatureTheorems` has what holds in every run, `SignatureWitnesses` the runs that show the side conditions
  are needed. `SignatureRuns` and `SignatureService` relate the service, written over mutable rows, to stretches of such
  runs; `SigningOrder` and `SigningRaces` compare runs that differ in the order of signing, request after request and
  interleaved, and `StaleChecks` has the exact condition under which no interleaving of signings can leave a submission
  with the wrong status. `FormApproval` and `SubmissionServices` are the submissions: their stored values, the automatic
  approval, rejection and the other writers of their status.
- **Attendance.** `Overtime` is the overtime arithmetic and its minute-by-minute reference; `Attendance` the lock
  protocol of registering an entry, and the closing of records.
- **Templates.** `SnakeCase` and `FormKeys` make field keys and make them unique; `TemplateFields` reconciles the fields
  of a template with an edited list.
- **Caches.** `TtlCache` is one cached value under any interleaving of readers, writers, failures and deletions;
  `RedisStore` and `FeatureFlags` are its two uses. `Catalogs`, `CatalogServices`, `CatalogCoherence` and
  `CatalogWrites` are the cached catalogs, the mutators of seven services, the coherence of the two, and what each call
  writes as the lists then show it.
- **Limits and exports.** `PinRateLimiter` is the fixed-window counter of PIN attempts; `CursorExport` the paged export.

Databases are maps and sequences, Redis is a map with expiry times, the clock is an integer that does not go back, and
SHA-256 is a function, taken as injective only where a lemma says so. A query that asks for no order may return its rows
in any. Strings are sequences of UTF-16 code units, printed as in section 25.5.2 of ECMA-262 and section 7 of RFC 8259.

A lemma that Dafny would prove by automatic induction carries `{:induction false}`: its induction, where it needs one,
is written out.

## Where the code and its comments differ

The model follows the code; these lemmas say what it decides.

- An internal signature is hashed before its record exists but recomputed with it among the signers, so it never
  verifies (`InternalSignatureNeverVerifies`, `InternalSignatureFailsTheReport`).
- A view that was loaded before a signing and writes after it overwrites SIGNED with VIEWED, which then blocks approval
  (`LateViewHidesSignature`); `SignedStatusLastsIff` says when SIGNED lasts. A check that decided before a token existed
  may approve after that token was superseded (`DecisionInFlightEscapesTheBlock`); `DeadTokenBlocksIff` says when it
  cannot. `SignatureVerifiesIff` says which signatures verify, and `SameInstantIssueHidesSignature` why the clock has to
  move on.
- The hash sorts the signers by identification number, which is unique only per work location, and the queries before
  ask for no order: with two external signers of one number and different names a signature verifies or not depending on
  the order the database returns (`NamesakesBreakVerification`); `HashIgnoresRowOrderIff` says when the order matters.
- APPROVED is called terminal, but a check that decided to wait for signatures before the approval overwrites it, and
  nothing need check again (`StaleCheckUndoesApproval`); `ApprovalLastsIff` says when an approval lasts.
- From SUBMITTED, what a check of an incomplete submission leaves depends on whether it ran while signatures were missing:
  `SigningOrderFromSubmittedIff` says when the order of the signers shows in the final status, `SettlesIffNotRacing` when
  some interleaving of signings leaves a complete submission waiting for ever.
- A number and a text that prints like it are hashed alike, so that exchange of a stored answer is not detected
  (`KindDoesNotShow`); `ChangedAnswerIff` says which changes are.
- The second unconditional delete of an entry can remove another caller's lock. That is harmless exactly as long as
  exits happen only while every entry call of the user and day owns its lock, and no lock expires inside a call whose user
  has no open record (`OneOpenRecord`, `SideConditionIsExact`; `ExitBetweenDeletesBreaksIt`, `ExpiryInsideCallBreaksIt`
  are runs in which it is not).
- An exit in the second of its entry counts a whole day (`SameSecondCountsADay`); `ReanchoringIsFaithfulIff` says when
  the counted duration is the real one.
- `ensureUniqueKeys` does not always make keys unique; `DistinctIffNoClash` says when it does.
- Editing a template with the id of another template's field rewrites that field there (`ForeignIdIsRewritten`), and an id
  that comes twice keeps one field (`RepeatedIdKeepsTheLast`); `UpdateIsExactIff` says when an edit is exact.
- The department service does not delete the cached master list of departments (`MasterListStaleIffShown`), and a link to
  another organization's row leaves that organization's lists stale (`OtherLocationsStaleIffLinked`,
  `OtherTemplatesStaleIffLinked`, `OtherTemplatesStaleIffRewritten`).
- Deleting a cache key does not help against a load that began before the change (`InvalidationLosesTheRace`);
  `DeletionWorksIffLoadsAreCurrent` says when it does.
- The rounded night count may exceed the extra minutes by one (`OffsetThirtyCountsOneTooMany`); the clamp hides it, and
  `NightExceedsIff` says when it is needed.
- A PIN counter whose expiry was never set, because its first call stopped in between, never lets anyone through again
  (`LostExpiryIsReached`, `FullCounterReopensIff`).

## Model

| member | source | states |
|---|---|---|
| `CanonicalJson.ParseInvertsStringify` | src/electronic-signature/canonical-hash.util.ts:69-87 | parsing a printed value, with anything after it that may follow a value, gives back its key-ordered form and exactly the rest |
| `CanonicalJson.CanonDecidesEquality` | src/electronic-signature/canonical-hash.util.ts:77-85 | two values have the same key-ordered form exactly when they are equal up to the order of object keys |
| `CanonicalJson.StringifyIsUnambiguous` | src/electronic-signature/canonical-hash.util.ts:69-87 | two values print to the same text if and only if they are equal up to key order |
| `CanonicalJson.AscendingIsUnique` | src/electronic-signature/canonical-hash.util.ts:77 | the sorted key list is determined by the set of keys, so insertion order cannot matter |
| `DocumentText.EscapesOfEcma262` | src/electronic-signature/canonical-hash.util.ts:86 | what every code unit becomes inside a string: the seven two-character escapes, four lower-case hexadecimal digits that denote it, or itself |
| `DocumentText.PairsAreCopied` | src/electronic-signature/canonical-hash.util.ts:86 | a surrogate pair is copied; only a surrogate without its other half is escaped |
| `DocumentText.ObjectIsPrintedInKeyOrder` | src/electronic-signature/canonical-hash.util.ts:77-85 | an object prints as its members in ascending order of their keys, whatever order they were inserted in |
| `DocumentText.DocumentIsPrinted` | src/electronic-signature/canonical-hash.util.ts:18-33 | the text that is hashed, written out key by key: the six members of the document and the members of its questions and signers |
| `DocumentHash.DocumentsDoNotCollide` | src/electronic-signature/canonical-hash.util.ts:102-105 | two canonical documents have the same serialization if and only if they are the same document |
| `DocumentContents.EveryAnswerIsShown` | src/electronic-signature/electronic-signature.service.ts:984-991 | the document has exactly one question for every stored value, with its field, its caption and the answer of its column (the text, else the printed number, date or JSON, else the file), in the order of field ids |
| `DocumentContents.DocumentNames` | src/electronic-signature/electronic-signature.service.ts:993-1038 | besides, it has the submission, its organization, template and date, and as signers exactly those invited or internally signed by the cutoff, under their names, numbers and roles, in the order of numbers |
| `DocumentContents.TamperingShows` | src/electronic-signature/electronic-signature.service.ts:1045-1061 | with an injective digest and injective printers, changing one stored text, number, date, JSON value or file changes the hash, in whatever orders the rows come and whoever has signed |
| `DocumentContents.ChangedAnswerIff` | src/electronic-signature/electronic-signature.service.ts:1045-1061 | with an injective digest, changing one stored value leaves the hash as it was, in some orders of the rows, if and only if the same is shown for it |
| `DocumentContents.KindDoesNotShow` | src/electronic-signature/electronic-signature.service.ts:1055-1056 | a number and a text that prints like it give the same hash |
| `DocumentHash.DocumentsCompare` | src/electronic-signature/electronic-signature.service.ts:977-1041 | two reads got the same rows if and only if no counted row was missing from the earlier one, and otherwise never give the same document, in whatever orders the rows came |
| `DocumentHash.HashAgreesIff` | src/electronic-signature/electronic-signature.service.ts:977-1041 | with an injective digest, hashing again agrees in some order of the rows if and only if no counted row was missing from what was read, and in any order if and only if, besides, no two different rows of one list are tied |
| `DocumentHash.LaterRowsAreNotRead` | src/electronic-signature/electronic-signature.service.ts:993-1014 | tokens and records stamped after `asOf` never change what is read, and so hashed, as of `asOf` |
| `DocumentHash.HashIgnoresRowOrderIff` | src/electronic-signature/electronic-signature.service.ts:984-1029 | with an injective digest, the hash is the same in whatever order the database returns values, tokens and records if and only if no two different questions share a field id, and no two different signers of one kind an identification number, for the collation |
| `DocumentHash.TiedSignersKeepInternalFirst` | src/electronic-signature/electronic-signature.service.ts:1016-1029 | signers of one cedula stay in the order internal before external, each as the database returned them |
| `StableSorting.SortIsStable` | src/electronic-signature/electronic-signature.service.ts:1027-1029 | elements that the comparison, any weak order, does not tell apart keep their order |
| `SignatureProtocol.RunKeepsInv` | src/electronic-signature/electronic-signature.service.ts:355-394 | every interleaving keeps: SIGNED tokens are consumed and recorded, records are unique and belong to consumed tokens of their signer, requests in flight hold rows that are still there, submissions are consistent |
| `SignatureProtocol.RunGrows` | src/electronic-signature/electronic-signature.service.ts:134-158 | in every continuation rows are only added, consumption is never undone, a consumed unsigned token never becomes SIGNED nor gets a new record |
| `SignatureTheorems.TokensAreSignedOnce` | src/electronic-signature/electronic-signature.service.ts:355-394 | in every run a token has at most one record, a recorded token is consumed, and SIGNED means consumed with exactly one record |
| `SignatureTheorems.ConsumptionIsForever` | src/electronic-signature/electronic-signature.service.ts:134-141 | once `used_at` is set it keeps its value in every continuation |
| `SignatureTheorems.ReissueSupersedes` | src/electronic-signature/electronic-signature.service.ts:134-141 | a re-issue consumes every unused token of the pair without a record |
| `SignatureTheorems.SupersededNeverSigns` | src/electronic-signature/electronic-signature.service.ts:337-394 | a superseded token gets no record and is never SIGNED, not even by a request that loaded it before |
| `SignatureTheorems.SignedStatusLastsIff` | src/electronic-signature/electronic-signature.service.ts:237-250 | at the commit of an external signature: its token has SIGNED status in every continuation if and only if no view of that token is in flight |
| `SignatureTheorems.VerificationIsExact` | src/electronic-signature/electronic-signature.service.ts:618-681 | after any continuation a signature verifies in some order of the rows if, and with an injective digest only if, no counted row stamped by its instant was missing from what the request had read; and in any order if and only if, besides, no two different rows it had read are tied |
| `SignatureTheorems.SignatureVerifiesIff` | src/electronic-signature/electronic-signature.service.ts:649 | with an injective digest, after every continuation in which the clock moves on first: a signature verifies in some order of the rows if and only if it is external and nothing was issued or signed internally since its request read the rows, and in whatever order they come if and only if, besides, no two different ones are tied |
| `SignatureTheorems.WhatIsSigned` | src/electronic-signature/electronic-signature.service.ts:977-1043 | what a signing request stores is the digest of the written-out text of a document with the submission, its template and date, one question for every stored value, and the signers it counted |
| `SignatureTheorems.TamperedAnswerFailsVerification` | src/electronic-signature/electronic-signature.service.ts:618-681 | with an injective digest and injective printers, once a stored answer has been changed to another one in the same column no record signed before verifies, in any order of the rows |
| `SignatureTheorems.InternalSignatureNeverVerifies` | src/electronic-signature/electronic-signature.service.ts:470-495 | with an injective digest an internal signature verifies after no continuation and in no order of the rows |
| `SignatureTheorems.ApprovalLastsIff` | src/form-approval/form-approval.service.ts:41-44 | an approved submission stays approved in every continuation in which nobody sets its status by hand if and only if no request in flight is a rejection, a change of status, or a check that has decided to wait for signatures |
| `SignatureTheorems.DeadTokenBlocksIff` | src/form-approval/form-approval.service.ts:95-118 | a submission with a superseded token is approved in no continuation that keeps requiring signatures if and only if no check has already decided to approve it |
| `SignatureTheorems.ApprovalComesFromReadiness` | src/form-approval/form-approval.service.ts:66-129 | an approval, written or decided, goes back to an instant of the run at which every condition of the check held |
| `SignatureTheorems.StatusesAreEarned` | src/form-submissions/form-submissions.service.ts:86-103 | in every run APPROVED has its date and goes back to an instant when every required field had been given a real answer at creation; REJECTED has its date and a trimmed reason of at least 10 characters |
| `SignatureTheorems.OnlyChecksApprove` | src/form-approval/form-approval.service.ts:120-129 | no step makes a submission APPROVED but the write of a check that decided so |
| `SignatureWitnesses.DecisionInFlightEscapesTheBlock` | src/form-approval/form-approval.service.ts:45-129 | a run in which a check that read before the token existed approves after it was superseded |
| `SignatureWitnesses.LateViewHidesSignature` | src/electronic-signature/electronic-signature.service.ts:237-250 | a run in which a late view leaves a signed and recorded token without SIGNED status |
| `SignatureWitnesses.SameInstantIssueHidesSignature` | src/electronic-signature/electronic-signature.service.ts:993-1001 | a run after which the same signature verifies in any order once the clock moves on, and in none when a token is issued in its instant |
| `SignatureWitnesses.NamesakesBreakVerification` | prisma/schema.prisma:596 | a run with two external signers of one identification number and different names: however undisturbed, the signature of one verifies in some order of the rows and not in another |
| `SignatureWitnesses.StaleCheckUndoesApproval` | src/form-approval/form-approval.service.ts:45-155 | a run that ends with everything complete, no request in flight, and the approval overwritten by PENDING_SIGNATURES |
| `SignatureRuns.SignOneState` | src/electronic-signature/electronic-signature.service.ts:330-420 | the state after one whole signing and its check, when nothing interrupts it |
| `SignatureRuns.CheckOneInClosedForm` | src/form-approval/form-approval.service.ts:45-155 | one uninterrupted check from any status, over the answers as they came: APPROVED exactly when every required field has an answer that is not blank and the frequency is NONE or every token is SIGNED and an internal record is there where one is asked for, else PENDING_SIGNATURES exactly when signatures are missing, else unchanged |
| `SignatureRuns.CreateOneState` | src/form-submissions/form-submissions.service.ts:55-130 | creating a submission and its first check: a row that holds the answers, and the status of the check |
| `SignatureRuns.RejectOneState` | src/form-approval/form-approval.service.ts:163-209 | one uninterrupted rejection: with a trimmed reason of 10 characters, from a submission of the organization that is SUBMITTED or waits, the date, the administrator and the trimmed reason; else nothing |
| `SignatureRuns.ChangeOneState` | src/form-submissions/form-submissions.service.ts:223-264 | one uninterrupted change of status by hand: never to APPROVED or REJECTED, and nothing but the status |
| `SignatureService.ElectronicSignatureService.CreateSignatureToken` | src/electronic-signature/electronic-signature.service.ts:129-158 | refuses submissions and signers that are not of the organization; one complete issue consumes the unused tokens of the pair, adds one that expires after the given hours, and is the issuing stretch of a run |
| `SignatureService.ElectronicSignatureService.GetPublicSignatureContent` | src/electronic-signature/electronic-signature.service.ts:237-250 | shows exactly tokens that are there, unused and not expired; the first opening marks the token and is the viewing stretch of a run |
| `SignatureService.ElectronicSignatureService.SignExternal` | src/electronic-signature/electronic-signature.service.ts:330-420 | the outcome of every refusal (token unknown, used, expired; too little reading; unknown place); on success the token is signed and used, one record of it is added and the submission is as a check leaves it, which is the signing stretch of a run; else nothing changes |
| `SignatureService.ElectronicSignatureService.SignInternal` | src/electronic-signature/electronic-signature.service.ts:436-521 | the outcome of every refusal (submission not of the organization, already signed, too little reading, unknown place); on success the whole new state is that of the signing stretch of a run, else nothing changes |
| `SignatureService.ElectronicSignatureService.VerifyDocumentIntegrity` | src/electronic-signature/electronic-signature.service.ts:618-681 | refuses exactly the submissions that are not of the organization; else one verdict per record of the submission, whatever order its rows come in, and the report is valid exactly when none of them is false |
| `SignatureService.InternalSignatureFailsTheReport` | src/electronic-signature/electronic-signature.service.ts:662-663 | with an injective digest, after an internal signature every later report contains a false verdict, in whatever orders the rows come |
| `SignatureService.AcceptedLogsAreLong` | src/electronic-signature/electronic-signature.service.ts:911-930 | no log entry counts for more than 300 seconds, so a log shorter than the required time allows is refused |
| `SignatureService.ReadingAdds` | src/electronic-signature/electronic-signature.service.ts:911-930 | the reading time of a log is the sum of its entries, each counted up to 300 seconds |
| `FormApproval.StoredEmptyIffBlank` | src/form-approval/form-approval.service.ts:286-304 | a stored value counts as empty exactly when the answer was absent, null, '' or [] |
| `FormApproval.EmptyIffNothingHeld` | src/form-approval/form-approval.service.ts:286-304 | a value row is empty exactly when its columns hold nothing but an empty text, an empty file, or a JSON null or empty list |
| `FormApproval.FilledIffAnswered` | src/form-approval/form-approval.service.ts:76-93 | a required field counts as filled exactly when some answer to it was not blank |
| `FormApproval.AnswersAreStored` | src/form-submissions/form-submissions.service.ts:266-316 | for each answer one row with its field, in order: a number in the number column, a date or a text that parses as one in the date column, any other text in the text column, a truth value, list or object in the JSON column, nothing for null or none |
| `FormApproval.EqualRowsIffSameAnswer` | src/form-submissions/form-submissions.service.ts:266-316 | two answers to a field are stored as equal rows if and only if they are equal, both null or absent, or texts or dates of one instant |
| `FormApproval.CheckInClosedForm` | src/form-approval/form-approval.service.ts:66-155 | the verdict of the check, over the answers as they came, the signatures and the columns of the template, from every status |
| `FormApproval.CheckIsIdempotent` | src/form-approval/form-approval.service.ts:45-155 | repeating the check at any later time changes nothing |
| `FormApproval.FinalStatus` | src/form-approval/form-approval.service.ts:95-155 | from SUBMITTED or PENDING_SIGNATURES, after any sequence of signings that are each followed by the check: APPROVED if and only if someone signed, the fields are answered and those who signed complete it; else PENDING_SIGNATURES, or still SUBMITTED when already the first signing left nothing unsigned |
| `FormApproval.SucceedIffAllCanSign` | src/electronic-signature/electronic-signature.service.ts:355-394 | a list of signings succeeds if and only if each could succeed alone and no two use one token or are one user |
| `FormApproval.SigningOrderDoesNotMatter` | src/electronic-signature/electronic-signature.service.ts:408-409 | when a list of signings succeeds, the same signers succeed in any other order, at any times, and leave the same status |
| `FormApproval.SigningOrderFromSubmittedIff` | src/form-approval/form-approval.service.ts:95-155 | from SUBMITTED two orders of the same signers leave the same status if and only if all ends complete, or their first signings agree on leaving something unsigned |
| `SigningOrder.SigningIsSignAndCheck` | src/electronic-signature/electronic-signature.service.ts:355-412 | that signing transition is the one of the protocol |
| `SigningOrder.VisitOrderDoesNotMatter` | src/form-approval/form-approval.service.ts:45-155 | the same for whole requests as stretches of a protocol run: any order, any times before the links expire, the same number of records and the same status |
| `SigningRaces.SigningsSettle` | src/form-approval/form-approval.service.ts:95-155 | however signing requests and their checks interleave, once no check of the submission is in flight and if no check could decide to wait from SUBMITTED, it is APPROVED if and only if someone signed, its fields are filled and those who signed complete it, and else has its status from before |
| `SigningRaces.SigningsNeverApproveEarly` | src/form-approval/form-approval.service.ts:95-155 | from SUBMITTED as well: nobody is approved unless someone signed and all is complete, and with signatures missing it waits as soon as someone has signed |
| `SigningRaces.InterleavingDoesNotMatter` | src/form-approval/form-approval.service.ts:95-155 | so two interleavings in which the same signers sign leave the same status |
| `StaleChecks.SettlesIffNotRacing` | src/form-approval/form-approval.service.ts:45-155 | from SUBMITTED every interleaving of signings ends APPROVED exactly when someone signed and all is complete, if and only if it is not so that only signatures are missing, some link is unsigned and every unsigned link can still be used |
| `SubmissionServices.SubmissionService.Collect` | src/form-submissions/form-submissions.service.ts:79-103 | the snapshot has exactly the keys of the fields, absent answers as null, and the i-th value row holds the i-th answer in the column of its kind and nothing else |
| `SubmissionServices.SubmissionService.CheckAutoApproval` | src/form-approval/form-approval.service.ts:45-155 | the loop over required fields and the signature test leave the status that the answers, the tokens, the records and the columns of the template call for, from every status |
| `SubmissionServices.SubmissionService.Reject` | src/form-approval/form-approval.service.ts:163-209 | the outcome of each error branch and the exact row written on success: date, rejecting administrator and trimmed reason |
| `SubmissionServices.SubmissionService.ChangeStatus` | src/form-submissions/form-submissions.service.ts:223-264 | the legacy endpoint never approves, leaves rejection to its rules and writes nothing else |
| `Overtime.AddWindows` | src/attendance/attendance-overtime.service.ts:205-211 | the loop over the windows of a day adds the rounded overlap of each |
| `Overtime.ComputeNightOverlap` | src/attendance/attendance-overtime.service.ts:182-217 | the loop over days computes the rounded sum of window overlaps |
| `Overtime.RoundingErrorIsBounded` | src/attendance/attendance-overtime.service.ts:205-210 | for start and end with the same seconds offset the rounded count is within 60 seconds of the exact night time, over any number of days and any window |
| `Overtime.NightOverlapCountsMinutes` | src/attendance/attendance-overtime.service.ts:141-144 | for whole minutes it is the number of minutes whose time of day is in the window |
| `Overtime.NightOverlapIsAdditive` | src/attendance/attendance-overtime.service.ts:182-217 | splitting a whole-minute interval splits its night minutes |
| `Overtime.NightExceedsByAtMostOne` | src/attendance/attendance-overtime.service.ts:158-174 | the count exceeds the minutes by at most one |
| `Overtime.NightExceedsIff` | src/attendance/attendance-overtime.service.ts:158-174 | it exceeds them if and only if every second is night, the interval goes over a midnight and the offset is 30 |
| `Overtime.OffsetThirtyCountsOneTooMany` | src/attendance/attendance-overtime.service.ts:169 | an interval of one minute that counts two |
| `Overtime.CalculateOvertime` | src/attendance/attendance-overtime.service.ts:27-131 | the method computes the classification of the specification for every input |
| `Overtime.ExtrasByDay` | src/attendance/attendance-overtime.service.ts:66-131 | the total from entry to exit, the regular minutes up to the standard, and the kind of the extra minutes: Sunday on a Sunday, holiday on a listed day that is none, day and night on every other day |
| `Overtime.SundayIsTheSeventhDay` | src/attendance/attendance-overtime.service.ts:92-101 | the Sundays are 4 January 1970 and the days a multiple of seven from it |
| `Overtime.NightExtrasAreExactToAMinute` | src/attendance/attendance-overtime.service.ts:133-175 | the night extras of an ordinary day are within a minute of the exact time that the minutes after the standard spend inside the night window |
| `Overtime.MinutesAreConserved` | src/attendance/attendance-overtime.service.ts:66-131 | the five parts are non-negative, add up to a total in 0..1440, and are of one kind of day |
| `Overtime.NightExtrasAreCounted` | src/attendance/attendance-overtime.service.ts:145-175 | with an entry on a whole minute the night extras are exactly the extra minutes inside the window |
| `Overtime.ReanchoredDuration` | src/attendance/attendance-overtime.service.ts:41-64 | for all instants and whatever dates the inputs carry, the rebuilt duration is the elapsed seconds up to whole days, in 1..86400 |
| `Overtime.ReanchoringIsFaithfulIff` | src/attendance/attendance-overtime.service.ts:41-64 | the rebuilt duration is the real one if and only if the exit is 1 to 86400 seconds after the entry |
| `Overtime.SameSecondCountsADay` | src/attendance/attendance-overtime.service.ts:62-64 | an exit in the second of its entry counts 1440 minutes |
| `Overtime.AutoCloseCounts440` | src/attendance/attendance.service.ts:274-287 | an automatic close counts 440 minutes, less lunch |
| `Attendance.OneOpenRecord` | src/attendance/attendance.service.ts:40-103 | in every undisturbed interleaving there is at most one open record per user and day |
| `Attendance.SafeIffInv` | src/attendance/attendance.service.ts:40-103 | with the calls in flight of today, every undisturbed continuation has at most one open record per user and day if and only if there is now at most one, every call without one owns its lock, and no call beside one is about to create |
| `Attendance.SideConditionIsExact` | src/attendance/attendance.service.ts:40-103 | from such a state a step keeps all that if and only if it is undisturbed: an exit if and only if every entry call of its user and day owns its lock, time if and only if it expires no lock of a call without an open record |
| `Attendance.ExitBetweenDeletesBreaksIt` | src/attendance/attendance.service.ts:96-103 | a run with an exit between the two deletes that ends with two open records |
| `Attendance.ExpiryInsideCallBreaksIt` | src/attendance/attendance.service.ts:40-45 | a run with an expiry inside a call that ends with two open records |
| `Attendance.EntryIsItsSteps` | src/attendance/attendance.service.ts:30-104 | an uninterrupted entry leaves what its protocol steps leave |
| `Attendance.AttendanceService.RegisterEntry` | src/attendance/attendance.service.ts:30-104 | which outcome each state gives, the record it adds and the lock it leaves free |
| `Attendance.AttendanceService.RegisterExit` | src/attendance/attendance.service.ts:108-189 | under its lock closes the first open record of the user today, with the exit time and the overtime from its entry to it, or changes nothing; refused while another exit holds the lock |
| `Attendance.AttendanceService.CloseDay` | src/attendance/attendance.service.ts:256-306 | closes exactly the open records of the organization on the day, each 440 minutes after its entry, and returns how many |
| `Attendance.AutoCloseWrites` | src/attendance/attendance.service.ts:256-306 | a record closed by the end of the day counts 440 minutes from its entry, less lunch, as overtime of its day |
| `Attendance.LocalDaysBeginAtFive` | src/attendance/attendance.service.ts:15 | the day of an instant changes exactly at five in the morning UTC |
| `Attendance.LockLastsTenSeconds` | src/attendance/attendance.service.ts:40-45 | a lock that nobody deletes holds for ten seconds and no longer |
| `SnakeCase.SnakeCaseIsPlain` | src/common/utils/form-keys.util.ts:5-13 | a key made from a caption has only lower-case letters, digits and underscores |
| `SnakeCase.KeepsUnit` | src/common/utils/form-keys.util.ts:5-13 | of one unit a lower-case letter, a digit, an underscore or white space is kept, and nothing else |
| `SnakeCase.SnakeCaseInWords` | src/common/utils/form-keys.util.ts:5-13 | the key is the kept words of the caption with one underscore for whatever white space is between them, and none outside |
| `SnakeCase.SnakeCaseIsIdempotent` | src/common/utils/form-keys.util.ts:5-13 | making a key from such a key gives it back |
| `SnakeCase.BaseKeyIsUsable` | src/common/utils/form-keys.util.ts:26-27 | the key a field asks for is never empty and never has outer white space |
| `FormKeys.EnsureUniqueKeys` | src/common/utils/form-keys.util.ts:20-39 | the traversal with its map of seen keys keeps every caption and gives the first occurrence of a base key that key and the n-th one the key with _n |
| `FormKeys.KeysAreNumbered` | src/common/utils/form-keys.util.ts:20-39 | the first position with a base key (the trimmed key, else one made from the caption, else the fixed word) gets it, and one after n others gets it with an underscore and n + 1 |
| `FormKeys.SuffixedIsInjective` | src/common/utils/form-keys.util.ts:30-33 | a generated key determines its base key and number |
| `FormKeys.GeneratedKeysDiffer` | src/common/utils/form-keys.util.ts:30-33 | generated keys never collide with each other |
| `FormKeys.DistinctIffNoClash` | src/common/utils/form-keys.util.ts:20-39 | all keys come out distinct if and only if no base key equals b_n with 2 <= n <= count(b) |
| `FormKeys.DistinctKeysAreKept` | src/common/utils/form-keys.util.ts:20-39 | distinct, trimmed, non-empty keys come out unchanged |
| `TemplateFields.TemplateStore.DeleteMissing` | src/form-templates/form-templates.service.ts:210-235 | deletes exactly the fields of the template that do not come and have no submission value |
| `TemplateFields.TemplateStore.Update` | src/form-templates/form-templates.service.ts:207-267 | commits the result of all upserts or, at the first clash, leaves everything as it was; a committed update with ids of the template or new ones has saved at position i the caption, kind, requirement and extras of the i-th incoming field, with its unique key and order i |
| `TemplateFields.ReferencedFieldsSurvive` | src/form-templates/form-templates.service.ts:222-234 | no field with a submission value is ever deleted, whatever arrives |
| `TemplateFields.UpsertsCharacterized` | src/form-templates/form-templates.service.ts:238-262 | the upserts succeed exactly when every key fits at its step, and then write every position and nothing else |
| `TemplateFields.UpdateIsExactIff` | src/form-templates/form-templates.service.ts:207-267 | a committed update leaves exactly the incoming fields in order and the kept fields with values, and other templates theirs, if and only if every id is this template's or new and comes once; with such ids it commits if and only if every key fits at its step |
| `TemplateFields.CommitsOnlyWithoutClash` | src/form-templates/form-templates.service.ts:207-267 | with ids of the template or new ones an update commits only if no base key is one generated for another, and if none of its fields is left before the upserts, exactly then |
| `TemplateFields.ForeignIdIsRewritten` | src/form-templates/form-templates.service.ts:252-257 | an id of another template is rewritten there and this template gets nothing |
| `TemplateFields.RepeatedIdKeepsTheLast` | src/form-templates/form-templates.service.ts:252-257 | an id that comes twice commits as well and keeps only its second field |
| `TtlCache.RunKeepsSound` | src/redis/redis.service.ts:71-110 | under any races and failures what is stored or on its way was a value of the source when it was read |
| `TtlCache.StalenessIsBounded` | src/redis/redis.service.ts:71-83 | every answer is what the source held when the load behind it read it, less than the time to live plus the delay of that load before |
| `TtlCache.AnswersStayCurrentIff` | src/redis/redis.service.ts:71-83 | all later answers are current, until someone writes again, if and only if every load on its way has read the current value and a live entry holds it |
| `TtlCache.DeletionWorksIffLoadsAreCurrent` | src/redis/redis.service.ts:102-110 | after a successful deletion: if and only if every load on its way has read the current value |
| `TtlCache.WriteThenDelete` | src/departments/departments.service.ts:76-84 | a write and a successful deletion, with nothing on its way at the write: every answer after the deletion is the written value until someone writes again |
| `TtlCache.WriterReadsItsWrite` | src/feature-flags/feature-flags.service.ts:106-112 | with nothing on its way at the write, every later answer is the written value until someone writes again |
| `TtlCache.LoadInFlightHidesTheWrite` | src/feature-flags/feature-flags.service.ts:72-82 | a read in flight at the write stores the old value over it |
| `TtlCache.InvalidationLosesTheRace` | src/redis/redis.service.ts:71-110 | a deletion after the change does not stop a load that began before it, and the staleness bound is exact |
| `RedisStore.RedisService.Remember` | src/redis/redis.service.ts:71-83 | the answer and the entry it leaves, with Redis up or failing at each access; other keys are untouched |
| `RedisStore.RedisService.TryLock` | src/redis/redis.service.ts:112-124 | acquired exactly when Redis answers and no live lock is there |
| `RedisStore.RememberIsItsSteps` | src/redis/redis.service.ts:71-83 | one `remember` is one hit, or one load and store, of the cache machine with the same answer and entry |
| `RedisStore.CatalogStalenessIsBounded` | src/common/cache-keys.ts:5-8 | a catalog is less than 120 seconds plus the time of its own load old |
| `FeatureFlags.FeatureFlagsService.IsEnabled` | src/feature-flags/feature-flags.service.ts:72-82 | answers the unexpired entry, else Redis's value, which it then caches |
| `FeatureFlags.FeatureFlagsService.RefreshCache` | src/feature-flags/feature-flags.service.ts:88-101 | every known flag gets Redis's value for another thirty seconds and no other entry changes |
| `FeatureFlags.FeatureFlagsService.SetFlag` | src/feature-flags/feature-flags.service.ts:106-112 | stores a text that reads back as the flag, caches the flag for thirty seconds, and changes no other flag |
| `FeatureFlags.OnValues` | src/feature-flags/feature-flags.service.ts:127-131 | a flag is on exactly for the texts on, true and 1 |
| `FeatureFlags.ReadIsItsSteps` | src/feature-flags/feature-flags.service.ts:72-82 | one read is one hit, or one load and store, of the cache machine |
| `FeatureFlags.FlagStalenessIsBounded` | src/feature-flags/feature-flags.service.ts:72-101 | an instance answers a value Redis held less than thirty seconds plus the time of its own read before |
| `Catalogs.KeysAreDistinct` | src/common/cache-keys.ts:10-16 | no two catalogs and no two organizations share a Redis key |
| `Catalogs.DepartmentsFrame` | src/departments/departments.service.ts:127-133 | a change of one organization's departments shows only in its departments, locations and master list, given linked locations |
| `Catalogs.CategoriesFrame` | src/form-categories/form-categories.service.ts:92-94 | a change of one organization's categories shows only in its categories and active templates, given linked templates |
| `Catalogs.LocationsFrame` | src/work-locations/work-locations.service.ts:122-124 | a change of one organization's locations shows only in its two location lists |
| `Catalogs.TemplatesFrame` | src/form-fields/form-fields.service.ts:195-197 | a change of one organization's templates and their fields shows only in its active templates |
| `CatalogServices.DepartmentEffect` | src/departments/departments.service.ts:62-125 | the mutators of departments change only departments of the caller and keep links |
| `CatalogServices.CategoryEffect` | src/form-categories/form-categories.service.ts:40-89 | the mutators of categories change only categories of the caller, and remove none that is linked |
| `CatalogServices.LocationEffect` | src/work-locations/work-locations.service.ts:52-120 | the mutators of locations change only locations of the caller |
| `CatalogCoherence.TemplateEffect` | src/form-templates/form-templates.service.ts:105-338 | creating, editing, publishing and removing a template change only templates of the caller's organization and their fields, as long as an edit names fields of the organization or new ones |
| `CatalogCoherence.BlueprintEffect` | src/form-blueprints/form-blueprints.service.ts:46-105 | using a blueprint is a change of categories followed by a change of templates |
| `CatalogCoherence.FieldEffect` | src/form-fields/form-fields.service.ts:35-193 | creating, updating, removing and reordering fields change only fields of one template of the caller |
| `CatalogCoherence.ChangesAreInvalidated` | src/master-lists/master-lists.service.ts:358-371 | a catalog whose key a call does not delete is the same after the call, but for the master list after the department service |
| `CatalogCoherence.RunKeepsCoherent` | src/common/cache-keys.ts:10-16 | in every sequential run with links inside organizations every cached catalog equals its loader on the current database |
| `CatalogCoherence.ReadsAreCurrent` | src/redis/redis.service.ts:71-83 | so every read answers what its loader gives now; for the master list when the department service is not used |
| `CatalogCoherence.MasterListStaleIffShown` | src/departments/departments.service.ts:127-133 | after a call of the department service the cached master list is stale exactly when the call creates, renames or removes a listed department |
| `CatalogCoherence.OtherLocationsStaleIffLinked` | src/work-locations/work-locations.service.ts:69-76 | after a changed department, another organization's cached locations, or active locations, are stale if and only if one of those listed links to it |
| `CatalogCoherence.OtherTemplatesStaleIffLinked` | src/form-templates/form-templates.service.ts:110-118 | after a renamed category, another organization's cached active templates are stale if and only if one of them links to it |
| `CatalogCoherence.OtherTemplatesStaleIffRewritten` | src/form-templates/form-templates.service.ts:238-262 | after an edited template, another organization's cached active templates are stale if and only if the edit names a field of one of them and the last row it writes there is another one |
| `CatalogCoherence.CatalogCache.Change` | src/master-lists/master-lists.service.ts:344-371 | a mutation changes the rows and then deletes the keys, as the step of the run |
| `CatalogWrites.NamesStayUnique` | src/departments/departments.service.ts:62-84 | no call of any of the seven services makes two departments, categories or locations of an organization share a name, or two fields of a template a key |
| `CatalogWrites.RunKeepsNamesUnique` | prisma/schema.prisma:269 | so in every run, with reads and expiries in between, names and keys stay unique |
| `CatalogWrites.DepartmentsShown` | src/departments/departments.service.ts:25-37 | the list shows exactly the active departments of the organization and the active global ones, and the master list their names |
| `CatalogWrites.LocationsShown` | src/work-locations/work-locations.service.ts:26-44 | the two lists show exactly the locations of the organization, one of them the active ones, each with the department it links to |
| `CatalogWrites.TemplatesShown` | src/form-templates/form-templates.service.ts:39-54 | the list shows exactly the active templates of the organization, each with its category and exactly its fields |
| `CatalogWrites.DepartmentRefusedIff` | src/departments/departments.service.ts:44-125 | exactly when each call on departments is refused: a name in use by another department of the organization, a global or foreign department, or a linked location |
| `CatalogWrites.DepartmentWritten` | src/departments/departments.service.ts:62-125 | the list of departments after a call in terms of the list before: one more with its name and e-mail, what is given changed and the rest kept, or one less |
| `CatalogWrites.MasterIsDepartments` | src/master-lists/master-lists.service.ts:94-160 | the master list creates and renames departments as the department service does, and deactivates linked ones too |
| `CatalogWrites.CategoryRefusedIff` | src/form-categories/form-categories.service.ts:40-89 | exactly when each call on categories is refused: a name in use, another organization, or a linked template |
| `CatalogWrites.CategoryWritten` | src/form-categories/form-categories.service.ts:40-89 | the list of categories after a call: one more, one renamed, or one less |
| `CatalogWrites.LocationRefusedIff` | src/work-locations/work-locations.service.ts:48-120 | exactly when each call on locations is refused: a name in use, a link to no department, or a foreign location |
| `CatalogWrites.LocationWritten` | src/work-locations/work-locations.service.ts:48-120 | the list of all locations after a call, each with the department it links to |
| `CatalogWrites.TemplateCreatedIff` | src/form-templates/form-templates.service.ts:105-172 | with new ids a template is created if and only if its category is there and no key of its fields repeats; it is a draft that no active list shows, with exactly the fields of the list |
| `CatalogWrites.StatusWritten` | src/form-templates/form-templates.service.ts:278-323 | a status changes exactly from draft to active, from active to archived without open drafts, and back to active; the active list then shows the template or no longer does |
| `CatalogWrites.CreatedThenPublished` | src/form-templates/form-templates.service.ts:39-54 | a template that is created and published is the one new entry of the active list, under its category, with exactly the fields of the list, each under its key and in order |
| `CatalogWrites.BlueprintWritten` | src/form-blueprints/form-blueprints.service.ts:46-103 | a blueprint uses the category of its name when the organization has one and else creates it, and is otherwise a created template |
| `CatalogWrites.TemplateEdited` | src/form-templates/form-templates.service.ts:174-275 | an edit writes the columns that are given, keeps the status and, with ids of the template or new ones, saves every field |
| `CatalogWrites.TemplateRemoved` | src/form-templates/form-templates.service.ts:325-337 | only drafts without submissions are removed, with exactly their fields |
| `CatalogWrites.FieldRefusedIff` | src/form-fields/form-fields.service.ts:35-193 | exactly when each call on the fields of a template is refused: by another organization, once there are submissions (but not for reordering), for fields of other templates, and for a key in use |
| `CatalogWrites.FieldWritten` | src/form-fields/form-fields.service.ts:35-193 | the fields of the template after a call; after reordering each has the order of the last item that names it and is otherwise unchanged |
| `PinRateLimiter.EachLifetimeAdmitsMin` | src/auth/pin/pin-rate-limiter.service.ts:51-58 | in every interleaving each lifetime of a counter lets exactly min(n, max) of n attempts through |
| `PinRateLimiter.ShortIntervalsAreBounded` | src/auth/pin/pin-rate-limiter.service.ts:51-68 | in every interleaving with r resets an interval shorter than 900 seconds lets at most (r + 2) * max - 1 attempts through |
| `PinRateLimiter.TheBoundIsReached` | src/auth/pin/pin-rate-limiter.service.ts:51-68 | for every r a run with r resets that lets (r + 2) * max - 1 attempts through within one second |
| `PinRateLimiter.BumpIsItsSteps` | src/auth/pin/pin-rate-limiter.service.ts:51-58 | one uninterrupted call is one increment and its expiry of the machine, with the same answer |
| `PinRateLimiter.FullCounterReopensIff` | src/auth/pin/pin-rate-limiter.service.ts:53-56 | a full counter admits an attempt in some continuation without reset or late expiry if and only if its expiry is set |
| `PinRateLimiter.LostExpiryIsReached` | src/auth/pin/pin-rate-limiter.service.ts:51-58 | a run from the beginning that leaves a full counter without expiry, when the first call stops in between |
| `PinRateLimiter.RateLimiter.CheckLimit` | src/auth/pin/pin-rate-limiter.service.ts:28-48 | an address may have ten attempts and an account five; an attempt refused by address leaves the account counter unchanged, otherwise both are counted, and the whole new state is stated |
| `PinRateLimiter.KeysDiffer` | src/auth/pin/pin-rate-limiter.service.ts:29-39 | addresses and accounts never share a counter |
| `CursorExport.Export` | src/form-exports/form-exports.service.ts:295-326 | while rows may be inserted anywhere and change content, it ends, writes no row twice, in order, writes every row the first query could see, each as some query saw it; with only newer inserts, exactly the rows of the first query |

## Left out

- The order of cached lists: a catalog is the set of its rows; `orderBy name` depends on the collation of the database.
- The signature token cached in Redis: it is written and deleted but never read by the modelled methods.
- Stroke images, geolocation and WebAuthn flags of a signature: stored with the record and read by nothing modelled. In the protocol a request refused for its reading log is one that stops at `Abort`.
- Changes of field labels, template names, users and external signers during a run: the signed document reads them, and the code neither versions nor protects them; the theorems hold while they are fixed. A user's identification number is always found, so the fallback to the user id is not modelled.
- The work location and period key of a new submission: checked or stored once and read by nothing modelled.
- Ids the database generates: taken as new and distinct where a template is created (`NewIds`).
- A Prisma query with its includes is one step, and so is a transaction.
- JSON numbers other than safe integers, `undefined` and dates inside `stableStringify`: canonical documents hold strings, arrays and objects only.
- The printers of numbers, dates and JSON inside a document, the parser of dates, collation, lower-casing and canonical decomposition are parameters.
- Hash version 1 records beyond being reported as not verifiable.
- An entry call that dies in the middle: its lock simply expires, which the protocol counts as a call still in flight.
- The report of `verifyDocumentIntegrity` lists the records in table order; whether it is valid does not depend on it.
- The exit lock in the attendance protocol, where exits may interleave freely apart from the stated side condition; the service method has it. A user belongs to one organization, since the lock key has none.
- Times of day are whole seconds of a fixed UTC-5; the weekday is computed from the day number and holidays are a set of days.
- Positions and roles as master lists: the same code as for departments without any other cached catalog.
- The job-title filter of `findActive`, applied after the cached list is read.
- The geocoding of addresses, notifications, mail and the rendering of rows, which happen beside the modelled steps.
- `CatalogCoherence.ReadsAreCurrent`: states coherence for sequential runs with Redis up; races and failures are covered by the staleness bounds.
- `CursorExport.Export`: the ids stand for their place in the database's order; that submissions are never deleted is a property of the repository, not of the loop.
- `Attendance.AttendanceService.RegisterExit`: states the uninterrupted call; its interleavings are the exit steps of the protocol, without their lock.
- Controllers, guards, modules, OAuth, PDF and Excel rendering and plain record keeping: no state of their own.
