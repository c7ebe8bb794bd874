# ADCS issuer: the certificate-request protocol

The ADCS issuer gives cert-manager certificates from Active Directory Certificate Services (ADCS). Two
controllers share the work. The CertificateRequest controller decides which CertificateRequests to serve and
makes an AdcsRequest of the same name for each. The AdcsRequest controller submits the CSR to the ADCS web
pages, or asks about a request it submitted before, and then writes the outcome: first into the
CertificateRequest, then into the AdcsRequest, in two updates that can each fail.

This project models that system and proves what it promises.

## How it is built

| files | what they hold |
|---|---|
| `Api`, `Protocol` | the two objects, and the protocol as a state machine with one action for every store or CA call of either controller, so that the controllers, the CA, the approver and everybody else interleave at every call |
| `Invariant` | the inductive invariant of all reachable worlds |
| `Safety`, `Continuations`, `Provenance`, `Denials`, `Incarnations` | the properties of reachable worlds, of whole runs, of every continuation of a run |
| `Possible` (over `Solo`) | exact conditions: where one holds, every continuation keeps the property; where it does not, some continuation breaks it |
| `Counterexamples` | concrete runs showing what the protocol does not promise |
| `Cluster`, `Controllers` | the two `Reconcile` methods, call by call, over an API server on which everybody else may act before every call; whatever they do is a run of the protocol |
| `Issuer` | `Issue`, which rewrites the request it is given in place, and the choice of the CA certificate |
| `Regex`, `Scan` | the regular expressions of the clients: a backtracking matcher proved against a declarative relation, and what each pattern finds |
| `Pages`, `Http`, `NtlmCertsrv`, `KerberosCertsrv`, `TwoClients` | what a CA page means, as functions, the two clients, and their agreement |
| `Promises` | what a client call promises, in the words of replies, pages and requests alone; the functions keep it |
| `Replies` | from a reply of the CA's web server to the protocol: what was sent, and what is read |
| `IssuerFactory` | issuer, credentials and CA-bundle resolution |
| `DeepCopy` | the generated deep copies, on references |

A class whose fields the original updates in place is a class here; the specification of each method is a
function (for the pages and the issuer) or a step of the state machine (for the controllers), and the lemmas
are about those.

The `Cluster` class carries a ghost `trace`. Its `Valid()` says that the trace is a run of the protocol from the
empty cluster and ends in the present world. Every `Reconcile` keeps it, begins exactly one reconcile, breaks
none off, ends where the protocol's controller is idle again, and says which of its own writes took effect, in
their order, and which servers it turned to; so the theorems about runs are theorems about the two methods.

The ledger of the CA holds what the CA sent: the number it gave to a CSR, or the certificate, and at which
server. What reaches the client is a second thing (`Protocol.Read`): a body can break off and a number can lose
a digit. Provenance is proved for both.

Each method of a client, of `Issuer` and of `IssuerFactory` is tied to its function and, separately, to a
predicate that does not name that function or its parts: `Promises.Queries`, `Submitted` and `FetchedCa` for the
pages, `Issuing.IssueIs` for one Issue, `Factory.ResolvesTo` and `IsBundle` for the issuer. The two `Reconcile`
methods say in the same way what they do about the object they have read.

## Assumptions

- At most one reconcile of a controller is under way for a name; different names and the two controllers interleave freely.
- A Get returns what is stored at that moment. It may also fail.
- A status update commits only at the resourceVersion that was read; it may be lost on the way, and its reply may be lost after it committed. Every committed update gives a new resourceVersion: the API server's suppression of updates that change nothing is not modelled.
- Creating an object fails if the name exists; Delete goes by name.
- Only these two controllers write Ready conditions, certificates, failure times and AdcsRequests. The approver decides once (Approved or Denied). Anything else about a CertificateRequest may change at any time without touching its spec, which is immutable.
- Deleting a CertificateRequest deletes the AdcsRequest it owns with it; an AdcsRequest whose owner is gone may be collected at any time.
- The number that a CA page gives, in its link or in its notice, is the number the CA has given to this CSR. An issuer may be pointed at another server at any time.
- A panic in a reconcile counts as a failed attempt that is queued again.
- That a name fixes its CSR (the comment at `controllers/certificaterequest_controller.go:135-138`) is not assumed in general. It is a hypothesis of the two theorems about whole runs in `Provenance` alone, and `Counterexamples.CertificateOfAnother` shows that it is needed.

## What the code does not promise

Each of these is a lemma; the exact condition under which the natural claim does hold stands beside it.

- "Issued" is not forever (`Counterexamples.IssuedIsNotForever`): if the AdcsRequest update fails after the CertificateRequest update, the next attempt submits again and may end otherwise. Issued holds over every continuation that keeps both objects if and only if the AdcsRequest is stored as ready (`Possible.IssuedForever`).
- One AdcsRequest may be submitted twice (the same run). Another submission is possible if and only if it is stored as unknown (`Possible.SubmittedAgain`).
- Reconciling an AdcsRequest that is stored as ready takes the certificate and the CA away from its CertificateRequest, which stays Issued (`Possible.ReadyAgainErases`). A certificate can be erased while both objects stay if and only if the AdcsRequest is not stored as rejected or errored (`Possible.CertificateErased`). A committed "Issued" carries a certificate if and only if the attempt did not read a final state (`Provenance.IssuedWrite`).
- A certificate need not be what the CA sent for the CSR. The body may break off (`Counterexamples.CertificateCutShort`) or the number lose its last digit (`Counterexamples.CertificateOfAnotherNumber`): a reply is read as it was sent if and only if neither happens (`Provenance.LegibleIsFaithful`, and on the bytes of a reply `Replies.ReplyIsFaithful`).
- The issuer may have been pointed at another server (`Counterexamples.CertificateFromElsewhere`), or the name used again while an attempt was under way (`Counterexamples.CertificateOfAnother`): the AdcsRequest controller compares neither servers nor CSRs. Where a number is about to be asked about, whatever comes back is what the CA sent for the CertificateRequest's own CSR if and only if that server has given this number to this CSR, for this AdcsRequest (`Possible.RightlyPolled`; this covers the cut number too). Where a CSR is about to be submitted, whatever comes back whole is so if and only if the two CSRs are equal (`Possible.RightlySubmitted`).
- `RequestCertificate` takes a body that broke off for good if and only if it has the content type of a certificate (`Pages.BrokenReply`; `adcs/ntlm_certsrv.go:259-274`, `adcs/kerberos_certsrv.go:271-283`).
- "Your Request Id is 202" at the end of a line or of the page is read as request 20 (`Scan.NoticeCutShort`), because the final `.` of the pattern must match something. The number is whole if and only if its line goes on (`Scan.NoticeIsWhole`).
- A denial does not always stop the AdcsRequest (`Counterexamples.DeniedTooLate`). A denied CertificateRequest without an AdcsRequest still gets one if and only if a reconcile had already passed the gates (`Possible.DeniedGetsAr`), and something is still submitted for it if and only if that is so or an attempt is about to submit (`Possible.DeniedIsSent`).
- A CertificateRequest may cause two AdcsRequests (`Counterexamples.MadeTwice`). While it is stored there is at most one (`Incarnations.OneAtATime`). Once it is gone, another can still be made if and only if a reconcile that has passed the gates with it is under way (`Possible.AnotherMade`), and there are never three (`Incarnations.TwoAtMost`).
- `.*Taken Under Submission*.` and `.*Denied by*.` ask for "Taken Under Submissio" and "Denied b" followed by any character but a newline (`Scan.PageSays`).
- A failing `Issue` may have rewritten the status it was given (`Issuing.FailureMayRewrite`); the store shows nothing of it (`Controllers.AdcsRequestReconciler.Reconcile`, `Safety.OnlyCommitsShow`).

Where code and documentation disagree, the model follows the code:

- `api/v1/adcsrequest_types.go:43` calls 'ready' and 'rejected' final; `issuers/issuer.go:43-54` treats 'errored' as final too.
- `api/v1/adcsrequest_types.go:25-26` says that a request for an issuer of another kind is marked as failed; `controllers/adcsrequest_controller.go:58-62` only returns an error.
- `issuers/issuer.go:35` promises certificate and CA certificate when the status is 'Ready'; a request that was ready before gets neither.
- A status query answered with anything but 200 was meant to be an error; both clients panic there, because the error text is taken from a nil error (`adcs/ntlm_certsrv.go:196`, `adcs/kerberos_certsrv.go:205`).
- The branch for a match without its group (`adcs/ntlm_certsrv.go:163-166`) cannot be taken and is left out.

## Model

| member | source | states |
|---|---|---|
| Invariant.InvariantHolds | controllers/adcsrequest_controller.go:34-141 | every run from the empty cluster, with every interleaving, failure, lost reply and crash, keeps the invariant of every name |
| Invariant.StepKeeps | controllers/certificaterequest_controller.go:39-158 | any one step of anybody keeps the invariant of all names |
| Invariant.CrWriteAgrees | controllers/certificaterequest_controller.go:90-101 | a write of the CertificateRequest controller that commits, "Processing" or "Denied", cannot make a finished AdcsRequest and its CertificateRequest disagree |
| Invariant.HistoryGrows | controllers/certificaterequest_controller.go:160-173 | no step forgets a version of a CertificateRequest or the snapshot an AdcsRequest was made from |
| Safety.OutcomeAgreement | controllers/adcsrequest_controller.go:84-140 | in every reachable world a finished AdcsRequest and the CertificateRequest owning it agree: ready and Issued, errored and Failed, rejected and Pending with the rejection message, unless that one was denied and marked so |
| Safety.NoLostOutcome | controllers/certificaterequest_controller.go:61-104 | a status write of the CertificateRequest controller commits only on a CertificateRequest that is neither ready, failed nor marked denied; "Processing" never lands on a finished request, and a denial only on a denied one |
| Safety.Converged | controllers/certificaterequest_controller.go:117-157 | a reconcile past the gates that returns no error leaves an AdcsRequest with this CSR, whatever there was before and even if Delete failed |
| Solo.SecondRunChangesNothing | controllers/certificaterequest_controller.go:126-133 | a second reconcile right after that changes nothing, whoever stepped in, if and only if the same CertificateRequest has not been denied meanwhile |
| Safety.GateMeaning | controllers/certificaterequest_controller.go:54-115 | a request passes the gates if and only if it is ours, not ready, failed or marked denied, not denied, approved when the check is on, and has no certificate; it is to be marked if and only if it is ours, none of the three, and denied |
| Possible.DenialIsMarked | controllers/certificaterequest_controller.go:88-101 | from every world with an idle controller and such a denied request, the next reconcile marks it, with the failure time it had or else the clock reading |
| Safety.ApprovalSafety | controllers/certificaterequest_controller.go:56-115 | every CSR the CA received was, at some point of the run, the request of a stored CertificateRequest of our group, not denied, and approved when the check is on |
| Possible.DeniedGetsAr | controllers/certificaterequest_controller.go:88-151 | a denied CertificateRequest without an AdcsRequest can still get one if and only if a reconcile under way had passed the gates |
| Possible.DeniedIsSent | controllers/certificaterequest_controller.go:88-151 | something can still be submitted for it if and only if that is so or an attempt is about to submit |
| Continuations.DeniedStaysOut | controllers/certificaterequest_controller.go:88-101 | denied, no AdcsRequest and no reconcile past the gates: no continuation that keeps the CertificateRequest makes one |
| Continuations.DeniedStaysSilent | controllers/certificaterequest_controller.go:88-101 | with no attempt about to submit either, nothing is ever submitted for its name |
| Denials.MarkHasReason | controllers/certificaterequest_controller.go:88-101 | in every reachable world a CertificateRequest marked as denied carries the approver's denial and a failure time |
| Denials.FailureTimeStays | controllers/certificaterequest_controller.go:93-98 | over every continuation, a failure time once stored never changes while its CertificateRequest lives |
| Counterexamples.DeniedTooLate | controllers/certificaterequest_controller.go:90-151 | a run in which a CertificateRequest is denied and gets its AdcsRequest all the same |
| Safety.SubmissionBound | issuers/issuer.go:42-67 | the CA receives at most one more submission for an AdcsRequest than there were failed attempts while it was unknown |
| Possible.SubmittedAgain | issuers/issuer.go:42-67 | another submission for a stored AdcsRequest is possible if and only if it is stored as unknown |
| Incarnations.OneAtATime | controllers/certificaterequest_controller.go:117-151 | while a CertificateRequest is stored at most one AdcsRequest was ever made for it, and that one is stored |
| Possible.AnotherMade | controllers/certificaterequest_controller.go:117-173 | for a CertificateRequest that is gone an AdcsRequest can still be made if and only if a reconcile that has passed the gates with it is under way |
| Incarnations.SpecsAgree | controllers/certificaterequest_controller.go:160-173 | in every reachable world an AdcsRequest has the CSR and the issuer reference of the CertificateRequest that owns it |
| Incarnations.AnotherIsOrphan | controllers/certificaterequest_controller.go:145-173 | an AdcsRequest is made with the uid of the snapshot as owner, its CSR and its issuer reference, and no status; a second one only for a CertificateRequest that is gone (when it can be made at all: Possible.AnotherMade) |
| Incarnations.TwoAtMost | controllers/certificaterequest_controller.go:145-173 | a CertificateRequest never causes more than two AdcsRequests |
| Incarnations.RequestSubmissionBound | issuers/issuer.go:42-67 | for a stored CertificateRequest the CA receives at most one more submission than attempts failed while unknown, over all its AdcsRequests |
| Counterexamples.MadeTwice | controllers/certificaterequest_controller.go:119-151 | a run in which a CertificateRequest is deleted during its second reconcile and gets a second AdcsRequest |
| Continuations.NoSubmissionAfterAnswer | issuers/issuer.go:42-58 | once any state but unknown is stored, no continuation submits for this AdcsRequest again |
| Safety.EndsAreCounted | controllers/adcsrequest_controller.go:68-139 | the tallies move exactly when an attempt on an unfinished request ends: failed if the stored AdcsRequest is unchanged, a pending answer if it now says so |
| Continuations.TallyIsRecount | controllers/adcsrequest_controller.go:68-139 | in every run the tallies are the ends of attempts counted along the run |
| Safety.AttemptsConserved | controllers/adcsrequest_controller.go:68-139 | failed attempts, pending answers and at most one final answer are all the attempts there were |
| Safety.TerminationBound | issuers/issuer.go:70-92 | one attempt more than there may be failures and pending answers reaches a final state |
| Continuations.TerminationInRuns | issuers/issuer.go:70-92 | the same with the attempts counted along any run |
| Safety.RequestIds | issuers/issuer.go:45-50 | unknown has no id, pending a decimal one, a final state a decimal one or "none"; only decimal ids are polled; "adcs id not set" cannot happen |
| Continuations.StatusMovesUp | api/v1/adcsrequest_types.go:57-79 | over every continuation the stored state only moves up unknown, pending, final; a final status never changes |
| Continuations.IdIsImmutable | api/v1/adcsrequest_types.go:35-40 | an id once stored never changes |
| Continuations.FinalStays | issuers/issuer.go:51-54 | while a finished AdcsRequest is stored, nothing is submitted for its name and no AdcsRequest is made |
| Continuations.RejectedMeansNoRetry | controllers/adcsrequest_controller.go:115-124 | while a rejected AdcsRequest is stored it stays rejected, nothing is submitted or made, and its CertificateRequest is never Failed or Ready |
| Continuations.IssuedStays | controllers/adcsrequest_controller.go:94-113 | once the AdcsRequest is stored as ready, its CertificateRequest is Issued for as long as both are there |
| Possible.IssuedForever | controllers/adcsrequest_controller.go:84-137 | an Issued CertificateRequest stays Issued over every continuation that keeps it and its AdcsRequest if and only if that is stored as ready |
| Continuations.IssuedLeaves | controllers/adcsrequest_controller.go:84-131 | one step other than deletion ends "Issued" if and only if it commits another outcome, and if that is the stored AdcsRequest's own, it was unfinished (when this can happen at all: Possible.IssuedForever) |
| Counterexamples.IssuedIsNotForever | controllers/adcsrequest_controller.go:108-137 | a run in which one AdcsRequest is submitted twice and an Issued CertificateRequest ends as rejected |
| Safety.WorkNeverDropped | controllers/adcsrequest_controller.go:57-93 | an unfinished AdcsRequest always waits in the queue or is being worked on as it is stored |
| Safety.DoneMeansFinal | controllers/adcsrequest_controller.go:133-140 | an attempt that does not ask to be repeated has stored a final state |
| Safety.WritesNeedRequest | controllers/adcsrequest_controller.go:77-84 | an attempt gets to its writes if and only if it finds its CertificateRequest, and to that one's only with an outcome; otherwise it is repeated with the store as it was |
| Controllers.AdcsRequestReconciler.Settle | controllers/adcsrequest_controller.go:77-140 | with an answer, the reconcile ends as that answer and the lookup demand |
| Safety.OnlyCommitsShow | controllers/adcsrequest_controller.go:68-140 | in every reachable world a step of either controller changes the store if and only if one of its writes takes effect, and then only the object written |
| Cluster.NoDeedNoTrace | controllers/adcsrequest_controller.go:68-82 | so a controller leaves the store alone, step by step, exactly where its list of effective writes does not grow |
| Provenance.CertificateProvenance | controllers/adcsrequest_controller.go:94-109 | if the name fixes the CSR: a certificate in a CertificateRequest is what was read for one submission of its own request, followed by exactly the CA bytes stored with it; it is what the CA sent for that submission if the reply was legible and a number was asked about where it had been given, for a certificate sent at once only if |
| Provenance.CertificateWasRead | controllers/adcsrequest_controller.go:94-109 | if only the name fixes the CSR: it is what the clients read for a submission of its own request, followed by those bytes |
| Provenance.LegibleIsFaithful | adcs/ntlm_certsrv.go:259-285 | what is read is what the CA sent if and only if the certificate did not break off and the number does not end its line |
| Provenance.RightlyIsSent | adcs/ntlm_certsrv.go:110-305 | what was read for one submission is what the CA sent for it if the reply was legible and its number was asked about at its server; for a certificate sent at once, if and only if |
| Possible.RightlyPolled | controllers/adcsrequest_controller.go:57-113 | from every world with a number about to be asked about: the run in which the server returns a certificate ends with the CertificateRequest Issued with it, and for all certificates that is what the CA sent for its own CSR if and only if this server gave this number to this CSR for this AdcsRequest |
| Possible.RightlySubmitted | controllers/adcsrequest_controller.go:57-113 | from every world with a CSR about to be submitted: the same of a certificate sent at once and whole, if and only if the two CSRs are equal |
| Provenance.IssuedWrite | controllers/adcsrequest_controller.go:94-113 | in every reachable world a committed "Issued" carries a certificate if and only if the attempt read an unfinished request; then it goes back to one submission for that AdcsRequest, is what the CA sent for it if that was read rightly, and the submission was of the CertificateRequest's own CSR if and only if the two CSRs are equal |
| Provenance.ReachableHeld | issuers/issuer.go:69-92 | in every reachable world the certificate an attempt holds is what was read for that request's CSR, and a pending id is the number read for that very AdcsRequest |
| Counterexamples.CertificateOfAnother | controllers/adcsrequest_controller.go:77-113 | a run in which a name is used again and the new CertificateRequest is Issued though its CSR was never submitted |
| Counterexamples.CertificateCutShort | adcs/ntlm_certsrv.go:259-274 | a run in which a CertificateRequest is Issued with a certificate that broke off |
| Counterexamples.CertificateOfAnotherNumber | adcs/ntlm_certsrv.go:282-285 | a run in which number 202 is read as 20 and the CertificateRequest is Issued with the certificate of request 20 |
| Counterexamples.CertificateFromElsewhere | controllers/adcsrequest_controller.go:57-68 | a run in which a pending number is asked about at another server, and the CertificateRequest is Issued with what that returns |
| Possible.ReadyAgainErases | issuers/issuer.go:51-54 | from every world with a stored ready AdcsRequest, whatever is under way, a run that keeps both objects leads to its CertificateRequest Issued with empty certificate and CA |
| Possible.CertificateErased | controllers/adcsrequest_controller.go:94-137 | in every reachable world, a certificate that is there can be erased by a continuation that keeps both objects if and only if the AdcsRequest is not stored as rejected or errored |
| Controllers.CertificateRequestReconciler.Reconcile | controllers/certificaterequest_controller.go:39-115 | one whole reconcile of the protocol, ended with the error it returns; of the CertificateRequest it read: a denial to be marked is marked, a cleared one gets its AdcsRequest and then the status, by create or by delete and create, and any other is left alone, in full unless there is an error; the store then holds the mark with its failure time, or an AdcsRequest with this CSR |
| Controllers.CertificateRequestReconciler.Handle | controllers/certificaterequest_controller.go:54-158 | the same from the CertificateRequest read on |
| Controllers.CertificateRequestReconciler.PassGates | controllers/certificaterequest_controller.go:54-115 | the chain of early returns calls for the mark if and only if the request is ours, not closed and denied, and goes on if and only if it is cleared |
| Controllers.CertificateRequestReconciler.MarkDenied | controllers/certificaterequest_controller.go:90-101 | if the write takes effect, the stored CertificateRequest is the one read with the mark and, if it had no failure time, the clock reading of this reconcile |
| Controllers.CertificateRequestReconciler.Converge | controllers/certificaterequest_controller.go:117-158 | the part past the gates is the protocol's, and without an error it leaves an AdcsRequest with this CSR, having written nothing, or made it, or replaced another |
| Controllers.CertificateRequestReconciler.Replace | controllers/certificaterequest_controller.go:134-154 | whatever becomes of the Delete, without an error the AdcsRequest is made anew and then the status is written |
| Controllers.CertificateRequestReconciler.Make | controllers/certificaterequest_controller.go:148-154 | the AdcsRequest is created and then the CertificateRequest stored as pending with the "Processing" message, nothing else of it changed |
| Controllers.CertificateRequestReconciler.CreateAdcsRequest | controllers/certificaterequest_controller.go:160-173 | if the create takes effect, the stored AdcsRequest has the CertificateRequest's uid as owner, its CSR and its issuer reference, and an empty status |
| Controllers.CertificateRequestReconciler.SetStatus | controllers/certificaterequest_controller.go:207-220 | the condition is set in memory, the protocol's next write of the calling controller is made, and if it takes effect the store holds the object in memory |
| Controllers.RequestDiffers | controllers/certificaterequest_controller.go:181-193 | the byte loop says that two CSRs differ if and only if they do |
| Controllers.AdcsRequestReconciler.Reconcile | controllers/adcsrequest_controller.go:34-140 | one whole reconcile of the protocol that turns to exactly one server: that of the issuer which the reference of the request it read names from its own namespace, and it stops for want of an issuer if and only if that does not resolve; it returns an error or Requeue exactly as the stage it reached demands, and writes nothing before there is an answer; then the CertificateRequest and the AdcsRequest in this order; without a repeat the AdcsRequest is gone or finished |
| Controllers.AdcsRequestReconciler.Attempt | controllers/adcsrequest_controller.go:57-82 | the same for the AdcsRequest it was given |
| Controllers.AdcsRequestReconciler.IssueWith | controllers/adcsrequest_controller.go:58-68 | a client for the issuer's url, template and kind of login, and one Issue for the request's CSR and status, as IssueIs says |
| Controllers.AdcsRequestReconciler.Obtain | controllers/adcsrequest_controller.go:68-75 | the same, with no write of the controller taking effect, though the request in memory is rewritten; a delivered Issue leaves in memory exactly the status, certificate and CA the protocol holds; a failed one is a failed attempt of the protocol |
| Controllers.AdcsRequestReconciler.Converse | issuers/issuer.go:42-113 | the requests of one Issue, in their order, are the submission, query and fetch steps of the protocol, as far as they came |
| Controllers.AdcsRequestReconciler.Conclude | controllers/adcsrequest_controller.go:77-140 | a failed lookup writes nothing; otherwise the effective writes are the CertificateRequest, if there is an outcome, and then the AdcsRequest, cut short by the first failure |
| Controllers.AdcsRequestReconciler.Publish | controllers/adcsrequest_controller.go:84-140 | the two writes in this order, and a failure of either asks for a repeat, as does a pending answer |
| Controllers.AdcsRequestReconciler.Store | controllers/adcsrequest_controller.go:84-93 | if the write takes effect, the AdcsRequest is stored with the status in memory and nothing else changed |
| Controllers.AdcsRequestReconciler.Deliver | controllers/adcsrequest_controller.go:94-131 | if the write takes effect, the CertificateRequest read is stored with the condition of this outcome, and if it is ready with the certificate followed by the CA bytes and with the CA bytes; nothing else of it changes |
| Issuing.Issuer.Issue | issuers/issuer.go:36-124 | a finished request is left alone; otherwise a new one is submitted with its own CSR and a pending one queried under its own id, the answer goes into the status, the chain is fetched with the replies that are left, and certificate and the encoding of the chain's certificate are delivered together, or nothing is |
| Issuing.Issuer.Record | issuers/issuer.go:69-92 | only state, id and reason are rewritten: the state is that of the answer, with its id and its text, or the fixed reason for a certificate; a certificate comes back only for a ready one |
| Issuing.Issuer.FetchCa | issuers/issuer.go:94-113 | CA bytes come back if and only if the p7b page was fetched and holds a certificate with a non-empty encoding, and they are that encoding |
| Issuing.AttemptIs | issuers/issuer.go:36-124 | the attempt that the protocol replays goes just so |
| Issuing.AttemptContract | issuers/issuer.go:32-124 | on any replies, a delivering attempt moves the status only as allowed and brings the encoded certificate of the whole PKCS #7 reply to its last request, and a certificate only when ready; a finished request is left alone |
| Issuing.AttemptSends | issuers/issuer.go:42-63 | an attempt submits at most once, first, and only for a new request; a pending one is queried under its own id; a finished one sends nothing |
| Issuing.FailureMayRewrite | issuers/issuer.go:70-113 | an attempt fails with a rewritten status if and only if the CA answered with something new and no usable chain came; the answer to a new request is always new |
| Issuing.PickCertificate | issuers/issuer.go:173-181 | the first non-empty certificate of the list, and none only if all are empty |
| Issuing.OnlyOneFirst | issuers/issuer.go:176-180 | there is only one such certificate |
| Issuing.TryParseX509 | issuers/issuer.go:161-182 | the block itself if it is a certificate, else the first non-empty one of its PKCS #7 list |
| Issuing.ParseCaCert | issuers/issuer.go:131-158 | the bytes returned encode the certificate in the first PEM block, or the first non-empty one of its PKCS #7 list; a failure means that there is none |
| Issuing.CaMeaning | issuers/issuer.go:131-182 | such bytes are unique, and they are what is returned |
| Issuing.CaParsesToItself | issuers/issuer.go:131-182 | with a codec that reads back what it wrote, the CA bytes are a chain of one certificate: parsing them gives them back |
| Promises.PollOutcomeIs | adcs/ntlm_certsrv.go:127-196 | a whole 200 HTML page is unknown, pending, rejected or errored by its disposition line and the two phrases, with that line and the last status as text; a whole 200 certificate is ready with its bytes; any other code panics, and the rest is unknown with an error; the id is echoed |
| Promises.SubmitIs | adcs/ntlm_certsrv.go:213-304 | the form that is posted, field by field; then the certificate under its content type, or the query for the number on the page, or unknown with an error |
| Promises.FetchIs | adcs/ntlm_certsrv.go:307-384 | the page is asked for with the leftmost renewal number on the first page, or "0", and delivered if and only if its reply is a whole 200 of the expected type |
| Pages.PostContract | adcs/ntlm_certsrv.go:259-304 | after a submission: a decimal id to ask about, or, exactly under the content type of a certificate, whatever body there was under the id "none", or unknown with an error and no id |
| Pages.BrokenReply | adcs/ntlm_certsrv.go:259-274 | a body that broke off is taken for good if and only if it has the content type of a certificate, and is an error otherwise |
| Pages.NumberRead | adcs/ntlm_certsrv.go:276-285 | the number that is read is the one the page gives, less its last digit exactly if it ends its line |
| Replies.ReadsWhatWasSent | adcs/ntlm_certsrv.go:259-304 | for every reply, the client's reading is the protocol's reading of what was sent |
| Replies.ReplyIsFaithful | adcs/ntlm_certsrv.go:259-304 | of a reply that arrives whole or broken off: a certificate is always read, and is the one sent if and only if all of it arrives; a number is read if and only if its page arrives whole, and is the one sent if and only if it is in a link or its line goes on |
| Pages.SubmitContract | adcs/ntlm_certsrv.go:207-305 | a whole submission is sound, and successful only with a decimal id or with a certificate under "none" |
| Pages.PageClassification | adcs/ntlm_certsrv.go:133-180 | every HTML page is exactly one of unknown, pending, rejected, errored, by the disposition line and the two phrases; pending wins |
| Pages.LinkWins | adcs/ntlm_certsrv.go:276-285 | the id of the first link is taken, whatever notice the page also has |
| NtlmClient.NtlmCertsrv.GetExistingCertificate | adcs/ntlm_certsrv.go:110-198 | one GET for this id, and the answer that the reply itself calls for: by code, media type, disposition line, phrases and body |
| NtlmClient.NtlmCertsrv.RequestCertificate | adcs/ntlm_certsrv.go:207-305 | first the form with this CSR and this template, to certfnsh.asp; then the certificate that came at once, or the query for the number on the page |
| NtlmClient.NtlmCertsrv.ObtainCaCertificate | adcs/ntlm_certsrv.go:307-384 | the page with the renewal number found first, delivered if and only if its reply is a whole 200 of the expected type, without panics |
| KerberosClient.KerberosCertsrv.GetExistingCertificate | adcs/kerberos_certsrv.go:116-207 | one GET for this id, and the answer that the reply itself calls for: by code, media type, disposition line, phrases and body |
| KerberosClient.KerberosCertsrv.RequestCertificate | adcs/kerberos_certsrv.go:216-319 | first the form with this CSR and this template, to certfnsh.asp; then the certificate that came at once, or the query for the number on the page |
| KerberosClient.KerberosCertsrv.ObtainCaCertificate | adcs/kerberos_certsrv.go:321-397 | the page with the renewal number found first, delivered if and only if its reply is a whole 200 of the expected type, with its panics |
| TwoClients.SamePoll | adcs/kerberos_certsrv.go:116-207 | on every script of replies both clients ask the same and conclude the same about a request, soundly and under its id |
| TwoClients.SameSubmission | adcs/kerberos_certsrv.go:216-319 | on every script of replies both clients submit the same and conclude the same, soundly |
| TwoClients.SameFetch | adcs/kerberos_certsrv.go:321-397 | on every script of replies both clients fetch the same CA bytes or both fail; only the Kerberos client panics |
| Regex.FindsLeftmost | adcs/ntlm_certsrv.go:144-172 | the search returns the leftmost start at which the pattern fits, with longer earlier runs preferred, and nothing only if nothing fits anywhere |
| Regex.PreferredBothWays | adcs/ntlm_certsrv.go:144-172 | the preferred fit is unique, so the relation determines the answer |
| Regex.Matcher | adcs/ntlm_certsrv.go:148-154 | a pattern matches a page if and only if some part of the page fits it |
| Scan.PageSays | adcs/ntlm_certsrv.go:148-149 | the starred patterns match if and only if the words up to the starred letter occur and their line goes on |
| Scan.LinkId | adcs/ntlm_certsrv.go:276-280 | the id of the leftmost link, and nothing only if there is no link |
| Scan.WholeRun | adcs/ntlm_certsrv.go:276-280 | the id of a link is its whole run of digits |
| Scan.LinkRoundTrip | adcs/ntlm_certsrv.go:276-280 | a page rendered with a link gives its id back, whatever surrounds it |
| Scan.NoticeId | adcs/ntlm_certsrv.go:282-285 | what the leftmost notice with a usable number gives |
| Scan.NoticeIsWhole | adcs/ntlm_certsrv.go:282-285 | the number of a notice is taken whole if and only if its line goes on; otherwise its last digit is lost |
| Scan.NoticeCutShort | adcs/ntlm_certsrv.go:282-285 | a page on which "202" is read as "20" |
| Scan.LabelledLine | adcs/ntlm_certsrv.go:144-175 | the whole line after the leftmost label that has one, and nothing only if none has |
| Scan.LabelledRoundTrip | adcs/ntlm_certsrv.go:144-175 | a page rendered with a disposition or last-status line gives the line back |
| Scan.RenewalNumber | adcs/ntlm_certsrv.go:340-347 | the leftmost well-formed renewal number |
| Factory.Concat | issuers/issuer_factory.go:250-258 | a bundle exists exactly when every key does |
| Factory.ConcatInOrder | issuers/issuer_factory.go:250-258 | the value of the i-th key stands where the ones before it end, and nothing else is in the bundle |
| Factory.BundleExists | issuers/issuer_factory.go:229-276 | a bundle is found exactly when the kind is one of the two, the object exists and holds every key: keys over key over "ca.crt" |
| Factory.SecretAndConfigMapAgree | issuers/issuer_factory.go:245-272 | a Secret and a ConfigMap with the same data give the same bundle, and Secret is the default |
| Factory.BundleMeaning | issuers/issuer_factory.go:229-276 | a bundle is found if and only if the reference names one: the values of its listed keys in order, or of its single key, or of "ca.crt", in the Secret or ConfigMap of that name |
| Factory.OneBundle | issuers/issuer_factory.go:229-276 | a reference names at most one bundle |
| Factory.ResolveMeaning | issuers/issuer_factory.go:46-116 | an issuer resolves if and only if it has credentials, a bundle that parses and, with Kerberos, a login; to its own url, the secret it names, its bundle or else the inline one, and its template or else the default one |
| Factory.IssuerMeaning | issuers/issuer_factory.go:33-43 | what is found is what the reference names from this namespace, and nothing else is |
| Factory.ResolvedBundle | issuers/issuer_factory.go:61-79 | an issuer is returned only with a non-empty bundle that parses: the referenced one if it has anything in it, else the inline one |
| Factory.KindsAgree | issuers/issuer_factory.go:119-189 | the two kinds of issuer differ only in the namespace that their references are read from |
| Factory.IssuerFactory.GetCaBundle | issuers/issuer_factory.go:229-276 | the bundle the reference names, or nothing if it names none |
| Factory.IssuerFactory.Append | issuers/issuer_factory.go:250-258 | the loop gives the values of all keys in order, or nothing if one is missing |
| Factory.IssuerFactory.GetUserPassword | issuers/issuer_factory.go:209-227 | credentials exactly when the secret exists and has every needed key, with the values of these keys and of the realm if there is one |
| Factory.ModesAgree | issuers/issuer_factory.go:214-226 | what serves Kerberos serves NTLM alike, and what serves NTLM only lacks nothing but a realm |
| Factory.IssuerFactory.GetAdcsIssuer | issuers/issuer_factory.go:46-116 | the issuer stored under this key, with all it refers to read from its own namespace |
| Factory.IssuerFactory.GetClusterAdcsIssuer | issuers/issuer_factory.go:119-189 | the issuer stored under this name without a namespace, with all it refers to read from the cluster resource namespace |
| Factory.IssuerFactory.GetIssuer | issuers/issuer_factory.go:33-43 | what the reference resolves to from this namespace, by its kind in any case of letters, or nothing |
| DeepCopy.CopyIssuerList | api/v1/zz_generated.deepcopy.go:39-50 | equal in value, every slice freshly allocated, no two items sharing one, even if the originals do |
| DeepCopy.CopyRequestList | api/v1/zz_generated.deepcopy.go:135-146 | the same for lists of requests |
| DeepCopy.CopyIssuerSpec | api/v1/zz_generated.deepcopy.go:71-80 | equal in value, with its own bundle and keys |
| DeepCopy.CopyReference | api/v1/zz_generated.deepcopy.go:203-210 | equal in value, with its own keys |
| DeepCopy.CopyRequestSpec | api/v1/zz_generated.deepcopy.go:167-175 | equal in value, with its own CSR bytes |
| DeepCopy.WriteToCopy | api/v1/zz_generated.deepcopy.go:39-80 | a write to a bundle in a copy changes that byte of that item, no original and no other item |
| DeepCopy.WriteKeyToCopy | api/v1/zz_generated.deepcopy.go:39-80 | the same for a write to the keys of a bundle reference |
| DeepCopy.WriteToRequestCopy | api/v1/zz_generated.deepcopy.go:135-175 | the same for a write to the CSR of a request |

## Left out

- HTTP transport, TLS, NTLM and Kerberos login, request headers: a reply is a code, a content type and a body that may break off, or no reply at all.
- `verifyNtlm`, `verifyKerberos`: network calls at start-up; the Kerberos login of the constructor is a parameter.
- PEM, X.509 and PKCS #7 decoding and encoding: any partial functions.
- URL parsing: a parameter that says which URLs make a request.
- Error texts, and the pattern that looks for one on the page after a submission: only that there is an error is kept.
- Regular expressions work on single bytes: invalid or multi-byte UTF-8 is not modelled; `strings.ToLower` is modelled on ASCII.
- Time: requeue intervals and their parsing, condition transition times; the failure time is any number.
- Fairness: nothing says that a queued request is ever reconciled; termination is a bound on attempts.
- The exchange with the CA inside one `Issue` is carried out on a script of replies first, and its protocol steps are then taken one by one with everybody else in between.
- Issuer objects, Secrets and ConfigMaps do not change while the factory reads them, and a Get of theirs fails only if they are missing.
- ObjectMeta and TypeMeta: a deep copy carries the name only. Slices of the originals may be shared whole, but not overlap in part.
- The copies of references to whole objects (`DeepCopy`, `DeepCopyObject`), which allocate and call the modelled ones; ClusterAdcsIssuer, whose spec and copies have the same text as those of AdcsIssuer.
- The body of the submission reply that the NTLM client never closes.
- Logging, events, metrics, debug switches, `main.go`, health checks, the empty AdcsIssuer and ClusterAdcsIssuer reconcilers, webhooks, charts and manifests.
- Cluster.Cluster: models the API server, which is not part of the repository; its methods have no rows above.
- What a CA does with its numbers: nothing says that it gives each only once.
