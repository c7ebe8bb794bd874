/**
 The two Kubernetes objects of the protocol, as the API server stores them:
 cert-manager's CertificateRequest and this repository's AdcsRequest.
 */
module Api {
  import opened Base

  const GROUP := "adcs.certmanager.csf.nokia.com"

  datatype Key = Key(namespace: string, name: string)

  datatype IssuerRef = IssuerRef(name: string, kind: string, group: string)

  // ---------- AdcsRequest ----------

  datatype State = Unknown | Pending | Ready | Errored | Rejected {
    predicate Terminal() { Ready? || Errored? || Rejected? }

    /** The order in which a request is meant to move. */
    function Rank(): nat { if Unknown? then 0 else if Pending? then 1 else 2 }
  }

  datatype ArStatus = ArStatus(state: State, id: string, reason: string)

  const NEW_STATUS := ArStatus(Unknown, "", "")

  /** `owner` is the uid in the controller owner reference. */
  datatype Ar = Ar(uid: nat, owner: nat, csr: Bytes, issuerRef: IssuerRef, status: ArStatus)

  predicate IsDecimal(id: string) {
    id != [] && forall i | 0 <= i < |id| :: '0' <= id[i] <= '9'
  }

  /** What an id looks like in each state. */
  predicate WellFormed(st: ArStatus) {
    match st.state
    case Unknown => st.id == ""
    case Pending => IsDecimal(st.id)
    case _ => IsDecimal(st.id) || st.id == "none"
  }

  // ---------- CertificateRequest ----------

  datatype ConditionType = ReadyCondition | ApprovedCondition | DeniedCondition
  datatype ConditionStatus = CondTrue | CondFalse | CondUnknown
  datatype Reason = PendingReason | IssuedReason | FailedReason | DeniedReason | OtherReason(text: string)
  datatype Message =
    | Processing | Successful | RejectedMessage | ErroredMessage | DeniedMessage
    | OtherMessage(text: string)
  datatype Condition = Condition(status: ConditionStatus, reason: Reason, message: Message)

  /** The condition list is keyed by type: setting a condition replaces or adds. */
  datatype Cr = Cr(uid: nat, request: Bytes, issuerRef: IssuerRef,
                   conditions: map<ConditionType, Condition>,
                   certificate: Bytes, ca: Bytes, failureTime: Option<nat>)

  function SetCondition(cr: Cr, t: ConditionType, c: Condition): Cr {
    cr.(conditions := cr.conditions[t := c])
  }

  predicate HasCondition(cr: Cr, t: ConditionType, status: ConditionStatus, reason: Option<Reason>) {
    && t in cr.conditions
    && cr.conditions[t].status == status
    && (reason.Some? ==> cr.conditions[t].reason == reason.value)
  }

  predicate IsReady(cr: Cr) { HasCondition(cr, ReadyCondition, CondTrue, None) }
  predicate IsFailed(cr: Cr) { HasCondition(cr, ReadyCondition, CondFalse, Some(FailedReason)) }
  predicate IsReadyDenied(cr: Cr) { HasCondition(cr, ReadyCondition, CondFalse, Some(DeniedReason)) }
  predicate IsDenied(cr: Cr) { HasCondition(cr, DeniedCondition, CondTrue, None) }
  predicate IsApproved(cr: Cr) { HasCondition(cr, ApprovedCondition, CondTrue, None) }

  datatype Verdict = Stop | MarkDenied | Proceed

  /** The gate chain at the head of the CertificateRequest controller's Reconcile. */
  function Gate(checkApproved: bool, cr: Cr): Verdict {
    if cr.issuerRef.group != GROUP then Stop
    else if IsReady(cr) || IsFailed(cr) || IsReadyDenied(cr) then Stop
    else if IsDenied(cr) then MarkDenied
    else if checkApproved && !IsApproved(cr) then Stop
    else if cr.certificate != [] then Stop
    else Proceed
  }

  const PROCESSING := Condition(CondFalse, PendingReason, Processing)
  const DENIED := Condition(CondFalse, DeniedReason, DeniedMessage)
  const ISSUED := Condition(CondTrue, IssuedReason, Successful)
  const REJECTED := Condition(CondFalse, PendingReason, RejectedMessage)
  const ERRORED := Condition(CondFalse, FailedReason, ErroredMessage)

  /** The CertificateRequest the AdcsRequest controller writes for a finished request. */
  function WithOutcome(cr: Cr, state: State, cert: Bytes, ca: Bytes): Cr
    requires state.Terminal()
  {
    match state
    case Ready => SetCondition(cr.(certificate := cert + ca, ca := ca), ReadyCondition, ISSUED)
    case Rejected => SetCondition(cr, ReadyCondition, REJECTED)
    case _ => SetCondition(cr, ReadyCondition, ERRORED)
  }

  /** The Ready condition a finished AdcsRequest calls for; a rejected one may have been denied since. */
  predicate Image(state: State, cr: Cr)
    requires state.Terminal()
  {
    && ReadyCondition in cr.conditions
    && var c := cr.conditions[ReadyCondition];
       match state
       case Ready => c == ISSUED
       case Rejected => c == REJECTED || (c == DENIED && IsDenied(cr))
       case _ => c == ERRORED
  }

  function WithDenial(cr: Cr, now: nat): Cr {
    SetCondition(if cr.failureTime.None? then cr.(failureTime := Some(now)) else cr, ReadyCondition, DENIED)
  }

  // ---------- the store ----------

  datatype Versioned<+T> = Versioned(obj: T, version: nat)
}
