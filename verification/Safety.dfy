/** What holds in every reachable world, and of every step taken from one. */
module Safety {
  import opened Base
  import opened Api
  import opened Protocol
  import opened Invariant

  ghost predicate Reachable(checkApproved: bool, w: World) {
    exists xs :: Runs(checkApproved, INIT, xs) && After(checkApproved, INIT, xs) == w
  }

  lemma ReachableInv(c: bool, w: World, k: Key)
    requires Reachable(c, w)
    ensures Inv(c, k, At(w, k), w.clock, w.ca)
  {
    var xs :| Runs(c, INIT, xs) && After(c, INIT, xs) == w;
    InvariantHolds(c, xs);
  }

  // ---------- outcomes ----------

  /**
   A finished AdcsRequest and the CertificateRequest that owns it agree: ready
   means Issued, errored means Failed, rejected means Pending with the rejection
   message, unless the CertificateRequest carries a denial and was marked so.
   */
  lemma OutcomeAgreement(c: bool, w: World, k: Key)
    requires Reachable(c, w)
    requires At(w, k).ar.Some? && At(w, k).cr.Some?
    requires At(w, k).ar.value.obj.owner == At(w, k).cr.value.obj.uid
    requires At(w, k).ar.value.obj.status.state.Terminal()
    ensures var conditions := At(w, k).cr.value.obj.conditions;
            && ReadyCondition in conditions
            && var ready := conditions[ReadyCondition];
               match At(w, k).ar.value.obj.status.state
               case Ready => ready == Condition(CondTrue, IssuedReason, Successful)
               case Errored => ready == Condition(CondFalse, FailedReason, ErroredMessage)
               case _ => || ready == Condition(CondFalse, PendingReason, RejectedMessage)
                         || (ready == Condition(CondFalse, DeniedReason, DeniedMessage) &&
                             IsDenied(At(w, k).cr.value.obj))
  {
    ReachableInv(c, w, k);
  }

  /**
   A status write of the CertificateRequest controller that commits lands on a
   CertificateRequest that is neither ready, nor failed, nor marked denied; and a
   "Processing" lands on no finished request at all.
   */
  lemma NoLostOutcome(c: bool, w: World, x: Label)
    requires Reachable(c, w) && CanStep(w, x)
    requires x.action.CrPending? || x.action.CrDeny?
    requires Commits(x.action.net, At(w, x.key).cr, At(w, x.key).crPc.cr)
    ensures var l := At(w, x.key);
            && !IsReady(l.cr.value.obj) && !IsFailed(l.cr.value.obj) && !IsReadyDenied(l.cr.value.obj)
            && l.cr.value == l.crPc.cr
            && (x.action.CrPending? && l.ar.Some? && l.ar.value.obj.owner == l.cr.value.obj.uid ==>
                !l.ar.value.obj.status.state.Terminal())
            && (x.action.CrDeny? ==> IsDenied(l.cr.value.obj))
  {
    ReachableInv(c, w, x.key);
  }

  /**
   When a CertificateRequest reconcile that passed the gates returns without an
   error, the store holds an AdcsRequest with this very CSR, whatever there was
   before, whatever became of the Delete, and whoever stepped in between.
   */
  lemma Converged(c: bool, w: World, x: Label)
    requires Reachable(c, w) && CanStep(w, x)
    requires !At(w, x.key).crPc.CrIdle? && !At(w, x.key).crPc.CrSetDenied?
    requires At(Step(c, w, x), x.key).crPc.CrIdle? && !At(Step(c, w, x), x.key).crErr
    ensures var l' := At(Step(c, w, x), x.key);
            l'.ar.Some? && l'.ar.value.obj.csr == At(w, x.key).crPc.cr.obj.request
  {
    ReachableInv(c, w, x.key);
    CleanReturn(c, At(w, x.key), w.clock, x.action);
    ConvergedHere(c, At(w, x.key), w.clock, x.action);
  }

  /** The ways a CertificateRequest reconcile returns without an error. */
  lemma CleanReturn(c: bool, l: Local, now: nat, a: Action)
    requires Enabled(l, a) && !l.crPc.CrIdle?
    requires StepLocal(c, l, now, a).crPc.CrIdle? && !StepLocal(c, l, now, a).crErr
    ensures a.CrLook? || a.CrPending? || a.CrDeny?
  {}

  lemma ConvergedHere(c: bool, l: Local, now: nat, a: Action)
    requires CrInv(c, l, now) && Enabled(l, a) && (a.CrLook? || a.CrPending?)
    requires StepLocal(c, l, now, a).crPc.CrIdle? && !StepLocal(c, l, now, a).crErr
    ensures var l' := StepLocal(c, l, now, a);
            l'.ar.Some? && l'.ar.value.obj.csr == l.crPc.cr.obj.request
  {}

  // ---------- approval ----------

  /** Every version in the history was stored after some prefix of the run. */
  lemma {:induction false} PastWasStored(c: bool, xs: seq<Label>, k: Key, v: Versioned<Cr>)
    requires Runs(c, INIT, xs) && v in At(After(c, INIT, xs), k).hist.past
    ensures exists n :: 0 <= n <= |xs| && Runs(c, INIT, xs[..n]) && At(After(c, INIT, xs[..n]), k).cr == Some(v)
    decreases |xs|
  {
    if xs != [] {
      var ys, x := xs[..|xs| - 1], xs[|xs| - 1];
      assert xs == ys + [x];
      RunsPrefix(c, INIT, ys, [x]);
      RunsConcat(c, INIT, ys, [x]);
      var w := After(c, INIT, ys);
      assert After(c, INIT, xs) == Step(c, w, x);
      if v in At(w, k).hist.past {
        PastWasStored(c, ys, k, v);
        var n :| 0 <= n <= |ys| && Runs(c, INIT, ys[..n]) && At(After(c, INIT, ys[..n]), k).cr == Some(v);
        assert ys[..n] == xs[..n];
      } else {
        PastStep(c, At(w, k), w.clock, x.action, v);
        assert xs[..|xs|] == xs;
      }
    }
  }

  lemma PastStep(c: bool, l: Local, now: nat, a: Action, v: Versioned<Cr>)
    requires Enabled(l, a) && v !in l.hist.past && v in StepLocal(c, l, now, a).hist.past
    ensures StepLocal(c, l, now, a).cr == Some(v)
  {
    if OfArController(a) { ArPastStep(c, l, now, a, v); }
  }

  lemma ArPastStep(c: bool, l: Local, now: nat, a: Action, v: Versioned<Cr>)
    requires Enabled(l, a) && OfArController(a) && v !in l.hist.past && v in StepLocal(c, l, now, a).hist.past
    ensures StepLocal(c, l, now, a).cr == Some(v)
  {
    if a.ArIssuer? || a.ArPolled? || a.ArChained? || a.ArLook? || a.ArCrash? { ArShape(c, l, now, a); }
  }

  lemma {:induction false} RunsPrefix(c: bool, w: World, xs: seq<Label>, ys: seq<Label>)
    requires Runs(c, w, xs + ys)
    ensures Runs(c, w, xs)
    decreases |xs|
  {
    if xs != [] {
      assert (xs + ys)[0] == xs[0] && (xs + ys)[1..] == xs[1..] + ys;
      RunsPrefix(c, Step(c, w, xs[0]), xs[1..], ys);
    }
  }

  /** The Ready condition is there, with this status and one of these reasons. */
  predicate ReadySays(cr: Cr, status: ConditionStatus, reasons: set<Reason>) {
    && ReadyCondition in cr.conditions
    && cr.conditions[ReadyCondition].status == status
    && cr.conditions[ReadyCondition].reason in reasons
  }

  /** The CertificateRequest is ready, failed or marked as denied. */
  predicate Closed(cr: Cr) {
    || (ReadyCondition in cr.conditions && cr.conditions[ReadyCondition].status == CondTrue)
    || ReadySays(cr, CondFalse, {FailedReason, DeniedReason})
  }

  /** The approver's condition of this type is there and true. */
  predicate Decided(cr: Cr, t: ConditionType) {
    t in cr.conditions && cr.conditions[t].status == CondTrue
  }

  /** What the gates promise of the snapshot an AdcsRequest is made from. */
  predicate Cleared(checkApproved: bool, cr: Cr) {
    && cr.issuerRef.group == "adcs.certmanager.csf.nokia.com"
    && !Closed(cr)
    && !Decided(cr, DeniedCondition)
    && (checkApproved ==> Decided(cr, ApprovedCondition))
    && cr.certificate == []
  }

  /** A denied request of ours that is not closed yet. */
  predicate ToBeMarked(cr: Cr) {
    cr.issuerRef.group == "adcs.certmanager.csf.nokia.com" && !Closed(cr) && Decided(cr, DeniedCondition)
  }

  /** When each verdict is given, and no other. */
  lemma GateMeaning(c: bool, cr: Cr)
    ensures Gate(c, cr) == Proceed <==> Cleared(c, cr)
    ensures Gate(c, cr) == MarkDenied <==> ToBeMarked(cr)
  {}

  /**
   Every CSR the CA ever received is the request of a CertificateRequest that was
   stored, at some point of the run, for our issuer group, not denied and, when
   the check is on, approved.
   */
  lemma ApprovalSafety(c: bool, xs: seq<Label>, e: Submission)
    requires Runs(c, INIT, xs) && e in After(c, INIT, xs).ca.ledger
    ensures exists n, v :: && 0 <= n <= |xs|
                           && Runs(c, INIT, xs[..n])
                           && At(After(c, INIT, xs[..n]), e.key).cr == Some(v)
                           && Cleared(c, v.obj)
                           && v.obj.request == e.csr
  {
    var w := After(c, INIT, xs);
    var l := At(w, e.key);
    InvariantHolds(c, xs);
    assert Inv(c, e.key, l, w.clock, w.ca);
    assert Entered(c, e.key, l.hist, w.clock, e);
    var v := l.hist.births[e.uid];
    PastWasStored(c, xs, e.key, v);
    var n :| 0 <= n <= |xs| && Runs(c, INIT, xs[..n]) && At(After(c, INIT, xs[..n]), e.key).cr == Some(v);
    assert Cleared(c, v.obj);
  }

  // ---------- submissions, attempts, ids ----------

  /** Submissions for one AdcsRequest: at most one more than the attempts that failed while it was unknown. */
  lemma SubmissionBound(c: bool, w: World, k: Key, uid: nat)
    requires Reachable(c, w)
    ensures Submissions(w.ca.ledger, k, uid) <= TallyOf(At(w, k).hist, uid).failedUnknown + 1
  {
    ReachableInv(c, w, k);
    assert Accounted(k, At(w, k), w.ca, uid);
  }

  /** Every finished attempt on a stored request failed, stored "pending", or stored the final state: nothing else. */
  lemma AttemptsConserved(c: bool, w: World, k: Key)
    requires Reachable(c, w) && At(w, k).ar.Some?
    ensures var t := TallyOf(At(w, k).hist, At(w, k).ar.value.obj.uid);
            var n := t.failedUnknown + t.failedPending + t.pendings;
            t.attempts == n + if At(w, k).ar.value.obj.status.state.Terminal() then 1 else 0
  {
    ReachableInv(c, w, k);
  }

  /** One attempt more than the failures and the pending answers there may be reaches a final state. */
  lemma TerminationBound(c: bool, w: World, k: Key, maxFailures: nat, maxPending: nat)
    requires Reachable(c, w) && At(w, k).ar.Some?
    requires var t := TallyOf(At(w, k).hist, At(w, k).ar.value.obj.uid);
             && t.failedUnknown + t.failedPending <= maxFailures && t.pendings <= maxPending
             && t.attempts >= maxFailures + maxPending + 1
    ensures At(w, k).ar.value.obj.status.state.Terminal()
  {
    ReachableInv(c, w, k);
  }

  /** An attempt that had read an unfinished request with this uid is over. */
  predicate Ends(l: Local, l': Local, uid: nat) {
    !l.arPc.ArIdle? && l'.arPc.ArIdle? && l.arPc.ar.obj.uid == uid && !l.arPc.ar.obj.status.state.Terminal()
  }

  /**
   How a step moves the tally: only such an end counts. It is a failure if the
   store keeps the AdcsRequest as it was, a pending answer if it now says so.
   */
  function Counted(t: Tally, l: Local, l': Local, uid: nat): Tally {
    if !Ends(l, l', uid) then t
    else
      var failed, state := l'.ar == l.ar, l.arPc.ar.obj.status.state;
      Tally(t.attempts + 1,
            t.failedUnknown + (if failed && state.Unknown? then 1 else 0),
            t.failedPending + (if failed && state.Pending? then 1 else 0),
            t.pendings + (if !failed && l'.ar.Some? && l'.ar.value.obj.status.state.Pending? then 1 else 0))
  }

  predicate Tallied(l: Local, l': Local, uid: nat) {
    TallyOf(l'.hist, uid) == Counted(TallyOf(l.hist, uid), l, l', uid)
  }

  lemma EndsAreCounted(c: bool, w: World, x: Label, uid: nat)
    requires Reachable(c, w) && CanStep(w, x)
    ensures Tallied(At(w, x.key), At(Step(c, w, x), x.key), uid)
  {
    ReachableInv(c, w, x.key);
    EndsAreCountedHere(c, At(w, x.key), w.clock, x.action, uid);
  }

  lemma EndsAreCountedHere(c: bool, l: Local, now: nat, a: Action, uid: nat)
    requires ArInv(c, l, now) && Enabled(l, a)
    ensures Tallied(l, StepLocal(c, l, now, a), uid)
  {
    if !OfArController(a) {
      OthersFrame(c, l, now, a);
    } else if a.ArIssuer? || a.ArPolled? || a.ArChained? || a.ArLook? || a.ArCrash? {
      ArShape(c, l, now, a);
    } else {
      WritesAreCounted(c, l, now, a, uid);
    }
  }

  lemma WritesAreCounted(c: bool, l: Local, now: nat, a: Action, uid: nat)
    requires ArInv(c, l, now) && Enabled(l, a) && (a.ArStart? || a.ArPost? || a.ArWriteCr? || a.ArWriteAr?)
    ensures Tallied(l, StepLocal(c, l, now, a), uid)
  {
    if a.ArPost? {
      FailureCounts(l, uid);
    } else if a.ArWriteCr? {
      OutcomeCounts(l, now, a.net, uid);
    } else if a.ArWriteAr? {
      StatusCounts(c, l, now, a.net, uid);
    }
  }

  lemma FailureCounts(l: Local, uid: nat)
    requires !l.arPc.ArIdle?
    ensures Tallied(l, ArFail(l), uid)
  {}

  lemma OutcomeCounts(l: Local, now: nat, net: Net, uid: nat)
    requires l.arPc.ArPutCr? && l.arPc.next.state.Terminal()
    ensures Tallied(l, ArWriteCrStep(l, net, now), uid)
  {
    var p := l.arPc;
    FailureCounts(UpdateCr(l, net, p.cr, WithOutcome(p.cr.obj, p.next.state, p.cert, p.ca), now), uid);
  }

  lemma StatusCounts(c: bool, l: Local, now: nat, net: Net, uid: nat)
    requires ArInv(c, l, now) && l.arPc.ArPutAr?
    ensures Tallied(l, ArWriteArStep(l, net, now), uid)
  {
    if !Commits(net, l.ar, l.arPc.ar) { FailureCounts(l, uid); }
  }

  /** Unknown has no id, pending a decimal one, a final state a decimal one or "none"; only decimal ids are polled. */
  lemma RequestIds(c: bool, w: World, k: Key)
    requires Reachable(c, w)
    ensures var l := At(w, k);
            && (l.ar.Some? ==>
                var st := l.ar.value.obj.status;
                match st.state
                case Unknown => st.id == ""
                case Pending => IsDecimal(st.id)
                case _ => IsDecimal(st.id) || st.id == "none")
            && (l.arPc.ArPoll? ==> IsDecimal(l.arPc.id) && l.arPc.id != "" && l.arPc.id != "none")
            // "adcs id not set" cannot happen
            && (l.arPc.ArGetIssuer? && l.arPc.ar.obj.status.state.Pending? ==> l.arPc.ar.obj.status.id != "")
  {
    ReachableInv(c, w, k);
    assert "none"[0] == 'n';
  }

  // ---------- work is never dropped ----------

  /** An unfinished AdcsRequest waits in the queue or is being worked on as stored. */
  lemma WorkNeverDropped(c: bool, w: World, k: Key)
    requires Reachable(c, w)
    requires At(w, k).ar.Some? && !At(w, k).ar.value.obj.status.state.Terminal()
    ensures At(w, k).queued || (!At(w, k).arPc.ArIdle? && At(w, k).arPc.ar == At(w, k).ar.value)
  {
    ReachableInv(c, w, k);
  }

  /** A reconcile that does not ask to run again has stored a final state. */
  lemma DoneMeansFinal(c: bool, w: World, x: Label)
    requires Reachable(c, w) && CanStep(w, x)
    requires !At(w, x.key).arPc.ArIdle? && At(Step(c, w, x), x.key).arPc.ArIdle?
    requires !At(Step(c, w, x), x.key).asked
    ensures var l' := At(Step(c, w, x), x.key);
            l'.ar.Some? && l'.ar.value.obj.status.state.Terminal()
  {
    ReachableInv(c, w, x.key);
    QuietEnd(c, At(w, x.key), w.clock, x.action);
    ArEndsWell(At(w, x.key), w.clock, x.action.net);
  }

  /** Only a delivered write of the AdcsRequest status ends an attempt for good. */
  lemma QuietEnd(c: bool, l: Local, now: nat, a: Action)
    requires Enabled(l, a) && !l.arPc.ArIdle?
    requires StepLocal(c, l, now, a).arPc.ArIdle? && !StepLocal(c, l, now, a).asked
    ensures a.ArWriteAr?
  {
    if !OfArController(a) { OthersFrame(c, l, now, a); }
  }

  lemma ArEndsWell(l: Local, now: nat, net: Net)
    requires l.arPc.ArPutAr? && Follows(l.arPc.ar.obj.status, l.arPc.next)
    requires !ArWriteArStep(l, net, now).asked
    ensures var l' := ArWriteArStep(l, net, now);
            l'.ar.Some? && l'.ar.value.obj.status.state.Terminal()
  {}

  /** An attempt gets to its writes if and only if it finds its CertificateRequest; otherwise it is repeated. */
  lemma WritesNeedRequest(c: bool, w: World, x: Label)
    requires CanStep(w, x) && x.action.ArLook?
    ensures var l, l' := At(w, x.key), At(Step(c, w, x), x.key);
            if x.action.ok && l.cr.Some? then
              if l.arPc.next.state.Terminal() then l'.arPc.ArPutCr? && l'.arPc.cr == l.cr.value else l'.arPc.ArPutAr?
            else l'.arPc.ArIdle? && l'.asked && l'.queued && SameStore(l, l')
  {}

  // ---------- what a controller changes in the store ----------

  predicate SameStore(l: Local, l': Local) { l'.cr == l.cr && l'.ar == l.ar }

  datatype Change = ArDeleted | ArCreated | CrUpdated | ArUpdated

  predicate OfCrController(a: Action) {
    a.CrStart? || a.CrLook? || a.CrDelete? || a.CrCreate? || a.CrPending? || a.CrDeny? || a.CrCrash?
  }

  /** The write of a controller that takes effect with this step, if there is one. */
  function ChangeOf(l: Local, a: Action): Option<Change>
    requires Enabled(l, a)
  {
    match a
    case CrDelete(net) => if !net.Dropped? && l.ar.Some? then Some(ArDeleted) else None
    case CrCreate(net) => if !net.Dropped? && l.ar.None? then Some(ArCreated) else None
    case CrPending(net) => if Commits(net, l.cr, l.crPc.cr) then Some(CrUpdated) else None
    case CrDeny(net, _) => if Commits(net, l.cr, l.crPc.cr) then Some(CrUpdated) else None
    case ArWriteCr(net) => if Commits(net, l.cr, l.arPc.cr) then Some(CrUpdated) else None
    case ArWriteAr(net) => if Commits(net, l.ar, l.arPc.ar) then Some(ArUpdated) else None
    case _ => None
  }

  /** The store differs just as the change says. */
  predicate Changed(change: Option<Change>, l: Local, l': Local) {
    match change
    case None => SameStore(l, l')
    case Some(ArDeleted) => l'.cr == l.cr && l.ar.Some? && l'.ar.None?
    case Some(ArCreated) => l'.cr == l.cr && l.ar.None? && l'.ar.Some?
    case Some(CrUpdated) =>
      l'.ar == l.ar && l.cr.Some? && l'.cr.Some? && l.cr.value.version < l'.cr.value.version
    case Some(ArUpdated) =>
      l'.cr == l.cr && l.ar.Some? && l'.ar.Some? && l.ar.value.version < l'.ar.value.version
  }

  /** A step of a controller changes the store if and only if a write takes effect, and nothing but what is written. */
  lemma OnlyCommitsShow(c: bool, w: World, x: Label)
    requires Reachable(c, w) && CanStep(w, x) && (OfArController(x.action) || OfCrController(x.action))
    ensures var l, l' := At(w, x.key), At(Step(c, w, x), x.key);
            && Changed(ChangeOf(l, x.action), l, l')
            && (SameStore(l, l') <==> ChangeOf(l, x.action).None?)
  {
    ReachableInv(c, w, x.key);
    OnlyCommitsShowHere(c, At(w, x.key), w.clock, x.action);
  }

  lemma OnlyCommitsShowHere(c: bool, l: Local, now: nat, a: Action)
    requires CrInv(c, l, now) && ArInv(c, l, now) && Enabled(l, a) && (OfArController(a) || OfCrController(a))
    ensures Changed(ChangeOf(l, a), l, StepLocal(c, l, now, a))
  {
    if OfCrController(a) {
      CrChanges(c, l, now, a);
    } else if a.ArWriteCr? {
      OutcomeChange(c, l, now, a.net);
    } else if a.ArWriteAr? {
      StatusChange(c, l, now, a.net);
    } else if a.ArStart? || a.ArPost? {
      QuietChange(c, l, now, a);
    } else {
      ArShape(c, l, now, a);
    }
  }

  lemma CrChanges(c: bool, l: Local, now: nat, a: Action)
    requires CrInv(c, l, now) && Enabled(l, a) && OfCrController(a)
    ensures Changed(ChangeOf(l, a), l, StepLocal(c, l, now, a))
  {}

  lemma QuietChange(c: bool, l: Local, now: nat, a: Action)
    requires Enabled(l, a) && (a.ArStart? || a.ArPost?)
    ensures SameStore(l, StepLocal(c, l, now, a))
  {}

  lemma OutcomeChange(c: bool, l: Local, now: nat, net: Net)
    requires CrInv(c, l, now) && Enabled(l, ArWriteCr(net))
    ensures Changed(ChangeOf(l, ArWriteCr(net)), l, ArWriteCrStep(l, net, now))
  {}

  lemma StatusChange(c: bool, l: Local, now: nat, net: Net)
    requires ArInv(c, l, now) && Enabled(l, ArWriteAr(net))
    ensures Changed(ChangeOf(l, ArWriteAr(net)), l, ArWriteArStep(l, net, now))
  {}
}
