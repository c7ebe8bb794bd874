/**
 A name may be used again. What one CertificateRequest, told apart by its uid,
 keeps while it is stored: its spec, and at most one AdcsRequest.
 */
module Incarnations {
  import opened Base
  import opened Api
  import opened Protocol
  import opened Invariant
  import opened Safety
  import opened Continuations

  // ---------- the invariant ----------

  predicate SameSpec(a: Cr, b: Cr) { a.request == b.request && a.issuerRef == b.issuerRef }

  /** Older versions are of older CertificateRequests, or of the same one with the same spec. */
  ghost predicate PastInv(l: Local, now: nat) {
    && (l.cr.Some? ==> l.cr.value in l.hist.past)
    && forall v | v in l.hist.past ::
         && Dated(v, now)
         && (l.cr.Some? ==> v.obj.uid <= l.cr.value.obj.uid)
         && (l.cr.Some? && v.obj.uid == l.cr.value.obj.uid ==> SameSpec(v.obj, l.cr.value.obj))
  }

  ghost predicate BirthInv(l: Local, now: nat) {
    && (forall u | u in l.hist.births ::
          var v := l.hist.births[u];
          && v.version < u < now && v in l.hist.past
          && (!l.crPc.CrIdle? ==> v.obj.uid <= l.crPc.cr.obj.uid)
          // what was made for the stored CertificateRequest is still there
          && (l.cr.Some? && v.obj.uid == l.cr.value.obj.uid ==> Stored(l, u)))
    && (l.crPc.CrDeleteAr? && l.ar.Some? ==> RequestDiffers(l.ar.value.obj, l.crPc.cr.obj))
  }

  ghost predicate NameInv(l: Local, now: nat) { PastInv(l, now) && BirthInv(l, now) }

  // ---------- the steps ----------

  lemma StoreCrKeepsName(l: Local, now: nat, cr: Cr)
    requires NameInv(l, now)
    requires if l.cr.Some? then cr.uid == l.cr.value.obj.uid && SameSpec(cr, l.cr.value.obj) else cr.uid == now
    ensures NameInv(StoreCr(l, cr, now), now + 1)
  {
    forall u | u in l.hist.births ensures l.hist.births[u].obj.uid < now { assert l.hist.births[u] in l.hist.past; }
  }

  lemma LaterKeepsName(l: Local, now: nat)
    requires NameInv(l, now)
    ensures NameInv(l, now + 1)
  {}

  /** The AdcsRequest controller moves on, or rewrites a status. */
  predicate OnlyStatus(l: Local, l': Local) {
    && l'.cr == l.cr && l'.crPc == l.crPc && l'.hist.past == l.hist.past && l'.hist.births == l.hist.births
    && (l'.ar.Some? <==> l.ar.Some?)
    && (l.ar.Some? ==> l'.ar.value.obj == l.ar.value.obj.(status := l'.ar.value.obj.status))
  }

  lemma StatusKeepsName(l: Local, l': Local, now: nat)
    requires NameInv(l, now) && OnlyStatus(l, l')
    ensures NameInv(l', now + 1)
  {}

  lemma ArKeepsName(c: bool, l: Local, now: nat, a: Action)
    requires CrInv(c, l, now) && ArInv(c, l, now) && NameInv(l, now) && Enabled(l, a) && OfArController(a)
    ensures NameInv(StepLocal(c, l, now, a), now + 1)
  {
    var l' := StepLocal(c, l, now, a);
    if a.ArWriteCr? {
      OutcomeKeepsName(c, l, now, a.net);
    } else if a.ArIssuer? || a.ArPolled? || a.ArChained? || a.ArLook? || a.ArCrash? {
      ArShape(c, l, now, a);
      StatusKeepsName(l, l', now);
    } else {
      OnlyStatusStep(c, l, now, a);
      StatusKeepsName(l, l', now);
    }
  }

  lemma OnlyStatusStep(c: bool, l: Local, now: nat, a: Action)
    requires ArInv(c, l, now) && Enabled(l, a) && (a.ArStart? || a.ArPost? || a.ArWriteAr?)
    ensures OnlyStatus(l, StepLocal(c, l, now, a))
  {}

  lemma OutcomeKeepsName(c: bool, l: Local, now: nat, net: Net)
    requires CrInv(c, l, now) && NameInv(l, now) && Enabled(l, ArWriteCr(net))
    ensures NameInv(ArWriteCrStep(l, net, now), now + 1)
  {
    var p := l.arPc;
    var cr := WithOutcome(p.cr.obj, p.next.state, p.cert, p.ca);
    var l1 := UpdateCr(l, net, p.cr, cr, now);
    if Commits(net, l.cr, p.cr) {
      OutcomeKeepsSpec(p.cr.obj, p.next.state, p.cert, p.ca);
      StoreCrKeepsName(l, now, cr);
    } else {
      LaterKeepsName(l, now);
    }
    OutcomeFrame(l, net, now);
    StatusKeepsNameNow(l1, ArWriteCrStep(l, net, now), now + 1);
  }

  lemma OutcomeKeepsSpec(cr: Cr, state: State, cert: Bytes, ca: Bytes)
    requires state.Terminal()
    ensures WithOutcome(cr, state, cert, ca).uid == cr.uid && SameSpec(WithOutcome(cr, state, cert, ca), cr)
  {}

  lemma OutcomeFrame(l: Local, net: Net, now: nat)
    requires Enabled(l, ArWriteCr(net))
    ensures var p := l.arPc;
            var l1 := UpdateCr(l, net, p.cr, WithOutcome(p.cr.obj, p.next.state, p.cert, p.ca), now);
            var l' := ArWriteCrStep(l, net, now);
            OnlyStatus(l1, l') && l'.ar == l1.ar
  {}

  lemma StatusKeepsNameNow(l: Local, l': Local, now: nat)
    requires NameInv(l, now) && OnlyStatus(l, l') && l'.ar == l.ar
    ensures NameInv(l', now)
  {}

  /** A CertificateRequest write, or its failure, and the return. */
  lemma CrWriteKeepsName(c: bool, l: Local, now: nat, net: Net, cr: Cr)
    requires CrInv(c, l, now) && NameInv(l, now) && !l.crPc.CrIdle?
    requires cr.uid == l.crPc.cr.obj.uid && SameSpec(cr, l.crPc.cr.obj)
    ensures NameInv(CrWriteStep(l, net, cr, now), now + 1)
  {
    if Commits(net, l.cr, l.crPc.cr) {
      StoreCrKeepsName(l, now, cr);
      CrPcKeepsName(StoreCr(l, cr, now), now + 1, CrWriteStep(l, net, cr, now));
    } else {
      LaterKeepsName(l, now);
      CrPcKeepsName(l, now + 1, CrWriteStep(l, net, cr, now));
    }
  }

  /** A reconcile begins with what is stored, goes on with its snapshot, or returns. */
  lemma CrPcKeepsName(l: Local, now: nat, l': Local)
    requires NameInv(l, now) && l' == l.(crPc := l'.crPc, crErr := l'.crErr)
    requires l'.crPc.CrIdle? || (!l.crPc.CrIdle? && l'.crPc.cr == l.crPc.cr) || l.cr == Some(l'.crPc.cr)
    requires l'.crPc.CrDeleteAr? && l.ar.Some? ==> RequestDiffers(l.ar.value.obj, l'.crPc.cr.obj)
    ensures NameInv(l', now)
  {}

  lemma DropKeepsName(l: Local, now: nat)
    requires NameInv(l, now)
    requires forall u | u in l.hist.births && l.cr.Some? :: l.hist.births[u].obj.uid != l.cr.value.obj.uid
    ensures NameInv(l.(ar := None), now)
  {}

  /** An AdcsRequest that is deleted for its CSR was made for a CertificateRequest that is gone. */
  lemma DeletedIsForeign(c: bool, l: Local, now: nat, u: nat)
    requires CrInv(c, l, now) && ArInv(c, l, now) && NameInv(l, now) && l.crPc.CrDeleteAr? && l.ar.Some?
    requires u in l.hist.births && l.cr.Some?
    ensures l.hist.births[u].obj.uid != l.cr.value.obj.uid
  {}

  lemma DeleteKeepsName(c: bool, l: Local, now: nat, net: Net)
    requires CrInv(c, l, now) && ArInv(c, l, now) && NameInv(l, now) && l.crPc.CrDeleteAr?
    ensures NameInv(CrDeleteStep(l, net), now)
  {
    var l1 := if net.Dropped? then l else l.(ar := None);
    if !net.Dropped? && l.ar.Some? {
      forall u | u in l.hist.births && l.cr.Some? ensures l.hist.births[u].obj.uid != l.cr.value.obj.uid {
        DeletedIsForeign(c, l, now, u);
      }
      DropKeepsName(l, now);
    }
    CrPcKeepsName(l1, now, CrDeleteStep(l, net));
  }

  lemma CreateKeepsName(c: bool, l: Local, now: nat, net: Net)
    requires CrInv(c, l, now) && NameInv(l, now) && l.crPc.CrCreateAr?
    ensures NameInv(CrCreateStep(l, net, now), now + 1)
  {
    var l' := CrCreateStep(l, net, now);
    LaterKeepsName(l, now);
    if l.ar.Some? || net.Dropped? {
      CrPcKeepsName(l, now + 1, l');
    }
  }

  lemma CrKeepsName(c: bool, l: Local, now: nat, a: Action)
    requires CrInv(c, l, now) && ArInv(c, l, now) && NameInv(l, now) && Enabled(l, a) && OfCrController(a)
    ensures NameInv(StepLocal(c, l, now, a), now + 1)
  {
    var l' := StepLocal(c, l, now, a);
    match a
    case CrDelete(net) => DeleteKeepsName(c, l, now, net); LaterKeepsName(l', now);
    case CrCreate(net) => CreateKeepsName(c, l, now, net);
    case CrPending(net) => CrWriteKeepsName(c, l, now, net, SetCondition(l.crPc.cr.obj, ReadyCondition, PROCESSING));
    case CrDeny(net, time) => CrWriteKeepsName(c, l, now, net, WithDenial(l.crPc.cr.obj, time));
    case _ =>
      ReadingFrame(c, l, now, a);
      CrPcKeepsName(l, now, l');
      LaterKeepsName(l', now);
  }

  lemma ReadingFrame(c: bool, l: Local, now: nat, a: Action)
    requires Enabled(l, a) && (a.CrStart? || a.CrLook? || a.CrCrash?)
    ensures var l' := StepLocal(c, l, now, a);
            && l' == l.(crPc := l'.crPc, crErr := l'.crErr)
            && (l'.crPc.CrIdle? || (!l.crPc.CrIdle? && l'.crPc.cr == l.crPc.cr) || l.cr == Some(l'.crPc.cr))
            && (l'.crPc.CrDeleteAr? && l.ar.Some? ==> RequestDiffers(l.ar.value.obj, l'.crPc.cr.obj))
  {}

  lemma EnvKeepsName(c: bool, l: Local, now: nat, a: Action)
    requires ArInv(c, l, now) && NameInv(l, now) && Enabled(l, a) && !OfCrController(a) && !OfArController(a)
    ensures NameInv(StepLocal(c, l, now, a), now + 1)
  {
    match a
    case CreateCr(request, ref) => StoreCrKeepsName(l, now, Cr(now, request, ref, map[], [], [], None));
    case DeleteCr => LaterKeepsName(l.(cr := None, ar := StepLocal(c, l, now, a).ar), now);
    case CollectOrphan => CollectKeepsName(c, l, now);
    case Decide(approve) =>
      var t := if approve then ApprovedCondition else DeniedCondition;
      StoreCrKeepsName(l, now, SetCondition(l.cr.value.obj, t, Condition(CondTrue, OtherReason(""), OtherMessage(""))));
    case Touch => StoreCrKeepsName(l, now, l.cr.value.obj);
    case Resync => StatusKeepsName(l, l.(queued := true), now);
  }

  lemma CollectKeepsName(c: bool, l: Local, now: nat)
    requires ArInv(c, l, now) && NameInv(l, now) && Enabled(l, CollectOrphan)
    ensures NameInv(l.(ar := None), now + 1)
  {
    DropKeepsName(l, now);
    LaterKeepsName(l.(ar := None), now);
  }

  lemma NameStep(c: bool, l: Local, now: nat, a: Action)
    requires CrInv(c, l, now) && ArInv(c, l, now) && NameInv(l, now) && Enabled(l, a)
    ensures NameInv(StepLocal(c, l, now, a), now + 1)
  {
    if OfArController(a) {
      ArKeepsName(c, l, now, a);
    } else if OfCrController(a) {
      CrKeepsName(c, l, now, a);
    } else {
      EnvKeepsName(c, l, now, a);
    }
  }

  lemma {:induction false} NameFrom(c: bool, w: World, xs: seq<Label>, k: Key)
    requires Reachable(c, w) && Runs(c, w, xs) && NameInv(At(w, k), w.clock)
    ensures NameInv(At(After(c, w, xs), k), After(c, w, xs).clock)
    decreases |xs|
  {
    if xs != [] {
      ReachableInv(c, w, k);
      if k == xs[0].key {
        NameStep(c, At(w, k), w.clock, xs[0].action);
      } else {
        LaterKeepsName(At(w, k), w.clock);
      }
      ReachableStep(c, w, xs[0]);
      NameFrom(c, Step(c, w, xs[0]), xs[1..], k);
    }
  }

  lemma ReachableName(c: bool, w: World, k: Key)
    requires Reachable(c, w)
    ensures NameInv(At(w, k), w.clock)
  {
    var xs :| Runs(c, INIT, xs) && After(c, INIT, xs) == w;
    assert Runs(c, INIT, []) && After(c, INIT, []) == INIT;
    NameFrom(c, INIT, xs, k);
  }

  // ---------- one AdcsRequest at a time ----------

  /** The AdcsRequests ever made for the CertificateRequest with this uid. */
  function MadeFor(h: History, uid: nat): set<nat> {
    set u | u in h.births && h.births[u].obj.uid == uid
  }

  /** While a CertificateRequest is stored, at most one AdcsRequest was made for it, and that one is stored. */
  lemma OneAtATime(c: bool, w: World, k: Key)
    requires Reachable(c, w) && At(w, k).cr.Some?
    ensures var l := At(w, k);
            MadeFor(l.hist, l.cr.value.obj.uid) == {} ||
            (l.ar.Some? && MadeFor(l.hist, l.cr.value.obj.uid) == {l.ar.value.obj.uid})
  {
    ReachableName(c, w, k);
    var l := At(w, k);
    var made := MadeFor(l.hist, l.cr.value.obj.uid);
    assert forall u | u in made :: Stored(l, u);
    if u :| u in made { assert made == {u}; }
  }

  /** A new AdcsRequest for this CertificateRequest: with it as owner, its CSR and issuer reference, and no status. */
  predicate IsMadeOf(ar: Option<Versioned<Ar>>, cr: Cr) {
    && ar.Some?
    && ar.value.obj.owner == cr.uid && ar.value.obj.csr == cr.request && ar.value.obj.issuerRef == cr.issuerRef
    && ar.value.obj.status == ArStatus(Unknown, "", "")
  }

  /** In every reachable world an AdcsRequest has the CSR and the issuer reference of its owner. */
  lemma SpecsAgree(c: bool, w: World, k: Key)
    requires Reachable(c, w) && At(w, k).ar.Some? && At(w, k).cr.Some?
    requires At(w, k).ar.value.obj.owner == At(w, k).cr.value.obj.uid
    ensures var (ar, cr) := (At(w, k).ar.value.obj, At(w, k).cr.value.obj);
            ar.csr == cr.request && ar.issuerRef == cr.issuerRef && ar.issuerRef.group == GROUP
  {
    ReachableInv(c, w, k);
    ReachableName(c, w, k);
    var l := At(w, k);
    assert l.hist.births[l.ar.value.obj.uid] in l.hist.past;
  }

  /** Another AdcsRequest for the same CertificateRequest is made only when that one is gone: an orphan. */
  lemma AnotherIsOrphan(c: bool, w: World, x: Label)
    requires Reachable(c, w) && CanStep(w, x) && ChangeOf(At(w, x.key), x.action) == Some(ArCreated)
    ensures var l, l' := At(w, x.key), At(Step(c, w, x), x.key);
            var uid := l.crPc.cr.obj.uid;
            && MadeFor(l'.hist, uid) == MadeFor(l.hist, uid) + {w.clock}
            && IsMadeOf(l'.ar, l.crPc.cr.obj)
            && (MadeFor(l.hist, uid) != {} ==> !StoredCr(l, uid))
  {
    ReachableName(c, w, x.key);
    AnotherHere(c, At(w, x.key), w.clock, x.action);
  }

  lemma AnotherHere(c: bool, l: Local, now: nat, a: Action)
    requires NameInv(l, now) && Enabled(l, a) && ChangeOf(l, a) == Some(ArCreated)
    ensures var l' := StepLocal(c, l, now, a);
            var uid := l.crPc.cr.obj.uid;
            && l'.ar == Some(Versioned(NewAr(l.crPc.cr.obj, now), now))
            && MadeFor(l'.hist, uid) == MadeFor(l.hist, uid) + {now}
            && (MadeFor(l.hist, uid) != {} ==> !StoredCr(l, uid))
  {
    MadeOnCreate(l.hist, now, l.crPc.cr, l.crPc.cr.obj.uid);
    if StoredCr(l, l.crPc.cr.obj.uid) { NothingStored(l, now, l.crPc.cr.obj.uid); }
  }

  // ---------- submissions for one CertificateRequest ----------

  /** The submissions for any of these AdcsRequests. */
  function SubmissionsOf(ledger: seq<Submission>, k: Key, uids: set<nat>): nat {
    if ledger == [] then 0
    else
      var e := ledger[|ledger| - 1];
      SubmissionsOf(ledger[..|ledger| - 1], k, uids) + if e.key == k && e.uid in uids then 1 else 0
  }

  lemma {:induction false} SubmissionsOfOne(ledger: seq<Submission>, k: Key, uid: nat)
    ensures SubmissionsOf(ledger, k, {uid}) == Submissions(ledger, k, uid)
  {
    if ledger != [] { SubmissionsOfOne(ledger[..|ledger| - 1], k, uid); }
  }

  lemma {:induction false} SubmissionsOfNone(ledger: seq<Submission>, k: Key)
    ensures SubmissionsOf(ledger, k, {}) == 0
  {
    if ledger != [] { SubmissionsOfNone(ledger[..|ledger| - 1], k); }
  }

  /** For a stored CertificateRequest the CA gets at most one submission more than attempts failed before an answer. */
  lemma RequestSubmissionBound(c: bool, w: World, k: Key)
    requires Reachable(c, w) && At(w, k).cr.Some?
    ensures var l := At(w, k);
            var made := MadeFor(l.hist, l.cr.value.obj.uid);
            SubmissionsOf(w.ca.ledger, k, made) <=
            if l.ar.Some? && made != {} then TallyOf(l.hist, l.ar.value.obj.uid).failedUnknown + 1 else 0
  {
    OneAtATime(c, w, k);
    var l := At(w, k);
    if MadeFor(l.hist, l.cr.value.obj.uid) == {} {
      SubmissionsOfNone(w.ca.ledger, k);
    } else {
      SubmissionsOfOne(w.ca.ledger, k, l.ar.value.obj.uid);
      SubmissionBound(c, w, k, l.ar.value.obj.uid);
    }
  }

  // ---------- two at most ----------

  /** Only the reconcile that still holds a snapshot of it can make something for a CertificateRequest. */
  ghost predicate FewMade(l: Local) {
    forall uid: nat ::
      |MadeFor(l.hist, uid)| <= if StoredCr(l, uid) || MayMake(l.crPc, uid) then 1 else 2
  }

  predicate MayMake(pc: CrPc, uid: nat) { Creating(pc) && pc.cr.obj.uid == uid }

  lemma MadeOnCreate(h: History, now: nat, v: Versioned<Cr>, uid: nat)
    requires now !in h.births
    ensures var h' := h.(births := h.births[now := v]);
            MadeFor(h', uid) == MadeFor(h, uid) + if v.obj.uid == uid then {now} else {}
  {}

  lemma BirthsStep(c: bool, l: Local, now: nat, a: Action)
    requires Enabled(l, a) && ChangeOf(l, a) != Some(ArCreated)
    ensures StepLocal(c, l, now, a).hist.births == l.hist.births
  {
    if OfArController(a) { FinalArStep(c, l, now, a); }
  }

  /** A name or snapshot that is new in a step was stored before, or has nothing made for it. */
  lemma PcStep(c: bool, l: Local, now: nat, a: Action, uid: nat)
    requires Enabled(l, a)
    ensures var l' := StepLocal(c, l, now, a);
            && (MayMake(l'.crPc, uid) ==> MayMake(l.crPc, uid) || StoredCr(l, uid))
            && (ChangeOf(l, a) == Some(ArCreated) ==> !MayMake(l'.crPc, uid))
  {
    if OfArController(a) {
      ArPcStep(c, l, now, a);
    }
  }

  lemma ArPcStep(c: bool, l: Local, now: nat, a: Action)
    requires Enabled(l, a) && OfArController(a)
    ensures StepLocal(c, l, now, a).crPc == l.crPc
  {
    if a.ArIssuer? || a.ArPolled? || a.ArChained? || a.ArLook? || a.ArCrash? { ArShape(c, l, now, a); }
  }

  lemma CrUidStep(c: bool, l: Local, now: nat, a: Action, uid: nat)
    requires CrInv(c, l, now) && Enabled(l, a) && StoredCr(StepLocal(c, l, now, a), uid)
    ensures StoredCr(l, uid) || uid == now
  {
    if OfArController(a) && !a.ArWriteCr? { OnlyCommitsShowCr(c, l, now, a); }
  }

  lemma FewStep(c: bool, k: Key, l: Local, now: nat, ca: Ca, a: Action)
    requires Core(c, k, l, now, ca) && NameInv(l, now) && Enabled(l, a) && FewMade(l)
    ensures FewMade(StepLocal(c, l, now, a))
  {
    var l' := StepLocal(c, l, now, a);
    forall uid: nat
      ensures |MadeFor(l'.hist, uid)| <= if StoredCr(l', uid) || MayMake(l'.crPc, uid) then 1 else 2
    {
      PcStep(c, l, now, a, uid);
      if StoredCr(l', uid) { CrUidStep(c, l, now, a, uid); }
      if ChangeOf(l, a) == Some(ArCreated) {
        FewOnCreate(l, l', now, uid);
      } else {
        BirthsStep(c, l, now, a);
        if uid == now { NothingMadeYet(l, now); }
      }
    }
  }

  lemma NothingMadeYet(l: Local, now: nat)
    requires NameInv(l, now)
    ensures MadeFor(l.hist, now) == {}
  {}

  /** What is stored has nothing yet when something can be created. */
  lemma NothingStored(l: Local, now: nat, uid: nat)
    requires NameInv(l, now) && l.ar.None? && StoredCr(l, uid)
    ensures MadeFor(l.hist, uid) == {}
  {
    assert forall u | u in MadeFor(l.hist, uid) :: Stored(l, u);
  }

  lemma FewOnCreate(l: Local, l': Local, now: nat, uid: nat)
    requires NameInv(l, now) && FewMade(l) && l.crPc.CrCreateAr? && l.ar.None?
    requires l'.cr == l.cr && l'.hist.births == l.hist.births[now := l.crPc.cr] && !MayMake(l'.crPc, uid)
    ensures |MadeFor(l'.hist, uid)| <= if StoredCr(l', uid) || MayMake(l'.crPc, uid) then 1 else 2
  {
    MadeOnCreate(l.hist, now, l.crPc.cr, uid);
    assert MadeFor(l'.hist, uid) == MadeFor(l.hist, uid) + if l.crPc.cr.obj.uid == uid then {now} else {};
    if StoredCr(l, uid) { NothingStored(l, now, uid); }
    assert MayMake(l.crPc, uid) || MadeFor(l'.hist, uid) == MadeFor(l.hist, uid);
  }

  lemma {:induction false} FewFrom(c: bool, w: World, xs: seq<Label>, k: Key)
    requires Reachable(c, w) && Runs(c, w, xs) && FewMade(At(w, k))
    ensures FewMade(At(After(c, w, xs), k))
    decreases |xs|
  {
    if xs != [] {
      ReachableInv(c, w, k);
      ReachableName(c, w, k);
      if k == xs[0].key { FewStep(c, k, At(w, k), w.clock, w.ca, xs[0].action); }
      ReachableStep(c, w, xs[0]);
      FewFrom(c, Step(c, w, xs[0]), xs[1..], k);
    }
  }

  /** In all, a CertificateRequest causes at most two AdcsRequests. */
  lemma TwoAtMost(c: bool, w: World, k: Key, uid: nat)
    requires Reachable(c, w)
    ensures |MadeFor(At(w, k).hist, uid)| <= 2
  {
    var xs :| Runs(c, INIT, xs) && After(c, INIT, xs) == w;
    assert Runs(c, INIT, []) && After(c, INIT, []) == INIT;
    assert forall u: nat :: MadeFor(EMPTY.hist, u) == {};
    FewFrom(c, INIT, xs, k);
  }
}
