/**
 The inductive invariant of the protocol: it holds of every name in every
 reachable world, whatever the interleaving and whatever fails.
 */
module Invariant {
  import opened Base
  import opened Api
  import opened Protocol

  // ---------- versions and snapshots ----------

  predicate Dated(c: Versioned<Cr>, now: nat) { c.obj.uid <= c.version < now }

  /** A snapshot of the CertificateRequest is either still what is stored, or older than it. */
  ghost predicate CrSnapshot(l: Local, now: nat, c: Versioned<Cr>) {
    && Dated(c, now)
    && c in l.hist.past
    && (l.cr.Some? ==> l.cr.value == c || l.cr.value.version > c.version)
  }

  /** The AdcsRequest stored is one made for this CertificateRequest. */
  predicate Serves(ar: Option<Versioned<Ar>>, cr: Cr) {
    ar.Some? && ar.value.obj.owner == cr.uid && !RequestDiffers(ar.value.obj, cr)
  }

  ghost predicate CrInv(checkApproved: bool, l: Local, now: nat) {
    && (l.cr.Some? ==> Dated(l.cr.value, now) && l.cr.value in l.hist.past)
    && (!l.crPc.CrIdle? ==>
      && CrSnapshot(l, now, l.crPc.cr)
      && Gate(checkApproved, l.crPc.cr.obj) == if l.crPc.CrSetDenied? then MarkDenied else Proceed)
    && (l.crPc.CrSetPending? && l.ar.Some? ==> l.ar.value.obj.uid > l.crPc.cr.version)
    && (l.crPc.CrSetPending? && l.cr == Some(l.crPc.cr) ==> Serves(l.ar, l.crPc.cr.obj))
    && (l.arPc.ArPutCr? ==> CrSnapshot(l, now, l.arPc.cr))
  }

  /** Every AdcsRequest was made from a CertificateRequest that had passed the gates. */
  ghost predicate Born(checkApproved: bool, h: History, uid: nat) {
    && uid in h.births
    && h.births[uid] in h.past
    && h.births[uid].obj.uid <= h.births[uid].version < uid
    && Gate(checkApproved, h.births[uid].obj) == Proceed
  }

  ghost predicate ArOk(checkApproved: bool, h: History, now: nat, a: Versioned<Ar>) {
    && a.obj.uid <= a.version < now
    && Born(checkApproved, h, a.obj.uid)
    && WellFormed(a.obj.status)
    && a.obj == NewAr(h.births[a.obj.uid].obj, a.obj.uid).(status := a.obj.status)
  }

  ghost predicate ArInv(checkApproved: bool, l: Local, now: nat) {
    && (l.ar.Some? ==> ArOk(checkApproved, l.hist, now, l.ar.value))
    && (!l.arPc.ArIdle? ==>
      && ArOk(checkApproved, l.hist, now, l.arPc.ar)
      && (l.ar.Some? ==>
        || l.ar.value == l.arPc.ar
        || (l.ar.value.obj.uid > l.arPc.ar.version && l.ar.value.obj.status == NEW_STATUS)))
  }

  // ---------- the AdcsRequest controller's own data ----------

  /** `next` may follow `st`: terminal states stay, an id once given stays. */
  predicate Follows(st: ArStatus, next: ArStatus) {
    if st.state.Terminal() then next == st
    else !next.state.Unknown? && WellFormed(next) && (st.state.Pending? ==> next.id == st.id)
  }

  ghost predicate PcInv(k: Key, l: Local, ca: Ca) {
    match l.arPc
    case ArIdle => true
    case ArGetIssuer(_) => true
    case ArSubmit(a, _) => a.obj.status.state.Unknown?
    case ArPoll(a, server, id) =>
      && IsDecimal(id)
      && ((a.obj.status.state.Pending? && a.obj.status.id == id) ||
          a.obj.status.state.Unknown?)
    case ArChain(a, next, _) => !a.obj.status.state.Terminal() && Follows(a.obj.status, next)
    case ArGetCr(a, next, _, _) => Follows(a.obj.status, next)
    case ArPutCr(a, next, _, _, _) => Follows(a.obj.status, next) && next.state.Terminal()
    case ArPutAr(a, next) => Follows(a.obj.status, next)
  }

  // ---------- outcome agreement ----------

  /** The CertificateRequest shows this outcome, written since the AdcsRequest was made. */
  ghost predicate Shows(cr: Option<Versioned<Cr>>, ar: Ar, state: State)
    requires state.Terminal()
  {
    cr.Some? && cr.value.obj.uid == ar.owner ==>
      Image(state, cr.value.obj) && cr.value.version > ar.uid
  }

  ghost predicate AgreeInv(l: Local) {
    && (l.ar.Some? && l.ar.value.obj.status.state.Terminal() ==>
        Shows(l.cr, l.ar.value.obj, l.ar.value.obj.status.state))
    && (l.arPc.ArPutAr? && l.arPc.next.state.Terminal() && l.ar == Some(l.arPc.ar) ==>
        Shows(l.cr, l.arPc.ar.obj, l.arPc.next.state))
  }

  // ---------- work queue and tallies ----------

  ghost predicate QueueInv(l: Local) {
    l.ar.Some? && !l.ar.value.obj.status.state.Terminal() ==>
      l.queued || (!l.arPc.ArIdle? && l.arPc.ar == l.ar.value)
  }

  ghost predicate TallyInv(l: Local, now: nat) {
    && (forall u | u in l.hist.tally :: u < now)
    && (l.ar.Some? ==>
        var t := TallyOf(l.hist, l.ar.value.obj.uid);
        var state := l.ar.value.obj.status.state;
        && t.attempts == t.failedUnknown + t.failedPending + t.pendings + (if state.Terminal() then 1 else 0)
        && (state.Unknown? ==> t.pendings == 0 && t.failedPending == 0))
  }

  // ---------- the CA's ledger ----------

  function Submissions(ledger: seq<Submission>, k: Key, uid: nat): nat {
    if ledger == [] then 0
    else
      var e := ledger[|ledger| - 1];
      Submissions(ledger[..|ledger| - 1], k, uid) + if e.key == k && e.uid == uid then 1 else 0
  }

  lemma SubmissionsStep(ledger: seq<Submission>, e: Submission, k: Key, uid: nat)
    ensures Submissions(ledger + [e], k, uid) ==
            Submissions(ledger, k, uid) + if e.key == k && e.uid == uid then 1 else 0
  {
    assert (ledger + [e])[..|ledger|] == ledger;
  }

  predicate Early(pc: ArPc) { pc.ArGetIssuer? || pc.ArSubmit? }

  /** Nothing has been submitted for this AdcsRequest that a failed attempt does not account for. */
  ghost predicate Settled(l: Local, uid: nat) {
    if !l.arPc.ArIdle? && l.arPc.ar.obj.uid == uid then
      l.arPc.ar.obj.status.state.Unknown? && Early(l.arPc)
    else
      l.ar.Some? && l.ar.value.obj.uid == uid && l.ar.value.obj.status.state.Unknown?
  }

  ghost predicate Entered(checkApproved: bool, k: Key, h: History, now: nat, e: Submission) {
    e.key == k ==> e.uid < now && Born(checkApproved, h, e.uid) && e.csr == h.births[e.uid].obj.request
  }

  function FailedUnknown(l: Local, uid: nat): nat { TallyOf(l.hist, uid).failedUnknown }

  /** The bound on what has been submitted for one AdcsRequest. */
  ghost predicate Accounted(k: Key, l: Local, ca: Ca, uid: nat) {
    Submissions(ca.ledger, k, uid) <= FailedUnknown(l, uid) + if Settled(l, uid) then 0 else 1
  }

  ghost predicate LedgerInv(checkApproved: bool, k: Key, l: Local, now: nat, ca: Ca) {
    && (forall e | e in ca.ledger :: Entered(checkApproved, k, l.hist, now, e))
    && (forall uid: nat :: Accounted(k, l, ca, uid))
  }

  /** Everything but the ledger. */
  ghost predicate Core(checkApproved: bool, k: Key, l: Local, now: nat, ca: Ca) {
    && CrInv(checkApproved, l, now)
    && ArInv(checkApproved, l, now)
    && PcInv(k, l, ca)
    && AgreeInv(l)
    && QueueInv(l)
    && TallyInv(l, now)
  }

  ghost predicate Inv(checkApproved: bool, k: Key, l: Local, now: nat, ca: Ca) {
    Core(checkApproved, k, l, now, ca) && LedgerInv(checkApproved, k, l, now, ca)
  }

  // ---------- the building blocks of a step ----------

  lemma Tick(c: bool, k: Key, l: Local, now: nat, ca: Ca, ca': Ca)
    requires Core(c, k, l, now, ca)
    requires forall e | e in ca.ledger :: e in ca'.ledger
    ensures Core(c, k, l, now + 1, ca')
  {}

  /** The AdcsRequest controller goes on with the same snapshot. */
  lemma ArMove(c: bool, k: Key, l: Local, now: nat, ca: Ca, pc: ArPc)
    requires Core(c, k, l, now, ca)
    requires !l.arPc.ArIdle? && !pc.ArIdle? && pc.ar == l.arPc.ar
    requires PcInv(k, l.(arPc := pc), ca)
    requires pc.ArPutCr? ==> CrSnapshot(l, now, pc.cr)
    requires pc.ArPutAr? && pc.next.state.Terminal() ==> Shows(l.cr, pc.ar.obj, pc.next.state)
    ensures Core(c, k, l.(arPc := pc), now, ca)
  {}

  lemma ArFailKeeps(c: bool, k: Key, l: Local, now: nat, ca: Ca)
    requires Core(c, k, l, now, ca) && !l.arPc.ArIdle?
    ensures Core(c, k, ArFail(l), now, ca)
  {}

  /** The CertificateRequest controller goes on with a snapshot that passed the gates. */
  lemma CrMove(c: bool, k: Key, l: Local, now: nat, ca: Ca, pc: CrPc)
    requires Core(c, k, l, now, ca)
    requires !pc.CrIdle? && CrSnapshot(l, now, pc.cr)
    requires Gate(c, pc.cr.obj) == if pc.CrSetDenied? then MarkDenied else Proceed
    requires pc.CrSetPending? && l.ar.Some? ==> l.ar.value.obj.uid > pc.cr.version
    requires pc.CrSetPending? && l.cr == Some(pc.cr) ==> Serves(l.ar, pc.cr.obj)
    ensures Core(c, k, l.(crPc := pc), now, ca)
  {}

  lemma CrReturnKeeps(c: bool, k: Key, l: Local, now: nat, ca: Ca, err: bool)
    requires Core(c, k, l, now, ca)
    ensures Core(c, k, CrReturn(l, err), now, ca)
  {}

  lemma DropArKeeps(c: bool, k: Key, l: Local, now: nat, ca: Ca)
    requires Core(c, k, l, now, ca)
    requires l.crPc.CrSetPending? ==> l.cr != Some(l.crPc.cr)
    ensures Core(c, k, l.(ar := None), now, ca)
  {}

  /** A new version of the CertificateRequest. */
  lemma StoreCrKeeps(c: bool, k: Key, l: Local, now: nat, ca: Ca, cr: Cr)
    requires Core(c, k, l, now, ca)
    requires cr.uid == if l.cr.Some? then l.cr.value.obj.uid else now
    requires AgreeInv(StoreCr(l, cr, now))
    ensures Core(c, k, StoreCr(l, cr, now), now + 1, ca)
  {}

  // ---------- the steps of everybody else ----------

  lemma DecideKeeps(c: bool, k: Key, l: Local, now: nat, ca: Ca, t: ConditionType, condition: Condition)
    requires Core(c, k, l, now, ca) && l.cr.Some? && !t.ReadyCondition? && t !in l.cr.value.obj.conditions
    ensures Core(c, k, StoreCr(l, SetCondition(l.cr.value.obj, t, condition), now), now + 1, ca)
  {
    StoreCrKeeps(c, k, l, now, ca, SetCondition(l.cr.value.obj, t, condition));
  }

  lemma CreateCrKeeps(c: bool, k: Key, l: Local, now: nat, ca: Ca, cr: Cr)
    requires Core(c, k, l, now, ca) && l.cr.None? && cr.uid == now
    ensures Core(c, k, StoreCr(l, cr, now), now + 1, ca)
  {
    StoreCrKeeps(c, k, l, now, ca, cr);
  }

  lemma DeleteCrKeeps(c: bool, k: Key, l: Local, now: nat, ca: Ca)
    requires Core(c, k, l, now, ca) && l.cr.Some?
    ensures Core(c, k, StepLocal(c, l, now, DeleteCr), now, ca)
  {}

  lemma DropOrphanKeeps(c: bool, k: Key, l: Local, now: nat, ca: Ca)
    requires Core(c, k, l, now, ca) && Enabled(l, CollectOrphan)
    ensures Core(c, k, l.(ar := None), now, ca)
  {
    DropArKeeps(c, k, l, now, ca);
  }

  lemma EnvKeeps(c: bool, k: Key, l: Local, now: nat, ca: Ca, a: Action)
    requires Core(c, k, l, now, ca) && Enabled(l, a)
    requires a.CreateCr? || a.DeleteCr? || a.CollectOrphan? || a.Decide? || a.Touch? || a.Resync?
    ensures Core(c, k, StepLocal(c, l, now, a), now + 1, ca)
  {
    match a
    case CreateCr(request, ref) =>
      CreateCrKeeps(c, k, l, now, ca, Cr(now, request, ref, map[], [], [], None));
    case DeleteCr =>
      DeleteCrKeeps(c, k, l, now, ca);
      Tick(c, k, StepLocal(c, l, now, a), now, ca, ca);
    case CollectOrphan =>
      DropOrphanKeeps(c, k, l, now, ca);
      Tick(c, k, l.(ar := None), now, ca, ca);
    case Decide(approve) =>
      DecideKeeps(c, k, l, now, ca, if approve then ApprovedCondition else DeniedCondition,
                  Condition(CondTrue, OtherReason(""), OtherMessage("")));
    case Touch => StoreCrKeeps(c, k, l, now, ca, l.cr.value.obj);
    case Resync => Tick(c, k, l.(queued := true), now, ca, ca);
  }

  // ---------- the steps of the CertificateRequest controller ----------

  lemma CrLookKeeps(c: bool, k: Key, l: Local, now: nat, ca: Ca, ok: bool)
    requires Core(c, k, l, now, ca) && l.crPc.CrGetAr?
    ensures Core(c, k, CrLookStep(l, ok), now, ca)
  {
    if !ok {
      CrReturnKeeps(c, k, l, now, ca, true);
    } else if l.ar.None? {
      CrMove(c, k, l, now, ca, CrCreateAr(l.crPc.cr));
    } else if RequestDiffers(l.ar.value.obj, l.crPc.cr.obj) {
      CrMove(c, k, l, now, ca, CrDeleteAr(l.crPc.cr));
    } else {
      CrReturnKeeps(c, k, l, now, ca, false);
    }
  }

  /** A reconcile that starts returns at once, or keeps the snapshot the gates have judged. */
  lemma CrStartShape(c: bool, l: Local, ok: bool)
    ensures var l' := CrStartStep(c, l, ok);
            || l' == CrReturn(l, !ok)
            || (&& l.cr.Some? && l' == l.(crPc := l'.crPc)
                && (l'.crPc == CrSetDenied(l.cr.value) || l'.crPc == CrGetAr(l.cr.value))
                && Gate(c, l.cr.value.obj) == if l'.crPc.CrSetDenied? then MarkDenied else Proceed)
  {}

  lemma CrStartKeeps(c: bool, k: Key, l: Local, now: nat, ca: Ca, ok: bool)
    requires Core(c, k, l, now, ca) && l.crPc.CrIdle?
    ensures Core(c, k, CrStartStep(c, l, ok), now, ca)
  {
    CrStartShape(c, l, ok);
    var l' := CrStartStep(c, l, ok);
    if l' == CrReturn(l, !ok) {
      CrReturnKeeps(c, k, l, now, ca, !ok);
    } else {
      CrPassKeeps(c, k, l, now, ca, l'.crPc);
    }
  }

  lemma CrPassKeeps(c: bool, k: Key, l: Local, now: nat, ca: Ca, pc: CrPc)
    requires Core(c, k, l, now, ca) && l.cr.Some? && (pc.CrGetAr? || pc.CrSetDenied?) && pc.cr == l.cr.value
    requires Gate(c, pc.cr.obj) == if pc.CrSetDenied? then MarkDenied else Proceed
    ensures Core(c, k, l.(crPc := pc), now, ca)
  {
    CrMove(c, k, l, now, ca, pc);
  }

  /** A fresh AdcsRequest, made from a snapshot that passed the gates. */
  function WithNewAr(l: Local, now: nat, c: Versioned<Cr>): Local {
    l.(ar := Some(Versioned(NewAr(c.obj, now), now)), queued := true,
       hist := l.hist.(births := l.hist.births[now := c]))
  }

  lemma NewArKeeps(c: bool, k: Key, l: Local, now: nat, ca: Ca)
    requires Core(c, k, l, now, ca) && l.crPc.CrCreateAr? && l.ar.None?
    ensures Core(c, k, WithNewAr(l, now, l.crPc.cr), now + 1, ca)
  {}

  lemma CrCreatedKeeps(c: bool, k: Key, l: Local, now: nat, ca: Ca)
    requires Core(c, k, l, now, ca) && l.crPc.CrCreateAr? && l.ar.None?
    ensures Core(c, k, WithNewAr(l, now, l.crPc.cr).(crPc := CrSetPending(l.crPc.cr)), now + 1, ca)
  {
    NewArKeeps(c, k, l, now, ca);
    CrMove(c, k, WithNewAr(l, now, l.crPc.cr), now + 1, ca, CrSetPending(l.crPc.cr));
  }

  lemma CrUncertainKeeps(c: bool, k: Key, l: Local, now: nat, ca: Ca)
    requires Core(c, k, l, now, ca) && l.crPc.CrCreateAr? && l.ar.None?
    ensures Core(c, k, CrReturn(WithNewAr(l, now, l.crPc.cr), true), now + 1, ca)
  {
    NewArKeeps(c, k, l, now, ca);
    CrReturnKeeps(c, k, WithNewAr(l, now, l.crPc.cr), now + 1, ca, true);
  }

  lemma CrCreateKeeps(c: bool, k: Key, l: Local, now: nat, ca: Ca, net: Net)
    requires Core(c, k, l, now, ca) && l.crPc.CrCreateAr?
    ensures Core(c, k, CrCreateStep(l, net, now), now + 1, ca)
  {
    if l.ar.Some? || net.Dropped? {
      CrReturnKeeps(c, k, l, now, ca, true);
      Tick(c, k, CrReturn(l, true), now, ca, ca);
    } else if net.Delivered? {
      CrCreatedKeeps(c, k, l, now, ca);
    } else {
      CrUncertainKeeps(c, k, l, now, ca);
    }
  }

  lemma CrDeleteKeeps(c: bool, k: Key, l: Local, now: nat, ca: Ca, net: Net)
    requires Core(c, k, l, now, ca) && l.crPc.CrDeleteAr?
    ensures Core(c, k, CrDeleteStep(l, net), now, ca)
  {
    if !net.Dropped? { DropArKeeps(c, k, l, now, ca); }
    var l1 := if net.Dropped? then l else l.(ar := None);
    CrMove(c, k, l1, now, ca, CrCreateAr(l.crPc.cr));
  }

  /** What the CertificateRequest controller may be about to write. */
  ghost predicate CrWrites(l: Local, cr: Cr) {
    || (l.crPc.CrSetPending? && cr == SetCondition(l.crPc.cr.obj, ReadyCondition, PROCESSING))
    || (l.crPc.CrSetDenied? && exists time :: cr == WithDenial(l.crPc.cr.obj, time))
  }

  /** A late "Processing" finds no outcome to overwrite, a denial only that of a rejected request. */
  lemma CrWriteAgrees(c: bool, k: Key, l: Local, now: nat, ca: Ca, net: Net, cr: Cr)
    requires Core(c, k, l, now, ca) && CrWrites(l, cr) && Commits(net, l.cr, l.crPc.cr)
    ensures cr.uid == l.cr.value.obj.uid && AgreeInv(StoreCr(l, cr, now))
  {}

  lemma CrUpdateKeeps(c: bool, k: Key, l: Local, now: nat, ca: Ca, net: Net, cr: Cr)
    requires Core(c, k, l, now, ca) && CrWrites(l, cr)
    ensures Core(c, k, UpdateCr(l, net, l.crPc.cr, cr, now), now + 1, ca)
  {
    if Commits(net, l.cr, l.crPc.cr) {
      CrWriteAgrees(c, k, l, now, ca, net, cr);
      StoreCrKeeps(c, k, l, now, ca, cr);
    } else {
      Tick(c, k, l, now, ca, ca);
    }
  }

  lemma CrWriteKeeps(c: bool, k: Key, l: Local, now: nat, ca: Ca, net: Net, cr: Cr)
    requires Core(c, k, l, now, ca) && CrWrites(l, cr)
    ensures Core(c, k, CrWriteStep(l, net, cr, now), now + 1, ca)
  {
    CrUpdateKeeps(c, k, l, now, ca, net, cr);
    CrReturnKeeps(c, k, UpdateCr(l, net, l.crPc.cr, cr, now), now + 1, ca, !Told(net, l.cr, l.crPc.cr));
  }

  // ---------- the steps of the AdcsRequest controller ----------

  lemma ArStartKeeps(c: bool, k: Key, l: Local, now: nat, ca: Ca, ok: bool)
    requires Core(c, k, l, now, ca) && l.arPc.ArIdle? && l.queued
    ensures Core(c, k, ArStartStep(l, ok), now, ca)
  {}

  lemma ArIssuerKeeps(c: bool, k: Key, l: Local, now: nat, ca: Ca, server: Option<string>)
    requires Core(c, k, l, now, ca) && l.arPc.ArGetIssuer?
    ensures Core(c, k, ArIssuerStep(l, server), now, ca)
  {
    var a := l.arPc.ar;
    var st := a.obj.status;
    if server.None? || (st.state.Pending? && st.id == "") {
      ArFailKeeps(c, k, l, now, ca);
    } else if st.state.Unknown? {
      ArMove(c, k, l, now, ca, ArSubmit(a, server.value));
    } else if st.state.Pending? {
      ArMove(c, k, l, now, ca, ArPoll(a, server.value, st.id));
    } else {
      ArMove(c, k, l, now, ca, ArGetCr(a, st, [], []));
    }
  }

  lemma ArPostKeeps(c: bool, k: Key, l: Local, now: nat, ca: Ca, post: PostReply)
    requires Core(c, k, l, now, ca) && l.arPc.ArSubmit? && (post.Numbered? ==> IsDecimal(post.id))
    ensures Core(c, k, ArPostStep(l, post), now, ca)
  {
    if post.Inline? || post.Numbered? {
      ArMove(c, k, l, now, ca, ArPostStep(l, post).arPc);
    } else {
      ArFailKeeps(c, k, l, now, ca);
    }
  }

  lemma ArPolledKeeps(c: bool, k: Key, l: Local, now: nat, ca: Ca, poll: PollReply)
    requires Core(c, k, l, now, ca) && l.arPc.ArPoll?
    ensures Core(c, k, ArPolledStep(l, poll), now, ca)
  {
    if poll.PollFailed? {
      ArFailKeeps(c, k, l, now, ca);
    } else {
      ArMove(c, k, l, now, ca, ArPolledStep(l, poll).arPc);
    }
  }

  lemma ArChainedKeeps(c: bool, k: Key, l: Local, now: nat, ca: Ca, chain: Option<Bytes>)
    requires Core(c, k, l, now, ca) && l.arPc.ArChain?
    ensures Core(c, k, ArChainedStep(l, chain), now, ca)
  {
    if chain.None? {
      ArFailKeeps(c, k, l, now, ca);
    } else {
      ArMove(c, k, l, now, ca, ArGetCr(l.arPc.ar, l.arPc.next, l.arPc.cert, chain.value));
    }
  }

  lemma ArLookKeeps(c: bool, k: Key, l: Local, now: nat, ca: Ca, ok: bool)
    requires Core(c, k, l, now, ca) && l.arPc.ArGetCr?
    ensures Core(c, k, ArLookStep(l, ok), now, ca)
  {
    if !ok || l.cr.None? {
      ArFailKeeps(c, k, l, now, ca);
    } else {
      ArMove(c, k, l, now, ca, ArLookStep(l, ok).arPc);
    }
  }

  lemma OutcomeAgrees(c: bool, k: Key, l: Local, now: nat, ca: Ca, net: Net)
    requires Core(c, k, l, now, ca) && Enabled(l, ArWriteCr(net)) && Commits(net, l.cr, l.arPc.cr)
    ensures var p := l.arPc;
            var cr := WithOutcome(p.cr.obj, p.next.state, p.cert, p.ca);
            && cr.uid == l.cr.value.obj.uid
            && AgreeInv(StoreCr(l, cr, now))
            && Shows(StoreCr(l, cr, now).cr, p.ar.obj, p.next.state)
  {}

  lemma OutcomeStored(c: bool, k: Key, l: Local, now: nat, ca: Ca, net: Net)
    requires Core(c, k, l, now, ca) && Enabled(l, ArWriteCr(net))
    ensures var p := l.arPc;
            var cr := WithOutcome(p.cr.obj, p.next.state, p.cert, p.ca);
            var l1 := UpdateCr(l, net, p.cr, cr, now);
            && Core(c, k, l1, now + 1, ca)
            && (Commits(net, l.cr, p.cr) ==> Shows(l1.cr, p.ar.obj, p.next.state))
  {
    if Commits(net, l.cr, l.arPc.cr) {
      OutcomeAgrees(c, k, l, now, ca, net);
      StoreCrKeeps(c, k, l, now, ca, WithOutcome(l.arPc.cr.obj, l.arPc.next.state, l.arPc.cert, l.arPc.ca));
    } else {
      Tick(c, k, l, now, ca, ca);
    }
  }

  lemma ArToldKeeps(c: bool, k: Key, l: Local, now: nat, ca: Ca, net: Net)
    requires Core(c, k, l, now, ca) && Enabled(l, ArWriteCr(net)) && Told(net, l.cr, l.arPc.cr)
    ensures Core(c, k, ArWriteCrStep(l, net, now), now + 1, ca)
  {
    var p := l.arPc;
    OutcomeStored(c, k, l, now, ca, net);
    ArMove(c, k, UpdateCr(l, net, p.cr, WithOutcome(p.cr.obj, p.next.state, p.cert, p.ca), now), now + 1, ca,
           ArPutAr(p.ar, p.next));
  }

  lemma ArLostReplyKeeps(c: bool, k: Key, l: Local, now: nat, ca: Ca, net: Net)
    requires Core(c, k, l, now, ca) && Enabled(l, ArWriteCr(net))
    requires Commits(net, l.cr, l.arPc.cr) && !net.Delivered?
    ensures Core(c, k, ArWriteCrStep(l, net, now), now + 1, ca)
  {
    var p := l.arPc;
    OutcomeStored(c, k, l, now, ca, net);
    ArFailKeeps(c, k, StoreCr(l, WithOutcome(p.cr.obj, p.next.state, p.cert, p.ca), now), now + 1, ca);
  }

  lemma ArConflictKeeps(c: bool, k: Key, l: Local, now: nat, ca: Ca, net: Net)
    requires Core(c, k, l, now, ca) && Enabled(l, ArWriteCr(net)) && !Commits(net, l.cr, l.arPc.cr)
    ensures Core(c, k, ArWriteCrStep(l, net, now), now + 1, ca)
  {
    ArFailKeeps(c, k, l, now, ca);
    Tick(c, k, ArFail(l), now, ca, ca);
  }

  lemma ArWriteArKeeps(c: bool, k: Key, l: Local, now: nat, ca: Ca, net: Net)
    requires Core(c, k, l, now, ca) && l.arPc.ArPutAr?
    ensures Core(c, k, ArWriteArStep(l, net, now), now + 1, ca)
  {
    if Commits(net, l.ar, l.arPc.ar) {
      assert l.ar.value == l.arPc.ar;
    } else {
      ArFailKeeps(c, k, l, now, ca);
      Tick(c, k, ArFail(l), now, ca, ca);
    }
  }

  lemma CrKeeps(c: bool, k: Key, l: Local, now: nat, ca: Ca, a: Action)
    requires Core(c, k, l, now, ca) && Enabled(l, a)
    requires a.CrStart? || a.CrLook? || a.CrDelete? || a.CrCrash?
    ensures Core(c, k, StepLocal(c, l, now, a), now, ca)
  {
    match a
    case CrStart(ok) => CrStartKeeps(c, k, l, now, ca, ok);
    case CrLook(ok) => CrLookKeeps(c, k, l, now, ca, ok);
    case CrDelete(net) => CrDeleteKeeps(c, k, l, now, ca, net);
    case CrCrash => CrReturnKeeps(c, k, l, now, ca, true);
  }

  lemma ArKeeps(c: bool, k: Key, l: Local, now: nat, ca: Ca, a: Action)
    requires Core(c, k, l, now, ca) && Enabled(l, a)
    requires a.ArStart? || a.ArIssuer? || a.ArPolled? || a.ArChained? || a.ArLook? || a.ArCrash?
    ensures Core(c, k, StepLocal(c, l, now, a), now, ca)
  {
    match a
    case ArStart(ok) => ArStartKeeps(c, k, l, now, ca, ok);
    case ArIssuer(server) => ArIssuerKeeps(c, k, l, now, ca, server);
    case ArPolled(poll) => ArPolledKeeps(c, k, l, now, ca, poll);
    case ArChained(chain) => ArChainedKeeps(c, k, l, now, ca, chain);
    case ArLook(ok) => ArLookKeeps(c, k, l, now, ca, ok);
    case ArCrash => ArFailKeeps(c, k, l, now, ca);
  }

  lemma WriteKeeps(c: bool, k: Key, l: Local, now: nat, ca: Ca, a: Action)
    requires Core(c, k, l, now, ca) && Enabled(l, a)
    requires a.CrCreate? || a.CrPending? || a.CrDeny? || a.ArWriteCr? || a.ArWriteAr?
    ensures Core(c, k, StepLocal(c, l, now, a), now + 1, ca)
  {
    match a
    case CrCreate(net) => CrCreateKeeps(c, k, l, now, ca, net);
    case CrPending(net) => CrWriteKeeps(c, k, l, now, ca, net, SetCondition(l.crPc.cr.obj, ReadyCondition, PROCESSING));
    case CrDeny(net, time) => CrWriteKeeps(c, k, l, now, ca, net, WithDenial(l.crPc.cr.obj, time));
    case ArWriteCr(net) =>
      if Told(net, l.cr, l.arPc.cr) {
        ArToldKeeps(c, k, l, now, ca, net);
      } else if Commits(net, l.cr, l.arPc.cr) {
        ArLostReplyKeeps(c, k, l, now, ca, net);
      } else {
        ArConflictKeeps(c, k, l, now, ca, net);
      }
    case ArWriteAr(net) => ArWriteArKeeps(c, k, l, now, ca, net);
  }

  lemma PostKeeps(c: bool, k: Key, l: Local, now: nat, ca: Ca, a: Action)
    requires Core(c, k, l, now, ca) && Enabled(l, a) && a.ArPost?
    ensures Core(c, k, StepLocal(c, l, now, a), now + 1, CaAfter(k, l, ca, a))
  {
    var ca' := CaAfter(k, l, ca, a);
    Tick(c, k, l, now, ca, ca');
    ArPostKeeps(c, k, l, now + 1, ca', Read(a.sent, a.wire));
  }

  lemma CoreKeeps(c: bool, k: Key, l: Local, now: nat, ca: Ca, a: Action)
    requires Core(c, k, l, now, ca) && Enabled(l, a)
    ensures Core(c, k, StepLocal(c, l, now, a), now + 1, CaAfter(k, l, ca, a))
  {
    if a.CreateCr? || a.DeleteCr? || a.CollectOrphan? || a.Decide? || a.Touch? || a.Resync? {
      EnvKeeps(c, k, l, now, ca, a);
    } else if a.CrStart? || a.CrLook? || a.CrDelete? || a.CrCrash? {
      CrKeeps(c, k, l, now, ca, a);
      Tick(c, k, StepLocal(c, l, now, a), now, ca, ca);
    } else if a.CrCreate? || a.CrPending? || a.CrDeny? || a.ArWriteCr? || a.ArWriteAr? {
      WriteKeeps(c, k, l, now, ca, a);
    } else if a.ArPost? {
      PostKeeps(c, k, l, now, ca, a);
    } else {
      ArKeeps(c, k, l, now, ca, a);
      Tick(c, k, StepLocal(c, l, now, a), now, ca, CaAfter(k, l, ca, a));
    }
  }

  // ---------- the ledger ----------

  /** Nothing the AdcsRequest controller reads in memory changes, and a new AdcsRequest is new. */
  ghost predicate ArUntouched(l: Local, l': Local, now: nat) {
    && l'.arPc == l.arPc
    && (l.queued ==> l'.queued)
    && l'.hist.tally == l.hist.tally
    && (l'.ar == l.ar || l'.ar.None? || l'.ar.value.obj.uid == now)
  }

  lemma FailAccounted(c: bool, k: Key, l: Local, now: nat, ca: Ca, uid: nat)
    requires ArInv(c, l, now) && PcInv(k, l, ca) && !l.arPc.ArIdle? && Accounted(k, l, ca, uid)
    ensures Accounted(k, ArFail(l), ca, uid)
  {}

  /** A submission uses up the settled account, or is a counted failure. */
  lemma SentAccounted(k: Key, l: Local, ca: Ca, e: Submission, post: PostReply, uid: nat)
    requires l.arPc.ArSubmit? && l.arPc.ar.obj.status.state.Unknown? && Accounted(k, l, ca, uid)
    requires e.uid == l.arPc.ar.obj.uid
    ensures Accounted(k, ArPostStep(l, post), ca.(ledger := ca.ledger + [e]), uid)
  {
    SubmissionsStep(ca.ledger, e, k, uid);
  }

  lemma PostAccounted(c: bool, k: Key, l: Local, now: nat, ca: Ca, sent: CaAnswer, wire: Wire, uid: nat)
    requires ArInv(c, l, now) && PcInv(k, l, ca) && Enabled(l, ArPost(sent, wire)) && Accounted(k, l, ca, uid)
    ensures Accounted(k, ArPostStep(l, Read(sent, wire)), CaAfter(k, l, ca, ArPost(sent, wire)), uid)
  {
    if wire.Unsent? {
      FailAccounted(c, k, l, now, ca, uid);
    } else {
      SentAccounted(k, l, ca, Entry(k, l.arPc, sent, wire), Read(sent, wire), uid);
    }
  }

  /** A move of the AdcsRequest controller that is no submission and ends nothing. */
  lemma MoveAccounted(k: Key, l: Local, l': Local, ca: Ca, uid: nat)
    requires Accounted(k, l, ca, uid) && l'.hist.tally == l.hist.tally && (Settled(l', uid) ==> Settled(l, uid))
    ensures Accounted(k, l', ca, uid)
  {}

  predicate OfArController(a: Action) {
    a.ArStart? || a.ArIssuer? || a.ArPost? || a.ArPolled? || a.ArChained? || a.ArLook? ||
    a.ArWriteCr? || a.ArWriteAr? || a.ArCrash?
  }

  /** Everyone but the AdcsRequest controller leaves its data alone, and removes or creates the object at most. */
  lemma OthersFrame(c: bool, l: Local, now: nat, a: Action)
    requires Enabled(l, a) && !OfArController(a)
    ensures ArUntouched(l, StepLocal(c, l, now, a), now)
  {}

  lemma OtherAccounted(k: Key, l: Local, l': Local, now: nat, ca: Ca, uid: nat)
    requires ArUntouched(l, l', now) && Accounted(k, l, ca, uid)
    requires uid >= now ==> Submissions(ca.ledger, k, uid) == 0
    ensures Accounted(k, l', ca, uid)
  {}

  lemma WriteCrAccounted(c: bool, k: Key, l: Local, now: nat, ca: Ca, net: Net, uid: nat)
    requires ArInv(c, l, now) && PcInv(k, l, ca) && Enabled(l, ArWriteCr(net)) && Accounted(k, l, ca, uid)
    ensures Accounted(k, ArWriteCrStep(l, net, now), ca, uid)
  {
    FailAccounted(c, k, l, now, ca, uid);
  }

  lemma WriteArAccounted(c: bool, k: Key, l: Local, now: nat, ca: Ca, net: Net, uid: nat)
    requires ArInv(c, l, now) && PcInv(k, l, ca) && Enabled(l, ArWriteAr(net)) && Accounted(k, l, ca, uid)
    ensures Accounted(k, ArWriteArStep(l, net, now), ca, uid)
  {
    if !Commits(net, l.ar, l.arPc.ar) { FailAccounted(c, k, l, now, ca, uid); }
  }

  /** An attempt goes on with its snapshot. */
  predicate GoesOn(l: Local, l': Local) {
    && !l.arPc.ArIdle? && !l'.arPc.ArIdle?
    && l' == l.(arPc := l'.arPc)
    && l'.arPc.ar == l.arPc.ar
    && (Early(l'.arPc) ==> Early(l.arPc))
  }

  lemma ArShape(c: bool, l: Local, now: nat, a: Action)
    requires Enabled(l, a) && (a.ArIssuer? || a.ArPolled? || a.ArChained? || a.ArLook? || a.ArCrash?)
    ensures var l' := StepLocal(c, l, now, a); l' == ArFail(l) || GoesOn(l, l')
  {}

  lemma ArStartAccounted(k: Key, l: Local, ca: Ca, ok: bool, uid: nat)
    requires l.arPc.ArIdle? && Accounted(k, l, ca, uid)
    ensures Accounted(k, ArStartStep(l, ok), ca, uid)
  {}

  lemma ShapeAccounted(c: bool, k: Key, l: Local, now: nat, ca: Ca, a: Action, uid: nat)
    requires ArInv(c, l, now) && PcInv(k, l, ca) && Enabled(l, a) && Accounted(k, l, ca, uid)
    requires a.ArIssuer? || a.ArPolled? || a.ArChained? || a.ArLook? || a.ArCrash?
    ensures Accounted(k, StepLocal(c, l, now, a), CaAfter(k, l, ca, a), uid)
  {
    var l' := StepLocal(c, l, now, a);
    ArShape(c, l, now, a);
    if l' == ArFail(l) {
      FailAccounted(c, k, l, now, ca, uid);
    } else {
      MoveAccounted(k, l, l', ca, uid);
    }
    assert CaAfter(k, l, ca, a).ledger == ca.ledger;
  }

  lemma AccountedKeeps(c: bool, k: Key, l: Local, now: nat, ca: Ca, a: Action, uid: nat)
    requires ArInv(c, l, now) && PcInv(k, l, ca) && Enabled(l, a) && Accounted(k, l, ca, uid)
    requires uid >= now ==> Submissions(ca.ledger, k, uid) == 0
    ensures Accounted(k, StepLocal(c, l, now, a), CaAfter(k, l, ca, a), uid)
  {
    var l', ca' := StepLocal(c, l, now, a), CaAfter(k, l, ca, a);
    if !OfArController(a) {
      OthersFrame(c, l, now, a);
      OtherAccounted(k, l, l', now, ca, uid);
    } else if a.ArPost? {
      PostAccounted(c, k, l, now, ca, a.sent, a.wire, uid);
    } else if a.ArStart? {
      ArStartAccounted(k, l, ca, a.ok, uid);
    } else if a.ArWriteCr? {
      WriteCrAccounted(c, k, l, now, ca, a.net, uid);
    } else if a.ArWriteAr? {
      WriteArAccounted(c, k, l, now, ca, a.net, uid);
    } else {
      ShapeAccounted(c, k, l, now, ca, a, uid);
    }
  }

  lemma {:induction false} NoneYet(c: bool, k: Key, h: History, now: nat, ledger: seq<Submission>, uid: nat)
    requires forall e | e in ledger :: Entered(c, k, h, now, e)
    requires uid >= now
    ensures Submissions(ledger, k, uid) == 0
  {
    if ledger != [] {
      var e := ledger[|ledger| - 1];
      assert e in ledger && Entered(c, k, h, now, e);
      NoneYet(c, k, h, now, ledger[..|ledger| - 1], uid);
    }
  }

  /** History only grows, so what was born stays born. */
  ghost predicate Grows(h: History, h': History, now: nat) {
    && h.past <= h'.past
    && forall u | u in h.births && u < now :: u in h'.births && h'.births[u] == h.births[u]
  }

  lemma UpdateGrows(l: Local, net: Net, read: Versioned<Cr>, cr: Cr, now: nat)
    ensures Grows(l.hist, UpdateCr(l, net, read, cr, now).hist, now)
  {}

  lemma ArGrows(c: bool, l: Local, now: nat, a: Action)
    requires Enabled(l, a) && OfArController(a)
    ensures Grows(l.hist, StepLocal(c, l, now, a).hist, now)
  {
    if a.ArWriteCr? {
      var p := l.arPc;
      UpdateGrows(l, a.net, p.cr, WithOutcome(p.cr.obj, p.next.state, p.cert, p.ca), now);
    } else if a.ArIssuer? || a.ArPolled? || a.ArChained? || a.ArLook? || a.ArCrash? {
      ArShape(c, l, now, a);
    }
  }

  lemma HistoryGrows(c: bool, l: Local, now: nat, a: Action)
    requires Enabled(l, a)
    ensures Grows(l.hist, StepLocal(c, l, now, a).hist, now)
  {
    if OfArController(a) { ArGrows(c, l, now, a); }
  }

  lemma EnteredKeeps(c: bool, k: Key, h: History, h': History, now: nat, e: Submission)
    requires Entered(c, k, h, now, e) && Grows(h, h', now)
    ensures Entered(c, k, h', now + 1, e)
  {}

  lemma NewEntry(c: bool, k: Key, l: Local, now: nat, ca: Ca, a: Action, e: Submission)
    requires Core(c, k, l, now, ca) && Enabled(l, a) && e in CaAfter(k, l, ca, a).ledger && e !in ca.ledger
    ensures Entered(c, k, l.hist, now, e)
  {}

  lemma LedgerKeeps(c: bool, k: Key, l: Local, now: nat, ca: Ca, a: Action)
    requires Inv(c, k, l, now, ca) && Enabled(l, a)
    ensures LedgerInv(c, k, StepLocal(c, l, now, a), now + 1, CaAfter(k, l, ca, a))
  {
    var l', ca' := StepLocal(c, l, now, a), CaAfter(k, l, ca, a);
    forall e | e in ca'.ledger ensures Entered(c, k, l'.hist, now + 1, e) {
      if e !in ca.ledger { NewEntry(c, k, l, now, ca, a, e); }
      HistoryGrows(c, l, now, a);
      EnteredKeeps(c, k, l.hist, l'.hist, now, e);
    }
    forall uid: nat ensures Accounted(k, l', ca', uid) {
      if uid >= now { NoneYet(c, k, l.hist, now, ca.ledger, uid); }
      AccountedKeeps(c, k, l, now, ca, a, uid);
    }
  }

  // ---------- the whole system ----------

  /** What a step at one name means for every other name. */
  lemma OtherNameKeeps(c: bool, k: Key, l: Local, now: nat, ca: Ca, other: Key, o: Local, a: Action)
    requires Inv(c, k, l, now, ca) && k != other && Enabled(o, a)
    ensures Inv(c, k, l, now + 1, CaAfter(other, o, ca, a))
  {
    var ca' := CaAfter(other, o, ca, a);
    Tick(c, k, l, now, ca, ca');
    forall e | e in ca'.ledger ensures Entered(c, k, l.hist, now + 1, e) {
      if e in ca.ledger { EnteredKeeps(c, k, l.hist, l.hist, now, e); }
    }
    forall uid: nat ensures Accounted(k, l, ca', uid) {
      if ca'.ledger != ca.ledger {
        SubmissionsStep(ca.ledger, ca'.ledger[|ca.ledger|], k, uid);
      }
      assert Accounted(k, l, ca, uid);
    }
  }

  ghost predicate WorldInv(checkApproved: bool, w: World) {
    forall k :: Inv(checkApproved, k, At(w, k), w.clock, w.ca)
  }

  lemma SameNameKeeps(c: bool, k: Key, l: Local, now: nat, ca: Ca, a: Action)
    requires Inv(c, k, l, now, ca) && Enabled(l, a)
    ensures Inv(c, k, StepLocal(c, l, now, a), now + 1, CaAfter(k, l, ca, a))
  {
    CoreKeeps(c, k, l, now, ca, a);
    LedgerKeeps(c, k, l, now, ca, a);
  }

  lemma NameKeeps(c: bool, k: Key, w: World, x: Label)
    requires Inv(c, k, At(w, k), w.clock, w.ca) && CanStep(w, x)
    ensures Inv(c, k, if k == x.key then StepLocal(c, At(w, k), w.clock, x.action) else At(w, k),
                w.clock + 1, CaAfter(x.key, At(w, x.key), w.ca, x.action))
  {
    if k == x.key {
      SameNameKeeps(c, k, At(w, k), w.clock, w.ca, x.action);
    } else {
      OtherNameKeeps(c, k, At(w, k), w.clock, w.ca, x.key, At(w, x.key), x.action);
    }
  }

  lemma StepKeeps(c: bool, w: World, x: Label)
    requires WorldInv(c, w) && CanStep(w, x)
    ensures WorldInv(c, Step(c, w, x))
  {
    forall k ensures Inv(c, k, At(Step(c, w, x), k), w.clock + 1, Step(c, w, x).ca) {
      NameKeeps(c, k, w, x);
    }
  }

  lemma {:induction false} RunsKeep(c: bool, w: World, xs: seq<Label>)
    requires WorldInv(c, w) && Runs(c, w, xs)
    ensures WorldInv(c, After(c, w, xs))
    decreases |xs|
  {
    if xs != [] {
      StepKeeps(c, w, xs[0]);
      RunsKeep(c, Step(c, w, xs[0]), xs[1..]);
    }
  }

  /** Every run from the start keeps the invariant. */
  lemma InvariantHolds(c: bool, xs: seq<Label>)
    requires Runs(c, INIT, xs)
    ensures WorldInv(c, After(c, INIT, xs))
  {
    RunsKeep(c, INIT, xs);
  }
}
