/** What a denied CertificateRequest shows, over whole runs: the mark, and the failure time beside it. */
module Denials {
  import opened Base
  import opened Api
  import opened Protocol
  import opened Invariant
  import opened Safety
  import opened Continuations

  // ---------- a mark has its reason ----------

  predicate MarkedDenied(cr: Cr) {
    ReadyCondition in cr.conditions && cr.conditions[ReadyCondition] == DENIED
  }

  predicate MarkOk(cr: Cr) { MarkedDenied(cr) ==> IsDenied(cr) && cr.failureTime.Some? }

  ghost predicate MarksOk(l: Local) { forall v | v in l.hist.past :: MarkOk(v.obj) }

  lemma StoreMark(l: Local, cr: Cr, now: nat)
    requires MarksOk(l) && MarkOk(cr)
    ensures MarksOk(StoreCr(l, cr, now))
  {}

  lemma CrWriteMark(l: Local, net: Net, cr: Cr, now: nat)
    requires MarksOk(l) && MarkOk(cr) && !l.crPc.CrIdle?
    ensures MarksOk(CrWriteStep(l, net, cr, now))
  {}

  lemma ArWriteMark(l: Local, net: Net, now: nat)
    requires MarksOk(l) && Enabled(l, ArWriteCr(net))
    ensures MarksOk(ArWriteCrStep(l, net, now))
  {
    var p := l.arPc;
    StoreMark(l, WithOutcome(p.cr.obj, p.next.state, p.cert, p.ca), now);
  }

  /** Steps that store no CertificateRequest. */
  lemma QuietMark(c: bool, l: Local, now: nat, a: Action)
    requires Enabled(l, a)
    requires !a.ArWriteCr? && !a.CrPending? && !a.CrDeny? && !a.CreateCr? && !a.Decide? && !a.Touch?
    ensures StepLocal(c, l, now, a).hist.past == l.hist.past
  {
    if a.ArIssuer? || a.ArPolled? || a.ArChained? || a.ArLook? || a.ArCrash? { ArShape(c, l, now, a); }
  }

  lemma MarkStep(c: bool, l: Local, now: nat, a: Action)
    requires CrInv(c, l, now) && Enabled(l, a) && MarksOk(l)
    ensures MarksOk(StepLocal(c, l, now, a))
  {
    match a
    case ArWriteCr(net) => ArWriteMark(l, net, now);
    case CrPending(net) => CrWriteMark(l, net, SetCondition(l.crPc.cr.obj, ReadyCondition, PROCESSING), now);
    case CrDeny(net, time) => CrWriteMark(l, net, WithDenial(l.crPc.cr.obj, time), now);
    case CreateCr(request, ref) => StoreMark(l, Cr(now, request, ref, map[], [], [], None), now);
    case Decide(approve) =>
      var t := if approve then ApprovedCondition else DeniedCondition;
      StoreMark(l, SetCondition(l.cr.value.obj, t, Condition(CondTrue, OtherReason(""), OtherMessage(""))), now);
    case Touch => StoreMark(l, l.cr.value.obj, now);
    case _ => QuietMark(c, l, now, a);
  }

  lemma {:induction false} MarksFrom(c: bool, w: World, xs: seq<Label>, k: Key)
    requires Reachable(c, w) && Runs(c, w, xs) && MarksOk(At(w, k))
    ensures MarksOk(At(After(c, w, xs), k))
    decreases |xs|
  {
    if xs != [] {
      ReachableInv(c, w, k);
      if k == xs[0].key { MarkStep(c, At(w, k), w.clock, xs[0].action); }
      ReachableStep(c, w, xs[0]);
      MarksFrom(c, Step(c, w, xs[0]), xs[1..], k);
    }
  }

  /** A CertificateRequest marked as denied carries a denial of the approver and a failure time. */
  lemma MarkHasReason(c: bool, w: World, k: Key)
    requires Reachable(c, w) && At(w, k).cr.Some? && MarkedDenied(At(w, k).cr.value.obj)
    ensures IsDenied(At(w, k).cr.value.obj) && At(w, k).cr.value.obj.failureTime.Some?
  {
    var xs :| Runs(c, INIT, xs) && After(c, INIT, xs) == w;
    assert Runs(c, INIT, []) && After(c, INIT, []) == INIT;
    MarksFrom(c, INIT, xs, k);
    ReachableInv(c, w, k);
  }

  // ---------- the failure time is set once ----------

  /** A CertificateRequest that is gone does not come back, and a failure time it had is the one it has. */
  predicate KeepsTime(l: Local, l': Local, uid: nat) {
    StoredCr(l', uid) ==>
      && StoredCr(l, uid)
      && (l.cr.value.obj.failureTime.Some? ==> l'.cr.value.obj.failureTime == l.cr.value.obj.failureTime)
  }

  lemma ArKeepsTime(c: bool, l: Local, now: nat, a: Action, uid: nat)
    requires CrInv(c, l, now) && Enabled(l, a) && OfArController(a)
    ensures KeepsTime(l, StepLocal(c, l, now, a), uid)
  {
    if !a.ArWriteCr? { OnlyCommitsShowCr(c, l, now, a); }
  }

  lemma OthersKeepTime(c: bool, l: Local, now: nat, a: Action, uid: nat)
    requires CrInv(c, l, now) && Enabled(l, a) && !OfArController(a) && uid < now
    ensures KeepsTime(l, StepLocal(c, l, now, a), uid)
  {}

  lemma {:induction false} FailureTimeStays(c: bool, w: World, xs: seq<Label>, k: Key, uid: nat)
    requires Reachable(c, w) && Runs(c, w, xs) && uid < w.clock
    ensures KeepsTime(At(w, k), At(After(c, w, xs), k), uid)
    decreases |xs|
  {
    if xs != [] {
      ReachableInv(c, w, k);
      var a := xs[0].action;
      if k == xs[0].key {
        if OfArController(a) {
          ArKeepsTime(c, At(w, k), w.clock, a, uid);
        } else {
          OthersKeepTime(c, At(w, k), w.clock, a, uid);
        }
      }
      ReachableStep(c, w, xs[0]);
      FailureTimeStays(c, Step(c, w, xs[0]), xs[1..], k, uid);
    }
  }
}
