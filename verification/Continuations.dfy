/** What stays true of one AdcsRequest over every continuation of a run. */
module Continuations {
  import opened Base
  import opened Api
  import opened Protocol
  import opened Invariant
  import opened Safety

  predicate Stored(l: Local, uid: nat) { l.ar.Some? && l.ar.value.obj.uid == uid }

  predicate StoredCr(l: Local, uid: nat) { l.cr.Some? && l.cr.value.obj.uid == uid }

  lemma {:induction false} Continue(c: bool, w: World, xs: seq<Label>)
    requires Reachable(c, w) && Runs(c, w, xs)
    ensures Reachable(c, After(c, w, xs))
  {
    var ys :| Runs(c, INIT, ys) && After(c, INIT, ys) == w;
    RunsConcat(c, INIT, ys, xs);
  }

  lemma ReachableStep(c: bool, w: World, x: Label)
    requires Reachable(c, w) && CanStep(w, x)
    ensures Reachable(c, Step(c, w, x))
  {
    var xs := [x];
    assert xs[1..] == [];
    assert Runs(c, Step(c, w, x), []) && After(c, Step(c, w, x), []) == Step(c, w, x);
    assert Runs(c, w, xs) && After(c, w, xs) == Step(c, w, x);
    Continue(c, w, xs);
  }

  // ---------- attempts, counted along the run ----------

  /** The attempts on one AdcsRequest that ended during a run, by how they ended. */
  function Recount(c: bool, w: World, xs: seq<Label>, k: Key, uid: nat): Tally
    requires Runs(c, w, xs)
    decreases |xs|
  {
    if xs == [] then Tally(0, 0, 0, 0)
    else
      var ys := xs[..|xs| - 1];
      assert xs == ys + [xs[|xs| - 1]];
      RunsPrefix(c, w, ys, [xs[|xs| - 1]]);
      RunsConcat(c, w, ys, [xs[|xs| - 1]]);
      Counted(Recount(c, w, ys, k, uid), At(After(c, w, ys), k), At(After(c, w, xs), k), uid)
  }

  /** The tallies are these counts. */
  lemma {:induction false} TallyIsRecount(c: bool, xs: seq<Label>, k: Key, uid: nat)
    requires Runs(c, INIT, xs)
    ensures TallyOf(At(After(c, INIT, xs), k).hist, uid) == Recount(c, INIT, xs, k, uid)
    decreases |xs|
  {
    if xs != [] {
      var ys, x := xs[..|xs| - 1], xs[|xs| - 1];
      assert xs == ys + [x];
      RunsPrefix(c, INIT, ys, [x]);
      RunsConcat(c, INIT, ys, [x]);
      var w := After(c, INIT, ys);
      TallyIsRecount(c, ys, k, uid);
      assert [x][1..] == [];
      assert After(c, INIT, xs) == Step(c, w, x);
      if k == x.key { EndsAreCounted(c, w, x, uid); }
    }
  }

  /** In any run, one finished attempt more than may have failed or been told "pending" reaches a final state. */
  lemma TerminationInRuns(c: bool, xs: seq<Label>, k: Key, maxFailures: nat, maxPending: nat)
    requires Runs(c, INIT, xs) && At(After(c, INIT, xs), k).ar.Some?
    requires var t := Recount(c, INIT, xs, k, At(After(c, INIT, xs), k).ar.value.obj.uid);
             && t.failedUnknown + t.failedPending <= maxFailures && t.pendings <= maxPending
             && t.attempts >= maxFailures + maxPending + 1
    ensures At(After(c, INIT, xs), k).ar.value.obj.status.state.Terminal()
  {
    TallyIsRecount(c, xs, k, At(After(c, INIT, xs), k).ar.value.obj.uid);
    TerminationBound(c, After(c, INIT, xs), k, maxFailures, maxPending);
  }

  // ---------- an AdcsRequest that is gone does not come back ----------

  lemma ArStays(c: bool, l: Local, now: nat, a: Action, uid: nat)
    requires Enabled(l, a) && uid < now && ArInv(c, l, now)
    requires Stored(StepLocal(c, l, now, a), uid)
    ensures Stored(l, uid)
  {
    if !OfArController(a) {
      OthersFrame(c, l, now, a);
    } else if a.ArIssuer? || a.ArPolled? || a.ArChained? || a.ArLook? || a.ArCrash? {
      ArShape(c, l, now, a);
    } else {
      ArStaysStored(c, l, now, a, uid);
    }
  }

  lemma ArStaysStored(c: bool, l: Local, now: nat, a: Action, uid: nat)
    requires Enabled(l, a) && (a.ArStart? || a.ArPost? || a.ArWriteCr? || a.ArWriteAr?) && ArInv(c, l, now)
    requires Stored(StepLocal(c, l, now, a), uid)
    ensures Stored(l, uid)
  {}

  lemma {:induction false} StoredThroughout(c: bool, w: World, xs: seq<Label>, k: Key, uid: nat)
    requires Reachable(c, w) && Runs(c, w, xs) && uid < w.clock
    requires Stored(At(After(c, w, xs), k), uid)
    ensures Stored(At(w, k), uid)
    decreases |xs|
  {
    if xs != [] {
      ReachableStep(c, w, xs[0]);
      StoredThroughout(c, Step(c, w, xs[0]), xs[1..], k, uid);
      ReachableInv(c, w, k);
      if k == xs[0].key { ArStays(c, At(w, k), w.clock, xs[0].action, uid); }
    }
  }

  // ---------- the status only moves up ----------

  /** Up the order unknown, pending, final; an id once stored stays; a final status stays as it is. */
  predicate Succeeds(st: ArStatus, st': ArStatus) {
    && st.state.Rank() <= st'.state.Rank()
    && (st.id != "" ==> st'.id == st.id)
    && (st.state.Terminal() ==> st' == st)
  }

  lemma StatusStep(c: bool, k: Key, l: Local, now: nat, ca: Ca, a: Action)
    requires Core(c, k, l, now, ca) && Enabled(l, a)
    requires l.ar.Some? && Stored(StepLocal(c, l, now, a), l.ar.value.obj.uid)
    ensures Succeeds(l.ar.value.obj.status, StepLocal(c, l, now, a).ar.value.obj.status)
  {
    if !OfArController(a) {
      OthersFrame(c, l, now, a);
    } else if a.ArWriteAr? {
      WriteMovesUp(l, now, a.net);
    } else {
      OnlyCommitsShowAr(c, l, now, a);
    }
  }

  lemma WriteMovesUp(l: Local, now: nat, net: Net)
    requires l.arPc.ArPutAr? && l.ar.Some? && WellFormed(l.ar.value.obj.status)
    requires Follows(l.arPc.ar.obj.status, l.arPc.next)
    requires l.ar.value.version == l.arPc.ar.version ==> l.ar.value == l.arPc.ar
    ensures ArWriteArStep(l, net, now).ar.Some?
    ensures Succeeds(l.ar.value.obj.status, ArWriteArStep(l, net, now).ar.value.obj.status)
  {}

  lemma OnlyCommitsShowAr(c: bool, l: Local, now: nat, a: Action)
    requires Enabled(l, a) && OfArController(a) && !a.ArWriteAr?
    ensures StepLocal(c, l, now, a).ar == l.ar
  {}

  lemma {:induction false} StatusMovesUp(c: bool, w: World, xs: seq<Label>, k: Key)
    requires Reachable(c, w) && Runs(c, w, xs)
    requires At(w, k).ar.Some? && Stored(At(After(c, w, xs), k), At(w, k).ar.value.obj.uid)
    ensures Succeeds(At(w, k).ar.value.obj.status, At(After(c, w, xs), k).ar.value.obj.status)
    decreases |xs|
  {
    if xs != [] {
      var uid := At(w, k).ar.value.obj.uid;
      var w1 := Step(c, w, xs[0]);
      ReachableStep(c, w, xs[0]);
      ReachableInv(c, w, k);
      StoredThroughout(c, w1, xs[1..], k, uid);
      StatusMovesUp(c, w1, xs[1..], k);
      if k == xs[0].key { StatusStep(c, k, At(w, k), w.clock, w.ca, xs[0].action); }
    }
  }

  /** The promise made for the id field: immutable after it is set. */
  lemma IdIsImmutable(c: bool, w: World, xs: seq<Label>, k: Key)
    requires Reachable(c, w) && Runs(c, w, xs)
    requires At(w, k).ar.Some? && Stored(At(After(c, w, xs), k), At(w, k).ar.value.obj.uid)
    requires At(w, k).ar.value.obj.status.id != ""
    ensures At(After(c, w, xs), k).ar.value.obj.status.id == At(w, k).ar.value.obj.status.id
  {
    StatusMovesUp(c, w, xs, k);
  }

  // ---------- no submission after an answer is stored ----------

  /** No attempt, now or later, can submit for this AdcsRequest. */
  ghost predicate Sealed(l: Local, uid: nat) {
    && (Stored(l, uid) ==> !l.ar.value.obj.status.state.Unknown?)
    && (!l.arPc.ArIdle? && l.arPc.ar.obj.uid == uid ==> !l.arPc.ar.obj.status.state.Unknown?)
  }

  lemma SealedStep(c: bool, k: Key, l: Local, now: nat, ca: Ca, a: Action, uid: nat)
    requires Core(c, k, l, now, ca) && Enabled(l, a) && uid < now && Sealed(l, uid)
    ensures Sealed(StepLocal(c, l, now, a), uid)
  {
    if !OfArController(a) {
      OthersFrame(c, l, now, a);
    } else if a.ArIssuer? || a.ArPolled? || a.ArChained? || a.ArLook? || a.ArCrash? {
      ArShape(c, l, now, a);
    } else {
      SealedWrite(c, k, l, now, ca, a, uid);
    }
  }

  lemma SealedWrite(c: bool, k: Key, l: Local, now: nat, ca: Ca, a: Action, uid: nat)
    requires PcInv(k, l, ca) && Enabled(l, a) && (a.ArStart? || a.ArPost? || a.ArWriteCr? || a.ArWriteAr?)
    requires Sealed(l, uid)
    ensures Sealed(StepLocal(c, l, now, a), uid)
  {}

  lemma NotSubmitted(k: Key, l: Local, ca: Ca, at: Key, a: Action, k': Key, uid: nat)
    requires Enabled(l, a) && PcInv(at, l, ca) && (at == k' ==> Sealed(l, uid))
    ensures Submissions(CaAfter(at, l, ca, a).ledger, k', uid) == Submissions(ca.ledger, k', uid)
  {
    var ca' := CaAfter(at, l, ca, a);
    if ca'.ledger != ca.ledger {
      SubmissionsStep(ca.ledger, ca'.ledger[|ca.ledger|], k', uid);
    }
  }

  lemma {:induction false} SealedStays(c: bool, w: World, xs: seq<Label>, k: Key, uid: nat)
    requires Reachable(c, w) && Runs(c, w, xs) && uid < w.clock && Sealed(At(w, k), uid)
    ensures Submissions(After(c, w, xs).ca.ledger, k, uid) == Submissions(w.ca.ledger, k, uid)
    decreases |xs|
  {
    if xs != [] {
      var x := xs[0];
      ReachableStep(c, w, x);
      ReachableInv(c, w, k);
      ReachableInv(c, w, x.key);
      if k == x.key { SealedStep(c, k, At(w, k), w.clock, w.ca, x.action, uid); }
      NotSubmitted(k, At(w, x.key), w.ca, x.key, x.action, k, uid);
      SealedStays(c, Step(c, w, x), xs[1..], k, uid);
    }
  }

  /** Once any answer of the CA is stored, this AdcsRequest is never submitted again. */
  lemma NoSubmissionAfterAnswer(c: bool, w: World, xs: seq<Label>, k: Key)
    requires Reachable(c, w) && Runs(c, w, xs)
    requires At(w, k).ar.Some? && !At(w, k).ar.value.obj.status.state.Unknown?
    ensures var uid := At(w, k).ar.value.obj.uid;
            Submissions(After(c, w, xs).ca.ledger, k, uid) == Submissions(w.ca.ledger, k, uid)
  {
    ReachableInv(c, w, k);
    SealedStays(c, w, xs, k, At(w, k).ar.value.obj.uid);
  }

  // ---------- a final state is final ----------

  /** While a finished request is stored, its name causes no submission and gets no new AdcsRequest. */
  lemma FinalStep(c: bool, k: Key, l: Local, now: nat, ca: Ca, a: Action)
    requires Core(c, k, l, now, ca) && Enabled(l, a)
    requires l.ar.Some? && l.ar.value.obj.status.state.Terminal()
    ensures CaAfter(k, l, ca, a).ledger == ca.ledger
    ensures StepLocal(c, l, now, a).hist.births == l.hist.births
  {
    if !OfArController(a) { FinalCrStep(c, l, now, a); } else { FinalArStep(c, l, now, a); }
  }

  lemma FinalCrStep(c: bool, l: Local, now: nat, a: Action)
    requires Enabled(l, a) && !OfArController(a) && l.ar.Some?
    ensures StepLocal(c, l, now, a).hist.births == l.hist.births
  {}

  lemma FinalArStep(c: bool, l: Local, now: nat, a: Action)
    requires Enabled(l, a) && OfArController(a)
    ensures StepLocal(c, l, now, a).hist.births == l.hist.births
  {
    if a.ArIssuer? || a.ArPolled? || a.ArChained? || a.ArLook? || a.ArCrash? { ArShape(c, l, now, a); }
  }

  lemma ElsewhereSubmissions(other: Key, o: Local, ca: Ca, a: Action, k: Key, uid: nat)
    requires Enabled(o, a) && other != k
    ensures Submissions(CaAfter(other, o, ca, a).ledger, k, uid) == Submissions(ca.ledger, k, uid)
  {
    var ca' := CaAfter(other, o, ca, a);
    if ca'.ledger != ca.ledger { SubmissionsStep(ca.ledger, ca'.ledger[|ca.ledger|], k, uid); }
  }

  lemma {:induction false} FinalStays(c: bool, w: World, xs: seq<Label>, k: Key, uid: nat, any: nat)
    requires Reachable(c, w) && Runs(c, w, xs)
    requires Stored(At(w, k), uid) && At(w, k).ar.value.obj.status.state.Terminal()
    requires Stored(At(After(c, w, xs), k), uid)
    ensures Submissions(After(c, w, xs).ca.ledger, k, any) == Submissions(w.ca.ledger, k, any)
    ensures At(After(c, w, xs), k).hist.births == At(w, k).hist.births
    decreases |xs|
  {
    if xs != [] {
      var x := xs[0];
      var w1 := Step(c, w, x);
      ReachableStep(c, w, x);
      ReachableInv(c, w, k);
      StoredThroughout(c, w1, xs[1..], k, uid);
      StatusMovesUp(c, w, [x], k) by { assert [x][1..] == []; }
      assert After(c, w, [x]) == w1 by { assert [x][1..] == []; }
      if k == x.key {
        FinalStep(c, k, At(w, k), w.clock, w.ca, x.action);
      } else {
        ElsewhereSubmissions(x.key, At(w, x.key), w.ca, x.action, k, any);
      }
      FinalStays(c, w1, xs[1..], k, uid, any);
    }
  }

  /**
   A rejected request is not tried again: as long as it is stored, nothing is
   submitted for its name, no AdcsRequest is created for it, it stays rejected,
   and its CertificateRequest never turns Failed or Issued.
   */
  lemma RejectedMeansNoRetry(c: bool, w: World, xs: seq<Label>, k: Key, any: nat)
    requires Reachable(c, w) && Runs(c, w, xs)
    requires At(w, k).ar.Some? && At(w, k).ar.value.obj.status.state.Rejected?
    requires Stored(At(After(c, w, xs), k), At(w, k).ar.value.obj.uid)
    ensures var l' := At(After(c, w, xs), k);
            && l'.ar.value.obj.status == At(w, k).ar.value.obj.status
            && Submissions(After(c, w, xs).ca.ledger, k, any) == Submissions(w.ca.ledger, k, any)
            && l'.hist.births == At(w, k).hist.births
            && (l'.cr.Some? && l'.cr.value.obj.uid == l'.ar.value.obj.owner ==>
                !IsFailed(l'.cr.value.obj) && !IsReady(l'.cr.value.obj))
  {
    FinalStays(c, w, xs, k, At(w, k).ar.value.obj.uid, any);
    StatusMovesUp(c, w, xs, k);
    Continue(c, w, xs);
    ReachableInv(c, After(c, w, xs), k);
  }

  /** Issued is forever once the AdcsRequest is stored as ready. */
  lemma IssuedStays(c: bool, w: World, xs: seq<Label>, k: Key)
    requires Reachable(c, w) && Runs(c, w, xs)
    requires At(w, k).ar.Some? && At(w, k).ar.value.obj.status.state.Ready?
    requires Stored(At(After(c, w, xs), k), At(w, k).ar.value.obj.uid)
    ensures var l' := At(After(c, w, xs), k);
            l'.cr.Some? && l'.cr.value.obj.uid == l'.ar.value.obj.owner ==>
              ReadyCondition in l'.cr.value.obj.conditions && l'.cr.value.obj.conditions[ReadyCondition] == ISSUED
  {
    StatusMovesUp(c, w, xs, k);
    Continue(c, w, xs);
    ReachableInv(c, After(c, w, xs), k);
  }

  predicate ShowsIssued(cr: Option<Versioned<Cr>>) {
    && cr.Some? && ReadyCondition in cr.value.obj.conditions && cr.value.obj.conditions[ReadyCondition] == ISSUED
  }

  /** A committed write of an outcome other than "ready". */
  predicate OverwritesOutcome(l: Local, a: Action) {
    a.ArWriteCr? && l.arPc.ArPutCr? && Commits(a.net, l.cr, l.arPc.cr) && !l.arPc.next.state.Ready?
  }

  /**
   Before that, exactly one kind of step ends "Issued" short of deletion: the
   write of another outcome; and if that outcome is the stored AdcsRequest's
   own, the attempt had read it as unfinished.
   */
  lemma IssuedLeaves(c: bool, w: World, x: Label)
    requires Reachable(c, w) && CanStep(w, x) && ShowsIssued(At(w, x.key).cr) && !x.action.DeleteCr?
    ensures var l := At(w, x.key);
            && (ShowsIssued(At(Step(c, w, x), x.key).cr) <==> !OverwritesOutcome(l, x.action))
            && (OverwritesOutcome(l, x.action) && l.ar == Some(l.arPc.ar) &&
                l.ar.value.obj.owner == l.cr.value.obj.uid ==>
                !l.ar.value.obj.status.state.Terminal())
  {
    ReachableInv(c, w, x.key);
    IssuedLeavesHere(c, At(w, x.key), w.clock, x.action);
    if OverwritesOutcome(At(w, x.key), x.action) { OverwritesUnfinished(x.key, At(w, x.key), w.ca); }
  }

  lemma IssuedLeavesHere(c: bool, l: Local, now: nat, a: Action)
    requires CrInv(c, l, now) && Enabled(l, a) && !a.DeleteCr? && ShowsIssued(l.cr)
    ensures ShowsIssued(StepLocal(c, l, now, a).cr) <==> !OverwritesOutcome(l, a)
  {
    if a.ArWriteCr? {
      IssuedRewritten(l, now, a.net);
    } else if OfArController(a) {
      OnlyCommitsShowCr(c, l, now, a);
    } else {
      IssuedKept(c, l, now, a);
    }
  }

  lemma OverwritesUnfinished(k: Key, l: Local, ca: Ca)
    requires PcInv(k, l, ca) && AgreeInv(l) && ShowsIssued(l.cr) && l.arPc.ArPutCr? && !l.arPc.next.state.Ready?
    ensures l.ar == Some(l.arPc.ar) && l.ar.value.obj.owner == l.cr.value.obj.uid ==>
              !l.ar.value.obj.status.state.Terminal()
  {}

  lemma IssuedRewritten(l: Local, now: nat, net: Net)
    requires Enabled(l, ArWriteCr(net)) && ShowsIssued(l.cr)
    ensures ShowsIssued(ArWriteCrStep(l, net, now).cr) <==> !OverwritesOutcome(l, ArWriteCr(net))
  {}

  lemma OnlyCommitsShowCr(c: bool, l: Local, now: nat, a: Action)
    requires Enabled(l, a) && OfArController(a) && !a.ArWriteCr?
    ensures StepLocal(c, l, now, a).cr == l.cr
  {
    if a.ArIssuer? || a.ArPolled? || a.ArChained? || a.ArLook? || a.ArCrash? { ArShape(c, l, now, a); }
  }

  lemma IssuedKept(c: bool, l: Local, now: nat, a: Action)
    requires CrInv(c, l, now) && Enabled(l, a) && !OfArController(a) && !a.DeleteCr? && ShowsIssued(l.cr)
    ensures ShowsIssued(StepLocal(c, l, now, a).cr)
  {}

  // ---------- denied before anything started ----------

  /** The reconcile under way has passed the gates with its snapshot and may still create an AdcsRequest. */
  predicate Creating(pc: CrPc) { pc.CrGetAr? || pc.CrDeleteAr? || pc.CrCreateAr? }

  /** The attempt under way may still submit. */
  predicate Sending(pc: ArPc) { Early(pc) && pc.ar.obj.status.state.Unknown? }

  /** A denied CertificateRequest without an AdcsRequest. */
  predicate DeniedAlone(l: Local) { l.cr.Some? && IsDenied(l.cr.value.obj) && l.ar.None? }

  lemma DeniedStep(c: bool, l: Local, now: nat, a: Action)
    requires CrInv(c, l, now) && Enabled(l, a) && DeniedAlone(l) && !Creating(l.crPc) && !a.DeleteCr?
    ensures var l' := StepLocal(c, l, now, a); DeniedAlone(l') && !Creating(l'.crPc)
  {
    if OfArController(a) { DeniedArStep(c, l, now, a); }
  }

  lemma DeniedArStep(c: bool, l: Local, now: nat, a: Action)
    requires CrInv(c, l, now) && Enabled(l, a) && DeniedAlone(l) && OfArController(a)
    ensures var l' := StepLocal(c, l, now, a); DeniedAlone(l') && l'.crPc == l.crPc
  {
    if a.ArWriteCr? {
      DeniedOutcome(c, l, now, a.net);
    } else if a.ArIssuer? || a.ArPolled? || a.ArChained? || a.ArLook? || a.ArCrash? {
      ArShape(c, l, now, a);
    }
  }

  lemma DeniedOutcome(c: bool, l: Local, now: nat, net: Net)
    requires CrInv(c, l, now) && Enabled(l, ArWriteCr(net)) && DeniedAlone(l)
    ensures var l' := ArWriteCrStep(l, net, now); DeniedAlone(l') && l'.crPc == l.crPc
  {}

  /** Where there is no AdcsRequest, no attempt begins. */
  lemma SilentStep(c: bool, l: Local, now: nat, a: Action)
    requires Enabled(l, a) && l.ar.None? && !Sending(l.arPc)
    requires l.arPc.ArSubmit? ==> l.arPc.ar.obj.status.state.Unknown?
    ensures !a.ArPost? && !Sending(StepLocal(c, l, now, a).arPc)
  {
    if !OfArController(a) { OthersFrame(c, l, now, a); }
  }

  /** No DeleteCr of this name. */
  predicate Spares(xs: seq<Label>, k: Key) {
    forall i | 0 <= i < |xs| && xs[i].key == k :: !xs[i].action.DeleteCr?
  }

  /** Denied, and no reconcile past the gates: nothing will ever create an AdcsRequest. */
  lemma {:induction false} DeniedStaysOut(c: bool, w: World, xs: seq<Label>, k: Key)
    requires Reachable(c, w) && Runs(c, w, xs) && Spares(xs, k)
    requires DeniedAlone(At(w, k)) && !Creating(At(w, k).crPc)
    ensures var l := At(After(c, w, xs), k); DeniedAlone(l) && !Creating(l.crPc)
    decreases |xs|
  {
    if xs != [] {
      ReachableStep(c, w, xs[0]);
      ReachableInv(c, w, k);
      if k == xs[0].key { DeniedStep(c, At(w, k), w.clock, xs[0].action); }
      DeniedStaysOut(c, Step(c, w, xs[0]), xs[1..], k);
    }
  }

  /** If no attempt is about to submit either, nothing will ever be submitted. */
  lemma {:induction false} DeniedStaysSilent(c: bool, w: World, xs: seq<Label>, k: Key, any: nat)
    requires Reachable(c, w) && Runs(c, w, xs) && Spares(xs, k)
    requires DeniedAlone(At(w, k)) && !Creating(At(w, k).crPc) && !Sending(At(w, k).arPc)
    ensures Submissions(After(c, w, xs).ca.ledger, k, any) == Submissions(w.ca.ledger, k, any)
    decreases |xs|
  {
    if xs != [] {
      var x := xs[0];
      ReachableStep(c, w, x);
      ReachableInv(c, w, k);
      if k == x.key {
        DeniedStep(c, At(w, k), w.clock, x.action);
        SilentStep(c, At(w, k), w.clock, x.action);
      } else {
        ElsewhereSubmissions(x.key, At(w, x.key), w.ca, x.action, k, any);
      }
      DeniedStaysSilent(c, Step(c, w, x), xs[1..], k, any);
    }
  }
}
