/**
 What can still happen. Each property the code keeps only sometimes is given its
 exact condition on the world: where it holds, every continuation keeps it; where
 it does not, some continuation breaks it.
 */
module Possible {
  import opened Base
  import opened Api
  import opened Protocol
  import opened Invariant
  import opened Safety
  import opened Continuations
  import opened Solo
  import opened Incarnations
  import opened Denials
  import opened Provenance

  // ---------- making runs ----------

  function OneAt(w: World, k: Key): One { One(At(w, k), w.clock, w.ca) }

  predicate SparesActs(acts: seq<Action>) { forall a | a in acts :: !a.DeleteCr? }

  lemma {:induction false} LabelsAt(k: Key, acts: seq<Action>)
    ensures |Labels(k, acts)| == |acts| && forall i | 0 <= i < |acts| :: Labels(k, acts)[i] == Label(k, acts[i])
  {
    if acts != [] { LabelsAt(k, acts[1..]); }
  }

  lemma LabelsSpare(k: Key, acts: seq<Action>)
    requires SparesActs(acts)
    ensures Spares(Labels(k, acts), k)
  {
    LabelsAt(k, acts);
  }

  /** An attempt under way can be broken off, and the next one begins on what is stored. */
  lemma Begin(c: bool, k: Key, s: One) returns (acts: seq<Action>, t: One)
    requires s.l.ar.Some?
    ensures Leads(c, k, s, acts, t) && SparesActs(acts)
    ensures t.l.arPc == ArGetIssuer(s.l.ar.value)
    ensures t.l.cr == s.l.cr && t.l.ar == s.l.ar && t.l.crPc == s.l.crPc && t.ca == s.ca
  {
    var s1 := OneStep(c, k, s, Resync);
    var s2 := if s1.l.arPc.ArIdle? then s1 else OneStep(c, k, s1, ArCrash);
    t := OneStep(c, k, s2, ArStart(true));
    if s1.l.arPc.ArIdle? {
      acts := [Resync, ArStart(true)];
      Two(c, k, s, Resync, s1, ArStart(true), t);
    } else {
      Two(c, k, s, Resync, s1, ArCrash, s2);
      First(c, k, s2, ArStart(true), [], t);
      assert [ArStart(true)] == [ArStart(true)] + [];
      acts := [Resync, ArCrash] + [ArStart(true)];
      Chain(c, k, s, [Resync, ArCrash], s2, [ArStart(true)], t);
    }
  }

  /** A new request is submitted, and no answer arrives. */
  lemma Send(c: bool, k: Key, s: One) returns (acts: seq<Action>, t: One)
    requires Sending(s.l.arPc) && (s.l.arPc.ArSubmit? || s.l.arPc.ArGetIssuer?)
    ensures Leads(c, k, s, acts, t) && SparesActs(acts)
    ensures exists e: Submission :: e.key == k && e.uid == s.l.arPc.ar.obj.uid && t.ca.ledger == s.ca.ledger + [e]
  {
    var s1 := if s.l.arPc.ArSubmit? then s else OneStep(c, k, s, ArIssuer(Some("")));
    var post := ArPost(Nothing, Lost);
    t := OneStep(c, k, s1, post);
    assert t.ca.ledger == s.ca.ledger + [Entry(k, s1.l.arPc, Nothing, Lost)];
    if s.l.arPc.ArSubmit? {
      acts := [post];
      First(c, k, s, post, [], t);
      assert [post] == [post] + [];
    } else {
      acts := [ArIssuer(Some("")), post];
      Two(c, k, s, ArIssuer(Some("")), s1, post, t);
    }
  }

  // ---------- submitted again? ----------

  /** Another submission for a stored AdcsRequest is possible if and only if it is stored as unknown. */
  lemma SubmittedAgain(c: bool, w: World, k: Key)
    requires Reachable(c, w) && At(w, k).ar.Some?
    ensures var ar := At(w, k).ar.value.obj;
            (exists xs :: Runs(c, w, xs) &&
               Submissions(After(c, w, xs).ca.ledger, k, ar.uid) > Submissions(w.ca.ledger, k, ar.uid))
            <==> ar.status.state.Unknown?
  {
    var ar := At(w, k).ar.value.obj;
    if ar.status.state.Unknown? {
      var acts, s := Begin(c, k, OneAt(w, k));
      var acts', t := Send(c, k, s);
      var e: Submission :| e.key == k && e.uid == ar.uid && t.ca.ledger == w.ca.ledger + [e];
      SubmissionsStep(w.ca.ledger, e, k, ar.uid);
      Chain(c, k, OneAt(w, k), acts, s, acts', t);
      LeadsIsRun(c, w, k, acts + acts', t);
    } else {
      forall xs | Runs(c, w, xs)
        ensures Submissions(After(c, w, xs).ca.ledger, k, ar.uid) == Submissions(w.ca.ledger, k, ar.uid)
      {
        NoSubmissionAfterAnswer(c, w, xs, k);
      }
    }
  }

  // ---------- issued for ever? ----------

  /** Both objects are still the ones they were. */
  predicate KeepsBoth(l: Local, l': Local) {
    && l.cr.Some? && l'.cr.Some? && l'.cr.value.obj.uid == l.cr.value.obj.uid
    && l.ar.Some? && l'.ar.Some? && l'.ar.value.obj.uid == l.ar.value.obj.uid
  }

  const ERROR := ArPolled(PollErrored(""))

  /** An attempt on an unfinished request may learn that the CA failed. */
  lemma Ask(c: bool, k: Key, s: One) returns (acts: seq<Action>, t: One)
    requires s.l.arPc.ArGetIssuer? && !s.l.arPc.ar.obj.status.state.Terminal()
    requires s.l.arPc.ar.obj.status.state.Pending? ==> s.l.arPc.ar.obj.status.id != ""
    ensures Leads(c, k, s, acts, t)
    ensures t.l.arPc.ArPoll? && t.l == s.l.(arPc := t.l.arPc) && t.l.arPc.ar == s.l.arPc.ar
  {
    var s1 := OneStep(c, k, s, ArIssuer(Some("")));
    if s.l.arPc.ar.obj.status.state.Unknown? {
      var post := ArPost(Number("1"), Whole);
      t := OneStep(c, k, s1, post);
      acts := [ArIssuer(Some("")), post];
      Two(c, k, s, ArIssuer(Some("")), s1, post, t);
    } else {
      t := s1;
      acts := [ArIssuer(Some(""))];
      First(c, k, s, ArIssuer(Some("")), [], t);
      assert acts == [ArIssuer(Some(""))] + [];
    }
  }

  function Errors(pc: ArPc): ArStatus
    requires pc.ArPoll?
  {
    ArStatus(Errored, pc.id, "")
  }

  lemma Learn(c: bool, k: Key, s: One) returns (t: One)
    requires s.l.arPc.ArPoll?
    ensures Leads(c, k, s, [ERROR, ArChained(Some("ca"))], t)
    ensures t == One(s.l.(arPc := ArGetCr(s.l.arPc.ar, Errors(s.l.arPc), [], "ca")), s.now + 2, s.ca)
  {
    var s1 := OneStep(c, k, s, ERROR);
    assert s1.l == s.l.(arPc := ArChain(s.l.arPc.ar, Errors(s.l.arPc), []));
    t := OneStep(c, k, s1, ArChained(Some("ca")));
    Two(c, k, s, ERROR, s1, ArChained(Some("ca")), t);
  }

  /** An outcome in hand goes into the CertificateRequest. */
  lemma Publish(c: bool, k: Key, s: One) returns (t: One)
    requires s.l.arPc.ArGetCr? && s.l.arPc.next.state.Terminal() && s.l.cr.Some?
    ensures Leads(c, k, s, [ArLook(true), ArWriteCr(Delivered)], t)
    ensures t.l.ar == s.l.ar && t.ca == s.ca && t.l.arPc == ArPutAr(s.l.arPc.ar, s.l.arPc.next)
    ensures var p := s.l.arPc;
            t.l.cr == Some(Versioned(WithOutcome(s.l.cr.value.obj, p.next.state, p.cert, p.ca), s.now + 1))
  {
    var p := s.l.arPc;
    var s1 := OneStep(c, k, s, ArLook(true));
    assert s1.l == s.l.(arPc := ArPutCr(p.ar, p.next, p.cert, p.ca, s.l.cr.value));
    t := OneStep(c, k, s1, ArWriteCr(Delivered));
    Two(c, k, s, ArLook(true), s1, ArWriteCr(Delivered), t);
  }

  /** One more attempt, and the CertificateRequest is failed. */
  lemma Fail(c: bool, k: Key, s: One) returns (acts: seq<Action>, t: One)
    requires s.l.ar.Some? && s.l.cr.Some? && !s.l.ar.value.obj.status.state.Terminal()
    requires s.l.ar.value.obj.status.state.Pending? ==> s.l.ar.value.obj.status.id != ""
    ensures Leads(c, k, s, acts, t)
    ensures t.l.ar == s.l.ar && t.l.cr.Some? && t.l.cr.value.obj == WithOutcome(s.l.cr.value.obj, Errored, [], "ca")
  {
    var begin, s1 := Begin(c, k, s);
    var ask, s2 := Ask(c, k, s1);
    var s3 := Learn(c, k, s2);
    t := Publish(c, k, s3);
    var learn, publish := [ERROR, ArChained(Some("ca"))], [ArLook(true), ArWriteCr(Delivered)];
    Chain(c, k, s, begin, s1, ask, s2);
    Chain(c, k, s, begin + ask, s2, learn, s3);
    Chain(c, k, s, begin + ask + learn, s3, publish, t);
    acts := begin + ask + learn + publish;
  }

  /** While the AdcsRequest is unfinished, some run ends with the CertificateRequest failed. */
  lemma CanFail(c: bool, w: World, k: Key) returns (xs: seq<Label>)
    requires Reachable(c, w) && At(w, k).cr.Some? && At(w, k).ar.Some?
    requires !At(w, k).ar.value.obj.status.state.Terminal()
    ensures Runs(c, w, xs) && KeepsBoth(At(w, k), At(After(c, w, xs), k))
    ensures At(After(c, w, xs), k).ar == At(w, k).ar && IsFailed(At(After(c, w, xs), k).cr.value.obj)
  {
    RequestIds(c, w, k);
    var acts, t := Fail(c, k, OneAt(w, k));
    LeadsIsRun(c, w, k, acts, t);
    xs := Labels(k, acts);
  }

  /**
   An Issued CertificateRequest stays Issued, whatever happens short of the loss
   of either object, if and only if its AdcsRequest is stored as ready.
   */
  lemma IssuedForever(c: bool, w: World, k: Key)
    requires Reachable(c, w) && ShowsIssued(At(w, k).cr) && At(w, k).ar.Some?
    requires At(w, k).ar.value.obj.owner == At(w, k).cr.value.obj.uid
    ensures (forall xs | Runs(c, w, xs) && KeepsBoth(At(w, k), At(After(c, w, xs), k)) ::
               ShowsIssued(At(After(c, w, xs), k).cr))
            <==> At(w, k).ar.value.obj.status.state.Ready?
  {
    var state := At(w, k).ar.value.obj.status.state;
    if state.Ready? {
      forall xs | Runs(c, w, xs) && KeepsBoth(At(w, k), At(After(c, w, xs), k))
        ensures ShowsIssued(At(After(c, w, xs), k).cr)
      {
        IssuedStays(c, w, xs, k);
        OwnerStays(c, w, xs, k);
      }
    } else {
      if state.Terminal() { OutcomeAgreement(c, w, k); }
      var xs := CanFail(c, w, k);
      assert !ShowsIssued(At(After(c, w, xs), k).cr);
    }
  }

  /** The owner of an AdcsRequest is fixed when it is made. */
  lemma OwnerStays(c: bool, w: World, xs: seq<Label>, k: Key)
    requires Reachable(c, w) && Runs(c, w, xs)
    requires At(w, k).ar.Some? && Stored(At(After(c, w, xs), k), At(w, k).ar.value.obj.uid)
    ensures At(After(c, w, xs), k).ar.value.obj.owner == At(w, k).ar.value.obj.owner
  {
    BirthsStay(c, w, xs, k);
    Continue(c, w, xs);
    ReachableInv(c, w, k);
    ReachableInv(c, After(c, w, xs), k);
  }

  lemma {:induction false} BirthsStay(c: bool, w: World, xs: seq<Label>, k: Key)
    requires Runs(c, w, xs)
    ensures forall u | u in At(w, k).hist.births && u < w.clock ::
              var h := At(After(c, w, xs), k).hist; u in h.births && h.births[u] == At(w, k).hist.births[u]
    decreases |xs|
  {
    if xs != [] {
      if k == xs[0].key { HistoryGrows(c, At(w, k), w.clock, xs[0].action); }
      BirthsStay(c, Step(c, w, xs[0]), xs[1..], k);
    }
  }

  // ---------- denied in time? ----------

  /** A denied request that carries no final mark yet is marked by the next reconcile, with a failure time. */
  lemma DenialIsMarked(c: bool, w: World, k: Key, time: nat)
    requires At(w, k).crPc.CrIdle? && At(w, k).cr.Some?
    requires ToBeMarked(At(w, k).cr.value.obj)
    ensures var xs := Labels(k, [CrStart(true), CrDeny(Delivered, time)]);
            && Runs(c, w, xs)
            && var (cr, stored) := (At(w, k).cr.value.obj, At(After(c, w, xs), k).cr);
               && stored.Some? && ReadySays(stored.value.obj, CondFalse, {DeniedReason})
               && stored.value.obj.failureTime == if cr.failureTime.Some? then cr.failureTime else Some(time)
  {
    var s := OneAt(w, k);
    var s1 := OneStep(c, k, s, CrStart(true));
    assert s1.l == s.l.(crPc := CrSetDenied(s.l.cr.value));
    var t := OneStep(c, k, s1, CrDeny(Delivered, time));
    Two(c, k, s, CrStart(true), s1, CrDeny(Delivered, time), t);
    LeadsIsRun(c, w, k, [CrStart(true), CrDeny(Delivered, time)], t);
  }

  /** A denied CertificateRequest gets an AdcsRequest if and only if a reconcile had passed the gates before. */
  lemma DeniedGetsAr(c: bool, w: World, k: Key)
    requires Reachable(c, w) && DeniedAlone(At(w, k))
    ensures (exists xs :: Runs(c, w, xs) && Spares(xs, k) && At(After(c, w, xs), k).ar.Some?)
            <==> Creating(At(w, k).crPc)
  {
    if Creating(At(w, k).crPc) {
      var acts, t := Create(c, k, OneAt(w, k));
      LeadsIsRun(c, w, k, acts, t);
      LabelsSpare(k, acts);
    } else {
      forall xs | Runs(c, w, xs) && Spares(xs, k) ensures At(After(c, w, xs), k).ar.None? {
        DeniedStaysOut(c, w, xs, k);
      }
    }
  }

  /** The reconcile goes on undisturbed. */
  lemma Create(c: bool, k: Key, s: One) returns (acts: seq<Action>, t: One)
    requires Creating(s.l.crPc) && s.l.ar.None?
    ensures Leads(c, k, s, acts, t) && SparesActs(acts)
    ensures t.l.ar.Some? && t.l.ar.value.obj.status.state.Unknown? && t.ca == s.ca
    ensures t.l.ar.value.obj.uid == t.now - 1 >= s.now
    ensures t.l.hist.births == s.l.hist.births[t.l.ar.value.obj.uid := s.l.crPc.cr]
  {
    var create := CrCreate(Delivered);
    if s.l.crPc.CrCreateAr? {
      t := OneStep(c, k, s, create);
      acts := [create];
      First(c, k, s, create, [], t);
      assert [create] == [create] + [];
    } else {
      var a := if s.l.crPc.CrGetAr? then CrLook(true) else CrDelete(Delivered);
      var s1 := OneStep(c, k, s, a);
      t := OneStep(c, k, s1, create);
      acts := [a, create];
      Two(c, k, s, a, s1, create, t);
    }
  }

  /**
   Something is still submitted for its name if and only if such a reconcile can
   make an AdcsRequest, or an attempt is about to submit one that is gone.
   */
  lemma DeniedIsSent(c: bool, w: World, k: Key)
    requires Reachable(c, w) && DeniedAlone(At(w, k))
    ensures (exists xs, uid: nat :: Runs(c, w, xs) && Spares(xs, k) && MoreSent(w, After(c, w, xs), k, uid))
            <==> Creating(At(w, k).crPc) || Sending(At(w, k).arPc)
  {
    if Sending(At(w, k).arPc) {
      var acts, t := Send(c, k, OneAt(w, k));
      SentMore(c, w, k, acts, t);
    } else if Creating(At(w, k).crPc) {
      var acts, s := Create(c, k, OneAt(w, k));
      var acts', s' := Begin(c, k, s);
      var acts'', t := Send(c, k, s');
      Chain(c, k, OneAt(w, k), acts, s, acts', s');
      Chain(c, k, OneAt(w, k), acts + acts', s', acts'', t);
      SentMore(c, w, k, acts + acts' + acts'', t);
    } else {
      forall xs, uid: nat | Runs(c, w, xs) && Spares(xs, k) ensures !MoreSent(w, After(c, w, xs), k, uid) {
        DeniedStaysSilent(c, w, xs, k, uid);
      }
    }
  }

  predicate MoreSent(w: World, w': World, k: Key, uid: nat) {
    Submissions(w'.ca.ledger, k, uid) > Submissions(w.ca.ledger, k, uid)
  }

  lemma SentMore(c: bool, w: World, k: Key, acts: seq<Action>, t: One)
    requires Leads(c, k, OneAt(w, k), acts, t) && SparesActs(acts)
    requires exists e: Submission :: e.key == k && t.ca.ledger == w.ca.ledger + [e]
    ensures exists xs, uid: nat :: Runs(c, w, xs) && Spares(xs, k) && MoreSent(w, After(c, w, xs), k, uid)
  {
    var e: Submission :| e.key == k && t.ca.ledger == w.ca.ledger + [e];
    SubmissionsStep(w.ca.ledger, e, k, e.uid);
    LeadsIsRun(c, w, k, acts, t);
    LabelsSpare(k, acts);
    assert MoreSent(w, After(c, w, Labels(k, acts)), k, e.uid);
  }

  // ---------- another AdcsRequest? ----------

  lemma NothingMade(c: bool, l: Local, now: nat, a: Action, uid: nat)
    requires CrInv(c, l, now) && NameInv(l, now) && Enabled(l, a)
    requires uid < now && !StoredCr(l, uid) && !MayMake(l.crPc, uid)
    ensures var l' := StepLocal(c, l, now, a);
            MadeFor(l'.hist, uid) == MadeFor(l.hist, uid) && !StoredCr(l', uid) && !MayMake(l'.crPc, uid)
  {
    PcStep(c, l, now, a, uid);
    if StoredCr(StepLocal(c, l, now, a), uid) { CrUidStep(c, l, now, a, uid); }
    if ChangeOf(l, a) == Some(ArCreated) {
      MadeOnCreate(l.hist, now, l.crPc.cr, uid);
    } else {
      BirthsStep(c, l, now, a);
    }
  }

  lemma {:induction false} NothingMadeFrom(c: bool, w: World, xs: seq<Label>, k: Key, uid: nat)
    requires Reachable(c, w) && Runs(c, w, xs)
    requires uid < w.clock && !StoredCr(At(w, k), uid) && !MayMake(At(w, k).crPc, uid)
    ensures MadeFor(At(After(c, w, xs), k).hist, uid) == MadeFor(At(w, k).hist, uid)
    decreases |xs|
  {
    if xs != [] {
      ReachableInv(c, w, k);
      ReachableName(c, w, k);
      if k == xs[0].key { NothingMade(c, At(w, k), w.clock, xs[0].action, uid); }
      ReachableStep(c, w, xs[0]);
      NothingMadeFrom(c, Step(c, w, xs[0]), xs[1..], k, uid);
    }
  }

  /** Whatever holds the name can be removed. */
  lemma Clean(c: bool, k: Key, s: One) returns (acts: seq<Action>, t: One)
    ensures Leads(c, k, s, acts, t)
    ensures t.l.ar.None? && t.l.crPc == s.l.crPc && t.l.hist.births == s.l.hist.births && t.now >= s.now
  {
    acts, t := [], s;
    if t.l.cr.Some? {
      var u := Next(c, k, s, acts, t, DeleteCr);
      acts, t := acts + [DeleteCr], u;
    }
    if t.l.ar.Some? {
      var u := Next(c, k, s, acts, t, CollectOrphan);
      acts, t := acts + [CollectOrphan], u;
    }
  }

  /**
   For a CertificateRequest that is gone an AdcsRequest can still be made if and
   only if a reconcile that has passed the gates with it is under way.
   */
  lemma AnotherMade(c: bool, w: World, k: Key, uid: nat)
    requires Reachable(c, w) && uid < w.clock && !StoredCr(At(w, k), uid)
    ensures (exists xs :: Runs(c, w, xs) && MadeFor(At(After(c, w, xs), k).hist, uid) != MadeFor(At(w, k).hist, uid))
            <==> MayMake(At(w, k).crPc, uid)
  {
    if MayMake(At(w, k).crPc, uid) {
      ReachableName(c, w, k);
      var acts, s := Clean(c, k, OneAt(w, k));
      var acts', t := Create(c, k, s);
      Chain(c, k, OneAt(w, k), acts, s, acts', t);
      LeadsIsRun(c, w, k, acts + acts', t);
      assert t.l.ar.value.obj.uid in MadeFor(t.l.hist, uid);
    } else {
      forall xs | Runs(c, w, xs) ensures MadeFor(At(After(c, w, xs), k).hist, uid) == MadeFor(At(w, k).hist, uid) {
        NothingMadeFrom(c, w, xs, k, uid);
      }
    }
  }

  // ---------- the CA's own answer? ----------

  /** A certificate the CA has never sent. */
  lemma Unheard(ca: Ca) returns (cert: Bytes)
    ensures forall e | e in ca.ledger :: e.sent != Certificate(cert)
    ensures forall d | d in ca.certified :: d.cert != cert
  {
    var n := LedgerBound(ca.ledger);
    var m := CertifiedBound(ca.certified);
    cert := seq(n + m, _ => 'x');
    assert |cert| == n + m;
  }

  lemma {:induction false} LedgerBound(ledger: seq<Submission>) returns (n: nat)
    ensures forall e | e in ledger && e.sent.Certificate? :: |e.sent.cert| < n
  {
    n := 1;
    if ledger != [] {
      var m := LedgerBound(ledger[1..]);
      var sent := ledger[0].sent;
      n := m + if sent.Certificate? then |sent.cert| + 1 else 0;
      assert forall e | e in ledger :: e == ledger[0] || e in ledger[1..];
    }
  }

  lemma {:induction false} CertifiedBound(ds: set<Certified>) returns (n: nat)
    ensures forall d | d in ds :: |d.cert| < n
  {
    n := 1;
    if ds != {} {
      var d :| d in ds;
      var m := CertifiedBound(ds - {d});
      n := m + |d.cert| + 1;
    }
  }

  /** The CertificateRequest is issued with this certificate, under its own request. */
  predicate IssuedWith(w: World, w': World, k: Key, cert: Bytes) {
    && At(w, k).cr.Some? && ShowsIssued(At(w', k).cr)
    && var cr := At(w', k).cr.value.obj;
       && cr.uid == At(w, k).cr.value.obj.uid && cr.request == At(w, k).cr.value.obj.request
       && cr.certificate == cert + cr.ca
  }

  const DELIVER := [ArLook(true), ArWriteCr(Delivered)]

  /** The server that is asked returns `cert`, and it goes into the CertificateRequest. */
  function Returns(cert: Bytes): seq<Action> { [ArPolled(PollReady(cert)), ArChained(Some("ca"))] + DELIVER }

  /** The CA answers a submission with `cert` at once, and it goes into the CertificateRequest. */
  function Sends(cert: Bytes): seq<Action> { [ArPost(Certificate(cert), Whole), ArChained(Some("ca"))] + DELIVER }

  lemma Returned(c: bool, k: Key, s: One, cert: Bytes) returns (t: One)
    requires s.l.arPc.ArPoll? && s.l.cr.Some?
    ensures Leads(c, k, s, Returns(cert), t)
    ensures t.l.cr.Some? && t.l.cr.value.obj == WithOutcome(s.l.cr.value.obj, Ready, cert, "ca")
    ensures var p := s.l.arPc;
            t.ca == s.ca.(certified := s.ca.certified + {Certified(k, p.ar.obj.uid, p.server, p.id, cert)})
    ensures t.l.ar == s.l.ar && t.l.arPc == ArPutAr(s.l.arPc.ar, ArStatus(Ready, s.l.arPc.id, OBTAINED))
  {
    var next := ArStatus(Ready, s.l.arPc.id, OBTAINED);
    var s1 := OneStep(c, k, s, ArPolled(PollReady(cert)));
    assert s1.l == s.l.(arPc := ArChain(s.l.arPc.ar, next, cert));
    var s2 := OneStep(c, k, s1, ArChained(Some("ca")));
    assert s2.l == s.l.(arPc := ArGetCr(s.l.arPc.ar, next, cert, "ca"));
    Two(c, k, s, ArPolled(PollReady(cert)), s1, ArChained(Some("ca")), s2);
    t := Publish(c, k, s2);
    Chain(c, k, s, [ArPolled(PollReady(cert)), ArChained(Some("ca"))], s2, DELIVER, t);
  }

  lemma SentAtOnce(c: bool, k: Key, s: One, cert: Bytes) returns (t: One)
    requires s.l.arPc.ArSubmit? && s.l.cr.Some?
    ensures Leads(c, k, s, Sends(cert), t)
    ensures t.l.cr.Some? && t.l.cr.value.obj == WithOutcome(s.l.cr.value.obj, Ready, cert, "ca")
    ensures t.ca == s.ca.(ledger := s.ca.ledger + [Entry(k, s.l.arPc, Certificate(cert), Whole)])
  {
    var post, next := ArPost(Certificate(cert), Whole), ArStatus(Ready, "none", OBTAINED);
    var s1 := OneStep(c, k, s, post);
    assert s1.l == s.l.(arPc := ArChain(s.l.arPc.ar, next, cert));
    var s2 := OneStep(c, k, s1, ArChained(Some("ca")));
    assert s2.l == s.l.(arPc := ArGetCr(s.l.arPc.ar, next, cert, "ca"));
    Two(c, k, s, post, s1, ArChained(Some("ca")), s2);
    t := Publish(c, k, s2);
    Chain(c, k, s, [post, ArChained(Some("ca"))], s2, DELIVER, t);
  }

  /** The number that is asked about is one that the server asked has given to this CSR, for this AdcsRequest. */
  ghost predicate AsksRightly(ca: Ca, k: Key, request: Bytes, pc: ArPc)
    requires pc.ArPoll?
  {
    exists e :: IsFor(ca, k, request, e) && GivenNumber(e, pc)
  }

  predicate GivenNumber(e: Submission, pc: ArPc)
    requires pc.ArPoll?
  {
    e.uid == pc.ar.obj.uid && e.server == pc.server && e.sent == Number(pc.id)
  }

  lemma ReturnedIsRight(ca: Ca, ca': Ca, k: Key, request: Bytes, pc: ArPc, cert: Bytes)
    requires pc.ArPoll? && AsksRightly(ca, k, request, pc)
    requires ca' == ca.(certified := ca.certified + {Certified(k, pc.ar.obj.uid, pc.server, pc.id, cert)})
    ensures CertifiedFor(ca', k, request, cert)
  {
    var e :| IsFor(ca, k, request, e) && GivenNumber(e, pc);
    assert IsFor(ca', k, request, e) && SentFor(ca', e, cert);
  }

  lemma ReturnedIsWrong(ca: Ca, ca': Ca, k: Key, request: Bytes, pc: ArPc, cert: Bytes)
    requires pc.ArPoll? && !AsksRightly(ca, k, request, pc)
    requires ca' == ca.(certified := ca.certified + {Certified(k, pc.ar.obj.uid, pc.server, pc.id, cert)})
    requires forall e | e in ca.ledger :: e.sent != Certificate(cert)
    requires forall d | d in ca.certified :: d.cert != cert
    ensures !CertifiedFor(ca', k, request, cert)
  {
    forall e | IsFor(ca', k, request, e) ensures !SentFor(ca', e, cert) {
      assert IsFor(ca, k, request, e) && !GivenNumber(e, pc);
    }
  }

  /**
   Whatever the server that is asked returns is what the CA sent for the
   CertificateRequest's own CSR, if and only if that server has given the number
   that is asked about to this CSR.
   */
  lemma RightlyPolled(c: bool, w: World, k: Key)
    requires At(w, k).arPc.ArPoll? && At(w, k).cr.Some?
    ensures forall cert :: Runs(c, w, Labels(k, Returns(cert)))
                           && IssuedWith(w, After(c, w, Labels(k, Returns(cert))), k, cert)
    ensures var request := At(w, k).cr.value.obj.request;
            (forall cert | Runs(c, w, Labels(k, Returns(cert))) ::
               CertifiedFor(After(c, w, Labels(k, Returns(cert))).ca, k, request, cert))
            <==> AsksRightly(w.ca, k, request, At(w, k).arPc)
  {
    var request, pc := At(w, k).cr.value.obj.request, At(w, k).arPc;
    forall cert
      ensures Runs(c, w, Labels(k, Returns(cert)))
      ensures var w' := After(c, w, Labels(k, Returns(cert)));
              && IssuedWith(w, w', k, cert)
              && w'.ca == w.ca.(certified := w.ca.certified + {Certified(k, pc.ar.obj.uid, pc.server, pc.id, cert)})
              && (AsksRightly(w.ca, k, request, pc) ==> CertifiedFor(w'.ca, k, request, cert))
    {
      var t := Returned(c, k, OneAt(w, k), cert);
      LeadsIsRun(c, w, k, Returns(cert), t);
      if AsksRightly(w.ca, k, request, pc) { ReturnedIsRight(w.ca, t.ca, k, request, pc, cert); }
    }
    if !AsksRightly(w.ca, k, request, pc) {
      var cert := Unheard(w.ca);
      ReturnedIsWrong(w.ca, After(c, w, Labels(k, Returns(cert))).ca, k, request, pc, cert);
    }
  }

  lemma SentIsRight(ca: Ca, ca': Ca, k: Key, request: Bytes, e: Submission, cert: Bytes)
    requires ca' == ca.(ledger := ca.ledger + [e]) && e.key == k && e.sent == Certificate(cert)
    requires forall e | e in ca.ledger :: e.sent != Certificate(cert)
    requires forall d | d in ca.certified :: d.cert != cert
    ensures CertifiedFor(ca', k, request, cert) <==> e.csr == request
  {
    assert ca'.ledger[|ca.ledger|] == e;
    if e.csr == request { assert IsFor(ca', k, request, e) && SentFor(ca', e, cert); }
  }

  /**
   Whatever the CA sends at once, whole, is what it sent for the
   CertificateRequest's own CSR, if and only if that is the one submitted.
   */
  lemma RightlySubmitted(c: bool, w: World, k: Key)
    requires At(w, k).arPc.ArSubmit? && At(w, k).cr.Some?
    ensures forall cert :: Runs(c, w, Labels(k, Sends(cert)))
                           && IssuedWith(w, After(c, w, Labels(k, Sends(cert))), k, cert)
    ensures var cr := At(w, k).cr.value.obj;
            (forall cert | Runs(c, w, Labels(k, Sends(cert))) ::
               CertifiedFor(After(c, w, Labels(k, Sends(cert))).ca, k, cr.request, cert))
            <==> !RequestDiffers(At(w, k).arPc.ar.obj, cr)
  {
    var cr, pc := At(w, k).cr.value.obj, At(w, k).arPc;
    forall cert
      ensures Runs(c, w, Labels(k, Sends(cert)))
      ensures var w' := After(c, w, Labels(k, Sends(cert)));
              && IssuedWith(w, w', k, cert)
              && w'.ca == w.ca.(ledger := w.ca.ledger + [Entry(k, pc, Certificate(cert), Whole)])
              && (!RequestDiffers(pc.ar.obj, cr) ==> CertifiedFor(w'.ca, k, cr.request, cert))
    {
      var t := SentAtOnce(c, k, OneAt(w, k), cert);
      LeadsIsRun(c, w, k, Sends(cert), t);
      var e := Entry(k, pc, Certificate(cert), Whole);
      assert t.ca.ledger[|w.ca.ledger|] == e;
      if !RequestDiffers(pc.ar.obj, cr) { assert IsFor(t.ca, k, cr.request, e) && SentFor(t.ca, e, cert); }
    }
    if RequestDiffers(pc.ar.obj, cr) {
      var cert := Unheard(w.ca);
      var ca' := After(c, w, Labels(k, Sends(cert))).ca;
      SentIsRight(w.ca, ca', k, cr.request, Entry(k, pc, Certificate(cert), Whole), cert);
    }
  }

  // ---------- a certificate for ever? ----------

  /** Reconciling a request that is stored as ready erases the certificate. */
  lemma ReadyAgain(c: bool, k: Key, s: One) returns (acts: seq<Action>, t: One)
    requires s.l.cr.Some? && s.l.ar.Some? && s.l.ar.value.obj.status.state.Ready?
    ensures Leads(c, k, s, acts, t) && t.l.ar == s.l.ar
    ensures t.l.cr.Some? && t.l.cr.value.obj == WithOutcome(s.l.cr.value.obj, Ready, [], [])
  {
    var begin, s1 := Begin(c, k, s);
    var s2 := Next(c, k, s, begin, s1, ArIssuer(Some("")));
    var a := s.l.ar.value;
    assert s2.l == s1.l.(arPc := ArGetCr(a, a.obj.status, [], []));
    t := Publish(c, k, s2);
    Chain(c, k, s, begin + [ArIssuer(Some(""))], s2, DELIVER, t);
    acts := begin + [ArIssuer(Some(""))] + DELIVER;
  }

  /**
   Reconciling an AdcsRequest that is stored as ready, on a restart say, leaves
   its CertificateRequest issued but takes the certificate and the CA away.
   */
  lemma ReadyAgainErases(c: bool, w: World, k: Key)
    requires At(w, k).cr.Some? && At(w, k).ar.Some? && At(w, k).ar.value.obj.status.state.Ready?
    ensures exists xs :: && Runs(c, w, xs) && KeepsBoth(At(w, k), At(After(c, w, xs), k))
                         && var cr := At(After(c, w, xs), k).cr;
                            ShowsIssued(cr) && cr.value.obj.certificate == [] && cr.value.obj.ca == []
  {
    var acts, t := ReadyAgain(c, k, OneAt(w, k));
    LeadsIsRun(c, w, k, acts, t);
  }

  /** An unfinished request can become ready in memory ... */
  lemma Answer(c: bool, k: Key, s: One) returns (acts: seq<Action>, t: One)
    requires s.l.ar.Some? && s.l.cr.Some? && !s.l.ar.value.obj.status.state.Terminal()
    requires s.l.ar.value.obj.status.state.Pending? ==> s.l.ar.value.obj.status.id != ""
    ensures Leads(c, k, s, acts, t) && KeepsBoth(s.l, t.l) && t.l.ar == s.l.ar
    ensures t.l.arPc.ArPutAr? && t.l.arPc.ar == s.l.ar.value && t.l.arPc.next.state.Ready?
  {
    var begin, s1 := Begin(c, k, s);
    var ask, s2 := Ask(c, k, s1);
    t := Returned(c, k, s2, "x");
    Chain(c, k, s, begin, s1, ask, s2);
    Chain(c, k, s, begin + ask, s2, Returns("x"), t);
    acts := begin + ask + Returns("x");
  }

  /** ... and be stored so. */
  lemma Finish(c: bool, k: Key, s: One) returns (acts: seq<Action>, t: One)
    requires s.l.ar.Some? && s.l.cr.Some? && !s.l.ar.value.obj.status.state.Terminal()
    requires s.l.ar.value.obj.status.state.Pending? ==> s.l.ar.value.obj.status.id != ""
    ensures Leads(c, k, s, acts, t) && KeepsBoth(s.l, t.l) && t.l.ar.value.obj.status.state.Ready?
  {
    var answer, s1 := Answer(c, k, s);
    t := Next(c, k, s, answer, s1, ArWriteAr(Delivered));
    acts := answer + [ArWriteAr(Delivered)];
  }

  lemma CertificateStep(c: bool, k: Key, l: Local, now: nat, ca: Ca, a: Action)
    requires Core(c, k, l, now, ca) && Enabled(l, a)
    requires l.cr.Some? && StoredCr(StepLocal(c, l, now, a), l.cr.value.obj.uid)
    requires l.ar.Some? && l.ar.value.obj.status.state.Terminal() && !l.ar.value.obj.status.state.Ready?
    ensures StepLocal(c, l, now, a).cr.value.obj.certificate == l.cr.value.obj.certificate
  {
    if a.ArWriteCr? {
      CertificateOutcome(k, l, now, ca, a.net);
    } else if OfArController(a) {
      OnlyCommitsShowCr(c, l, now, a);
    } else {
      CertificateElse(c, l, now, a);
    }
  }

  /** A finished attempt repeats the outcome it has read. */
  lemma CertificateOutcome(k: Key, l: Local, now: nat, ca: Ca, net: Net)
    requires PcInv(k, l, ca) && Enabled(l, ArWriteCr(net)) && l.cr.Some?
    requires l.ar == Some(l.arPc.ar) && l.ar.value.obj.status.state.Terminal() && !l.ar.value.obj.status.state.Ready?
    requires Commits(net, l.cr, l.arPc.cr) ==> l.cr.value == l.arPc.cr
    ensures ArWriteCrStep(l, net, now).cr.value.obj.certificate == l.cr.value.obj.certificate
  {}

  lemma CertificateElse(c: bool, l: Local, now: nat, a: Action)
    requires CrInv(c, l, now) && Enabled(l, a) && !OfArController(a)
    requires l.cr.Some? && StoredCr(StepLocal(c, l, now, a), l.cr.value.obj.uid)
    ensures StepLocal(c, l, now, a).cr.value.obj.certificate == l.cr.value.obj.certificate
  {}

  lemma {:induction false} CertificateStays(c: bool, w: World, xs: seq<Label>, k: Key)
    requires Reachable(c, w) && Runs(c, w, xs) && KeepsBoth(At(w, k), At(After(c, w, xs), k))
    requires At(w, k).ar.value.obj.status.state.Terminal() && !At(w, k).ar.value.obj.status.state.Ready?
    ensures At(After(c, w, xs), k).cr.value.obj.certificate == At(w, k).cr.value.obj.certificate
    decreases |xs|
  {
    if xs != [] {
      var x := xs[0];
      var w1 := Step(c, w, x);
      ReachableStep(c, w, x);
      ReachableInv(c, w, k);
      StoredThroughout(c, w1, xs[1..], k, At(w, k).ar.value.obj.uid);
      FailureTimeStays(c, w1, xs[1..], k, At(w, k).cr.value.obj.uid);
      if k == x.key {
        CertificateStep(c, k, At(w, k), w.clock, w.ca, x.action);
        StatusStep(c, k, At(w, k), w.clock, w.ca, x.action);
      }
      CertificateStays(c, w1, xs[1..], k);
    }
  }

  /**
   A certificate that a CertificateRequest has can be erased while both objects
   stay if and only if its AdcsRequest is not stored as rejected or errored.
   */
  lemma CertificateErased(c: bool, w: World, k: Key)
    requires Reachable(c, w) && At(w, k).cr.Some? && At(w, k).ar.Some? && At(w, k).cr.value.obj.certificate != []
    ensures (exists xs :: Runs(c, w, xs) && KeepsBoth(At(w, k), At(After(c, w, xs), k))
                          && At(After(c, w, xs), k).cr.value.obj.certificate == [])
            <==> var state := At(w, k).ar.value.obj.status.state; !state.Rejected? && !state.Errored?
  {
    var state := At(w, k).ar.value.obj.status.state;
    if state.Ready? {
      ReadyAgainErases(c, w, k);
    } else if state.Terminal() {
      forall xs | Runs(c, w, xs) && KeepsBoth(At(w, k), At(After(c, w, xs), k))
        ensures At(After(c, w, xs), k).cr.value.obj.certificate == At(w, k).cr.value.obj.certificate
      {
        CertificateStays(c, w, xs, k);
      }
    } else {
      RequestIds(c, w, k);
      var acts, s := Finish(c, k, OneAt(w, k));
      var acts', t := ReadyAgain(c, k, s);
      Chain(c, k, OneAt(w, k), acts, s, acts', t);
      LeadsIsRun(c, w, k, acts + acts', t);
    }
  }
}
