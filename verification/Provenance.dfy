/**
 Where a certificate comes from. The ledger holds what the CA sent; a client may
 read something else. What a CertificateRequest shows is what was read for its own
 CSR, and it is the CA's own answer when the replies arrived legible and numbers
 were asked about where they had been given.
 */
module Provenance {
  import opened Base
  import opened Api
  import opened Protocol
  import opened Invariant
  import opened Safety
  import opened Continuations

  // ---------- what the CA sent, and what was read ----------

  function ReadOf(e: Submission): PostReply { Read(e.sent, e.wire) }

  /** What was read is what was sent. */
  predicate Faithful(e: Submission) {
    match ReadOf(e)
    case Inline(cert) => e.sent == Certificate(cert)
    case Numbered(id) => e.sent == Number(id)
    case _ => true
  }

  /** The certificate did not break off, and the number does not end its line. */
  predicate Legible(e: Submission) {
    && !(e.sent.Certificate? && e.wire.BrokenOff? && e.wire.n < |e.sent.cert|)
    && !(e.sent.Number? && e.wire.AtLineEnd?)
  }

  /** Where anything is read, these two are the only ways to read it wrong. */
  lemma LegibleIsFaithful(e: Submission)
    requires ReadOf(e).Inline? || ReadOf(e).Numbered?
    ensures Faithful(e) <==> Legible(e)
  {
    if e.sent.Number? && e.wire.AtLineEnd? {
      assert |e.sent.id[..|e.sent.id| - 1]| != |e.sent.id|;
    } else if !Legible(e) {
      assert |e.sent.cert[..e.wire.n]| != |e.sent.cert|;
    }
  }

  ghost predicate IsFor(ca: Ca, k: Key, csr: Bytes, e: Submission) {
    e in ca.ledger && e.key == k && e.csr == csr
  }

  /** A certificate was returned for the number that this submission was read to have. */
  ghost predicate Asked(ca: Ca, e: Submission, d: Certified) {
    d in ca.certified && d.key == e.key && d.uid == e.uid && ReadOf(e) == Numbered(d.id)
  }

  /** `cert` is what was read for this submission, at once or for its number. */
  ghost predicate ReadFor(ca: Ca, e: Submission, cert: Bytes) {
    ReadOf(e) == Inline(cert) || exists d :: Asked(ca, e, d) && d.cert == cert
  }

  /** `cert` is what the CA itself sent for this submission, at once or for the number it gave it. */
  ghost predicate SentFor(ca: Ca, e: Submission, cert: Bytes) {
    || e.sent == Certificate(cert)
    || (e.sent.Number? && Certified(e.key, e.uid, e.server, e.sent.id, cert) in ca.certified)
  }

  /** The reply was legible, and if it was a number, the server that gave it returned `cert`. */
  ghost predicate Rightly(ca: Ca, e: Submission, cert: Bytes) {
    Legible(e) && (ReadOf(e).Numbered? ==> exists d :: Asked(ca, e, d) && d.cert == cert && d.server == e.server)
  }

  /** What was read for one submission is what the CA sent for it, if it was read rightly; at once, only if. */
  lemma RightlyIsSent(ca: Ca, e: Submission, cert: Bytes)
    requires ReadFor(ca, e, cert)
    ensures Rightly(ca, e, cert) ==> SentFor(ca, e, cert)
    ensures ReadOf(e).Inline? ==> (Rightly(ca, e, cert) <==> SentFor(ca, e, cert))
  {
    LegibleIsFaithful(e);
  }

  /** `cert` is what was read for a submission of `csr` made under this name. */
  ghost predicate ObtainedFor(ca: Ca, k: Key, csr: Bytes, cert: Bytes) {
    exists e :: IsFor(ca, k, csr, e) && ReadFor(ca, e, cert)
  }

  /** ... for this very AdcsRequest. */
  ghost predicate ObtainedBy(ca: Ca, k: Key, ar: Ar, cert: Bytes) {
    exists e :: IsFor(ca, k, ar.csr, e) && e.uid == ar.uid && ReadFor(ca, e, cert)
  }

  /** `cert` is what the CA sent for a submission of `csr` made under this name. */
  ghost predicate CertifiedFor(ca: Ca, k: Key, csr: Bytes, cert: Bytes) {
    exists e :: IsFor(ca, k, csr, e) && SentFor(ca, e, cert)
  }

  /** All that the CA sent for this name was legible, and its numbers were asked about where they had been given. */
  ghost predicate Clear(ca: Ca, k: Key) {
    && (forall e | e in ca.ledger && e.key == k :: Legible(e))
    && (forall e, d | e in ca.ledger && e.key == k && Asked(ca, e, d) :: d.server == e.server)
  }

  lemma ClearIsRight(ca: Ca, k: Key, e: Submission, cert: Bytes)
    requires Clear(ca, k) && e in ca.ledger && e.key == k && ReadFor(ca, e, cert)
    ensures Rightly(ca, e, cert)
  {}

  ghost predicate Traced(ca: Ca, k: Key, csr: Bytes, cr: Cr) {
    cr.certificate != [] ==>
      exists cert :: cr.certificate == cert + cr.ca && ObtainedFor(ca, k, csr, cert)
  }

  /** The clients read this number for a submission of the AdcsRequest. */
  ghost predicate NumberedFor(ca: Ca, k: Key, ar: Ar, id: string) {
    exists e :: IsFor(ca, k, ar.csr, e) && e.uid == ar.uid && ReadOf(e) == Numbered(id)
  }

  ghost predicate PendingTraced(ca: Ca, k: Key, ar: Ar, st: ArStatus) {
    st.state.Pending? ==> NumberedFor(ca, k, ar, st.id)
  }

  /** A certificate and CA bytes in hand: what was obtained, or nothing when a final state was read. */
  ghost predicate Held(ca: Ca, k: Key, ar: Ar, next: ArStatus, cert: Bytes) {
    next.state.Ready? ==>
      if ar.status.state.Terminal() then cert == [] else ObtainedBy(ca, k, ar, cert)
  }

  ghost predicate HeldInv(k: Key, l: Local, ca: Ca) {
    && (l.ar.Some? ==> PendingTraced(ca, k, l.ar.value.obj, l.ar.value.obj.status))
    && (!l.arPc.ArIdle? ==> PendingTraced(ca, k, l.arPc.ar.obj, l.arPc.ar.obj.status))
    && match l.arPc
       case ArPoll(a, _, id) => NumberedFor(ca, k, a.obj, id)
       case ArChain(a, next, cert) =>
         PendingTraced(ca, k, a.obj, next) && Held(ca, k, a.obj, next, cert)
       case ArGetCr(a, next, cert, chain) =>
         && PendingTraced(ca, k, a.obj, next) && Held(ca, k, a.obj, next, cert)
         && (chain == [] <==> a.obj.status.state.Terminal())
       case ArPutCr(a, next, cert, chain, _) =>
         Held(ca, k, a.obj, next, cert) && (chain == [] <==> a.obj.status.state.Terminal())
       case ArPutAr(a, next) => PendingTraced(ca, k, a.obj, next)
       case _ => true
  }

  /** Every CertificateRequest ever stored under this name asked for the same CSR. */
  ghost predicate OneRequest(l: Local, request: Bytes) {
    forall v | v in l.hist.past :: v.obj.request == request
  }

  ghost predicate CrTraced(k: Key, l: Local, ca: Ca, request: Bytes) {
    OneRequest(l, request) && (l.cr.Some? ==> Traced(ca, k, request, l.cr.value.obj))
  }

  // ---------- the CA's record only grows ----------

  ghost predicate CaGrows(ca: Ca, ca': Ca) {
    && (forall e | e in ca.ledger :: e in ca'.ledger)
    && ca.certified <= ca'.certified
  }

  lemma CaStep(k: Key, l: Local, ca: Ca, a: Action)
    requires Enabled(l, a)
    ensures CaGrows(ca, CaAfter(k, l, ca, a))
  {}

  lemma ReadGrows(ca: Ca, ca': Ca, e: Submission, cert: Bytes)
    requires ReadFor(ca, e, cert) && CaGrows(ca, ca')
    ensures ReadFor(ca', e, cert)
  {
    if d :| Asked(ca, e, d) && d.cert == cert { assert Asked(ca', e, d); }
  }

  lemma ObtainedGrows(k: Key, ca: Ca, ca': Ca, csr: Bytes, cert: Bytes)
    requires ObtainedFor(ca, k, csr, cert) && CaGrows(ca, ca')
    ensures ObtainedFor(ca', k, csr, cert)
  {
    var e :| IsFor(ca, k, csr, e) && ReadFor(ca, e, cert);
    ReadGrows(ca, ca', e, cert);
    assert IsFor(ca', k, csr, e);
  }

  lemma ObtainedByGrows(k: Key, ca: Ca, ca': Ca, ar: Ar, cert: Bytes)
    requires ObtainedBy(ca, k, ar, cert) && CaGrows(ca, ca')
    ensures ObtainedBy(ca', k, ar, cert)
  {
    var e :| IsFor(ca, k, ar.csr, e) && e.uid == ar.uid && ReadFor(ca, e, cert);
    ReadGrows(ca, ca', e, cert);
    assert IsFor(ca', k, ar.csr, e);
  }

  lemma NumberedGrows(k: Key, ca: Ca, ca': Ca, ar: Ar, id: string)
    requires NumberedFor(ca, k, ar, id) && CaGrows(ca, ca')
    ensures NumberedFor(ca', k, ar, id)
  {
    var e :| IsFor(ca, k, ar.csr, e) && e.uid == ar.uid && ReadOf(e) == Numbered(id);
    assert IsFor(ca', k, ar.csr, e);
  }

  lemma HeldGrows(k: Key, l: Local, ca: Ca, ca': Ca)
    requires HeldInv(k, l, ca) && CaGrows(ca, ca')
    ensures HeldInv(k, l, ca')
  {
    forall ar, id | NumberedFor(ca, k, ar, id) ensures NumberedFor(ca', k, ar, id) {
      NumberedGrows(k, ca, ca', ar, id);
    }
    forall ar, cert | ObtainedBy(ca, k, ar, cert) ensures ObtainedBy(ca', k, ar, cert) {
      ObtainedByGrows(k, ca, ca', ar, cert);
    }
  }

  lemma TracedGrows(k: Key, l: Local, ca: Ca, ca': Ca, request: Bytes)
    requires CrTraced(k, l, ca, request) && CaGrows(ca, ca')
    ensures CrTraced(k, l, ca', request)
  {
    if l.cr.Some? && l.cr.value.obj.certificate != [] {
      var cr := l.cr.value.obj;
      var cert :| cr.certificate == cert + cr.ca && ObtainedFor(ca, k, request, cert);
      ObtainedGrows(k, ca, ca', request, cert);
    }
  }

  // ---------- what an attempt holds ----------

  lemma HeldFail(k: Key, l: Local, ca: Ca)
    requires HeldInv(k, l, ca) && !l.arPc.ArIdle?
    ensures HeldInv(k, ArFail(l), ca)
  {}

  lemma HeldPost(k: Key, l: Local, ca: Ca, sent: CaAnswer, wire: Wire)
    requires HeldInv(k, l, ca) && Enabled(l, ArPost(sent, wire)) && l.arPc.ar.obj.status.state.Unknown?
    ensures HeldInv(k, ArPostStep(l, Read(sent, wire)), CaAfter(k, l, ca, ArPost(sent, wire)))
  {
    var ca' := CaAfter(k, l, ca, ArPost(sent, wire));
    CaStep(k, l, ca, ArPost(sent, wire));
    HeldGrows(k, l, ca, ca');
    var post := Read(sent, wire);
    if post.Inline? || post.Numbered? {
      var e := Entry(k, l.arPc, sent, wire);
      assert ca'.ledger[|ca.ledger|] == e;
      assert IsFor(ca', k, l.arPc.ar.obj.csr, e) && ReadOf(e) == post;
      assert post.Inline? ==> ReadFor(ca', e, post.cert);
    } else {
      HeldFail(k, l, ca');
    }
  }

  lemma HeldPolled(k: Key, l: Local, ca: Ca, poll: PollReply)
    requires HeldInv(k, l, ca) && l.arPc.ArPoll? && !l.arPc.ar.obj.status.state.Terminal()
    ensures HeldInv(k, ArPolledStep(l, poll), CaAfter(k, l, ca, ArPolled(poll)))
  {
    var ca' := CaAfter(k, l, ca, ArPolled(poll));
    CaStep(k, l, ca, ArPolled(poll));
    HeldGrows(k, l, ca, ca');
    if poll.PollFailed? {
      HeldFail(k, l, ca');
    } else if poll.PollReady? {
      var ar := l.arPc.ar.obj;
      var d := Certified(k, ar.uid, l.arPc.server, l.arPc.id, poll.cert);
      var e :| IsFor(ca', k, ar.csr, e) && e.uid == ar.uid && ReadOf(e) == Numbered(l.arPc.id);
      assert Asked(ca', e, d);
      assert ReadFor(ca', e, poll.cert);
      assert ObtainedBy(ca', k, ar, poll.cert);
    }
  }

  lemma HeldMove(c: bool, k: Key, l: Local, now: nat, ca: Ca, a: Action)
    requires HeldInv(k, l, ca) && PcInv(k, l, ca) && Enabled(l, a)
    requires a.ArStart? || a.ArIssuer? || a.ArChained? || a.ArLook? || a.ArCrash?
    ensures HeldInv(k, StepLocal(c, l, now, a), ca)
  {}

  lemma HeldWrite(c: bool, k: Key, l: Local, now: nat, ca: Ca, a: Action)
    requires HeldInv(k, l, ca) && Enabled(l, a) && (a.ArWriteCr? || a.ArWriteAr?)
    ensures HeldInv(k, StepLocal(c, l, now, a), ca)
  {}

  lemma HeldOther(k: Key, l: Local, l': Local, now: nat, ca: Ca)
    requires HeldInv(k, l, ca) && ArUntouched(l, l', now)
    requires l'.ar.Some? && l'.ar != l.ar ==> l'.ar.value.obj.status == NEW_STATUS
    ensures HeldInv(k, l', ca)
  {}

  lemma HeldStep(c: bool, k: Key, l: Local, now: nat, ca: Ca, a: Action)
    requires PcInv(k, l, ca) && HeldInv(k, l, ca) && Enabled(l, a)
    ensures HeldInv(k, StepLocal(c, l, now, a), CaAfter(k, l, ca, a))
  {
    if !OfArController(a) {
      OthersFrame(c, l, now, a);
      HeldOther(k, l, StepLocal(c, l, now, a), now, ca);
    } else if a.ArPost? {
      HeldPost(k, l, ca, a.sent, a.wire);
    } else if a.ArPolled? {
      HeldPolled(k, l, ca, a.poll);
    } else if a.ArWriteCr? || a.ArWriteAr? {
      HeldWrite(c, k, l, now, ca, a);
    } else {
      HeldMove(c, k, l, now, ca, a);
    }
  }

  // ---------- what the CertificateRequest shows ----------

  /** The name fixes the CSR. */
  predicate Respects(a: Action, request: Bytes) { a.CreateCr? ==> a.request == request }

  /** The AdcsRequest's CSR is the request of every CertificateRequest of its name. */
  lemma CsrIsRequest(c: bool, l: Local, now: nat, a: Versioned<Ar>, request: Bytes)
    requires ArOk(c, l.hist, now, a) && OneRequest(l, request)
    ensures a.obj.csr == request
  {}

  lemma StoreTraced(k: Key, l: Local, now: nat, ca: Ca, cr: Cr, request: Bytes)
    requires CrTraced(k, l, ca, request) && cr.request == request && Traced(ca, k, request, cr)
    ensures CrTraced(k, StoreCr(l, cr, now), ca, request)
  {}

  lemma TracedWrite(c: bool, k: Key, l: Local, now: nat, ca: Ca, net: Net, request: Bytes)
    requires Core(c, k, l, now, ca) && HeldInv(k, l, ca) && CrTraced(k, l, ca, request)
    requires Enabled(l, ArWriteCr(net)) && Commits(net, l.cr, l.arPc.cr)
    ensures var p := l.arPc;
            var cr := WithOutcome(p.cr.obj, p.next.state, p.cert, p.ca);
            cr.request == request && Traced(ca, k, request, cr)
  {
    CsrIsRequest(c, l, now, l.arPc.ar, request);
  }

  lemma CrTracedStep(c: bool, k: Key, l: Local, now: nat, ca: Ca, a: Action, request: Bytes)
    requires Core(c, k, l, now, ca) && HeldInv(k, l, ca) && CrTraced(k, l, ca, request)
    requires Enabled(l, a) && Respects(a, request)
    ensures CrTraced(k, StepLocal(c, l, now, a), ca, request)
  {
    if a.ArWriteCr? {
      if Commits(a.net, l.cr, l.arPc.cr) {
        var p := l.arPc;
        TracedWrite(c, k, l, now, ca, a.net, request);
        StoreTraced(k, l, now, ca, WithOutcome(p.cr.obj, p.next.state, p.cert, p.ca), request);
      }
    } else if OfArController(a) {
      ArTraced(c, k, l, now, ca, a, request);
    } else if a.CrPending? || a.CrDeny? {
      CrWriteTraced(c, k, l, now, ca, a, request);
    } else {
      OtherTraced(c, k, l, now, ca, a, request);
    }
  }

  lemma ArTraced(c: bool, k: Key, l: Local, now: nat, ca: Ca, a: Action, request: Bytes)
    requires CrTraced(k, l, ca, request) && Enabled(l, a) && OfArController(a) && !a.ArWriteCr?
    ensures CrTraced(k, StepLocal(c, l, now, a), ca, request)
  {
    if a.ArIssuer? || a.ArPolled? || a.ArChained? || a.ArLook? || a.ArCrash? { ArShape(c, l, now, a); }
    assert StepLocal(c, l, now, a).cr == l.cr && StepLocal(c, l, now, a).hist.past == l.hist.past;
  }

  lemma CrWriteTraced(c: bool, k: Key, l: Local, now: nat, ca: Ca, a: Action, request: Bytes)
    requires CrInv(c, l, now) && CrTraced(k, l, ca, request) && Enabled(l, a) && (a.CrPending? || a.CrDeny?)
    ensures CrTraced(k, StepLocal(c, l, now, a), ca, request)
  {}

  lemma OtherTraced(c: bool, k: Key, l: Local, now: nat, ca: Ca, a: Action, request: Bytes)
    requires CrInv(c, l, now) && CrTraced(k, l, ca, request) && Enabled(l, a) && Respects(a, request)
    requires !OfArController(a) && !a.CrPending? && !a.CrDeny?
    ensures CrTraced(k, StepLocal(c, l, now, a), ca, request)
  {}

  // ---------- over whole runs ----------

  lemma NameStep(c: bool, w: World, x: Label, k: Key, request: Bytes)
    requires Reachable(c, w) && CanStep(w, x) && (x.key == k ==> Respects(x.action, request))
    requires HeldInv(k, At(w, k), w.ca) && CrTraced(k, At(w, k), w.ca, request)
    ensures HeldInv(k, At(Step(c, w, x), k), Step(c, w, x).ca)
    ensures CrTraced(k, At(Step(c, w, x), k), Step(c, w, x).ca, request)
  {
    var l, ca' := At(w, x.key), CaAfter(x.key, At(w, x.key), w.ca, x.action);
    ReachableInv(c, w, x.key);
    CaStep(x.key, l, w.ca, x.action);
    if x.key == k {
      HeldStep(c, k, l, w.clock, w.ca, x.action);
      CrTracedStep(c, k, l, w.clock, w.ca, x.action, request);
      TracedGrows(k, StepLocal(c, l, w.clock, x.action), w.ca, ca', request);
    } else {
      HeldGrows(k, At(w, k), w.ca, ca');
      TracedGrows(k, At(w, k), w.ca, ca', request);
    }
  }

  lemma {:induction false} ProvenanceFrom(c: bool, w: World, xs: seq<Label>, k: Key, request: Bytes)
    requires Reachable(c, w) && Runs(c, w, xs)
    requires HeldInv(k, At(w, k), w.ca) && CrTraced(k, At(w, k), w.ca, request)
    requires forall i | 0 <= i < |xs| && xs[i].key == k :: Respects(xs[i].action, request)
    ensures CrTraced(k, At(After(c, w, xs), k), After(c, w, xs).ca, request)
    decreases |xs|
  {
    if xs != [] {
      NameStep(c, w, xs[0], k, request);
      ReachableStep(c, w, xs[0]);
      ProvenanceFrom(c, Step(c, w, xs[0]), xs[1..], k, request);
    }
  }

  /** If the name fixes the CSR, a certificate is what was read for it, followed by the CA bytes stored beside it. */
  lemma CertificateWasRead(c: bool, xs: seq<Label>, k: Key, request: Bytes)
    requires Runs(c, INIT, xs)
    requires forall i | 0 <= i < |xs| && xs[i].key == k :: Respects(xs[i].action, request)
    requires var l := At(After(c, INIT, xs), k); l.cr.Some? && l.cr.value.obj.certificate != []
    ensures var w := After(c, INIT, xs);
            var cr := At(w, k).cr.value.obj;
            && cr.request == request
            && exists cert :: cr.certificate == cert + cr.ca && ObtainedFor(w.ca, k, cr.request, cert)
  {
    assert Runs(c, INIT, []) && After(c, INIT, []) == INIT;
    ProvenanceFrom(c, INIT, xs, k, request);
    var w := After(c, INIT, xs);
    InvariantHolds(c, xs);
    assert Inv(c, k, At(w, k), w.clock, w.ca);
  }

  /**
   End to end: if the name fixes the CSR, a CertificateRequest that carries a
   certificate carries what was read for one submission of its own request,
   followed by the CA bytes stored beside it. It is exactly what the CA sent for
   that submission if its reply was legible and a number was asked about where it
   had been given; and so in any case if all was clear.
   */
  lemma CertificateProvenance(c: bool, xs: seq<Label>, k: Key, request: Bytes)
    requires Runs(c, INIT, xs)
    requires forall i | 0 <= i < |xs| && xs[i].key == k :: Respects(xs[i].action, request)
    requires var l := At(After(c, INIT, xs), k); l.cr.Some? && l.cr.value.obj.certificate != []
    ensures var w := After(c, INIT, xs);
            var cr := At(w, k).cr.value.obj;
            && cr.request == request
            && exists e, cert :: && IsFor(w.ca, k, cr.request, e) && ReadFor(w.ca, e, cert)
                                 && cr.certificate == cert + cr.ca
                                 && (Rightly(w.ca, e, cert) ==> SentFor(w.ca, e, cert))
                                 && (ReadOf(e).Inline? ==> (Legible(e) <==> SentFor(w.ca, e, cert)))
                                 && (Clear(w.ca, k) ==> SentFor(w.ca, e, cert))
  {
    CertificateWasRead(c, xs, k, request);
    var w := After(c, INIT, xs);
    var cr := At(w, k).cr.value.obj;
    var cert :| cr.certificate == cert + cr.ca && ObtainedFor(w.ca, k, cr.request, cert);
    var e :| IsFor(w.ca, k, cr.request, e) && ReadFor(w.ca, e, cert);
    RightlyIsSent(w.ca, e, cert);
    if Clear(w.ca, k) { ClearIsRight(w.ca, k, e, cert); }
  }

  // ---------- one write at a time, without assuming anything about names ----------

  lemma {:induction false} HeldFrom(c: bool, w: World, xs: seq<Label>, k: Key)
    requires Reachable(c, w) && Runs(c, w, xs) && HeldInv(k, At(w, k), w.ca)
    ensures HeldInv(k, At(After(c, w, xs), k), After(c, w, xs).ca)
    decreases |xs|
  {
    if xs != [] {
      var x := xs[0];
      var l := At(w, x.key);
      ReachableInv(c, w, x.key);
      CaStep(x.key, l, w.ca, x.action);
      if x.key == k {
        HeldStep(c, k, l, w.clock, w.ca, x.action);
      } else {
        HeldGrows(k, At(w, k), w.ca, CaAfter(x.key, l, w.ca, x.action));
      }
      ReachableStep(c, w, x);
      HeldFrom(c, Step(c, w, x), xs[1..], k);
    }
  }

  lemma ReachableHeld(c: bool, w: World, k: Key)
    requires Reachable(c, w)
    ensures HeldInv(k, At(w, k), w.ca)
  {
    var xs :| Runs(c, INIT, xs) && After(c, INIT, xs) == w;
    assert Runs(c, INIT, []) && After(c, INIT, []) == INIT;
    HeldFrom(c, INIT, xs, k);
  }

  /**
   A committed "Issued" leaves a certificate behind exactly when the attempt did
   not read an AdcsRequest that was ready already. Then it is what was read for
   one submission of that AdcsRequest, and what the CA sent for it if it was read
   rightly. The submission was of the CertificateRequest's own CSR exactly when
   RequestDiffers denies a difference; the controller does not ask.
   */
  lemma IssuedWrite(c: bool, w: World, x: Label)
    requires Reachable(c, w) && CanStep(w, x) && x.action.ArWriteCr?
    requires Commits(x.action.net, At(w, x.key).cr, At(w, x.key).arPc.cr) && At(w, x.key).arPc.next.state.Ready?
    ensures var p := At(w, x.key).arPc;
            var cr := At(Step(c, w, x), x.key).cr.value.obj;
            && (cr.certificate != [] <==> !p.ar.obj.status.state.Terminal())
            && cr.certificate == p.cert + cr.ca && cr.ca == p.ca
            && (cr.certificate != [] ==> FromOneSubmission(w.ca, x.key, p.ar.obj, p.cert, cr))
  {
    ReachableInv(c, w, x.key);
    ReachableHeld(c, w, x.key);
    IssuedWriteHere(x.key, At(w, x.key), w.clock, w.ca, x.action.net);
  }

  /** One submission of the AdcsRequest it goes back to, how far that is the CA's word, and whose CSR it was. */
  ghost predicate FromOneSubmission(ca: Ca, k: Key, ar: Ar, cert: Bytes, cr: Cr) {
    exists e :: && IsFor(ca, k, ar.csr, e) && e.uid == ar.uid && ReadFor(ca, e, cert)
                && (Rightly(ca, e, cert) ==> SentFor(ca, e, cert))
                && (ReadOf(e).Inline? ==> (Legible(e) <==> SentFor(ca, e, cert)))
                && (IsFor(ca, k, cr.request, e) <==> !RequestDiffers(ar, cr))
  }

  /** What was obtained goes back to one submission, of the AdcsRequest's CSR. */
  lemma ObtainedOnce(ca: Ca, k: Key, ar: Ar, cert: Bytes, cr: Cr)
    requires ObtainedBy(ca, k, ar, cert)
    ensures FromOneSubmission(ca, k, ar, cert, cr)
  {
    var e :| IsFor(ca, k, ar.csr, e) && e.uid == ar.uid && ReadFor(ca, e, cert);
    RightlyIsSent(ca, e, cert);
  }

  lemma IssuedWriteHere(k: Key, l: Local, now: nat, ca: Ca, net: Net)
    requires PcInv(k, l, ca) && HeldInv(k, l, ca) && Enabled(l, ArWriteCr(net))
    requires Commits(net, l.cr, l.arPc.cr) && l.arPc.next.state.Ready?
    ensures var p := l.arPc;
            var stored := ArWriteCrStep(l, net, now).cr;
            && stored.Some?
            && (stored.value.obj.certificate != [] <==> !p.ar.obj.status.state.Terminal())
            && stored.value.obj.certificate == p.cert + stored.value.obj.ca && stored.value.obj.ca == p.ca
            && (stored.value.obj.certificate != [] ==> FromOneSubmission(ca, k, p.ar.obj, p.cert, stored.value.obj))
  {
    var p := l.arPc;
    if !p.ar.obj.status.state.Terminal() {
      ObtainedOnce(ca, k, p.ar.obj, p.cert, WithOutcome(p.cr.obj, Ready, p.cert, p.ca));
    }
  }
}
