/**
 The certificate-request protocol as a state machine: two controllers, the API
 server and the certification authority (CA). Every store or CA call is one step,
 so the controllers interleave at each call. Each step is one tick of the clock,
 and a write that commits takes the tick as its resourceVersion (and, when it
 creates an object, as its uid).
 */
module Protocol {
  import opened Base
  import opened Api

  /** What becomes of a write request: a lost reply looks like a failure but has committed. */
  datatype Net = Delivered | Dropped | ReplyLost

  /** What the CA sends in answer to a submission. */
  datatype CaAnswer =
    | Nothing                     // nothing a client could use
    | Certificate(cert: Bytes)    // the certificate itself
    | Number(id: string)          // a page with the number it has given to this CSR

  /** What becomes of that answer on its way to the client. */
  datatype Wire =
    | Unsent                 // the submission never reached the CA
    | Lost                   // no answer arrives
    | Whole
    | BrokenOff(n: nat)      // the body ends after n bytes
    | AtLineEnd              // the number ends its line

  /** What the CA client makes of it. */
  datatype PostReply =
    | NotSent                 // the CA never received it
    | NoAnswer                // received, but no usable answer came back
    | Inline(cert: Bytes)     // the certificate itself, under the id "none"
    | Numbered(id: string)    // a request id to ask about

  /** What the CA client makes of the answer to a status query. */
  datatype PollReply =
    | PollFailed
    | PollPending(desc: string)
    | PollReady(cert: Bytes)
    | PollRejected(desc: string)
    | PollErrored(desc: string)

  /** CertificateRequest controller: where its Reconcile stands, with the snapshot it read. */
  datatype CrPc =
    | CrIdle
    | CrGetAr(cr: Versioned<Cr>)
    | CrDeleteAr(cr: Versioned<Cr>)
    | CrCreateAr(cr: Versioned<Cr>)
    | CrSetPending(cr: Versioned<Cr>)
    | CrSetDenied(cr: Versioned<Cr>)

  /** AdcsRequest controller: `ar` is the snapshot it read, `next` the status held in memory. */
  datatype ArPc =
    | ArIdle
    | ArGetIssuer(ar: Versioned<Ar>)
    | ArSubmit(ar: Versioned<Ar>, server: string)
    | ArPoll(ar: Versioned<Ar>, server: string, id: string)
    | ArChain(ar: Versioned<Ar>, next: ArStatus, cert: Bytes)
    | ArGetCr(ar: Versioned<Ar>, next: ArStatus, cert: Bytes, ca: Bytes)
    | ArPutCr(ar: Versioned<Ar>, next: ArStatus, cert: Bytes, ca: Bytes, cr: Versioned<Cr>)
    | ArPutAr(ar: Versioned<Ar>, next: ArStatus)

  /** How the finished attempts on one AdcsRequest ended, counting those that read a non-terminal state. */
  datatype Tally = Tally(attempts: nat, failedUnknown: nat, failedPending: nat, pendings: nat)

  /** History: the snapshot each AdcsRequest was made from, every version the CR ever had, the tallies by uid. */
  datatype History = History(births: map<nat, Versioned<Cr>>, past: set<Versioned<Cr>>, tally: map<nat, Tally>)

  /** Everything that belongs to one namespaced name. */
  datatype Local = Local(
    cr: Option<Versioned<Cr>>, ar: Option<Versioned<Ar>>,
    crPc: CrPc, arPc: ArPc,
    queued: bool,   // the name waits in the AdcsRequest controller's work queue
    asked: bool,    // the last AdcsRequest reconcile asked to run again
    crErr: bool,    // the last CertificateRequest reconcile returned an error
    hist: History)

  const EMPTY := Local(None, None, CrIdle, ArIdle, false, false, false, History(map[], {}, map[]))

  /** A submission as the CA at `server` knows it: what it sent back, and how that travelled. */
  datatype Submission = Submission(key: Key, uid: nat, csr: Bytes, server: string, sent: CaAnswer, wire: Wire)

  /** A certificate the CA at `server` returned for number `id`, and for which AdcsRequest it was asked. */
  datatype Certified = Certified(key: Key, uid: nat, server: string, id: string, cert: Bytes)

  datatype Ca = Ca(ledger: seq<Submission>, certified: set<Certified>)

  datatype World = World(keys: map<Key, Local>, clock: nat, ca: Ca)

  const INIT := World(map[], 0, Ca([], {}))

  datatype Action =
    // everybody else
    | CreateCr(request: Bytes, issuerRef: IssuerRef)
    | DeleteCr                      // cascades to the AdcsRequest it owns
    | CollectOrphan                 // garbage collection of an AdcsRequest whose owner is gone
    | Decide(approve: bool)         // the approver's decision, taken once
    | Touch                         // any other change to the CertificateRequest
    | Resync                        // the AdcsRequest is queued again
    // CertificateRequest controller, one action per call
    | CrStart(ok: bool)
    | CrLook(ok: bool)
    | CrDelete(net: Net)
    | CrCreate(net: Net)
    | CrPending(net: Net)
    | CrDeny(net: Net, time: nat)
    | CrCrash
    // AdcsRequest controller, one action per call
    | ArStart(ok: bool)
    | ArIssuer(server: Option<string>)
    | ArPost(sent: CaAnswer, wire: Wire)
    | ArPolled(poll: PollReply)
    | ArChained(chain: Option<Bytes>)
    | ArLook(ok: bool)
    | ArWriteCr(net: Net)
    | ArWriteAr(net: Net)
    | ArCrash

  datatype Label = Label(key: Key, action: Action)

  // ---------- one name ----------

  predicate Enabled(l: Local, a: Action) {
    match a
    case CreateCr(_, _) => l.cr.None?
    case DeleteCr => l.cr.Some?
    case CollectOrphan => l.ar.Some? && (l.cr.None? || l.cr.value.obj.uid != l.ar.value.obj.owner)
    case Decide(_) =>
      && l.cr.Some?
      && ApprovedCondition !in l.cr.value.obj.conditions
      && DeniedCondition !in l.cr.value.obj.conditions
    case Touch => l.cr.Some?
    case Resync => true
    case CrStart(_) => l.crPc.CrIdle?
    case CrLook(_) => l.crPc.CrGetAr?
    case CrDelete(_) => l.crPc.CrDeleteAr?
    case CrCreate(_) => l.crPc.CrCreateAr?
    case CrPending(_) => l.crPc.CrSetPending?
    case CrDeny(_, _) => l.crPc.CrSetDenied?
    case CrCrash => !l.crPc.CrIdle?
    case ArStart(_) => l.arPc.ArIdle? && l.queued
    case ArIssuer(_) => l.arPc.ArGetIssuer?
    case ArPost(sent, _) => l.arPc.ArSubmit? && (sent.Number? ==> IsDecimal(sent.id))
    case ArPolled(_) => l.arPc.ArPoll?
    case ArChained(chain) => l.arPc.ArChain? && (chain.Some? ==> chain.value != [])
    case ArLook(_) => l.arPc.ArGetCr?
    case ArWriteCr(_) => l.arPc.ArPutCr? && l.arPc.next.state.Terminal()
    case ArWriteAr(_) => l.arPc.ArPutAr?
    case ArCrash => !l.arPc.ArIdle?
  }

  function StoreCr(l: Local, cr: Cr, now: nat): Local {
    var v := Versioned(cr, now);
    l.(cr := Some(v), hist := l.hist.(past := l.hist.past + {v}))
  }

  /** A status update commits only at the version that was read. */
  predicate Commits<T>(net: Net, stored: Option<Versioned<T>>, read: Versioned<T>) {
    !net.Dropped? && stored.Some? && stored.value.version == read.version
  }

  function UpdateCr(l: Local, net: Net, read: Versioned<Cr>, cr: Cr, now: nat): Local {
    if Commits(net, l.cr, read) then StoreCr(l, cr, now) else l
  }

  /** True when the caller is told that its update went through. */
  predicate Told<T>(net: Net, stored: Option<Versioned<T>>, read: Versioned<T>) {
    Commits(net, stored, read) && net.Delivered?
  }

  // CertificateRequest controller

  function CrReturn(l: Local, err: bool): Local { l.(crPc := CrIdle, crErr := err) }

  function CrStartStep(checkApproved: bool, l: Local, ok: bool): Local {
    if !ok then CrReturn(l, true)
    else if l.cr.None? then CrReturn(l, false)
    else match Gate(checkApproved, l.cr.value.obj)
      case Stop => CrReturn(l, false)
      case MarkDenied => l.(crPc := CrSetDenied(l.cr.value))
      case Proceed => l.(crPc := CrGetAr(l.cr.value))
  }

  predicate RequestDiffers(ar: Ar, cr: Cr) { ar.csr != cr.request }

  function CrLookStep(l: Local, ok: bool): Local
    requires l.crPc.CrGetAr?
  {
    if !ok then CrReturn(l, true)
    else if l.ar.None? then l.(crPc := CrCreateAr(l.crPc.cr))
    else if !RequestDiffers(l.ar.value.obj, l.crPc.cr.obj) then CrReturn(l, false)
    else l.(crPc := CrDeleteAr(l.crPc.cr))
  }

  function CrDeleteStep(l: Local, net: Net): Local
    requires l.crPc.CrDeleteAr?
  {
    l.(ar := if net.Dropped? then l.ar else None, crPc := CrCreateAr(l.crPc.cr))
  }

  function NewAr(cr: Cr, now: nat): Ar {
    Ar(now, cr.uid, cr.request, cr.issuerRef, NEW_STATUS)
  }

  function CrCreateStep(l: Local, net: Net, now: nat): Local
    requires l.crPc.CrCreateAr?
  {
    if l.ar.Some? || net.Dropped? then CrReturn(l, true)
    else
      var c := l.crPc.cr;
      var l1 := l.(ar := Some(Versioned(NewAr(c.obj, now), now)), queued := true,
                   hist := l.hist.(births := l.hist.births[now := c]));
      if net.Delivered? then l1.(crPc := CrSetPending(c)) else CrReturn(l1, true)
  }

  function CrWriteStep(l: Local, net: Net, cr: Cr, now: nat): Local
    requires !l.crPc.CrIdle?
  {
    CrReturn(UpdateCr(l, net, l.crPc.cr, cr, now), !Told(net, l.cr, l.crPc.cr))
  }

  // AdcsRequest controller

  datatype Ending = Failed | StoredPending | StoredFinal

  function TallyOf(h: History, uid: nat): Tally {
    if uid in h.tally then h.tally[uid] else Tally(0, 0, 0, 0)
  }

  function Count(t: Tally, state: State, how: Ending): Tally {
    t.(attempts := t.attempts + 1,
       failedUnknown := if how.Failed? && state.Unknown? then t.failedUnknown + 1 else t.failedUnknown,
       failedPending := if how.Failed? && state.Pending? then t.failedPending + 1 else t.failedPending,
       pendings := if how.StoredPending? then t.pendings + 1 else t.pendings)
  }

  /** The end of an attempt that read `ar`: an error or Requeue=true puts the name back in the queue. */
  function ArReturn(l: Local, ar: Versioned<Ar>, how: Ending, ask: bool): Local {
    var state := ar.obj.status.state;
    var h := if state.Terminal() then l.hist
             else l.hist.(tally := l.hist.tally[ar.obj.uid := Count(TallyOf(l.hist, ar.obj.uid), state, how)]);
    l.(arPc := ArIdle, asked := ask, queued := l.queued || ask, hist := h)
  }

  function ArFail(l: Local): Local
    requires !l.arPc.ArIdle?
  {
    ArReturn(l, l.arPc.ar, Failed, true)
  }

  function ArStartStep(l: Local, ok: bool): Local {
    if !ok then l.(asked := true)
    else if l.ar.None? then l.(queued := false, asked := false)
    else l.(queued := false, arPc := ArGetIssuer(l.ar.value))
  }

  function ArIssuerStep(l: Local, server: Option<string>): Local
    requires l.arPc.ArGetIssuer?
  {
    var a := l.arPc.ar;
    var st := a.obj.status;
    if server.None? then ArFail(l)
    else if st.state.Unknown? then l.(arPc := ArSubmit(a, server.value))
    else if st.state.Pending? then
      if st.id == "" then ArFail(l) else l.(arPc := ArPoll(a, server.value, st.id))
    else l.(arPc := ArGetCr(a, st, [], []))
  }

  const OBTAINED := "certificate obtained successfully"

  /**
   What the client reads: a body that breaks off still counts as a certificate,
   and a number at the end of its line loses its last digit.
   */
  function Read(sent: CaAnswer, wire: Wire): PostReply {
    if wire.Unsent? then NotSent
    else if wire.Lost? then NoAnswer
    else match sent
      case Nothing => NoAnswer
      case Certificate(cert) => Inline(if wire.BrokenOff? && wire.n < |cert| then cert[..wire.n] else cert)
      case Number(id) =>
        if wire.Whole? then Numbered(id)
        else if wire.AtLineEnd? && |id| >= 2 then Numbered(id[..|id| - 1])
        else NoAnswer
  }

  function ArPostStep(l: Local, post: PostReply): Local
    requires l.arPc.ArSubmit?
  {
    var a := l.arPc.ar;
    match post
    case Inline(cert) => l.(arPc := ArChain(a, ArStatus(Ready, "none", OBTAINED), cert))
    case Numbered(id) => l.(arPc := ArPoll(a, l.arPc.server, id))
    case _ => ArFail(l)
  }

  function ArPolledStep(l: Local, poll: PollReply): Local
    requires l.arPc.ArPoll?
  {
    var a, id := l.arPc.ar, l.arPc.id;
    match poll
    case PollFailed => ArFail(l)
    case PollPending(desc) => l.(arPc := ArChain(a, ArStatus(Pending, id, desc), []))
    case PollReady(cert) => l.(arPc := ArChain(a, ArStatus(Ready, id, OBTAINED), cert))
    case PollRejected(desc) => l.(arPc := ArChain(a, ArStatus(Rejected, id, desc), []))
    case PollErrored(desc) => l.(arPc := ArChain(a, ArStatus(Errored, id, desc), []))
  }

  function ArChainedStep(l: Local, chain: Option<Bytes>): Local
    requires l.arPc.ArChain?
  {
    if chain.None? then ArFail(l)
    else l.(arPc := ArGetCr(l.arPc.ar, l.arPc.next, l.arPc.cert, chain.value))
  }

  function ArLookStep(l: Local, ok: bool): Local
    requires l.arPc.ArGetCr?
  {
    var p := l.arPc;
    if !ok || l.cr.None? then ArFail(l)
    else if p.next.state.Terminal() then l.(arPc := ArPutCr(p.ar, p.next, p.cert, p.ca, l.cr.value))
    else l.(arPc := ArPutAr(p.ar, p.next))
  }

  function ArWriteCrStep(l: Local, net: Net, now: nat): Local
    requires l.arPc.ArPutCr? && l.arPc.next.state.Terminal()
  {
    var p := l.arPc;
    var l1 := UpdateCr(l, net, p.cr, WithOutcome(p.cr.obj, p.next.state, p.cert, p.ca), now);
    if Told(net, l.cr, p.cr) then l1.(arPc := ArPutAr(p.ar, p.next)) else ArFail(l1)
  }

  function ArWriteArStep(l: Local, net: Net, now: nat): Local
    requires l.arPc.ArPutAr?
  {
    var a, next := l.arPc.ar, l.arPc.next;
    if !Commits(net, l.ar, a) then ArFail(l)
    else
      var l1 := l.(ar := Some(Versioned(a.obj.(status := next), now)));
      ArReturn(l1, a, if next.state.Pending? then StoredPending else StoredFinal,
               next.state.Pending? || !net.Delivered?)
  }

  function StepLocal(checkApproved: bool, l: Local, now: nat, a: Action): Local
    requires Enabled(l, a)
  {
    match a
    case CreateCr(request, ref) => StoreCr(l, Cr(now, request, ref, map[], [], [], None), now)
    case DeleteCr =>
      l.(cr := None,
         ar := if l.ar.Some? && l.ar.value.obj.owner == l.cr.value.obj.uid then None else l.ar)
    case CollectOrphan => l.(ar := None)
    case Decide(approve) =>
      var t := if approve then ApprovedCondition else DeniedCondition;
      StoreCr(l, SetCondition(l.cr.value.obj, t, Condition(CondTrue, OtherReason(""), OtherMessage(""))), now)
    case Touch => StoreCr(l, l.cr.value.obj, now)
    case Resync => l.(queued := true)
    case CrStart(ok) => CrStartStep(checkApproved, l, ok)
    case CrLook(ok) => CrLookStep(l, ok)
    case CrDelete(net) => CrDeleteStep(l, net)
    case CrCreate(net) => CrCreateStep(l, net, now)
    case CrPending(net) => CrWriteStep(l, net, SetCondition(l.crPc.cr.obj, ReadyCondition, PROCESSING), now)
    case CrDeny(net, time) => CrWriteStep(l, net, WithDenial(l.crPc.cr.obj, time), now)
    case CrCrash => CrReturn(l, true)
    case ArStart(ok) => ArStartStep(l, ok)
    case ArIssuer(server) => ArIssuerStep(l, server)
    case ArPost(sent, wire) => ArPostStep(l, Read(sent, wire))
    case ArPolled(poll) => ArPolledStep(l, poll)
    case ArChained(chain) => ArChainedStep(l, chain)
    case ArLook(ok) => ArLookStep(l, ok)
    case ArWriteCr(net) => ArWriteCrStep(l, net, now)
    case ArWriteAr(net) => ArWriteArStep(l, net, now)
    case ArCrash => ArFail(l)
  }

  function Entry(k: Key, pc: ArPc, sent: CaAnswer, wire: Wire): Submission
    requires pc.ArSubmit?
  {
    Submission(k, pc.ar.obj.uid, pc.ar.obj.csr, pc.server, sent, wire)
  }

  /** The CA's own record after an action. */
  function CaAfter(k: Key, l: Local, ca: Ca, a: Action): Ca
    requires Enabled(l, a)
  {
    match a
    case ArPost(sent, wire) =>
      if wire.Unsent? then ca else ca.(ledger := ca.ledger + [Entry(k, l.arPc, sent, wire)])
    case ArPolled(poll) =>
      if !poll.PollReady? then ca
      else ca.(certified := ca.certified + {Certified(k, l.arPc.ar.obj.uid, l.arPc.server, l.arPc.id, poll.cert)})
    case _ => ca
  }

  // ---------- the whole system ----------

  function At(w: World, k: Key): Local { if k in w.keys then w.keys[k] else EMPTY }

  predicate CanStep(w: World, x: Label) { Enabled(At(w, x.key), x.action) }

  function Step(checkApproved: bool, w: World, x: Label): World
    requires CanStep(w, x)
  {
    var l := At(w, x.key);
    World(w.keys[x.key := StepLocal(checkApproved, l, w.clock, x.action)],
          w.clock + 1,
          CaAfter(x.key, l, w.ca, x.action))
  }

  /** The labels `xs` can be taken one after the other from `w`. */
  predicate Runs(checkApproved: bool, w: World, xs: seq<Label>)
    decreases |xs|
  {
    xs == [] || (CanStep(w, xs[0]) && Runs(checkApproved, Step(checkApproved, w, xs[0]), xs[1..]))
  }

  function After(checkApproved: bool, w: World, xs: seq<Label>): World
    requires Runs(checkApproved, w, xs)
    decreases |xs|
  {
    if xs == [] then w else After(checkApproved, Step(checkApproved, w, xs[0]), xs[1..])
  }

  lemma {:induction false} RunsConcat(c: bool, w: World, xs: seq<Label>, ys: seq<Label>)
    requires Runs(c, w, xs)
    ensures Runs(c, w, xs + ys) <==> Runs(c, After(c, w, xs), ys)
    ensures Runs(c, w, xs + ys) ==> After(c, w, xs + ys) == After(c, After(c, w, xs), ys)
    decreases |xs|
  {
    if xs == [] {
      assert xs + ys == ys;
    } else {
      assert (xs + ys)[0] == xs[0] && (xs + ys)[1..] == xs[1..] + ys;
      RunsConcat(c, Step(c, w, xs[0]), xs[1..], ys);
    }
  }
}
