/** The two Reconcile methods, call by call: whatever they do is a run of the protocol. */
module Controllers {
  import opened Base
  import opened Api
  import opened Safety
  import opened Replies
  import opened Cluster
  import opened Issuing
  import opened Factory
  import opened Http
  import NtlmClient
  import KerberosClient
  import M = Protocol
  import P = Pages

  /** The in-memory copy of a CertificateRequest. */
  class CertificateRequest {
    var uid: nat
    var request: Bytes
    var issuerRef: IssuerRef
    var conditions: map<ConditionType, Condition>
    var certificate: Bytes
    var ca: Bytes
    var failureTime: Option<nat>
    var version: nat

    constructor (from: Versioned<Cr>)
      ensures Value() == from
    {
      uid := from.obj.uid;
      request := from.obj.request;
      issuerRef := from.obj.issuerRef;
      conditions := from.obj.conditions;
      certificate := from.obj.certificate;
      ca := from.obj.ca;
      failureTime := from.obj.failureTime;
      version := from.version;
    }

    function Object(): Cr
      reads this
    {
      Cr(uid, request, issuerRef, conditions, certificate, ca, failureTime)
    }

    function Value(): Versioned<Cr>
      reads this
    {
      Versioned(Object(), version)
    }
  }

  // ---------- CertificateRequest controller ----------

  method RequestDiffers(a: Bytes, b: Bytes) returns (differs: bool)
    ensures differs <==> a != b
  {
    if |a| != |b| {
      return true;
    }
    for i := 0 to |a|
      invariant a[..i] == b[..i]
    {
      if a[i] != b[i] {
        return true;
      }
    }
    assert a[..|a|] == a && b[..|b|] == b;
    return false;
  }

  /** An AdcsRequest is made and the CertificateRequest marked as processing; another one may have been in the way. */
  const MADE: seq<Change> := [ArCreated, CrUpdated]
  const REPLACED: seq<Change> := [ArDeleted] + MADE

  class CertificateRequestReconciler {
    const cluster: Cluster

    constructor (cluster: Cluster)
      ensures this.cluster == cluster
    {
      this.cluster := cluster;
    }

    method SetStatus(who: Who, k: Key, cr: CertificateRequest, status: ConditionStatus, reason: Reason,
                     message: Message, now: nat)
      returns (err: bool, ghost done: seq<Change>)
      requires cluster.Valid() && MayWrite(who, k, cr.Value(), Condition(status, reason, message), now)
      modifies cluster, cr`conditions
      ensures cluster.Does(who, k, done)
      ensures if err then done == [] || done == [CrUpdated] else done == [CrUpdated]
      ensures done == [CrUpdated] ==> cluster.Here(k).cr.Some? && cluster.Here(k).cr.value.obj == cr.Object()
      ensures cr.conditions == old(cr.conditions)[ReadyCondition := Condition(status, reason, message)]
      ensures who.CrController? ==> cluster.Here(k).crPc.CrIdle? && cluster.Here(k).crErr == err
      ensures who.CrController? && old(cluster.Here(k).crPc.CrSetPending?) && !err ==>
                cluster.Here(k).ar.Some? && cluster.Here(k).ar.value.obj.csr == old(cr.request)
      ensures who.ArController? ==>
                var p := old(cluster.Here(k).arPc);
                if err then cluster.Repeats(k) else cluster.Here(k).arPc == M.ArPutAr(p.ar, p.next)
    {
      cr.conditions := cr.conditions[ReadyCondition := Condition(status, reason, message)];
      if who.CrController? {
        err, done := cluster.CrUpdatesCr(k, cr.Value(), now);
      } else {
        err, done := cluster.ArUpdatesCr(k, cr.Value());
      }
    }

    /** The write is the one the protocol has the controller make next. */
    ghost predicate MayWrite(who: Who, k: Key, v: Versioned<Cr>, condition: Condition, now: nat)
      reads cluster
    {
      var l := cluster.Here(k);
      var cr := SetCondition(v.obj, ReadyCondition, condition);
      if who.CrController? then
        && (l.crPc.CrSetPending? || l.crPc.CrSetDenied?)
        && v.version == l.crPc.cr.version
        && cr == if l.crPc.CrSetPending? then SetCondition(l.crPc.cr.obj, ReadyCondition, PROCESSING)
                 else WithDenial(l.crPc.cr.obj, now)
      else
        && l.arPc.ArPutCr? && l.arPc.next.state.Terminal()
        && v.version == l.arPc.cr.version
        && cr == WithOutcome(l.arPc.cr.obj, l.arPc.next.state, l.arPc.cert, l.arPc.ca)
    }

    /**
     What a reconcile does about the CertificateRequest it has read: a denial is
     marked, a cleared one gets its AdcsRequest, and any other is left alone.
     Without an error this is complete; with one it is cut short.
     */
    ghost predicate Acts(got: Lookup<Versioned<Cr>>, err: bool, done: seq<Change>) {
      match got
      case Unavailable => err && done == []
      case Missing => !err && done == []
      case Found(c) => Handles(c.obj, err, done)
    }

    ghost predicate Handles(cr: Cr, err: bool, done: seq<Change>) {
      if ToBeMarked(cr) then if err then done <= [CrUpdated] else done == [CrUpdated]
      else if Cleared(cluster.checkApproved, cr) then
        if err then done <= MADE || done <= REPLACED else done == [] || done == MADE || done == REPLACED
      else !err && done == []
    }

    /** What is then stored: the mark with a failure time, or an AdcsRequest with this CSR. */
    ghost predicate Leaves(cr: Cr, err: bool, done: seq<Change>, k: Key, now: nat)
      reads cluster
    {
      var l := cluster.Here(k);
      && (ToBeMarked(cr) && done == [CrUpdated] ==>
          && l.cr.Some?
          && l.cr.value.obj == cr.(
               conditions := cr.conditions[ReadyCondition := Condition(CondFalse, DeniedReason, DeniedMessage)],
               failureTime := if cr.failureTime.Some? then cr.failureTime else Some(now)))
      && (Cleared(cluster.checkApproved, cr) && !err ==> l.ar.Some? && l.ar.value.obj.csr == cr.request)
    }

    method Reconcile(k: Key, now: nat)
      returns (err: bool, ghost got: Lookup<Versioned<Cr>>, ghost done: seq<Change>)
      requires cluster.Valid() && cluster.Here(k).crPc.CrIdle?
      modifies cluster
      ensures cluster.Begins(CrController, k, done, []) && Acts(got, err, done)
      ensures got.Found? ==> Leaves(got.value.obj, err, done, k, now)
      ensures cluster.Here(k).crPc.CrIdle? && cluster.Here(k).crErr == err
    {
      var read := cluster.CrGetsCr(k);
      if !read.Found? {
        return read.Unavailable?, read, [];
      }
      var cr := new CertificateRequest(read.value);
      got := read;
      err, done := Handle(k, cr, now);
    }

    method Handle(k: Key, cr: CertificateRequest, now: nat) returns (err: bool, ghost done: seq<Change>)
      requires cluster.Valid()
      requires var pc := cluster.Here(k).crPc;
               match Gate(cluster.checkApproved, cr.Object())
               case Stop => pc.CrIdle? && !cluster.Here(k).crErr
               case MarkDenied => pc == M.CrSetDenied(cr.Value())
               case Proceed => pc == M.CrGetAr(cr.Value())
      modifies cluster, cr
      ensures cluster.Does(CrController, k, done)
      ensures Handles(old(cr.Object()), err, done) && Leaves(old(cr.Object()), err, done, k, now)
      ensures cluster.Here(k).crPc.CrIdle? && cluster.Here(k).crErr == err
    {
      var verdict := PassGates(cr);
      if verdict.Stop? {
        return false, [];
      }
      if verdict.MarkDenied? {
        err, done := MarkDenied(k, cr, now);
      } else {
        err, done := Converge(k, cr, now);
      }
    }

    /**
     The gate chain at the head of Reconcile: a denial is to be marked exactly when
     it is ours and carries no final mark yet, and it goes on exactly when all is
     cleared.
     */
    method PassGates(cr: CertificateRequest) returns (verdict: Verdict)
      ensures verdict == Gate(cluster.checkApproved, cr.Object())
      ensures verdict.MarkDenied? <==> ToBeMarked(cr.Object())
      ensures verdict.Proceed? <==> Cleared(cluster.checkApproved, cr.Object())
    {
      if cr.issuerRef.group != GROUP {
        return Stop;
      }
      if HasCondition(cr.Object(), ReadyCondition, CondTrue, None) {
        return Stop;
      }
      if HasCondition(cr.Object(), ReadyCondition, CondFalse, Some(FailedReason)) {
        return Stop;
      }
      if HasCondition(cr.Object(), ReadyCondition, CondFalse, Some(DeniedReason)) {
        return Stop;
      }
      if IsDenied(cr.Object()) {
        return Verdict.MarkDenied;
      }
      if cluster.checkApproved {
        if !IsApproved(cr.Object()) {
          return Stop;
        }
      }
      if |cr.certificate| > 0 {
        return Stop;
      }
      return Proceed;
    }

    /** What is written, if the write takes effect, carries the mark and, if it had none, this failure time. */
    method MarkDenied(k: Key, cr: CertificateRequest, now: nat) returns (err: bool, ghost done: seq<Change>)
      requires cluster.Valid() && cluster.Here(k).crPc == M.CrSetDenied(cr.Value())
      modifies cluster, cr
      ensures cluster.Does(CrController, k, done)
      ensures if err then done == [] || done == [CrUpdated] else done == [CrUpdated]
      ensures done == [CrUpdated] ==>
                && cluster.Here(k).cr.Some?
                && cluster.Here(k).cr.value.obj ==
                   old(cr.Object()).(
                     conditions := old(cr.conditions)[ReadyCondition := DENIED],
                     failureTime := if old(cr.failureTime).Some? then old(cr.failureTime) else Some(now))
      ensures cluster.Here(k).crPc.CrIdle? && cluster.Here(k).crErr == err
    {
      if cr.failureTime.None? {
        cr.failureTime := Some(now);
      }
      err, done := SetStatus(CrController, k, cr, CondFalse, DeniedReason, DeniedMessage, now);
    }

    /** Past the gates: an AdcsRequest with the CSR of the CertificateRequest, whatever there was before. */
    method Converge(k: Key, cr: CertificateRequest, now: nat) returns (err: bool, ghost done: seq<Change>)
      requires cluster.Valid() && cluster.Here(k).crPc == M.CrGetAr(cr.Value())
      modifies cluster, cr`conditions
      ensures cluster.Does(CrController, k, done)
      ensures if err then done <= MADE || done <= REPLACED else done == [] || done == MADE || done == REPLACED
      ensures cluster.Here(k).crPc.CrIdle? && cluster.Here(k).crErr == err
      ensures !err ==> cluster.Here(k).ar.Some? && cluster.Here(k).ar.value.obj.csr == cr.request
    {
      var adcsReq := cluster.CrGetsAr(k);
      if adcsReq.Unavailable? {
        return true, [];
      }
      if adcsReq.Found? {
        var differs := RequestDiffers(adcsReq.value.obj.csr, cr.request);
        if !differs {
          return false, [];
        }
        err, done := Replace(k, cr, now);
      } else {
        err, done := Make(k, cr, now);
      }
    }

    method Replace(k: Key, cr: CertificateRequest, now: nat) returns (err: bool, ghost done: seq<Change>)
      requires cluster.Valid() && cluster.Here(k).crPc == M.CrDeleteAr(cr.Value())
      modifies cluster, cr`conditions
      ensures cluster.Does(CrController, k, done)
      ensures if err then done <= MADE || done <= REPLACED else done == MADE || done == REPLACED
      ensures cluster.Here(k).crPc.CrIdle? && cluster.Here(k).crErr == err
      ensures !err ==> cluster.Here(k).ar.Some? && cluster.Here(k).ar.value.obj.csr == cr.request
    {
      var failed; // only logged
      ghost var deleted;
      failed, deleted := cluster.CrDeletesAr(k);
      err, done := Make(k, cr, now);
      done := deleted + done;
    }

    /** A new AdcsRequest, and then the mark that it is processed. */
    method Make(k: Key, cr: CertificateRequest, now: nat) returns (err: bool, ghost done: seq<Change>)
      requires cluster.Valid() && cluster.Here(k).crPc == M.CrCreateAr(cr.Value())
      modifies cluster, cr`conditions
      ensures cluster.Does(CrController, k, done)
      ensures if err then done <= MADE else done == MADE
      ensures cluster.Here(k).crPc.CrIdle? && cluster.Here(k).crErr == err
      ensures !err ==> cluster.Here(k).ar.Some? && cluster.Here(k).ar.value.obj.csr == cr.request
      ensures done == MADE ==>
                && cluster.Here(k).cr.Some?
                && var processing := Condition(CondFalse, PendingReason, Processing);
                   cluster.Here(k).cr.value.obj ==
                   old(cr.Object()).(conditions := old(cr.conditions)[ReadyCondition := processing])
    {
      err, done := CreateAdcsRequest(k, cr);
      if err {
        return;
      }
      ghost var updated;
      err, updated := SetStatus(CrController, k, cr, CondFalse, PendingReason, Processing, now);
      done := done + updated;
    }

    method CreateAdcsRequest(k: Key, cr: CertificateRequest) returns (err: bool, ghost done: seq<Change>)
      requires cluster.Valid() && cluster.Here(k).crPc == M.CrCreateAr(cr.Value())
      modifies cluster
      ensures cluster.Does(CrController, k, done)
      ensures if err then done == [] || done == [ArCreated] else done == [ArCreated]
      ensures done == [ArCreated] ==>
                && cluster.Here(k).ar.Some?
                && var ar := cluster.Here(k).ar.value.obj;
                   && ar.owner == cr.uid && ar.csr == cr.request && ar.issuerRef == cr.issuerRef
                   && ar.status == ArStatus(Unknown, "", "")
      ensures if err then cluster.Here(k).crPc.CrIdle? && cluster.Here(k).crErr
              else cluster.Here(k).crPc == M.CrSetPending(cr.Value())
    {
      err, done := cluster.CrCreatesAr(k, cr.uid, cr.request, cr.issuerRef);
    }
  }

  // ---------- AdcsRequest controller ----------

  datatype Result = Result(requeue: bool, err: bool)

  /** One Issue as it went: for which request, with which issuer, what was asked and answered, and what came of it. */
  datatype Talk = Talk(read: Versioned<Ar>, resolved: Resolved, setup: Setup, replies: seq<P.Reply>,
                       sent: seq<P.Request>, out: IssueResult, status: ArStatus)

  /** How far a reconcile got: it read nothing, failed at a call, or had an answer to write. */
  datatype Stage =
    | Gone | NotRead
    | NoIssuer(read: Versioned<Ar>)
    | NotIssued(talk: Talk) | NoRequest(talk: Talk) | Answered(talk: Talk)

  class AdcsRequestReconciler {
    const cluster: Cluster
    const factory: IssuerFactory
    const codec: Codec
    const parses: string -> bool
    const certificateRequests: CertificateRequestReconciler

    constructor (cluster: Cluster, factory: IssuerFactory, codec: Codec, parses: string -> bool,
                 crs: CertificateRequestReconciler)
      requires crs.cluster == cluster
      ensures this.cluster == cluster && certificateRequests == crs
      ensures this.factory == factory && this.codec == codec && this.parses == parses
    {
      this.cluster := cluster;
      this.factory := factory;
      this.codec := codec;
      this.parses := parses;
      certificateRequests := crs;
    }

    /** The client that goes with an issuer. */
    function SetupFor(resolved: Resolved): Setup {
      Setup(resolved.kerberos, resolved.url, parses, resolved.templateName, codec)
    }

    /** This is how an Issue goes for this request: with the issuer its reference names from its own namespace. */
    ghost predicate Talks(k: Key, t: Talk) {
      && ResolvesTo(factory.objects, factory.env, t.read.obj.issuerRef, k.namespace, t.resolved)
      && t.setup == SetupFor(t.resolved)
      && IssueIs(t.setup, t.read.obj.csr, t.read.obj.status, t.replies, t.sent, t.out, t.status)
    }

    /** The issuer is missing exactly if its reference names none, and the attempt failed exactly if Issue did. */
    ghost predicate Spoken(k: Key, stage: Stage) {
      match stage
      case NoIssuer(read) => forall r :: !ResolvesTo(factory.objects, factory.env, read.obj.issuerRef, k.namespace, r)
      case NotIssued(t) => Talks(k, t) && !t.out.Issued?
      case NoRequest(t) => Talks(k, t) && t.out.Issued?
      case Answered(t) => Talks(k, t) && t.out.Issued?
      case _ => true
    }

    /** The server a reconcile turned to: the issuer's own, or none. */
    function Servers(stage: Stage): seq<Option<string>> {
      match stage
      case NoIssuer(_) => [None]
      case NotIssued(t) => [Some(t.resolved.url)]
      case NoRequest(t) => [Some(t.resolved.url)]
      case Answered(t) => [Some(t.resolved.url)]
      case _ => []
    }

    /** A client for the issuer; what its server will answer is anybody's guess. */
    method Connect(resolved: Resolved, replies: seq<P.Reply>) returns (issuer: Issuer)
      ensures fresh(issuer.certServ.Http()) && issuer.certServ.Http().replies == replies
      ensures issuer.SetupOf() == SetupFor(resolved)
    {
      var http := new Transport(replies);
      var certServ: CertServ;
      if resolved.kerberos {
        var client := new KerberosClient.KerberosCertsrv(resolved.url, http, parses);
        certServ := Kerberos(client);
      } else {
        var client := new NtlmClient.NtlmCertsrv(resolved.url, http, parses);
        certServ := Ntlm(client);
      }
      issuer := new Issuer(certServ, resolved.templateName, codec);
    }

    /** The submission of a new request, as far as it came, and the replies that are left. */
    method Submitted(k: Key, s: Setup, a: Versioned<Ar>, replies: seq<P.Reply>) returns (rest: seq<P.Reply>)
      requires cluster.Valid() && cluster.Here(k).arPc == M.ArSubmit(a, s.url)
      modifies cluster
      ensures cluster.Goes(ArController, k)
      ensures !s.parses(P.PostUrl(s.url)) ==> cluster.Repeats(k)
      ensures s.parses(P.PostUrl(s.url)) ==>
                && rest == P.Drop(replies, 1)
                && match P.AfterPost(P.Head(replies))
                   case AskFor(id) => cluster.Here(k).arPc == M.ArPoll(a, s.url, id)
                   case Done(o) => AfterAnswer(k, a, o)
    {
      rest := replies;
      if s.parses(P.PostUrl(s.url)) {
        var received: bool, unread: M.CaAnswer, missing: Bytes := *, *, *;
        if unread.Number? && !IsDecimal(unread.id) { unread := M.Nothing; }
        P.PostContract(P.Head(replies));
        ReadsWhatWasSent(P.Head(replies), received, unread, missing);
        var sent := SentBy(P.Head(replies), received, unread, missing);
        cluster.ArPosted(k, sent.answer, sent.wire);
        rest := P.Drop(replies, 1);
      } else {
        cluster.ArPosted(k, M.Nothing, M.Unsent);
      }
    }

    /** The answer about a numbered request. */
    method Polled(k: Key, s: Setup, a: Versioned<Ar>, id: string, replies: seq<P.Reply>) returns (rest: seq<P.Reply>)
      requires cluster.Valid() && cluster.Here(k).arPc == M.ArPoll(a, s.url, id)
      modifies cluster
      ensures cluster.Goes(ArController, k)
      ensures var poll := P.Poll(s.url, s.parses, id, replies);
              && rest == P.Drop(replies, |poll.sent|)
              && AfterAnswer(k, a, poll.result)
    {
      var poll := P.Poll(s.url, s.parses, id, replies);
      P.PollContract(id, P.Head(replies));
      cluster.ArAnswered(k, PollReplyOf(poll.result));
      rest := P.Drop(replies, |poll.sent|);
    }

    /** An answer is in memory, or the attempt is over. */
    ghost predicate AfterAnswer(k: Key, a: Versioned<Ar>, o: P.Outcome)
      reads cluster
    {
      if P.Failed(o) then cluster.Repeats(k)
      else cluster.Here(k).arPc == M.ArChain(a, Rewritten(a.obj.status, o), if o.answer.Ready? then o.text else [])
    }

    /** A new request: the submission, and the query if it was given a number. */
    method AskedNew(k: Key, s: Setup, a: Versioned<Ar>, replies: seq<P.Reply>) returns (rest: seq<P.Reply>)
      requires cluster.Valid() && cluster.Here(k).arPc == M.ArSubmit(a, s.url)
      modifies cluster
      ensures cluster.Goes(ArController, k)
      ensures var ask := P.Submit(s.url, s.parses, a.obj.csr, s.template, replies);
              && AfterAnswer(k, a, ask.result)
              && (!P.Failed(ask.result) ==> rest == P.Drop(replies, |ask.sent|))
    {
      rest := Submitted(k, s, a, replies);
      if cluster.Here(k).arPc.ArPoll? {
        rest := Polled(k, s, a, cluster.Here(k).arPc.id, rest);
      }
    }

    method Asked(k: Key, s: Setup, a: Versioned<Ar>, replies: seq<P.Reply>) returns (rest: seq<P.Reply>)
      requires cluster.Valid() && !a.obj.status.state.Terminal()
      requires cluster.Here(k).arPc ==
               if a.obj.status.state.Unknown? then M.ArSubmit(a, s.url) else M.ArPoll(a, s.url, a.obj.status.id)
      modifies cluster
      ensures cluster.Goes(ArController, k)
      ensures var ask := Ask(s, a.obj.csr, a.obj.status, replies);
              && AfterAnswer(k, a, ask.result)
              && (!P.Failed(ask.result) ==> rest == P.Drop(replies, |ask.sent|))
    {
      if a.obj.status.state.Unknown? {
        rest := AskedNew(k, s, a, replies);
      } else {
        rest := Polled(k, s, a, a.obj.status.id, replies);
      }
    }

    /** The protocol steps behind one Issue: submission, query and chain, as far as they came. */
    method Converse(k: Key, s: Setup, a: Versioned<Ar>, replies: seq<P.Reply>)
      requires cluster.Valid() && Started(k, a, s.url)
      modifies cluster
      ensures cluster.Goes(ArController, k)
      ensures var attempt := IssueAttempt(s, a.obj.csr, a.obj.status, replies);
              if attempt.result.Issued?
              then cluster.Here(k).arPc == M.ArGetCr(a, attempt.status, attempt.result.cert, attempt.result.ca)
              else cluster.Repeats(k)
    {
      var st := a.obj.status;
      if !st.state.Terminal() && !(st.state.Pending? && st.id == "") {
        ghost var ask := Ask(s, a.obj.csr, st, replies);
        var rest := Asked(k, s, a, replies);
        if cluster.Here(k).arPc.ArChain? {
          cluster.ArFetched(k, UsableCa(s.codec, Chain(s, rest).result));
        }
      }
    }

    /** The issuer is at hand and the attempt is about to turn to the CA, or has nothing to ask. */
    ghost predicate Started(k: Key, a: Versioned<Ar>, server: string)
      reads cluster
    {
      var st := a.obj.status;
      if st.state.Pending? && st.id == "" then cluster.Repeats(k)
      else cluster.Here(k).arPc == if st.state.Unknown? then M.ArSubmit(a, server)
                                   else if st.state.Pending? then M.ArPoll(a, server, st.id)
                                   else M.ArGetCr(a, st, [], [])
    }

    /** The client, the attempt, and its protocol steps. */
    method Obtain(k: Key, ar: AdcsRequest, resolved: Resolved) returns (out: IssueResult, ghost talk: Talk)
      requires cluster.Valid() && Started(k, ar.Value(), resolved.url)
      modifies cluster, ar`state, ar`id, ar`reason
      ensures cluster.Goes(ArController, k)
      ensures ar.Value() == old(ar.Value()).(obj := old(ar.Value()).obj.(status := ar.Status()))
      ensures if out.Issued? then cluster.Here(k).arPc == M.ArGetCr(old(ar.Value()), ar.Status(), out.cert, out.ca)
              else cluster.Repeats(k)
      ensures talk == Talk(old(ar.Value()), resolved, SetupFor(resolved), talk.replies, talk.sent, out, ar.Status())
      ensures IssueIs(talk.setup, old(ar.csr), old(ar.Status()), talk.replies, talk.sent, out, ar.Status())
    {
      var a := ar.Value();
      var replies: seq<P.Reply> := *; // whatever the server will answer
      out, talk := IssueWith(resolved, replies, ar);
      Converse(k, SetupFor(resolved), a, replies);
    }

    /** A client is connected and the request given to it. */
    method IssueWith(resolved: Resolved, replies: seq<P.Reply>, ar: AdcsRequest)
      returns (out: IssueResult, ghost talk: Talk)
      modifies ar`state, ar`id, ar`reason
      ensures ar.Value() == old(ar.Value()).(obj := old(ar.Value()).obj.(status := ar.Status()))
      ensures talk == Talk(old(ar.Value()), resolved, SetupFor(resolved), replies, talk.sent, out, ar.Status())
      ensures var attempt := IssueAttempt(talk.setup, old(ar.csr), old(ar.Status()), replies);
              out == attempt.result && ar.Status() == attempt.status
      ensures IssueIs(talk.setup, old(ar.csr), old(ar.Status()), talk.replies, talk.sent, out, ar.Status())
    {
      var a := ar.Value();
      var issuer := Connect(resolved, replies);
      ghost var before := issuer.certServ.Http().sent;
      out := issuer.Issue(ar);
      ghost var asked :| issuer.certServ.Http().Served(replies, before, asked) &&
                         IssueIs(SetupFor(resolved), a.obj.csr, a.obj.status, replies, asked, out, ar.Status());
      talk := Talk(a, resolved, SetupFor(resolved), replies, asked, out, ar.Status());
    }

    /** The CertificateRequest first, if there is an outcome, and then the AdcsRequest. */
    function Writes(state: State): seq<Change> {
      if state.Terminal() then [CrUpdated, ArUpdated] else [ArUpdated]
    }

    /**
     The outcome goes into the CertificateRequest, and then the AdcsRequest is
     written: both writes take effect in this order, or the attempt stops between.
     */
    method Conclude(k: Key, read: Versioned<Ar>, ar: AdcsRequest, out: IssueResult)
      returns (res: Result, ghost found: bool, ghost done: seq<Change>)
      requires certificateRequests.cluster == cluster && out.Issued?
      requires ar.Value() == read.(obj := read.obj.(status := ar.Status()))
      requires cluster.Valid() && cluster.Here(k).arPc == M.ArGetCr(read, ar.Status(), out.cert, out.ca)
      modifies cluster
      ensures cluster.Does(ArController, k, done) && Returned(k, res)
      ensures if found then Written(res, ar.state, done) else done == [] && res == Result(true, false)
    {
      var got := cluster.ArGetsCr(k);
      found := got.Found?;
      if !got.Found? {
        return Result(true, false), false, [];
      }
      var cr := new CertificateRequest(got.value);
      res, done := Publish(k, read, ar, cr, out);
    }

    /** The writes in order, possibly cut short; without a repeat, all those of an outcome. */
    ghost predicate Written(res: Result, state: State, done: seq<Change>) {
      && !res.err && done <= Writes(state)
      && (!res.requeue ==> state.Terminal() && done == [CrUpdated, ArUpdated])
    }

    method Publish(k: Key, read: Versioned<Ar>, ar: AdcsRequest, cr: CertificateRequest, out: IssueResult)
      returns (res: Result, ghost done: seq<Change>)
      requires certificateRequests.cluster == cluster && out.Issued?
      requires ar.Value() == read.(obj := read.obj.(status := ar.Status()))
      requires cluster.Valid()
      requires cluster.Here(k).arPc ==
               if ar.state.Terminal() then M.ArPutCr(read, ar.Status(), out.cert, out.ca, cr.Value())
               else M.ArPutAr(read, ar.Status())
      modifies cluster, cr
      ensures cluster.Does(ArController, k, done) && Returned(k, res)
      ensures Written(res, ar.state, done)
    {
      done := [];
      if ar.state.Terminal() {
        var err;
        err, done := Deliver(k, read, ar, cr, out);
        if err {
          return Result(true, false), done;
        }
      }
      ghost var updated;
      res, updated := Store(k, read, ar);
      done := done + updated;
    }

    /** The AdcsRequest is written, and a pending one asks to be looked at again. */
    method Store(k: Key, read: Versioned<Ar>, ar: AdcsRequest) returns (res: Result, ghost done: seq<Change>)
      requires ar.Value() == read.(obj := read.obj.(status := ar.Status()))
      requires cluster.Valid() && cluster.Here(k).arPc == M.ArPutAr(read, ar.Status())
      modifies cluster
      ensures cluster.Does(ArController, k, done) && Returned(k, res)
      ensures !res.err && done <= [ArUpdated] && (!res.requeue ==> done == [ArUpdated] && ar.state.Terminal())
      ensures done == [ArUpdated] ==> cluster.Here(k).ar.Some? && cluster.Here(k).ar.value.obj == ar.Value().obj
    {
      cluster.Holds(k);
      var err;
      err, done := cluster.ArUpdatesAr(k, ar.Value());
      return Result(err || ar.state.Pending?, false), done;
    }

    /** The CertificateRequest in memory takes the outcome and is written first. */
    method Deliver(k: Key, read: Versioned<Ar>, ar: AdcsRequest, cr: CertificateRequest, out: IssueResult)
      returns (err: bool, ghost done: seq<Change>)
      requires certificateRequests.cluster == cluster && out.Issued? && ar.state.Terminal()
      requires cluster.Valid()
      requires cluster.Here(k).arPc == M.ArPutCr(read, ar.Status(), out.cert, out.ca, cr.Value())
      modifies cluster, cr
      ensures cluster.Does(ArController, k, done)
      ensures if err then done == [] || done == [CrUpdated] else done == [CrUpdated]
      ensures if err then cluster.Repeats(k) else cluster.Here(k).arPc == M.ArPutAr(read, ar.Status())
      ensures done == [CrUpdated] ==>
                cluster.Here(k).cr.Some? && ShowsOutcome(old(cr.Object()), ar.state, out, cluster.Here(k).cr.value.obj)
    {
      var crs := certificateRequests;
      if ar.state.Ready? {
        cr.certificate := out.cert + out.ca;
        cr.ca := out.ca;
        err, done := crs.SetStatus(ArController, k, cr, CondTrue, IssuedReason, Successful, 0);
      } else if ar.state.Rejected? {
        err, done := crs.SetStatus(ArController, k, cr, CondFalse, PendingReason, RejectedMessage, 0);
      } else {
        err, done := crs.SetStatus(ArController, k, cr, CondFalse, FailedReason, ErroredMessage, 0);
      }
    }

    /**
     The CertificateRequest with the outcome: a ready one with the certificate
     followed by the CA bytes, and these again beside it; any other with its bytes
     as they were.
     */
    predicate ShowsOutcome(cr: Cr, state: State, out: IssueResult, cr': Cr)
      requires out.Issued?
    {
      var condition := if state.Ready? then Condition(CondTrue, IssuedReason, Successful)
                       else if state.Rejected? then Condition(CondFalse, PendingReason, RejectedMessage)
                       else Condition(CondFalse, FailedReason, ErroredMessage);
      && cr'.conditions == cr.conditions[ReadyCondition := condition]
      && cr'.certificate == (if state.Ready? then out.cert + out.ca else cr.certificate)
      && cr'.ca == (if state.Ready? then out.ca else cr.ca)
      && cr'.uid == cr.uid && cr'.request == cr.request && cr'.issuerRef == cr.issuerRef
      && cr'.failureTime == cr.failureTime
    }

    /** The end of a reconcile: with nothing asked for, the request is gone or finished. */
    ghost predicate Returned(k: Key, res: Result)
      reads cluster
    {
      var l := cluster.Here(k);
      && l.arPc.ArIdle?
      && l.asked == (res.requeue || res.err)
      && (l.asked ==> l.queued)
      && (!l.asked ==> l.ar.None? || l.ar.value.obj.status.state.Terminal())
    }

    /**
     What a reconcile leaves in the store: nothing if it fails before its writes,
     although the request in memory may have been rewritten; the writes in order,
     possibly cut short, if it gets there; and all of them if it asks for no more.
     */
    ghost predicate Kept(res: Result, stage: Stage, done: seq<Change>) {
      match stage
      case Gone => done == [] && res == Result(false, false)
      case NotRead => done == [] && res == Result(false, true)
      case NoIssuer(_) => done == [] && res == Result(false, true)
      case NotIssued(t) => done == [] && res == Result(t.out.IssueFailed?, t.out.IssuePanicked?)
      case NoRequest(_) => done == [] && res == Result(true, false)
      case Answered(t) => Written(res, t.status.state, done)
    }

    method Reconcile(k: Key) returns (res: Result, ghost stage: Stage, ghost done: seq<Change>)
      requires certificateRequests.cluster == cluster
      requires cluster.Valid() && cluster.Here(k).arPc.ArIdle? && cluster.Here(k).queued
      modifies cluster
      ensures cluster.Begins(ArController, k, done, Servers(stage)) && Returned(k, res)
      ensures Kept(res, stage, done) && Spoken(k, stage)
    {
      var got := cluster.ArGetsAr(k);
      if got.Missing? {
        return Result(false, false), Gone, [];
      }
      if got.Unavailable? {
        return Result(false, true), NotRead, [];
      }
      res, stage, done := Attempt(k, got.value);
    }

    method Attempt(k: Key, read: Versioned<Ar>) returns (res: Result, ghost stage: Stage, ghost done: seq<Change>)
      requires certificateRequests.cluster == cluster
      requires cluster.Valid() && cluster.Here(k).arPc == M.ArGetIssuer(read)
      modifies cluster
      ensures cluster.Tries(ArController, k, done, Servers(stage)) && Returned(k, res)
      ensures Kept(res, stage, done) && Spoken(k, stage)
      ensures stage == NoIssuer(read) ||
              ((stage.NotIssued? || stage.NoRequest? || stage.Answered?) && stage.talk.read == read)
    {
      var ar := new AdcsRequest(read);
      var resolved := factory.GetIssuer(ar.issuerRef, k.namespace);
      cluster.ArGotIssuer(k, if resolved.Some? then Some(resolved.value.url) else None);
      if resolved.None? {
        return Result(false, true), NoIssuer(read), [];
      }
      res, stage, done := Pursue(k, read, ar, resolved.value);
    }

    /** The issuer is at hand. */
    method Pursue(k: Key, read: Versioned<Ar>, ar: AdcsRequest, resolved: Resolved)
      returns (res: Result, ghost stage: Stage, ghost done: seq<Change>)
      requires certificateRequests.cluster == cluster
      requires ResolvesTo(factory.objects, factory.env, read.obj.issuerRef, k.namespace, resolved)
      requires ar.Value() == read && cluster.Valid() && Started(k, read, resolved.url)
      modifies cluster, ar`state, ar`id, ar`reason
      ensures cluster.Does(ArController, k, done) && Returned(k, res)
      ensures Kept(res, stage, done) && Spoken(k, stage)
      ensures stage.NotIssued? || stage.NoRequest? || stage.Answered?
      ensures stage.talk.read == read && stage.talk.resolved == resolved
    {
      ghost var talk;
      var out;
      out, talk := Obtain(k, ar, resolved);
      if !out.Issued? {
        return Result(out.IssueFailed?, out.IssuePanicked?), NotIssued(talk), [];
      }
      res, stage, done := Settle(k, read, ar, out, talk);
    }

    /** There is an answer. */
    method Settle(k: Key, read: Versioned<Ar>, ar: AdcsRequest, out: IssueResult, ghost talk: Talk)
      returns (res: Result, ghost stage: Stage, ghost done: seq<Change>)
      requires certificateRequests.cluster == cluster && out.Issued?
      requires Talks(k, talk) && talk.out == out && talk.status == ar.Status()
      requires ar.Value() == read.(obj := read.obj.(status := ar.Status()))
      requires cluster.Valid() && cluster.Here(k).arPc == M.ArGetCr(read, ar.Status(), out.cert, out.ca)
      modifies cluster
      ensures cluster.Does(ArController, k, done) && Returned(k, res)
      ensures Kept(res, stage, done) && Spoken(k, stage)
      ensures stage == NoRequest(talk) || stage == Answered(talk)
    {
      ghost var found;
      res, found, done := Conclude(k, read, ar, out);
      stage := if found then Answered(talk) else NoRequest(talk);
    }
  }
}
