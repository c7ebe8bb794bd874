/**
 One attempt to obtain a certificate: Issue asks the CA, rewrites the status of
 the request it was given in place, and fetches the CA chain.
 */
module Issuing {
  import opened Base
  import opened Api
  import opened Invariant
  import opened Http
  import opened Promises
  import opened NtlmClient
  import opened KerberosClient
  import P = Pages
  import M = Protocol

  /** The in-memory copy of an AdcsRequest that Issue works on. */
  class AdcsRequest {
    var uid: nat
    var owner: nat
    var csr: Bytes
    var issuerRef: IssuerRef
    var version: nat
    var state: State
    var id: string
    var reason: string

    constructor (from: Versioned<Ar>)
      ensures Value() == from
    {
      uid := from.obj.uid;
      owner := from.obj.owner;
      csr := from.obj.csr;
      issuerRef := from.obj.issuerRef;
      version := from.version;
      state := from.obj.status.state;
      id := from.obj.status.id;
      reason := from.obj.status.reason;
    }

    function Status(): ArStatus
      reads this
    {
      ArStatus(state, id, reason)
    }

    function Value(): Versioned<Ar>
      reads this
    {
      Versioned(Ar(uid, owner, csr, issuerRef, Status()), version)
    }
  }

  // ---------- the CA certificate ----------

  /** PEM, X.509 and PKCS #7 decoding are libraries: any partial functions. */
  datatype Codec = Codec(pem: Bytes -> Option<Bytes>, x509: Bytes -> bool,
                         pkcs7: Bytes -> Option<seq<Bytes>>, encode: Bytes -> Bytes)

  /** `raw` is the first non-empty certificate of the list. */
  ghost predicate FirstNonEmpty(certificates: seq<Bytes>, raw: Bytes) {
    exists i :: && 0 <= i < |certificates| && certificates[i] == raw && raw != []
                && forall j | 0 <= j < i :: certificates[j] == []
  }

  function PickCertificate(certificates: seq<Bytes>): (r: Option<Bytes>)
    ensures r.Some? ==> FirstNonEmpty(certificates, r.value)
    ensures r.None? ==> forall i | 0 <= i < |certificates| :: certificates[i] == []
  {
    if certificates == [] then None
    else if certificates[0] != [] then Some(certificates[0])
    else
      var r := PickCertificate(certificates[1..]);
      assert r.Some? ==> forall i | 0 <= i < |certificates| - 1 :: certificates[1..][i] == certificates[i + 1];
      assert r.None? ==> forall i | 0 < i < |certificates| :: certificates[i] == certificates[1..][i - 1];
      r
  }

  lemma OnlyOneFirst(certificates: seq<Bytes>, a: Bytes, b: Bytes)
    requires FirstNonEmpty(certificates, a) && FirstNonEmpty(certificates, b)
    ensures a == b
  {
    var i :| && 0 <= i < |certificates| && certificates[i] == a && a != []
             && forall j | 0 <= j < i :: certificates[j] == [];
    var k :| && 0 <= k < |certificates| && certificates[k] == b && b != []
             && forall j | 0 <= j < k :: certificates[j] == [];
  }

  function TryParse(codec: Codec, block: Bytes): Option<Bytes> {
    if codec.x509(block) then Some(block)
    else
      var certificates := codec.pkcs7(block);
      if certificates.None? then None else PickCertificate(certificates.value)
  }

  method TryParseX509(codec: Codec, block: Bytes) returns (out: Option<Bytes>)
    ensures out == TryParse(codec, block)
  {
    if codec.x509(block) {
      return Some(block);
    }
    var b := codec.pkcs7(block);
    if b.None? || |b.value| == 0 {
      return None;
    }
    for i := 0 to |b.value|
      invariant forall j | 0 <= j < i :: b.value[j] == []
    {
      if |b.value[i]| != 0 {
        assert FirstNonEmpty(b.value, b.value[i]);
        if PickCertificate(b.value).Some? {
          OnlyOneFirst(b.value, b.value[i], PickCertificate(b.value).value);
        }
        return Some(b.value[i]);
      }
    }
    return None;
  }

  function CaOf(codec: Codec, chain: Bytes): Option<Bytes> {
    var block := codec.pem(chain);
    if block.None? then None
    else
      var b := TryParse(codec, block.value);
      if b.None? then None else Some(codec.encode(b.value))
  }

  /** These CA bytes encode the certificate in the first PEM block of the chain, or the first one of its list. */
  ghost predicate IsCaOf(codec: Codec, chain: Bytes, ca: Bytes) {
    exists block, raw ::
      && codec.pem(chain) == Some(block) && ca == codec.encode(raw)
      && if codec.x509(block) then raw == block
         else codec.pkcs7(block).Some? && FirstNonEmpty(codec.pkcs7(block).value, raw)
  }

  /** The chain has CA bytes exactly when there is such a certificate, and then they are its encoding. */
  lemma CaMeaning(codec: Codec, chain: Bytes)
    ensures match CaOf(codec, chain)
            case Some(ca) => IsCaOf(codec, chain, ca)
            case None => forall ca :: !IsCaOf(codec, chain, ca)
    ensures forall ca, other :: IsCaOf(codec, chain, ca) && IsCaOf(codec, chain, other) ==> ca == other
  {
    forall ca, other | IsCaOf(codec, chain, ca) && IsCaOf(codec, chain, other) ensures ca == other {
      var block, raw, raw' :| && codec.pem(chain) == Some(block)
                              && ca == codec.encode(raw) && other == codec.encode(raw')
                              && (codec.x509(block) ==> raw == block && raw' == block)
                              && (!codec.x509(block) ==>
                                  && codec.pkcs7(block).Some?
                                  && FirstNonEmpty(codec.pkcs7(block).value, raw)
                                  && FirstNonEmpty(codec.pkcs7(block).value, raw'));
      if !codec.x509(block) { OnlyOneFirst(codec.pkcs7(block).value, raw, raw'); }
    }
  }

  /** The codec can read back a certificate it wrote, and the certificates of a list are certificates. */
  ghost predicate Consistent(codec: Codec) {
    && (forall raw :: codec.pem(codec.encode(raw)) == Some(raw))
    && (forall block, raw | codec.pkcs7(block).Some? && raw in codec.pkcs7(block).value && raw != [] :: codec.x509(raw))
  }

  /** The CA bytes are themselves a chain of one certificate: parsing them gives them back. */
  lemma CaParsesToItself(codec: Codec, chain: Bytes)
    requires Consistent(codec) && CaOf(codec, chain).Some?
    ensures CaOf(codec, CaOf(codec, chain).value) == CaOf(codec, chain)
  {
    var block := codec.pem(chain).value;
    var raw := TryParse(codec, block).value;
    assert codec.x509(raw);
    assert codec.pem(codec.encode(raw)) == Some(raw);
  }

  method ParseCaCert(codec: Codec, chain: Bytes) returns (out: Option<Bytes>)
    ensures out == CaOf(codec, chain)
    ensures match out
            case Some(ca) => IsCaOf(codec, chain, ca)
            case None => forall ca :: !IsCaOf(codec, chain, ca)
  {
    CaMeaning(codec, chain);
    var block := codec.pem(chain);
    if block.None? {
      return None;
    }
    var b := TryParseX509(codec, block.value);
    if b.None? {
      return None;
    }
    return Some(codec.encode(b.value));
  }

  // ---------- the issuer ----------

  datatype CertServ = Ntlm(ntlm: NtlmCertsrv) | Kerberos(kerberos: KerberosCertsrv) {
    function Http(): Transport { if Ntlm? then ntlm.http else kerberos.http }
    function Url(): string { if Ntlm? then ntlm.url else kerberos.url }
    function Parses(): string -> bool { if Ntlm? then ntlm.parses else kerberos.parses }
  }

  datatype IssueResult = IssuePanicked | IssueFailed | Issued(cert: Bytes, ca: Bytes)

  /** How the answer of the CA is written into the status. */
  function Rewritten(st: ArStatus, o: P.Outcome): ArStatus
    requires o.Returned?
  {
    match o.answer
    case Pending => ArStatus(Pending, o.id, o.text)
    case Ready => ArStatus(Ready, o.id, M.OBTAINED)
    case Rejected => ArStatus(Rejected, o.id, o.text)
    case Errored => ArStatus(Errored, o.id, o.text)
    case Unknown => st
  }

  /** What is sent to an issuer, and what it makes of a request and a script of replies. */
  datatype Setup = Setup(kerberos: bool, url: string, parses: string -> bool, template: string, codec: Codec)

  datatype Attempt = Attempt(result: IssueResult, status: ArStatus, sent: seq<P.Request>)

  function Ask(s: Setup, csr: Bytes, st: ArStatus, replies: seq<P.Reply>): P.Exchange<P.Outcome> {
    if st.state.Unknown? then P.Submit(s.url, s.parses, csr, s.template, replies)
    else P.Poll(s.url, s.parses, st.id, replies)
  }

  function Chain(s: Setup, replies: seq<P.Reply>): P.Exchange<P.Fetched> {
    P.Fetch(s.kerberos, s.url, s.parses, P.CERTNEW_P7B, P.CT_PKCS7, replies)
  }

  /** The CA bytes for a fetched chain, if there are any. */
  function UsableCa(codec: Codec, chain: P.Fetched): Option<Bytes> {
    if !chain.Body? || chain.text == [] then None
    else
      var ca := CaOf(codec, chain.text);
      if ca.None? || ca.value == [] then None else ca
  }

  /** A certificate is delivered only together with usable CA bytes. */
  function WithChain(cert: Bytes, codec: Codec, chain: P.Fetched): IssueResult {
    if chain.FetchPanicked? then IssuePanicked
    else
      var ca := UsableCa(codec, chain);
      if ca.None? then IssueFailed else Issued(cert, ca.value)
  }

  function IssueAttempt(s: Setup, csr: Bytes, st: ArStatus, replies: seq<P.Reply>): Attempt {
    if st.state.Terminal() then Attempt(Issued([], []), st, [])
    else if st.state.Pending? && st.id == "" then Attempt(IssueFailed, st, [])
    else
      var ask := Ask(s, csr, st, replies);
      if ask.result.Panicked? then Attempt(IssuePanicked, st, ask.sent)
      else if ask.result.failed then Attempt(IssueFailed, st, ask.sent)
      else
        var st' := Rewritten(st, ask.result);
        var cert := if ask.result.answer.Ready? then ask.result.text else [];
        var chain := Chain(s, P.Drop(replies, |ask.sent|));
        Attempt(WithChain(cert, s.codec, chain.result), st', ask.sent + chain.sent)
  }

  // ---------- what an attempt promises ----------

  /** The status says what the CA answered. */
  predicate StatusSays(st: ArStatus, o: P.Outcome)
    requires o.Returned?
  {
    && (st.state.Pending? <==> o.answer.Pending?)
    && (st.state.Ready? <==> o.answer.Ready?)
    && (st.state.Rejected? <==> o.answer.Rejected?)
    && (st.state.Errored? <==> o.answer.Errored?)
    && st.id == o.id
    && st.reason == if o.answer.Ready? then "certificate obtained successfully" else o.text
  }

  /** What was asked of the CA about the request itself, and what came of it. */
  ghost predicate AskedCa(s: Setup, csr: Bytes, st: ArStatus, replies: seq<P.Reply>, sent: seq<P.Request>,
                          o: P.Outcome)
  {
    if st.state.Unknown? then Submitted(s.url, s.parses, csr, s.template, replies, sent, o)
    else Queries(s.url, s.parses, st.id, P.Head(replies), sent, o)
  }

  /** What was asked of the CA about its own certificate, and what came of it. */
  ghost predicate AskedChain(s: Setup, replies: seq<P.Reply>, sent: seq<P.Request>, f: P.Fetched) {
    FetchedCa(s.kerberos, s.url, s.parses, "certnew.p7b", "application/x-pkcs7-certificates", replies, sent, f)
  }

  /** A chain that was fetched is delivered as the encoding of its certificate, if it has one. */
  ghost predicate DeliversCa(codec: Codec, f: P.Fetched, out: IssueResult) {
    && (out.Issued? <==> f.Body? && f.text != [] && exists ca :: ca != [] && IsCaOf(codec, f.text, ca))
    && (out.Issued? ==> IsCaOf(codec, f.text, out.ca))
    && (out.IssuePanicked? <==> f.FetchPanicked?)
  }

  ghost predicate CaDelivered(s: Setup, replies: seq<P.Reply>, sent: seq<P.Request>, out: IssueResult) {
    exists f :: AskedChain(s, replies, sent, f) && DeliversCa(s.codec, f, out)
  }

  lemma CaIsDelivered(s: Setup, replies: seq<P.Reply>)
    ensures var chain := Chain(s, replies);
            CaDelivered(s, replies, chain.sent, WithChain([], s.codec, chain.result))
  {
    var chain := Chain(s, replies);
    FetchIs(s.kerberos, s.url, s.parses, "certnew.p7b", "application/x-pkcs7-certificates", replies);
    assert AskedChain(s, replies, chain.sent, chain.result);
    ChainDelivers(s, [], chain.result);
  }

  /**
   One Issue, in terms of the replies and the requests sent: a finished request is
   left alone; otherwise the CA is asked, the answer goes into the status, the
   chain is fetched with the replies that are left, and certificate and CA bytes
   are delivered together.
   */
  ghost predicate IssueIs(s: Setup, csr: Bytes, st: ArStatus, replies: seq<P.Reply>, sent: seq<P.Request>,
                          out: IssueResult, st': ArStatus)
  {
    if st.state.Terminal() then out == Issued([], []) && st' == st && sent == []
    else if st.state.Pending? && st.id == "" then out == IssueFailed && st' == st && sent == []
    else
      exists asked, o ::
        AskedCa(s, csr, st, replies, asked, o) && Concludes(s, st, replies, asked, o, sent, out, st')
  }

  ghost predicate Concludes(s: Setup, st: ArStatus, replies: seq<P.Reply>, asked: seq<P.Request>, o: P.Outcome,
                            sent: seq<P.Request>, out: IssueResult, st': ArStatus)
  {
    if P.Failed(o) then sent == asked && st' == st && out == (if o.Panicked? then IssuePanicked else IssueFailed)
    else
      && StatusSays(st', o)
      && (out.Issued? ==> out.cert == if o.answer.Ready? then o.text else [])
      && exists fetched, f ::
           && AskedChain(s, P.Drop(replies, |asked|), fetched, f) && DeliversCa(s.codec, f, out)
           && sent == asked + fetched
  }

  lemma ChainDelivers(s: Setup, cert: Bytes, f: P.Fetched)
    ensures DeliversCa(s.codec, f, WithChain(cert, s.codec, f))
  {
    if f.Body? {
      CaMeaning(s.codec, f.text);
    }
  }

  lemma AnswerConcludes(s: Setup, st: ArStatus, replies: seq<P.Reply>, asked: seq<P.Request>, o: P.Outcome)
    requires !P.Failed(o) && P.Sound(o)
    ensures var chain := Chain(s, P.Drop(replies, |asked|));
            var cert := if o.answer.Ready? then o.text else [];
            var out := WithChain(cert, s.codec, chain.result);
            Concludes(s, st, replies, asked, o, asked + chain.sent, out, Rewritten(st, o))
  {
    var rest := P.Drop(replies, |asked|);
    var chain := Chain(s, rest);
    FetchIs(s.kerberos, s.url, s.parses, "certnew.p7b", "application/x-pkcs7-certificates", rest);
    assert AskedChain(s, rest, chain.sent, chain.result);
    ChainDelivers(s, if o.answer.Ready? then o.text else [], chain.result);
  }

  lemma AttemptIs(s: Setup, csr: Bytes, st: ArStatus, replies: seq<P.Reply>)
    ensures var a := IssueAttempt(s, csr, st, replies);
            IssueIs(s, csr, st, replies, a.sent, a.result, a.status)
  {
    if !st.state.Terminal() && !(st.state.Pending? && st.id == "") {
      var ask := Ask(s, csr, st, replies);
      if st.state.Unknown? {
        SubmitIs(s.url, s.parses, csr, s.template, replies);
        P.SubmitContract(s.url, s.parses, csr, s.template, replies);
      } else {
        PollQueries(s.url, s.parses, st.id, replies);
        P.PollContract(st.id, P.Head(replies));
      }
      assert AskedCa(s, csr, st, replies, ask.sent, ask.result);
      if !P.Failed(ask.result) { AnswerConcludes(s, st, replies, ask.sent, ask.result); }
    }
  }

  /**
   What an attempt sends: a submission first for a new request, a query with its
   own id first for a pending one, and nothing but queries after that; nothing at
   all for a finished one.
   */
  ghost predicate Polite(s: Setup, csr: Bytes, st: ArStatus, sent: seq<P.Request>) {
    && (forall i | 1 <= i < |sent| :: sent[i].Get?)
    && (sent != [] ==>
      && !st.state.Terminal()
      && sent[0] == if st.state.Unknown? then P.Post(P.PostUrl(s.url), P.Form(csr, s.template))
                    else P.Get(P.PollUrl(s.url, st.id)))
  }

  /** So at most one submission is made in an attempt, and none for a request that has an answer. */
  lemma AttemptSends(s: Setup, csr: Bytes, st: ArStatus, replies: seq<P.Reply>)
    requires WellFormed(st)
    ensures Polite(s, csr, st, IssueAttempt(s, csr, st, replies).sent)
  {
    if !st.state.Terminal() {
      var ask := Ask(s, csr, st, replies);
      assert Polite(s, csr, st, ask.sent);
      assert ask.sent == [] ==> P.Failed(ask.result);
      var chain := Chain(s, P.Drop(replies, |ask.sent|));
      assert forall r | r in chain.sent :: r.Get?;
    }
  }

  /**
   On any replies, an attempt that delivers moves the status as the protocol
   allows and brings the CA bytes of the chain that answered its last request, and
   a certificate only when it is ready; a finished request is left alone.
   */
  lemma AttemptContract(s: Setup, csr: Bytes, st: ArStatus, replies: seq<P.Reply>)
    requires WellFormed(st)
    ensures var a := IssueAttempt(s, csr, st, replies);
            && (st.state.Terminal() ==> a == Attempt(Issued([], []), st, []))
            && (a.result.Issued? ==>
                && Follows(st, a.status)
                && (!st.state.Terminal() ==> a.result.ca != [] && FromLastReply(s, replies, a.sent, a.result.ca))
                && (!a.status.state.Ready? ==> a.result.cert == []))
  {
    if st.state.Unknown? {
      P.SubmitContract(s.url, s.parses, csr, s.template, replies);
    } else if st.state.Pending? {
      P.PollContract(st.id, P.Head(replies));
    }
    if !st.state.Terminal() && IssueAttempt(s, csr, st, replies).result.Issued? {
      LastReply(s, replies, Ask(s, csr, st, replies).sent);
    }
  }

  /** The last request was for the chain, its reply is a whole one, and these are the CA bytes of that. */
  ghost predicate FromLastReply(s: Setup, replies: seq<P.Reply>, sent: seq<P.Request>, ca: Bytes) {
    && 2 <= |sent| <= |replies|
    && IsWhole(replies[|sent| - 1], "application/x-pkcs7-certificates")
    && (exists n :: sent[|sent| - 1] == P.Get(CaTarget(s.url, "certnew.p7b", n)))
    && IsCaOf(s.codec, replies[|sent| - 1].body, ca)
  }

  lemma LastReply(s: Setup, replies: seq<P.Reply>, asked: seq<P.Request>)
    requires var chain := Chain(s, P.Drop(replies, |asked|)); UsableCa(s.codec, chain.result).Some?
    ensures var chain := Chain(s, P.Drop(replies, |asked|));
            FromLastReply(s, replies, asked + chain.sent, UsableCa(s.codec, chain.result).value)
  {
    var rest := P.Drop(replies, |asked|);
    var chain := Chain(s, rest);
    FetchIs(s.kerberos, s.url, s.parses, "certnew.p7b", "application/x-pkcs7-certificates", rest);
    CaMeaning(s.codec, chain.result.text);
    assert P.Head(P.Drop(rest, 1)) == replies[|asked| + 1];
  }

  /**
   A failed attempt may have rewritten the status in memory: it did so exactly
   when the CA answered, with something new, and its chain could not be used. The
   answer to a new request is always something new.
   */
  lemma FailureMayRewrite(s: Setup, csr: Bytes, st: ArStatus, replies: seq<P.Reply>)
    requires WellFormed(st) && !st.state.Terminal()
    ensures var a := IssueAttempt(s, csr, st, replies);
            var ask := Ask(s, csr, st, replies);
            var chain := Chain(s, P.Drop(replies, |ask.sent|)).result;
            && (!a.result.Issued? && a.status != st <==>
                && !P.Failed(ask.result) && UsableCa(s.codec, chain).None?
                && Rewritten(st, ask.result) != st)
            && (st.state.Unknown? && !P.Failed(ask.result) ==> Rewritten(st, ask.result) != st)
  {
    P.SubmitContract(s.url, s.parses, csr, s.template, replies);
  }

  class Issuer {
    const certServ: CertServ
    const templateName: string
    const codec: Codec

    constructor (certServ: CertServ, templateName: string, codec: Codec)
      ensures this.certServ == certServ && this.templateName == templateName && this.codec == codec
    {
      this.certServ := certServ;
      this.templateName := templateName;
      this.codec := codec;
    }

    function SetupOf(): Setup {
      Setup(certServ.Kerberos?, certServ.Url(), certServ.Parses(), templateName, codec)
    }

    /** The CA is asked about a pending request, or given a new one. */
    method AskCa(state: State, id: string, csr: Bytes) returns (out: P.Outcome)
      modifies certServ.Http()
      ensures var http := certServ.Http();
              var ask := Ask(SetupOf(), csr, ArStatus(state, id, ""), old(http.replies));
              out == ask.result && http.Served(old(http.replies), old(http.sent), ask.sent)
    {
      if state != State.Unknown {
        out := Query(id);
      } else {
        out := Request(csr);
      }
    }

    /** The CA chain, parsed and encoded. */
    method FetchCa() returns (out: IssueResult)
      modifies certServ.Http()
      ensures var http := certServ.Http();
              var chain := Chain(SetupOf(), old(http.replies));
              && out == WithChain([], codec, chain.result)
              && http.Served(old(http.replies), old(http.sent), chain.sent)
      ensures var http := certServ.Http();
              exists asked :: && http.Served(old(http.replies), old(http.sent), asked)
                              && CaDelivered(SetupOf(), old(http.replies), asked, out)
    {
      CaIsDelivered(SetupOf(), certServ.Http().replies);
      var chain := FetchChain();
      if chain.FetchPanicked? {
        return IssuePanicked;
      }
      if chain.FetchFailed? || |chain.text| == 0 {
        return IssueFailed;
      }
      var ca := ParseCaCert(codec, chain.text);
      if ca.None? || |ca.value| == 0 {
        return IssueFailed;
      }
      return Issued([], ca.value);
    }

    /** The answer is written into the request's status, in place. */
    method Record(ar: AdcsRequest, answer: P.Outcome) returns (cert: Bytes)
      requires answer.Returned?
      modifies ar`state, ar`id, ar`reason
      ensures ar.Status() == Rewritten(old(ar.Status()), answer)
      ensures !answer.answer.Unknown? ==> StatusSays(ar.Status(), answer)
      ensures cert == if answer.answer.Ready? then answer.text else []
    {
      cert := [];
      match answer.answer {
        case Pending =>
          ar.state := State.Pending;
          ar.id := answer.id;
          ar.reason := answer.text;
        case Ready =>
          ar.state := State.Ready;
          ar.id := answer.id;
          ar.reason := M.OBTAINED;
          cert := answer.text;
        case Rejected =>
          ar.state := State.Rejected;
          ar.id := answer.id;
          ar.reason := answer.text;
        case Errored =>
          ar.state := State.Errored;
          ar.id := answer.id;
          ar.reason := answer.text;
        case Unknown =>
      }
    }

    method Issue(ar: AdcsRequest) returns (out: IssueResult)
      modifies ar`state, ar`id, ar`reason, certServ.Http()
      ensures var http := certServ.Http();
              var attempt := IssueAttempt(SetupOf(), ar.csr, old(ar.Status()), old(http.replies));
              && out == attempt.result
              && ar.Status() == attempt.status
              && http.Served(old(http.replies), old(http.sent), attempt.sent)
      ensures var http := certServ.Http();
              var st := old(ar.Status());
              exists asked :: && http.Served(old(http.replies), old(http.sent), asked)
                              && IssueIs(SetupOf(), ar.csr, st, old(http.replies), asked, out, ar.Status())
    {
      AttemptIs(SetupOf(), ar.csr, ar.Status(), certServ.Http().replies);
      if ar.state != State.Unknown {
        if ar.state == State.Pending {
          if ar.id == "" {
            return IssueFailed;
          }
        } else {
          return Issued([], []);
        }
      }
      var answer := AskCa(ar.state, ar.id, ar.csr);
      if answer.Panicked? {
        return IssuePanicked;
      }
      if answer.failed {
        return IssueFailed;
      }
      var cert := Record(ar, answer);
      ghost var ask := Ask(SetupOf(), ar.csr, old(ar.Status()), old(certServ.Http().replies));
      var ca := FetchCa();
      certServ.Http().ServedTwice(old(certServ.Http().replies), old(certServ.Http().sent), ask.sent,
                                  Chain(SetupOf(), P.Drop(old(certServ.Http().replies), |ask.sent|)).sent);
      if !ca.Issued? {
        return ca;
      }
      return Issued(cert, ca.ca);
    }

    // the calls through the AdcsCertsrv interface

    method Query(id: string) returns (out: P.Outcome)
      modifies certServ.Http()
      ensures var http := certServ.Http();
              var call := P.Poll(certServ.Url(), certServ.Parses(), id, old(http.replies));
              out == call.result && http.Served(old(http.replies), old(http.sent), call.sent)
    {
      match certServ
      case Ntlm(n) => out := n.GetExistingCertificate(id);
      case Kerberos(k) => out := k.GetExistingCertificate(id);
    }

    method Request(csr: Bytes) returns (out: P.Outcome)
      modifies certServ.Http()
      ensures var http := certServ.Http();
              var call := P.Submit(certServ.Url(), certServ.Parses(), csr, templateName, old(http.replies));
              out == call.result && http.Served(old(http.replies), old(http.sent), call.sent)
    {
      match certServ
      case Ntlm(n) => out := n.RequestCertificate(csr, templateName);
      case Kerberos(k) => out := k.RequestCertificate(csr, templateName);
    }

    method FetchChain() returns (out: P.Fetched)
      modifies certServ.Http()
      ensures var http := certServ.Http();
              var call := Chain(SetupOf(), old(http.replies));
              out == call.result && http.Served(old(http.replies), old(http.sent), call.sent)
    {
      match certServ
      case Ntlm(n) => out := n.GetCaCertificateChain();
      case Kerberos(k) => out := k.GetCaCertificateChain();
    }
  }
}
