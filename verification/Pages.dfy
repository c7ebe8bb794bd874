/**
 What the answers of the certification authority's web pages mean: the meaning
 both clients give to an HTTP reply, as functions, with the contract the
 protocol relies on.
 */
module Pages {
  import opened Base
  import Api
  import opened Regex
  import opened Scan

  const CERTNEW_CER := "certnew.cer"
  const CERTNEW_P7B := "certnew.p7b"
  const CERTCARC := "certcarc.asp"
  const CERTFNSH := "certfnsh.asp"
  const CT_PKIX := "application/pkix-cert"
  const CT_PKCS7 := "application/x-pkcs7-certificates"
  const CT_HTML := "text/html"

  const DISPOSITION := "Disposition message:"
  const LAST_STATUS := "LastStatus:"

  // ---------- HTTP ----------

  datatype Request = Get(url: string) | Post(url: string, form: seq<(string, string)>)

  /** A body whose reading fails still yields the bytes read before. */
  datatype Reply = NoReply | Response(code: nat, contentType: string, body: Bytes, broken: bool)

  // ---------- results ----------

  datatype Answer = Unknown | Pending | Ready | Errored | Rejected

  /** The four results of a client call, or a panic; error texts are left out. */
  datatype Outcome = Panicked | Returned(answer: Answer, text: Bytes, id: string, failed: bool)

  datatype Fetched = FetchPanicked | FetchFailed | Body(text: Bytes)

  /** A panic counts as a failure. */
  predicate Failed(o: Outcome) { o.Panicked? || o.failed }

  // ---------- the page about a request ----------

  function MediaType(contentType: string): string {
    if contentType == [] || contentType[0] == ';' then [] else [contentType[0]] + MediaType(contentType[1..])
  }

  function HtmlAnswer(page: string): Answer {
    if Submatch(Labelled(DISPOSITION), page).None? then Unknown
    else if Matches(SUBMITTED, page) then Pending
    else if Matches(REFUSED, page) then Rejected
    else Errored
  }

  function HtmlText(page: string): string {
    var disposition := Submatch(Labelled(DISPOSITION), page);
    var last := Submatch(Labelled(LAST_STATUS), page);
    (if disposition.Some? then disposition.value else "unknown") + (if last.Some? then " " + last.value else "")
  }

  function PollOutcome(id: string, reply: Reply): Outcome {
    match reply
    case NoReply => Returned(Unknown, "", id, true)
    case Response(code, contentType, body, broken) =>
      if code != 200 then Panicked
      else if MediaType(contentType) == CT_HTML then
        if broken then Returned(Unknown, "", id, true)
        else Returned(HtmlAnswer(body), HtmlText(body), id, HtmlAnswer(body).Unknown?)
      else if MediaType(contentType) == CT_PKIX then
        if broken then Returned(Unknown, "", id, true) else Returned(Ready, body, id, false)
      else Returned(Unknown, "", id, true)
  }

  // ---------- the page after a submission ----------

  datatype PostOutcome = Done(outcome: Outcome) | AskFor(id: string)

  function PostedId(page: string): Option<string> {
    var link := Submatch(LINK, page);
    if link.Some? then link else Submatch(NOTICE, page)
  }

  function AfterPost(reply: Reply): PostOutcome {
    match reply
    case NoReply => Done(Returned(Unknown, "", "", true))
    case Response(_, contentType, body, broken) =>
      if contentType == CT_PKIX then Done(Returned(Ready, body, "none", false))
      else if broken then Done(Returned(Unknown, "", "", true))
      else if PostedId(body).Some? then AskFor(PostedId(body).value)
      else Done(Returned(Unknown, "", "", true))
  }

  function Renewal(page: string): string {
    var found := Submatch(RENEWALS, page);
    if found.Some? then found.value else "0"
  }

  /** The number that a page itself gives: that of its link, or all the digits of the notice that is read. */
  function PageNumber(page: string): Option<string> {
    var link, notice := Submatch(LINK, page), NoticeStart(page);
    if link.Some? then link else if notice.Some? then Some(DigitsAt(page, notice.value + 19)) else None
  }

  /** There is no link, and the number of the notice ends its line. */
  predicate NumberEndsLine(page: string) {
    var notice := NoticeStart(page);
    && Submatch(LINK, page).None? && notice.Some?
    && !LineGoesOn(page, notice.value + 19 + |DigitsAt(page, notice.value + 19)|)
  }

  // ---------- the contract ----------

  /** A client never says Unknown without an error, nor anything else with one. */
  predicate Sound(o: Outcome) { o.Returned? ==> (o.answer.Unknown? <==> o.failed) }

  /** Every status reply is classified soundly and carries the id that was asked for. */
  lemma PollContract(id: string, reply: Reply)
    ensures Sound(PollOutcome(id, reply))
    ensures PollOutcome(id, reply).Returned? ==> PollOutcome(id, reply).id == id
    ensures PollOutcome(id, reply).Panicked? <==> reply.Response? && reply.code != 200
  {}

  /**
   A number to ask about is decimal; a certificate that comes at once has the id
   "none", and is whatever body there was under its content type, even if it
   broke off.
   */
  lemma PostContract(reply: Reply)
    ensures match AfterPost(reply)
            case AskFor(id) => Api.IsDecimal(id)
            case Done(o) => Sound(o) && o.Returned? && o.id == (if o.failed then "" else "none")
                            && (!o.failed ==> o.answer.Ready? && reply.Response? && o.text == reply.body)
                            && (!o.failed <==> reply.Response? && reply.contentType == CT_PKIX)
  {
    if reply.Response? {
      LinkId(reply.body);
      NoticeId(reply.body);
      var d := PostedId(reply.body);
      if Submatch(LINK, reply.body).None? && d.Some? {
        var i: nat :| FirstNoticeAt(reply.body, i, d.value);
        NoticeIsWhole(reply.body, i);
      }
    }
  }

  /** A body that broke off is taken for good exactly under the content type of a certificate. */
  lemma BrokenReply(reply: Reply)
    requires reply.Response? && reply.broken
    ensures AfterPost(reply) == Done(Returned(Ready, reply.body, "none", false)) <==> reply.contentType == CT_PKIX
    ensures reply.contentType != CT_PKIX ==> AfterPost(reply) == Done(Returned(Unknown, "", "", true))
  {}

  /** The number that is read is the page's own, less its last digit if it ends its line. */
  lemma NumberRead(page: string)
    ensures PostedId(page).Some? <==> PageNumber(page).Some?
    ensures PostedId(page).Some? ==>
              var n := PageNumber(page).value;
              && Api.IsDecimal(n)
              && (if NumberEndsLine(page) then |n| >= 2 && PostedId(page) == Some(n[..|n| - 1])
                  else PostedId(page) == Some(n))
  {
    LinkId(page);
    var notice := NoticeStart(page);
    if notice.Some? { NoticeIsWhole(page, notice.value); }
  }

  /** The link form of the number wins over the notice. */
  lemma LinkWins(page: string, i: nat, d: string)
    requires FirstLinkAt(page, i, d)
    ensures PostedId(page) == Some(d)
  {
    LinkId(page);
    var d' := Submatch(LINK, page).value;
    var j: nat :| FirstLinkAt(page, j, d');
    OneId(page, i, d, d');
  }

  /**
   Which of the four an HTML page is: a page without a disposition line is an
   error; one that says "taken under submission" is pending, even if it also says
   "denied by"; one that says only the latter is rejected; any other is errored.
   */
  lemma PageClassification(page: string)
    ensures HtmlAnswer(page).Unknown? <==> forall i: nat :: LineStart(DISPOSITION, page, i).None?
    ensures HtmlAnswer(page).Pending? <==> !HtmlAnswer(page).Unknown? && Says(TAKEN, page)
    ensures HtmlAnswer(page).Rejected? <==> !HtmlAnswer(page).Unknown? && !Says(TAKEN, page) && Says(DENIED_B, page)
    ensures HtmlAnswer(page).Errored? <==> !HtmlAnswer(page).Unknown? && !Says(TAKEN, page) && !Says(DENIED_B, page)
    ensures !HtmlAnswer(page).Ready?
  {
    LabelledLine(DISPOSITION, page);
    PageSays(TAKEN, 'n', page);
    PageSays(DENIED_B, 'y', page);
  }

  // ---------- whole calls: what is asked, and what the answers make of it ----------

  function Head(replies: seq<Reply>): Reply { if replies == [] then NoReply else replies[0] }

  function Drop(replies: seq<Reply>, n: nat): seq<Reply> { if n <= |replies| then replies[n..] else [] }

  /** The result of a client call and the requests it sent; each request used up one reply. */
  datatype Exchange<+T> = Exchange(result: T, sent: seq<Request>)

  function PollUrl(base: string, id: string): string { base + "/" + CERTNEW_CER + "?ReqID=" + id + "&ENC=b64" }

  function PostUrl(base: string): string { base + "/" + CERTFNSH }

  function CarcUrl(base: string): string { base + "/" + CERTCARC }

  function CaUrl(base: string, page: string, renewal: string): string {
    base + "/" + page + "?ReqID=CACert&ENC=b64&Renewal=" + renewal
  }

  function Form(csr: Bytes, template: string): seq<(string, string)> {
    [("Mode", "newreq"), ("CertRequest", csr), ("CertAttrib", "CertificateTemplate:" + template),
     ("FriendlyType", "Saved-Request Certificate"), ("TargetStoreFlags", "0"), ("SaveCert", "yes"),
     ("CertificateTemplate", template)]
  }

  /** `parses` says which URLs make a request; without one the call panics. */
  function Poll(base: string, parses: string -> bool, id: string, replies: seq<Reply>): Exchange<Outcome> {
    if !parses(PollUrl(base, id)) then Exchange(Panicked, [])
    else Exchange(PollOutcome(id, Head(replies)), [Get(PollUrl(base, id))])
  }

  function Submit(base: string, parses: string -> bool, csr: Bytes, template: string, replies: seq<Reply>)
    : Exchange<Outcome>
  {
    if !parses(PostUrl(base)) then Exchange(Returned(Unknown, "", "", true), [])
    else
      var post := Post(PostUrl(base), Form(csr, template));
      match AfterPost(Head(replies))
      case Done(outcome) => Exchange(outcome, [post])
      case AskFor(id) =>
        var poll := Poll(base, parses, id, Drop(replies, 1));
        Exchange(poll.result, [post] + poll.sent)
  }

  /** The CA certificate pages; where the NTLM client returns an error the Kerberos client may panic. */
  function Fetch(kerberos: bool, base: string, parses: string -> bool, page: string, expected: string,
                 replies: seq<Reply>): Exchange<Fetched>
  {
    var broken := if kerberos then FetchPanicked else FetchFailed;
    if !parses(CarcUrl(base)) then Exchange(broken, [])
    else
      var first := Head(replies);
      if first.NoReply? || first.broken then Exchange(FetchFailed, [Get(CarcUrl(base))])
      else
        var target := CaUrl(base, page, Renewal(first.body));
        if !parses(target) then Exchange(broken, [Get(CarcUrl(base))])
        else
          var sent := [Get(CarcUrl(base)), Get(target)];
          var second := Head(Drop(replies, 1));
          if second.NoReply? then Exchange(FetchFailed, sent)
          else if second.code != 200 then Exchange(broken, sent)
          else if second.contentType != expected || second.broken then Exchange(FetchFailed, sent)
          else Exchange(Body(second.body), sent)
  }

  /** Panic counted as failure. */
  function Worth(f: Fetched): Fetched { if f.FetchPanicked? then FetchFailed else f }

  /** Whatever a submission comes to: sound, with a decimal id or "none" when it succeeds. */
  lemma SubmitContract(base: string, parses: string -> bool, csr: Bytes, template: string, replies: seq<Reply>)
    ensures var o := Submit(base, parses, csr, template, replies).result;
            && Sound(o)
            && (!Failed(o) ==> Api.IsDecimal(o.id) || (o.id == "none" && o.answer.Ready?))
  {
    PostContract(Head(replies));
    var after := AfterPost(Head(replies));
    if after.AskFor? { PollContract(after.id, Head(Drop(replies, 1))); }
  }
}
