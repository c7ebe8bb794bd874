/**
 What a client call promises, said in the words of the replies, the pages and the
 requests alone, and the proof that the meaning functions of Pages keep it.
 */
module Promises {
  import opened Base
  import Api
  import opened Regex
  import opened Scan
  import opened Pages

  // ---------- a status query ----------

  /** The content type up to its first semicolon is `media`. */
  predicate HasMediaType(contentType: string, media: string) {
    media <= contentType && ';' !in media && (|contentType| == |media| || contentType[|media|] == ';')
  }

  /** `line` is the line after the leftmost such label that has one. */
  ghost predicate HasLine(name: string, page: string, line: string) {
    exists i: nat :: FirstLineAt(name, page, i, line)
  }

  ghost predicate HasLabel(name: string, page: string) {
    exists i: nat :: LineStart(name, page, i).Some?
  }

  /** What an HTML page about request `id` is, and the text that goes with it. */
  ghost predicate PageIs(id: string, page: string, o: Outcome) {
    && o.Returned? && o.id == id
    && (o.failed <==> !HasLabel("Disposition message:", page))
    && (if !HasLabel("Disposition message:", page) then o.answer == Unknown
        else if Says("Taken Under Submissio", page) then o.answer == Pending
        else if Says("Denied b", page) then o.answer == Rejected
        else o.answer == Errored)
    && TextIs(page, o.text)
  }

  /** The disposition line, or "unknown", and the last-status line after a space, if there is one. */
  ghost predicate TextIs(page: string, text: string) {
    exists disposition, last ::
      text == disposition + last && DispositionIs(page, disposition) && LastStatusIs(page, last)
  }

  ghost predicate DispositionIs(page: string, text: string) {
    if HasLabel("Disposition message:", page) then HasLine("Disposition message:", page, text) else text == "unknown"
  }

  ghost predicate LastStatusIs(page: string, text: string) {
    if HasLabel("LastStatus:", page) then text != [] && text[0] == ' ' && HasLine("LastStatus:", page, text[1..])
    else text == ""
  }

  /** What the reply to a query about request `id` comes to. */
  ghost predicate QueryAnswered(id: string, reply: Reply, o: Outcome) {
    match reply
    case NoReply => o == Returned(Unknown, "", id, true)
    case Response(code, contentType, body, broken) =>
      if code != 200 then o == Panicked
      else if broken then o == Returned(Unknown, "", id, true)
      else if HasMediaType(contentType, "text/html") then PageIs(id, body, o)
      else if HasMediaType(contentType, "application/pkix-cert") then o == Returned(Ready, body, id, false)
      else o == Returned(Unknown, "", id, true)
  }

  /** The query is one GET, unless its URL does not parse: then there is a panic. */
  ghost predicate Queries(url: string, parses: string -> bool, id: string, reply: Reply, sent: seq<Request>,
                          o: Outcome)
  {
    var target := url + "/certnew.cer?ReqID=" + id + "&ENC=b64";
    if parses(target) then sent == [Get(target)] && QueryAnswered(id, reply, o) else sent == [] && o == Panicked
  }

  lemma {:induction false} MediaTypeIs(contentType: string, media: string)
    requires ';' !in media
    ensures MediaType(contentType) == media <==> HasMediaType(contentType, media)
    decreases |contentType|
  {
    if contentType != [] && contentType[0] != ';' {
      if media != [] {
        MediaTypeIs(contentType[1..], media[1..]);
        assert media == [media[0]] + media[1..] && contentType == [contentType[0]] + contentType[1..];
        assert MediaType(contentType)[1..] == MediaType(contentType[1..]);
      }
    }
  }

  lemma LineIs(name: string, page: string)
    ensures match Submatch(Labelled(name), page)
            case Some(line) => HasLabel(name, page) && HasLine(name, page, line)
            case None => !HasLabel(name, page)
  {
    LabelledLine(name, page);
    var found := Submatch(Labelled(name), page);
    if found.Some? {
      var i: nat :| FirstLineAt(name, page, i, found.value);
      assert LineStart(name, page, i).Some?;
    }
  }

  lemma LastStatusFound(page: string)
    ensures var last := Submatch(Labelled(LAST_STATUS), page);
            LastStatusIs(page, if last.Some? then " " + last.value else "")
  {
    LineIs("LastStatus:", page);
    var last := Submatch(Labelled(LAST_STATUS), page);
    if last.Some? { assert (" " + last.value)[1..] == last.value; }
  }

  lemma DispositionFound(page: string)
    ensures var found := Submatch(Labelled(DISPOSITION), page);
            DispositionIs(page, if found.Some? then found.value else "unknown")
  {
    LineIs("Disposition message:", page);
  }

  lemma HtmlTextIs(page: string)
    ensures TextIs(page, HtmlText(page))
  {
    DispositionFound(page);
    LastStatusFound(page);
  }

  lemma HtmlIs(id: string, page: string)
    ensures PageIs(id, page, Returned(HtmlAnswer(page), HtmlText(page), id, HtmlAnswer(page).Unknown?))
  {
    HtmlTextIs(page);
    LineIs("Disposition message:", page);
    PageSays("Taken Under Submissio", 'n', page);
    PageSays("Denied b", 'y', page);
  }

  lemma PollOutcomeIs(id: string, reply: Reply)
    ensures QueryAnswered(id, reply, PollOutcome(id, reply))
  {
    if reply.Response? {
      MediaTypeIs(reply.contentType, "text/html");
      MediaTypeIs(reply.contentType, "application/pkix-cert");
      HtmlIs(id, reply.body);
    }
  }

  lemma PollUrlIs(url: string, id: string)
    ensures PollUrl(url, id) == url + "/certnew.cer?ReqID=" + id + "&ENC=b64"
  {
    assert "/" + CERTNEW_CER + "?ReqID=" == "/certnew.cer?ReqID=";
    assert url + "/" + CERTNEW_CER + "?ReqID=" == url + ("/" + CERTNEW_CER + "?ReqID=");
  }

  lemma PollQueries(url: string, parses: string -> bool, id: string, replies: seq<Reply>)
    ensures var poll := Poll(url, parses, id, replies);
            Queries(url, parses, id, Head(replies), poll.sent, poll.result)
  {
    PollUrlIs(url, id);
    PollOutcomeIs(id, Head(replies));
  }

  // ---------- a submission ----------

  /** The request that submits `csr` under `template`. */
  predicate Submits(request: Request, url: string, csr: Bytes, template: string) {
    && request.Post? && request.url == url + "/certfnsh.asp"
    && request.form == [
         ("Mode", "newreq"),
         ("CertRequest", csr),
         ("CertAttrib", "CertificateTemplate:" + template),
         ("FriendlyType", "Saved-Request Certificate"),
         ("TargetStoreFlags", "0"),
         ("SaveCert", "yes"),
         ("CertificateTemplate", template)]
  }

  /** The number on the page after a submission: that of the first link, or, without one, that of the first notice. */
  ghost predicate HasNumber(page: string, n: string) {
    || (exists i: nat :: FirstLinkAt(page, i, n))
    || ((forall i: nat, d :: !LinkAt(page, i, d)) && exists i: nat :: FirstNoticeAt(page, i, n))
  }

  /** What a submission sends and what its two replies come to. */
  ghost predicate Submitted(url: string, parses: string -> bool, csr: Bytes, template: string, replies: seq<Reply>,
                            sent: seq<Request>, o: Outcome)
  {
    if !parses(url + "/certfnsh.asp") then sent == [] && o == Returned(Unknown, "", "", true)
    else
      && sent != [] && Submits(sent[0], url, csr, template)
      && match Head(replies)
         case NoReply => |sent| == 1 && o == Returned(Unknown, "", "", true)
         case Response(_, contentType, body, broken) =>
           if contentType == "application/pkix-cert" then |sent| == 1 && o == Returned(Ready, body, "none", false)
           else if broken || !exists n :: HasNumber(body, n) then |sent| == 1 && o == Returned(Unknown, "", "", true)
           else exists n :: HasNumber(body, n) && Queries(url, parses, n, Head(Drop(replies, 1)), sent[1..], o)
  }

  lemma PostUrlIs(url: string)
    ensures PostUrl(url) == url + "/certfnsh.asp"
  {
    assert "/" + CERTFNSH == "/certfnsh.asp";
    assert url + "/" + CERTFNSH == url + ("/" + CERTFNSH);
  }

  lemma PostedIdIs(page: string)
    ensures match PostedId(page)
            case Some(n) => HasNumber(page, n)
            case None => forall n :: !HasNumber(page, n)
  {
    LinkId(page);
    NoticeId(page);
    var link, notice := Submatch(LINK, page), Submatch(NOTICE, page);
    if link.None? && notice.None? {
      forall n, i: nat ensures !FirstNoticeAt(page, i, n) && !FirstLinkAt(page, i, n) {
        assert NoticeAt(page, i).None? && !LinkAt(page, i, n);
      }
    }
  }

  lemma SubmitIs(url: string, parses: string -> bool, csr: Bytes, template: string, replies: seq<Reply>)
    ensures var call := Submit(url, parses, csr, template, replies);
            Submitted(url, parses, csr, template, replies, call.sent, call.result)
  {
    PostUrlIs(url);
    var reply := Head(replies);
    if parses(PostUrl(url)) && reply.Response? {
      PostedIdIs(reply.body);
      var after := AfterPost(reply);
      if after.AskFor? {
        PollQueries(url, parses, after.id, Drop(replies, 1));
        var post, poll := Post(PostUrl(url), Form(csr, template)), Poll(url, parses, after.id, Drop(replies, 1));
        assert ([post] + poll.sent)[1..] == poll.sent;
      }
    }
  }

  // ---------- the CA certificate pages ----------

  /** The renewal number on the page: the leftmost one, or "0" if there is none. */
  ghost predicate HasRenewal(page: string, n: string) {
    || (exists i: nat :: FirstRenewalAt(page, i, n))
    || ((forall i: nat :: RenewalAt(page, i).None?) && n == "0")
  }

  function CaTarget(url: string, page: string, n: string): string {
    url + "/" + page + "?ReqID=CACert&ENC=b64&Renewal=" + n
  }

  /**
   A CA page is fetched with the renewal number found first; it is delivered
   exactly when its reply is a whole 200 of the expected type. Whether a failure
   is a panic depends on the client.
   */
  ghost predicate FetchedCa(kerberos: bool, url: string, parses: string -> bool, page: string, expected: string,
                            replies: seq<Reply>, sent: seq<Request>, f: Fetched)
  {
    var first, second := Head(replies), Head(Drop(replies, 1));
    if !parses(url + "/certcarc.asp") then sent == [] && f == (if kerberos then FetchPanicked else FetchFailed)
    else if first.NoReply? || first.broken then sent == [Get(url + "/certcarc.asp")] && f == FetchFailed
    else exists n ::
      && HasRenewal(first.body, n)
      && if !parses(CaTarget(url, page, n))
         then sent == [Get(url + "/certcarc.asp")] && f == (if kerberos then FetchPanicked else FetchFailed)
         else
           && sent == [Get(url + "/certcarc.asp"), Get(CaTarget(url, page, n))]
           && (f.Body? <==> IsWhole(second, expected))
           && (f.Body? ==> f.text == second.body)
           && (f.FetchPanicked? <==> kerberos && second.Response? && second.code != 200)
  }

  predicate IsWhole(reply: Reply, contentType: string) {
    reply.Response? && reply.code == 200 && reply.contentType == contentType && !reply.broken
  }

  lemma RenewalIs(page: string)
    ensures HasRenewal(page, Renewal(page))
  {
    RenewalNumber(page);
  }

  lemma FetchIs(kerberos: bool, url: string, parses: string -> bool, page: string, expected: string,
                replies: seq<Reply>)
    ensures var call := Fetch(kerberos, url, parses, page, expected, replies);
            FetchedCa(kerberos, url, parses, page, expected, replies, call.sent, call.result)
  {
    assert "/" + CERTCARC == "/certcarc.asp";
    assert CarcUrl(url) == url + ("/" + CERTCARC);
    var first := Head(replies);
    if first.Response? {
      RenewalIs(first.body);
      assert CaUrl(url, page, Renewal(first.body)) == CaTarget(url, page, Renewal(first.body));
    }
  }
}
