/** For every script of server replies the two CA clients ask the same questions and come to the same end. */
module TwoClients {
  import opened Base
  import opened Pages
  import opened Http
  import opened NtlmClient
  import opened KerberosClient

  method SamePoll(url: string, parses: string -> bool, id: string, replies: seq<Reply>)
    returns (ntlm: Outcome, kerberos: Outcome, ntlmSent: seq<Request>, kerberosSent: seq<Request>)
    ensures ntlm == kerberos && ntlmSent == kerberosSent
    ensures Sound(ntlm) && (ntlm.Returned? ==> ntlm.id == id)
  {
    var http := new Transport(replies);
    var http' := new Transport(replies);
    var a := new NtlmCertsrv(url, http, parses);
    var b := new KerberosCertsrv(url, http', parses);
    ntlm := a.GetExistingCertificate(id);
    kerberos := b.GetExistingCertificate(id);
    ntlmSent, kerberosSent := http.sent, http'.sent;
    PollContract(id, Head(replies));
  }

  method SameSubmission(url: string, parses: string -> bool, csr: Bytes, template: string, replies: seq<Reply>)
    returns (ntlm: Outcome, kerberos: Outcome, ntlmSent: seq<Request>, kerberosSent: seq<Request>)
    ensures ntlm == kerberos && ntlmSent == kerberosSent
    ensures Sound(ntlm)
  {
    var http := new Transport(replies);
    var http' := new Transport(replies);
    var a := new NtlmCertsrv(url, http, parses);
    var b := new KerberosCertsrv(url, http', parses);
    ntlm := a.RequestCertificate(csr, template);
    kerberos := b.RequestCertificate(csr, template);
    ntlmSent, kerberosSent := http.sent, http'.sent;
    SubmitContract(url, parses, csr, template, replies);
  }

  /** The CA certificate or its chain, by page and content type. */
  method SameFetch(url: string, parses: string -> bool, page: string, expected: string, replies: seq<Reply>)
    returns (ntlm: Fetched, kerberos: Fetched, ntlmSent: seq<Request>, kerberosSent: seq<Request>)
    ensures Worth(ntlm) == Worth(kerberos) && ntlmSent == kerberosSent
    ensures !ntlm.FetchPanicked?
  {
    var http := new Transport(replies);
    var http' := new Transport(replies);
    var a := new NtlmCertsrv(url, http, parses);
    var b := new KerberosCertsrv(url, http', parses);
    ntlm := a.ObtainCaCertificate(page, expected);
    kerberos := b.ObtainCaCertificate(page, expected);
    ntlmSent, kerberosSent := http.sent, http'.sent;
  }
}
