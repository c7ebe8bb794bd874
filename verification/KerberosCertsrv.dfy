/** The CA client with Kerberos authentication: a second copy, with its own ways to fail. */
module KerberosClient {
  import opened Base
  import opened Regex
  import opened Scan
  import opened Pages
  import opened Http
  import opened Promises

  class KerberosCertsrv {
    const url: string
    const http: Transport
    const parses: string -> bool

    constructor (url: string, http: Transport, parses: string -> bool)
      ensures this.url == url && this.http == http && this.parses == parses
    {
      this.url := url;
      this.http := http;
      this.parses := parses;
    }

    method GetExistingCertificate(id: string) returns (out: Outcome)
      modifies http
      ensures var call := Poll(url, parses, id, old(http.replies));
              out == call.result && http.Served(old(http.replies), old(http.sent), call.sent)
      ensures exists asked :: http.Served(old(http.replies), old(http.sent), asked) &&
                              Queries(url, parses, id, Head(old(http.replies)), asked, out)
    {
      PollQueries(url, parses, id, http.replies);
      var certStatus := Answer.Unknown;
      var target := PollUrl(url, id);
      if !parses(target) {
        return Panicked;
      }
      var res := http.Do(Get(target));
      if res.NoReply? {
        return Returned(certStatus, "", id, true);
      }
      if res.code == 200 {
        var ct := MediaType(res.contentType);
        if ct == CT_HTML {
          if res.broken {
            return Returned(certStatus, "", id, true);
          }
          var err := false;
          var dispositionMessage := "unknown";
          var found := Submatch(Labelled(DISPOSITION), res.body);
          if found.Some? {
            dispositionMessage := found.value;
            if Matches(SUBMITTED, res.body) {
              certStatus := Answer.Pending;
            } else if Matches(REFUSED, res.body) {
              certStatus := Answer.Rejected;
            } else {
              certStatus := Answer.Errored;
            }
          } else {
            err := true;
          }
          var lastStatusMessage := "";
          found := Submatch(Labelled(LAST_STATUS), res.body);
          if found.Some? {
            lastStatusMessage := " " + found.value;
          }
          return Returned(certStatus, dispositionMessage + lastStatusMessage, id, err);
        } else if ct == CT_PKIX {
          if res.broken {
            return Returned(certStatus, "", id, true);
          }
          return Returned(Answer.Ready, res.body, id, false);
        } else {
          return Returned(certStatus, "", id, true);
        }
      }
      // the error text is taken from a nil error
      return Panicked;
    }

    method RequestCertificate(csr: Bytes, template: string) returns (out: Outcome)
      modifies http
      ensures var call := Submit(url, parses, csr, template, old(http.replies));
              out == call.result && http.Served(old(http.replies), old(http.sent), call.sent)
      ensures exists asked :: http.Served(old(http.replies), old(http.sent), asked) &&
                              Submitted(url, parses, csr, template, old(http.replies), asked, out)
    {
      SubmitIs(url, parses, csr, template, http.replies);
      var certStatus := Answer.Unknown;
      var target := PostUrl(url);
      if !parses(target) {
        return Returned(certStatus, "", "", true);
      }
      var res := http.Do(Post(target, Form(csr, template)));
      if res.NoReply? {
        return Returned(certStatus, "", "", true);
      }
      // the read error is looked at only after this test
      if res.contentType == CT_PKIX {
        return Returned(Answer.Ready, res.body, "none", false);
      }
      if res.broken {
        return Returned(certStatus, "", "", true);
      }
      var found := Submatch(LINK, res.body);
      var certId := "";
      if found.Some? {
        certId := found.value;
      } else {
        found := Submatch(NOTICE, res.body);
        if found.Some? {
          certId := found.value;
        } else {
          return Returned(certStatus, "", "", true);
        }
      }
      out := GetExistingCertificate(certId);
    }

    method ObtainCaCertificate(certPage: string, expectedContentType: string) returns (out: Fetched)
      modifies http
      ensures var call := Fetch(true, url, parses, certPage, expectedContentType, old(http.replies));
              out == call.result && http.Served(old(http.replies), old(http.sent), call.sent)
      ensures exists asked :: http.Served(old(http.replies), old(http.sent), asked) &&
                              FetchedCa(true, url, parses, certPage, expectedContentType,
                                        old(http.replies), asked, out)
    {
      FetchIs(true, url, parses, certPage, expectedContentType, http.replies);
      var target := CarcUrl(url);
      if !parses(target) {
        return FetchPanicked; // no request was made
      }
      var res1 := http.Do(Get(target));
      if res1.NoReply? || res1.broken {
        return FetchFailed;
      }
      var renewal := "0";
      var found := Submatch(RENEWALS, res1.body);
      if found.Some? {
        renewal := found.value;
      }
      target := CaUrl(url, certPage, renewal);
      if !parses(target) {
        return FetchPanicked; // no request was made
      }
      var res2 := http.Do(Get(target));
      if res2.NoReply? {
        return FetchFailed;
      }
      if res2.code == 200 {
        var ct := res2.contentType;
        if expectedContentType != ct {
          return FetchFailed;
        }
        if res2.broken {
          return FetchFailed;
        }
        return Body(res2.body);
      }
      return FetchPanicked; // the error text is taken from a nil error
    }

    method GetCaCertificate() returns (out: Fetched)
      modifies http
      ensures var call := Fetch(true, url, parses, CERTNEW_CER, CT_PKIX, old(http.replies));
              out == call.result && http.Served(old(http.replies), old(http.sent), call.sent)
      ensures exists asked :: http.Served(old(http.replies), old(http.sent), asked) &&
                              FetchedCa(true, url, parses, "certnew.cer", "application/pkix-cert",
                                        old(http.replies), asked, out)
    {
      out := ObtainCaCertificate(CERTNEW_CER, CT_PKIX);
    }

    method GetCaCertificateChain() returns (out: Fetched)
      modifies http
      ensures var call := Fetch(true, url, parses, CERTNEW_P7B, CT_PKCS7, old(http.replies));
              out == call.result && http.Served(old(http.replies), old(http.sent), call.sent)
      ensures exists asked :: http.Served(old(http.replies), old(http.sent), asked) &&
                              FetchedCa(true, url, parses, "certnew.p7b", "application/x-pkcs7-certificates",
                                        old(http.replies), asked, out)
    {
      out := ObtainCaCertificate(CERTNEW_P7B, CT_PKCS7);
    }
  }
}
