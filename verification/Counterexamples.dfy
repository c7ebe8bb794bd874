/** Concrete runs: what the protocol does not promise, however natural it sounds. */
module Counterexamples {
  import opened Base
  import opened Api
  import opened Protocol
  import opened Invariant
  import opened Solo
  import opened Possible
  import opened Provenance
  import opened Incarnations

  const K := Key("default", "web-1")
  const SERVER := "https://ca.example"
  const REF := IssuerRef("ca", "AdcsIssuer", GROUP)

  const REQUESTED := Cr(0, "csr", REF, map[], [], [], None)
  const PROCESSED := SetCondition(REQUESTED, ReadyCondition, PROCESSING)
  const AR := Versioned(Ar(3, 0, "csr", REF, NEW_STATUS), 3)

  /** Created, gated, AdcsRequest made, marked as processing. */
  const PREPARED := One(Local(Some(Versioned(PROCESSED, 4)), Some(AR), CrIdle, ArIdle, true, false, false,
                              History(map[3 := Versioned(REQUESTED, 0)],
                                      {Versioned(REQUESTED, 0), Versioned(PROCESSED, 4)}, map[])),
                        5, Ca([], {}))

  const PREPARE := [CreateCr("csr", REF)] + [CrStart(true), CrLook(true), CrCreate(Delivered), CrPending(Delivered)]

  const SNAPSHOT := Versioned(REQUESTED, 0)
  const CREATED := One(EMPTY.(cr := Some(SNAPSHOT), hist := History(map[], {SNAPSHOT}, map[])), 1, Ca([], {}))

  lemma Created(acts: seq<Action>, t: One)
    requires Leads(false, K, CREATED, acts, t)
    ensures Leads(false, K, START, [CreateCr("csr", REF)] + acts, t)
  {
    assert OneStep(false, K, START, CreateCr("csr", REF)) == CREATED;
    First(false, K, START, CreateCr("csr", REF), acts, t);
  }

  lemma Prepared()
    ensures Leads(false, K, START, PREPARE, PREPARED)
  {
    var s1 := OneStep(false, K, CREATED, CrStart(true));
    assert s1.l == CREATED.l.(crPc := CrGetAr(SNAPSHOT));
    var s2 := OneStep(false, K, s1, CrLook(true));
    assert s2.l == CREATED.l.(crPc := CrCreateAr(SNAPSHOT));
    var s3 := OneStep(false, K, s2, CrCreate(Delivered));
    assert s3.l.crPc == CrSetPending(SNAPSHOT) && s3.l.cr == Some(SNAPSHOT);
    assert OneStep(false, K, s3, CrPending(Delivered)) == PREPARED;
    Four(false, K, CREATED, CrStart(true), s1, CrLook(true), s2, CrCreate(Delivered), s3,
         CrPending(Delivered), PREPARED);
    Created([CrStart(true), CrLook(true), CrCreate(Delivered), CrPending(Delivered)], PREPARED);
  }

  // ---------- Issued is not forever, and one AdcsRequest may be submitted twice ----------

  const READY := ArStatus(Ready, "none", OBTAINED)
  const FIRST := Submission(K, 3, "csr", SERVER, Certificate("cert"), Whole)

  /** The certificate is in hand, nothing of it stored. */
  const ANSWERED := One(PREPARED.l.(arPc := ArGetCr(AR, READY, "cert", "ca"), queued := false), 9, Ca([FIRST], {}))

  const ANSWER := [ArStart(true), ArIssuer(Some(SERVER)), ArPost(Certificate("cert"), Whole), ArChained(Some("ca"))]

  lemma Answered()
    ensures Leads(false, K, PREPARED, ANSWER, ANSWERED)
  {
    var s1 := OneStep(false, K, PREPARED, ArStart(true));
    var s2 := OneStep(false, K, s1, ArIssuer(Some(SERVER)));
    var s3 := OneStep(false, K, s2, ArPost(Certificate("cert"), Whole));
    assert [] + [FIRST] == [FIRST];
    Four(false, K, PREPARED, ArStart(true), s1, ArIssuer(Some(SERVER)), s2, ArPost(Certificate("cert"), Whole), s3,
         ArChained(Some("ca")), ANSWERED);
  }

  const ISSUED_CR := WithOutcome(PROCESSED, Ready, "cert", "ca")
  const ONE_FAILURE := Tally(1, 1, 0, 0)

  /** The CertificateRequest is issued, the AdcsRequest write is lost, the next attempt has begun. */
  const RETRYING := One(
    Local(Some(Versioned(ISSUED_CR, 10)), Some(AR), CrIdle, ArGetIssuer(AR), false, true, false,
          History(PREPARED.l.hist.births, PREPARED.l.hist.past + {Versioned(ISSUED_CR, 10)}, map[3 := ONE_FAILURE])),
    13, Ca([FIRST], {}))

  /** The CertificateRequest is written, the AdcsRequest not yet. */
  const STORED := One(
    Local(Some(Versioned(ISSUED_CR, 10)), Some(AR), CrIdle, ArPutAr(AR, READY), false, false, false,
          History(PREPARED.l.hist.births, PREPARED.l.hist.past + {Versioned(ISSUED_CR, 10)}, map[])),
    11, Ca([FIRST], {}))

  const LOSE := [ArLook(true), ArWriteCr(Delivered)] + [ArWriteAr(Dropped), ArStart(true)]

  lemma Stored()
    ensures Leads(false, K, ANSWERED, [ArLook(true), ArWriteCr(Delivered)], STORED)
  {
    var s1 := OneStep(false, K, ANSWERED, ArLook(true));
    assert s1.l == ANSWERED.l.(arPc := ArPutCr(AR, READY, "cert", "ca", Versioned(PROCESSED, 4)));
    assert OneStep(false, K, s1, ArWriteCr(Delivered)) == STORED;
    Two(false, K, ANSWERED, ArLook(true), s1, ArWriteCr(Delivered), STORED);
  }

  lemma Retrying()
    ensures Leads(false, K, ANSWERED, LOSE, RETRYING)
  {
    var s1 := OneStep(false, K, STORED, ArWriteAr(Dropped));
    assert s1.l.hist.tally == map[3 := ONE_FAILURE];
    Two(false, K, STORED, ArWriteAr(Dropped), s1, ArStart(true), RETRYING);
    Stored();
    Chain(false, K, ANSWERED, [ArLook(true), ArWriteCr(Delivered)], STORED,
          [ArWriteAr(Dropped), ArStart(true)], RETRYING);
  }

  const SECOND := Submission(K, 3, "csr", SERVER, Number("7"), Whole)
  const NO := ArStatus(Rejected, "7", "no")

  const REFUSED := One(RETRYING.l.(arPc := ArGetCr(AR, NO, [], "ca")), 17, Ca([FIRST, SECOND], {}))

  const REFUSE := [ArIssuer(Some(SERVER)), ArPost(Number("7"), Whole), ArPolled(PollRejected("no")),
                   ArChained(Some("ca"))]

  const RESENDING := One(RETRYING.l.(arPc := ArPoll(AR, SERVER, "7")), 15, Ca([FIRST, SECOND], {}))

  lemma Resending()
    ensures Leads(false, K, RETRYING, [ArIssuer(Some(SERVER)), ArPost(Number("7"), Whole)], RESENDING)
  {
    var s1 := OneStep(false, K, RETRYING, ArIssuer(Some(SERVER)));
    assert s1 == One(RETRYING.l.(arPc := ArSubmit(AR, SERVER)), 14, Ca([FIRST], {}));
    assert [FIRST] + [SECOND] == [FIRST, SECOND];
    assert OneStep(false, K, s1, ArPost(Number("7"), Whole)) == RESENDING;
    Two(false, K, RETRYING, ArIssuer(Some(SERVER)), s1, ArPost(Number("7"), Whole), RESENDING);
  }

  lemma Refused()
    ensures Leads(false, K, RETRYING, REFUSE, REFUSED)
  {
    Resending();
    var s1 := OneStep(false, K, RESENDING, ArPolled(PollRejected("no")));
    Two(false, K, RESENDING, ArPolled(PollRejected("no")), s1, ArChained(Some("ca")), REFUSED);
    Chain(false, K, RETRYING, [ArIssuer(Some(SERVER)), ArPost(Number("7"), Whole)], RESENDING,
          [ArPolled(PollRejected("no")), ArChained(Some("ca"))], REFUSED);
    assert REFUSE == [ArIssuer(Some(SERVER)), ArPost(Number("7"), Whole)]
                     + [ArPolled(PollRejected("no")), ArChained(Some("ca"))];
  }

  /** The run up to the retry, with the certificate issued. */
  lemma IssuedRun()
    ensures Leads(false, K, START, PREPARE + ANSWER + LOSE, RETRYING)
  {
    Prepared(); Answered(); Retrying();
    Chain(false, K, START, PREPARE, PREPARED, ANSWER, ANSWERED);
    Chain(false, K, START, PREPARE + ANSWER, ANSWERED, LOSE, RETRYING);
  }

  const REJECTED_CR := SetCondition(ISSUED_CR, ReadyCondition, REJECTED)

  const CLOSING := One(
    StoreCr(REFUSED.l, REJECTED_CR, 18).(arPc := ArPutAr(AR, NO)), 19, REFUSED.ca)

  const CLOSE := [ArLook(true), ArWriteCr(Delivered)]

  lemma Closing()
    ensures Leads(false, K, REFUSED, CLOSE, CLOSING)
  {
    var s1 := OneStep(false, K, REFUSED, ArLook(true));
    assert s1 == One(REFUSED.l.(arPc := ArPutCr(AR, NO, [], "ca", Versioned(ISSUED_CR, 10))), 18, REFUSED.ca);
    assert OneStep(false, K, s1, ArWriteCr(Delivered)) == CLOSING;
    Two(false, K, REFUSED, ArLook(true), s1, ArWriteCr(Delivered), CLOSING);
  }

  lemma RefusedRun()
    ensures Leads(false, K, RETRYING, REFUSE + CLOSE, CLOSING)
  {
    Refused(); Closing();
    Chain(false, K, RETRYING, REFUSE, REFUSED, CLOSE, CLOSING);
  }

  lemma SubmittedTwice()
    ensures Submissions(CLOSING.ca.ledger, K, 3) == 2
  {
    SubmissionsStep([], FIRST, K, 3);
    SubmissionsStep([FIRST], SECOND, K, 3);
    assert [] + [FIRST] == [FIRST] && [FIRST] + [SECOND] == [FIRST, SECOND];
  }

  predicate ShowsCondition(w: World, condition: Condition) {
    && At(w, K).cr.Some?
    && ReadyCondition in At(w, K).cr.value.obj.conditions
    && At(w, K).cr.value.obj.conditions[ReadyCondition] == condition
  }

  /**
   If the AdcsRequest write fails after the CertificateRequest write, the same
   AdcsRequest is submitted again, and an issued CertificateRequest may end up
   rejected.
   */
  lemma IssuedIsNotForever()
    ensures exists xs, ys ::
              && Runs(false, INIT, xs) && Runs(false, After(false, INIT, xs), ys)
              && ShowsCondition(After(false, INIT, xs), ISSUED)
              && var w' := After(false, After(false, INIT, xs), ys);
                 ShowsCondition(w', REJECTED) && Submissions(w'.ca.ledger, K, 3) == 2
  {
    var xs := Labels(K, PREPARE + ANSWER + LOSE);
    var ys := Labels(K, REFUSE + CLOSE);
    IssuedRun();
    LeadsIsRun(false, INIT, K, PREPARE + ANSWER + LOSE, RETRYING);
    var w := After(false, INIT, xs);
    RefusedRun();
    LeadsIsRun(false, w, K, REFUSE + CLOSE, CLOSING);
    SubmittedTwice();
    assert ShowsCondition(w, ISSUED) && ShowsCondition(After(false, w, ys), REJECTED);
  }

  // ---------- a name used again ----------

  const OTHER := Cr(10, "other", REF, map[], [], [], None)

  const REUSED := One(
    ANSWERED.l.(cr := Some(Versioned(WithOutcome(OTHER, Ready, "cert", "ca"), 12)),
                ar := None, arPc := ArPutAr(AR, READY),
                hist := ANSWERED.l.hist.(past := ANSWERED.l.hist.past + {Versioned(OTHER, 10)}
                                                 + {Versioned(WithOutcome(OTHER, Ready, "cert", "ca"), 12)})),
    13, ANSWERED.ca)

  const REUSE := [DeleteCr, CreateCr("other", REF), ArLook(true), ArWriteCr(Delivered)]

  lemma Reused()
    ensures Leads(false, K, ANSWERED, REUSE, REUSED)
  {
    var s1 := OneStep(false, K, ANSWERED, DeleteCr);
    assert s1 == One(ANSWERED.l.(cr := None, ar := None), 10, ANSWERED.ca);
    var s2 := OneStep(false, K, s1, CreateCr("other", REF));
    assert s2.l.cr == Some(Versioned(OTHER, 10)) && s2.l.arPc == ANSWERED.l.arPc;
    var s3 := OneStep(false, K, s2, ArLook(true));
    assert s3.l.arPc == ArPutCr(AR, READY, "cert", "ca", Versioned(OTHER, 10));
    Four(false, K, ANSWERED, DeleteCr, s1, CreateCr("other", REF), s2, ArLook(true), s3, ArWriteCr(Delivered), REUSED);
  }

  lemma ReusedRun()
    ensures Leads(false, K, START, PREPARE + ANSWER + REUSE, REUSED)
  {
    Prepared(); Answered(); Reused();
    Chain(false, K, START, PREPARE, PREPARED, ANSWER, ANSWERED);
    Chain(false, K, START, PREPARE + ANSWER, ANSWERED, REUSE, REUSED);
  }

  /**
   The AdcsRequest controller never compares CSRs: when a name is used again for
   another CSR while an attempt is under way, the new CertificateRequest is issued
   a certificate although its own CSR was never submitted.
   */
  lemma CertificateOfAnother()
    ensures exists xs ::
              && Runs(false, INIT, xs)
              && ShowsCondition(After(false, INIT, xs), ISSUED)
              && var w := After(false, INIT, xs);
                 var cr := At(w, K).cr.value.obj;
                 cr.certificate != [] && forall e | e in w.ca.ledger :: e.csr != cr.request
  {
    var xs := Labels(K, PREPARE + ANSWER + REUSE);
    ReusedRun();
    LeadsIsRun(false, INIT, K, PREPARE + ANSWER + REUSE, REUSED);
    assert ShowsCondition(After(false, INIT, xs), ISSUED);
    assert |"csr"| != |"other"|;
  }

  // ---------- a denial that comes too late ----------

  const DENIED_CR := SetCondition(REQUESTED, DeniedCondition, Condition(CondTrue, OtherReason(""), OtherMessage("")))

  const TOO_LATE := One(
    Local(Some(Versioned(DENIED_CR, 2)), Some(Versioned(Ar(4, 0, "csr", REF, NEW_STATUS), 4)),
          CrSetPending(SNAPSHOT), ArIdle, true, false, false,
          History(map[4 := SNAPSHOT], {SNAPSHOT} + {Versioned(DENIED_CR, 2)}, map[])),
    5, Ca([], {}))

  const DENY := [CrStart(true), Decide(false), CrLook(true), CrCreate(Delivered)]

  lemma TooLate()
    ensures Leads(false, K, START, [CreateCr("csr", REF)] + DENY, TOO_LATE)
  {
    var s1 := OneStep(false, K, CREATED, CrStart(true));
    var s2 := OneStep(false, K, s1, Decide(false));
    assert s2.l.crPc == CrGetAr(SNAPSHOT) && s2.l.cr == Some(Versioned(DENIED_CR, 2));
    var s3 := OneStep(false, K, s2, CrLook(true));
    Four(false, K, CREATED, CrStart(true), s1, Decide(false), s2, CrLook(true), s3, CrCreate(Delivered), TOO_LATE);
    Created(DENY, TOO_LATE);
  }

  /** A denial after the snapshot was read does not stop the AdcsRequest. */
  lemma DeniedTooLate()
    ensures exists xs ::
              && Runs(false, INIT, xs)
              && var l := At(After(false, INIT, xs), K);
                 l.cr.Some? && IsDenied(l.cr.value.obj) && l.ar.Some? && l.ar.value.obj.owner == l.cr.value.obj.uid
  {
    TooLate();
    LeadsIsRun(false, INIT, K, [CreateCr("csr", REF)] + DENY, TOO_LATE);
    assert IsDenied(DENIED_CR);
  }

  // ---------- certificates that are not the CA's answer ----------

  /** A certificate is in hand and goes into the CertificateRequest: what was read, and the CA's record of it. */
  lemma IssuedWith(acts: seq<Action>, s: One, cert: Bytes) returns (xs: seq<Label>)
    requires Leads(false, K, PREPARED, acts, s)
    requires s.l.cr == PREPARED.l.cr && s.l.arPc.ArGetCr? && s.l.arPc.cert == cert && s.l.arPc.ca == "ca"
    requires s.l.arPc.next.state.Ready?
    ensures Runs(false, INIT, xs)
    ensures var w := After(false, INIT, xs);
            && w.ca == s.ca && ShowsCondition(w, ISSUED)
            && At(w, K).cr.value.obj == WithOutcome(PROCESSED, Ready, cert, "ca")
  {
    var publish := [ArLook(true), ArWriteCr(Delivered)];
    var t := Publish(false, K, s);
    Prepared();
    Chain(false, K, START, PREPARE, PREPARED, acts, s);
    Chain(false, K, START, PREPARE + acts, s, publish, t);
    LeadsIsRun(false, INIT, K, PREPARE + acts + publish, t);
    xs := Labels(K, PREPARE + acts + publish);
  }

  /** What such a run shows: Issued, for its own CSR, with bytes that the CA never sent for it. */
  ghost predicate IssuedWrongly(w: World) {
    && ShowsCondition(w, ISSUED)
    && var cr := At(w, K).cr.value.obj;
       && cr.certificate != []
       && (forall e | e in w.ca.ledger :: e.key == K && e.csr == cr.request)
       && (forall cert | cr.certificate == cert + cr.ca :: !CertifiedFor(w.ca, K, cr.request, cert))
  }

  lemma WronglyWith(w: World, cert: Bytes)
    requires ShowsCondition(w, ISSUED) && At(w, K).cr.value.obj == WithOutcome(PROCESSED, Ready, cert, "ca")
    requires forall e | e in w.ca.ledger :: e.key == K && e.csr == "csr" && !SentFor(w.ca, e, cert)
    ensures IssuedWrongly(w)
  {
    var cr := At(w, K).cr.value.obj;
    assert cr.certificate == cert + "ca" && cr.ca == "ca" && cr.request == "csr";
    forall other | cr.certificate == other + cr.ca ensures other == cert {
      assert |other| == |cert| && (other + "ca")[..|cert|] == other && (cert + "ca")[..|cert|] == cert;
    }
    assert cr.certificate[|cert|] == 'c';
  }

  /** The attempt is about to submit. */
  const ASKING := One(PREPARED.l.(arPc := ArSubmit(AR, SERVER), queued := false), 7, Ca([], {}))

  const ASK := [ArStart(true), ArIssuer(Some(SERVER))]

  lemma Asking()
    ensures Leads(false, K, PREPARED, ASK, ASKING)
  {
    var s1 := OneStep(false, K, PREPARED, ArStart(true));
    assert OneStep(false, K, s1, ArIssuer(Some(SERVER))) == ASKING;
    Two(false, K, PREPARED, ArStart(true), s1, ArIssuer(Some(SERVER)), ASKING);
  }

  // ... because the body broke off

  const CUT := Submission(K, 3, "csr", SERVER, Certificate("cert"), BrokenOff(2))

  /** A certificate whose body breaks off is stored as far as it came. */
  lemma CertificateCutShort()
    ensures exists xs :: Runs(false, INIT, xs) && IssuedWrongly(After(false, INIT, xs)) &&
                         After(false, INIT, xs).ca == Ca([CUT], {})
  {
    var acts, s := CutOff();
    var s' := Next(false, K, PREPARED, acts, s, ArChained(Some("ca")));
    var xs := IssuedWith(acts + [ArChained(Some("ca"))], s', "ce");
    assert |"cert"| != |"ce"|;
    WronglyWith(After(false, INIT, xs), "ce");
  }

  lemma CutOff() returns (acts: seq<Action>, s: One)
    ensures Leads(false, K, PREPARED, acts, s)
    ensures s == One(ASKING.l.(arPc := ArChain(AR, READY, "ce")), 8, Ca([CUT], {}))
  {
    Asking();
    assert "cert"[..2] == "ce" && [] + [CUT] == [CUT];
    s := Next(false, K, PREPARED, ASK, ASKING, ArPost(Certificate("cert"), BrokenOff(2)));
    acts := ASK + [ArPost(Certificate("cert"), BrokenOff(2))];
  }

  // ... because the number was cut short

  const NUMBERED := Submission(K, 3, "csr", SERVER, Number("202"), AtLineEnd)
  const FOREIGN := Certified(K, 3, SERVER, "20", "other")

  /** A number at the end of its line loses a digit, and the certificate of another request is fetched. */
  lemma CertificateOfAnotherNumber()
    ensures exists xs :: Runs(false, INIT, xs) && IssuedWrongly(After(false, INIT, xs)) &&
                         After(false, INIT, xs).ca == Ca([NUMBERED], {FOREIGN})
  {
    var acts, s := Misread();
    var s' := Next(false, K, PREPARED, acts, s, ArChained(Some("ca")));
    var xs := IssuedWith(acts + [ArChained(Some("ca"))], s', "other");
    assert |"20"| != |"202"|;
    WronglyWith(After(false, INIT, xs), "other");
  }

  lemma Misread() returns (acts: seq<Action>, s: One)
    ensures Leads(false, K, PREPARED, acts, s)
    ensures s == One(ASKING.l.(arPc := ArChain(AR, ArStatus(Ready, "20", OBTAINED), "other")), 9,
                     Ca([NUMBERED], {FOREIGN}))
  {
    Asking();
    assert "202"[..2] == "20" && [] + [NUMBERED] == [NUMBERED];
    var s1 := Next(false, K, PREPARED, ASK, ASKING, ArPost(Number("202"), AtLineEnd));
    assert s1 == One(ASKING.l.(arPc := ArPoll(AR, SERVER, "20")), 8, Ca([NUMBERED], {}));
    acts := ASK + [ArPost(Number("202"), AtLineEnd)];
    s := Next(false, K, PREPARED, acts, s1, ArPolled(PollReady("other")));
    acts := acts + [ArPolled(PollReady("other"))];
  }

  // ... because another CA was asked

  const ELSEWHERE := "https://other.example"
  const HERE := Submission(K, 3, "csr", SERVER, Number("7"), Whole)
  const THERE := Certified(K, 3, ELSEWHERE, "7", "other")
  const WAITING := ArStatus(Pending, "7", "wait")
  const WAITING_AR := Versioned(AR.obj.(status := WAITING), 11)

  /** If the issuer is pointed at another server while a request is pending, that one is asked about the number. */
  lemma CertificateFromElsewhere()
    ensures exists xs :: Runs(false, INIT, xs) && IssuedWrongly(After(false, INIT, xs)) &&
                         After(false, INIT, xs).ca == Ca([HERE], {THERE})
  {
    var acts, s := Moved();
    var s' := Next(false, K, PREPARED, acts, s, ArChained(Some("ca")));
    var xs := IssuedWith(acts + [ArChained(Some("ca"))], s', "other");
    assert |SERVER| != |ELSEWHERE|;
    WronglyWith(After(false, INIT, xs), "other");
  }

  lemma Moved() returns (acts: seq<Action>, s: One)
    ensures Leads(false, K, PREPARED, acts, s) && s.l.cr == PREPARED.l.cr
    ensures s.l.arPc == ArChain(WAITING_AR, ArStatus(Ready, "7", OBTAINED), "other")
    ensures s.ca == Ca([HERE], {THERE})
  {
    var begin, s1 := Numbers();
    var s2 := Waits(s1);
    s := AsksElsewhere(s2);
    var wait := [ArChained(Some("ca")), ArLook(true), ArWriteAr(Delivered), ArStart(true)];
    var ask := [ArIssuer(Some(ELSEWHERE)), ArPolled(PollReady("other"))];
    Chain(false, K, PREPARED, begin, s1, wait, s2);
    Chain(false, K, PREPARED, begin + wait, s2, ask, s);
    acts := begin + wait + ask;
  }

  const GIVEN := One(ASKING.l.(arPc := ArChain(AR, WAITING, [])), 9, Ca([HERE], {}))

  lemma Numbers() returns (acts: seq<Action>, s: One)
    ensures Leads(false, K, PREPARED, acts, s) && s == GIVEN
  {
    Asking();
    assert [] + [HERE] == [HERE];
    var s1 := Next(false, K, PREPARED, ASK, ASKING, ArPost(Number("7"), Whole));
    assert s1 == One(ASKING.l.(arPc := ArPoll(AR, SERVER, "7")), 8, Ca([HERE], {}));
    acts := ASK + [ArPost(Number("7"), Whole)];
    s := Next(false, K, PREPARED, acts, s1, ArPolled(PollPending("wait")));
    acts := acts + [ArPolled(PollPending("wait"))];
  }

  lemma Waits(s: One) returns (t: One)
    requires s == GIVEN
    ensures Leads(false, K, s, [ArChained(Some("ca")), ArLook(true), ArWriteAr(Delivered), ArStart(true)], t)
    ensures t.l.cr == PREPARED.l.cr && t.l.arPc == ArGetIssuer(WAITING_AR) && t.ca == s.ca
  {
    var s1 := OneStep(false, K, s, ArChained(Some("ca")));
    var s2 := OneStep(false, K, s1, ArLook(true));
    assert s2.l == s.l.(arPc := ArPutAr(AR, WAITING));
    var s3 := OneStep(false, K, s2, ArWriteAr(Delivered));
    assert s3.l.ar == Some(WAITING_AR) && s3.l.queued && s3.l.arPc.ArIdle? && s3.l.cr == s.l.cr;
    t := OneStep(false, K, s3, ArStart(true));
    Four(false, K, s, ArChained(Some("ca")), s1, ArLook(true), s2, ArWriteAr(Delivered), s3, ArStart(true), t);
  }

  lemma AsksElsewhere(s: One) returns (t: One)
    requires s.l.arPc == ArGetIssuer(WAITING_AR) && s.ca == Ca([HERE], {})
    ensures Leads(false, K, s, [ArIssuer(Some(ELSEWHERE)), ArPolled(PollReady("other"))], t)
    ensures t.l.cr == s.l.cr && t.l.arPc == ArChain(WAITING_AR, ArStatus(Ready, "7", OBTAINED), "other")
    ensures t.ca == Ca([HERE], {THERE})
  {
    var s1 := OneStep(false, K, s, ArIssuer(Some(ELSEWHERE)));
    assert s1.l == s.l.(arPc := ArPoll(WAITING_AR, ELSEWHERE, "7"));
    t := OneStep(false, K, s1, ArPolled(PollReady("other")));
    Two(false, K, s, ArIssuer(Some(ELSEWHERE)), s1, ArPolled(PollReady("other")), t);
  }

  // ---------- a second AdcsRequest ----------

  const ORPHAN := [CrStart(true), DeleteCr, CrLook(true), CrCreate(Delivered)]

  lemma Orphaned() returns (t: One)
    ensures Leads(false, K, PREPARED, ORPHAN, t)
    ensures t.l.cr.None? && t.l.ar == Some(Versioned(Ar(8, 0, "csr", REF, NEW_STATUS), 8))
    ensures t.l.hist.births == map[3 := SNAPSHOT, 8 := Versioned(PROCESSED, 4)]
  {
    var v := Versioned(PROCESSED, 4);
    var s1 := OneStep(false, K, PREPARED, CrStart(true));
    assert s1.l == PREPARED.l.(crPc := CrGetAr(v));
    var s2 := OneStep(false, K, s1, DeleteCr);
    assert s2.l == s1.l.(cr := None, ar := None);
    var s3 := OneStep(false, K, s2, CrLook(true));
    assert s3.l == s2.l.(crPc := CrCreateAr(v));
    t := OneStep(false, K, s3, CrCreate(Delivered));
    Four(false, K, PREPARED, CrStart(true), s1, DeleteCr, s2, CrLook(true), s3, CrCreate(Delivered), t);
  }

  /** If a CertificateRequest is deleted during its second reconcile, that one makes another AdcsRequest, an orphan. */
  lemma MadeTwice()
    ensures exists xs :: && Runs(false, INIT, xs)
                         && var l := At(After(false, INIT, xs), K);
                            l.cr.None? && l.ar.Some? && l.ar.value.obj.owner == 0 && MadeFor(l.hist, 0) == {3, 8}
  {
    var t := Orphaned();
    Prepared();
    Chain(false, K, START, PREPARE, PREPARED, ORPHAN, t);
    LeadsIsRun(false, INIT, K, PREPARE + ORPHAN, t);
  }
}
