/**
 The API server and the CA as a reconciler meets them: every call lets everybody
 else take any number of steps first, may fail in any way, and adds its own step
 to the run. The ghost trace shows that what happened is a run of the protocol.
 */
module Cluster {
  import opened Base
  import opened Api
  import opened Protocol
  import opened Invariant
  import opened Safety

  datatype Who = CrController | ArController

  /** The step belongs to the reconcile of this controller for this name. */
  predicate Mine(who: Who, k: Key, x: Label) {
    x.key == k && if who.CrController? then OfCrController(x.action) else OfArController(x.action)
  }

  /**
   What a controller has done to a name: how many reconciles it has begun and
   broken off, its writes that took effect, and the servers it was sent to.
   */
  datatype Deeds = Deeds(begun: nat, broken: nat, changes: seq<Change>, servers: seq<Option<string>>)

  function DeedsOf(c: bool, who: Who, k: Key, xs: seq<Label>): Deeds
    requires Runs(c, INIT, xs)
    decreases |xs|
  {
    if xs == [] then Deeds(0, 0, [], [])
    else
      var ys, x := xs[..|xs| - 1], xs[|xs| - 1];
      assert xs == ys + [x];
      RunsPrefix(c, INIT, ys, [x]);
      RunsConcat(c, INIT, ys, [x]);
      OneMore(DeedsOf(c, who, k, ys), who, k, After(c, INIT, ys), x)
  }

  function OneMore(d: Deeds, who: Who, k: Key, w: World, x: Label): Deeds
    requires CanStep(w, x)
  {
    if !Mine(who, k, x) then d
    else
      var change := ChangeOf(At(w, x.key), x.action);
      Deeds(d.begun + if x.action.CrStart? || x.action.ArStart? then 1 else 0,
            d.broken + if x.action.CrCrash? || x.action.ArCrash? then 1 else 0,
            if change.Some? then d.changes + [change.value] else d.changes,
            if x.action.ArIssuer? then d.servers + [x.action.server] else d.servers)
  }

  /** A controller that adds no change has not touched the store, in whatever steps it took. */
  lemma NoDeedNoTrace(c: bool, who: Who, k: Key, xs: seq<Label>, x: Label)
    requires Runs(c, INIT, xs + [x]) && Mine(who, k, x)
    requires Runs(c, INIT, xs) && CanStep(After(c, INIT, xs), x)
    ensures var l, l' := At(After(c, INIT, xs), k), At(After(c, INIT, xs + [x]), k);
            DeedsOf(c, who, k, xs + [x]).changes == DeedsOf(c, who, k, xs).changes <==> SameStore(l, l')
  {
    var w := After(c, INIT, xs);
    RunsConcat(c, INIT, xs, [x]);
    assert [x][1..] == [] && (xs + [x])[..|xs|] == xs;
    assert After(c, INIT, xs + [x]) == Step(c, w, x);
    OnlyCommitsShow(c, w, x);
    var d := DeedsOf(c, who, k, xs);
    assert DeedsOf(c, who, k, xs + [x]) == OneMore(d, who, k, w, x);
    assert forall change: Change :: |d.changes + [change]| != |d.changes|;
  }

  datatype Lookup<+T> = Found(value: T) | Missing | Unavailable

  lemma CrUntouched(c: bool, l: Local, now: nat, a: Action)
    requires Enabled(l, a) && !OfCrController(a)
    ensures StepLocal(c, l, now, a).crPc == l.crPc
  {}

  /** The start of a reconcile: it ends at once, or keeps its snapshot as the gates have judged it. */
  lemma StartShape(c: bool, l: Local, now: nat, ok: bool)
    requires l.crPc.CrIdle?
    ensures var l' := StepLocal(c, l, now, CrStart(ok)); l'.cr == l.cr
    ensures var l' := StepLocal(c, l, now, CrStart(ok));
            if !ok || l.cr.None? then l'.crPc.CrIdle? && l'.crErr == !ok
            else match Gate(c, l.cr.value.obj)
              case Stop => l'.crPc.CrIdle? && !l'.crErr
              case MarkDenied => l'.crPc == CrSetDenied(l.cr.value)
              case Proceed => l'.crPc == CrGetAr(l.cr.value)
  {}

  lemma ArStartShape(c: bool, l: Local, now: nat, ok: bool)
    requires l.arPc.ArIdle? && l.queued
    ensures var l' := StepLocal(c, l, now, ArStart(ok));
            && l'.ar == l.ar
            && (if !ok then l'.arPc.ArIdle? && l'.asked && l'.queued
                else if l.ar.None? then l'.arPc.ArIdle? && !l'.asked
                else l'.arPc == ArGetIssuer(l.ar.value))
  {}

  /** A status write of the CertificateRequest controller ends its reconcile. */
  lemma CrUpdateShape(c: bool, l: Local, now: nat, a: Action, cr: Cr)
    requires Enabled(l, a) && (a.CrPending? || a.CrDeny?)
    requires cr == if a.CrPending? then SetCondition(l.crPc.cr.obj, ReadyCondition, PROCESSING)
                   else WithDenial(l.crPc.cr.obj, a.time)
    ensures var l' := StepLocal(c, l, now, a);
            && l'.crPc.CrIdle? && l'.crErr == !Told(a.net, l.cr, l.crPc.cr) && l'.ar == l.ar
            && (Commits(a.net, l.cr, l.crPc.cr) ==> l'.cr == Some(Versioned(cr, now)))
            && ChangeOf(l, a) == if Commits(a.net, l.cr, l.crPc.cr) then Some(CrUpdated) else None
  {}

  class Cluster {
    const checkApproved: bool
    var world: World
    ghost var trace: seq<Label>

    constructor (checkApproved: bool)
      ensures Valid() && this.checkApproved == checkApproved && world == INIT && trace == []
    {
      this.checkApproved := checkApproved;
      world := INIT;
      trace := [];
    }

    /** What has happened so far is a run of the protocol. */
    ghost predicate Valid()
      reads this
    {
      Runs(checkApproved, INIT, trace) && After(checkApproved, INIT, trace) == world
    }

    lemma Holds(k: Key)
      requires Valid()
      ensures Inv(checkApproved, k, Here(k), world.clock, world.ca)
    {
      InvariantHolds(checkApproved, trace);
    }

    lemma ProcessingShows(k: Key, net: Net)
      requires Valid() && Here(k).crPc.CrSetPending? && Told(net, Here(k).cr, Here(k).crPc.cr)
      ensures Here(k).ar.Some? && Here(k).ar.value.obj.csr == Here(k).crPc.cr.obj.request
    {
      Holds(k);
    }

    function Here(k: Key): Local
      reads this
    {
      At(world, k)
    }

    /** A reconcile under way goes on, with these changes to the store: no new reconcile, none broken off. */
    twostate predicate Does(who: Who, k: Key, changes: seq<Change>)
      requires old(Valid())
      reads this
    {
      var d := DeedsOf(checkApproved, who, k, old(trace));
      && Valid() && old(trace) <= trace
      && DeedsOf(checkApproved, who, k, trace) == d.(changes := d.changes + changes)
    }

    /** A reconcile under way goes on and changes nothing. */
    twostate predicate Goes(who: Who, k: Key)
      requires old(Valid())
      reads this
    {
      && Valid() && old(trace) <= trace
      && DeedsOf(checkApproved, who, k, trace) == DeedsOf(checkApproved, who, k, old(trace))
    }

    /** A reconcile under way has been sent to this server, or to none. */
    twostate predicate Turns(who: Who, k: Key, server: Option<string>)
      requires old(Valid())
      reads this
    {
      var d := DeedsOf(checkApproved, who, k, old(trace));
      && Valid() && old(trace) <= trace
      && DeedsOf(checkApproved, who, k, trace) == d.(servers := d.servers + [server])
    }

    /** A reconcile under way goes on, with these changes and at these servers. */
    twostate predicate Tries(who: Who, k: Key, changes: seq<Change>, servers: seq<Option<string>>)
      requires old(Valid())
      reads this
    {
      var d := DeedsOf(checkApproved, who, k, old(trace));
      && Valid() && old(trace) <= trace
      && DeedsOf(checkApproved, who, k, trace) == d.(changes := d.changes + changes, servers := d.servers + servers)
    }

    /** A reconcile was begun. */
    twostate predicate Starts(who: Who, k: Key)
      requires old(Valid())
      reads this
    {
      var d := DeedsOf(checkApproved, who, k, old(trace));
      && Valid() && old(trace) <= trace
      && DeedsOf(checkApproved, who, k, trace) == d.(begun := d.begun + 1)
    }

    /** Exactly one reconcile was begun since, and none broken off, with these changes and at these servers. */
    twostate predicate Begins(who: Who, k: Key, changes: seq<Change>, servers: seq<Option<string>>)
      requires old(Valid())
      reads this
    {
      var d := DeedsOf(checkApproved, who, k, old(trace));
      && Valid() && old(trace) <= trace
      && DeedsOf(checkApproved, who, k, trace) ==
         d.(begun := d.begun + 1, changes := d.changes + changes, servers := d.servers + servers)
    }

    method Take(who: Who, k: Key, x: Label)
      requires Valid() && CanStep(world, x)
      modifies this
      ensures Valid() && world == Step(checkApproved, old(world), x) && trace == old(trace) + [x]
      ensures DeedsOf(checkApproved, who, k, trace) ==
              OneMore(DeedsOf(checkApproved, who, k, old(trace)), who, k, old(world), x)
    {
      RunsConcat(checkApproved, INIT, trace, [x]);
      assert [x][1..] == [];
      assert Runs(checkApproved, Step(checkApproved, world, x), []);
      world := Step(checkApproved, world, x);
      trace := trace + [x];
      assert trace[..|trace| - 1] == old(trace);
    }

    /** Everybody else, for a while. */
    method Others(who: Who, k: Key)
      requires Valid()
      modifies this
      ensures Goes(who, k)
      ensures who.CrController? ==> Here(k).crPc == old(Here(k).crPc)
      ensures who.ArController? ==> Here(k).arPc == old(Here(k).arPc) && (old(Here(k).queued) ==> Here(k).queued)
    {
      var n: nat := *;
      while n > 0
        invariant Goes(who, k)
        invariant who.CrController? ==> Here(k).crPc == old(Here(k).crPc)
        invariant who.ArController? ==> Here(k).arPc == old(Here(k).arPc) && (old(Here(k).queued) ==> Here(k).queued)
      {
        var x: Label := *;
        if CanStep(world, x) && !Mine(who, k, x) {
          ghost var l, now := Here(k), world.clock;
          if x.key == k {
            if who.CrController? {
              CrUntouched(checkApproved, l, now, x.action);
            } else {
              OthersFrame(checkApproved, l, now, x.action);
            }
          }
          Take(who, k, x);
        }
        n := n - 1;
      }
    }

    // ---------- calls of the CertificateRequest controller ----------

    method CrGetsCr(k: Key) returns (got: Lookup<Versioned<Cr>>)
      requires Valid() && Here(k).crPc.CrIdle?
      modifies this
      ensures Starts(CrController, k)
      ensures got.Found? ==> Here(k).cr == Some(got.value)
      ensures got.Missing? ==> Here(k).cr.None?
      ensures match got
              case Found(c) =>
                (match Gate(checkApproved, c.obj)
                 case Stop => Here(k).crPc.CrIdle? && !Here(k).crErr
                 case MarkDenied => Here(k).crPc == CrSetDenied(c)
                 case Proceed => Here(k).crPc == CrGetAr(c))
              case Missing => Here(k).crPc.CrIdle? && !Here(k).crErr
              case Unavailable => Here(k).crPc.CrIdle? && Here(k).crErr
    {
      Others(CrController, k);
      var ok: bool := *;
      got := if !ok then Unavailable else if Here(k).cr.Some? then Found(Here(k).cr.value) else Missing;
      StartShape(checkApproved, Here(k), world.clock, ok);
      Take(CrController, k, Label(k, CrStart(ok)));
    }

    method CrGetsAr(k: Key) returns (got: Lookup<Versioned<Ar>>)
      requires Valid() && Here(k).crPc.CrGetAr?
      modifies this
      ensures Goes(CrController, k)
      ensures var c := old(Here(k).crPc.cr);
              match got
              case Found(a) => if RequestDiffers(a.obj, c.obj) then Here(k).crPc == CrDeleteAr(c)
                               else Here(k).crPc.CrIdle? && !Here(k).crErr && Here(k).ar == Some(a)
              case Missing => Here(k).crPc == CrCreateAr(c)
              case Unavailable => Here(k).crPc.CrIdle? && Here(k).crErr
    {
      Others(CrController, k);
      var ok: bool := *;
      got := if !ok then Unavailable else if Here(k).ar.Some? then Found(Here(k).ar.value) else Missing;
      Take(CrController, k, Label(k, CrLook(ok)));
    }

    method CrDeletesAr(k: Key) returns (err: bool, ghost done: seq<Change>)
      requires Valid() && Here(k).crPc.CrDeleteAr?
      modifies this
      ensures Does(CrController, k, done) && (done == [] || done == [ArDeleted])
      ensures Here(k).crPc == CrCreateAr(old(Here(k).crPc.cr))
    {
      Others(CrController, k);
      var net: Net := *;
      err := Here(k).ar.None? || !net.Delivered?;
      done := if net.Dropped? || Here(k).ar.None? then [] else [ArDeleted];
      Take(CrController, k, Label(k, CrDelete(net)));
    }

    method CrCreatesAr(k: Key, owner: nat, csr: Bytes, issuerRef: IssuerRef)
      returns (err: bool, ghost done: seq<Change>)
      requires Valid() && Here(k).crPc.CrCreateAr?
      requires forall uid :: NewAr(Here(k).crPc.cr.obj, uid) == Ar(uid, owner, csr, issuerRef, NEW_STATUS)
      modifies this
      ensures Does(CrController, k, done) && (if err then done == [] || done == [ArCreated] else done == [ArCreated])
      ensures done == [ArCreated] ==>
                && Here(k).ar.Some?
                && var ar := Here(k).ar.value.obj;
                   && ar.owner == owner && ar.csr == csr && ar.issuerRef == issuerRef
                   && ar.status == ArStatus(Unknown, "", "")
      ensures if err then Here(k).crPc.CrIdle? && Here(k).crErr
              else Here(k).crPc == CrSetPending(old(Here(k).crPc.cr))
    {
      Others(CrController, k);
      var net: Net := *;
      err := Here(k).ar.Some? || !net.Delivered?;
      done := if net.Dropped? || Here(k).ar.Some? then [] else [ArCreated];
      Take(CrController, k, Label(k, CrCreate(net)));
    }

    method CrUpdatesCr(k: Key, cr: Versioned<Cr>, time: nat) returns (err: bool, ghost done: seq<Change>)
      requires Valid() && (Here(k).crPc.CrSetPending? || Here(k).crPc.CrSetDenied?)
      requires cr.version == Here(k).crPc.cr.version
      requires var read := Here(k).crPc.cr.obj;
               cr.obj == if Here(k).crPc.CrSetPending? then SetCondition(read, ReadyCondition, PROCESSING)
                         else WithDenial(read, time)
      modifies this
      ensures Does(CrController, k, done) && (if err then done == [] || done == [CrUpdated] else done == [CrUpdated])
      ensures Here(k).crPc.CrIdle? && Here(k).crErr == err
      ensures done == [CrUpdated] ==> Here(k).cr.Some? && Here(k).cr.value.obj == cr.obj
      ensures old(Here(k).crPc.CrSetPending?) && !err ==> Here(k).ar.Some? && Here(k).ar.value.obj.csr == cr.obj.request
    {
      Others(CrController, k);
      var net: Net := *;
      if Here(k).crPc.CrSetPending? {
        err := !Told(net, Here(k).cr, Here(k).crPc.cr);
        if !err { ProcessingShows(k, net); }
        done := CrWrites(k, CrPending(net), cr.obj);
      } else {
        err := !Told(net, Here(k).cr, Here(k).crPc.cr);
        done := CrWrites(k, CrDeny(net, time), cr.obj);
      }
    }

    method CrWrites(k: Key, update: Action, cr: Cr) returns (ghost done: seq<Change>)
      requires Valid() && (update.CrPending? || update.CrDeny?) && Enabled(Here(k), update)
      requires cr == if update.CrPending? then SetCondition(Here(k).crPc.cr.obj, ReadyCondition, PROCESSING)
                     else WithDenial(Here(k).crPc.cr.obj, update.time)
      modifies this
      ensures Does(CrController, k, done)
      ensures var l := old(Here(k));
              && done == (if Commits(update.net, l.cr, l.crPc.cr) then [CrUpdated] else [])
              && Here(k).crPc.CrIdle? && Here(k).crErr == !Told(update.net, l.cr, l.crPc.cr) && Here(k).ar == l.ar
      ensures done == [CrUpdated] ==> Here(k).cr.Some? && Here(k).cr.value.obj == cr
    {
      done := if Commits(update.net, Here(k).cr, Here(k).crPc.cr) then [CrUpdated] else [];
      CrUpdateShape(checkApproved, Here(k), world.clock, update, cr);
      Take(CrController, k, Label(k, update));
    }

    // ---------- calls of the AdcsRequest controller ----------

    /** The attempt is over and will be repeated. */
    ghost predicate Repeats(k: Key)
      reads this
    {
      Here(k).arPc.ArIdle? && Here(k).asked && Here(k).queued
    }

    method ArGetsAr(k: Key) returns (got: Lookup<Versioned<Ar>>)
      requires Valid() && Here(k).arPc.ArIdle? && Here(k).queued
      modifies this
      ensures Starts(ArController, k)
      ensures match got
              case Found(a) => Here(k).arPc == ArGetIssuer(a) && Here(k).ar == Some(a)
              case Missing => Here(k).arPc.ArIdle? && !Here(k).asked && Here(k).ar.None?
              case Unavailable => Repeats(k)
    {
      Others(ArController, k);
      var ok: bool := *;
      got := if !ok then Unavailable else if Here(k).ar.Some? then Found(Here(k).ar.value) else Missing;
      ArStartShape(checkApproved, Here(k), world.clock, ok);
      Take(ArController, k, Label(k, ArStart(ok)));
    }

    /** The issuer was resolved, to a server, or not. */
    method ArGotIssuer(k: Key, server: Option<string>)
      requires Valid() && Here(k).arPc.ArGetIssuer?
      modifies this
      ensures Turns(ArController, k, server)
      ensures var a := old(Here(k).arPc.ar);
              var st := a.obj.status;
              if server.None? || (st.state.Pending? && st.id == "") then Repeats(k)
              else Here(k).arPc == if st.state.Unknown? then ArSubmit(a, server.value)
                                   else if st.state.Pending? then ArPoll(a, server.value, st.id)
                                   else ArGetCr(a, st, [], [])
    {
      Others(ArController, k);
      Take(ArController, k, Label(k, ArIssuer(server)));
    }

    method ArPosted(k: Key, sent: CaAnswer, wire: Wire)
      requires Valid() && Here(k).arPc.ArSubmit? && (sent.Number? ==> IsDecimal(sent.id))
      modifies this
      ensures Goes(ArController, k)
      ensures var p := old(Here(k).arPc);
              match Read(sent, wire)
              case Inline(cert) => Here(k).arPc == ArChain(p.ar, ArStatus(Ready, "none", OBTAINED), cert)
              case Numbered(id) => Here(k).arPc == ArPoll(p.ar, p.server, id)
              case _ => Repeats(k)
    {
      Others(ArController, k);
      Take(ArController, k, Label(k, ArPost(sent, wire)));
    }

    method ArAnswered(k: Key, poll: PollReply)
      requires Valid() && Here(k).arPc.ArPoll?
      modifies this
      ensures Goes(ArController, k)
      ensures var p := old(Here(k).arPc);
              match poll
              case PollFailed => Repeats(k)
              case PollPending(desc) => Here(k).arPc == ArChain(p.ar, ArStatus(Pending, p.id, desc), [])
              case PollReady(cert) => Here(k).arPc == ArChain(p.ar, ArStatus(Ready, p.id, OBTAINED), cert)
              case PollRejected(desc) => Here(k).arPc == ArChain(p.ar, ArStatus(Rejected, p.id, desc), [])
              case PollErrored(desc) => Here(k).arPc == ArChain(p.ar, ArStatus(Errored, p.id, desc), [])
    {
      Others(ArController, k);
      Take(ArController, k, Label(k, ArPolled(poll)));
    }

    method ArFetched(k: Key, chain: Option<Bytes>)
      requires Valid() && Here(k).arPc.ArChain? && (chain.Some? ==> chain.value != [])
      modifies this
      ensures Goes(ArController, k)
      ensures var p := old(Here(k).arPc);
              if chain.None? then Repeats(k) else Here(k).arPc == ArGetCr(p.ar, p.next, p.cert, chain.value)
    {
      Others(ArController, k);
      Take(ArController, k, Label(k, ArChained(chain)));
    }

    method ArGetsCr(k: Key) returns (got: Lookup<Versioned<Cr>>)
      requires Valid() && Here(k).arPc.ArGetCr?
      modifies this
      ensures Goes(ArController, k)
      ensures got.Found? ==> Here(k).cr == Some(got.value)
      ensures var p := old(Here(k).arPc);
              match got
              case Found(c) => Here(k).arPc == if p.next.state.Terminal() then ArPutCr(p.ar, p.next, p.cert, p.ca, c)
                                               else ArPutAr(p.ar, p.next)
              case _ => Repeats(k)
    {
      Others(ArController, k);
      var ok: bool := *;
      got := if !ok then Unavailable else if Here(k).cr.Some? then Found(Here(k).cr.value) else Missing;
      Take(ArController, k, Label(k, ArLook(ok)));
    }

    method ArUpdatesCr(k: Key, cr: Versioned<Cr>) returns (err: bool, ghost done: seq<Change>)
      requires Valid() && Here(k).arPc.ArPutCr? && Here(k).arPc.next.state.Terminal()
      requires var p := Here(k).arPc;
               cr == Versioned(WithOutcome(p.cr.obj, p.next.state, p.cert, p.ca), p.cr.version)
      modifies this
      ensures Does(ArController, k, done) && (if err then done == [] || done == [CrUpdated] else done == [CrUpdated])
      ensures done == [CrUpdated] ==> Here(k).cr.Some? && Here(k).cr.value.obj == cr.obj
      ensures var p := old(Here(k).arPc);
              if err then Repeats(k) else Here(k).arPc == ArPutAr(p.ar, p.next)
    {
      Others(ArController, k);
      var net: Net := *;
      err := !Told(net, Here(k).cr, Here(k).arPc.cr);
      done := if Commits(net, Here(k).cr, Here(k).arPc.cr) then [CrUpdated] else [];
      Take(ArController, k, Label(k, ArWriteCr(net)));
    }

    method ArUpdatesAr(k: Key, ar: Versioned<Ar>) returns (err: bool, ghost done: seq<Change>)
      requires Valid() && Here(k).arPc.ArPutAr?
      requires ar == Versioned(Here(k).arPc.ar.obj.(status := Here(k).arPc.next), Here(k).arPc.ar.version)
      modifies this
      ensures Does(ArController, k, done) && (if err then done == [] || done == [ArUpdated] else done == [ArUpdated])
      ensures Here(k).arPc.ArIdle? && Here(k).asked == (err || ar.obj.status.state.Pending?)
      ensures Here(k).asked ==> Here(k).queued
      ensures done == [ArUpdated] ==> Here(k).ar.Some? && Here(k).ar.value.obj == ar.obj
    {
      Others(ArController, k);
      var net: Net := *;
      err := !Told(net, Here(k).ar, Here(k).arPc.ar);
      done := if Commits(net, Here(k).ar, Here(k).arPc.ar) then [ArUpdated] else [];
      Take(ArController, k, Label(k, ArWriteAr(net)));
    }
  }
}
