/** Runs in which nobody steps in between. */
module Solo {
  import opened Api
  import opened Protocol
  import opened Invariant
  import opened Safety
  import opened Incarnations

  // ---------- the CertificateRequest controller, run twice ----------

  /** A reconcile from here returns at its first or second Get, without a write. */
  predicate Quiet(c: bool, l: Local, ok: bool, ok': bool)
    requires l.crPc.CrIdle?
  {
    var l1 := CrStartStep(c, l, ok);
    && SameStore(l, l1)
    && (l1.crPc.CrIdle? ||
        (l1.crPc.CrGetAr? && CrLookStep(l1, ok').crPc.CrIdle? && SameStore(l, CrLookStep(l1, ok'))))
  }

  /**
   A reconcile right after one that passed the gates and returned without an
   error changes nothing, whoever stepped in during the first: unless the same
   CertificateRequest has been denied meanwhile, and then it is about to be marked.
   */
  lemma SecondRunChangesNothing(c: bool, w: World, x: Label, ok: bool, ok': bool)
    requires Reachable(c, w) && CanStep(w, x)
    requires !At(w, x.key).crPc.CrIdle? && !At(w, x.key).crPc.CrSetDenied?
    requires At(Step(c, w, x), x.key).crPc.CrIdle? && !At(Step(c, w, x), x.key).crErr
    requires var l' := At(Step(c, w, x), x.key);
             l'.cr.Some? ==> l'.cr.value.obj.uid == At(w, x.key).crPc.cr.obj.uid
    ensures var l' := At(Step(c, w, x), x.key);
            Quiet(c, l', ok, ok') <==> !(ok && l'.cr.Some? && Gate(c, l'.cr.value.obj) == MarkDenied)
  {
    ReachableInv(c, w, x.key);
    ReachableName(c, w, x.key);
    CleanReturn(c, At(w, x.key), w.clock, x.action);
    SecondRunHere(c, At(w, x.key), w.clock, x.action, ok, ok');
  }

  lemma SecondRunHere(c: bool, l: Local, now: nat, a: Action, ok: bool, ok': bool)
    requires CrInv(c, l, now) && PastInv(l, now) && Enabled(l, a) && (a.CrLook? || a.CrPending?)
    requires StepLocal(c, l, now, a).crPc.CrIdle? && !StepLocal(c, l, now, a).crErr
    requires var l' := StepLocal(c, l, now, a); l'.cr.Some? ==> l'.cr.value.obj.uid == l.crPc.cr.obj.uid
    ensures var l' := StepLocal(c, l, now, a);
            Quiet(c, l', ok, ok') <==> !(ok && l'.cr.Some? && Gate(c, l'.cr.value.obj) == MarkDenied)
  {
    var l' := StepLocal(c, l, now, a);
    ConvergedHere(c, l, now, a);
    assert l'.cr.Some? ==> l'.cr.value.obj.request == l.crPc.cr.obj.request;
  }

  // ---------- one name on its own ----------

  datatype One = One(l: Local, now: nat, ca: Ca)

  const START := One(EMPTY, 0, Ca([], {}))

  function OneStep(c: bool, k: Key, s: One, a: Action): One
    requires Enabled(s.l, a)
  {
    One(StepLocal(c, s.l, s.now, a), s.now + 1, CaAfter(k, s.l, s.ca, a))
  }

  /** `acts`, taken one after the other, lead from `s` to `t`. */
  predicate Leads(c: bool, k: Key, s: One, acts: seq<Action>, t: One)
    decreases |acts|
  {
    if acts == [] then s == t
    else Enabled(s.l, acts[0]) && Leads(c, k, OneStep(c, k, s, acts[0]), acts[1..], t)
  }

  function Labels(k: Key, acts: seq<Action>): seq<Label> {
    if acts == [] then [] else [Label(k, acts[0])] + Labels(k, acts[1..])
  }

  /** A run at one name is a run of the whole system. */
  lemma {:induction false} LeadsIsRun(c: bool, w: World, k: Key, acts: seq<Action>, t: One)
    requires Leads(c, k, One(At(w, k), w.clock, w.ca), acts, t)
    ensures Runs(c, w, Labels(k, acts))
    ensures var w' := After(c, w, Labels(k, acts)); At(w', k) == t.l && w'.clock == t.now && w'.ca == t.ca
    decreases |acts|
  {
    if acts != [] {
      var xs := Labels(k, acts);
      assert xs[0] == Label(k, acts[0]) && xs[1..] == Labels(k, acts[1..]);
      LeadsIsRun(c, Step(c, w, xs[0]), k, acts[1..], t);
    }
  }

  lemma First(c: bool, k: Key, s: One, a: Action, acts: seq<Action>, t: One)
    requires Enabled(s.l, a) && Leads(c, k, OneStep(c, k, s, a), acts, t)
    ensures Leads(c, k, s, [a] + acts, t)
  {
    assert ([a] + acts)[1..] == acts;
  }

  lemma {:induction false} Chain(c: bool, k: Key, s: One, xs: seq<Action>, t: One, ys: seq<Action>, u: One)
    requires Leads(c, k, s, xs, t) && Leads(c, k, t, ys, u)
    ensures Leads(c, k, s, xs + ys, u)
    decreases |xs|
  {
    if xs == [] {
      assert xs + ys == ys;
    } else {
      assert xs + ys == [xs[0]] + (xs[1..] + ys);
      Chain(c, k, OneStep(c, k, s, xs[0]), xs[1..], t, ys, u);
    }
  }

  lemma Two(c: bool, k: Key, s: One, a: Action, s1: One, b: Action, t: One)
    requires Enabled(s.l, a) && s1 == OneStep(c, k, s, a)
    requires Enabled(s1.l, b) && t == OneStep(c, k, s1, b)
    ensures Leads(c, k, s, [a, b], t)
  {
    First(c, k, s1, b, [], t);
    First(c, k, s, a, [b], t);
    assert [b] == [b] + [] && [a, b] == [a] + [b];
  }

  lemma Next(c: bool, k: Key, s: One, acts: seq<Action>, t: One, a: Action) returns (u: One)
    requires Leads(c, k, s, acts, t) && Enabled(t.l, a)
    ensures u == OneStep(c, k, t, a) && Leads(c, k, s, acts + [a], u)
  {
    u := OneStep(c, k, t, a);
    First(c, k, t, a, [], u);
    assert [a] == [a] + [];
    Chain(c, k, s, acts, t, [a], u);
  }

  lemma Four(c: bool, k: Key, s: One, a: Action, s1: One, b: Action, s2: One, d: Action, s3: One, e: Action, t: One)
    requires Enabled(s.l, a) && s1 == OneStep(c, k, s, a)
    requires Enabled(s1.l, b) && s2 == OneStep(c, k, s1, b)
    requires Enabled(s2.l, d) && s3 == OneStep(c, k, s2, d)
    requires Enabled(s3.l, e) && t == OneStep(c, k, s3, e)
    ensures Leads(c, k, s, [a, b, d, e], t)
  {
    Two(c, k, s, a, s1, b, s2);
    Two(c, k, s2, d, s3, e, t);
    Chain(c, k, s, [a, b], s2, [d, e], t);
    assert [a, b] + [d, e] == [a, b, d, e];
  }
}
