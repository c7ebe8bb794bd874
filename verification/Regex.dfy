/**
 The fragment of Go's regular expressions the CA clients use: sequences of
 literals, single characters of a class and greedy runs of a class. The matcher
 backtracks as the language defines it (leftmost start, longest run first) and is
 proved against a declarative relation saying which texts fit a pattern how.
 */
module Regex {
  import opened Base

  datatype Class = Digit | NotTab | NotEol | Dot | Just(c: char) {
    predicate Has(ch: char) {
      match this
      case Digit => '0' <= ch <= '9'
      case NotTab => ch != '\t'
      case NotEol => ch != '\r' && ch != '\n'
      case Dot => ch != '\n'
      case Just(c) => ch == c
    }
  }

  /** `Run` is class+ (min 1) or class* (min 0); at most one run of a pattern is the capture group. */
  datatype Item = Lit(text: string) | Any(cls: Class) | Run(cls: Class, min: nat, group: bool)

  datatype Pattern = End | Then(item: Item, rest: Pattern)

  function Size(p: Pattern): nat { if p.End? then 0 else 1 + Size(p.rest) }

  // ---------- which texts fit ----------

  ghost predicate ItemFits(it: Item, s: string, i: nat, n: nat) {
    && i + n <= |s|
    && match it
       case Lit(text) => s[i..i + n] == text
       case Any(cls) => n == 1 && cls.Has(s[i])
       case Run(cls, min, _) => min <= n && forall j | i <= j < i + n :: cls.Has(s[j])
  }

  /** Item number x of the pattern takes lens[x] characters, the first from position i on. */
  ghost predicate Fits(p: Pattern, s: string, i: nat, lens: seq<nat>)
    decreases p
  {
    && |lens| == Size(p)
    && (p.Then? ==> ItemFits(p.item, s, i, lens[0]) && Fits(p.rest, s, i + lens[0], lens[1..]))
  }

  /** Longer earlier runs are preferred. */
  ghost predicate Preferred(a: seq<nat>, b: seq<nat>)
    decreases |a|
  {
    |a| == |b| && (a == [] || a[0] > b[0] || (a[0] == b[0] && Preferred(a[1..], b[1..])))
  }

  // ---------- the matcher ----------

  function RunLength(cls: Class, s: string, i: nat): (n: nat)
    requires i <= |s|
    ensures i + n <= |s|
    ensures forall j | i <= j < i + n :: cls.Has(s[j])
    ensures i + n < |s| ==> !cls.Has(s[i + n])
    decreases |s| - i
  {
    if i < |s| && cls.Has(s[i]) then 1 + RunLength(cls, s, i + 1) else 0
  }

  function Prepend(n: nat, r: Option<seq<nat>>): Option<seq<nat>> {
    if r.Some? then Some([n] + r.value) else None
  }

  function MatchAt(p: Pattern, s: string, i: nat): (r: Option<seq<nat>>)
    requires i <= |s|
    ensures r.Some? ==> |r.value| == Size(p)
    decreases p, |s| + 2
  {
    if p.End? then Some([])
    else match p.item
      case Lit(text) =>
        if i + |text| <= |s| && s[i..i + |text|] == text
        then Prepend(|text|, MatchAt(p.rest, s, i + |text|)) else None
      case Any(cls) =>
        if i < |s| && cls.Has(s[i]) then Prepend(1, MatchAt(p.rest, s, i + 1)) else None
      case Run(cls, min, _) => TryRun(p, s, i, RunLength(cls, s, i))
  }

  /** The run takes n characters, or fewer if the rest does not fit. */
  function TryRun(p: Pattern, s: string, i: nat, n: nat): (r: Option<seq<nat>>)
    requires p.Then? && p.item.Run? && i + n <= |s|
    ensures r.Some? ==> |r.value| == Size(p)
    decreases p, n + 1
  {
    if n < p.item.min then None
    else
      var r := MatchAt(p.rest, s, i + n);
      if r.Some? then Some([n] + r.value)
      else if n == 0 then None
      else TryRun(p, s, i, n - 1)
  }

  datatype Found = Found(start: nat, lens: seq<nat>)

  function FindFrom(p: Pattern, s: string, i: nat): Option<Found>
    requires i <= |s|
    decreases |s| - i
  {
    var r := MatchAt(p, s, i);
    if r.Some? then Some(Found(i, r.value))
    else if i < |s| then FindFrom(p, s, i + 1)
    else None
  }

  function Matches(p: Pattern, s: string): bool { FindFrom(p, s, 0).Some? }

  /** Where the capture group begins, counted from the start of the match. */
  function GroupOffset(p: Pattern, lens: seq<nat>): nat
    requires |lens| == Size(p)
    decreases p
  {
    if p.End? || (p.item.Run? && p.item.group) then 0 else lens[0] + GroupOffset(p.rest, lens[1..])
  }

  function GroupLength(p: Pattern, lens: seq<nat>): nat
    requires |lens| == Size(p)
    decreases p
  {
    if p.End? then 0 else if p.item.Run? && p.item.group then lens[0] else GroupLength(p.rest, lens[1..])
  }

  // ---------- one item at a time ----------

  lemma LitMatch(text: string, rest: Pattern, s: string, i: nat)
    requires i <= |s|
    ensures MatchAt(Then(Lit(text), rest), s, i) ==
            if i + |text| <= |s| && s[i..i + |text|] == text then Prepend(|text|, MatchAt(rest, s, i + |text|))
            else None
  {}

  lemma {:induction false} NoShorterRun(p: Pattern, s: string, i: nat, n: nat)
    requires p.Then? && p.item.Run? && i + n <= |s|
    requires forall j | i + p.item.min <= j <= i + n :: MatchAt(p.rest, s, j).None?
    ensures TryRun(p, s, i, n) == None
  {
    if n > 0 { NoShorterRun(p, s, i, n - 1); }
  }

  /** A run that cannot stop early stops at its end. */
  lemma RunMatch(cls: Class, min: nat, group: bool, rest: Pattern, s: string, i: nat)
    requires i <= |s|
    requires forall j | i + min <= j < i + RunLength(cls, s, i) :: MatchAt(rest, s, j).None?
    ensures var n := RunLength(cls, s, i);
            MatchAt(Then(Run(cls, min, group), rest), s, i) ==
            if n >= min then Prepend(n, MatchAt(rest, s, i + n)) else None
  {
    var p, n := Then(Run(cls, min, group), rest), RunLength(cls, s, i);
    assert MatchAt(p, s, i) == TryRun(p, s, i, n);
    if n >= min && MatchAt(rest, s, i + n).None? { NoShorterRun(p, s, i, n); }
  }

  // ---------- the matcher finds what fits, and the preferred way first ----------

  lemma {:induction false} MatchFits(p: Pattern, s: string, i: nat)
    requires i <= |s| && MatchAt(p, s, i).Some?
    ensures Fits(p, s, i, MatchAt(p, s, i).value)
    decreases p, |s| + 2
  {
    if p.Then? {
      match p.item
      case Lit(text) => MatchFits(p.rest, s, i + |text|);
      case Any(_) => MatchFits(p.rest, s, i + 1);
      case Run(cls, _, _) => RunFits(p, s, i, RunLength(cls, s, i));
    }
  }

  lemma {:induction false} RunFits(p: Pattern, s: string, i: nat, n: nat)
    requires p.Then? && p.item.Run? && i + n <= |s| && n <= RunLength(p.item.cls, s, i)
    requires TryRun(p, s, i, n).Some?
    ensures Fits(p, s, i, TryRun(p, s, i, n).value)
    decreases p, n + 1
  {
    if MatchAt(p.rest, s, i + n).Some? {
      MatchFits(p.rest, s, i + n);
    } else {
      RunFits(p, s, i, n - 1);
    }
  }

  lemma {:induction false} MatchPrefers(p: Pattern, s: string, i: nat, lens: seq<nat>)
    requires i <= |s| && Fits(p, s, i, lens)
    ensures MatchAt(p, s, i).Some? && Preferred(MatchAt(p, s, i).value, lens)
    decreases p, |s| + 2
  {
    if p.Then? {
      var r := MatchAt(p, s, i);
      if p.item.Run? {
        RunPrefers(p, s, i, RunLength(p.item.cls, s, i), lens);
      } else {
        MatchPrefers(p.rest, s, i + lens[0], lens[1..]);
        assert r.value[1..] == MatchAt(p.rest, s, i + lens[0]).value;
      }
    }
  }

  lemma {:induction false} RunPrefers(p: Pattern, s: string, i: nat, n: nat, lens: seq<nat>)
    requires p.Then? && p.item.Run? && i + n <= |s| && n <= RunLength(p.item.cls, s, i)
    requires Fits(p, s, i, lens) && lens[0] <= n
    ensures TryRun(p, s, i, n).Some? && Preferred(TryRun(p, s, i, n).value, lens)
    decreases p, n + 1
  {
    if lens[0] == n { MatchPrefers(p.rest, s, i + n, lens[1..]); }
    var rest := MatchAt(p.rest, s, i + n);
    if rest.Some? {
      assert TryRun(p, s, i, n).value[1..] == rest.value;
    } else {
      RunPrefers(p, s, i, n - 1, lens);
    }
  }

  /** The search returns the leftmost start at which the pattern fits, and there the preferred fit. */
  lemma {:induction false} FindsLeftmost(p: Pattern, s: string, i: nat)
    requires i <= |s|
    ensures var r := FindFrom(p, s, i);
            && (r.Some? ==> && i <= r.value.start <= |s|
                            && Fits(p, s, r.value.start, r.value.lens)
                            && (forall lens | Fits(p, s, r.value.start, lens) :: Preferred(r.value.lens, lens)))
            && forall j, lens | i <= j <= |s| && Fits(p, s, j, lens) :: r.Some? && r.value.start <= j
    decreases |s| - i
  {
    var here := MatchAt(p, s, i);
    forall lens | Fits(p, s, i, lens) ensures here.Some? && Preferred(here.value, lens) {
      MatchPrefers(p, s, i, lens);
    }
    if here.Some? {
      MatchFits(p, s, i);
    } else if i < |s| {
      FindsLeftmost(p, s, i + 1);
    }
  }

  /** The preferred fit is unique, so the matcher's answer is determined by the relation. */
  lemma {:induction false} PreferredBothWays(a: seq<nat>, b: seq<nat>)
    requires Preferred(a, b) && Preferred(b, a)
    ensures a == b
    decreases |a|
  {
    if a != [] { PreferredBothWays(a[1..], b[1..]); }
  }

  /** Some part of the text fits the pattern. */
  ghost predicate Accepts(p: Pattern, s: string) {
    exists i: nat, lens: seq<nat> :: i <= |s| && Fits(p, s, i, lens)
  }

  lemma {:induction false} Matcher(p: Pattern, s: string)
    ensures Matches(p, s) <==> Accepts(p, s)
  {
    FindsLeftmost(p, s, 0);
  }
}
