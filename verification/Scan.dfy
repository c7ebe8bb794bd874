/** The patterns the CA clients look for in a page, and what each of them finds. */
module Scan {
  import opened Base
  import opened Api
  import opened Regex

  const LINK_HEAD := "certnew"
  const LINK_TAIL := "cer?ReqID="
  const NOTICE_HEAD := "Your Request Id is "

  /** certnew.cer\?ReqID=([0-9]+)& */
  const LINK := Then(Lit(LINK_HEAD), Then(Any(Dot), Then(Lit(LINK_TAIL),
                Then(Run(Digit, 1, true), Then(Lit("&"), End)))))

  /** Your Request Id is ([0-9]+). */
  const NOTICE := Then(Lit(NOTICE_HEAD), Then(Run(Digit, 1, true), Then(Any(Dot), End)))

  /** var nRenewals=([0-9]+); */
  const RENEWALS := Then(Lit("var nRenewals="), Then(Run(Digit, 1, true), Then(Lit(";"), End)))

  /** text[^\t]+\t\t([^\r\n]+), for "Disposition message:" and "LastStatus:" */
  function Labelled(text: string): Pattern {
    Then(Lit(text), Then(Run(NotTab, 1, false), Then(Lit("\t\t"), Then(Run(NotEol, 1, true), End))))
  }

  /** .*textc*. : the star of the source binds to the last letter only. */
  function Mentions(text: string, c: char): Pattern {
    Then(Run(Dot, 0, false), Then(Lit(text), Then(Run(Just(c), 0, false), Then(Any(Dot), End))))
  }

  const TAKEN := "Taken Under Submissio"
  const DENIED_B := "Denied b"

  const SUBMITTED := Mentions(TAKEN, 'n')
  const REFUSED := Mentions(DENIED_B, 'y')

  // ---------- finding the first match ----------

  lemma {:induction false} FirstFrom(p: Pattern, s: string, i: nat, start: nat)
    requires i <= start <= |s| && MatchAt(p, s, start).Some?
    requires forall j | i <= j < start :: MatchAt(p, s, j).None?
    ensures FindFrom(p, s, i) == Some(Found(start, MatchAt(p, s, start).value))
    decreases start - i
  {
    if i < start { FirstFrom(p, s, i + 1, start); }
  }

  lemma {:induction false} FoundIsFirst(p: Pattern, s: string, i: nat)
    requires i <= |s|
    ensures var r := FindFrom(p, s, i);
            if r.Some? then
              && i <= r.value.start <= |s|
              && MatchAt(p, s, r.value.start) == Some(r.value.lens)
              && forall j | i <= j < r.value.start :: MatchAt(p, s, j).None?
            else forall j | i <= j <= |s| :: MatchAt(p, s, j).None?
    decreases |s| - i
  {
    if MatchAt(p, s, i).None? && i < |s| { FoundIsFirst(p, s, i + 1); }
  }

  lemma {:induction false} GroupInside(p: Pattern, s: string, i: nat, lens: seq<nat>)
    requires i <= |s| && Fits(p, s, i, lens)
    ensures i + GroupOffset(p, lens) + GroupLength(p, lens) <= |s|
    decreases p
  {
    if p.Then? { GroupInside(p.rest, s, i + lens[0], lens[1..]); }
  }

  /** FindStringSubmatch(s)[1]. */
  function Submatch(p: Pattern, s: string): Option<string> {
    FoundIsFirst(p, s, 0);
    var r := FindFrom(p, s, 0);
    if r.None? then None
    else
      MatchFits(p, s, r.value.start);
      GroupInside(p, s, r.value.start, r.value.lens);
      var from := r.value.start + GroupOffset(p, r.value.lens);
      Some(s[from..from + GroupLength(p, r.value.lens)])
  }

  /** Some n characters from `from` on, if there are as many. */
  function Piece(s: string, from: nat, n: nat): Option<string> {
    if from + n <= |s| then Some(s[from..from + n]) else None
  }

  /** What a match captures. */
  function Captured(p: Pattern, s: string, i: nat, lens: seq<nat>): Option<string>
    requires |lens| == Size(p)
  {
    Piece(s, i + GroupOffset(p, lens), GroupLength(p, lens))
  }

  /** The capture group of the leftmost match. */
  lemma GroupAt(p: Pattern, s: string, i: nat, lens: seq<nat>)
    requires i <= |s| && MatchAt(p, s, i) == Some(lens) && FindFrom(p, s, 0) == Some(Found(i, lens))
    ensures Submatch(p, s).Some? && Submatch(p, s) == Captured(p, s, i, lens)
  {
    MatchFits(p, s, i);
    GroupInside(p, s, i, lens);
  }

  // ---------- the request id in a link ----------

  predicate HasText(s: string, i: nat, text: string) { i + |text| <= |s| && s[i..i + |text|] == text }

  /** A link with id d starts at i. */
  predicate LinkAt(s: string, i: nat, d: string) {
    && HasText(s, i, LINK_HEAD)
    && i + 7 < |s| && s[i + 7] != '\n'
    && HasText(s, i + 8, LINK_TAIL)
    && IsDecimal(d) && HasText(s, i + 18, d)
    && HasText(s, i + 18 + |d|, "&")
  }

  lemma LinkFits(s: string, i: nat, lens: seq<nat>)
    requires i <= |s| && Fits(LINK, s, i, lens)
    ensures |lens| == 5 && i + 18 + lens[3] < |s| && LinkAt(s, i, s[i + 18..i + 18 + lens[3]])
    ensures GroupOffset(LINK, lens) == 18 && GroupLength(LINK, lens) == lens[3]
  {
    LinkTail(s, i, lens);
    LinkGroup(lens);
  }

  lemma LinkGroup(lens: seq<nat>)
    requires |lens| == 5
    ensures GroupOffset(LINK, lens) == lens[0] + lens[1] + lens[2] && GroupLength(LINK, lens) == lens[3]
  {
    SecondGroup(LINK.rest.rest, lens[1..][1..]);
    assert GroupOffset(LINK.rest, lens[1..]) == lens[1] + lens[2];
    assert GroupLength(LINK.rest, lens[1..]) == lens[3];
  }

  const LINK_ID := LINK.rest.rest.rest

  /** The digits and the ampersand. */
  lemma IdFits(s: string, i: nat, lens: seq<nat>)
    requires i <= |s| && Fits(LINK_ID, s, i, lens)
    ensures |lens| == 2 && i + lens[0] < |s| && IsDecimal(s[i..i + lens[0]]) && HasText(s, i + lens[0], "&")
  {
    assert Fits(LINK_ID.rest, s, i + lens[0], lens[1..]);
    assert lens[1..][0] == 1;
  }

  lemma LinkTail(s: string, i: nat, lens: seq<nat>)
    requires i <= |s| && Fits(LINK, s, i, lens)
    ensures |lens| == 5 && lens[..3] == [7, 1, 10] && i + 18 + lens[3] < |s|
    ensures LinkAt(s, i, s[i + 18..i + 18 + lens[3]])
  {
    var p1, l1 := LINK.rest, lens[1..];
    var p2, l2 := p1.rest, l1[1..];
    assert Fits(p1, s, i + 7, l1) && lens[0] == 7;
    assert Fits(p2, s, i + 8, l2) && l1[0] == 1;
    assert Fits(LINK_ID, s, i + 18, l2[1..]) && l2[0] == 10;
    IdFits(s, i + 18, l2[1..]);
  }

  lemma FitsLink(s: string, i: nat, d: string)
    requires LinkAt(s, i, d)
    ensures i <= |s| && MatchAt(LINK, s, i).Some?
  {
    var lens := [7, 1, 10, |d|, 1];
    var p1, l1 := LINK.rest, lens[1..];
    var p2, l2 := p1.rest, l1[1..];
    var p3, l3 := p2.rest, l2[1..];
    var p4, l4 := p3.rest, l3[1..];
    assert Fits(End, s, i + 19 + |d|, l4[1..]);
    assert Fits(p4, s, i + 18 + |d|, l4);
    assert forall j | i + 18 <= j < i + 18 + |d| :: s[j] == d[j - i - 18];
    assert Fits(p3, s, i + 18, l3);
    assert Fits(p2, s, i + 8, l2);
    assert Fits(p1, s, i + 7, l1);
    MatchPrefers(LINK, s, i, lens);
  }

  /** The digits between the link and its ampersand are all of them: a link has one id. */
  lemma WholeRun(s: string, i: nat, d: string)
    requires LinkAt(s, i, d)
    ensures |d| == RunLength(Digit, s, i + 18) && d == s[i + 18..i + 18 + |d|]
  {
    var n := RunLength(Digit, s, i + 18);
    assert s[i + 18 + |d|] == '&';
    assert forall j | 0 <= j < |d| :: s[i + 18 + j] == d[j];
  }

  lemma OneId(s: string, i: nat, d: string, d': string)
    requires LinkAt(s, i, d) && LinkAt(s, i, d')
    ensures d == d'
  {
    WholeRun(s, i, d);
    WholeRun(s, i, d');
  }

  /** The leftmost link is at i and has id d. */
  ghost predicate FirstLinkAt(s: string, i: nat, d: string) {
    LinkAt(s, i, d) && forall j: nat, d' | j < i :: !LinkAt(s, j, d')
  }

  /** The link scanner returns the id of the leftmost link, and nothing only when there is no link. */
  lemma LinkId(s: string)
    ensures match Submatch(LINK, s)
            case Some(d) => exists i: nat :: FirstLinkAt(s, i, d)
            case None => forall i: nat, d :: !LinkAt(s, i, d)
  {
    FoundIsFirst(LINK, s, 0);
    var r := FindFrom(LINK, s, 0);
    forall j: nat, d | LinkAt(s, j, d) ensures j <= |s| && MatchAt(LINK, s, j).Some? { FitsLink(s, j, d); }
    if r.Some? {
      GroupAt(LINK, s, r.value.start, r.value.lens);
      LinkFound(s, r.value.start, r.value.lens);
      assert FirstLinkAt(s, r.value.start, Submatch(LINK, s).value);
    }
  }

  lemma LinkFound(s: string, i: nat, lens: seq<nat>)
    requires i <= |s| && MatchAt(LINK, s, i) == Some(lens)
    ensures Captured(LINK, s, i, lens).Some? && LinkAt(s, i, Captured(LINK, s, i, lens).value)
  {
    MatchFits(LINK, s, i);
    LinkFits(s, i, lens);
  }

  /** Rendering a link and scanning the page gives the id back, whatever surrounds it. */
  lemma LinkRoundTrip(before: string, c: char, id: string, after: string)
    requires IsDecimal(id) && c != '\n'
    requires var page := before + LINK_HEAD + [c] + LINK_TAIL + id + "&" + after;
             forall j: nat, d | j < |before| :: !LinkAt(page, j, d)
    ensures Submatch(LINK, before + LINK_HEAD + [c] + LINK_TAIL + id + "&" + after) == Some(id)
  {
    var page := before + LINK_HEAD + [c] + LINK_TAIL + id + "&" + after;
    var i := |before|;
    assert page[i..i + 7] == LINK_HEAD && page[i + 7] == c && page[i + 8..i + 18] == LINK_TAIL;
    assert page[i + 18..i + 18 + |id|] == id && page[i + 18 + |id|..i + 19 + |id|] == "&";
    assert LinkAt(page, i, id);
    LinkId(page);
    var d := Submatch(LINK, page).value;
    var j: nat :| FirstLinkAt(page, j, d);
    OneId(page, i, id, d);
  }

  // ---------- the request id in a notice ----------

  function DigitsAt(s: string, i: nat): string
    requires i <= |s|
  {
    s[i..i + RunLength(Digit, s, i)]
  }

  /** The line goes on at i. */
  predicate LineGoesOn(s: string, i: nat) { i < |s| && s[i] != '\n' }

  /**
   What the notice pattern captures where it starts: the digits, all of them if
   the line goes on after them; otherwise its final dot needs the last digit.
   */
  function NoticeAt(s: string, i: nat): Option<string> {
    if !HasText(s, i, NOTICE_HEAD) then None
    else
      var digits := DigitsAt(s, i + 19);
      if digits != [] && LineGoesOn(s, i + 19 + |digits|) then Some(digits)
      else if |digits| >= 2 then Some(digits[..|digits| - 1])
      else None
  }

  lemma DotMatch(s: string, i: nat)
    requires i <= |s|
    ensures MatchAt(Then(Any(Dot), End), s, i) == if LineGoesOn(s, i) then Some([1]) else None
  {
    assert [1] + [] == [1];
    if i < |s| { assert MatchAt(End, s, i + 1) == Some([]); }
  }

  lemma DigitsThenDot(s: string, i: nat)
    requires i <= |s|
    ensures var n := RunLength(Digit, s, i);
            MatchAt(NOTICE.rest, s, i) == if n >= 1 && LineGoesOn(s, i + n) then Some([n, 1])
                                          else if n >= 2 then Some([n - 1, 1]) else None
  {
    var n := RunLength(Digit, s, i);
    var p := NOTICE.rest;
    assert MatchAt(p, s, i) == TryRun(p, s, i, n);
    DotMatch(s, i + n);
    if n >= 1 {
      assert [n] + [1] == [n, 1];
      if !LineGoesOn(s, i + n) {
        DotMatch(s, i + n - 1);
        assert LineGoesOn(s, i + n - 1) && [n - 1] + [1] == [n - 1, 1];
        assert TryRun(p, s, i, n) == TryRun(p, s, i, n - 1);
      }
    }
  }

  lemma NoticeMatch(s: string, i: nat)
    requires i <= |s|
    ensures MatchAt(NOTICE, s, i) == match NoticeAt(s, i)
                                     case None => None
                                     case Some(d) => Some([19, |d|, 1])
  {
    if HasText(s, i, NOTICE_HEAD) {
      DigitsThenDot(s, i + 19);
      var r := MatchAt(NOTICE.rest, s, i + 19);
      assert r.Some? ==> [19] + r.value == [19, r.value[0], 1];
    }
  }

  /** The leftmost notice with a usable number is at i and gives d. */
  ghost predicate FirstNoticeAt(s: string, i: nat, d: string) {
    NoticeAt(s, i) == Some(d) && forall j: nat | j < i :: NoticeAt(s, j).None?
  }

  /** The notice scanner returns what the leftmost notice with a usable number gives. */
  lemma NoticeId(s: string)
    ensures match Submatch(NOTICE, s)
            case Some(d) => exists i: nat :: FirstNoticeAt(s, i, d)
            case None => forall i: nat :: NoticeAt(s, i).None?
  {
    FoundIsFirst(NOTICE, s, 0);
    forall i: nat | i <= |s| ensures MatchAt(NOTICE, s, i).None? <==> NoticeAt(s, i).None? { NoticeMatch(s, i); }
    var r := FindFrom(NOTICE, s, 0);
    if r.Some? {
      GroupAt(NOTICE, s, r.value.start, r.value.lens);
      NoticeFound(s, r.value.start, r.value.lens);
      assert FirstNoticeAt(s, r.value.start, Submatch(NOTICE, s).value);
    }
  }

  lemma NoticeFound(s: string, i: nat, lens: seq<nat>)
    requires i <= |s| && MatchAt(NOTICE, s, i) == Some(lens)
    ensures NoticeAt(s, i).Some? && NoticeAt(s, i) == Captured(NOTICE, s, i, lens)
  {
    NoticeMatch(s, i);
    SecondGroup(NOTICE, lens);
    assert NoticeAt(s, i).value == s[i + 19..i + 19 + lens[1]];
  }

  /** The group of a pattern that captures its second item. */
  lemma SecondGroup(p: Pattern, lens: seq<nat>)
    requires p.Then? && p.rest.Then? && |lens| == Size(p)
    requires !(p.item.Run? && p.item.group) && p.rest.item.Run? && p.rest.item.group
    ensures GroupOffset(p, lens) == lens[0] && GroupLength(p, lens) == lens[1]
  {
    assert lens[1..][0] == lens[1];
  }

  /**
   The number of a notice is taken whole exactly when its line goes on after it;
   at the end of a line or of the page the last digit is lost.
   */
  lemma NoticeIsWhole(s: string, i: nat)
    requires NoticeAt(s, i).Some?
    ensures var digits := DigitsAt(s, i + 19);
            && IsDecimal(NoticeAt(s, i).value)
            && (NoticeAt(s, i) == Some(digits) <==> LineGoesOn(s, i + 19 + |digits|))
            && (!LineGoesOn(s, i + 19 + |digits|) ==> NoticeAt(s, i) == Some(digits[..|digits| - 1]))
  {}

  /** Where the notice that is read begins. */
  function NoticeStart(s: string): (r: Option<nat>)
    ensures r.Some? ==>
              r.value + 19 <= |s| && Submatch(NOTICE, s).Some? && FirstNoticeAt(s, r.value, Submatch(NOTICE, s).value)
    ensures r.None? <==> Submatch(NOTICE, s).None?
  {
    FoundIsFirst(NOTICE, s, 0);
    var r := FindFrom(NOTICE, s, 0);
    if r.None? then None
    else
      GroupAt(NOTICE, s, r.value.start, r.value.lens);
      NoticeFound(s, r.value.start, r.value.lens);
      NoticesBefore(s, r.value.start);
      Some(r.value.start)
  }

  lemma NoticesBefore(s: string, i: nat)
    requires i <= |s| && forall j | 0 <= j < i :: MatchAt(NOTICE, s, j).None?
    ensures forall j: nat | j < i :: NoticeAt(s, j).None?
  {
    forall j: nat | j < i ensures NoticeAt(s, j).None? { NoticeMatch(s, j); }
  }

  /** "Your Request Id is 202" at the end of a page is read as request 20. */
  lemma NoticeCutShort()
    ensures Submatch(NOTICE, NOTICE_HEAD + "202") == Some("20")
  {
    var s := NOTICE_HEAD + "202";
    assert s[0..19] == NOTICE_HEAD && s[19..22] == "202";
    assert RunLength(Digit, s, 22) == 0 && RunLength(Digit, s, 21) == 1 && RunLength(Digit, s, 20) == 2;
    assert DigitsAt(s, 19) == "202" && "202"[..2] == "20";
    assert NoticeAt(s, 0) == Some("20");
    NoticeId(s);
  }

  // ---------- a labelled line ----------

  /** text, a label without tabs, two tabs, and a line: the position of the line. */
  function LineStart(text: string, s: string, i: nat): Option<nat> {
    if !HasText(s, i, text) then None
    else
      var from := i + |text|;
      var n := RunLength(NotTab, s, from);
      if n >= 1 && HasText(s, from + n, "\t\t") && RunLength(NotEol, s, from + n + 2) >= 1
      then Some(from + n + 2) else None
  }

  function LineAt(s: string, i: nat): string
    requires i <= |s|
  {
    s[i..i + RunLength(NotEol, s, i)]
  }

  lemma RestOfLine(s: string, i: nat)
    requires i <= |s|
    ensures var n := RunLength(NotEol, s, i);
            MatchAt(Then(Run(NotEol, 1, true), End), s, i) == if n >= 1 then Some([n]) else None
  {
    var n := RunLength(NotEol, s, i);
    assert [n] + [] == [n];
    assert MatchAt(End, s, i + n) == Some([]);
  }

  const TABBED_LINE := Then(Lit("\t\t"), Then(Run(NotEol, 1, true), End))

  /** The lengths of two tabs and a line. */
  function TabbedLens(s: string, i: nat): Option<seq<nat>> {
    if HasText(s, i, "\t\t") && RunLength(NotEol, s, i + 2) >= 1 then Some([2, RunLength(NotEol, s, i + 2)]) else None
  }

  lemma TabbedLine(s: string, i: nat)
    requires i <= |s|
    ensures MatchAt(TABBED_LINE, s, i) == TabbedLens(s, i)
  {
    if HasText(s, i, "\t\t") {
      RestOfLine(s, i + 2);
      assert [2] + [RunLength(NotEol, s, i + 2)] == [2, RunLength(NotEol, s, i + 2)];
    }
  }

  const NAMED_LINE := Then(Run(NotTab, 1, false), TABBED_LINE)

  /** The lengths of a name, its tabs and its line. */
  function NamedLens(s: string, i: nat): Option<seq<nat>>
    requires i <= |s|
  {
    var n := RunLength(NotTab, s, i);
    if n >= 1 then Prepend(n, TabbedLens(s, i + n)) else None
  }

  lemma InsideName(s: string, i: nat, j: nat)
    requires i <= |s| && i < j < i + RunLength(NotTab, s, i)
    ensures MatchAt(TABBED_LINE, s, j).None?
  {
    TabbedLine(s, j);
    assert s[j] != '\t';
  }

  lemma NamedLine(s: string, i: nat)
    requires i <= |s|
    ensures MatchAt(NAMED_LINE, s, i) == NamedLens(s, i)
  {
    var n := RunLength(NotTab, s, i);
    forall j | i < j < i + n ensures MatchAt(TABBED_LINE, s, j).None? { InsideName(s, i, j); }
    RunMatch(NotTab, 1, false, TABBED_LINE, s, i);
    TabbedLine(s, i + n);
  }

  lemma LabelledMatch(text: string, s: string, i: nat)
    requires i <= |s|
    ensures MatchAt(Labelled(text), s, i) ==
            if HasText(s, i, text) then Prepend(|text|, NamedLens(s, i + |text|)) else None
    ensures LineStart(text, s, i).Some? <==> HasText(s, i, text) && NamedLens(s, i + |text|).Some?
  {
    LitMatch(text, NAMED_LINE, s, i);
    if HasText(s, i, text) { NamedLine(s, i + |text|); }
  }

  /** The leftmost label that has a line is at i, and this is the line. */
  ghost predicate FirstLineAt(text: string, s: string, i: nat, line: string) {
    && LineStart(text, s, i).Some? && line == LineAt(s, LineStart(text, s, i).value)
    && forall j: nat | j < i :: LineStart(text, s, j).None?
  }

  /** The scanner for a labelled line returns the whole line of the leftmost label that has one. */
  lemma LabelledLine(text: string, s: string)
    ensures match Submatch(Labelled(text), s)
            case Some(line) => exists i: nat :: FirstLineAt(text, s, i, line)
            case None => forall i: nat :: LineStart(text, s, i).None?
  {
    var p := Labelled(text);
    FoundIsFirst(p, s, 0);
    forall i: nat | i <= |s| ensures MatchAt(p, s, i).None? <==> LineStart(text, s, i).None? {
      LabelledMatch(text, s, i);
    }
    var r := FindFrom(p, s, 0);
    if r.Some? {
      GroupAt(p, s, r.value.start, r.value.lens);
      LabelledFound(text, s, r.value.start, r.value.lens);
      assert FirstLineAt(text, s, r.value.start, Submatch(p, s).value);
    }
  }

  lemma LabelledFound(text: string, s: string, i: nat, lens: seq<nat>)
    requires i <= |s| && MatchAt(Labelled(text), s, i) == Some(lens)
    ensures LineStart(text, s, i).Some?
    ensures Captured(Labelled(text), s, i, lens) == Some(LineAt(s, LineStart(text, s, i).value))
  {
    LabelledLens(text, s, i, lens);
    LabelledGroup(text, lens);
  }

  lemma LabelledLens(text: string, s: string, i: nat, lens: seq<nat>)
    requires i <= |s| && MatchAt(Labelled(text), s, i) == Some(lens)
    ensures |lens| == 4 && LineStart(text, s, i) == Some(i + lens[0] + lens[1] + lens[2])
    ensures i + lens[0] + lens[1] + lens[2] <= |s|
    ensures Piece(s, i + lens[0] + lens[1] + lens[2], lens[3]) == Some(LineAt(s, i + lens[0] + lens[1] + lens[2]))
  {
    LabelledMatch(text, s, i);
  }

  lemma LabelledGroup(text: string, lens: seq<nat>)
    requires |lens| == 4
    ensures GroupOffset(Labelled(text), lens) == lens[0] + lens[1] + lens[2]
    ensures GroupLength(Labelled(text), lens) == lens[3]
  {
    var p := Labelled(text);
    assert GroupOffset(p.rest.rest.rest, lens[1..][1..][1..]) == 0;
    assert GroupLength(p.rest.rest.rest, lens[1..][1..][1..]) == lens[3];
    assert GroupOffset(p.rest.rest, lens[1..][1..]) == lens[2];
    assert GroupLength(p.rest.rest, lens[1..][1..]) == lens[3];
  }

  lemma ExactRun(cls: Class, s: string, i: nat, run: string)
    requires HasText(s, i, run) && forall c | c in run :: cls.Has(c)
    requires i + |run| < |s| ==> !cls.Has(s[i + |run|])
    ensures RunLength(cls, s, i) == |run|
  {
    assert forall j | 0 <= j < |run| :: s[i + j] == run[j] && run[j] in run;
  }

  lemma LineOf(text: string, name: string, line: string, page: string, i: nat)
    requires name != [] && forall c | c in name :: c != '\t'
    requires line != [] && forall c | c in line :: NotEol.Has(c)
    requires HasText(page, i, text) && HasText(page, i + |text|, name)
    requires HasText(page, i + |text| + |name|, "\t\t") && HasText(page, i + |text| + |name| + 2, line)
    requires var end := i + |text| + |name| + 2 + |line|; end < |page| ==> !NotEol.Has(page[end])
    ensures LineStart(text, page, i) == Some(i + |text| + |name| + 2)
    ensures LineAt(page, i + |text| + |name| + 2) == line
  {
    var from := i + |text|;
    assert page[from + |name|] == page[from + |name|..from + |name| + 2][0];
    ExactRun(NotTab, page, from, name);
    ExactRun(NotEol, page, from + |name| + 2, line);
  }

  /** The parts of a rendered page stand where they were put. */
  lemma Rendered(text: string, before: string, name: string, line: string, after: string)
    ensures var page, from := before + text + name + "\t\t" + line + after, |before| + |text|;
            && HasText(page, |before|, text) && HasText(page, from, name)
            && HasText(page, from + |name|, "\t\t") && HasText(page, from + |name| + 2, line)
            && page[from + |name| + 2 + |line|..] == after
  {
    var page, from := before + text + name + "\t\t" + line + after, |before| + |text|;
    var start := from + |name| + 2;
    assert page[|before|..from] == text && page[from..from + |name|] == name;
    assert page[from + |name|..start] == "\t\t" && page[start..start + |line|] == line;
    assert page[start + |line|..] == after;
  }

  /** Rendering a labelled line and scanning the page gives the line back. */
  lemma LabelledRoundTrip(text: string, before: string, name: string, line: string, after: string)
    requires name != [] && forall c | c in name :: c != '\t'
    requires line != [] && forall c | c in line :: NotEol.Has(c)
    requires after != [] ==> !NotEol.Has(after[0])
    requires var page := before + text + name + "\t\t" + line + after;
             forall j: nat | j < |before| :: LineStart(text, page, j).None?
    ensures Submatch(Labelled(text), before + text + name + "\t\t" + line + after) == Some(line)
  {
    var page := before + text + name + "\t\t" + line + after;
    var i := |before|;
    Rendered(text, before, name, line, after);
    LineOf(text, name, line, page, i);
    FirstLine(text, page, i);
  }

  lemma FirstLine(text: string, page: string, i: nat)
    requires LineStart(text, page, i).Some? && forall j: nat | j < i :: LineStart(text, page, j).None?
    ensures Submatch(Labelled(text), page) == Some(LineAt(page, LineStart(text, page, i).value))
  {
    LabelledLine(text, page);
  }

  // ---------- the page-wide searches ----------

  /** The words are somewhere on the page, and their line goes on. */
  ghost predicate Says(text: string, s: string) {
    exists i: nat :: HasText(s, i, text) && LineGoesOn(s, i + |text|)
  }

  lemma MentionsFits(text: string, c: char, s: string, i: nat, lens: seq<nat>)
    requires c != '\n' && i <= |s| && Fits(Mentions(text, c), s, i, lens)
    ensures Says(text, s)
  {
    var p := Mentions(text, c);
    var l1 := lens[1..];
    var l2 := l1[1..];
    assert Fits(p.rest, s, i + lens[0], l1);
    var at := i + lens[0];
    assert HasText(s, at, text) && l1[0] == |text|;
    assert Fits(p.rest.rest, s, at + |text|, l2);
    assert Fits(p.rest.rest.rest, s, at + |text| + l2[0], l2[1..]);
    assert l2[0] > 0 ==> s[at + |text|] == c;
  }

  lemma FitsMentions(text: string, c: char, s: string, i: nat)
    requires HasText(s, i, text) && LineGoesOn(s, i + |text|)
    ensures i <= |s| && Fits(Mentions(text, c), s, i, [0, |text|, 0, 1])
  {
    var p := Mentions(text, c);
    var lens := [0, |text|, 0, 1];
    var at := i + |text|;
    assert lens[1..][1..][1..][1..] == [];
    assert Fits(End, s, at + 1, []);
    assert Fits(p.rest.rest.rest, s, at, lens[1..][1..][1..]);
    assert Fits(p.rest.rest, s, at, lens[1..][1..]);
    assert Fits(p.rest, s, i, lens[1..]);
  }

  /** What the starred patterns really ask for: the words up to the starred letter, then any character but a newline. */
  lemma PageSays(text: string, c: char, s: string)
    requires c != '\n'
    ensures Matches(Mentions(text, c), s) <==> Says(text, s)
  {
    Matcher(Mentions(text, c), s);
    if Matches(Mentions(text, c), s) {
      var i: nat, lens: seq<nat> :| i <= |s| && Fits(Mentions(text, c), s, i, lens);
      MentionsFits(text, c, s, i, lens);
    }
    if Says(text, s) {
      var i: nat :| HasText(s, i, text) && LineGoesOn(s, i + |text|);
      FitsMentions(text, c, s, i);
    }
  }

  // ---------- the renewal number ----------

  const RENEWAL_HEAD := "var nRenewals="

  /** The renewal number written at i: a whole run of digits closed by a semicolon. */
  function RenewalAt(s: string, i: nat): Option<string> {
    if !HasText(s, i, RENEWAL_HEAD) then None
    else
      var digits := DigitsAt(s, i + 14);
      if digits != [] && HasText(s, i + 14 + |digits|, ";") then Some(digits) else None
  }

  lemma SemicolonMatch(s: string, i: nat)
    requires i <= |s|
    ensures MatchAt(Then(Lit(";"), End), s, i) == if HasText(s, i, ";") then Some([1]) else None
  {
    assert [1] + [] == [1];
    if HasText(s, i, ";") { assert MatchAt(End, s, i + 1) == Some([]); }
  }

  const NUMBER := RENEWALS.rest

  lemma InsideNumber(s: string, i: nat, j: nat)
    requires i <= |s| && i < j < i + RunLength(Digit, s, i)
    ensures MatchAt(NUMBER.rest, s, j).None?
  {
    SemicolonMatch(s, j);
    assert s[j] != ';';
  }

  lemma NumberMatch(s: string, i: nat)
    requires i <= |s|
    ensures var n := RunLength(Digit, s, i);
            MatchAt(NUMBER, s, i) == if n >= 1 && HasText(s, i + n, ";") then Some([n, 1]) else None
  {
    var n := RunLength(Digit, s, i);
    forall j | i < j < i + n ensures MatchAt(NUMBER.rest, s, j).None? { InsideNumber(s, i, j); }
    RunMatch(Digit, 1, true, NUMBER.rest, s, i);
    SemicolonMatch(s, i + n);
    assert [n] + [1] == [n, 1];
  }

  lemma RenewalMatch(s: string, i: nat)
    requires i <= |s|
    ensures MatchAt(RENEWALS, s, i) == match RenewalAt(s, i)
                                       case None => None
                                       case Some(d) => Some([14, |d|, 1])
  {
    LitMatch(RENEWAL_HEAD, NUMBER, s, i);
    if HasText(s, i, RENEWAL_HEAD) {
      NumberMatch(s, i + 14);
      assert forall n: nat :: [14] + [n, 1] == [14, n, 1];
    }
  }

  ghost predicate FirstRenewalAt(s: string, i: nat, d: string) {
    RenewalAt(s, i) == Some(d) && forall j: nat | j < i :: RenewalAt(s, j).None?
  }

  /** The renewal scanner returns the leftmost well-formed renewal number. */
  lemma RenewalNumber(s: string)
    ensures match Submatch(RENEWALS, s)
            case Some(d) => IsDecimal(d) && exists i: nat :: FirstRenewalAt(s, i, d)
            case None => forall i: nat :: RenewalAt(s, i).None?
  {
    FoundIsFirst(RENEWALS, s, 0);
    forall i: nat | i <= |s| ensures MatchAt(RENEWALS, s, i).None? <==> RenewalAt(s, i).None? { RenewalMatch(s, i); }
    var r := FindFrom(RENEWALS, s, 0);
    if r.Some? {
      GroupAt(RENEWALS, s, r.value.start, r.value.lens);
      RenewalFound(s, r.value.start, r.value.lens);
      assert FirstRenewalAt(s, r.value.start, Submatch(RENEWALS, s).value);
    }
  }

  lemma RenewalFound(s: string, i: nat, lens: seq<nat>)
    requires i <= |s| && MatchAt(RENEWALS, s, i) == Some(lens)
    ensures RenewalAt(s, i).Some? && RenewalAt(s, i) == Captured(RENEWALS, s, i, lens)
    ensures IsDecimal(RenewalAt(s, i).value)
  {
    RenewalMatch(s, i);
    SecondGroup(RENEWALS, lens);
    assert RenewalAt(s, i).value == s[i + 14..i + 14 + lens[1]];
  }
}
