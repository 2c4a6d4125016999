/** When the messages of a split reply keep their Markdown fences and brackets in balance. */
module ReplyBalance {
  import opened ReplySplit

  predicate Ticks(x: string, y: string) {
    x != [] && y != [] && x[|x| - 1] == '`' && y[0] == '`'
  }

  /** Fences add up over a cut that does not fall inside a run of backticks. */
  lemma {:induction false} FencesJoin(x: string, y: string)
    requires !Ticks(x, y)
    ensures Fences(x + y) == Fences(x) + Fences(y)
    decreases |x|
  {
    if x == [] {
      assert x + y == y;
    } else if FenceAt(x) {
      assert (x + y)[3..] == x[3..] + y;
      FencesJoin(x[3..], y);
    } else {
      assert (x + y)[1..] == x[1..] + y;
      FencesJoin(x[1..], y);
    }
  }

  lemma {:induction false} BracketsJoin(x: string, y: string)
    requires Brackets(x) == 0
    ensures Brackets(x + y) == Brackets(y)
  {
    if y == [] {
      assert x + y == x;
    } else {
      BracketsJoin(x, y[..|y| - 1]);
      assert (x + y)[..|x + y| - 1] == x + y[..|y| - 1];
    }
  }

  lemma {:induction false} BlankState(s: string)
    requires Blank(s)
    ensures Fences(s) == 0 && Brackets(s) == 0
    decreases |s|
  {
    if s != [] {
      BlankBrackets(s);
      if |s| >= 3 { BlankState(s[1..]); }
    }
  }

  lemma {:induction false} BlankBrackets(s: string)
    requires Blank(s)
    ensures Brackets(s) == 0
  {
    if s != [] { BlankBrackets(s[..|s| - 1]); }
  }

  lemma {:induction false} TrailingBlankBrackets(x: string, gap: string)
    requires Blank(gap)
    ensures Brackets(x + gap) == Brackets(x)
  {
    if gap == [] {
      assert x + gap == x;
    } else {
      TrailingBlankBrackets(x, gap[..|gap| - 1]);
      assert (x + gap)[..|x + gap| - 1] == x + gap[..|gap| - 1];
    }
  }

  /** Trailing whitespace does not change the state. */
  lemma TrailingBlank(x: string, gap: string)
    requires Blank(gap)
    ensures Balanced(x + gap) <==> Balanced(x)
  {
    BlankState(gap);
    FencesJoin(x, gap);
    TrailingBlankBrackets(x, gap);
  }

  // ----- Fences across a cut -----

  function Ticked(n: nat): string {
    seq(n, i => '`')
  }

  function LeadingTicks(s: string): nat {
    if s != [] && s[0] == '`' then 1 + LeadingTicks(s[1..]) else 0
  }

  function TrailingTicks(s: string): nat {
    if s != [] && s[|s| - 1] == '`' then 1 + TrailingTicks(s[..|s| - 1]) else 0
  }

  /** How many fences a run of n backticks makes, and how many backticks are left over. */
  function Thirds(n: nat): nat {
    if n < 3 then 0 else 1 + Thirds(n - 3)
  }

  function LeftOver(n: nat): nat {
    if n < 3 then n else LeftOver(n - 3)
  }

  lemma {:induction false} ThirdsMean(n: nat)
    ensures Thirds(n) == n / 3 && LeftOver(n) == n % 3
  {
    if n >= 3 { ThirdsMean(n - 3); }
  }

  lemma {:induction false} ThirdsJoin(a: nat, b: nat)
    ensures Thirds(a + b) == Thirds(a) + Thirds(b) + if LeftOver(a) + LeftOver(b) >= 3 then 1 else 0
    decreases a + b
  {
    if a >= 3 { ThirdsJoin(a - 3, b); } else if b >= 3 { ThirdsJoin(a, b - 3); }
  }

  /** The backticks left over on both sides of the cut make up one more fence. */
  predicate SplitsFence(x: string, y: string) {
    LeftOver(TrailingTicks(x)) + LeftOver(LeadingTicks(y)) >= 3
  }

  lemma {:induction false} TickedFences(n: nat)
    ensures Fences(Ticked(n)) == Thirds(n)
  {
    if n >= 3 {
      assert Ticked(n)[3..] == Ticked(n - 3);
      TickedFences(n - 3);
    }
  }

  lemma LeadingGrows(y: string, b: nat)
    requires 0 < b <= |y| && y[0] == '`' && y[1..] == Ticked(b - 1) + y[1..][b - 1..]
    ensures y == Ticked(b) + y[b..]
  {
    assert y == [y[0]] + y[1..] && Ticked(b) == ['`'] + Ticked(b - 1) && y[1..][b - 1..] == y[b..];
  }

  lemma {:induction false} LeadingParts(y: string)
    ensures var b := LeadingTicks(y); b <= |y| && y == Ticked(b) + y[b..] && (b < |y| ==> y[b] != '`')
  {
    if y != [] && y[0] == '`' {
      LeadingParts(y[1..]);
      LeadingGrows(y, LeadingTicks(y));
    } else {
      assert Ticked(0) == [] && y[0..] == y;
    }
  }

  lemma TrailingGrows(x: string, a: nat, front: string)
    requires 0 < a <= |x| && front == x[..|x| - 1] && x[|x| - 1] == '`' && front == front[..|x| - a] + Ticked(a - 1)
    ensures x == x[..|x| - a] + Ticked(a)
  {
    assert x == front + [x[|x| - 1]] && Ticked(a) == Ticked(a - 1) + ['`'] && front[..|x| - a] == x[..|x| - a];
  }

  lemma {:induction false} TrailingParts(x: string)
    ensures var a := TrailingTicks(x);
      a <= |x| && x == x[..|x| - a] + Ticked(a) && (a < |x| ==> x[|x| - a - 1] != '`')
  {
    if x != [] && x[|x| - 1] == '`' {
      TrailingParts(x[..|x| - 1]);
      TrailingGrows(x, TrailingTicks(x), x[..|x| - 1]);
    } else {
      assert Ticked(0) == [] && x[..|x|] == x;
    }
  }

  /** A run of backticks between other text. */
  lemma RunBetween(front: string, n: nat, back: string)
    requires front == [] || front[|front| - 1] != '`'
    requires back == [] || back[0] != '`'
    ensures Fences(front + Ticked(n) + back) == Fences(front) + Thirds(n) + Fences(back)
  {
    assert front + Ticked(n) + back == front + (Ticked(n) + back);
    FencesJoin(front, Ticked(n) + back);
    FencesJoin(Ticked(n), back);
    TickedFences(n);
  }

  lemma TickedJoin(a: nat, b: nat)
    ensures Ticked(a) + Ticked(b) == Ticked(a + b)
  {}

  lemma RunsMeet(front: string, a: nat, b: nat, back: string)
    ensures (front + Ticked(a)) + (Ticked(b) + back) == front + Ticked(a + b) + back
  {
    TickedJoin(a, b);
  }

  lemma RunAfter(front: string, a: nat)
    requires front == [] || front[|front| - 1] != '`'
    ensures Fences(front + Ticked(a)) == Fences(front) + Thirds(a)
  {
    FencesJoin(front, Ticked(a));
    TickedFences(a);
  }

  lemma RunBefore(b: nat, back: string)
    requires back == [] || back[0] != '`'
    ensures Fences(Ticked(b) + back) == Thirds(b) + Fences(back)
  {
    FencesJoin(Ticked(b), back);
    TickedFences(b);
  }

  lemma FencesAcrossRun(front: string, a: nat, b: nat, back: string)
    requires front == [] || front[|front| - 1] != '`'
    requires back == [] || back[0] != '`'
    ensures Fences((front + Ticked(a)) + (Ticked(b) + back))
         == Fences(front + Ticked(a)) + Fences(Ticked(b) + back) + if LeftOver(a) + LeftOver(b) >= 3 then 1 else 0
  {
    RunsMeet(front, a, b, back);
    RunBetween(front, a + b, back);
    RunAfter(front, a);
    RunBefore(b, back);
    ThirdsJoin(a, b);
  }

  /** Fences over any cut: those of both sides, and one more if the cut splits a fence. */
  lemma FencesAcross(x: string, y: string)
    ensures Fences(x + y) == Fences(x) + Fences(y) + if SplitsFence(x, y) then 1 else 0
  {
    TrailingParts(x);
    LeadingParts(y);
    FencesAcrossRun(x[..|x| - TrailingTicks(x)], TrailingTicks(x), LeadingTicks(y), y[LeadingTicks(y)..]);
  }

  /** How many cuts of the text split a fence. */
  function SplitFences(s: string, limit: nat): nat
    requires limit >= 1
    decreases |s|
  {
    if |s| <= limit then 0
    else
      var b := NextCut(s, limit).boundary;
      (if SplitsFence(s[..b], s[b..]) then 1 else 0) + SplitFences(LStrip(s[b..]), limit)
  }

  /** The hard limit is forced on unbalanced text: no boundary was found, or the piece before it was blank. */
  predicate ForcedCut(s: string, limit: nat)
    requires 1 <= limit < |s|
  {
    !Balanced(s[..limit]) && (Boundary(s, limit) == 0 || Blank(s[..Boundary(s, limit)]))
  }

  predicate NoForcedCuts(s: string, limit: nat)
    requires limit >= 1
    decreases |s|
  {
    |s| <= limit || (!ForcedCut(s, limit) && NoForcedCuts(LStrip(s[NextCut(s, limit).boundary..]), limit))
  }

  /** A piece is balanced exactly when the hard limit was not forced. */
  lemma PieceBalancedExactlyWhen(s: string, limit: nat)
    requires 1 <= limit < |s|
    ensures var c := NextCut(s, limit);
      (Balanced(c.piece) <==> !ForcedCut(s, limit)) && (Balanced(c.piece) <==> Balanced(s[..c.boundary]))
  {
    var c := NextCut(s, limit);
    var found := Boundary(s, limit);
    CutBlank(s, limit);
    assert s[..c.boundary] == c.piece + s[|c.piece|..c.boundary];
    TrailingBlank(c.piece, s[|c.piece|..c.boundary]);
    RStripBlank(s[..found]);
    BoundaryIs(s, limit);
  }

  predicate AllBalanced(pieces: seq<string>) {
    forall i :: 0 <= i < |pieces| ==> Balanced(pieces[i])
  }

  /** Stripping leading whitespace changes neither fences nor brackets. */
  lemma StrippedState(y: string)
    ensures Fences(LStrip(y)) == Fences(y) && Brackets(LStrip(y)) == Brackets(y)
  {
    LStripBlank(y);
    var gap := y[..|y| - |LStrip(y)|];
    assert y == gap + LStrip(y);
    BlankState(gap);
    FencesJoin(gap, LStrip(y));
    BracketsJoin(gap, LStrip(y));
  }

  /** The fences of a text are those before a cut, those after it, and one if the cut splits a fence. */
  lemma CutFences(s: string, b: nat) returns (first: nat, rest: nat, split: nat)
    requires b <= |s|
    ensures first == Fences(s[..b]) && rest == Fences(LStrip(s[b..])) && split == (if SplitsFence(s[..b], s[b..]) then 1 else 0)
    ensures Fences(s) == first + rest + split
  {
    first, rest := Fences(s[..b]), Fences(s[b..]);
    split := if SplitsFence(s[..b], s[b..]) then 1 else 0;
    FencesAcross(s[..b], s[b..]);
    assert s[..b] + s[b..] == s;
    StrippedState(s[b..]);
  }

  lemma CutBrackets(s: string, b: nat)
    requires b <= |s| && Brackets(s[..b]) == 0
    ensures Brackets(LStrip(s[b..])) == Brackets(s)
  {
    BracketsJoin(s[..b], s[b..]);
    assert s[..b] + s[b..] == s;
    StrippedState(s[b..]);
  }

  lemma SplitFencesNext(s: string, limit: nat, b: nat)
    requires 1 <= limit < |s| && b == NextCut(s, limit).boundary
    ensures SplitFences(s, limit) == (if SplitsFence(s[..b], s[b..]) then 1 else 0) + SplitFences(LStrip(s[b..]), limit)
  {}

  lemma EvenRest(whole: nat, first: nat, rest: nat, split: nat, later: nat)
    requires whole == first + rest + split && Even(first)
    ensures Even(whole + (split + later)) <==> Even(rest + later)
  {
    EvenMeans(whole + (split + later));
    EvenMeans(rest + later);
    EvenMeans(first);
  }

  lemma EvenAfterCut(s: string, b: nat, rest: string, f: nat, f': nat, n: nat, n': nat)
    requires b <= |s| && Balanced(s[..b]) && rest == LStrip(s[b..]) && f == Fences(s) && f' == Fences(rest)
    requires n == (if SplitsFence(s[..b], s[b..]) then 1 else 0) + n'
    ensures Brackets(rest) == Brackets(s) && (Even(f + n) <==> Even(f' + n'))
  {
    var first, after, split := CutFences(s, b);
    CutBrackets(s, b);
    EvenRest(f, first, f', split, n');
  }

  /** The counts a text has before and after an unforced cut. */
  lemma CountsAfterCut(s: string, limit: nat, f: nat, n: nat, b: nat, rest: string, f': nat, n': nat)
    requires 1 <= limit < |s| && !ForcedCut(s, limit) && f == Fences(s) && n == SplitFences(s, limit)
    requires b == NextCut(s, limit).boundary && rest == LStrip(s[b..]) && f' == Fences(rest) && n' == SplitFences(rest, limit)
    ensures Brackets(rest) == Brackets(s) && (Even(f + n) <==> Even(f' + n'))
  {
    PieceBalancedExactlyWhen(s, limit);
    SplitFencesNext(s, limit, b);
    EvenAfterCut(s, b, rest, f, f', n, n');
  }

  lemma ShortText(s: string, limit: nat, f: nat, n: nat)
    requires 1 <= limit && |s| <= limit && f == Fences(s) && n == SplitFences(s, limit)
    ensures AllBalanced(Pieces(s, limit)) <==> Brackets(s) == 0 && Even(f + n)
  {
    assert n == 0;
    if s != [] { assert Pieces(s, limit) == [s] && [s][0] == s; }
  }

  /**
  Every message, the last one included, is balanced if and only if the hard limit was never
  forced, the text leaves no bracket open, and its fences together with the fences that the
  cuts split are even in number.
  */
  lemma {:induction false} BalancedExactlyWhen(s: string, limit: nat, fences: nat, splits: nat)
    requires limit >= 1 && fences == Fences(s) && splits == SplitFences(s, limit)
    ensures AllBalanced(Pieces(s, limit)) <==> NoForcedCuts(s, limit) && Brackets(s) == 0 && Even(fences + splits)
    decreases |s|
  {
    if |s| <= limit {
      ShortText(s, limit, fences, splits);
    } else {
      var c := NextCut(s, limit);
      var rest := LStrip(s[c.boundary..]);
      PieceBalancedExactlyWhen(s, limit);
      PiecesNext(s, limit);
      AllBalancedNext(c.piece, Pieces(rest, limit));
      if !ForcedCut(s, limit) {
        var f', n' := Fences(rest), SplitFences(rest, limit);
        CountsAfterCut(s, limit, fences, splits, c.boundary, rest, f', n');
        BalancedExactlyWhen(rest, limit, f', n');
      }
    }
  }

  lemma EvenSum(a: nat, b: nat)
    requires Even(a)
    ensures Even(a + b) <==> Even(b)
  {
    EvenMeans(a);
    EvenMeans(b);
    EvenMeans(a + b);
  }

  /** So balanced text stays balanced exactly when no cut is forced and an even number of fences is split. */
  lemma BalancedTextExactlyWhen(s: string, limit: nat, splits: nat)
    requires limit >= 1 && Balanced(s) && splits == SplitFences(s, limit)
    ensures AllBalanced(Pieces(s, limit)) <==> NoForcedCuts(s, limit) && Even(splits)
  {
    BalancedState(s, Fences(s), splits);
    BalancedExactlyWhen(s, limit, Fences(s), splits);
  }

  lemma BalancedState(s: string, f: nat, n: nat)
    requires Balanced(s) && f == Fences(s)
    ensures Brackets(s) == 0 && (Even(f + n) <==> Even(n))
  {
    EvenSum(f, n);
  }

  lemma AllBalancedNext(piece: string, rest: seq<string>)
    ensures AllBalanced([piece] + rest) <==> Balanced(piece) && AllBalanced(rest)
  {
    var all := [piece] + rest;
    assert all[0] == piece && forall i :: 0 <= i < |rest| ==> all[i + 1] == rest[i];
    if AllBalanced(all) {
      forall i | 0 <= i < |rest| ensures Balanced(rest[i]) { assert Balanced(all[i + 1]); }
    }
  }

  lemma {:induction false} StaysOpen(s: string, n: nat)
    requires 1 <= n <= |s| && s[0] == '[' && forall i :: 0 <= i < n ==> s[i] != ']'
    ensures Brackets(s[..n]) >= 1
  {
    assert s[..n][..n - 1] == s[..n - 1];
    if n > 1 { StaysOpen(s, n - 1); }
  }

  /** A text that opens with a link longer than the limit is always bisected. */
  lemma LongLinkIsBisected(s: string, limit: nat)
    requires 1 <= limit < |s| && s[0] == '[' && forall i :: 0 <= i < limit ==> s[i] != ']'
    ensures ForcedCut(s, limit) && !AllBalanced(Pieces(s, limit))
  {
    forall n: nat | 1 <= n <= limit ensures !Balanced(s[..n]) { StaysOpen(s, n); }
    LastCandidateIs(s, limit);
    assert Boundary(s, limit) == 0;
    PieceBalancedExactlyWhen(s, limit);
    PiecesNext(s, limit);
    AllBalancedNext(NextCut(s, limit).piece, Pieces(LStrip(s[NextCut(s, limit).boundary..]), limit));
  }

  // ----- A fence cut in two at a balanced limit -----

  /** Text without a break is cut at the limit as it stands when what comes before is balanced. */
  lemma HardCut(s: string, limit: nat)
    requires 1 <= limit < |s| && Balanced(s[..limit]) && forall i :: 0 <= i < limit ==> !IsSpace(s[i])
    ensures NextCut(s, limit) == Cut(s[..limit], limit) && !ForcedCut(s, limit)
  {
    LastCandidateIs(s, limit);
    assert Boundary(s, limit) == limit;
  }

  lemma {:induction false} NoBrackets(s: string)
    requires forall i :: 0 <= i < |s| ==> s[i] != '['
    ensures Brackets(s) == 0
  {
    if s != [] { NoBrackets(s[..|s| - 1]); }
  }

  lemma LastFence()
    ensures Fences("```") == 1
  {
    assert FenceAt("```") && "```"[3..] == "";
  }

  lemma FirstPart()
    ensures Fences("a``") == 0 && TrailingTicks("a``") == 2
  {
    assert "a``"[1..] == "``" && "a``"[..2] == "a`" && "a`"[..1] == "a";
  }

  lemma MiddlePart()
    ensures Fences("`bb") == 0 && TrailingTicks("`bb") == 0 && LeadingTicks("`bb```") == 1
  {
    assert "`bb"[1..] == "bb" && "`bb```"[1..][0] == 'b';
  }

  lemma WholeFences()
    ensures Fences("a```bb```") == 2
  {
    LastFence();
    assert "a```bb```" == "a" + Ticked(3) + "bb```" && "bb```" == "bb" + Ticked(3) + "";
    RunBetween("a", 3, "bb```");
    RunBetween("bb", 3, "");
  }

  lemma UnforcedCut(x: string, t: string, limit: nat)
    requires |x| == limit >= 1 && t != [] && !IsBreak(t[0]) && Balanced(x) && forall i :: 0 <= i < limit ==> !IsSpace(x[i])
    ensures NoForcedCuts(x + t, limit) <==> NoForcedCuts(t, limit)
    ensures SplitFences(x + t, limit) == (if SplitsFence(x, t) then 1 else 0) + SplitFences(t, limit)
  {
    assert (x + t)[..limit] == x && (x + t)[limit..] == t && LStrip(t) == t;
    HardCut(x + t, limit);
  }

  /** Three pieces of text without a break, the cut between the first two splitting a fence. */
  lemma SplitOnce(x: string, y: string, u: string, limit: nat)
    requires |x| == |y| == limit >= 1 && 1 <= |u| <= limit && !IsBreak(u[0])
    requires forall i :: 0 <= i < limit ==> !IsSpace(x[i]) && !IsSpace(y[i])
    requires Balanced(x) && Balanced(y) && SplitsFence(x, y + u) && !SplitsFence(y, u)
    ensures NoForcedCuts(x + (y + u), limit) && SplitFences(x + (y + u), limit) == 1
  {
    UnforcedCut(y, u, limit);
    assert (y + u)[0] == y[0];
    UnforcedCut(x, y + u, limit);
  }

  /** Then balanced text, though never forced, comes out unbalanced. */
  lemma SplitOnceUnbalances(x: string, y: string, u: string, limit: nat, s: string)
    requires |x| == |y| == limit >= 1 && 1 <= |u| <= limit && !IsBreak(u[0])
    requires forall i :: 0 <= i < limit ==> !IsSpace(x[i]) && !IsSpace(y[i])
    requires Balanced(x) && Balanced(y) && SplitsFence(x, y + u) && !SplitsFence(y, u)
    requires s == x + (y + u) && Balanced(s)
    ensures NoForcedCuts(s, limit) && SplitFences(s, limit) == 1 && !AllBalanced(Pieces(s, limit))
  {
    SplitOnce(x, y, u, limit);
    BalancedTextExactlyWhen(s, limit, 1);
  }

  lemma ExampleParts(x: string, y: string, u: string)
    requires x == "a``" && y == "`bb" && u == "```"
    ensures Balanced(x) && Balanced(y) && SplitsFence(x, y + u) && !SplitsFence(y, u)
    ensures forall i :: 0 <= i < 3 ==> !IsSpace(x[i]) && !IsSpace(y[i])
  {
    FirstPart();
    MiddlePart();
    NoBrackets(x);
    NoBrackets(y);
    assert y + u == "`bb```";
    NoTicksNoSplit(y, u);
  }

  lemma ExampleWhole(x: string, y: string, u: string)
    requires x == "a``" && y == "`bb" && u == "```"
    ensures x + (y + u) == "a```bb```" && Balanced(x + (y + u))
  {
    WholeFences();
    NoBrackets(x + (y + u));
  }

  /** The text of nine characters at a limit of three: "a``", "`bb" and the bare fence "```". */
  lemma SplitFenceExample(x: string, y: string, u: string, s: string)
    requires x == "a``" && y == "`bb" && u == "```" && s == x + (y + u)
    ensures s == "a```bb```" && Balanced(s) && NoForcedCuts(s, 3) && SplitFences(s, 3) == 1 && !AllBalanced(Pieces(s, 3))
  {
    ExampleWhole(x, y, u);
    ExampleParts(x, y, u);
    SplitOnceUnbalances(x, y, u, 3, s);
  }

  /** Every cut fell on a space or newline with something visible before it. */
  predicate WordCuts(s: string, limit: nat)
    requires limit >= 1
    decreases |s|
  {
    |s| <= limit
    || (var c := NextCut(s, limit);
        IsBreak(s[c.boundary - 1]) && Boundary(s, limit) > 0 && !Blank(s[..Boundary(s, limit)]) && WordCuts(LStrip(s[c.boundary..]), limit))
  }

  lemma WordCutIsSafe(s: string, limit: nat)
    requires 1 <= limit < |s| && Boundary(s, limit) > 0 && !Blank(s[..Boundary(s, limit)])
    requires IsBreak(s[NextCut(s, limit).boundary - 1])
    ensures var b := NextCut(s, limit).boundary; !SplitsFence(s[..b], s[b..]) && !ForcedCut(s, limit)
  {
    NoTicksNoSplit(s[..NextCut(s, limit).boundary], s[NextCut(s, limit).boundary..]);
  }

  lemma NoTicksNoSplit(x: string, y: string)
    requires x == [] || x[|x| - 1] != '`'
    ensures !SplitsFence(x, y)
  {
    ThirdsMean(LeadingTicks(y));
  }

  lemma {:induction false} WordCutsAreSafe(s: string, limit: nat)
    requires limit >= 1 && WordCuts(s, limit)
    ensures SplitFences(s, limit) == 0 && NoForcedCuts(s, limit)
    decreases |s|
  {
    if |s| > limit { WordCutIsSafe(s, limit); WordCutsAreSafe(LStrip(s[NextCut(s, limit).boundary..]), limit); }
  }

  /** Balanced text cut only between words gives balanced messages throughout. */
  lemma WordCutsKeepBalance(content: string, limit: nat)
    requires limit >= 1 && Balanced(StripNul(content)) && WordCuts(StripNul(content), limit)
    ensures AllBalanced(SplitReply(content, limit))
  {
    var s := StripNul(content);
    WordCutsAreSafe(s, limit);
    BalancedTextExactlyWhen(s, limit, 0);
  }
}
