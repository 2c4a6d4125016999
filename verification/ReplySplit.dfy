/** Splitting a reply into bounded messages without bisecting Markdown fences or links. */
module ReplySplit {

  // ----- Text -----

  /** What Python's str.rstrip removes. */
  predicate IsSpace(c: char) {
    || '\t' <= c <= '\r' || '\U{1c}' <= c <= ' ' || c == '\U{85}' || c == '\U{a0}' || c == '\U{1680}'
    || '\U{2000}' <= c <= '\U{200a}' || c == '\U{2028}' || c == '\U{2029}' || c == '\U{202f}' || c == '\U{205f}' || c == '\U{3000}'
  }

  predicate IsBreak(c: char) {
    c == '\n' || c == ' '
  }

  predicate Blank(s: string) {
    forall i :: 0 <= i < |s| ==> IsSpace(s[i])
  }

  function StripNul(s: string): string {
    if s == [] then []
    else StripNul(s[..|s| - 1]) + if s[|s| - 1] == '\0' then [] else [s[|s| - 1]]
  }

  function RStrip(s: string): (r: string)
    ensures |r| <= |s| && r == s[..|r|]
  {
    if s != [] && IsSpace(s[|s| - 1]) then RStrip(s[..|s| - 1]) else s
  }

  /** lstrip of spaces and newlines. */
  function LStrip(s: string): (r: string)
    ensures |r| <= |s| && r == s[|s| - |r|..]
  {
    if s != [] && IsBreak(s[0]) then LStrip(s[1..]) else s
  }

  lemma {:induction false} RStripBlank(s: string)
    ensures Blank(s[|RStrip(s)|..]) && (RStrip(s) == [] <==> Blank(s))
  {
    if s != [] && IsSpace(s[|s| - 1]) {
      RStripBlank(s[..|s| - 1]);
      assert s[|RStrip(s)|..] == s[..|s| - 1][|RStrip(s)|..] + [s[|s| - 1]];
      assert Blank(s) <==> Blank(s[..|s| - 1]) by { assert s == s[..|s| - 1] + [s[|s| - 1]]; }
    }
  }

  lemma {:induction false} LStripBlank(s: string)
    ensures Blank(s[..|s| - |LStrip(s)|])
  {
    if s != [] && IsBreak(s[0]) {
      LStripBlank(s[1..]);
      var n := |s| - |LStrip(s)|;
      assert s[..n] == [s[0]] + s[1..][..n - 1];
    }
  }

  // ----- Markdown state -----

  predicate FenceAt(s: string) {
    |s| >= 3 && s[0] == '`' && s[1] == '`' && s[2] == '`'
  }

  /** Non-overlapping fences, counted from the left. */
  function Fences(s: string): nat {
    if |s| < 3 then 0 else if FenceAt(s) then 1 + Fences(s[3..]) else Fences(s[1..])
  }

  function Nest(depth: nat, c: char): nat {
    if c == '[' then depth + 1 else if c == ']' && depth > 0 then depth - 1 else depth
  }

  /** Open brackets at the end; a closing one without a partner is ignored. */
  function Brackets(s: string): nat {
    if s == [] then 0 else Nest(Brackets(s[..|s| - 1]), s[|s| - 1])
  }

  predicate Even(n: nat) {
    n == 0 || (n > 1 && Even(n - 2))
  }

  lemma {:induction false} EvenMeans(n: nat)
    ensures Even(n) <==> n % 2 == 0
  {
    if n > 1 { EvenMeans(n - 2); }
  }

  predicate Balanced(s: string) {
    Even(Fences(s)) && Brackets(s) == 0
  }

  method MarkdownState(s: string) returns (fences: nat, brackets: nat)
    ensures fences == Fences(s) % 2 && brackets == Brackets(s)
    ensures fences == 0 && brackets == 0 <==> Balanced(s)
  {
    fences := CountFences(s);
    EvenMeans(fences);
    fences := fences % 2;
    brackets := 0;
    var i := 0;
    while i < |s|
      invariant 0 <= i <= |s| && brackets == Brackets(s[..i])
    {
      assert s[..i + 1][..i] == s[..i];
      if s[i] == '[' {
        brackets := brackets + 1;
      } else if s[i] == ']' && brackets > 0 {
        brackets := brackets - 1;
      }
      i := i + 1;
    }
    assert s[..i] == s;
  }

  /** The library's non-overlapping count. */
  method CountFences(s: string) returns (n: nat)
    ensures n == Fences(s)
  {
    n := 0;
    var i := 0;
    while i + 3 <= |s|
      invariant 0 <= i <= |s| && n + Fences(s[i..]) == Fences(s)
    {
      assert s[i..][1..] == s[i + 1..] && s[i..][3..] == s[i + 3..];
      if s[i] == '`' && s[i + 1] == '`' && s[i + 2] == '`' { n, i := n + 1, i + 3; } else { i := i + 1; }
    }
  }

  // ----- The boundary -----

  predicate Candidate(s: string, i: nat) {
    1 <= i <= |s| && IsBreak(s[i - 1]) && Balanced(s[..i])
  }

  /** The last balanced break within the limit, else the limit itself if balanced, else zero. */
  predicate IsBoundary(s: string, limit: nat, b: nat)
    requires limit <= |s|
  {
    if b > 0 && Candidate(s, b) && b <= limit then forall i: nat :: b < i <= limit ==> !Candidate(s, i)
    else
      && (forall i: nat :: i <= limit ==> !Candidate(s, i))
      && b == if Balanced(s[..limit]) then limit else 0
  }

  function LastCandidate(s: string, n: nat): (b: nat)
    requires n <= |s|
    ensures b <= n
  {
    if n == 0 then 0 else if Candidate(s, n) then n else LastCandidate(s, n - 1)
  }

  function Boundary(s: string, limit: nat): (b: nat)
    requires limit <= |s|
    ensures b <= limit
  {
    if LastCandidate(s, limit) > 0 then LastCandidate(s, limit) else if Balanced(s[..limit]) then limit else 0
  }

  lemma {:induction false} LastCandidateIs(s: string, n: nat)
    requires n <= |s|
    ensures var b := LastCandidate(s, n); (b > 0 ==> Candidate(s, b)) && forall i: nat :: b < i <= n ==> !Candidate(s, i)
  {
    if n > 0 && !Candidate(s, n) { LastCandidateIs(s, n - 1); }
  }

  lemma BoundaryIs(s: string, limit: nat)
    requires limit <= |s|
    ensures IsBoundary(s, limit, Boundary(s, limit))
    ensures Boundary(s, limit) > 0 ==> Balanced(s[..Boundary(s, limit)])
  {
    LastCandidateIs(s, limit);
  }

  method MarkdownBoundary(s: string, limit: nat) returns (b: nat)
    requires limit <= |s|
    ensures b == Boundary(s, limit)
  {
    b := 0;
    var i := 1;
    while i <= limit
      invariant 1 <= i <= limit + 1 && b == LastCandidate(s, i - 1)
    {
      if IsBreak(s[i - 1]) {
        var fences, brackets := MarkdownState(s[..i]);
        if fences == 0 && brackets == 0 { b := i; }
      }
      i := i + 1;
    }
    if b > 0 { return; }
    var fences, brackets := MarkdownState(s[..limit]);
    if fences == 0 && brackets == 0 { return limit; }
    return 0;
  }

  // ----- The loop -----

  datatype Cut = Cut(piece: string, boundary: nat)

  /** The next piece of a text that is too long, and where the text goes on. */
  function NextCut(s: string, limit: nat): (c: Cut)
    requires 1 <= limit < |s|
    ensures 1 <= c.boundary <= limit && 1 <= |c.piece| <= c.boundary && c.piece == s[..|c.piece|]
  {
    var found := Boundary(s, limit);
    var boundary := if found == 0 then limit else found;
    var piece := RStrip(s[..boundary]);
    if piece == [] then Cut(s[..limit], limit) else Cut(piece, boundary)
  }

  function Pieces(s: string, limit: nat): seq<string>
    requires limit >= 1
    decreases |s|
  {
    if |s| <= limit then (if s == [] then [] else [s])
    else var c := NextCut(s, limit); [c.piece] + Pieces(LStrip(s[c.boundary..]), limit)
  }

  const ELLIPSIS := "\U{2026}"

  function SplitReply(content: string, limit: nat): seq<string>
    requires limit >= 1
  {
    if StripNul(content) == [] then [ELLIPSIS] else Pieces(StripNul(content), limit)
  }

  method RemoveNul(s: string) returns (r: string)
    ensures r == StripNul(s)
  {
    r := [];
    var i := 0;
    while i < |s|
      invariant 0 <= i <= |s| && r == StripNul(s[..i])
    {
      assert s[..i + 1][..i] == s[..i];
      if s[i] != '\0' { r := r + [s[i]]; }
      i := i + 1;
    }
    assert s[..i] == s;
  }

  /** The body of the loop: where to cut, and what to send. */
  method TakeCut(remaining: string, limit: nat) returns (cut: Cut)
    requires 1 <= limit < |remaining|
    ensures cut == NextCut(remaining, limit)
  {
    var boundary := MarkdownBoundary(remaining, limit);
    if boundary <= 0 { boundary := limit; }
    var piece := RStrip(remaining[..boundary]);
    if piece == [] { piece, boundary := remaining[..limit], limit; }
    return Cut(piece, boundary);
  }

  method SplitReplyText(content: string, limit: nat) returns (pieces: seq<string>)
    requires limit >= 1
    ensures pieces == SplitReply(content, limit)
  {
    var clean := RemoveNul(content);
    if clean == [] { return [ELLIPSIS]; }
    pieces := [];
    var remaining := clean;
    while |remaining| > limit
      invariant pieces + Pieces(remaining, limit) == Pieces(clean, limit)
      decreases |remaining|
    {
      var cut := TakeCut(remaining, limit);
      PiecesNext(remaining, limit);
      ghost var rest := Pieces(LStrip(remaining[cut.boundary..]), limit);
      assert pieces + ([cut.piece] + rest) == pieces + [cut.piece] + rest;
      pieces := pieces + [cut.piece];
      remaining := LStrip(remaining[cut.boundary..]);
    }
    if remaining != [] { pieces := pieces + [remaining]; }
  }

  // ----- Bounds and contents -----

  /** Every message is non-empty and within the limit, and there is at least one. */
  lemma {:induction false} PiecesBounded(s: string, limit: nat)
    requires limit >= 1
    ensures s != [] ==> Pieces(s, limit) != []
    ensures forall i :: 0 <= i < |Pieces(s, limit)| ==> 1 <= |Pieces(s, limit)[i]| <= limit
    decreases |s|
  {
    if |s| > limit { PiecesBounded(LStrip(s[NextCut(s, limit).boundary..]), limit); }
  }

  function Visible(s: string): string {
    if s == [] then [] else Visible(s[..|s| - 1]) + if IsSpace(s[|s| - 1]) then [] else [s[|s| - 1]]
  }

  function VisibleOf(pieces: seq<string>): string {
    if pieces == [] then [] else Visible(pieces[0]) + VisibleOf(pieces[1..])
  }

  lemma {:induction false} VisibleJoin(x: string, y: string)
    ensures Visible(x + y) == Visible(x) + Visible(y)
  {
    if y == [] {
      assert x + y == x;
    } else {
      VisibleJoin(x, y[..|y| - 1]);
      assert (x + y)[..|x + y| - 1] == x + y[..|y| - 1];
    }
  }

  lemma {:induction false} VisibleBlank(s: string)
    requires Blank(s)
    ensures Visible(s) == []
  {
    if s != [] { VisibleBlank(s[..|s| - 1]); }
  }

  /** Behind a piece there is only whitespace up to the boundary. */
  lemma CutBlank(s: string, limit: nat)
    requires 1 <= limit < |s|
    ensures var c := NextCut(s, limit); Blank(s[|c.piece|..c.boundary])
  {
    var c := NextCut(s, limit);
    RStripBlank(s[..c.boundary]);
    if c.piece == RStrip(s[..c.boundary]) { assert s[|c.piece|..c.boundary] == s[..c.boundary][|c.piece|..]; }
  }

  lemma VisibleStripped(y: string)
    ensures Visible(LStrip(y)) == Visible(y)
  {
    LStripBlank(y);
    var gap := y[..|y| - |LStrip(y)|];
    assert y == gap + LStrip(y);
    VisibleJoin(gap, LStrip(y));
    VisibleBlank(gap);
  }

  lemma VisibleParts(x: string, gap: string, y: string)
    requires Blank(gap)
    ensures Visible(x + gap + y) == Visible(x) + Visible(y)
  {
    VisibleJoin(x + gap, y);
    VisibleJoin(x, gap);
    VisibleBlank(gap);
  }

  lemma ThreeParts(s: string, n: nat, b: nat)
    requires n <= b <= |s|
    ensures s == s[..n] + s[n..b] + s[b..]
  {}

  /** What is visible of a text is visible in its next piece or in the text that remains. */
  lemma CutKeepsVisible(s: string, limit: nat)
    requires 1 <= limit < |s|
    ensures var c := NextCut(s, limit); Visible(s) == Visible(c.piece) + Visible(LStrip(s[c.boundary..]))
  {
    var c := NextCut(s, limit);
    CutBlank(s, limit);
    ThreeParts(s, |c.piece|, c.boundary);
    VisibleParts(c.piece, s[|c.piece|..c.boundary], s[c.boundary..]);
    VisibleStripped(s[c.boundary..]);
  }

  lemma PiecesNext(s: string, limit: nat)
    requires 1 <= limit < |s|
    ensures var c := NextCut(s, limit); Pieces(s, limit) == [c.piece] + Pieces(LStrip(s[c.boundary..]), limit)
  {}

  lemma VisibleOfNext(piece: string, rest: seq<string>)
    ensures VisibleOf([piece] + rest) == Visible(piece) + VisibleOf(rest)
  {
    assert ([piece] + rest)[1..] == rest;
  }

  /** Visible characters survive in order: nothing is lost, doubled or moved. */
  lemma {:induction false} VisibleKept(s: string, limit: nat)
    requires limit >= 1
    ensures VisibleOf(Pieces(s, limit)) == Visible(s)
    decreases |s|
  {
    if |s| > limit {
      var c := NextCut(s, limit);
      var rest := LStrip(s[c.boundary..]);
      CutKeepsVisible(s, limit);
      VisibleKept(rest, limit);
      PiecesNext(s, limit);
      VisibleOfNext(c.piece, Pieces(rest, limit));
    } else if s != [] {
      VisibleOfNext(s, []);
      assert [s] + [] == [s];
    }
  }

  /** The whole reply: bounded messages that carry exactly the visible text. */
  lemma SplitReplyKeepsText(content: string, limit: nat)
    requires limit >= 1
    ensures var pieces := SplitReply(content, limit);
      && pieces != [] && (forall i :: 0 <= i < |pieces| ==> 1 <= |pieces[i]| <= limit)
      && (StripNul(content) != [] ==> VisibleOf(pieces) == Visible(StripNul(content)))
  {
    PiecesBounded(StripNul(content), limit);
    VisibleKept(StripNul(content), limit);
  }
}
