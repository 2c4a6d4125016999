/** The bounded text of a session summary and of a memory record. */
module SummaryText {
  import opened Prelude
  import opened SessionTables

  const LIMIT: nat := 16000

  const NO_TEXT := "Session Event projection contained no textual content."

  /** An event as selected from the log, with its sequence number. */
  datatype Numbered = Numbered(sequence: nat, event: SessionEvent)

  datatype Fragment = Fragment(sequence: nat, text: string)

  /** The text of one event, or None when it has none. */
  function EventContent(event: SessionEvent): (content: Option<string>)
    ensures content.Some? ==> content.value != ""
  {
    if event.content.None? || event.content.value == "" then None
    else Some(event.kind + ": " + event.content.value)
  }

  function Fragments(events: seq<Numbered>): (fragments: seq<Fragment>)
    ensures forall i :: 0 <= i < |fragments| ==> fragments[i].text != ""
  {
    if events == [] then []
    else
      var last := events[|events| - 1];
      Fragments(events[..|events| - 1]) +
      match EventContent(last.event)
      case None => []
      case Some(text) => [Fragment(last.sequence, text)]
  }

  /** The texts, one per line. */
  function Join(fragments: seq<Fragment>): string
    decreases |fragments|, 1
  {
    if fragments == [] then "" else fragments[0].text + Rest(fragments)
  }

  /** What follows the text of the first fragment. */
  function Rest(fragments: seq<Fragment>): string
    requires fragments != []
    decreases |fragments|, 0
  {
    if |fragments| == 1 then "" else "\n" + Join(fragments[1..])
  }

  ghost predicate NoneEmpty(fragments: seq<Fragment>) {
    forall i :: 0 <= i < |fragments| ==> fragments[i].text != ""
  }

  /** A later start gives a suffix, shorter by at least one character and the line break. */
  lemma {:induction false} LaterStart(fragments: seq<Fragment>, k: nat)
    requires 0 < k < |fragments|
    ensures |Join(fragments[k..])| < |Rest(fragments)|
    ensures Join(fragments)[|Join(fragments)| - |Join(fragments[k..])|..] == Join(fragments[k..])
  {
    var whole, next, tail := Join(fragments), Join(fragments[1..]), Join(fragments[k..]);
    assert Rest(fragments) == "\n" + next && whole == fragments[0].text + Rest(fragments);
    assert whole[|whole| - |next|..] == next;
    if k > 1 {
      LaterStart(fragments[1..], k - 1);
      assert fragments[1..][k - 1..] == fragments[k..];
      assert whole[|whole| - |tail|..] == next[|next| - |tail|..];
    }
  }

  lemma LaterStartFrom(fragments: seq<Fragment>, j: nat, k: nat)
    requires j < k < |fragments|
    ensures |Join(fragments[k..])| < |Rest(fragments[j..])|
  {
    LaterStart(fragments[j..], k - j);
    assert fragments[j..][k - j..] == fragments[k..];
  }

  /** The join breaks between two fragments exactly before its last 15999 characters. */
  ghost predicate BreaksAtLimit(fragments: seq<Fragment>) {
    exists k :: 0 < k < |fragments| && |Join(fragments[k..])| == LIMIT - 1
  }

  /** How many characters of the join are kept. */
  ghost function KeptLength(fragments: seq<Fragment>): nat {
    if |Join(fragments)| <= LIMIT then |Join(fragments)|
    else if BreaksAtLimit(fragments) then LIMIT - 1
    else LIMIT
  }

  /** The summary text: a suffix of the join. */
  ghost function Kept(fragments: seq<Fragment>): string {
    Join(fragments)[|Join(fragments)| - KeptLength(fragments)..]
  }

  /** Fragment k is the oldest with at least one character among the last `length` of the join. */
  ghost predicate OldestUsed(fragments: seq<Fragment>, length: nat, k: nat) {
    k < |fragments| && |Rest(fragments[k..])| < length <= |Join(fragments[k..])|
  }

  lemma OldestUsedUnique(fragments: seq<Fragment>, length: nat, j: nat, k: nat)
    requires OldestUsed(fragments, length, j) && OldestUsed(fragments, length, k)
    ensures j == k
  {
    if j < k { LaterStartFrom(fragments, j, k); }
    if k < j { LaterStartFrom(fragments, k, j); }
  }

  lemma JoinSuffix(fragments: seq<Fragment>, k: nat)
    requires k < |fragments|
    ensures |Join(fragments[k..])| <= |Join(fragments)|
    ensures Join(fragments)[|Join(fragments)| - |Join(fragments[k..])|..] == Join(fragments[k..])
  {
    if k == 0 { assert fragments[0..] == fragments; } else { LaterStart(fragments, k); }
  }

  /** Nothing but a break right at position k could make the kept text one character shorter. */
  lemma NoOtherBreak(fragments: seq<Fragment>, k: nat)
    requires k < |fragments| && LIMIT <= |Join(fragments[k..])| && |Rest(fragments[k..])| < LIMIT
    ensures !BreaksAtLimit(fragments)
  {
    forall j | 0 < j < |fragments|
      ensures |Join(fragments[j..])| != LIMIT - 1
    {
      if j < k { LaterStartFrom(fragments, j, k); }
      if k < j { LaterStartFrom(fragments, k, j); }
    }
  }

  /** The loop stopped before fragment k - 1 because no character was left besides the line break. */
  lemma StoppedFull(fragments: seq<Fragment>, k: nat)
    requires NoneEmpty(fragments) && 0 < k < |fragments| && LIMIT - 1 <= |Join(fragments[k..])| <= LIMIT
    ensures Join(fragments[k..]) == Kept(fragments) && OldestUsed(fragments, |Join(fragments[k..])|, k)
  {
    JoinSuffix(fragments, k);
    LaterStart(fragments, k);
    assert fragments[k..][0].text != "";
    if |Join(fragments[k..])| == LIMIT { NoOtherBreak(fragments, k); }
  }

  /** The loop cut fragment k to the characters that still fitted. */
  lemma StoppedCutting(fragments: seq<Fragment>, k: nat)
    requires k < |fragments| && |Join(fragments[k..])| > LIMIT && |Rest(fragments[k..])| < LIMIT
    ensures OldestUsed(fragments, LIMIT, k)
    ensures fragments[k].text[|Join(fragments[k..])| - LIMIT..] + Rest(fragments[k..]) == Kept(fragments)
  {
    JoinSuffix(fragments, k);
    NoOtherBreak(fragments, k);
    var whole, tail := Join(fragments), Join(fragments[k..]);
    var cut := |tail| - LIMIT;
    assert tail[cut..] == fragments[k].text[cut..] + Rest(fragments[k..]);
    assert whole[|whole| - LIMIT..] == whole[|whole| - |tail|..][cut..];
  }

  /** The selection loop: newest fragments first, until the limit is reached. */
  method SelectFragments(fragments: seq<Fragment>) returns (from: nat, content: string)
    requires fragments != [] && NoneEmpty(fragments)
    ensures content == Kept(fragments)
    ensures exists k: nat :: OldestUsed(fragments, |content|, k) && from == fragments[k].sequence
  {
    var selected: seq<Fragment> := [];
    var remaining: int := LIMIT;
    var i := |fragments|;
    while i > 0
      invariant 0 <= i <= |fragments| && selected == fragments[i..]
      invariant 0 <= remaining == LIMIT - |Join(selected)|
    {
      i := i - 1;
      var text := fragments[i].text;
      var separator := if selected == [] then 0 else 1;
      var available := remaining - separator;
      if available <= 0 {
        StoppedFull(fragments, i + 1);
        return selected[0].sequence, Join(selected);
      }
      assert fragments[i..] == [fragments[i]] + selected && fragments[i..][1..] == selected;
      if |text| > available {
        var cut := Fragment(fragments[i].sequence, text[|text| - available..]);
        StoppedCutting(fragments, i);
        selected := [cut] + selected;
        assert selected[1..] == fragments[i..][1..];
        assert Rest(selected) == Rest(fragments[i..]);
        assert Join(selected) == cut.text + Rest(selected);
        return cut.sequence, Join(selected);
      }
      selected := [fragments[i]] + selected;
      remaining := remaining - (|text| + separator);
    }
    assert selected == fragments;
    assert OldestUsed(fragments, |Join(selected)|, 0) by { assert fragments[0..] == fragments; }
    return selected[0].sequence, Join(selected);
  }

  /** What `_summary_projection` returns, in closed form. */
  ghost predicate IsSummary(events: seq<Numbered>, from: nat, content: string)
    requires events != []
  {
    var fragments := Fragments(events);
    if fragments == [] then from == events[0].sequence && content == NO_TEXT
    else
      && content == Kept(fragments)
      && exists k: nat :: OldestUsed(fragments, |content|, k) && from == fragments[k].sequence
  }

  method SummaryProjection(events: seq<Numbered>) returns (from: nat, content: string)
    requires events != []
    ensures IsSummary(events, from, content)
  {
    var fragments: seq<Fragment> := [];
    for i := 0 to |events|
      invariant fragments == Fragments(events[..i])
    {
      assert events[..i + 1][..i] == events[..i];
      var text := EventContent(events[i].event);
      if text.Some? { fragments := fragments + [Fragment(events[i].sequence, text.value)]; }
    }
    assert events[..|events|] == events;
    if fragments == [] { return events[0].sequence, NO_TEXT; }
    from, content := SelectFragments(fragments);
  }

  /** The events determine the summary. */
  lemma SummaryUnique(events: seq<Numbered>, from: nat, content: string, from': nat, content': string)
    requires events != [] && IsSummary(events, from, content) && IsSummary(events, from', content')
    ensures from == from' && content == content'
  {
    var fragments := Fragments(events);
    if fragments != [] {
      var j: nat :| OldestUsed(fragments, |content|, j) && from == fragments[j].sequence;
      var k: nat :| OldestUsed(fragments, |content|, k) && from' == fragments[k].sequence;
      OldestUsedUnique(fragments, |content|, j, k);
    }
  }

  /**
  A summary is the whole join when that fits in 16000 characters, and otherwise its last
  16000, or 15999 when the 16000th from the end is a line break between fragments.
  */
  lemma SummaryIsSuffix(events: seq<Numbered>, from: nat, content: string)
    requires events != [] && IsSummary(events, from, content) && Fragments(events) != []
    ensures var whole := Join(Fragments(events));
      && 1 <= |content| <= LIMIT && |content| <= |whole| && content == whole[|whole| - |content|..]
      && (|whole| <= LIMIT ==> content == whole)
      && (|whole| > LIMIT ==> |content| == if BreaksAtLimit(Fragments(events)) then LIMIT - 1 else LIMIT)
  {
    assert Fragments(events)[0].text != "";
  }

  lemma {:induction false} OldestUsedExists(fragments: seq<Fragment>, length: nat) returns (k: nat)
    requires 0 < length <= |Join(fragments)|
    requires forall j :: 0 < j < |fragments| ==> |Join(fragments[j..])| != length - 1
    ensures OldestUsed(fragments, length, k)
  {
    assert fragments[0..] == fragments;
    if |Rest(fragments)| < length {
      k := 0;
    } else {
      assert forall j :: 0 < j < |fragments[1..]| ==> fragments[1..][j..] == fragments[j + 1..];
      k := OldestUsedExists(fragments[1..], length);
      assert fragments[1..][k..] == fragments[k + 1..];
      k := k + 1;
    }
  }

  lemma SummaryExists(events: seq<Numbered>) returns (from: nat, content: string)
    requires events != []
    ensures IsSummary(events, from, content)
  {
    var fragments := Fragments(events);
    if fragments == [] { return events[0].sequence, NO_TEXT; }
    content := Kept(fragments);
    var k: nat;
    if |Join(fragments)| <= LIMIT {
      assert fragments[0..] == fragments && fragments[0].text != "";
      k := 0;
    } else if BreaksAtLimit(fragments) {
      k :| 0 < k < |fragments| && |Join(fragments[k..])| == LIMIT - 1;
      assert fragments[k..][0].text != "";
    } else {
      k := OldestUsedExists(fragments, LIMIT);
    }
    assert OldestUsed(fragments, |content|, k);
    from := fragments[k].sequence;
  }

  /** The first sequence number and the text of the summary of some events. */
  ghost function SummaryOf(events: seq<Numbered>): (summary: (nat, string))
    requires events != []
    ensures IsSummary(events, summary.0, summary.1)
  {
    assert exists from: nat, content: string :: IsSummary(events, from, content) by {
      var from, content := SummaryExists(events);
    }
    var from: nat, content: string :| IsSummary(events, from, content);
    (from, content)
  }

  /** A memory record keeps the first 16000 characters of the join. */
  function MemoryContent(events: seq<Numbered>): (content: string)
    ensures 1 <= |content| <= LIMIT
    ensures Fragments(events) != [] ==> content <= Join(Fragments(events))
  {
    var whole := Join(Fragments(events));
    if |Fragments(events)| == 0 then NO_TEXT
    else
      assert Fragments(events)[0].text != "";
      if |whole| <= LIMIT then whole else whole[..LIMIT]
  }
}
