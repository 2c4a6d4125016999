/** The gateway's sliding-window rate limiter, with the clock as a non-decreasing input. */
module RateLimiter {
  const WINDOW := 60.0

  /** The admissions later than a window before `now`. */
  function Recent(times: seq<real>, now: real): seq<real> {
    if times == [] then []
    else Recent(times[..|times| - 1], now) + if times[|times| - 1] > now - WINDOW then [times[|times| - 1]] else []
  }

  /** The admissions of the window that ends at T. */
  function InWindow(times: seq<real>, T: real): seq<real> {
    if times == [] then []
    else
      InWindow(times[..|times| - 1], T)
      + if T - WINDOW < times[|times| - 1] <= T then [times[|times| - 1]] else []
  }

  /** What a call at `now` does to the admission history. */
  function Admit(history: seq<real>, now: real, limit: nat): seq<real> {
    if |Recent(history, now)| < limit then history + [now] else history
  }

  /** The admission history of calls at the given times. */
  function Admitted(calls: seq<real>, limit: nat): seq<real> {
    if calls == [] then [] else Admit(Admitted(calls[..|calls| - 1], limit), calls[|calls| - 1], limit)
  }

  /** Non-decreasing, and not beyond `top`. */
  predicate Ordered(times: seq<real>, top: real) {
    times == [] || (times[|times| - 1] <= top && Ordered(times[..|times| - 1], times[|times| - 1]))
  }

  // ----- Windows -----

  lemma {:induction false} WindowIsRecent(times: seq<real>, now: real, T: real)
    requires now <= T
    ensures |InWindow(times, T)| <= |Recent(times, now)|
  {
    if times != [] { WindowIsRecent(times[..|times| - 1], now, T); }
  }

  lemma InWindowAppend(times: seq<real>, now: real, T: real)
    ensures InWindow(times + [now], T) == InWindow(times, T) + if T - WINDOW < now <= T then [now] else []
  {
    assert (times + [now])[..|times|] == times;
  }

  /** No window of sixty seconds, wherever it lies, holds more admissions than the limit, for calls in any number. */
  lemma {:induction false} WindowsStayWithinLimit(calls: seq<real>, limit: nat, T: real)
    ensures |InWindow(Admitted(calls, limit), T)| <= limit
  {
    if calls != [] {
      var before, now := calls[..|calls| - 1], calls[|calls| - 1];
      var history := Admitted(before, limit);
      WindowsStayWithinLimit(before, limit, T);
      InWindowAppend(history, now, T);
      if now <= T { WindowIsRecent(history, now, T); }
    }
  }

  // ----- The deque -----

  lemma {:induction false} RecentAll(times: seq<real>, now: real)
    requires forall i :: 0 <= i < |times| ==> times[i] > now - WINDOW
    ensures Recent(times, now) == times
  {
    if times != [] {
      RecentAll(times[..|times| - 1], now);
      assert times[..|times| - 1] + [times[|times| - 1]] == times;
    }
  }

  /** An expired head contributes nothing. */
  lemma {:induction false} RecentDropHead(times: seq<real>, now: real)
    requires times != [] && times[0] <= now - WINDOW
    ensures Recent(times, now) == Recent(times[1..], now)
  {
    if |times| > 1 {
      RecentDropHead(times[..|times| - 1], now);
      assert times[1..][..|times| - 2] == times[..|times| - 1][1..];
    }
  }

  /** Pruning twice is pruning once at the later time. */
  lemma {:induction false} RecentTwice(times: seq<real>, earlier: real, now: real)
    requires earlier <= now
    ensures Recent(Recent(times, earlier), now) == Recent(times, now)
  {
    if times != [] {
      var before, last := times[..|times| - 1], times[|times| - 1];
      RecentTwice(before, earlier, now);
      var kept := Recent(before, earlier);
      if last > earlier - WINDOW { assert (kept + [last])[..|kept|] == kept; }
      assert kept + [] == kept;
    }
  }

  lemma {:induction false} RecentOrdered(times: seq<real>, now: real, top: real)
    requires Ordered(times, top)
    ensures Ordered(Recent(times, now), top)
  {
    if times != [] {
      var before, last := times[..|times| - 1], times[|times| - 1];
      RecentOrdered(before, now, last);
      var kept := Recent(before, now);
      if last > now - WINDOW { assert (kept + [last])[..|kept|] == kept; } else { assert kept + [] == kept; }
    }
  }

  lemma {:induction false} OrderedTail(times: seq<real>, top: real)
    requires Ordered(times, top) && times != []
    ensures Ordered(times[1..], top) && forall i :: 0 <= i < |times| ==> times[0] <= times[i]
  {
    if |times| > 1 {
      OrderedTail(times[..|times| - 1], times[|times| - 1]);
      assert times[1..][..|times| - 2] == times[..|times| - 1][1..];
    }
  }

  lemma RecentAppend(times: seq<real>, now: real)
    ensures Recent(times + [now], now) == Recent(times, now) + [now]
  {
    assert (times + [now])[..|times|] == times;
  }

  datatype Key = Key(tenant: string, alias: string)

  /** The deque is exactly the admission history less what had expired at the last call. */
  predicate Tracks(deque: seq<real>, history: seq<real>, asked: real) {
    deque == Recent(history, asked) && Ordered(history, asked)
  }

  lemma AdmitTracks(history: seq<real>, asked: real, now: real, limit: nat)
    requires Ordered(history, asked) && asked <= now
    ensures var pruned := Recent(history, now);
      Tracks(if |pruned| < limit then pruned + [now] else pruned, Admit(history, now, limit), now)
  {
    RecentAppend(history, now);
    assert (history + [now])[..|history|] == history;
  }

  lemma CallTracks(deque: seq<real>, history: seq<real>, asked: real, now: real, limit: nat)
    requires Tracks(deque, history, asked) && asked <= now
    ensures Recent(deque, now) == Recent(history, now) && Ordered(deque, asked)
    ensures var pruned := Recent(deque, now);
      Tracks(if |pruned| < limit then pruned + [now] else pruned, Admit(history, now, limit), now)
  {
    RecentTwice(history, asked, now);
    RecentOrdered(history, asked, asked);
    AdmitTracks(history, asked, now, limit);
  }

  /** `history` holds every admission since the start, `asked` the time of the last call per profile. */
  class Limiter {
    var requests: map<Key, seq<real>>
    ghost var history: map<Key, seq<real>>
    ghost var asked: map<Key, real>

    constructor ()
      ensures Valid() && requests == map[] && history == map[] && asked == map[]
    {
      requests, history, asked := map[], map[], map[];
    }

    ghost predicate Valid()
      reads this
    {
      && (forall key :: key in requests <==> key in history)
      && (forall key :: key in requests <==> key in asked)
      && (forall key :: key in requests ==> Tracks(requests[key], history[key], asked[key]))
    }

    ghost function HistoryOf(key: Key): seq<real>
      reads this
    {
      if key in history then history[key] else []
    }

    /** Admits exactly while fewer than `limit` admissions of this profile lie in the last window. */
    method WithinRateLimit(key: Key, limit: nat, now: real) returns (ok: bool)
      requires Valid() && (key in asked ==> asked[key] <= now)
      modifies this
      ensures Valid()
      ensures ok <==> |Recent(old(HistoryOf(key)), now)| < limit
      ensures history == old(history)[key := Admit(old(HistoryOf(key)), now, limit)]
      ensures requests == old(requests)[key := Recent(history[key], now)]
      ensures asked == old(asked)[key := now]
    {
      ghost var times := HistoryOf(key);
      var deque := if key in requests then requests[key] else [];
      ok, deque := Ask(deque, limit, now, times, if key in asked then asked[key] else now);
      requests := requests[key := deque];
      history := history[key := Admit(times, now, limit)];
      asked := asked[key := now];
    }
  }

  /** The loop that pops expired admissions off the left. */
  method Prune(deque: seq<real>, now: real, ghost top: real) returns (rest: seq<real>)
    requires Ordered(deque, top)
    ensures rest == Recent(deque, now)
  {
    rest := deque;
    while rest != [] && rest[0] <= now - WINDOW
      invariant Ordered(rest, top) && Recent(rest, now) == Recent(deque, now)
    {
      RecentDropHead(rest, now);
      OrderedTail(rest, top);
      rest := rest[1..];
    }
    if rest != [] { OrderedTail(rest, top); }
    RecentAll(rest, now);
  }

  /** One call on one profile's deque. */
  method Ask(deque: seq<real>, limit: nat, now: real, ghost history: seq<real>, ghost asked: real) returns (ok: bool, after: seq<real>)
    requires Tracks(deque, history, asked) && asked <= now
    ensures ok <==> |Recent(history, now)| < limit
    ensures Tracks(after, Admit(history, now, limit), now)
  {
    CallTracks(deque, history, asked, now, limit);
    after := Prune(deque, now, asked);
    ok := |after| < limit;
    if ok { after := after + [now]; }
  }
}
