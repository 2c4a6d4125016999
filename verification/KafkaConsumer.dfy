/**
The manual-commit consumer on one partition.  Decoding, the handler, the dead-letter
publish and the offset commit succeed, fail or are cancelled as the environment chooses.
*/
module KafkaConsumer {
  import opened Prelude

  datatype Handling = Handled | HandlerFailed | HandlerCancelled

  datatype Publishing = Published | PublishFailed | PublishCancelled

  /** A commit that raised may still have been applied by the broker. */
  datatype Committing = Committed | CommitRaised(applied: bool)

  datatype Weather = Weather(handling: Handling, publishing: Publishing, committing: Committing)

  /** `deadLetters` is whether a dead-letter topic is configured; `most` is the maximum of delivery attempts. */
  datatype Config = Config(deadLetters: bool, most: int)

  /**
  `log` holds the offsets of the partition's records.  `handled` and `buried` (durably
  dead-lettered) are history, and `failed` counts each record's failures in this process.
  */
  datatype Partition = Partition(log: seq<nat>, position: nat, committed: nat, attempts: map<nat, nat>,
                                 handled: set<nat>, buried: set<nat>, failed: map<nat, nat>)

  const INITIAL := Partition([], 0, 0, map[], {}, {}, map[])

  datatype Outcome = Idle | Processed | Raised

  function Count(m: map<nat, nat>, key: nat): nat {
    if key in m then m[key] else 0
  }

  /** The index of the first record at or after the position, or the length of the log. */
  function NextRecord(log: seq<nat>, position: nat): (i: nat)
    ensures i <= |log| && (i < |log| ==> log[i] >= position)
    ensures forall j :: 0 <= j < i ==> log[j] < position
  {
    if log == [] then 0
    else
      var i := NextRecord(log[..|log| - 1], position);
      if i < |log| - 1 || log[|log| - 1] >= position then i else |log|
  }

  function Commit(s: Partition, offset: nat, c: Committing): (Partition, Outcome) {
    match c
    case Committed => (s.(committed := offset + 1, attempts := s.attempts - {offset}), Processed)
    case CommitRaised(applied) => (if applied then s.(committed := offset + 1) else s, Raised)
  }

  /** One failed delivery: counted, then dead-lettered when the attempts are used up, or sought back. */
  function Fail(s: Partition, offset: nat, config: Config, w: Weather): (Partition, Outcome) {
    var n := Count(s.attempts, offset) + 1;
    var t := s.(attempts := s.attempts[offset := n], failed := s.failed[offset := Count(s.failed, offset) + 1]);
    if config.deadLetters && n >= config.most then
      match w.publishing
      case Published => Commit(t.(buried := t.buried + {offset}, position := offset + 1), offset, w.committing)
      case PublishFailed => (t.(position := offset), Raised)
      case PublishCancelled => (t.(position := offset + 1), Raised)
    else (t.(position := offset), Raised)
  }

  /** Fetching moves the position past the record; only a seek moves it back. */
  function ProcessOnce(s: Partition, config: Config, w: Weather): (Partition, Outcome) {
    var i := NextRecord(s.log, s.position);
    if i == |s.log| then (s, Idle)
    else
      var offset := s.log[i];
      match w.handling
      case HandlerCancelled => (s.(position := offset), Raised)
      case HandlerFailed => Fail(s, offset, config, w)
      case Handled => Commit(s.(handled := s.handled + {offset}, position := offset + 1), offset, w.committing)
  }

  datatype Action =
    | Produce(offset: nat)
    | Poll(weather: Weather)
    | Rebalance
    | Restart

  function End(log: seq<nat>): nat {
    if log == [] then 0 else log[|log| - 1] + 1
  }

  function Step(s: Partition, config: Config, a: Action): Partition {
    match a
    case Produce(offset) => if offset >= End(s.log) then s.(log := s.log + [offset]) else s
    case Poll(weather) => ProcessOnce(s, config, weather).0
    case Rebalance => s.(position := s.committed)
    case Restart => s.(position := s.committed, attempts := map[], failed := map[])
  }

  function Run(config: Config, actions: seq<Action>): Partition {
    if actions == [] then INITIAL else Step(Run(config, actions[..|actions| - 1]), config, actions[|actions| - 1])
  }

  // ----- At least once -----

  predicate Done(s: Partition, offset: nat) {
    offset in s.handled || offset in s.buried
  }

  /** Every record below the bound was handled or dead-lettered. */
  predicate DoneBelow(s: Partition, bound: nat) {
    forall i :: 0 <= i < |s.log| && s.log[i] < bound ==> Done(s, s.log[i])
  }

  predicate Increasing(log: seq<nat>) {
    forall i, j :: 0 <= i < j < |log| ==> log[i] < log[j]
  }

  predicate Inv(s: Partition) {
    Increasing(s.log) && s.position <= End(s.log) && s.committed <= End(s.log) && DoneBelow(s, s.position) && DoneBelow(s, s.committed)
  }

  /** The attempts of the record it would fetch are used up, and it would be cancelled while burying it. */
  predicate CancelledBurial(s: Partition, config: Config, w: Weather) {
    var i := NextRecord(s.log, s.position);
    && i < |s.log| && w.handling.HandlerFailed? && w.publishing.PublishCancelled?
    && config.deadLetters && Count(s.attempts, s.log[i]) + 1 >= config.most && !Done(s, s.log[i])
  }

  lemma DoneThrough(s: Partition, t: Partition, i: nat)
    requires Increasing(s.log) && DoneBelow(s, s.position) && i < |s.log| && i == NextRecord(s.log, s.position)
    requires t.log == s.log && s.handled <= t.handled && s.buried <= t.buried
    ensures DoneBelow(t, s.log[i]) && (Done(t, s.log[i]) <==> DoneBelow(t, s.log[i] + 1))
  {
    forall j | 0 <= j < |s.log| && s.log[j] < s.log[i] ensures Done(t, s.log[j]) {
      assert j < i;
      assert Done(s, s.log[j]);
    }
    forall j | 0 <= j < |s.log| && s.log[j] == s.log[i] ensures j == i {}
  }

  /** After a fetch the position is at or just past the record, and a commit only follows a finished record. */
  lemma MovedInv(s: Partition, t: Partition, i: nat)
    requires Inv(s) && i < |s.log| && i == NextRecord(s.log, s.position)
    requires t.log == s.log && s.handled <= t.handled && s.buried <= t.buried
    requires t.position == s.log[i] || t.position == s.log[i] + 1
    requires t.committed == s.committed || (t.committed == s.log[i] + 1 && Done(t, s.log[i]))
    ensures Inv(t) <==> t.position == s.log[i] || Done(t, s.log[i])
  {
    DoneThrough(s, t, i);
    assert s.log[i] + 1 <= End(s.log);
    forall j | 0 <= j < |s.log| && s.log[j] < s.committed ensures Done(t, s.log[j]) { assert Done(s, s.log[j]); }
  }

  /** A poll keeps the guarantee unless, and only unless, it is cancelled while burying an unfinished record. */
  lemma PollKeepsInvExactlyWhen(s: Partition, config: Config, w: Weather)
    requires Inv(s)
    ensures Inv(ProcessOnce(s, config, w).0) <==> !CancelledBurial(s, config, w)
  {
    var i := NextRecord(s.log, s.position);
    if i < |s.log| { MovedInv(s, ProcessOnce(s, config, w).0, i); }
  }

  /** Nothing in the run is cancelled while it is being buried. */
  predicate Undisturbed(config: Config, actions: seq<Action>) {
    forall n: nat :: n < |actions| && actions[n].Poll? ==> !CancelledBurial(Run(config, actions[..n]), config, actions[n].weather)
  }

  lemma StepKeepsInv(s: Partition, config: Config, a: Action)
    requires Inv(s) && (a.Poll? ==> !CancelledBurial(s, config, a.weather))
    ensures Inv(Step(s, config, a))
  {
    if a.Poll? { PollKeepsInvExactlyWhen(s, config, a.weather); }
  }

  lemma {:induction false} RunKeepsInv(config: Config, actions: seq<Action>)
    requires Undisturbed(config, actions)
    ensures Inv(Run(config, actions))
  {
    if actions != [] {
      var before := actions[..|actions| - 1];
      assert forall n: nat :: n < |before| ==> before[..n] == actions[..n] && before[n] == actions[n];
      RunKeepsInv(config, before);
      StepKeepsInv(Run(config, before), config, actions[|actions| - 1]);
    }
  }

  /** A committed offset never passes a record that was neither handled nor dead-lettered. */
  lemma AtLeastOnce(config: Config, actions: seq<Action>, i: nat)
    requires Undisturbed(config, actions) && i < |Run(config, actions).log|
    ensures var s := Run(config, actions); s.log[i] < s.committed ==> s.log[i] in s.handled || s.log[i] in s.buried
  {
    RunKeepsInv(config, actions);
  }

  const FAIR := Weather(Handled, Published, Committed)

  /** Once that has happened, handling the next record commits past the lost one. */
  lemma CancelledBurialLosesRecord(s: Partition, config: Config, w: Weather)
    requires Inv(s) && CancelledBurial(s, config, w) && NextRecord(s.log, s.position) + 1 < |s.log|
    ensures var lost := s.log[NextRecord(s.log, s.position)];
      var t := ProcessOnce(ProcessOnce(s, config, w).0, config, FAIR).0;
      lost in t.log && lost < t.committed && lost !in t.handled && lost !in t.buried
  {
    var i := NextRecord(s.log, s.position);
    var t := ProcessOnce(s, config, w).0;
    assert t.position == s.log[i] + 1 && t.log == s.log;
    var j := NextRecord(t.log, t.position);
    assert t.log[i] < t.position <= t.log[i + 1];
    assert forall k :: 0 <= k <= i ==> t.log[k] < t.position;
    assert j == i + 1;
  }

  lemma TwoRecords(config: Config)
    ensures Run(config, [Produce(0), Produce(1)]) == INITIAL.(log := [0, 1])
  {
    assert [] + [Produce(0)] == [Produce(0)] && [Produce(0)] + [Produce(1)] == [Produce(0), Produce(1)];
    RunMore(config, [], Produce(0));
    RunMore(config, [Produce(0)], Produce(1));
    assert [] + [0] == [0] && [0] + [1] == [0, 1];
  }

  /** With two records and a single attempt the very first failure can be such a case. */
  lemma CancelledBurialIsReachable(s: Partition)
    requires s == Run(Config(true, 1), [Produce(0), Produce(1)])
    ensures Inv(s) && CancelledBurial(s, Config(true, 1), Weather(HandlerFailed, PublishCancelled, Committed))
    ensures NextRecord(s.log, s.position) == 0 && |s.log| == 2
  {
    TwoRecords(Config(true, 1));
    assert s.log[0] == 0;
  }

  // ----- How often a record fails -----

  predicate Applied(c: Committing) {
    c.Committed? || c.applied
  }

  /** The action is a poll whose delivery of this record fails. */
  predicate FailsOn(s: Partition, a: Action, offset: nat) {
    var i := NextRecord(s.log, s.position);
    a.Poll? && a.weather.handling.HandlerFailed? && i < |s.log| && s.log[i] == offset
  }

  /** The action's failed delivery uses the attempts up, so that the record is dead-lettered. */
  predicate Buries(s: Partition, config: Config, a: Action, offset: nat) {
    FailsOn(s, a, offset) && Count(s.attempts, offset) + 1 >= config.most
  }

  /** Such a burial whose commit is not applied. */
  predicate LosesCommit(s: Partition, config: Config, a: Action, offset: nat) {
    Buries(s, config, a, offset) && !Applied(a.weather.committing)
  }

  /** Burials of a record since the process started. */
  function Burials(config: Config, actions: seq<Action>, offset: nat): nat {
    if actions == [] then 0
    else
      var before, last := actions[..|actions| - 1], actions[|actions| - 1];
      if last.Restart? then 0
      else Burials(config, before, offset) + if Buries(Run(config, before), config, last, offset) then 1 else 0
  }

  /** Those of them whose commit was not applied. */
  function LostCommits(config: Config, actions: seq<Action>, offset: nat): nat {
    if actions == [] then 0
    else
      var before, last := actions[..|actions| - 1], actions[|actions| - 1];
      if last.Restart? then 0
      else LostCommits(config, before, offset) + if LosesCommit(Run(config, before), config, last, offset) then 1 else 0
  }

  /** Every dead letter is published. */
  predicate AllPublished(actions: seq<Action>) {
    forall a :: a in actions ==> (a.Poll? ==> a.weather.publishing.Published?)
  }

  /** A record's failures, given its burials and how many of their commits were lost. */
  predicate Counted(s: Partition, config: Config, offset: nat, burials: nat, lost: nat) {
    && s.committed <= s.position
    && (offset >= s.committed ==> Count(s.failed, offset) == Count(s.attempts, offset) && burials == lost)
    && lost <= burials <= lost + 1
    && (burials == 0 ==> Count(s.failed, offset) < config.most)
    && (burials > 0 ==> Count(s.failed, offset) == config.most - 1 + burials)
  }

  lemma CommitKeepsCount(s: Partition, done: nat, c: Committing, config: Config, offset: nat, burials: nat, lost: nat)
    requires Counted(s, config, offset, burials, lost) && s.position == done + 1
    ensures Counted(Commit(s, done, c).0, config, offset, burials, lost)
  {}

  /** A failed delivery of another record. */
  lemma OtherFailureKeepsCount(s: Partition, done: nat, config: Config, w: Weather, offset: nat, burials: nat, lost: nat)
    requires Counted(s, config, offset, burials, lost) && w.publishing.Published? && done >= s.position && done != offset
    ensures Counted(Fail(s, done, config, w).0, config, offset, burials, lost)
  {
    var t := Fail(s, done, config, w).0;
    assert Count(t.failed, offset) == Count(s.failed, offset);
  }

  /** A failed delivery of the record itself. */
  lemma FailureCounts(s: Partition, config: Config, w: Weather, offset: nat, burials: nat, lost: nat)
    requires Counted(s, config, offset, burials, lost) && config.deadLetters && w.publishing.Published? && offset >= s.position
    ensures var buried := Count(s.attempts, offset) + 1 >= config.most;
      Counted(Fail(s, offset, config, w).0, config, offset, burials + (if buried then 1 else 0),
              lost + if buried && !Applied(w.committing) then 1 else 0)
  {}

  lemma PollCounts(s: Partition, config: Config, w: Weather, offset: nat, burials: nat, lost: nat)
    requires Counted(s, config, offset, burials, lost) && config.deadLetters && w.publishing.Published?
    ensures Counted(ProcessOnce(s, config, w).0, config, offset,
                    burials + (if Buries(s, config, Poll(w), offset) then 1 else 0),
                    lost + if LosesCommit(s, config, Poll(w), offset) then 1 else 0)
  {
    var i := NextRecord(s.log, s.position);
    if i < |s.log| {
      var done := s.log[i];
      match w.handling
      case HandlerCancelled =>
      case HandlerFailed =>
        if done == offset {
          FailureCounts(s, config, w, offset, burials, lost);
        } else {
          OtherFailureKeepsCount(s, done, config, w, offset, burials, lost);
        }
      case Handled =>
        CommitKeepsCount(s.(handled := s.handled + {done}, position := done + 1), done, w.committing, config, offset, burials, lost);
    }
  }

  lemma {:induction false} RunCounts(config: Config, actions: seq<Action>, offset: nat)
    requires config.deadLetters && config.most >= 1 && AllPublished(actions)
    ensures Counted(Run(config, actions), config, offset, Burials(config, actions, offset), LostCommits(config, actions, offset))
  {
    if actions != [] {
      var before, last := actions[..|actions| - 1], actions[|actions| - 1];
      assert last in actions;
      RunCounts(config, before, offset);
      if last.Poll? {
        PollCounts(Run(config, before), config, last.weather, offset, Burials(config, before, offset), LostCommits(config, before, offset));
      }
    }
  }

  /**
  With a working dead-letter topic a record's failures in one process are exactly accounted
  for: below the maximum until its first burial, the maximum at it, and one more with every
  further burial.  Each further burial costs a lost commit, so failures exceed the maximum
  by no more than the number of lost commits.
  */
  lemma FailuresAreBounded(config: Config, actions: seq<Action>, offset: nat)
    requires config.deadLetters && config.most >= 1 && AllPublished(actions)
    ensures var failures := Count(Run(config, actions).failed, offset); var burials := Burials(config, actions, offset);
      && (if burials == 0 then failures < config.most else failures == config.most - 1 + burials)
      && burials <= LostCommits(config, actions, offset) + 1
      && failures <= config.most + LostCommits(config, actions, offset)
  {
    RunCounts(config, actions, offset);
  }

  // ----- Exactly when the maximum is exceeded -----

  /** Action m buried the record, its commit was lost, and the process still lives. */
  predicate LostAt(config: Config, actions: seq<Action>, offset: nat, m: nat) {
    && m < |actions| && LosesCommit(Run(config, actions[..m]), config, actions[m], offset)
    && forall j :: m < j < |actions| ==> !actions[j].Restart?
  }

  /** After such a loss the record was delivered once more, and failed. */
  predicate RefailsAt(config: Config, actions: seq<Action>, offset: nat, m: nat, n: nat) {
    LostAt(config, actions, offset, m) && m < n < |actions| && FailsOn(Run(config, actions[..n]), actions[n], offset)
  }

  lemma LostAtLonger(config: Config, actions: seq<Action>, offset: nat, m: nat)
    requires actions != [] && m < |actions| - 1
    ensures LostAt(config, actions, offset, m) <==>
            LostAt(config, actions[..|actions| - 1], offset, m) && !actions[|actions| - 1].Restart?
  {
    var before := actions[..|actions| - 1];
    assert before[..m] == actions[..m] && before[m] == actions[m];
    if LostAt(config, before, offset, m) && !actions[|actions| - 1].Restart? {
      forall j | m < j < |actions| ensures !actions[j].Restart? {
        if j < |before| { assert before[j] == actions[j]; }
      }
    }
    if LostAt(config, actions, offset, m) {
      forall j | m < j < |before| ensures !before[j].Restart? { assert before[j] == actions[j]; }
    }
  }

  ghost predicate SomeLost(config: Config, actions: seq<Action>, offset: nat) {
    exists m: nat :: LostAt(config, actions, offset, m)
  }

  lemma SomeLostBefore(config: Config, actions: seq<Action>, offset: nat, before: seq<Action>, last: Action)
    requires actions != [] && before == actions[..|actions| - 1] && last == actions[|actions| - 1] && SomeLost(config, actions, offset)
    ensures LosesCommit(Run(config, before), config, last, offset) || (SomeLost(config, before, offset) && !last.Restart?)
  {
    var m: nat :| LostAt(config, actions, offset, m);
    if m < |before| { LostAtLonger(config, actions, offset, m); }
  }

  lemma LostLast(config: Config, actions: seq<Action>, offset: nat, n: nat)
    requires n == |actions| - 1 && LosesCommit(Run(config, actions[..n]), config, actions[n], offset)
    ensures LostAt(config, actions, offset, n)
  {}

  lemma SomeLostAfter(config: Config, actions: seq<Action>, offset: nat, before: seq<Action>, last: Action)
    requires actions != [] && before == actions[..|actions| - 1] && last == actions[|actions| - 1]
    requires LosesCommit(Run(config, before), config, last, offset) || (SomeLost(config, before, offset) && !last.Restart?)
    ensures SomeLost(config, actions, offset)
  {
    if LosesCommit(Run(config, before), config, last, offset) {
      LostLast(config, actions, offset, |before|);
    } else {
      var m: nat :| LostAt(config, before, offset, m);
      LostAtLonger(config, actions, offset, m);
    }
  }

  lemma SomeLostLonger(config: Config, actions: seq<Action>, offset: nat)
    requires actions != []
    ensures var before, last := actions[..|actions| - 1], actions[|actions| - 1];
      SomeLost(config, actions, offset) <==>
        LosesCommit(Run(config, before), config, last, offset) || (SomeLost(config, before, offset) && !last.Restart?)
  {
    var before, last := actions[..|actions| - 1], actions[|actions| - 1];
    if SomeLost(config, actions, offset) { SomeLostBefore(config, actions, offset, before, last); }
    if LosesCommit(Run(config, before), config, last, offset) || (SomeLost(config, before, offset) && !last.Restart?) {
      SomeLostAfter(config, actions, offset, before, last);
    }
  }

  lemma {:induction false} LostCommitsFound(config: Config, actions: seq<Action>, offset: nat)
    ensures LostCommits(config, actions, offset) > 0 <==> SomeLost(config, actions, offset)
  {
    if actions != [] {
      LostCommitsFound(config, actions[..|actions| - 1], offset);
      SomeLostLonger(config, actions, offset);
    }
  }

  ghost predicate Refails(config: Config, actions: seq<Action>, offset: nat) {
    exists m: nat, n: nat :: RefailsAt(config, actions, offset, m, n)
  }

  lemma RefailsAtLonger(config: Config, actions: seq<Action>, offset: nat, m: nat, n: nat)
    requires m < n < |actions|
    ensures var k := |actions| - 1; var before, last := actions[..k], actions[k];
      RefailsAt(config, actions, offset, m, n) <==>
        !last.Restart? && LostAt(config, before, offset, m)
        && (if n < k then RefailsAt(config, before, offset, m, n) else FailsOn(Run(config, before), last, offset))
  {
    LostAtLonger(config, actions, offset, m);
    var before := actions[..|actions| - 1];
    if n < |before| { assert before[..n] == actions[..n] && before[n] == actions[n]; }
  }

  lemma RefailsBefore(config: Config, actions: seq<Action>, offset: nat)
    requires actions != [] && Refails(config, actions, offset)
    ensures var before, last := actions[..|actions| - 1], actions[|actions| - 1];
      && !last.Restart?
      && (Refails(config, before, offset) || (SomeLost(config, before, offset) && FailsOn(Run(config, before), last, offset)))
  {
    var m: nat, n: nat :| RefailsAt(config, actions, offset, m, n);
    RefailsAtLonger(config, actions, offset, m, n);
  }

  lemma RefailsAfter(config: Config, actions: seq<Action>, offset: nat)
    requires actions != [] && !actions[|actions| - 1].Restart?
    requires var before, last := actions[..|actions| - 1], actions[|actions| - 1];
      Refails(config, before, offset) || (SomeLost(config, before, offset) && FailsOn(Run(config, before), last, offset))
    ensures Refails(config, actions, offset)
  {
    var before := actions[..|actions| - 1];
    if Refails(config, before, offset) {
      var m: nat, n: nat :| RefailsAt(config, before, offset, m, n);
      RefailsAtLonger(config, actions, offset, m, n);
    } else {
      var m: nat :| LostAt(config, before, offset, m);
      RefailsAtLonger(config, actions, offset, m, |before|);
    }
  }

  lemma RefailsLonger(config: Config, actions: seq<Action>, offset: nat)
    requires actions != []
    ensures var before, last := actions[..|actions| - 1], actions[|actions| - 1];
      Refails(config, actions, offset) <==>
        !last.Restart? && (Refails(config, before, offset) || (SomeLost(config, before, offset) && FailsOn(Run(config, before), last, offset)))
  {
    var before, last := actions[..|actions| - 1], actions[|actions| - 1];
    if Refails(config, actions, offset) { RefailsBefore(config, actions, offset); }
    if !last.Restart? && (Refails(config, before, offset) || (SomeLost(config, before, offset) && FailsOn(Run(config, before), last, offset))) {
      RefailsAfter(config, actions, offset);
    }
  }

  lemma OnlyFailuresCount(s: Partition, config: Config, a: Action, offset: nat)
    ensures Count(Step(s, config, a).failed, offset) ==
      if a.Restart? then 0 else Count(s.failed, offset) + if FailsOn(s, a, offset) then 1 else 0
  {}

  /**
  A record fails more often than the maximum exactly when a burial's commit was lost and the
  record was then delivered again, and failed again.
  */
  lemma {:induction false} ExceedsExactlyWhen(config: Config, actions: seq<Action>, offset: nat)
    requires config.deadLetters && config.most >= 1 && AllPublished(actions)
    ensures Count(Run(config, actions).failed, offset) > config.most <==> Refails(config, actions, offset)
  {
    if actions != [] {
      var before, last := actions[..|actions| - 1], actions[|actions| - 1];
      var s := Run(config, before);
      ExceedsExactlyWhen(config, before, offset);
      RefailsLonger(config, actions, offset);
      OnlyFailuresCount(s, config, last, offset);
      RunCounts(config, before, offset);
      LostCommitsFound(config, before, offset);
    }
  }

  /** Short of a rebalance or a restart the position never goes back over a record it has passed. */
  lemma PassedStaysPassed(s: Partition, config: Config, a: Action, offset: nat)
    requires s.position > offset && !a.Rebalance? && !a.Restart?
    ensures Step(s, config, a).position > offset && !FailsOn(s, a, offset)
  {}

  lemma BuriedIsPassed(s: Partition, config: Config, a: Action, offset: nat)
    requires LosesCommit(s, config, a, offset) && config.deadLetters && a.weather.publishing.Published?
    ensures Step(s, config, a).position > offset
  {}

  lemma {:induction false} RunStep(config: Config, actions: seq<Action>, n: nat, s: Partition)
    requires n < |actions| && s == Run(config, actions[..n])
    ensures Run(config, actions[..n + 1]) == Step(s, config, actions[n])
  {
    assert actions[..n + 1][..n] == actions[..n];
  }

  lemma {:induction false} PassedUntil(config: Config, actions: seq<Action>, offset: nat, from: nat, n: nat)
    requires from <= n <= |actions| && Run(config, actions[..from]).position > offset
    requires forall j :: from <= j < n ==> !actions[j].Rebalance? && !actions[j].Restart?
    ensures Run(config, actions[..n]).position > offset
  {
    if from < n {
      var k := n - 1;
      var s := Run(config, actions[..k]);
      PassedUntil(config, actions, offset, from, k);
      PassedStaysPassed(s, config, actions[k], offset);
      RunStep(config, actions, k, s);
    }
  }

  lemma PassedAfterBurial(config: Config, actions: seq<Action>, offset: nat, m: nat, s: Partition)
    requires m < |actions| && s == Run(config, actions[..m]) && LosesCommit(s, config, actions[m], offset)
    requires config.deadLetters && actions[m].weather.publishing.Published?
    ensures Run(config, actions[..m + 1]).position > offset
  {
    RunStep(config, actions, m, s);
    BuriedIsPassed(s, config, actions[m], offset);
  }

  /** That further delivery takes a rebalance between the lost commit and the failure. */
  lemma RefailTakesRebalance(config: Config, actions: seq<Action>, offset: nat, m: nat, n: nat)
    requires config.deadLetters && AllPublished(actions) && RefailsAt(config, actions, offset, m, n)
    ensures exists j :: m < j < n && actions[j].Rebalance?
  {
    if forall j :: m < j < n ==> !actions[j].Rebalance? {
      assert actions[m] in actions;
      PassedAfterBurial(config, actions, offset, m, Run(config, actions[..m]));
      PassedUntil(config, actions, offset, m + 1, n);
    }
  }

  /** So while the partition stays with the process, no record fails more often than the maximum. */
  lemma NoRebalanceNoExcess(config: Config, actions: seq<Action>, offset: nat)
    requires config.deadLetters && config.most >= 1 && AllPublished(actions)
    requires forall j :: 0 <= j < |actions| ==> !actions[j].Rebalance?
    ensures Count(Run(config, actions).failed, offset) <= config.most
  {
    ExceedsExactlyWhen(config, actions, offset);
    if Refails(config, actions, offset) {
      var m: nat, n: nat :| RefailsAt(config, actions, offset, m, n);
      RefailTakesRebalance(config, actions, offset, m, n);
    }
  }

  /** Failing deliveries of the first record whose commits are lost, each followed by a rebalance. */
  function Rounds(k: nat): seq<Action> {
    if k == 0 then [Produce(0)]
    else Rounds(k - 1) + [Poll(Weather(HandlerFailed, Published, CommitRaised(false)))] + [Rebalance]
  }

  lemma {:induction false} RunMore(config: Config, actions: seq<Action>, a: Action)
    ensures Run(config, actions + [a]) == Step(Run(config, actions), config, a)
  {
    assert (actions + [a])[..|actions|] == actions;
  }

  predicate AtFirst(s: Partition, k: nat) {
    s.log == [0] && s.position == 0 && s.committed == 0 && Count(s.failed, 0) == Count(s.attempts, 0) == k
  }

  lemma AnotherRound(s: Partition, config: Config, k: nat)
    requires AtFirst(s, k)
    ensures AtFirst(Step(Step(s, config, Poll(Weather(HandlerFailed, Published, CommitRaised(false)))), config, Rebalance), k + 1)
  {
    assert NextRecord(s.log, s.position) == 0;
  }

  /** Whatever the maximum, k such rounds make the record fail k times in one process, so there is no bound. */
  lemma {:induction false} FailuresUnbounded(config: Config, k: nat)
    ensures Count(Run(config, Rounds(k)).failed, 0) == k && AllPublished(Rounds(k)) && AtFirst(Run(config, Rounds(k)), k)
  {
    if k == 0 {
      assert [Produce(0)][..0] == [] && [] + [0] == [0];
      assert Run(config, [Produce(0)]) == Step(INITIAL, config, Produce(0));
    } else {
      FailuresUnbounded(config, k - 1);
      var fail := Poll(Weather(HandlerFailed, Published, CommitRaised(false)));
      RunMore(config, Rounds(k - 1), fail);
      RunMore(config, Rounds(k - 1) + [fail], Rebalance);
      AnotherRound(Run(config, Rounds(k - 1)), config, k - 1);
    }
  }

  // ----- The consumer -----

  /** The consumer's and the broker's state of the partition. */
  class Consumer {
    const config: Config
    var log: seq<nat>
    var position: nat
    var committed: nat
    var attempts: map<nat, nat>
    ghost var handled: set<nat>
    ghost var buried: set<nat>
    ghost var failed: map<nat, nat>

    constructor (config: Config)
      requires config.most >= 1
      ensures this.config == config && View() == INITIAL
    {
      this.config := config;
      log, position, committed, attempts, handled, buried, failed := [], 0, 0, map[], {}, {}, map[];
    }

    ghost function View(): Partition
      reads this
    {
      Partition(log, position, committed, attempts, handled, buried, failed)
    }

    /** Fetches at most one record and leaves the position behind it. */
    method GetMany() returns (offset: Option<nat>)
      modifies this`position
      ensures var i := NextRecord(log, old(position));
        && offset == (if i < |log| then Some(log[i]) else None)
        && position == if i < |log| then log[i] + 1 else old(position)
    {
      var i := 0;
      while i < |log| && log[i] < position
        invariant 0 <= i <= |log| && forall j :: 0 <= j < i ==> log[j] < position
      {
        i := i + 1;
      }
      ghost var n := NextRecord(log, position);
      assert i == n;
      if i == |log| { return None; }
      position := log[i] + 1;
      return Some(log[i]);
    }

    method CommitOffset(offset: nat, c: Committing) returns (outcome: Outcome)
      modifies this
      ensures (View(), outcome) == Commit(old(View()), offset, c)
    {
      if c.CommitRaised? {
        if c.applied { committed := offset + 1; }
        return Raised;
      }
      committed := offset + 1;
      attempts := attempts - {offset};
      return Processed;
    }

    method Process(w: Weather) returns (outcome: Outcome)
      modifies this
      ensures (View(), outcome) == ProcessOnce(old(View()), config, w)
    {
      var record := GetMany();
      if record.None? { return Idle; }
      var offset := record.value;
      if w.handling.HandlerCancelled? {
        position := offset;
        return Raised;
      }
      if w.handling.HandlerFailed? {
        var n := Count(attempts, offset) + 1;
        attempts := attempts[offset := n];
        failed := failed[offset := Count(failed, offset) + 1];
        if config.deadLetters && n >= config.most {
          if w.publishing.PublishCancelled? { return Raised; }
          if w.publishing.PublishFailed? {
            position := offset;
            return Raised;
          }
          buried := buried + {offset};
          outcome := CommitOffset(offset, w.committing);
          return;
        }
        position := offset;
        return Raised;
      }
      handled := handled + {offset};
      outcome := CommitOffset(offset, w.committing);
    }
  }
}
