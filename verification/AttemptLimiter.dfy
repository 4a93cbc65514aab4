/**
 The attempt limit when attempts overlap: each one checks the journal first and writes its
 row later, so several may pass the check before any of them has written.
 */
module AttemptLimiter {
  import opened Wrappers
  import opened Journal

  /** An attempt past its check; open until its row is committed or it is lost. */
  datatype Attempt = Attempt(peer: int, check: int, open: bool)

  datatype State = State(journal: seq<Entry>, attempts: seq<Attempt>)

  datatype Step =
    | Pass(peer: int, check: int)
    | Refuse(peer: int, check: int, at: int)
    | Record(i: nat, verdict: Verdict, at: int)
    | Lose(i: nat)
    | OtherRow(entry: Entry)

  datatype Limits = Limits(maxAttempts: nat, window: nat)

  predicate IsOpen(s: State, i: nat) {
    i < |s.attempts| && s.attempts[i].open
  }

  /** A row's timestamp is no earlier than the check of its attempt; clocks are otherwise free. */
  predicate Enabled(c: Limits, s: State, step: Step) {
    match step
    case Pass(p, check) => !Refuses(s.journal, p, check, c.window, c.maxAttempts)
    case Refuse(p, check, _) => Refuses(s.journal, p, check, c.window, c.maxAttempts)
    case Record(i, verdict, at) => IsOpen(s, i) && at >= s.attempts[i].check && verdict != RateLimited
    case Lose(i) => IsOpen(s, i)
    case OtherRow(e) => e.action != Confirmation
  }

  function Close(s: State, i: nat): State
    requires i < |s.attempts|
  {
    s.(attempts := s.attempts[i := s.attempts[i].(open := false)])
  }

  function Apply(c: Limits, s: State, step: Step): State
    requires Enabled(c, s, step)
  {
    match step
    case Pass(p, check) => s.(attempts := s.attempts + [Attempt(p, check, true)])
    case Refuse(p, _, at) => s.(journal := s.journal + [Entry(Confirmation, RateLimited, Some(p), at)])
    case Record(i, verdict, at) =>
      var e := Entry(Confirmation, verdict, Some(s.attempts[i].peer), at);
      Close(s, i).(journal := s.journal + [e])
    case Lose(i) => Close(s, i)
    case OtherRow(e) => s.(journal := s.journal + [e])
  }

  /** Open attempts of the peer whose check was no later than the moment. */
  function OpenBy(attempts: seq<Attempt>, peer: int, moment: int): nat {
    if attempts == [] then 0
    else
      var n := |attempts| - 1;
      OpenBy(attempts[..n], peer, moment)
      + if attempts[n].open && attempts[n].peer == peer && attempts[n].check <= moment then 1 else 0
  }

  function Overlap(attempts: seq<Attempt>, peer: int): nat {
    if attempts == [] then 0
    else
      var n := |attempts| - 1;
      Overlap(attempts[..n], peer) + if attempts[n].open && attempts[n].peer == peer then 1 else 0
  }

  /** A run: every step is enabled when it is taken. Clocks and overlaps are free. */
  ghost predicate Legal(c: Limits, steps: seq<Step>)
    decreases |steps|, 0
  {
    steps == [] ||
    var n := |steps| - 1;
    Legal(c, steps[..n]) && Enabled(c, Run(c, steps[..n]), steps[n])
  }

  ghost function Run(c: Limits, steps: seq<Step>): State
    requires Legal(c, steps)
    decreases |steps|, 1
  {
    if steps == [] then State([], [])
    else Apply(c, Run(c, steps[..|steps| - 1]), steps[|steps| - 1])
  }

  /** At no moment of the run are more than k attempts of this peer between check and row. */
  ghost predicate AtMost(c: Limits, steps: seq<Step>, peer: int, k: nat)
    requires Legal(c, steps)
    decreases |steps|
  {
    && Overlap(Run(c, steps).attempts, peer) <= k
    && (steps != [] ==> AtMost(c, steps[..|steps| - 1], peer, k))
  }

  /** Failures in the window, and attempts that can still add one to it, never exceed the bound. */
  ghost predicate Bounded(c: Limits, k: nat, s: State, peer: int) {
    forall a :: InWindow(s.journal, peer, a, c.window) + OpenBy(s.attempts, peer, a + c.window) + 1 <= c.maxAttempts + k
  }

  lemma {:induction false} OpenByWithinOverlap(attempts: seq<Attempt>, peer: int, moment: int)
    ensures OpenBy(attempts, peer, moment) <= Overlap(attempts, peer)
  {
    if attempts == [] {
    } else {
      OpenByWithinOverlap(attempts[..|attempts| - 1], peer, moment);
    }
  }

  lemma {:induction false} OpenByUpdate(attempts: seq<Attempt>, i: nat, peer: int, moment: int)
    requires i < |attempts| && attempts[i].open
    ensures
      var closed := attempts[i := attempts[i].(open := false)];
      OpenBy(attempts, peer, moment) == OpenBy(closed, peer, moment)
                                        + if attempts[i].peer == peer && attempts[i].check <= moment then 1 else 0
  {
    var n := |attempts| - 1;
    var closed := attempts[i := attempts[i].(open := false)];
    if i == n {
      assert closed[..n] == attempts[..n];
    } else {
      OpenByUpdate(attempts[..n], i, peer, moment);
      assert closed[..n] == attempts[..n][i := attempts[i].(open := false)];
    }
  }

  lemma OneMoreRow(journal: seq<Entry>, e: Entry, peer: int, from: int, window: int)
    ensures InWindow(journal + [e], peer, from, window) ==
            InWindow(journal, peer, from, window) + if CountedFor(e, peer) && from <= e.at <= from + window then 1 else 0
  {
    var times := FailureTimes(journal, peer);
    FailureTimesAppend(journal, e, peer);
    assert times + [] == times;
    CountAppend(times, e.at, from, from + window);
  }

  lemma StepKeepsBounded(c: Limits, k: nat, s: State, step: Step, peer: int)
    requires Enabled(c, s, step) && Bounded(c, k, s, peer) && Overlap(Apply(c, s, step).attempts, peer) <= k
    ensures Bounded(c, k, Apply(c, s, step), peer)
  {
    var s' := Apply(c, s, step);
    forall a ensures InWindow(s'.journal, peer, a, c.window) + OpenBy(s'.attempts, peer, a + c.window) + 1 <= c.maxAttempts + k {
      var end := a + c.window;
      assert InWindow(s.journal, peer, a, c.window) + OpenBy(s.attempts, peer, end) + 1 <= c.maxAttempts + k;
      match step
      case Pass(q, check) =>
        assert s'.attempts[..|s.attempts|] == s.attempts;
        if q == peer && check <= end {
          WindowWithinSince(FailureTimes(s.journal, peer), a, end, check - c.window);
          OpenByWithinOverlap(s'.attempts, peer, end);
        }
      case Refuse(q, _, at) => OneMoreRow(s.journal, Entry(Confirmation, RateLimited, Some(q), at), peer, a, c.window);
      case Record(i, verdict, at) =>
        OpenByUpdate(s.attempts, i, peer, end);
        OneMoreRow(s.journal, Entry(Confirmation, verdict, Some(s.attempts[i].peer), at), peer, a, c.window);
      case Lose(i) => OpenByUpdate(s.attempts, i, peer, end);
      case OtherRow(e) => OneMoreRow(s.journal, e, peer, a, c.window);
    }
  }

  lemma {:induction false} RunKeepsBounded(c: Limits, k: nat, steps: seq<Step>, peer: int)
    requires c.maxAttempts + k >= 1 && Legal(c, steps) && AtMost(c, steps, peer, k)
    ensures Bounded(c, k, Run(c, steps), peer)
  {
    if steps == [] {
      assert FailureTimes([], peer) == [];
      forall a ensures InWindow([], peer, a, c.window) == 0 { }
    } else {
      var n := |steps| - 1;
      RunKeepsBounded(c, k, steps[..n], peer);
      StepKeepsBounded(c, k, Run(c, steps[..n]), steps[n], peer);
    }
  }

  /**
   If at most k attempts of a peer are in flight at any time, every closed window of the
   configured length holds at most maxAttempts + k - 1 counted failures of that peer,
   however much the attempts of other peers overlap.
   */
  lemma OverlappingAttemptsBound(c: Limits, k: nat, steps: seq<Step>, peer: int, from: int)
    requires c.maxAttempts >= 1 && k >= 1 && Legal(c, steps) && AtMost(c, steps, peer, k)
    ensures InWindow(Run(c, steps).journal, peer, from, c.window) <= c.maxAttempts + k - 1
  {
    RunKeepsBounded(c, k, steps, peer);
    assert InWindow(Run(c, steps).journal, peer, from, c.window)
         + OpenBy(Run(c, steps).attempts, peer, from + c.window) + 1 <= c.maxAttempts + k;
  }

  function Zeros(n: nat): seq<int> {
    seq(n, _ => 0)
  }

  lemma {:induction false} CountZeros(n: nat, from: int, upTo: int)
    requires from <= 0 <= upTo
    ensures CountSince(Zeros(n), from) == n && CountBetween(Zeros(n), from, upTo) == n
  {
    if n == 0 {
    } else {
      CountZeros(n - 1, from, upTo);
      assert Zeros(n)[..n - 1] == Zeros(n - 1);
    }
  }

  /** The peer has so many failures, all at moment 0, and its last attempts are open. */
  ghost predicate Piled(s: State, peer: int, failures: nat, open: nat) {
    && FailureTimes(s.journal, peer) == Zeros(failures)
    && open <= |s.attempts|
    && forall i :: 0 <= i < |s.attempts| ==> s.attempts[i] == Attempt(peer, 0, i >= |s.attempts| - open)
  }

  lemma {:induction false} PiledOverlap(attempts: seq<Attempt>, peer: int, open: nat)
    requires open <= |attempts|
    requires forall i :: 0 <= i < |attempts| ==> attempts[i] == Attempt(peer, 0, i >= |attempts| - open)
    ensures Overlap(attempts, peer) == open
  {
    if attempts == [] {
    } else {
      PiledOverlap(attempts[..|attempts| - 1], peer, if open == 0 then 0 else open - 1);
    }
  }

  /** A run with overlap k that has piled up failures and open attempts of the peer. */
  ghost predicate Piling(c: Limits, k: nat, steps: seq<Step>, peer: int, failures: nat, open: nat) {
    Legal(c, steps) && AtMost(c, steps, peer, k) && Piled(Run(c, steps), peer, failures, open)
  }

  lemma Extend(c: Limits, k: nat, steps: seq<Step>, step: Step, peer: int, failures: nat, open: nat)
    requires Legal(c, steps) && AtMost(c, steps, peer, k) && Enabled(c, Run(c, steps), step) && open <= k
    requires Piled(Apply(c, Run(c, steps), step), peer, failures, open)
    ensures Piling(c, k, steps + [step], peer, failures, open)
  {
    PiledOverlap(Apply(c, Run(c, steps), step).attempts, peer, open);
    assert (steps + [step])[..|steps|] == steps;
  }

  lemma OneMorePass(c: Limits, k: nat, steps: seq<Step>, peer: int, failures: nat, open: nat) returns (longer: seq<Step>)
    requires Piling(c, k, steps, peer, failures, open) && open < k && failures < c.maxAttempts
    ensures Piling(c, k, longer, peer, failures, open + 1)
  {
    var since: int := 0 - c.window;
    CountZeros(failures, since, 0);
    Extend(c, k, steps, Pass(peer, 0), peer, failures, open + 1);
    longer := steps + [Pass(peer, 0)];
  }

  lemma OneMoreFailure(c: Limits, k: nat, steps: seq<Step>, peer: int, failures: nat, open: nat) returns (longer: seq<Step>)
    requires Piling(c, k, steps, peer, failures, open) && 0 < open <= k
    ensures Piling(c, k, longer, peer, failures + 1, open - 1)
  {
    var s := Run(c, steps);
    var step := Record(|s.attempts| - open, NotFound, 0);
    FailureTimesAppend(s.journal, Entry(Confirmation, NotFound, Some(peer), 0), peer);
    assert Zeros(failures) + [0] == Zeros(failures + 1);
    Extend(c, k, steps, step, peer, failures + 1, open - 1);
    longer := steps + [step];
  }

  lemma {:induction false} OneByOne(c: Limits, k: nat, peer: int, n: nat) returns (steps: seq<Step>)
    requires k >= 1 && n <= c.maxAttempts
    ensures Piling(c, k, steps, peer, n, 0)
  {
    if n == 0 {
      steps := [];
    } else {
      steps := OneByOne(c, k, peer, n - 1);
      steps := OneMorePass(c, k, steps, peer, n - 1, 0);
      steps := OneMoreFailure(c, k, steps, peer, n - 1, 1);
    }
  }

  lemma {:induction false} AllPass(c: Limits, k: nat, peer: int, m: nat) returns (steps: seq<Step>)
    requires c.maxAttempts >= 1 && m <= k && k >= 1
    ensures Piling(c, k, steps, peer, c.maxAttempts - 1, m)
  {
    if m == 0 {
      steps := OneByOne(c, k, peer, c.maxAttempts - 1);
    } else {
      steps := AllPass(c, k, peer, m - 1);
      steps := OneMorePass(c, k, steps, peer, c.maxAttempts - 1, m - 1);
    }
  }

  lemma {:induction false} AllFail(c: Limits, k: nat, peer: int, m: nat) returns (steps: seq<Step>)
    requires c.maxAttempts >= 1 && m <= k && k >= 1
    ensures Piling(c, k, steps, peer, c.maxAttempts - 1 + m, k - m)
  {
    if m == 0 {
      steps := AllPass(c, k, peer, k);
    } else {
      steps := AllFail(c, k, peer, m - 1);
      steps := OneMoreFailure(c, k, steps, peer, c.maxAttempts - 2 + m, k - m + 1);
    }
  }

  /**
   The bound is exact, for every peer: some run with overlap k puts maxAttempts + k - 1
   failures of the peer into one window.
   */
  lemma OverlapBoundIsReached(c: Limits, k: nat, peer: int) returns (steps: seq<Step>)
    requires c.maxAttempts >= 1 && k >= 1
    ensures Legal(c, steps) && AtMost(c, steps, peer, k)
    ensures InWindow(Run(c, steps).journal, peer, 0, c.window) == c.maxAttempts + k - 1
  {
    steps := AllFail(c, k, peer, k);
    CountZeros(c.maxAttempts + k - 1, 0, c.window);
  }

  /** The documented limit, for every run in which this peer overlaps itself at most k times. */
  ghost predicate LimitHolds(c: Limits, k: nat, peer: int) {
    forall steps, from :: Legal(c, steps) && AtMost(c, steps, peer, k)
                          ==> InWindow(Run(c, steps).journal, peer, from, c.window) <= c.maxAttempts
  }

  /** The documented limit holds of every run exactly when attempts of the peer do not overlap. */
  lemma LimitHoldsIffNoOverlap(c: Limits, k: nat, peer: int)
    requires c.maxAttempts >= 1 && k >= 1
    ensures LimitHolds(c, k, peer) <==> k == 1
  {
    var full := OverlapBoundIsReached(c, k, peer);
    if k == 1 {
      forall steps, from | Legal(c, steps) && AtMost(c, steps, peer, k)
        ensures InWindow(Run(c, steps).journal, peer, from, c.window) <= c.maxAttempts
      {
        OverlappingAttemptsBound(c, k, steps, peer, from);
      }
    } else {
      assert InWindow(Run(c, full).journal, peer, 0, c.window) > c.maxAttempts;
    }
  }
}
