/**
 Exactly when deliveries can deadlock. Two recipients of different lock hash suffice as soon
 as two deliveries can meet them crosswise: in opposite list orders, or because a second
 recipient shares the first one's lock and the two snapshots differ.
 */
module DeliveryDeadlock {
  import opened DeliveryLedger
  import opened DeliveryLoop
  import opened DeliveryCommand
  import opened DeliveryProtocol
  import opened DeliveryProgress

  /** Some delivery is open and, short of an abort, nothing but a new delivery is possible. */
  ghost predicate Stuck(h: Hash, s: State) {
    (exists i :: IsOpen(s, i)) && forall step :: Enabled(h, s, step) ==> !Advances(step)
  }

  /** Open transaction i stands before position p of its job. */
  ghost predicate Standing(s: State, i: nat, job: Job, p: nat) {
    IsOpen(s, i) && s.txs[i].phase.Ready? && s.txs[i].job == job && s.txs[i].pos == p
  }

  function LockAt(h: Hash, job: Job, p: nat): LockId
    requires p < |job.users|
  {
    LockOf(h, KeyAt(job, p))
  }

  lemma {:induction false} JoinFrom(h: Hash, s: State, a: seq<Step>, b: seq<Step>)
    requires LegalFrom(h, s, a) && LegalFrom(h, RunFrom(h, s, a), b)
    ensures LegalFrom(h, s, a + b) && RunFrom(h, s, a + b) == RunFrom(h, RunFrom(h, s, a), b)
    decreases |a|
  {
    hide Apply, Enabled;
    if a == [] {
      assert a + b == b;
    } else {
      JoinFrom(h, Apply(h, s, a[0]), a[1..], b);
      assert (a + b)[1..] == a[1..] + b;
    }
  }

  /** One enabled step appended to a continuation. */
  lemma ThenStep(h: Hash, s: State, more: seq<Step>, step: Step) returns (longer: seq<Step>)
    requires LegalFrom(h, s, more) && Enabled(h, RunFrom(h, s, more), step)
    ensures longer == more + [step]
    ensures LegalFrom(h, s, longer) && RunFrom(h, s, longer) == Apply(h, RunFrom(h, s, more), step)
  {
    hide Apply, Enabled;
    longer := more + [step];
    assert [step][1..] == [];
    JoinFrom(h, s, more, [step]);
  }

  /** Lock, check and claim of a recipient nobody has written to. */
  lemma ClaimNext(h: Hash, s: State, i: nat, job: Job, p: nat) returns (s1: State, s2: State, s3: State)
    requires Standing(s, i, job, p) && ActiveAt(job, p) && s.txs[i].writes == map[] && s.committed == map[]
    requires LockAt(h, job, p) !in s.locks
    ensures Enabled(h, s, Acquire(i)) && s1 == Apply(h, s, Acquire(i))
    ensures Enabled(h, s1, Check(i)) && s2 == Apply(h, s1, Check(i))
    ensures Enabled(h, s2, Upsert(i, 0)) && s3 == Apply(h, s2, Upsert(i, 0))
    ensures s3.committed == map[] && s3.locks == s.locks[LockAt(h, job, p) := i]
    ensures i < |s3.txs| && s3.txs == s.txs[i := s3.txs[i]]
    ensures
      var t := s3.txs[i];
      t.outcome == Open && t.phase == Claimed(0) && t.pos == p && t.job == job && KeyAt(job, p) in t.writes
  {
    hide ClaimedRow;
    s1 := Apply(h, s, Acquire(i));
    s2 := Apply(h, s1, Check(i));
    s3 := Apply(h, s2, Upsert(i, 0));
  }

  /** Send to it and mark it. */
  lemma SendNext(h: Hash, s3: State, i: nat, job: Job, p: nat) returns (s4: State, s5: State)
    requires i < |s3.txs| && ActiveAt(job, p)
    requires
      var t := s3.txs[i];
      t.outcome == Open && t.phase == Claimed(0) && t.pos == p && t.job == job && KeyAt(job, p) in t.writes
    ensures Enabled(h, s3, Send(i, true)) && s4 == Apply(h, s3, Send(i, true))
    ensures Enabled(h, s4, MarkRow(i, 0)) && s5 == Apply(h, s4, MarkRow(i, 0))
    ensures s5.committed == s3.committed && s5.locks == s3.locks
    ensures i < |s5.txs| && s5.txs == s3.txs[i := s5.txs[i]] && Standing(s5, i, job, p + 1)
  {
    hide SentRow, FailedRow;
    s4 := Apply(h, s3, Send(i, true));
    s5 := Apply(h, s4, MarkRow(i, 0));
  }

  lemma FiveSteps(h: Hash, s: State, s1: State, s2: State, s3: State, s4: State, steps: seq<Step>)
    requires |steps| == 5
    requires Enabled(h, s, steps[0]) && s1 == Apply(h, s, steps[0])
    requires Enabled(h, s1, steps[1]) && s2 == Apply(h, s1, steps[1])
    requires Enabled(h, s2, steps[2]) && s3 == Apply(h, s2, steps[2])
    requires Enabled(h, s3, steps[3]) && s4 == Apply(h, s3, steps[3])
    requires Enabled(h, s4, steps[4])
    ensures LegalFrom(h, s, steps) && RunFrom(h, s, steps) == Apply(h, s4, steps[4])
  {
    hide Apply, Enabled;
    var more := ThenStep(h, s, [], steps[0]);
    more := ThenStep(h, s, more, steps[1]);
    more := ThenStep(h, s, more, steps[2]);
    more := ThenStep(h, s, more, steps[3]);
    more := ThenStep(h, s, more, steps[4]);
    assert more == steps;
  }

  /** The recipient is dealt with; its lock stays with the transaction. */
  lemma TakeNext(h: Hash, s: State, i: nat, job: Job, p: nat) returns (more: seq<Step>)
    requires Standing(s, i, job, p) && ActiveAt(job, p) && s.txs[i].writes == map[] && s.committed == map[]
    requires LockAt(h, job, p) !in s.locks
    ensures LegalFrom(h, s, more) && forall j :: 0 <= j < |more| ==> !more[j].Begin?
    ensures
      var s' := RunFrom(h, s, more);
      && Standing(s', i, job, p + 1) && s'.committed == map[] && s'.txs == s.txs[i := s'.txs[i]]
      && s'.locks == s.locks[LockAt(h, job, p) := i]
  {
    var s1, s2, s3 := ClaimNext(h, s, i, job, p);
    var s4, s5 := SendNext(h, s3, i, job, p);
    hide Apply, Enabled, LegalFrom, RunFrom, LockAt, ActiveAt, KeyAt;
    more := [Acquire(i), Check(i), Upsert(i, 0), Send(i, true), MarkRow(i, 0)];
    FiveSteps(h, s, s1, s2, s3, s4, more);
  }

  /** Two deliveries over empty tables; the second has passed over p recipients without a binding. */
  ghost predicate BothReady(s: State, j0: Job, j1: Job, p: nat) {
    && |s.txs| == 2 && s.committed == map[] && s.locks == map[]
    && Standing(s, 0, j0, 0) && s.txs[0].writes == map[]
    && Standing(s, 1, j1, p) && s.txs[1].writes == map[]
  }

  /** The first recipient of each has the lock that the next recipient of the other needs. */
  predicate Crosswise(h: Hash, j0: Job, j1: Job, p: nat) {
    && ActiveAt(j0, 0) && ActiveAt(j0, 1) && ActiveAt(j1, p) && ActiveAt(j1, p + 1)
    && LockAt(h, j0, 1) == LockAt(h, j1, p) != LockAt(h, j0, 0) == LockAt(h, j1, p + 1)
  }

  lemma CrosswiseSticks(h: Hash, s: State, j0: Job, j1: Job, p: nat) returns (more: seq<Step>)
    requires BothReady(s, j0, j1, p) && Crosswise(h, j0, j1, p)
    ensures LegalFrom(h, s, more) && forall j :: 0 <= j < |more| ==> !more[j].Begin?
    ensures Stuck(h, RunFrom(h, s, more))
  {
    hide LegalFrom, RunFrom, LockAt;
    var one := TakeNext(h, s, 0, j0, 0);
    var s' := RunFrom(h, s, one);
    var two := TakeNext(h, s', 1, j1, p);
    JoinFrom(h, s, one, two);
    more := one + two;
    WaitingSticks(h, RunFrom(h, s, more), j0, j1, p);
  }

  lemma WaitingSticks(h: Hash, s: State, j0: Job, j1: Job, p: nat)
    requires |s.txs| == 2 && Crosswise(h, j0, j1, p)
    requires Standing(s, 0, j0, 1) && Standing(s, 1, j1, p + 1)
    requires s.locks == map[LockAt(h, j0, 0) := 0, LockAt(h, j1, p) := 1]
    ensures Stuck(h, s)
  {
    assert IsOpen(s, 0);
    forall step | Enabled(h, s, step) ensures !Advances(step) {
      assert Blocked(h, s, 0) && Blocked(h, s, 1);
    }
  }

  lemma {:induction false} DedupOfDistinct(users: seq<Uuid>)
    requires Distinct(users)
    ensures Dedup(users) == users
  {
    if users == [] {
    } else {
      DedupOfDistinct(users[..|users| - 1]);
      assert users == users[..|users| - 1] + [users[|users| - 1]];
    }
  }

  function BeginOf(job: Job): Step {
    Begin(job.event, job.users, job.active)
  }

  lemma BothBegin(h: Hash, j0: Job, j1: Job) returns (steps: seq<Step>)
    requires Distinct(j0.users) && Distinct(j1.users)
    ensures steps == [BeginOf(j0), BeginOf(j1)]
    ensures Legal(h, steps) && BothReady(Run(h, steps), j0, j1, 0)
  {
    DedupOfDistinct(j0.users);
    DedupOfDistinct(j1.users);
    hide Dedup;
    var a, b := BeginOf(j0), BeginOf(j1);
    RunExtends(h, [], a);
    assert [] + [a] == [a] && [a] + [b] == [a, b];
    RunExtends(h, [a], b);
    steps := [a, b];
  }

  /** The second delivery passes over a first recipient without an active binding. */
  lemma PassOver(h: Hash, s: State, j0: Job, j1: Job) returns (more: seq<Step>)
    requires BothReady(s, j0, j1, 0) && |j1.users| > 0 && !ActiveAt(j1, 0)
    ensures more == [Skip(1)]
    ensures LegalFrom(h, s, more) && BothReady(RunFrom(h, s, more), j0, j1, 1)
  {
    more := [Skip(1)];
    assert more[1..] == [];
  }

  lemma AgreementJoins(a: seq<Step>, b: seq<Step>)
    requires CopiesAgree(a) && forall j :: 0 <= j < |b| ==> !b[j].Begin?
    ensures CopiesAgree(a + b)
  {
    hide Dedup;
    forall i, j | 0 <= i < |a + b| && 0 <= j < |a + b| && (a + b)[i].Begin? && (a + b)[j].Begin? && (a + b)[i].event == (a + b)[j].event
      ensures Dedup((a + b)[i].listed) == Dedup((a + b)[j].listed)
    {
      assert i < |a| && j < |a|;
    }
  }

  /**
   Lists in opposite orders, of two events with one lock hash or of one event, stop two
   deliveries for good. Only for one event is that a disagreement between its copies.
   */
  lemma OppositeOrdersDeadlock(h: Hash, e0: Uuid, e1: Uuid, a: Uuid, b: Uuid) returns (steps: seq<Step>)
    requires h.ofEvent(e0) == h.ofEvent(e1) && h.ofUser(a) != h.ofUser(b)
    ensures Legal(h, steps) && Stuck(h, Run(h, steps))
    ensures e0 != e1 ==> CopiesAgree(steps)
  {
    var active := map[a := 100, b := 101];
    var j0, j1 := Job(e0, [a, b], active), Job(e1, [b, a], active);
    var begun := BothBegin(h, j0, j1);
    assert e0 != e1 ==> CopiesAgree(begun);
    var more := CrosswiseSticks(h, Run(h, begun), j0, j1, 0);
    Continue(h, begun, more);
    if e0 != e1 { AgreementJoins(begun, more); }
    steps := begun + more;
  }

  /** The last recipient is missing from one snapshot and the first from the other. */
  lemma PartialSnapshotsCross(h: Hash, e: Uuid, u: Uuid, v: Uuid, w: Uuid) returns (j0: Job, j1: Job)
    requires u != v && h.ofUser(u) == h.ofUser(v) != h.ofUser(w)
    ensures j0.event == j1.event && j0.users == j1.users && Distinct(j0.users)
    ensures |j1.users| > 0 && !ActiveAt(j1, 0) && Crosswise(h, j0, j1, 1)
  {
    j0 := Job(e, [u, w, v], map[u := 100, w := 101]);
    j1 := Job(e, [u, w, v], map[w := 101, v := 102]);
  }

  /** Two recipients of one lock hash, a third between them, and two copies of one command deadlock. */
  lemma SharedUserHashDeadlocks(h: Hash, e: Uuid, u: Uuid, v: Uuid, w: Uuid) returns (steps: seq<Step>)
    requires u != v && h.ofUser(u) == h.ofUser(v) != h.ofUser(w)
    ensures Legal(h, steps) && CopiesAgree(steps) && Stuck(h, Run(h, steps))
  {
    var j0, j1 := PartialSnapshotsCross(h, e, u, v, w);
    hide Legal, Run, LegalFrom, RunFrom, Stuck, BothReady, Crosswise, ActiveAt, Distinct, Dedup;
    var begun := BothBegin(h, j0, j1);
    var pass := PassOver(h, Run(h, begun), j0, j1);
    Continue(h, begun, pass);
    var more := CrosswiseSticks(h, Run(h, begun + pass), j0, j1, 1);
    Continue(h, begun + pass, more);
    AgreementJoins(begun, pass);
    AgreementJoins(begun + pass, more);
    steps := begun + pass + more;
  }

  ghost predicate Injective(h: Hash) {
    forall a, b :: LockOf(h, a) == LockOf(h, b) ==> a == b
  }

  /** All recipients there are hash alike, so an event has one lock. */
  ghost predicate OneLockPerEvent(h: Hash) {
    forall u, v :: h.ofUser(u) == h.ofUser(v)
  }

  /** Any collision deadlocks some run, unless no two recipients hash differently. */
  lemma CollisionsCanDeadlock(h: Hash) returns (steps: seq<Step>)
    requires !Injective(h) && !OneLockPerEvent(h)
    ensures Legal(h, steps) && CopiesAgree(steps) && Stuck(h, Run(h, steps))
  {
    hide Legal, Run, CopiesAgree, Stuck;
    var k, l :| LockOf(h, k) == LockOf(h, l) && k != l;
    var u, v :| h.ofUser(u) != h.ofUser(v);
    if k.event != l.event {
      steps := OppositeOrdersDeadlock(h, k.event, l.event, u, v);
    } else {
      var w := if h.ofUser(u) == h.ofUser(k.user) then v else u;
      steps := SharedUserHashDeadlocks(h, k.event, k.user, l.user, w);
    }
  }

  /** The open deliveries of the run can all be brought to a commit. */
  ghost predicate CanFinish(h: Hash, steps: seq<Step>)
    requires Legal(h, steps)
  {
    exists more :: Legal(h, steps + more) && (forall i :: 0 <= i < |more| ==> Advances(more[i]))
                   && forall i :: !IsOpen(Run(h, steps + more), i)
  }

  ghost predicate NeverStuck(h: Hash) {
    forall steps :: Legal(h, steps) && CopiesAgree(steps) ==> !Stuck(h, Run(h, steps))
  }

  ghost predicate NeverStuckUnagreed(h: Hash) {
    forall steps :: Legal(h, steps) ==> !Stuck(h, Run(h, steps))
  }

  ghost predicate AlwaysCanFinish(h: Hash) {
    forall steps :: Legal(h, steps) && CopiesAgree(steps) ==> CanFinish(h, steps)
  }

  lemma {:induction false} LegalPrefix(h: Hash, steps: seq<Step>, n: nat)
    requires Legal(h, steps) && n <= |steps|
    ensures Legal(h, steps[..n])
  {
    hide Apply, Enabled;
    if n == |steps| {
      assert steps[..n] == steps;
    } else {
      LegalPrefix(h, steps[..|steps| - 1], n);
      assert steps[..|steps| - 1][..n] == steps[..n];
    }
  }

  lemma NextIsEnabled(h: Hash, steps: seq<Step>, more: seq<Step>)
    requires Legal(h, steps) && Legal(h, steps + more) && more != []
    ensures Enabled(h, Run(h, steps), more[0])
  {
    hide Apply, Enabled;
    var longer := steps + [more[0]];
    LegalPrefix(h, steps + more, |longer|);
    assert (steps + more)[..|longer|] == longer && longer[..|steps|] == steps;
  }

  lemma StuckCannotFinish(h: Hash, steps: seq<Step>)
    requires Legal(h, steps) && Stuck(h, Run(h, steps))
    ensures !CanFinish(h, steps)
  {
    hide Apply, Enabled, Advances;
    forall more | Legal(h, steps + more) && forall i :: 0 <= i < |more| ==> Advances(more[i])
      ensures exists i :: IsOpen(Run(h, steps + more), i)
    {
      if more == [] {
        assert steps + more == steps;
      } else {
        NextIsEnabled(h, steps, more);
      }
    }
  }

  /** Such a lock function keeps every run orderly whose copies agree. */
  lemma SafeHashIsOrderly(h: Hash, steps: seq<Step>)
    requires Injective(h) || OneLockPerEvent(h)
    requires CopiesAgree(steps) || OneLockPerEvent(h)
    ensures Orderly(h, steps)
  {
    hide Wanted, LockOf;
  }

  lemma OrderlyCanFinish(h: Hash, steps: seq<Step>)
    requires Legal(h, steps) && Orderly(h, steps)
    ensures CanFinish(h, steps) && !Stuck(h, Run(h, steps))
  {
    hide Apply, Enabled, Orderly;
    var more := WorkersCanFinish(h, steps);
    if Stuck(h, Run(h, steps)) { StuckCannotFinish(h, steps); }
  }

  /**
   The exact condition: runs whose copies agree on their lists never get stuck, and can
   always be finished, if and only if no two rows share a lock or all recipients hash alike.
   */
  lemma DeadlockFreeExactly(h: Hash)
    ensures NeverStuck(h) <==> Injective(h) || OneLockPerEvent(h)
    ensures AlwaysCanFinish(h) <==> Injective(h) || OneLockPerEvent(h)
  {
    hide Legal, Run, CopiesAgree, Stuck, CanFinish, Injective, OneLockPerEvent;
    if Injective(h) || OneLockPerEvent(h) {
      forall steps | Legal(h, steps) && CopiesAgree(steps) ensures CanFinish(h, steps) && !Stuck(h, Run(h, steps)) {
        SafeHashIsOrderly(h, steps);
        OrderlyCanFinish(h, steps);
      }
    } else {
      var steps := CollisionsCanDeadlock(h);
      StuckCannotFinish(h, steps);
    }
  }

  /** Without that agreement only lock functions that give each event a single lock are safe. */
  lemma AgreementIsNeeded(h: Hash)
    ensures NeverStuckUnagreed(h) <==> OneLockPerEvent(h)
  {
    hide Legal, Run, Stuck;
    if OneLockPerEvent(h) {
      forall steps | Legal(h, steps) ensures !Stuck(h, Run(h, steps)) {
        SafeHashIsOrderly(h, steps);
        OrderlyCanFinish(h, steps);
      }
    } else {
      var u, v :| h.ofUser(u) != h.ofUser(v);
      var steps := OppositeOrdersDeadlock(h, 0, 0, u, v);
    }
  }
}
