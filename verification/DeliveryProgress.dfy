/**
 Progress: as long as no two rows a run may lock share a lock, and copies of an event list
 their recipients in the same order, waiting transactions never form a cycle and the
 workers can always finish. They also can when all recipients hash alike.
 */
module DeliveryProgress {
  import opened DeliveryLedger
  import opened DeliveryLoop
  import opened DeliveryCommand
  import opened DeliveryProtocol
  import opened DeliverySerial
  import opened DeliveryCounting

  /** Copies of one event deduplicate to the same list. */
  ghost predicate CopiesAgree(steps: seq<Step>) {
    forall i, j :: 0 <= i < |steps| && 0 <= j < |steps| && steps[i].Begin? && steps[j].Begin? && steps[i].event == steps[j].event
                   ==> Dedup(steps[i].listed) == Dedup(steps[j].listed)
  }

  /** Some delivery of the run lists the recipient and finds it active, so it may lock this row. */
  ghost predicate Wanted(steps: seq<Step>, k: Key) {
    exists b :: 0 <= b < |steps| && steps[b].Begin? && steps[b].event == k.event
                && k.user in steps[b].listed && k.user in steps[b].active
  }

  /** No two rows the run may lock share a lock. Rows it never locks may collide. */
  ghost predicate NoCollision(h: Hash, steps: seq<Step>) {
    forall a, b :: Wanted(steps, a) && Wanted(steps, b) && LockOf(h, a) == LockOf(h, b) ==> a == b
  }

  /** All recipients of the run hash alike: a delivery then needs one lock only. */
  ghost predicate OneUserHash(h: Hash, steps: seq<Step>) {
    forall a, b :: Wanted(steps, a) && Wanted(steps, b) ==> h.ofUser(a.user) == h.ofUser(b.user)
  }

  /** What keeps the deliveries of a run from waiting for each other in a circle. */
  ghost predicate Orderly(h: Hash, steps: seq<Step>) {
    (NoCollision(h, steps) && CopiesAgree(steps)) || OneUserHash(h, steps)
  }

  ghost predicate SameOrder(s: State) {
    forall i, j :: 0 <= i < |s.txs| && 0 <= j < |s.txs| && s.txs[i].job.event == s.txs[j].job.event
                   ==> s.txs[i].job.users == s.txs[j].job.users
  }

  ghost predicate MayLock(s: State, i: nat, k: Key) {
    i < |s.txs| && Reaches(s.txs[i].job, |s.txs[i].job.users|, k)
  }

  ghost predicate LocksApart(h: Hash, s: State) {
    forall i, j, a, b :: MayLock(s, i, a) && MayLock(s, j, b) && LockOf(h, a) == LockOf(h, b) ==> a == b
  }

  ghost predicate UsersAlike(h: Hash, s: State) {
    forall i, j, a, b :: MayLock(s, i, a) && MayLock(s, j, b) ==> h.ofUser(a.user) == h.ofUser(b.user)
  }

  ghost predicate InOrder(h: Hash, s: State) {
    (LocksApart(h, s) && SameOrder(s)) || UsersAlike(h, s)
  }

  ghost predicate BegunBy(t: Tx, steps: seq<Step>, b: nat) {
    b < |steps| && steps[b].Begin? && t.job == Job(steps[b].event, Dedup(steps[b].listed), steps[b].active)
  }

  /** Transactions keep their jobs, and a new one gets its job from its Begin. */
  lemma StepKeepsJobs(h: Hash, s: State, step: Step)
    requires Enabled(h, s, step)
    ensures
      var txs := Apply(h, s, step).txs;
      && |txs| == |s.txs| + (if step.Begin? then 1 else 0)
      && (forall i :: 0 <= i < |s.txs| ==> txs[i].job == s.txs[i].job)
      && (step.Begin? ==> txs[|s.txs|].job == Job(step.event, Dedup(step.listed), step.active))
  {
  }

  lemma {:induction false} EveryTxBegan(h: Hash, steps: seq<Step>, i: nat) returns (b: nat)
    requires Legal(h, steps) && i < |Run(h, steps).txs|
    ensures BegunBy(Run(h, steps).txs[i], steps, b)
  {
    hide Apply, Enabled;
    var n := |steps| - 1;
    var before := Run(h, steps[..n]);
    assert Run(h, steps) == Apply(h, before, steps[n]);
    StepKeepsJobs(h, before, steps[n]);
    if i < |before.txs| {
      b := EveryTxBegan(h, steps[..n], i);
    } else {
      b := n;
    }
  }

  /** What a transaction may lock, the run's deliveries want. */
  lemma LockableIsWanted(h: Hash, steps: seq<Step>, i: nat, k: Key)
    requires Legal(h, steps) && MayLock(Run(h, steps), i, k)
    ensures Wanted(steps, k)
  {
    var b := EveryTxBegan(h, steps, i);
    DedupKeepsFirstListings(steps[b].listed);
  }

  lemma OrderlyRun(h: Hash, steps: seq<Step>)
    requires Legal(h, steps) && Orderly(h, steps)
    ensures InOrder(h, Run(h, steps))
  {
    hide MayLock, Wanted;
    var s := Run(h, steps);
    forall i, k | MayLock(s, i, k) ensures Wanted(steps, k) {
      LockableIsWanted(h, steps, i, k);
    }
    if CopiesAgree(steps) {
      forall i, j | 0 <= i < |s.txs| && 0 <= j < |s.txs| && s.txs[i].job.event == s.txs[j].job.event
        ensures s.txs[i].job.users == s.txs[j].job.users
      {
        var b := EveryTxBegan(h, steps, i);
        var c := EveryTxBegan(h, steps, j);
      }
    }
  }

  /** The transaction waits for a lock somebody else holds. */
  predicate Blocked(h: Hash, s: State, i: nat) {
    IsOpen(s, i) && s.txs[i].phase.Ready? && Busy(s.txs[i]) &&
    var x := LockOf(h, Current(s.txs[i])); x in s.locks && s.locks[x] != i
  }

  /** Work that leads towards a commit: no abort and no new delivery. */
  predicate Advances(step: Step) {
    !step.Begin? && !step.Abort?
  }

  lemma UnblockedCanStep(h: Hash, s: State, i: nat) returns (step: Step)
    requires Books(h, s) && IsOpen(s, i) && !Blocked(h, s, i)
    ensures Enabled(h, s, step) && Advances(step)
  {
    var t := s.txs[i];
    assert TxOk(h, s, i) && RecordOk(s.committed, t);
    match t.phase
    case Ready =>
      step := if t.pos == |t.job.users| then Commit(i) else if Busy(t) then Acquire(i) else Skip(i);
    case Locked => step := Check(i);
    case Checked => step := Upsert(i, 0);
    case Claimed(_) => step := Send(i, true);
    case Replied(_, _) => step := MarkRow(i, 0);
  }

  /** The lock waited for is held, for a row of the holder's own list, by an open transaction. */
  lemma HolderHasReason(h: Hash, s: State, i: nat) returns (j: nat, k: Key)
    requires Books(h, s) && Blocked(h, s, i)
    ensures MayLock(s, i, Current(s.txs[i])) && MayLock(s, j, k)
    ensures LockOf(h, k) == LockOf(h, Current(s.txs[i])) && j == s.locks[LockOf(h, k)]
    ensures IsOpen(s, j) && Limit(s.txs[j]) <= |s.txs[j].job.users| && Touches(s.txs[j], k)
  {
    hide InStep, RecordsOk, CountsOk, AcksOk, LedgerSettled, SerialOk;
    var x := LockOf(h, Current(s.txs[i]));
    j := s.locks[x];
    assert TxOk(h, s, i) && TxOk(h, s, j);
    k :| LockOf(h, k) == x && Touches(s.txs[j], k);
  }

  /** The holder of the lock waited for stands at the same recipient, past its lock, or further on. */
  lemma HolderIsAhead(h: Hash, s: State, i: nat) returns (j: nat)
    requires Books(h, s) && LocksApart(h, s) && SameOrder(s) && Blocked(h, s, i)
    ensures j == s.locks[LockOf(h, Current(s.txs[i]))]
    ensures IsOpen(s, j) && s.txs[j].job.users == s.txs[i].job.users
    ensures s.txs[i].pos < Limit(s.txs[j]) <= |s.txs[i].job.users|
  {
    var t := s.txs[i];
    assert WellPlaced(t) by {
      hide InStep, RecordsOk, CountsOk, AcksOk, LedgerSettled, SerialOk;
      assert TxOk(h, s, i);
    }
    var k;
    j, k := HolderHasReason(h, s, i);
    hide Books, MayLock;
    assert k == Current(t);
    var u := s.txs[j];
    var p :| 0 <= p < Limit(u) && u.job.users[p] in u.job.active && k == KeyAt(u.job, p);
    assert u.job.users[p] == t.job.users[t.pos];
  }

  /** When recipients hash alike the holder has its only lock, and waits for nobody. */
  lemma HolderIsFree(h: Hash, s: State, i: nat) returns (j: nat)
    requires Books(h, s) && UsersAlike(h, s) && Blocked(h, s, i)
    ensures IsOpen(s, j) && !Blocked(h, s, j)
  {
    hide Books;
    var k;
    j, k := HolderHasReason(h, s, i);
    var u := s.txs[j];
    if Busy(u) {
      assert MayLock(s, j, Current(u));
      assert LockOf(h, Current(u)) == LockOf(h, k);
    }
  }

  /** Follow the wait-for edges: positions grow, so they end at a transaction that can step. */
  lemma {:induction false} SomeoneCanStep(h: Hash, s: State, i: nat) returns (step: Step)
    requires Books(h, s) && InOrder(h, s) && IsOpen(s, i)
    ensures Enabled(h, s, step) && Advances(step)
    decreases if s.txs[i].pos <= |s.txs[i].job.users| then |s.txs[i].job.users| - s.txs[i].pos else 0
  {
    hide Enabled, LocksApart, UsersAlike, SameOrder, InStep, Advances;
    assert TxOk(h, s, i);
    if !Blocked(h, s, i) {
      step := UnblockedCanStep(h, s, i);
    } else if UsersAlike(h, s) {
      var j := HolderIsFree(h, s, i);
      step := UnblockedCanStep(h, s, j);
    } else {
      var j := HolderIsAhead(h, s, i);
      if Blocked(h, s, j) {
        step := SomeoneCanStep(h, s, j);
      } else {
        step := UnblockedCanStep(h, s, j);
      }
    }
  }

  /** No deadlock: while a delivery is open, some delivery can step without an abort. */
  lemma NoDeadlock(h: Hash, steps: seq<Step>, i: nat)
    requires Legal(h, steps) && Orderly(h, steps)
    requires IsOpen(Run(h, steps), i)
    ensures exists step :: Enabled(h, Run(h, steps), step) && Advances(step)
  {
    hide Apply, Enabled, Books, InOrder, Orderly;
    RunKeepsBooks(h, steps);
    OrderlyRun(h, steps);
    var step := SomeoneCanStep(h, Run(h, steps), i);
  }

  /** Statements and calls a transaction has left. */
  function Left(t: Tx): nat {
    if t.outcome != Open then 0
    else
      var done := match t.phase
        case Ready => 0
        case Locked => 1
        case Checked => 2
        case Claimed(_) => 3
        case Replied(_, _) => 4;
      if t.pos < |t.job.users| then 6 + 5 * (|t.job.users| - t.pos) - done else 1
  }

  function Work(txs: seq<Tx>): nat {
    if txs == [] then 0 else Work(txs[..|txs| - 1]) + Left(txs[|txs| - 1])
  }

  lemma {:induction false} WorkUpdate(txs: seq<Tx>, i: nat, t: Tx)
    requires i < |txs|
    ensures Work(txs[i := t]) + Left(txs[i]) == Work(txs) + Left(t)
  {
    var n := |txs| - 1;
    if i == n {
      assert txs[i := t][..n] == txs[..n];
    } else {
      WorkUpdate(txs[..n], i, t);
      assert txs[i := t][..n] == txs[..n][i := t];
    }
  }

  /** Every step but a new delivery uses work up, so no run stalls in place. */
  lemma StepUsesWork(h: Hash, s: State, step: Step)
    requires Enabled(h, s, step) && !step.Begin?
    ensures Work(Apply(h, s, step).txs) < Work(s.txs)
  {
    var i := step.tx;
    var s' := Apply(h, s, step);
    assert s'.txs == s.txs[i := s'.txs[i]];
    assert Left(s'.txs[i]) < Left(s.txs[i]);
    WorkUpdate(s.txs, i, s'.txs[i]);
  }

  lemma RunExtends(h: Hash, steps: seq<Step>, step: Step)
    requires Legal(h, steps) && Enabled(h, Run(h, steps), step)
    ensures Legal(h, steps + [step]) && Run(h, steps + [step]) == Apply(h, Run(h, steps), step)
  {
    hide Apply, Enabled;
    assert (steps + [step])[..|steps|] == steps;
  }

  /** A continuation from a given state, first step first. */
  ghost predicate LegalFrom(h: Hash, s: State, more: seq<Step>)
    decreases |more|
  {
    more == [] || (Enabled(h, s, more[0]) && LegalFrom(h, Apply(h, s, more[0]), more[1..]))
  }

  ghost function RunFrom(h: Hash, s: State, more: seq<Step>): State
    requires LegalFrom(h, s, more)
    decreases |more|
  {
    if more == [] then s else RunFrom(h, Apply(h, s, more[0]), more[1..])
  }

  lemma Regroup(a: seq<Step>, b: seq<Step>)
    requires b != []
    ensures (a + [b[0]]) + b[1..] == a + b
  {
  }

  lemma {:induction false} Continue(h: Hash, steps: seq<Step>, more: seq<Step>)
    requires Legal(h, steps) && LegalFrom(h, Run(h, steps), more)
    ensures Legal(h, steps + more) && Run(h, steps + more) == RunFrom(h, Run(h, steps), more)
    decreases |more|
  {
    hide Apply, Enabled;
    if more == [] {
      assert steps + more == steps;
    } else {
      var longer := steps + [more[0]];
      RunExtends(h, steps, more[0]);
      Continue(h, longer, more[1..]);
      Regroup(steps, more);
    }
  }

  lemma StepKeepsOrder(h: Hash, s: State, step: Step)
    requires Enabled(h, s, step) && !step.Begin? && InOrder(h, s)
    ensures InOrder(h, Apply(h, s, step))
  {
    hide Apply, Enabled, Reaches;
    StepKeepsJobs(h, s, step);
    var s' := Apply(h, s, step);
    forall i, k ensures MayLock(s', i, k) <==> MayLock(s, i, k) {
    }
  }

  lemma {:induction false} FinishFrom(h: Hash, s: State) returns (more: seq<Step>)
    requires Books(h, s) && InOrder(h, s)
    ensures LegalFrom(h, s, more) && |more| <= Work(s.txs)
    ensures forall i :: 0 <= i < |more| ==> Advances(more[i])
    ensures forall i :: !IsOpen(RunFrom(h, s, more), i)
    decreases Work(s.txs)
  {
    hide Apply, Enabled, Books, InOrder, Work;
    more := [];
    if i :| IsOpen(s, i) {
      var step := SomeoneCanStep(h, s, i);
      StepKeepsBooks(h, s, step);
      StepKeepsOrder(h, s, step);
      StepUsesWork(h, s, step);
      var rest := FinishFrom(h, Apply(h, s, step));
      more := [step] + rest;
      assert more[1..] == rest;
    }
  }

  /**
   From every reachable state the workers can finish: some continuation, without an abort
   and no longer than the work left, ends every open delivery with a commit.
   */
  lemma WorkersCanFinish(h: Hash, steps: seq<Step>) returns (more: seq<Step>)
    requires Legal(h, steps) && Orderly(h, steps)
    ensures Legal(h, steps + more) && |more| <= Work(Run(h, steps).txs)
    ensures forall i :: 0 <= i < |more| ==> Advances(more[i])
    ensures forall i :: !IsOpen(Run(h, steps + more), i)
  {
    hide Apply, Enabled, Books, InOrder, Orderly, Work;
    RunKeepsBooks(h, steps);
    OrderlyRun(h, steps);
    more := FinishFrom(h, Run(h, steps));
    Continue(h, steps, more);
  }
}
