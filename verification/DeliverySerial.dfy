/**
 Locking and serializability: whatever the interleaving, the committed ledger is the one
 the committed deliveries would have produced one at a time, in commit order, and each of
 them made the same sends and raised the same retry flag as in that serial run.
 */
module DeliverySerial {
  import opened DeliveryLedger
  import opened DeliveryLoop
  import opened DeliveryCommand
  import opened DeliveryProtocol

  /** How many recipients the transaction has locked its way through. */
  function Limit(t: Tx): nat {
    if t.phase.Ready? then t.pos else t.pos + 1
  }

  ghost predicate Touches(t: Tx, k: Key)
    requires Limit(t) <= |t.job.users|
  {
    Reaches(t.job, Limit(t), k)
  }

  /** The loop's variables as a serial run would hold them. */
  function Seen(committed: Ledger, t: Tx): Progress {
    Progress(View(committed, t), t.failed, t.calls)
  }

  ghost predicate WellPlaced(t: Tx) {
    && t.pos <= |t.job.users|
    && |t.replies| == t.pos
    && (t.phase.Ready? || Busy(t))
    && Distinct(t.job.users)
  }

  /** Started now and run alone, the loop would be exactly where the transaction is. */
  ghost predicate InStep(committed: Ledger, t: Tx)
    requires WellPlaced(t)
  {
    var p := DeliverTo(committed, t.job, t.replies, t.pos);
    match t.phase
    case Ready => Seen(committed, t) == p
    case Locked => Seen(committed, t) == p
    case Checked => Seen(committed, t) == p && !IsSent(p.ledger, Current(t))
    case Claimed(at) =>
      && !IsSent(p.ledger, Current(t))
      && Seen(committed, t) == p.(ledger := Claim(p.ledger, Current(t), Peer(t), at))
    case Replied(at, _) =>
      && !IsSent(p.ledger, Current(t))
      && Seen(committed, t) == p.(ledger := Claim(p.ledger, Current(t), Peer(t), at), calls := p.calls + [Peer(t)])
  }

  ghost predicate HoldsLocks(h: Hash, s: State, i: nat)
    requires i < |s.txs| && WellPlaced(s.txs[i])
  {
    && (forall k :: Touches(s.txs[i], k) ==> LockOf(h, k) in s.locks && s.locks[LockOf(h, k)] == i)
    && (forall k :: k in s.txs[i].writes ==> Touches(s.txs[i], k))
  }

  ghost predicate TxOk(h: Hash, s: State, i: nat)
    requires i < |s.txs|
  {
    WellPlaced(s.txs[i]) && HoldsLocks(h, s, i) && InStep(s.committed, s.txs[i])
  }

  /** Every lock in the table is held by an open transaction that needs it. */
  ghost predicate LocksOk(h: Hash, s: State) {
    forall x :: x in s.locks ==>
                  && IsOpen(s, s.locks[x])
                  && WellPlaced(s.txs[s.locks[x]])
                  && exists k :: LockOf(h, k) == x && Touches(s.txs[s.locks[x]], k)
  }

  /** Committed deliveries one at a time, in commit order. */
  ghost function Replay(log: seq<Tx>): Ledger
    requires forall i :: 0 <= i < |log| ==> |log[i].replies| == |log[i].job.users|
  {
    if log == [] then map[]
    else
      var n := |log| - 1;
      Deliver(Replay(log[..n]), log[n].job, log[n].replies).ledger
  }

  /** In the serial run each delivery makes the sends, and raises the flag, it did for real. */
  ghost predicate SerialLog(log: seq<Tx>) {
    && (forall i :: 0 <= i < |log| ==> |log[i].replies| == |log[i].job.users|)
    && (forall i :: 0 <= i < |log| ==>
                      var p := Deliver(Replay(log[..i]), log[i].job, log[i].replies);
                      log[i].failed == p.failed && log[i].calls == p.calls)
  }

  ghost predicate SerialOk(s: State) {
    SerialLog(s.log) && s.committed == Replay(s.log)
  }

  ghost predicate Inv(h: Hash, s: State) {
    && (forall i :: 0 <= i < |s.txs| && s.txs[i].outcome == Open ==> TxOk(h, s, i))
    && LocksOk(h, s)
    && SerialOk(s)
  }

  /** Two open transactions never touch the same row. */
  lemma TouchedByOne(h: Hash, s: State, i: nat, j: nat, k: Key)
    requires i < |s.txs| && j < |s.txs| && TxOk(h, s, i) && TxOk(h, s, j)
    requires i != j
    ensures !(Touches(s.txs[i], k) && Touches(s.txs[j], k))
  {
  }

  /** A step of another transaction that commits nothing leaves this one as it was. */
  lemma OtherUnmoved(h: Hash, s: State, s': State, j: nat)
    requires j < |s.txs| && j < |s'.txs| && TxOk(h, s, j)
    requires s'.committed == s.committed && s'.txs[j] == s.txs[j]
    requires forall x :: x in s.locks && s.locks[x] == j ==> x in s'.locks && s'.locks[x] == j
    ensures TxOk(h, s', j)
  {
    var t := s.txs[j];
    assert HoldsLocks(h, s', j) by {
      forall k | Touches(t, k) ensures LockOf(h, k) in s'.locks && s'.locks[LockOf(h, k)] == j {
        assert LockOf(h, k) in s.locks && s.locks[LockOf(h, k)] == j;
      }
    }
  }

  lemma ClaimFrame(l: Ledger, w: Ledger, k: Key, peer: int, at: int)
    requires k !in w
    ensures Claim(l + w, k, peer, at) == Claim(l, k, peer, at) + w
  {
    assert Lookup(l + w, k) == Lookup(l, k);
  }

  lemma OverlayCommutes(l: Ledger, w: Ledger, mine: Ledger)
    requires forall k :: k in w ==> k !in mine
    ensures (l + w) + mine == (l + mine) + w
  {
  }

  /** Rows the transaction has not touched may appear in the committed ledger. */
  lemma InStepFrame(c: Ledger, w: Ledger, t: Tx)
    requires WellPlaced(t) && InStep(c, t)
    requires forall k :: k in w ==> !Touches(t, k) && k !in t.writes
    ensures InStep(c + w, t)
  {
    forall k | k in w ensures !Reaches(t.job, t.pos, k) {
      if t.pos < |t.job.users| { ReachesGrows(t.job, t.pos, k); }
    }
    var p := DeliverTo(c, t.job, t.replies, t.pos);
    var p' := DeliverTo(c + w, t.job, t.replies, t.pos);
    assert p' == p.(ledger := p.ledger + w) by { DeliverToFrame(c, w, t.job, t.replies, t.pos); }
    OverlayCommutes(c, w, t.writes);
    if !t.phase.Ready? {
      var k := Current(t);
      assert k !in w by {
        ReachesGrows(t.job, t.pos, k);
        assert Touches(t, k);
      }
      assert IsSent(p'.ledger, k) <==> IsSent(p.ledger, k);
      if t.phase.Claimed? || t.phase.Replied? {
        ClaimFrame(p.ledger, w, k, Peer(t), t.phase.at);
      }
    }
  }

  /** Another transaction's commit only adds rows this one has not touched. */
  lemma OtherSurvivesCommit(h: Hash, s: State, i: nat, j: nat)
    requires Inv(h, s) && Enabled(h, s, Commit(i)) && IsOpen(s, j) && i != j
    ensures TxOk(h, Apply(h, s, Commit(i)), j)
  {
    var s' := Apply(h, s, Commit(i));
    var t, w := s.txs[j], s.txs[i].writes;
    assert TxOk(h, s, i) && TxOk(h, s, j);
    forall k | k in w ensures !Touches(t, k) && k !in t.writes {
      TouchedByOne(h, s, i, j, k);
    }
    InStepFrame(s.committed, w, t);
    assert HoldsLocks(h, s', j) by {
      forall k | Touches(t, k) ensures LockOf(h, k) in s'.locks && s'.locks[LockOf(h, k)] == j {
        assert LockOf(h, k) in s.locks && s.locks[LockOf(h, k)] == j;
      }
    }
  }

  /** One more reply: the serial run makes one more iteration. */
  lemma OneMore(l: Ledger, job: Job, replies: seq<Reply>, r: Reply, n: nat)
    requires n < |job.users| && |replies| == n
    ensures DeliverTo(l, job, replies + [r], n + 1) == DeliverOne(DeliverTo(l, job, replies, n), job, n, r)
    ensures DeliverTo(l, job, replies + [r], n) == DeliverTo(l, job, replies, n)
  {
    DeliverToExtends(l, job, replies, [r], n);
    assert (replies + [r])[n] == r;
  }

  /** The steps a transaction takes on its own account, short of ending. */
  predicate Moves(step: Step, i: nat) {
    match step
    case Skip(j) => i == j
    case Acquire(j) => i == j
    case Check(j) => i == j
    case Upsert(j, _) => i == j
    case Send(j, _) => i == j
    case MarkRow(j, _) => i == j
    case _ => false
  }

  lemma AdvanceInStep(c: Ledger, t: Tx)
    requires WellPlaced(t) && InStep(c, t) && t.pos < |t.job.users|
    requires t.phase.Ready? || t.phase.Locked?
    requires !Busy(t) || IsSent(View(c, t), Current(t))
    ensures WellPlaced(Advance(t, NO_REPLY)) && InStep(c, Advance(t, NO_REPLY))
  {
    OneMore(c, t.job, t.replies, NO_REPLY, t.pos);
  }

  lemma UpsertInStep(c: Ledger, t: Tx, now: int)
    requires WellPlaced(t) && InStep(c, t) && t.phase.Checked?
    ensures WellPlaced(AfterUpsert(c, t, now)) && InStep(c, AfterUpsert(c, t, now))
  {
    var k, t' := Current(t), AfterUpsert(c, t, now);
    assert View(c, t') == View(c, t)[k := t'.writes[k]];
  }

  /** What a mark does to the transaction, in terms of the rows it reads. */
  lemma MarkView(c: Ledger, t: Tx, now: int)
    requires Busy(t) && t.phase.Replied? && Current(t) in View(c, t)
    ensures
      var t', ok := AfterMark(c, t, now), t.phase.delivered;
      && View(c, t') == Mark(View(c, t), Current(t), ok, now)
      && t' == t.(writes := t'.writes, failed := t.failed || !ok, pos := t.pos + 1, phase := Ready,
                  replies := t.replies + [Reply(t.phase.at, ok, now)])
  {
    hide SentRow, FailedRow;
    var k, t' := Current(t), AfterMark(c, t, now);
    assert View(c, t') == View(c, t)[k := t'.writes[k]];
  }

  lemma MarkInStep(c: Ledger, t: Tx, now: int)
    requires WellPlaced(t) && InStep(c, t) && t.phase.Replied? && Current(t) in View(c, t)
    ensures WellPlaced(AfterMark(c, t, now)) && InStep(c, AfterMark(c, t, now))
  {
    hide AfterMark, View, Mark, Claim;
    OneMore(c, t.job, t.replies, Reply(t.phase.at, t.phase.delivered, now), t.pos);
    MarkView(c, t, now);
  }

  lemma MoveKeepsInStep(h: Hash, s: State, step: Step, i: nat)
    requires Moves(step, i) && Enabled(h, s, step) && WellPlaced(s.txs[i]) && InStep(s.committed, s.txs[i])
    ensures
      var s' := Apply(h, s, step);
      s'.committed == s.committed && WellPlaced(s'.txs[i]) && InStep(s.committed, s'.txs[i])
  {
    hide AfterUpsert, AfterMark;
    var c, t := s.committed, s.txs[i];
    match step
    case Skip(_) => AdvanceInStep(c, t);
    case Acquire(_) =>
    case Check(_) => if IsSent(View(c, t), Current(t)) { AdvanceInStep(c, t); }
    case Upsert(_, now) => UpsertInStep(c, t, now);
    case Send(_, _) =>
    case MarkRow(_, now) => MarkInStep(c, t, now);
  }

  /** A move reaches at most one key more, and then holds its lock; it writes no other row. */
  lemma MoveFacts(h: Hash, s: State, step: Step, i: nat)
    requires Moves(step, i) && Enabled(h, s, step) && WellPlaced(s.txs[i])
    ensures
      var s' := Apply(h, s, step);
      var t, t' := s.txs[i], s'.txs[i];
      && s'.txs == s.txs[i := t'] && t'.job == t.job && t'.outcome == Open
      && WellPlaced(t')
      && (Limit(t') == Limit(t) || (Limit(t') == t.pos + 1 == Limit(t) + 1 && (Busy(t) ==> step.Acquire?)))
      && (if step.Acquire? then s'.locks == s.locks[LockOf(h, Current(t)) := i] else s'.locks == s.locks)
      && (forall k :: k in t'.writes ==> k in t.writes || (!t.phase.Ready? && k == Current(t)))
  {
  }

  lemma MoveKeepsLocks(h: Hash, s: State, step: Step, i: nat)
    requires Moves(step, i) && Enabled(h, s, step) && TxOk(h, s, i)
    ensures
      var s' := Apply(h, s, step);
      WellPlaced(s'.txs[i]) && HoldsLocks(h, s', i)
      && forall k :: Touches(s.txs[i], k) ==> Touches(s'.txs[i], k)
  {
    MoveFacts(h, s, step, i);
    var s' := Apply(h, s, step);
    var t, t' := s.txs[i], s'.txs[i];
    forall k
      ensures Touches(t, k) ==> Touches(t', k)
      ensures Touches(t', k) ==> LockOf(h, k) in s'.locks && s'.locks[LockOf(h, k)] == i
    {
      if Limit(t') > Limit(t) { ReachesGrows(t.job, t.pos, k); }
      if Touches(t, k) { assert LockOf(h, k) in s.locks && s.locks[LockOf(h, k)] == i; }
    }
    if !t.phase.Ready? {
      ReachesGrows(t.job, t.pos, Current(t));
      assert Touches(t, Current(t));
    }
  }

  lemma MoveKeepsTable(h: Hash, s: State, step: Step, i: nat)
    requires Moves(step, i) && Enabled(h, s, step) && TxOk(h, s, i) && LocksOk(h, s)
    ensures LocksOk(h, Apply(h, s, step))
  {
    hide InStep;
    MoveFacts(h, s, step, i);
    MoveKeepsLocks(h, s, step, i);
    var s' := Apply(h, s, step);
    forall x | x in s'.locks
      ensures IsOpen(s', s'.locks[x]) && WellPlaced(s'.txs[s'.locks[x]])
      ensures exists k :: LockOf(h, k) == x && Touches(s'.txs[s'.locks[x]], k)
    {
      if step.Acquire? && x == LockOf(h, Current(s.txs[i])) {
        ReachesGrows(s.txs[i].job, s.txs[i].pos, Current(s.txs[i]));
        assert Touches(s'.txs[i], Current(s.txs[i]));
      } else {
        var k :| LockOf(h, k) == x && Touches(s.txs[s.locks[x]], k);
        assert Touches(s'.txs[s'.locks[x]], k);
      }
    }
  }

  lemma MoveKeepsInv(h: Hash, s: State, step: Step, i: nat)
    requires Moves(step, i) && Enabled(h, s, step) && Inv(h, s)
    ensures Inv(h, Apply(h, s, step))
  {
    var s' := Apply(h, s, step);
    MoveFacts(h, s, step, i);
    MoveKeepsInStep(h, s, step, i);
    MoveKeepsLocks(h, s, step, i);
    MoveKeepsTable(h, s, step, i);
    forall j | 0 <= j < |s'.txs| && s'.txs[j].outcome == Open ensures TxOk(h, s', j) {
      if j != i { OtherUnmoved(h, s, s', j); }
    }
  }

  /** A new transaction has read and written nothing. */
  lemma NewTxOk(h: Hash, s: State, i: nat)
    requires i < |s.txs| && Distinct(s.txs[i].job.users)
    requires s.txs[i] == Tx(s.txs[i].job, Open, 0, Ready, map[], false, [], [], {}, {})
    ensures TxOk(h, s, i)
  {
    assert s.committed + map[] == s.committed;
  }

  lemma BeginKeepsLocks(h: Hash, s: State, step: Step)
    requires step.Begin? && LocksOk(h, s)
    ensures LocksOk(h, Apply(h, s, step))
  {
    var s' := Apply(h, s, step);
    forall x | x in s'.locks
      ensures exists k :: LockOf(h, k) == x && Touches(s'.txs[s'.locks[x]], k)
    {
      var k :| LockOf(h, k) == x && Touches(s.txs[s.locks[x]], k);
      assert Touches(s'.txs[s'.locks[x]], k);
    }
  }

  lemma BeginKeepsInv(h: Hash, s: State, step: Step)
    requires step.Begin? && Inv(h, s)
    ensures Inv(h, Apply(h, s, step))
  {
    hide Dedup, TxOk, LocksOk, SerialOk;
    var s' := Apply(h, s, step);
    DedupKeepsFirstListings(step.listed);
    NewTxOk(h, s', |s.txs|);
    BeginKeepsLocks(h, s, step);
    forall j | 0 <= j < |s'.txs| && s'.txs[j].outcome == Open ensures TxOk(h, s', j) {
      if j < |s.txs| { OtherUnmoved(h, s, s', j); }
    }
    assert SerialOk(s') by { SerialReads(s, s'); }
  }

  lemma SerialReads(s: State, s': State)
    requires SerialOk(s) && s'.log == s.log && s'.committed == s.committed
    ensures SerialOk(s')
  {
  }

  /** Ending a transaction frees its locks and nobody else's. */
  lemma EndKeepsLocks(h: Hash, s: State, step: Step, i: nat)
    requires Inv(h, s) && Enabled(h, s, step) && (step == Commit(i) || step == Abort(i))
    ensures LocksOk(h, Apply(h, s, step))
  {
    var s' := Apply(h, s, step);
    forall x | x in s'.locks
      ensures IsOpen(s', s'.locks[x]) && WellPlaced(s'.txs[s'.locks[x]])
      ensures exists k :: LockOf(h, k) == x && Touches(s'.txs[s'.locks[x]], k)
    {
      var k :| LockOf(h, k) == x && Touches(s.txs[s.locks[x]], k);
      assert Touches(s'.txs[s'.locks[x]], k);
    }
  }

  lemma {:induction false} ReplayPrefix(log: seq<Tx>, t: Tx)
    requires forall i :: 0 <= i < |log| ==> |log[i].replies| == |log[i].job.users|
    requires |t.replies| == |t.job.users|
    ensures Replay(log + [t]) == Deliver(Replay(log), t.job, t.replies).ledger
  {
    assert (log + [t])[..|log|] == log;
  }

  lemma CommitKeepsSerial(h: Hash, s: State, i: nat)
    requires Inv(h, s) && Enabled(h, s, Commit(i))
    ensures SerialOk(Apply(h, s, Commit(i)))
  {
    var s' := Apply(h, s, Commit(i));
    var t := s'.txs[i];
    assert TxOk(h, s, i);
    assert s'.log == s.log + [t];
    ReplayPrefix(s.log, t);
    forall j | 0 <= j < |s'.log| ensures s'.log[..j] == if j < |s.log| then s.log[..j] else s.log {
    }
  }

  lemma EndKeepsInv(h: Hash, s: State, step: Step, i: nat)
    requires Inv(h, s) && Enabled(h, s, step) && (step == Commit(i) || step == Abort(i))
    ensures Inv(h, Apply(h, s, step))
  {
    var s' := Apply(h, s, step);
    EndKeepsLocks(h, s, step, i);
    forall j | 0 <= j < |s'.txs| && s'.txs[j].outcome == Open ensures TxOk(h, s', j) {
      if step.Commit? {
        OtherSurvivesCommit(h, s, i, j);
      } else {
        OtherUnmoved(h, s, s', j);
      }
    }
    if step.Commit? { CommitKeepsSerial(h, s, i); }
  }

  lemma StepKeepsInv(h: Hash, s: State, step: Step)
    requires Inv(h, s) && Enabled(h, s, step)
    ensures Inv(h, Apply(h, s, step))
  {
    hide Apply, Inv, Enabled;
    match step
    case Begin(_, _, _) => BeginKeepsInv(h, s, step);
    case Commit(i) => EndKeepsInv(h, s, step, i);
    case Abort(i) => EndKeepsInv(h, s, step, i);
    case _ => MoveKeepsInv(h, s, step, step.tx);
  }

  lemma {:induction false} RunKeepsInv(h: Hash, steps: seq<Step>)
    requires Legal(h, steps)
    ensures Inv(h, Run(h, steps))
  {
    hide Apply, Enabled;
    if steps == [] {
    } else {
      RunKeepsInv(h, steps[..|steps| - 1]);
      StepKeepsInv(h, Run(h, steps[..|steps| - 1]), steps[|steps| - 1]);
    }
  }

  /**
   Serializability, for every interleaving and every lock hash: the committed ledger is
   the serial run of the committed deliveries in commit order, and each delivery sent to
   the peers, and reported the retry flag, of that serial run.
   */
  lemma Serializable(h: Hash, steps: seq<Step>)
    requires Legal(h, steps)
    ensures
      var s := Run(h, steps);
      SerialLog(s.log) && s.committed == Replay(s.log)
  {
    hide Apply, Enabled;
    RunKeepsInv(h, steps);
  }
}
