/**
 Exact bookkeeping over every interleaved run: how many successful sends a recipient got,
 what the committed rows record, and what an acknowledgement means.
 */
module DeliveryCounting {
  import opened DeliveryLedger
  import opened DeliveryLoop
  import opened DeliveryProtocol
  import opened DeliverySerial

  /** Which transactions to count for a key: those that sent to it, or those that claimed it. */
  datatype Measure = Senders(outcome: Outcome) | Claimers(outcome: Outcome)

  predicate Hit(t: Tx, k: Key, m: Measure) {
    t.outcome == m.outcome && k in (if m.Senders? then t.sent else t.claimed)
  }

  function Tally(txs: seq<Tx>, k: Key, m: Measure): nat {
    if txs == [] then 0
    else
      var n := |txs| - 1;
      Tally(txs[..n], k, m) + if Hit(txs[n], k, m) then 1 else 0
  }

  lemma {:induction false} TallyUpdate(txs: seq<Tx>, i: nat, t: Tx, k: Key, m: Measure)
    requires i < |txs|
    ensures Tally(txs[i := t], k, m) + (if Hit(txs[i], k, m) then 1 else 0)
         == Tally(txs, k, m) + (if Hit(t, k, m) then 1 else 0)
  {
    var n := |txs| - 1;
    if i == n {
      assert txs[i := t][..n] == txs[..n];
    } else {
      TallyUpdate(txs[..n], i, t, k, m);
      assert txs[i := t][..n] == txs[..n][i := t];
    }
  }

  lemma TallyAppend(txs: seq<Tx>, t: Tx, k: Key, m: Measure)
    ensures Tally(txs + [t], k, m) == Tally(txs, k, m) + if Hit(t, k, m) then 1 else 0
  {
    assert (txs + [t])[..|txs|] == txs;
  }

  lemma {:induction false} TallyZero(txs: seq<Tx>, k: Key, m: Measure)
    requires forall i :: 0 <= i < |txs| ==> !Hit(txs[i], k, m)
    ensures Tally(txs, k, m) == 0
  {
    if txs == [] {
    } else {
      TallyZero(txs[..|txs| - 1], k, m);
    }
  }

  lemma {:induction false} TallyAtMostOne(txs: seq<Tx>, k: Key, m: Measure)
    requires forall i, j :: 0 <= i < j < |txs| ==> !(Hit(txs[i], k, m) && Hit(txs[j], k, m))
    ensures Tally(txs, k, m) <= 1
  {
    if txs == [] {
    } else {
      var n := |txs| - 1;
      if Hit(txs[n], k, m) {
        TallyZero(txs[..n], k, m);
      } else {
        TallyAtMostOne(txs[..n], k, m);
      }
    }
  }

  /** The row of the current recipient between claim and mark. */
  ghost predicate Pending(r: Row) {
    r.status == PENDING && r.sentAt.None? && r.lastError.None? && r.attempts >= 1
  }

  /** The claim of the current recipient has been written and not yet marked. */
  predicate InHand(t: Tx) {
    Busy(t) && (t.phase.Claimed? || t.phase.Replied?)
  }

  predicate JustSent(t: Tx, k: Key) {
    Busy(t) && t.phase.Replied? && t.phase.delivered && k == Current(t)
  }

  function AttemptsIn(l: Ledger, k: Key): nat {
    if k in l then l[k].attempts else 0
  }

  /** What an open transaction's record says about its writes. */
  ghost predicate RecordOk(committed: Ledger, t: Tx) {
    && t.pos <= |t.job.users|
    && t.claimed == t.writes.Keys
    && (forall k :: k in t.sent <==> IsSent(t.writes, k) || JustSent(t, k))
    && (InHand(t) ==> Current(t) in t.writes)
    && (forall k :: k in t.writes ==> Reaches(t.job, t.pos, k) || (InHand(t) && k == Current(t)))
    && (forall k :: k in t.writes ==> !IsSent(committed, k))
    && (forall k :: k in t.writes ==> t.writes[k].attempts == AttemptsIn(committed, k) + 1)
    && (forall k :: k in t.writes ==> if InHand(t) && k == Current(t) then Pending(t.writes[k]) else Settled(t.writes[k]))
  }

  ghost predicate RecordsOk(s: State) {
    forall i :: 0 <= i < |s.txs| && s.txs[i].outcome == Open ==> RecordOk(s.committed, s.txs[i])
  }

  ghost predicate CountsOk(s: State) {
    forall k ::
      && s.successes[k] == Tally(s.txs, k, Senders(Open)) + Tally(s.txs, k, Senders(Aborted)) + Tally(s.txs, k, Senders(Committed))
      && Tally(s.txs, k, Senders(Committed)) == (if IsSent(s.committed, k) then 1 else 0)
      && AttemptsIn(s.committed, k) == Tally(s.txs, k, Claimers(Committed))
  }

  /** Deliveries that raised no retry flag are acknowledged. */
  ghost predicate AcksOk(s: State) {
    forall n, i :: 0 <= n < |s.log| && !s.log[n].failed && 0 <= i < |s.log[n].job.users|
                   && s.log[n].job.users[i] in s.log[n].job.active
                   ==> IsSent(s.committed, KeyAt(s.log[n].job, i))
  }

  ghost predicate Books(h: Hash, s: State) {
    Inv(h, s) && RecordsOk(s) && CountsOk(s) && LedgerSettled(s.committed) && AcksOk(s)
  }

  lemma CurrentIsFresh(t: Tx)
    requires WellPlaced(t) && Busy(t)
    ensures !Reaches(t.job, t.pos, Current(t))
  {
  }

  lemma CheckedIsUnsent(c: Ledger, t: Tx)
    requires WellPlaced(t) && InStep(c, t) && t.phase.Checked?
    ensures !IsSent(View(c, t), Current(t))
  {
  }

  /** Taking a fresh row in hand. */
  lemma ClaimKeepsRecord(c: Ledger, t: Tx, t': Tx, k: Key, row: Row)
    requires RecordOk(c, t) && !InHand(t) && InHand(t') && k == Current(t') && k !in t.writes && !JustSent(t', k)
    requires t'.job == t.job && t'.pos == t.pos && t'.sent == t.sent && t'.claimed == t.claimed + {k}
    requires t'.writes == t.writes[k := row]
    requires Pending(row) && row.attempts == AttemptsIn(c, k) + 1 && !IsSent(c, k)
    ensures RecordOk(c, t')
  {
    hide Settled, Reaches;
    forall x ensures x in t'.sent <==> IsSent(t'.writes, x) {
      assert x in t.sent <==> IsSent(t.writes, x) || JustSent(t, x);
    }
    assert t'.claimed == t'.writes.Keys;
  }

  lemma UpsertShape(c: Ledger, t: Tx, now: int)
    requires WellPlaced(t) && t.phase.Checked? && RecordOk(c, t) && LedgerSettled(c) && !IsSent(View(c, t), Current(t))
    ensures
      var k, t' := Current(t), AfterUpsert(c, t, now);
      && k !in t.writes && k in t'.writes && t'.writes == t.writes[k := t'.writes[k]]
      && Pending(t'.writes[k]) && t'.writes[k].attempts == AttemptsIn(c, k) + 1 && !IsSent(c, k)
      && t'.phase == Claimed(now) && t'.pos == t.pos && t'.job == t.job && t'.sent == t.sent && t'.claimed == t.claimed + {k}
  {
    var k := Current(t);
    CurrentIsFresh(t);
    assert k !in t.writes;
    assert Lookup(View(c, t), k) == Lookup(c, k);
  }

  lemma UpsertKeepsRecord(c: Ledger, t: Tx, now: int)
    requires WellPlaced(t) && InStep(c, t) && t.phase.Checked? && RecordOk(c, t) && LedgerSettled(c)
    ensures RecordOk(c, AfterUpsert(c, t, now))
  {
    hide AfterUpsert, RecordOk, InStep, Settled;
    CheckedIsUnsent(c, t);
    UpsertShape(c, t, now);
    var t' := AfterUpsert(c, t, now);
    ClaimKeepsRecord(c, t, t', Current(t), t'.writes[Current(t)]);
  }

  lemma SendKeepsRecord(c: Ledger, t: Tx, delivered: bool)
    requires Busy(t) && t.phase.Claimed? && RecordOk(c, t)
    ensures RecordOk(c, AfterSend(t, delivered))
  {
    var t' := AfterSend(t, delivered);
    assert t'.writes == t.writes && Current(t') == Current(t);
  }

  /** The mark settles the claimed row and touches no other. */
  lemma MarkShape(c: Ledger, t: Tx, now: int)
    requires Busy(t) && t.phase.Replied? && RecordOk(c, t) && Current(t) in View(c, t)
    ensures
      var k, t' := Current(t), AfterMark(c, t, now);
      && k in t.writes && k in t'.writes && t'.writes == t.writes[k := t'.writes[k]]
      && Settled(t'.writes[k]) && t'.writes[k].attempts == t.writes[k].attempts
      && (t'.writes[k].status == SENT <==> t.phase.delivered)
      && t'.phase.Ready? && t'.pos == t.pos + 1 && t'.job == t.job && t'.sent == t.sent && t'.claimed == t.claimed
  {
    assert View(c, t)[Current(t)] == t.writes[Current(t)];
  }

  /** Settling the row in hand and moving on. */
  lemma SettleKeepsRecord(c: Ledger, t: Tx, t': Tx, k: Key, row: Row)
    requires RecordOk(c, t) && InHand(t) && k == Current(t) && !InHand(t')
    requires t'.job == t.job && t'.pos == t.pos + 1 && t'.sent == t.sent && t'.claimed == t.claimed
    requires t'.writes == t.writes[k := row]
    requires Settled(row) && row.attempts == t.writes[k].attempts && (row.status == SENT <==> JustSent(t, k))
    ensures RecordOk(c, t')
  {
    hide Settled, Reaches;
    forall x | x in t'.writes ensures Reaches(t'.job, t'.pos, x) {
      ReachesGrows(t.job, t.pos, x);
    }
    forall x ensures x in t'.sent <==> IsSent(t'.writes, x) {
      assert x in t.sent <==> IsSent(t.writes, x) || JustSent(t, x);
      assert t.writes[k].status == PENDING;
    }
    assert t'.claimed == t'.writes.Keys;
  }

  lemma MarkKeepsRecord(c: Ledger, t: Tx, now: int)
    requires WellPlaced(t) && Busy(t) && t.phase.Replied? && RecordOk(c, t) && Current(t) in View(c, t)
    ensures RecordOk(c, AfterMark(c, t, now))
  {
    hide AfterMark, View, Settled, RecordOk;
    MarkShape(c, t, now);
    var t' := AfterMark(c, t, now);
    SettleKeepsRecord(c, t, t', Current(t), t'.writes[Current(t)]);
  }

  lemma QuietKeepsRecord(c: Ledger, t: Tx, t': Tx)
    requires RecordOk(c, t) && !InHand(t) && !InHand(t')
    requires t'.job == t.job && t.pos <= t'.pos <= t.pos + 1 && t'.pos <= |t.job.users|
    requires t'.writes == t.writes && t'.claimed == t.claimed && t'.sent == t.sent
    ensures RecordOk(c, t')
  {
    forall k | k in t'.writes ensures Reaches(t'.job, t'.pos, k) {
      if t'.pos > t.pos { ReachesGrows(t.job, t.pos, k); }
    }
  }

  lemma MoveKeepsRecord(h: Hash, s: State, step: Step, i: nat)
    requires Moves(step, i) && Enabled(h, s, step) && WellPlaced(s.txs[i]) && InStep(s.committed, s.txs[i])
    requires RecordOk(s.committed, s.txs[i]) && LedgerSettled(s.committed)
    ensures
      var s' := Apply(h, s, step);
      s'.committed == s.committed && RecordOk(s.committed, s'.txs[i])
  {
    hide InStep, RecordOk, AfterUpsert, AfterMark, AfterSend;
    var c, t, t' := s.committed, s.txs[i], Apply(h, s, step).txs[i];
    match step
    case Skip(_) => QuietKeepsRecord(c, t, t');
    case Acquire(_) => QuietKeepsRecord(c, t, t');
    case Check(_) => QuietKeepsRecord(c, t, t');
    case Upsert(_, now) => UpsertKeepsRecord(c, t, now);
    case Send(_, delivered) => SendKeepsRecord(c, t, delivered);
    case MarkRow(_, now) => MarkKeepsRecord(c, t, now);
  }

  /** A move either sends to the current recipient for the first time or sends to nobody. */
  lemma MoveSends(h: Hash, s: State, step: Step, i: nat)
    requires Moves(step, i) && Enabled(h, s, step) && RecordOk(s.committed, s.txs[i])
    ensures
      var s' := Apply(h, s, step);
      var t, t' := s.txs[i], s'.txs[i];
      && s'.txs == s.txs[i := t'] && t.outcome == t'.outcome == Open && s'.committed == s.committed
      && (if t'.sent == t.sent then s'.successes == s.successes
          else Busy(t) && Current(t) !in t.sent && t'.sent == t.sent + {Current(t)}
               && s'.successes == s.successes + multiset{Current(t)})
  {
  }

  lemma MoveKeepsCounts(h: Hash, s: State, step: Step, i: nat)
    requires Moves(step, i) && Enabled(h, s, step) && RecordOk(s.committed, s.txs[i]) && CountsOk(s)
    ensures CountsOk(Apply(h, s, step))
  {
    var s' := Apply(h, s, step);
    MoveSends(h, s, step, i);
    forall k
      ensures s'.successes[k] == Tally(s'.txs, k, Senders(Open)) + Tally(s'.txs, k, Senders(Aborted)) + Tally(s'.txs, k, Senders(Committed))
      ensures Tally(s'.txs, k, Senders(Committed)) == Tally(s.txs, k, Senders(Committed))
      ensures Tally(s'.txs, k, Claimers(Committed)) == Tally(s.txs, k, Claimers(Committed))
    {
      TallyUpdate(s.txs, i, s'.txs[i], k, Senders(Open));
      TallyUpdate(s.txs, i, s'.txs[i], k, Senders(Aborted));
      TallyUpdate(s.txs, i, s'.txs[i], k, Senders(Committed));
      TallyUpdate(s.txs, i, s'.txs[i], k, Claimers(Committed));
    }
  }

  lemma AbortKeepsCounts(h: Hash, s: State, i: nat)
    requires Enabled(h, s, Abort(i)) && CountsOk(s)
    ensures CountsOk(Apply(h, s, Abort(i)))
  {
    var s' := Apply(h, s, Abort(i));
    forall k
      ensures s'.successes[k] == Tally(s'.txs, k, Senders(Open)) + Tally(s'.txs, k, Senders(Aborted)) + Tally(s'.txs, k, Senders(Committed))
      ensures Tally(s'.txs, k, Senders(Committed)) == Tally(s.txs, k, Senders(Committed))
      ensures Tally(s'.txs, k, Claimers(Committed)) == Tally(s.txs, k, Claimers(Committed))
    {
      TallyUpdate(s.txs, i, s'.txs[i], k, Senders(Open));
      TallyUpdate(s.txs, i, s'.txs[i], k, Senders(Aborted));
      TallyUpdate(s.txs, i, s'.txs[i], k, Senders(Committed));
      TallyUpdate(s.txs, i, s'.txs[i], k, Claimers(Committed));
    }
  }

  lemma CommitKeepsCounts(h: Hash, s: State, i: nat)
    requires Enabled(h, s, Commit(i)) && CountsOk(s) && RecordOk(s.committed, s.txs[i])
    ensures CountsOk(Apply(h, s, Commit(i)))
  {
    var s' := Apply(h, s, Commit(i));
    var t := s.txs[i];
    forall k
      ensures s'.successes[k] == Tally(s'.txs, k, Senders(Open)) + Tally(s'.txs, k, Senders(Aborted)) + Tally(s'.txs, k, Senders(Committed))
      ensures Tally(s'.txs, k, Senders(Committed)) == (if IsSent(s'.committed, k) then 1 else 0)
      ensures AttemptsIn(s'.committed, k) == Tally(s'.txs, k, Claimers(Committed))
    {
      TallyUpdate(s.txs, i, s'.txs[i], k, Senders(Open));
      TallyUpdate(s.txs, i, s'.txs[i], k, Senders(Aborted));
      TallyUpdate(s.txs, i, s'.txs[i], k, Senders(Committed));
      TallyUpdate(s.txs, i, s'.txs[i], k, Claimers(Committed));
      assert k in t.sent <==> IsSent(t.writes, k);
      assert k in t.claimed <==> k in t.writes;
      assert IsSent(s'.committed, k) <==> IsSent(t.writes, k) || (k !in t.writes && IsSent(s.committed, k));
    }
  }

  /** A committed SENT row survives every step unchanged. */
  lemma StepKeepsSent(h: Hash, s: State, step: Step, k: Key)
    requires Enabled(h, s, step) && RecordsOk(s) && IsSent(s.committed, k)
    ensures
      var s' := Apply(h, s, step);
      k in s'.committed && s'.committed[k] == s.committed[k]
  {
    if step.Commit? {
      assert RecordOk(s.committed, s.txs[step.tx]);
    }
  }

  lemma RecordFrame(c: Ledger, w: Ledger, t: Tx)
    requires RecordOk(c, t) && forall k :: k in t.writes ==> k !in w
    ensures RecordOk(c + w, t)
  {
    forall k | k in t.writes
      ensures IsSent(c + w, k) <==> IsSent(c, k)
      ensures AttemptsIn(c + w, k) == AttemptsIn(c, k)
    {
    }
  }

  /** The transactions other than the one that ended keep their records. */
  lemma EndKeepsRecords(h: Hash, s: State, step: Step, i: nat)
    requires Enabled(h, s, step) && (step == Commit(i) || step == Abort(i)) && Inv(h, s) && RecordsOk(s)
    ensures RecordsOk(Apply(h, s, step))
  {
    var s' := Apply(h, s, step);
    forall j | 0 <= j < |s'.txs| && s'.txs[j].outcome == Open ensures RecordOk(s'.committed, s'.txs[j]) {
      assert j != i && RecordOk(s.committed, s.txs[j]) && TxOk(h, s, i) && TxOk(h, s, j);
      if step.Commit? {
        forall k | k in s.txs[j].writes ensures k !in s.txs[i].writes {
          TouchedByOne(h, s, i, j, k);
        }
        RecordFrame(s.committed, s.txs[i].writes, s.txs[j]);
      }
    }
  }

  lemma StepKeepsAcks(h: Hash, s: State, step: Step)
    requires Enabled(h, s, step) && Books(h, s)
    ensures AcksOk(Apply(h, s, step))
  {
    var s' := Apply(h, s, step);
    forall n, i | 0 <= n < |s'.log| && !s'.log[n].failed && 0 <= i < |s'.log[n].job.users|
                  && s'.log[n].job.users[i] in s'.log[n].job.active
      ensures IsSent(s'.committed, KeyAt(s'.log[n].job, i))
    {
      var k := KeyAt(s'.log[n].job, i);
      if n < |s.log| {
        assert s'.log[n] == s.log[n];
        StepKeepsSent(h, s, step, k);
      } else {
        var t := s.txs[step.tx];
        assert TxOk(h, s, step.tx);
        assert s'.committed == View(s.committed, t);
        UnfailedRunSends(s.committed, t.job, t.replies, i);
      }
    }
  }

  lemma BeginKeepsBooks(h: Hash, s: State, step: Step)
    requires step.Begin? && RecordsOk(s) && CountsOk(s)
    ensures
      var s' := Apply(h, s, step);
      RecordsOk(s') && CountsOk(s')
  {
    var s' := Apply(h, s, step);
    forall k, m: Measure ensures Tally(s'.txs, k, m) == Tally(s.txs, k, m) {
      TallyAppend(s.txs, s'.txs[|s.txs|], k, m);
    }
    forall j | 0 <= j < |s'.txs| && s'.txs[j].outcome == Open ensures RecordOk(s'.committed, s'.txs[j]) {
      if j < |s.txs| { assert RecordOk(s.committed, s.txs[j]); }
    }
  }

  lemma MoveKeepsBooks(h: Hash, s: State, step: Step, i: nat)
    requires Moves(step, i) && Enabled(h, s, step) && Inv(h, s) && RecordsOk(s) && CountsOk(s) && LedgerSettled(s.committed)
    ensures
      var s' := Apply(h, s, step);
      RecordsOk(s') && CountsOk(s')
  {
    var s' := Apply(h, s, step);
    assert TxOk(h, s, i);
    MoveFacts(h, s, step, i);
    MoveKeepsRecord(h, s, step, i);
    MoveKeepsCounts(h, s, step, i);
    forall j | 0 <= j < |s'.txs| && s'.txs[j].outcome == Open ensures RecordOk(s'.committed, s'.txs[j]) {
      if j != i { assert RecordOk(s.committed, s.txs[j]); }
    }
  }

  lemma StepKeepsSettled(h: Hash, s: State, step: Step)
    requires Enabled(h, s, step) && RecordsOk(s) && LedgerSettled(s.committed)
    ensures LedgerSettled(Apply(h, s, step).committed)
  {
    hide Settled;
    if step.Commit? {
      assert RecordOk(s.committed, s.txs[step.tx]);
    }
  }

  lemma StepKeepsBooks(h: Hash, s: State, step: Step)
    requires Enabled(h, s, step) && Books(h, s)
    ensures Books(h, Apply(h, s, step))
  {
    hide Apply, Inv, RecordsOk, CountsOk, AcksOk, LedgerSettled;
    StepKeepsInv(h, s, step);
    StepKeepsAcks(h, s, step);
    StepKeepsSettled(h, s, step);
    match step
    case Begin(_, _, _) => BeginKeepsBooks(h, s, step);
    case Commit(i) =>
      CommitKeepsBooks(h, s, i);
    case Abort(i) =>
      AbortKeepsCounts(h, s, i);
      EndKeepsRecords(h, s, step, i);
    case _ => MoveKeepsBooks(h, s, step, step.tx);
  }

  lemma CommitKeepsBooks(h: Hash, s: State, i: nat)
    requires Enabled(h, s, Commit(i)) && Inv(h, s) && RecordsOk(s) && CountsOk(s)
    ensures
      var s' := Apply(h, s, Commit(i));
      RecordsOk(s') && CountsOk(s')
  {
    assert RecordOk(s.committed, s.txs[i]);
    hide Apply, Inv, RecordsOk, CountsOk, RecordOk;
    CommitKeepsCounts(h, s, i);
    EndKeepsRecords(h, s, Commit(i), i);
  }

  lemma {:induction false} RunKeepsBooks(h: Hash, steps: seq<Step>)
    requires Legal(h, steps)
    ensures Books(h, Run(h, steps))
  {
    hide Apply, Enabled;
    if steps == [] {
    } else {
      RunKeepsBooks(h, steps[..|steps| - 1]);
      StepKeepsBooks(h, Run(h, steps[..|steps| - 1]), steps[|steps| - 1]);
    }
  }

  /** At most one open transaction has sent to a key, and none once the key is SENT. */
  lemma OpenSenderIsUnique(h: Hash, s: State, k: Key)
    requires Books(h, s)
    ensures Tally(s.txs, k, Senders(Open)) <= 1
    ensures IsSent(s.committed, k) ==> Tally(s.txs, k, Senders(Open)) == 0
  {
    forall i | 0 <= i < |s.txs| && Hit(s.txs[i], k, Senders(Open))
      ensures TxOk(h, s, i) && Touches(s.txs[i], k) && !IsSent(s.committed, k)
    {
      assert RecordOk(s.committed, s.txs[i]);
      assert k in s.txs[i].writes;
    }
    forall i, j | 0 <= i < j < |s.txs| ensures !(Hit(s.txs[i], k, Senders(Open)) && Hit(s.txs[j], k, Senders(Open))) {
      if IsOpen(s, i) && IsOpen(s, j) { TouchedByOne(h, s, i, j, k); }
    }
    TallyAtMostOne(s.txs, k, Senders(Open));
    if IsSent(s.committed, k) { TallyZero(s.txs, k, Senders(Open)); }
  }

  /**
   Exact sends, for every interleaving: one for the committed SENT row, one for each
   aborted transaction that had sent, and one if an open transaction has sent. A
   recipient nobody aborted on after sending is therefore sent to at most once.
   */
  lemma ExactSends(h: Hash, steps: seq<Step>, k: Key)
    requires Legal(h, steps)
    ensures
      var s := Run(h, steps);
      var lost, inFlight := Tally(s.txs, k, Senders(Aborted)), Tally(s.txs, k, Senders(Open));
      && s.successes[k] == (if IsSent(s.committed, k) then 1 else 0) + lost + inFlight
      && inFlight <= (if IsSent(s.committed, k) then 0 else 1)
      && (lost == 0 ==> s.successes[k] <= 1)
  {
    RunKeepsBooks(h, steps);
    OpenSenderIsUnique(h, Run(h, steps), k);
  }

  /**
   Every committed ledger reached: no PENDING row, sent_at set exactly on SENT rows,
   last_error set exactly on FAILED rows, attempts the number of committed claims.
   */
  lemma LedgerShape(h: Hash, steps: seq<Step>, k: Key)
    requires Legal(h, steps)
    ensures
      var s := Run(h, steps);
      && (k in s.committed ==>
            && s.committed[k].status != PENDING
            && (s.committed[k].sentAt.Some? <==> s.committed[k].status == SENT)
            && (s.committed[k].lastError.Some? <==> s.committed[k].status == FAILED)
            && s.committed[k].attempts == Tally(s.txs, k, Claimers(Committed)))
      && (k in s.committed <==> Tally(s.txs, k, Claimers(Committed)) > 0)
  {
    RunKeepsBooks(h, steps);
    var s := Run(h, steps);
    assert AttemptsIn(s.committed, k) == Tally(s.txs, k, Claimers(Committed));
    if k in s.committed { assert Settled(s.committed[k]); }
  }

  /** A SENT row never changes again, however the run goes on. */
  lemma {:induction false} SentIsFinal(h: Hash, steps: seq<Step>, more: seq<Step>, k: Key)
    requires Legal(h, steps + more) && Legal(h, steps)
    requires IsSent(Run(h, steps).committed, k)
    ensures
      var was, now := Run(h, steps).committed, Run(h, steps + more).committed;
      k in now && now[k] == was[k]
  {
    hide Apply, Enabled;
    if more == [] {
      assert steps + more == steps;
    } else {
      var n := |more| - 1;
      assert (steps + more)[..|steps + more| - 1] == steps + more[..n];
      SentIsFinal(h, steps, more[..n], k);
      RunKeepsBooks(h, steps + more[..n]);
      StepKeepsSent(h, Run(h, steps + more[..n]), more[n], k);
    }
  }

  /**
   Ack soundness: a delivery is acknowledged when its transaction committed without the
   retry flag; each listed recipient active in its snapshot then has a committed SENT row,
   at that commit and in every later state.
   */
  lemma AckMeansSent(h: Hash, steps: seq<Step>, n: nat, i: nat)
    requires Legal(h, steps)
    requires n < |Run(h, steps).log| && i < |Run(h, steps).log[n].job.users|
    requires !Run(h, steps).log[n].failed
    requires Run(h, steps).log[n].job.users[i] in Run(h, steps).log[n].job.active
    ensures IsSent(Run(h, steps).committed, KeyAt(Run(h, steps).log[n].job, i))
  {
    RunKeepsBooks(h, steps);
  }
}
