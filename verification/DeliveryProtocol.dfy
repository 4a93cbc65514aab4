/**
 Any number of workers delivering commands at once. Each delivery is one database
 transaction; advisory locks, keyed by a hash of the event and a hash of the recipient
 that may collide, are taken at the claim and kept until the transaction ends. A step below
 is one database statement, one messenger call, or the end of a transaction, and steps of
 different transactions interleave freely.
 */
module DeliveryProtocol {
  import opened DeliveryLedger
  import opened DeliveryLoop
  import opened DeliveryCommand

  datatype Outcome = Open | Committed | Aborted

  /** Where a transaction stands within the iteration for its current recipient. */
  datatype Phase =
    | Ready
    | Locked
    | Checked
    | Claimed(at: int)
    | Replied(at: int, delivered: bool)

  /**
   One delivery transaction: its private writes, the loop's variables, and a record of
   what it did (`replies`, `claimed`, `sent`).
   */
  datatype Tx = Tx(
    job: Job,
    outcome: Outcome,
    pos: nat,
    phase: Phase,
    writes: Ledger,
    failed: bool,
    calls: seq<int>,
    replies: seq<Reply>,
    claimed: set<Key>,
    sent: set<Key>)

  /** `log` lists committed transactions in commit order; `successes` counts successful sends. */
  datatype State = State(
    committed: Ledger,
    locks: map<LockId, nat>,
    txs: seq<Tx>,
    log: seq<Tx>,
    successes: multiset<Key>)

  datatype Step =
    | Begin(event: Uuid, listed: seq<Uuid>, active: map<Uuid, int>)
    | Skip(tx: nat)
    | Acquire(tx: nat)
    | Check(tx: nat)
    | Upsert(tx: nat, now: int)
    | Send(tx: nat, delivered: bool)
    | MarkRow(tx: nat, now: int)
    | Commit(tx: nat)
    | Abort(tx: nat)

  /** How event and recipient identities are hashed; nothing is known about either function. */
  datatype Hash = Hash(ofEvent: Uuid -> int, ofUser: Uuid -> int)

  /** An advisory lock is named by two numbers: one for the event, one for the recipient. */
  datatype LockId = LockId(event: int, user: int)

  /** The advisory lock that guards a row. */
  function LockOf(h: Hash, k: Key): LockId {
    LockId(h.ofEvent(k.event), h.ofUser(k.user))
  }

  const INITIAL := State(map[], map[], [], [], multiset{})

  predicate IsOpen(s: State, i: nat) {
    i < |s.txs| && s.txs[i].outcome == Open
  }

  /** The current recipient is in the snapshot of active bindings. */
  predicate Busy(t: Tx) {
    t.pos < |t.job.users| && t.job.users[t.pos] in t.job.active
  }

  function Current(t: Tx): Key
    requires Busy(t)
  {
    KeyAt(t.job, t.pos)
  }

  function Peer(t: Tx): int
    requires Busy(t)
  {
    t.job.active[t.job.users[t.pos]]
  }

  /** What a statement of the transaction reads: committed rows overlaid with its own writes. */
  function View(committed: Ledger, t: Tx): Ledger {
    committed + t.writes
  }

  function Advance(t: Tx, reply: Reply): Tx {
    t.(pos := t.pos + 1, phase := Ready, replies := t.replies + [reply])
  }

  /** A recipient already SENT is passed over. */
  function AfterCheck(committed: Ledger, t: Tx): Tx
    requires Busy(t)
  {
    if IsSent(View(committed, t), Current(t)) then Advance(t, NO_REPLY) else t.(phase := Checked)
  }

  function AfterUpsert(committed: Ledger, t: Tx, now: int): Tx
    requires Busy(t)
  {
    var k := Current(t);
    var row := ClaimedRow(Lookup(View(committed, t), k), Peer(t), now);
    t.(writes := t.writes[k := row], phase := Claimed(now), claimed := t.claimed + {k})
  }

  function AfterSend(t: Tx, delivered: bool): Tx
    requires Busy(t) && t.phase.Claimed?
  {
    t.(phase := Replied(t.phase.at, delivered), calls := t.calls + [Peer(t)],
       sent := if delivered then t.sent + {Current(t)} else t.sent)
  }

  function AfterMark(committed: Ledger, t: Tx, now: int): Tx
    requires Busy(t) && t.phase.Replied? && Current(t) in View(committed, t)
  {
    var k, ok := Current(t), t.phase.delivered;
    var seen := View(committed, t)[k];
    var row := if ok then SentRow(seen, now) else FailedRow(seen, SEND_FAILED, now);
    Advance(t.(writes := t.writes[k := row], failed := t.failed || !ok), Reply(t.phase.at, ok, now))
  }

  predicate Enabled(h: Hash, s: State, step: Step) {
    match step
    case Begin(_, _, _) => true
    case Skip(i) =>
      IsOpen(s, i) && s.txs[i].phase.Ready? && s.txs[i].pos < |s.txs[i].job.users| && !Busy(s.txs[i])
    case Acquire(i) =>
      IsOpen(s, i) && s.txs[i].phase.Ready? && Busy(s.txs[i]) &&
      var x := LockOf(h, Current(s.txs[i])); x in s.locks ==> s.locks[x] == i
    case Check(i) => IsOpen(s, i) && s.txs[i].phase.Locked? && Busy(s.txs[i])
    case Upsert(i, _) => IsOpen(s, i) && s.txs[i].phase.Checked? && Busy(s.txs[i])
    case Send(i, _) => IsOpen(s, i) && s.txs[i].phase.Claimed? && Busy(s.txs[i])
    case MarkRow(i, _) =>
      IsOpen(s, i) && s.txs[i].phase.Replied? && Busy(s.txs[i]) && Current(s.txs[i]) in View(s.committed, s.txs[i])
    case Commit(i) => IsOpen(s, i) && s.txs[i].phase.Ready? && s.txs[i].pos == |s.txs[i].job.users|
    case Abort(i) => IsOpen(s, i)
  }

  function Release(locks: map<LockId, nat>, i: nat): map<LockId, nat> {
    map x | x in locks && locks[x] != i :: locks[x]
  }

  function Apply(h: Hash, s: State, step: Step): State
    requires Enabled(h, s, step)
  {
    match step
    case Begin(event, listed, active) =>
      var job := Job(event, Dedup(listed), active);
      s.(txs := s.txs + [Tx(job, Open, 0, Ready, map[], false, [], [], {}, {})])
    case Skip(i) =>
      s.(txs := s.txs[i := Advance(s.txs[i], NO_REPLY)])
    case Acquire(i) =>
      s.(txs := s.txs[i := s.txs[i].(phase := Locked)], locks := s.locks[LockOf(h, Current(s.txs[i])) := i])
    case Check(i) =>
      s.(txs := s.txs[i := AfterCheck(s.committed, s.txs[i])])
    case Upsert(i, now) =>
      s.(txs := s.txs[i := AfterUpsert(s.committed, s.txs[i], now)])
    case Send(i, delivered) =>
      s.(txs := s.txs[i := AfterSend(s.txs[i], delivered)],
         successes := if delivered then s.successes + multiset{Current(s.txs[i])} else s.successes)
    case MarkRow(i, now) =>
      s.(txs := s.txs[i := AfterMark(s.committed, s.txs[i], now)])
    case Commit(i) =>
      var t := s.txs[i].(outcome := Committed);
      s.(committed := s.committed + t.writes, locks := Release(s.locks, i), txs := s.txs[i := t], log := s.log + [t])
    case Abort(i) =>
      s.(txs := s.txs[i := s.txs[i].(outcome := Aborted)], locks := Release(s.locks, i))
  }

  /** Every step is enabled when it is taken. */
  ghost predicate Legal(h: Hash, steps: seq<Step>)
    decreases |steps|, 0
  {
    steps == [] ||
    var n := |steps| - 1;
    Legal(h, steps[..n]) && Enabled(h, Run(h, steps[..n]), steps[n])
  }

  ghost function Run(h: Hash, steps: seq<Step>): State
    requires Legal(h, steps)
    decreases |steps|, 1
  {
    if steps == [] then INITIAL
    else Apply(h, Run(h, steps[..|steps| - 1]), steps[|steps| - 1])
  }
}
