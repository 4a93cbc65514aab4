/**
 Redelivery of one command to recipients whose first few sends fail: how the ledger rows
 evolve, and when the command is acknowledged.
 */
module Convergence {
  import opened Wrappers
  import opened DeliveryLedger
  import opened DeliveryLoop

  datatype Plan = Succeed | FailAlways | FailFirstThenSucceed

  /** How many sends to the peer fail before one succeeds; None when all fail. */
  function FailuresBefore(plan: Plan): Option<nat> {
    match plan
    case Succeed => Some(0)
    case FailFirstThenSucceed => Some(1)
    case FailAlways => None
  }

  /** The scripted messenger of the smoke harness. */
  class ScriptedMessenger {
    const plans: map<int, Plan>
    var attempts: map<int, nat>

    constructor (plans: map<int, Plan>)
      ensures this.plans == plans && attempts == map[]
    {
      this.plans := plans;
      attempts := map[];
    }

    /** It follows the script: the send succeeds once the plan's failures are used up. */
    method SendMessage(peer: int) returns (delivered: bool)
      modifies this`attempts
      ensures delivered <==> Verdict(ScriptOf(plans), old(attempts), peer)
      ensures attempts == Counted(ScriptOf(plans), old(attempts), peer)
      ensures peer !in plans ==> !delivered && attempts == old(attempts)
      ensures peer in plans ==> peer in attempts && attempts[peer] == 1 + if peer in old(attempts) then old(attempts)[peer] else 0
      ensures forall p :: p != peer ==> (p in attempts <==> p in old(attempts)) && (p in attempts ==> attempts[p] == old(attempts)[p])
      ensures peer in plans && plans[peer] == Succeed ==> delivered
      ensures peer in plans && plans[peer] == FailAlways ==> !delivered
      ensures peer in plans && plans[peer] == FailFirstThenSucceed ==> (delivered <==> attempts[peer] > 1)
    {
      if peer !in plans {
        return false;
      }
      var n := SentTo(attempts, peer) + 1;
      attempts := attempts[peer := n];
      match plans[peer]
      case Succeed => return true;
      case FailFirstThenSucceed => return n > 1;
      case FailAlways => return false;
    }
  }

  /** Per peer, the number of failures to come first; any number is allowed. */
  type Script = map<int, Option<nat>>

  function ScriptOf(plans: map<int, Plan>): Script {
    map p | p in plans :: FailuresBefore(plans[p])
  }

  function SentTo(sent: map<int, nat>, peer: int): nat {
    if peer in sent then sent[peer] else 0
  }

  function Failures(script: Script, peer: int): Option<nat> {
    if peer in script then script[peer] else None
  }

  predicate Verdict(script: Script, sent: map<int, nat>, peer: int) {
    var f := Failures(script, peer);
    f.Some? && SentTo(sent, peer) + 1 > f.value
  }

  /** Sends to peers without a plan are not counted. */
  function Counted(script: Script, sent: map<int, nat>, peer: int): map<int, nat> {
    if peer in script then sent[peer := SentTo(sent, peer) + 1] else sent
  }

  function CountedAll(script: Script, sent: map<int, nat>, calls: seq<int>): map<int, nat> {
    if calls == [] then sent
    else Counted(script, CountedAll(script, sent, calls[..|calls| - 1]), calls[|calls| - 1])
  }

  /** The state between deliveries. */
  datatype Stage = Stage(ledger: Ledger, sent: map<int, nat>, acked: bool)

  function Replies(job: Job, script: Script, sent: map<int, nat>, now: int): (r: seq<Reply>)
    ensures |r| == |job.users|
  {
    seq(|job.users|, i requires 0 <= i < |job.users| =>
      if job.users[i] in job.active then Reply(now, Verdict(script, sent, job.active[job.users[i]]), now) else NO_REPLY)
  }

  /** One more delivery of the command; it is acknowledged unless it raised the retry flag. */
  function Redeliver(stage: Stage, job: Job, script: Script, now: int): Stage {
    var p := Deliver(stage.ledger, job, Replies(job, script, stage.sent, now));
    Stage(p.ledger, CountedAll(script, stage.sent, p.calls), !p.failed)
  }

  function After(ledger: Ledger, job: Job, script: Script, n: nat): Stage {
    if n == 0 then Stage(ledger, map[], false)
    else Redeliver(After(ledger, job, script, n - 1), job, script, n)
  }

  /** Distinct users with distinct peers, and no earlier row of the event. */
  ghost predicate FreshJob(ledger: Ledger, job: Job) {
    && Distinct(job.users)
    && DistinctPeers(job)
    && (forall i :: 0 <= i < |job.users| ==> KeyAt(job, i) !in ledger)
  }

  function PeerAt(job: Job, i: nat): int
    requires ActiveAt(job, i)
  {
    job.active[job.users[i]]
  }

  /** Attempts made on a recipient within n deliveries. */
  function Tries(f: Option<nat>, n: nat): nat {
    if f.Some? && n > f.value then f.value + 1 else n
  }

  predicate Done(f: Option<nat>, n: nat) {
    f.Some? && n > f.value
  }

  /** What the recipient's row and the messenger's counter show after n deliveries. */
  ghost predicate OnSchedule(stage: Stage, job: Job, script: Script, i: nat, n: nat)
    requires ActiveAt(job, i)
  {
    var k, f := KeyAt(job, i), Failures(script, PeerAt(job, i));
    && (k in stage.ledger <==> n > 0)
    && (n > 0 ==>
          && stage.ledger[k].attempts == Tries(f, n)
          && stage.ledger[k].status == (if Done(f, n) then SENT else FAILED))
    && (PeerAt(job, i) in script ==> SentTo(stage.sent, PeerAt(job, i)) == Tries(f, n))
  }

  lemma {:induction false} CountedAllOnce(script: Script, sent: map<int, nat>, calls: seq<int>, peer: int)
    requires Distinct(calls) && peer in script
    ensures SentTo(CountedAll(script, sent, calls), peer) == SentTo(sent, peer) + if peer in calls then 1 else 0
  {
    if calls == [] {
    } else {
      var n := |calls| - 1;
      CountedAllOnce(script, sent, calls[..n], peer);
      assert calls == calls[..n] + [calls[n]];
    }
  }

  /** Each attempted recipient is one call, and calls do not repeat. */
  lemma CallsAreAttempts(l: Ledger, job: Job, replies: seq<Reply>, i: nat)
    requires |replies| == |job.users| && Distinct(job.users) && ActiveAt(job, i)
    requires DistinctPeers(job)
    ensures
      var calls := Deliver(l, job, replies).calls;
      Distinct(calls) && (PeerAt(job, i) in calls <==> Attempts(l, job, i))
  {
    var calls, ps := Deliver(l, job, replies).calls, AttemptedPositions(l, job, |job.users|);
    DeliverToCalls(l, job, replies, |job.users|);
    AttemptedPositionsExact(l, job, |job.users|);
    CallsAreDistinct(l, job, replies);
    if PeerAt(job, i) in calls {
      var j :| 0 <= j < |calls| && calls[j] == PeerAt(job, i);
      assert job.users[ps[j]] == job.users[i];
    }
    if Attempts(l, job, i) {
      var j :| 0 <= j < |ps| && ps[j] == i;
      assert calls[j] == PeerAt(job, i);
    }
  }

  /** Everyone written to so far is the peer of an earlier listed active user. */
  lemma {:induction false} CallsAreEarlier(l: Ledger, job: Job, replies: seq<Reply>, n: nat)
    requires n <= |job.users| && n <= |replies|
    ensures forall p :: p in DeliverTo(l, job, replies, n).calls ==> exists j :: 0 <= j < n && ActiveAt(job, j) && PeerAt(job, j) == p
  {
    if n == 0 {
    } else {
      CallsAreEarlier(l, job, replies, n - 1);
      var before, calls := DeliverTo(l, job, replies, n - 1).calls, DeliverTo(l, job, replies, n).calls;
      forall p | p in calls ensures exists j :: 0 <= j < n && ActiveAt(job, j) && PeerAt(job, j) == p {
        if p in before {
          var j :| 0 <= j < n - 1 && ActiveAt(job, j) && PeerAt(job, j) == p;
        } else {
          assert ActiveAt(job, n - 1) && PeerAt(job, n - 1) == p;
        }
      }
    }
  }

  /** Sends to others leave a peer's counter alone. */
  lemma {:induction false} CountedAllElsewhere(script: Script, sent: map<int, nat>, calls: seq<int>, peer: int)
    requires peer !in calls
    ensures SentTo(CountedAll(script, sent, calls), peer) == SentTo(sent, peer)
  {
    if calls == [] {
    } else {
      var n := |calls| - 1;
      CountedAllElsewhere(script, sent, calls[..n], peer);
    }
  }

  lemma CountedAllAppend(script: Script, sent: map<int, nat>, calls: seq<int>, peer: int)
    ensures CountedAll(script, sent, calls + [peer]) == Counted(script, CountedAll(script, sent, calls), peer)
  {
    assert (calls + [peer])[..|calls|] == calls;
  }

  /** When its turn comes, the verdict on a recipient is still the one its counter gave before the delivery. */
  lemma VerdictUnmoved(l: Ledger, job: Job, script: Script, sent: map<int, nat>, now: int, i: nat)
    requires DistinctPeers(job) && Distinct(job.users) && ActiveAt(job, i)
    ensures
      var sent' := CountedAll(script, sent, DeliverTo(l, job, Replies(job, script, sent, now), i).calls);
      Verdict(script, sent', PeerAt(job, i)) <==> Verdict(script, sent, PeerAt(job, i))
  {
    var calls := DeliverTo(l, job, Replies(job, script, sent, now), i).calls;
    CallsAreEarlier(l, job, Replies(job, script, sent, now), i);
    assert PeerAt(job, i) !in calls;
    CountedAllElsewhere(script, sent, calls, PeerAt(job, i));
  }

  /**
   The recipient loop with the scripted messenger, asked anew at every recipient: it leaves
   the rows, the counters and the retry flag that `Redeliver` computes from the counters
   before the delivery.
   */
  method DeliverScripted(repository: DeliveryRepository, messenger: ScriptedMessenger, job: Job, now: int) returns (failed: bool)
    requires Distinct(job.users) && DistinctPeers(job)
    modifies repository, messenger`attempts
    ensures
      var before := Stage(old(repository.rows), old(messenger.attempts), false);
      Stage(repository.rows, messenger.attempts, !failed) == Redeliver(before, job, ScriptOf(messenger.plans), now)
  {
    ghost var rows, sent, script := repository.rows, messenger.attempts, ScriptOf(messenger.plans);
    ghost var replies := Replies(job, script, sent, now);
    failed := false;
    for i := 0 to |job.users|
      invariant repository.rows == DeliverTo(rows, job, replies, i).ledger
      invariant failed == DeliverTo(rows, job, replies, i).failed
      invariant messenger.attempts == CountedAll(script, sent, DeliverTo(rows, job, replies, i).calls)
    {
      var user := job.users[i];
      if user in job.active {
        var peer := job.active[user];
        var claimed := repository.ClaimAttempt(KeyAt(job, i), peer, now);
        if claimed.Some? {
          VerdictUnmoved(rows, job, script, sent, now, i);
          CountedAllAppend(script, sent, DeliverTo(rows, job, replies, i).calls, peer);
          var delivered := messenger.SendMessage(peer);
          if delivered {
            var _ := repository.MarkSent(KeyAt(job, i), now);
          } else {
            var _ := repository.MarkFailed(KeyAt(job, i), SEND_FAILED, now);
            failed := true;
          }
        }
      }
    }
  }

  lemma OneMoreDelivery(stage: Stage, job: Job, script: Script, i: nat, n: nat)
    requires Distinct(job.users) && ActiveAt(job, i) && OnSchedule(stage, job, script, i, n)
    requires DistinctPeers(job)
    ensures OnSchedule(Redeliver(stage, job, script, n + 1), job, script, i, n + 1)
  {
    var replies := Replies(job, script, stage.sent, n + 1);
    var next := Redeliver(stage, job, script, n + 1);
    var k := KeyAt(job, i);
    DeliverToRow(stage.ledger, job, replies, |job.users|, i);
    assert Lookup(next.ledger, k) ==
           if Attempts(stage.ledger, job, i) then Some(SettledRow(stage.ledger, k, PeerAt(job, i), replies[i]))
           else Lookup(stage.ledger, k);
    CallsAreAttempts(stage.ledger, job, replies, i);
    if PeerAt(job, i) in script {
      CountedAllOnce(script, stage.sent, Deliver(stage.ledger, job, replies).calls, PeerAt(job, i));
    }
  }

  /**
   Convergence: after n deliveries a recipient whose first f sends fail has had min(n, f + 1)
   attempts and is SENT exactly when n > f; one that always fails has had n.
   */
  lemma {:induction false} Converges(ledger: Ledger, job: Job, script: Script, i: nat, n: nat)
    requires FreshJob(ledger, job) && ActiveAt(job, i)
    ensures OnSchedule(After(ledger, job, script, n), job, script, i, n)
  {
    if n == 0 {
    } else {
      Converges(ledger, job, script, i, n - 1);
      OneMoreDelivery(After(ledger, job, script, n - 1), job, script, i, n - 1);
    }
  }

  /** The largest number of failures among active recipients; None when one always fails. */
  function WorstUpTo(job: Job, script: Script, m: nat): Option<nat>
    requires m <= |job.users|
  {
    if m == 0 then Some(0)
    else
      var before := WorstUpTo(job, script, m - 1);
      if !ActiveAt(job, m - 1) then before
      else
        var f := Failures(script, PeerAt(job, m - 1));
        if before.None? || f.None? then None
        else Some(if f.value > before.value then f.value else before.value)
  }

  function Worst(job: Job, script: Script): Option<nat> {
    WorstUpTo(job, script, |job.users|)
  }

  lemma {:induction false} WorstBounds(job: Job, script: Script, m: nat, n: nat)
    requires m <= |job.users| && n > 0
    ensures Done(WorstUpTo(job, script, m), n) <==>
            forall i :: 0 <= i < m && ActiveAt(job, i) ==> Done(Failures(script, PeerAt(job, i)), n)
  {
    if m == 0 {
    } else {
      WorstBounds(job, script, m - 1, n);
    }
  }

  /** The n-th delivery is acknowledged exactly when n exceeds every recipient's failures. */
  lemma AckedExactly(ledger: Ledger, job: Job, script: Script, n: nat)
    requires FreshJob(ledger, job) && n > 0
    ensures After(ledger, job, script, n).acked <==> Done(Worst(job, script), n)
  {
    var stage := After(ledger, job, script, n - 1);
    var replies := Replies(job, script, stage.sent, n);
    DeliverToFailed(stage.ledger, job, replies, |job.users|);
    WorstBounds(job, script, |job.users|, n);
    forall i | 0 <= i < |job.users| && ActiveAt(job, i)
      ensures Attempts(stage.ledger, job, i) && !replies[i].delivered <==> !Done(Failures(script, PeerAt(job, i)), n)
    {
      Converges(ledger, job, script, i, n - 1);
    }
    if !Done(Worst(job, script), n) {
      var i :| 0 <= i < |job.users| && ActiveAt(job, i) && !Done(Failures(script, PeerAt(job, i)), n);
      assert Attempts(stage.ledger, job, i) && !replies[i].delivered;
    }
  }

  /**
   The broker redelivers until an ack, at most maxDeliver times: the first ack is delivery
   1 + max f, if that is allowed; otherwise the command is delivered maxDeliver times in
   vain and a recipient that always fails ends FAILED with exactly maxDeliver attempts.
   */
  method DeliverUntilAcked(ledger: Ledger, job: Job, script: Script, maxDeliver: nat) returns (n: nat, stage: Stage)
    requires FreshJob(ledger, job) && maxDeliver >= 1
    ensures stage == After(ledger, job, script, n) && 1 <= n <= maxDeliver
    ensures stage.acked <==> Worst(job, script).Some? && 1 + Worst(job, script).value <= maxDeliver
    ensures stage.acked ==> n == 1 + Worst(job, script).value
    ensures !stage.acked ==> n == maxDeliver
    ensures forall i :: 0 <= i < |job.users| && ActiveAt(job, i) ==>
                          var k, f := KeyAt(job, i), Failures(script, PeerAt(job, i));
                          && k in stage.ledger
                          && stage.ledger[k].status == (if f.Some? && f.value < n then SENT else FAILED)
                          && stage.ledger[k].attempts == (if f.Some? && f.value < n then f.value + 1 else n)
  {
    n, stage := 0, Stage(ledger, map[], false);
    while n < maxDeliver && !stage.acked
      invariant stage == After(ledger, job, script, n) && n <= maxDeliver
      invariant n == 0 ==> !stage.acked
      invariant n > 0 ==> (stage.acked <==> Done(Worst(job, script), n))
      invariant n > 0 ==> !Done(Worst(job, script), n - 1)
    {
      n := n + 1;
      stage := Redeliver(stage, job, script, n);
      AckedExactly(ledger, job, script, n);
    }
    forall i | 0 <= i < |job.users| && ActiveAt(job, i) ensures OnSchedule(stage, job, script, i, n) {
      Converges(ledger, job, script, i, n);
    }
  }
}
