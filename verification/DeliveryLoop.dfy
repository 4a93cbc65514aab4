/**
 What one delivery of a command does when nothing else runs: the recipient loop as a
 function on values, and the facts about it that the other modules build on.
 */
module DeliveryLoop {
  import opened Wrappers
  import opened DeliveryLedger

  /** A command after validation, with the snapshot of active bindings its delivery read. */
  datatype Job = Job(event: Uuid, users: seq<Uuid>, active: map<Uuid, int>)

  /** How the environment answers one recipient: two clock readings and the messenger's verdict. */
  datatype Reply = Reply(claimedAt: int, delivered: bool, markedAt: int)

  /** Stands at the positions where the messenger is not asked. */
  const NO_REPLY := Reply(0, false, 0)

  /** The loop's state: the rows it sees, the retry flag, the peers written to in order. */
  datatype Progress = Progress(ledger: Ledger, failed: bool, calls: seq<int>)

  function KeyAt(job: Job, i: nat): Key
    requires i < |job.users|
  {
    Key(job.event, job.users[i])
  }

  /** The recipient at position i is in the snapshot of active bindings. */
  predicate ActiveAt(job: Job, i: nat) {
    i < |job.users| && job.users[i] in job.active
  }

  ghost predicate Distinct<T(!new)>(s: seq<T>) {
    forall i, j :: 0 <= i < j < |s| ==> s[i] != s[j]
  }

  /** No two users of the snapshot have the same peer. */
  ghost predicate DistinctPeers(job: Job) {
    forall u, v :: u in job.active && v in job.active && job.active[u] == job.active[v] ==> u == v
  }

  /** The recipient at position i gets an attempt when the loop sees ledger l. */
  predicate Attempts(l: Ledger, job: Job, i: nat)
    requires i < |job.users|
  {
    job.users[i] in job.active && !IsSent(l, KeyAt(job, i))
  }

  function DeliverOne(p: Progress, job: Job, i: nat, reply: Reply): Progress
    requires i < |job.users|
  {
    if !Attempts(p.ledger, job, i) then p
    else
      var k, peer := KeyAt(job, i), job.active[job.users[i]];
      var claimed := Claim(p.ledger, k, peer, reply.claimedAt);
      Progress(
        Mark(claimed, k, reply.delivered, reply.markedAt),
        p.failed || !reply.delivered,
        p.calls + [peer])
  }

  /** The first n iterations, started on ledger l. */
  function DeliverTo(l: Ledger, job: Job, replies: seq<Reply>, n: nat): Progress
    requires n <= |job.users| && n <= |replies|
  {
    if n == 0 then Progress(l, false, [])
    else DeliverOne(DeliverTo(l, job, replies, n - 1), job, n - 1, replies[n - 1])
  }

  function Deliver(l: Ledger, job: Job, replies: seq<Reply>): Progress
    requires |replies| == |job.users|
  {
    DeliverTo(l, job, replies, |job.users|)
  }

  /** Only the replies consumed so far matter. */
  lemma {:induction false} DeliverToExtends(l: Ledger, job: Job, replies: seq<Reply>, more: seq<Reply>, n: nat)
    requires n <= |job.users| && n <= |replies|
    ensures DeliverTo(l, job, replies + more, n) == DeliverTo(l, job, replies, n)
  {
    if n == 0 {
    } else {
      DeliverToExtends(l, job, replies, more, n - 1);
    }
  }

  /** The keys the first n iterations may write. */
  ghost predicate Reaches(job: Job, n: nat, k: Key)
    requires n <= |job.users|
  {
    exists i :: 0 <= i < n && job.users[i] in job.active && k == KeyAt(job, i)
  }

  lemma ReachesGrows(job: Job, n: nat, k: Key)
    requires n < |job.users|
    ensures Reaches(job, n + 1, k) <==> Reaches(job, n, k) || (job.users[n] in job.active && k == KeyAt(job, n))
  {
    if job.users[n] in job.active && k == KeyAt(job, n) {
      assert Reaches(job, n + 1, k);
    }
  }

  lemma DeliverOneFrame(p: Progress, w: Ledger, job: Job, i: nat, r: Reply)
    requires i < |job.users|
    requires job.users[i] in job.active ==> KeyAt(job, i) !in w
    ensures
      var q := DeliverOne(p, job, i, r);
      DeliverOne(p.(ledger := p.ledger + w), job, i, r) == q.(ledger := q.ledger + w)
  {
    hide ClaimedRow, SentRow, FailedRow;
    if Attempts(p.ledger, job, i) {
      var k, peer := KeyAt(job, i), job.active[job.users[i]];
      assert Lookup(p.ledger + w, k) == Lookup(p.ledger, k);
      var row := ClaimedRow(Lookup(p.ledger, k), peer, r.claimedAt);
      var marked := if r.delivered then SentRow(row, r.markedAt) else FailedRow(row, SEND_FAILED, r.markedAt);
      var q := DeliverOne(p, job, i, r);
      assert q.ledger == p.ledger[k := row][k := marked];
      assert (p.ledger + w)[k := row][k := marked] == q.ledger + w;
    }
  }

  /** Rows elsewhere ride along unchanged and do not influence the loop. */
  lemma {:induction false} DeliverToFrame(l: Ledger, w: Ledger, job: Job, replies: seq<Reply>, n: nat)
    requires n <= |job.users| && n <= |replies|
    requires forall k :: k in w ==> !Reaches(job, n, k)
    ensures
      var p := DeliverTo(l, job, replies, n);
      DeliverTo(l + w, job, replies, n) == p.(ledger := p.ledger + w)
  {
    hide DeliverOne, Reaches;
    if n == 0 {
    } else {
      forall k | k in w
        ensures !Reaches(job, n - 1, k) && !(job.users[n - 1] in job.active && k == KeyAt(job, n - 1))
      {
        ReachesGrows(job, n - 1, k);
      }
      DeliverToFrame(l, w, job, replies, n - 1);
      DeliverOneFrame(DeliverTo(l, job, replies, n - 1), w, job, n - 1, replies[n - 1]);
    }
  }

  /** Keys outside the loop's reach keep their rows. */
  lemma {:induction false} DeliverToLeavesOthers(l: Ledger, job: Job, replies: seq<Reply>, n: nat, k: Key)
    requires n <= |job.users| && n <= |replies|
    requires !Reaches(job, n, k)
    ensures Lookup(DeliverTo(l, job, replies, n).ledger, k) == Lookup(l, k)
  {
    if n == 0 {
    } else {
      ReachesGrows(job, n - 1, k);
      DeliverToLeavesOthers(l, job, replies, n - 1, k);
    }
  }

  /** What one iteration makes of one row, independent of every other recipient. */
  function SettledRow(l: Ledger, k: Key, peer: int, r: Reply): (row: Row)
    ensures row.peer == peer && row.attempts == (if k in l then l[k].attempts else 0) + 1
    ensures r.delivered ==> row.status == SENT && row.sentAt == Some(r.markedAt) && row.lastError == None
    ensures !r.delivered ==> row.status == FAILED && row.lastError == Some("VK_API_SEND_FAILED")
    ensures !r.delivered ==> row.sentAt == if k in l then l[k].sentAt else None
    ensures row.updatedAt == r.markedAt
  {
    var claimed := ClaimedRow(Lookup(l, k), peer, r.claimedAt);
    if r.delivered then SentRow(claimed, r.markedAt) else FailedRow(claimed, SEND_FAILED, r.markedAt)
  }

  /** With distinct recipients each row depends on its own previous row and its own reply only. */
  lemma {:induction false} DeliverToRow(l: Ledger, job: Job, replies: seq<Reply>, n: nat, i: nat)
    requires i < |job.users| && n <= |job.users| && n <= |replies|
    requires Distinct(job.users)
    ensures
      var after := DeliverTo(l, job, replies, n).ledger;
      Lookup(after, KeyAt(job, i)) ==
      if i < n && Attempts(l, job, i) then Some(SettledRow(l, KeyAt(job, i), job.active[job.users[i]], replies[i]))
      else Lookup(l, KeyAt(job, i))
  {
    if n == 0 {
    } else {
      DeliverToRow(l, job, replies, n - 1, i);
      if i == n - 1 {
        var before := DeliverTo(l, job, replies, n - 1).ledger;
        var k := KeyAt(job, i);
        assert Lookup(before, k) == Lookup(l, k);
        assert IsSent(before, k) <==> IsSent(l, k);
      } else {
        assert job.users[i] != job.users[n - 1] by {
          if i < n - 1 { assert job.users[i] != job.users[n - 1]; }
        }
        assert KeyAt(job, i) != KeyAt(job, n - 1);
      }
    }
  }

  /** The retry flag reports exactly whether an attempted recipient was refused. */
  lemma {:induction false} DeliverToFailed(l: Ledger, job: Job, replies: seq<Reply>, n: nat)
    requires n <= |job.users| && n <= |replies|
    requires Distinct(job.users)
    ensures DeliverTo(l, job, replies, n).failed <==>
            exists i :: 0 <= i < n && Attempts(l, job, i) && !replies[i].delivered
  {
    if n == 0 {
    } else {
      DeliverToFailed(l, job, replies, n - 1);
      DeliverToRow(l, job, replies, n - 1, n - 1);
      var p := DeliverTo(l, job, replies, n - 1);
      assert Attempts(p.ledger, job, n - 1) <==> Attempts(l, job, n - 1);
    }
  }

  /** Without the retry flag, the run alone leaves every listed active recipient SENT. */
  lemma UnfailedRunSends(l: Ledger, job: Job, replies: seq<Reply>, i: nat)
    requires |replies| == |job.users| && Distinct(job.users) && i < |job.users| && job.users[i] in job.active
    requires !Deliver(l, job, replies).failed
    ensures IsSent(Deliver(l, job, replies).ledger, KeyAt(job, i))
  {
    DeliverToFailed(l, job, replies, |job.users|);
    DeliverToRow(l, job, replies, |job.users|, i);
    var k := KeyAt(job, i);
    var after := Deliver(l, job, replies).ledger;
    if Attempts(l, job, i) {
      assert replies[i].delivered;
      assert Lookup(after, k) == Some(SettledRow(l, k, job.active[job.users[i]], replies[i]));
    } else {
      assert Lookup(after, k) == Lookup(l, k);
    }
  }

  /** No attempted recipient was refused. */
  ghost predicate AllDelivered(l: Ledger, job: Job, replies: seq<Reply>)
    requires |replies| == |job.users|
  {
    forall i :: 0 <= i < |job.users| && Attempts(l, job, i) ==> replies[i].delivered
  }

  ghost predicate AttemptedKey(l: Ledger, job: Job, k: Key) {
    exists i :: 0 <= i < |job.users| && Attempts(l, job, i) && k == KeyAt(job, i)
  }

  /**
   Each attempted recipient's row holds the peer written to, the verdict, and one attempt more
   than before; every other row is as it was.
   */
  ghost predicate Recorded(l: Ledger, after: Ledger, job: Job, replies: seq<Reply>)
    requires |replies| == |job.users|
  {
    && (forall i :: 0 <= i < |job.users| && Attempts(l, job, i) ==>
                      var k := KeyAt(job, i);
                      && k in after && after[k].peer == job.active[job.users[i]]
                      && after[k].attempts == (if k in l then l[k].attempts else 0) + 1
                      && after[k].status == (if replies[i].delivered then SENT else FAILED))
    && (forall k :: !AttemptedKey(l, job, k) ==> Lookup(after, k) == Lookup(l, k))
  }

  lemma DeliveryIsRecorded(l: Ledger, job: Job, replies: seq<Reply>)
    requires |replies| == |job.users| && Distinct(job.users)
    ensures Recorded(l, Deliver(l, job, replies).ledger, job, replies)
    ensures Deliver(l, job, replies).failed <==> !AllDelivered(l, job, replies)
  {
    hide DeliverTo, SettledRow;
    var n, after := |job.users|, Deliver(l, job, replies).ledger;
    DeliverToFailed(l, job, replies, n);
    forall i | 0 <= i < n
      ensures Lookup(after, KeyAt(job, i)) ==
              if Attempts(l, job, i) then Some(SettledRow(l, KeyAt(job, i), job.active[job.users[i]], replies[i]))
              else Lookup(l, KeyAt(job, i))
    {
      DeliverToRow(l, job, replies, n, i);
    }
    forall k | !AttemptedKey(l, job, k) ensures Lookup(after, k) == Lookup(l, k) {
      if Reaches(job, n, k) {
        var i :| 0 <= i < n && job.users[i] in job.active && k == KeyAt(job, i);
        assert !Attempts(l, job, i);
      } else {
        DeliverToLeavesOthers(l, job, replies, n, k);
      }
    }
  }

  /** Positions the loop writes to, in order. */
  function AttemptedPositions(l: Ledger, job: Job, n: nat): (ps: seq<nat>)
    requires n <= |job.users|
    ensures forall j :: 0 <= j < |ps| ==> ps[j] < n && Attempts(l, job, ps[j])
  {
    if n == 0 then []
    else AttemptedPositions(l, job, n - 1) + (if Attempts(l, job, n - 1) then [n - 1] else [])
  }

  function PeersAt(job: Job, ps: seq<nat>): (peers: seq<int>)
    requires forall j :: 0 <= j < |ps| ==> ps[j] < |job.users| && job.users[ps[j]] in job.active
    ensures |peers| == |ps|
    ensures forall j :: 0 <= j < |ps| ==> peers[j] == job.active[job.users[ps[j]]]
  {
    seq(|ps|, j requires 0 <= j < |ps| => job.active[job.users[ps[j]]])
  }

  lemma {:induction false} DeliverToCalls(l: Ledger, job: Job, replies: seq<Reply>, n: nat)
    requires n <= |job.users| && n <= |replies|
    requires Distinct(job.users)
    ensures DeliverTo(l, job, replies, n).calls == PeersAt(job, AttemptedPositions(l, job, n))
  {
    if n == 0 {
    } else {
      DeliverToCalls(l, job, replies, n - 1);
      DeliverToRow(l, job, replies, n - 1, n - 1);
      var p := DeliverTo(l, job, replies, n - 1);
      assert Attempts(p.ledger, job, n - 1) <==> Attempts(l, job, n - 1);
      var ps := AttemptedPositions(l, job, n - 1);
      if Attempts(l, job, n - 1) {
        assert PeersAt(job, ps + [n - 1]) == PeersAt(job, ps) + [job.active[job.users[n - 1]]];
      }
    }
  }

  /** The positions are increasing and are all of the attempted ones. */
  lemma {:induction false} AttemptedPositionsExact(l: Ledger, job: Job, n: nat)
    requires n <= |job.users|
    ensures
      var ps := AttemptedPositions(l, job, n);
      && (forall i, j :: 0 <= i < j < |ps| ==> ps[i] < ps[j])
      && (forall i :: 0 <= i < n && Attempts(l, job, i) ==> i in ps)
  {
    if n == 0 {
    } else {
      AttemptedPositionsExact(l, job, n - 1);
      var ps := AttemptedPositions(l, job, n - 1);
      forall i | 0 <= i < n && Attempts(l, job, i) ensures i in AttemptedPositions(l, job, n) {
        if i < n - 1 {
          assert i in ps;
        }
      }
    }
  }

  /** Distinct users with distinct peers are never written to twice. */
  lemma CallsAreDistinct(l: Ledger, job: Job, replies: seq<Reply>)
    requires |replies| == |job.users| && Distinct(job.users)
    requires DistinctPeers(job)
    ensures Distinct(Deliver(l, job, replies).calls)
  {
    hide AttemptedPositions, DeliverTo;
    var calls, ps := Deliver(l, job, replies).calls, AttemptedPositions(l, job, |job.users|);
    DeliverToCalls(l, job, replies, |job.users|);
    AttemptedPositionsExact(l, job, |job.users|);
    forall a, b | 0 <= a < b < |calls| ensures calls[a] != calls[b] {
      assert ps[a] < ps[b];
      assert job.users[ps[a]] != job.users[ps[b]];
    }
  }
}
