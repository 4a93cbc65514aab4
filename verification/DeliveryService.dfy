/**
 One worker processing fetched messages: validate, open a session, run the recipient loop,
 commit or roll back, then acknowledge or not. Exceptions are inputs: a run is told where,
 if anywhere, a statement raises or the task is cancelled.
 */
module DeliveryService {
  import opened Wrappers
  import opened Text
  import opened DeliveryLedger
  import opened DeliveryLoop
  import opened DeliveryCommand
  import opened BindingTables

  const MAX_TEXT := 4096

  /** A parsed payload, before the field validators. */
  datatype RawCommand = RawCommand(event: Uuid, callback: Uuid, listed: seq<Uuid>, text: string)

  datatype Command = Command(event: Uuid, callback: Uuid, users: seq<Uuid>, text: string)

  function Validate(raw: RawCommand): (r: Option<Command>)
    ensures r.Some? <==> raw.listed != [] && |raw.text| <= 4096 && Strip(raw.text) != ""
    ensures r.Some? ==> FirstListingOrder(r.value.users, raw.listed) && r.value.users != []
    ensures r.Some? ==> r.value.event == raw.event && r.value.callback == raw.callback && r.value.text == Strip(raw.text)
  {
    DedupKeepsFirstListings(raw.listed);
    if raw.listed == [] || raw.text == "" || |raw.text| > MAX_TEXT || Strip(raw.text) == "" then None
    else
      assert raw.listed[0] in raw.listed;
      Some(Command(raw.event, raw.callback, Dedup(raw.listed), Strip(raw.text)))
  }

  /** A fetched message; None marks an unparsable payload or a missing or malformed identity header. */
  datatype Msg = Msg(id: nat, payload: Option<RawCommand>, header: Option<Uuid>)

  /** Name-based message identity, left uninterpreted. */
  type Identity = Uuid -> Uuid

  /** A payload that parses, lists somebody, has a text of 1 to 4096 characters that is not blank, and the right identity. */
  ghost predicate Accepted(identity: Identity, msg: Msg) {
    && msg.payload.Some? && msg.header.Some?
    && msg.payload.value.listed != []
    && |msg.payload.value.text| <= 4096 && !AllSpace(msg.payload.value.text)
    && msg.header.value == identity(msg.payload.value.callback)
  }

  /** Where something other than a refused send goes wrong. */
  datatype Fault = NoFault | BeforeRecipient(pos: nat) | AfterSend(pos: nat) | AtCommit

  /** What the world does during one delivery. */
  datatype World = World(replies: seq<Reply>, fault: Fault, cancels: bool)

  function JobOf(bs: Bindings, raw: RawCommand): Job {
    var users := Dedup(raw.listed);
    Job(raw.event, users, Snapshot(bs, users))
  }

  /** There is an answer of the world for each recipient. */
  ghost predicate Answers(world: World, bs: Bindings, msg: Msg) {
    msg.payload.Some? ==> |world.replies| == |JobOf(bs, msg.payload.value).users|
  }

  /** The loop gets to the statement that raises. */
  ghost predicate Strikes(world: World, l: Ledger, job: Job)
    requires |world.replies| == |job.users|
  {
    match world.fault
    case NoFault => false
    case AtCommit => false
    case BeforeRecipient(i) => i < |job.users|
    case AfterSend(i) => i < |job.users| && Attempts(DeliverTo(l, job, world.replies, i).ledger, job, i)
  }

  /** The sends made until then, or all of them. */
  ghost function CallsMade(world: World, l: Ledger, job: Job): seq<int>
    requires |world.replies| == |job.users|
  {
    if !Strikes(world, l, job) then Deliver(l, job, world.replies).calls
    else if world.fault.BeforeRecipient? then DeliverTo(l, job, world.replies, world.fault.pos).calls
    else DeliverTo(l, job, world.replies, world.fault.pos + 1).calls
  }

  /** The peers a message makes the worker write to: none unless it is accepted. */
  ghost function CallsOf(identity: Identity, l: Ledger, msg: Msg, bs: Bindings, world: World): seq<int>
    requires Answers(world, bs, msg)
  {
    if Accepted(identity, msg) then CallsMade(world, l, JobOf(bs, msg.payload.value)) else []
  }

  /** The handler processes the message to its end: it commits. */
  ghost predicate Completes(identity: Identity, l: Ledger, msg: Msg, bs: Bindings, world: World)
    requires Answers(world, bs, msg)
  {
    Accepted(identity, msg) && !world.fault.AtCommit? && !Strikes(world, l, JobOf(bs, msg.payload.value))
  }

  datatype LoopEnd = Finished | Refused | Interrupted

  datatype HandleEnd = Handled | Rejected | Retryable | Crashed | Cancelled

  /** The peers written to, and what was written to each. */
  class Messenger {
    var calls: seq<int>
    var texts: seq<string>

    constructor ()
      ensures calls == [] && texts == []
    {
      calls, texts := [], [];
    }

    method SendMessage(peer: int, text: string, verdict: bool) returns (delivered: bool)
      modifies this
      ensures delivered == verdict && calls == old(calls) + [peer] && texts == old(texts) + [text]
    {
      calls, texts := calls + [peer], texts + [text];
      delivered := verdict;
    }
  }

  /** The same text was sent n times more. */
  ghost predicate SentMore(before: seq<string>, after: seq<string>, n: nat, text: string) {
    |after| == |before| + n && after[..|before|] == before && forall i :: |before| <= i < |after| ==> after[i] == text
  }

  method DeliverCommand(repository: DeliveryRepository, messenger: Messenger, job: Job, text: string, world: World)
    returns (end: LoopEnd)
    requires |world.replies| == |job.users|
    modifies repository, messenger
    ensures end.Interrupted? <==> Strikes(world, old(repository.rows), job)
    ensures messenger.calls == old(messenger.calls) + CallsMade(world, old(repository.rows), job)
    ensures SentMore(old(messenger.texts), messenger.texts, |CallsMade(world, old(repository.rows), job)|, text)
    ensures !end.Interrupted? ==>
              var p := Deliver(old(repository.rows), job, world.replies);
              repository.rows == p.ledger && (end.Refused? <==> p.failed)
  {
    ghost var rows0, calls0 := repository.rows, messenger.calls;
    var failed := false;
    for i := 0 to |job.users|
      invariant world.fault.BeforeRecipient? || world.fault.AfterSend? ==> Strikes(world, rows0, job) ==> i <= world.fault.pos
      invariant repository.rows == DeliverTo(rows0, job, world.replies, i).ledger
      invariant failed == DeliverTo(rows0, job, world.replies, i).failed
      invariant messenger.calls == calls0 + DeliverTo(rows0, job, world.replies, i).calls
      invariant SentMore(old(messenger.texts), messenger.texts, |DeliverTo(rows0, job, world.replies, i).calls|, text)
    {
      if world.fault == BeforeRecipient(i) {
        return Interrupted;
      }
      var user := job.users[i];
      if user in job.active {
        var peer, reply := job.active[user], world.replies[i];
        var claimed := repository.ClaimAttempt(KeyAt(job, i), peer, reply.claimedAt);
        if claimed.Some? {
          var delivered := messenger.SendMessage(peer, text, reply.delivered);
          assert messenger.calls == calls0 + DeliverTo(rows0, job, world.replies, i + 1).calls;
          if world.fault == AfterSend(i) {
            return Interrupted;
          }
          if delivered {
            var _ := repository.MarkSent(KeyAt(job, i), reply.markedAt);
          } else {
            var _ := repository.MarkFailed(KeyAt(job, i), SEND_FAILED, reply.markedAt);
            failed := true;
          }
        }
      }
    }
    return if failed then Refused else Finished;
  }

  /** A message answered with an ack, or with a nak. */
  datatype Settlement = Settlement(id: nat, acked: bool)

  /** Processed to the end, and nobody written to was refused. */
  ghost predicate Acks(identity: Identity, l: Ledger, msg: Msg, bs: Bindings, world: World)
    requires Answers(world, bs, msg)
  {
    Completes(identity, l, msg, bs, world) && AllDelivered(l, JobOf(bs, msg.payload.value), world.replies)
  }

  /** Each listed recipient active in the snapshot has a SENT row. */
  ghost predicate AllSent(l: Ledger, job: Job) {
    forall i :: 0 <= i < |job.users| && job.users[i] in job.active ==> IsSent(l, KeyAt(job, i))
  }

  /** Rows that were SENT are as they were. */
  ghost predicate KeepsSent(before: Ledger, after: Ledger) {
    forall k :: IsSent(before, k) ==> k in after && after[k] == before[k]
  }

  lemma KeepsSentAtOnce(l: Ledger)
    ensures KeepsSent(l, l)
  {
  }

  lemma KeepsSentOn(a: Ledger, b: Ledger, c: Ledger)
    requires KeepsSent(a, b) && KeepsSent(b, c)
    ensures KeepsSent(a, c)
  {
  }

  /** A fetched message, with the bindings and the world its delivery meets. */
  datatype Fetched = Fetched(msg: Msg, bs: Bindings, world: World)

  ghost predicate Answered(batch: seq<Fetched>) {
    forall i :: 0 <= i < |batch| ==> Answers(batch[i].world, batch[i].bs, batch[i].msg)
  }

  /** The rows after the first n messages of a fetch, one delivery after another. */
  ghost function LedgerAfter(identity: Identity, l: Ledger, batch: seq<Fetched>, n: nat): Ledger
    requires Answered(batch) && n <= |batch|
  {
    if n == 0 then l
    else
      var before, f := LedgerAfter(identity, l, batch, n - 1), batch[n - 1];
      if Completes(identity, before, f.msg, f.bs, f.world)
      then Deliver(before, JobOf(f.bs, f.msg.payload.value), f.world.replies).ledger else before
  }

  /** The peers written to by then; a cancelled message may have come some way. */
  ghost function CallsAfter(identity: Identity, l: Ledger, batch: seq<Fetched>, n: nat): seq<int>
    requires Answered(batch) && n <= |batch|
  {
    if n == 0 then []
    else
      var before, f := LedgerAfter(identity, l, batch, n - 1), batch[n - 1];
      CallsAfter(identity, l, batch, n - 1) + CallsOf(identity, before, f.msg, f.bs, f.world)
  }

  /** Message i is acknowledged, given the rows it finds. */
  ghost predicate AckedAt(identity: Identity, l: Ledger, batch: seq<Fetched>, i: nat)
    requires Answered(batch) && i < |batch|
  {
    Acks(identity, LedgerAfter(identity, l, batch, i), batch[i].msg, batch[i].bs, batch[i].world)
  }

  /** One answer per message, in order. */
  ghost function AnswersUpTo(identity: Identity, l: Ledger, batch: seq<Fetched>, n: nat): (answers: seq<Settlement>)
    requires Answered(batch) && n <= |batch|
    ensures |answers| == n
    ensures forall i :: 0 <= i < n ==> answers[i].id == batch[i].msg.id && (answers[i].acked <==> AckedAt(identity, l, batch, i))
  {
    if n == 0 then []
    else AnswersUpTo(identity, l, batch, n - 1) + [Settlement(batch[n - 1].msg.id, AckedAt(identity, l, batch, n - 1))]
  }

  ghost predicate CancelledAt(identity: Identity, l: Ledger, batch: seq<Fetched>, i: nat)
    requires Answered(batch) && i < |batch|
  {
    && Accepted(identity, batch[i].msg) && batch[i].world.cancels
    && !Completes(identity, LedgerAfter(identity, l, batch, i), batch[i].msg, batch[i].bs, batch[i].world)
  }

  lemma StripsToNothing(s: string)
    ensures Strip(s) == "" <==> AllSpace(s)
  {
    SplitStrip(s);
    NoWords(s);
  }

  /** `ledger` is what the database holds between transactions. */
  class Worker {
    var ledger: Ledger
    var settled: seq<Settlement>
    const messenger: Messenger
    const identity: Identity

    constructor (ledger: Ledger, messenger: Messenger, identity: Identity)
      ensures this.ledger == ledger && this.settled == [] && this.messenger == messenger && this.identity == identity
    {
      this.ledger, this.settled, this.messenger, this.identity := ledger, [], messenger, identity;
    }

    /** Commit after success and after a retryable refusal, roll back after anything else. */
    method Handle(msg: Msg, bs: Bindings, world: World) returns (end: HandleEnd)
      requires Answers(world, bs, msg)
      modifies this`ledger, messenger
      ensures end.Rejected? <==> !Accepted(identity, msg)
      ensures end.Handled? || end.Retryable? <==> Completes(identity, old(ledger), msg, bs, world)
      ensures end.Cancelled? <==> Accepted(identity, msg) && !Completes(identity, old(ledger), msg, bs, world) && world.cancels
      ensures messenger.calls == old(messenger.calls) + CallsOf(identity, old(ledger), msg, bs, world)
      ensures Accepted(identity, msg) ==>
                SentMore(old(messenger.texts), messenger.texts, |CallsOf(identity, old(ledger), msg, bs, world)|,
                         Strip(msg.payload.value.text))
      ensures !(end.Handled? || end.Retryable?) ==> ledger == old(ledger)
      ensures end.Handled? || end.Retryable? ==>
                var p := Deliver(old(ledger), JobOf(bs, msg.payload.value), world.replies);
                ledger == p.ledger && (end.Retryable? <==> p.failed)
    {
      if msg.payload.None? || msg.header.None? {
        return Rejected;
      }
      StripsToNothing(msg.payload.value.text);
      var command := Validate(msg.payload.value);
      if command.None? || msg.header.value != identity(msg.payload.value.callback) {
        return Rejected;
      }
      DedupKeepsFirstListings(msg.payload.value.listed);
      FirstListingOrderIsUnique(command.value.users, Dedup(msg.payload.value.listed), msg.payload.value.listed);
      var job := Job(command.value.event, command.value.users, Snapshot(bs, command.value.users));
      var session := new DeliveryRepository(ledger);
      var loop := DeliverCommand(session, messenger, job, command.value.text, world);
      if loop.Interrupted? || world.fault.AtCommit? {
        return if world.cancels then Cancelled else Crashed;
      }
      ledger := session.rows;
      return if loop.Refused? then Retryable else Handled;
    }

    /**
     One acknowledgement or one negative one, unless the task is cancelled in between. A message
     processed to its end writes to each attempted recipient once, in order, records every
     verdict, and is acked exactly when nobody was refused; any other leaves the ledger alone.
     */
    method ProcessMessage(msg: Msg, bs: Bindings, world: World) returns (end: HandleEnd)
      requires Answers(world, bs, msg)
      modifies this`ledger, this`settled, messenger
      ensures end.Cancelled? <==> Accepted(identity, msg) && !Completes(identity, old(ledger), msg, bs, world) && world.cancels
      ensures end.Cancelled? ==> settled == old(settled)
      ensures !end.Cancelled? ==>
                settled == old(settled) + [Settlement(msg.id, Acks(identity, old(ledger), msg, bs, world))]
      ensures messenger.calls == old(messenger.calls) + CallsOf(identity, old(ledger), msg, bs, world)
      ensures Accepted(identity, msg) ==>
                SentMore(old(messenger.texts), messenger.texts, |CallsOf(identity, old(ledger), msg, bs, world)|,
                         Strip(msg.payload.value.text))
      ensures !Accepted(identity, msg) ==> messenger.calls == old(messenger.calls)
      ensures !Completes(identity, old(ledger), msg, bs, world) ==> ledger == old(ledger)
      ensures Completes(identity, old(ledger), msg, bs, world) ==>
                var job := JobOf(bs, msg.payload.value);
                && messenger.calls == old(messenger.calls) + PeersAt(job, AttemptedPositions(old(ledger), job, |job.users|))
                && Recorded(old(ledger), ledger, job, world.replies)
                && ledger == Deliver(old(ledger), job, world.replies).ledger
      ensures Acks(identity, old(ledger), msg, bs, world) ==> AllSent(ledger, JobOf(bs, msg.payload.value))
      ensures KeepsSent(old(ledger), ledger)
    {
      ghost var before := ledger;
      end := Handle(msg, bs, world);
      if end.Handled? || end.Retryable? {
        ghost var job := JobOf(bs, msg.payload.value);
        DedupKeepsFirstListings(msg.payload.value.listed);
        DeliveryIsRecorded(before, job, world.replies);
        DeliverToCalls(before, job, world.replies, |job.users|);
        forall k | IsSent(before, k) ensures k in ledger && ledger[k] == before[k] {
          SentRowsStay(before, job, world.replies, |job.users|, k);
        }
        if end.Handled? {
          forall i | 0 <= i < |job.users| && job.users[i] in job.active ensures IsSent(ledger, KeyAt(job, i)) {
            UnfailedRunSends(before, job, world.replies, i);
          }
        }
      }
      if !end.Cancelled? {
        settled := settled + [Settlement(msg.id, end.Handled?)];
      }
    }

    /**
     The messages of one fetch, in order, until a cancellation: each finds the rows the ones
     before it left, and is answered once, by its own acknowledgement rule.
     */
    method ProcessBatch(batch: seq<Fetched>) returns (done: nat)
      requires Answered(batch)
      modifies this`ledger, this`settled, messenger
      ensures done <= |batch|
      ensures forall i :: 0 <= i < done ==> !CancelledAt(identity, old(ledger), batch, i)
      ensures done < |batch| ==> CancelledAt(identity, old(ledger), batch, done)
      ensures ledger == LedgerAfter(identity, old(ledger), batch, done)
      ensures messenger.calls ==
              old(messenger.calls) + CallsAfter(identity, old(ledger), batch, if done < |batch| then done + 1 else done)
      ensures settled == old(settled) + AnswersUpTo(identity, old(ledger), batch, done)
      ensures KeepsSent(old(ledger), ledger)
    {
      hide *;
      ghost var l, calls, answers := ledger, messenger.calls, settled;
      KeepsSentAtOnce(l);
      BatchStart(identity, l, batch);
      done := 0;
      while done < |batch|
        invariant done <= |batch|
        invariant forall i :: 0 <= i < done ==> !CancelledAt(identity, l, batch, i)
        invariant ledger == LedgerAfter(identity, l, batch, done)
        invariant messenger.calls == calls + CallsAfter(identity, l, batch, done)
        invariant settled == answers + AnswersUpTo(identity, l, batch, done)
        invariant KeepsSent(l, ledger)
      {
        var f := batch[done];
        ghost var before := ledger;
        BatchStep(identity, l, batch, done, calls, answers);
        var end := ProcessMessage(f.msg, f.bs, f.world);
        KeepsSentOn(l, before, ledger);
        if end.Cancelled? {
          return;
        }
        done := done + 1;
      }
    }
  }

  lemma BatchStart(identity: Identity, l: Ledger, batch: seq<Fetched>)
    requires Answered(batch)
    ensures LedgerAfter(identity, l, batch, 0) == l
    ensures CallsAfter(identity, l, batch, 0) == [] && AnswersUpTo(identity, l, batch, 0) == []
  {
  }

  /** What one more message adds, as the method sees it. */
  lemma BatchStep(identity: Identity, l: Ledger, batch: seq<Fetched>, i: nat, calls: seq<int>, answers: seq<Settlement>)
    requires Answered(batch) && i < |batch|
    ensures
      var f, before := batch[i], LedgerAfter(identity, l, batch, i);
      && Answers(f.world, f.bs, f.msg)
      && (!Completes(identity, before, f.msg, f.bs, f.world) ==> LedgerAfter(identity, l, batch, i + 1) == before)
      && (Completes(identity, before, f.msg, f.bs, f.world) ==>
            && f.msg.payload.Some? && |f.world.replies| == |JobOf(f.bs, f.msg.payload.value).users|
            && LedgerAfter(identity, l, batch, i + 1)
               == Deliver(before, JobOf(f.bs, f.msg.payload.value), f.world.replies).ledger)
      && (CancelledAt(identity, l, batch, i) <==>
            Accepted(identity, f.msg) && !Completes(identity, before, f.msg, f.bs, f.world) && f.world.cancels)
      && calls + CallsAfter(identity, l, batch, i + 1)
         == (calls + CallsAfter(identity, l, batch, i)) + CallsOf(identity, before, f.msg, f.bs, f.world)
      && answers + AnswersUpTo(identity, l, batch, i + 1)
         == (answers + AnswersUpTo(identity, l, batch, i)) + [Settlement(f.msg.id, Acks(identity, before, f.msg, f.bs, f.world))]
  {
    hide Deliver, CallsOf, Acks, JobOf;
  }

  /** A SENT row is not claimed again. */
  lemma {:induction false} SentRowsStay(l: Ledger, job: Job, replies: seq<Reply>, n: nat, k: Key)
    requires n <= |job.users| && n <= |replies| && IsSent(l, k)
    ensures Lookup(DeliverTo(l, job, replies, n).ledger, k) == Some(l[k])
  {
    if n == 0 {
    } else {
      SentRowsStay(l, job, replies, n - 1, k);
    }
  }

  /** Some listed recipient of the event, live and ACTIVE with this peer, has no SENT row yet. */
  ghost predicate Owed(l: Ledger, bs: Bindings, raw: RawCommand, peer: int) {
    exists b :: 0 <= b < |bs| && bs[b].user in raw.listed && Reachable(bs[b], bs[b].user)
                && bs[b].peer == Some(peer) && !IsSent(l, Key(raw.event, bs[b].user))
  }

  /**
   The peers one delivery writes to: no peer twice; exactly the peers of listed users with a
   live ACTIVE binding and no SENT row; in the order in which their users were first listed.
   */
  lemma PeersWrittenTo(l: Ledger, bs: Bindings, raw: RawCommand, replies: seq<Reply>)
    requires UniqueLive(bs) && |replies| == |JobOf(bs, raw).users|
    ensures
      var job := JobOf(bs, raw);
      var calls, ps := Deliver(l, job, replies).calls, AttemptedPositions(l, job, |job.users|);
      && Distinct(calls)
      && (forall p :: p in calls <==> Owed(l, bs, raw, p))
      && FirstListingOrder(job.users, raw.listed)
      && |calls| == |ps| && (forall i, j :: 0 <= i < j < |ps| ==> ps[i] < ps[j])
      && (forall j :: 0 <= j < |ps| ==> calls[j] == job.active[job.users[ps[j]]])
  {
    hide Snapshot, AttemptedPositions, DeliverTo, Attempts, Owed;
    var job := JobOf(bs, raw);
    DedupKeepsFirstListings(raw.listed);
    SnapshotExact(bs, job.users);
    DeliverToCalls(l, job, replies, |job.users|);
    AttemptedPositionsExact(l, job, |job.users|);
    CallsAreDistinct(l, job, replies);
    var calls, ps := Deliver(l, job, replies).calls, AttemptedPositions(l, job, |job.users|);
    forall p ensures p in calls <==> Owed(l, bs, raw, p) {
      if p in calls {
        var j :| 0 <= j < |calls| && calls[j] == p;
        OwedWhenAttempted(l, bs, raw, ps[j]);
      }
      if Owed(l, bs, raw, p) {
        var i := AttemptedWhenOwed(l, bs, raw, p);
        var j :| 0 <= j < |ps| && ps[j] == i;
        assert calls[j] == p;
      }
    }
  }

  lemma OwedWhenAttempted(l: Ledger, bs: Bindings, raw: RawCommand, i: nat)
    requires UniqueLive(bs) && i < |JobOf(bs, raw).users| && Attempts(l, JobOf(bs, raw), i)
    ensures
      var job := JobOf(bs, raw);
      Owed(l, bs, raw, job.active[job.users[i]])
  {
    var job := JobOf(bs, raw);
    var u := job.users[i];
    DedupKeepsFirstListings(raw.listed);
    SnapshotExact(bs, job.users);
    assert u in raw.listed;
    var b :| 0 <= b < |bs| && Reachable(bs[b], u);
    assert bs[b].peer == Some(job.active[u]);
  }

  lemma AttemptedWhenOwed(l: Ledger, bs: Bindings, raw: RawCommand, peer: int) returns (i: nat)
    requires UniqueLive(bs) && Owed(l, bs, raw, peer)
    ensures
      var job := JobOf(bs, raw);
      i < |job.users| && Attempts(l, job, i) && job.active[job.users[i]] == peer
  {
    var job := JobOf(bs, raw);
    DedupKeepsFirstListings(raw.listed);
    SnapshotExact(bs, job.users);
    var b :| 0 <= b < |bs| && bs[b].user in raw.listed && Reachable(bs[b], bs[b].user)
             && bs[b].peer == Some(peer) && !IsSent(l, Key(raw.event, bs[b].user));
    var u := bs[b].user;
    assert u in job.users;
    i :| 0 <= i < |job.users| && job.users[i] == u;
    assert Reachable(bs[b], u);
  }
}
