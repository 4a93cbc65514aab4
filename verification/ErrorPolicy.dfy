/** How failures of the NATS connection are reported: once per outage, after a patience. */
module ErrorPolicy {

  datatype Event = Failed | Disconnected | Reconnected | Closed | Reset

  datatype Level = Info | Warning | Error

  /** `reports` counts the error-level records. */
  datatype State = State(failures: nat, escalated: bool, reports: nat)

  function Step(patience: nat, s: State, e: Event): State {
    match e
    case Failed =>
      var n := s.failures + 1;
      if n > patience && !s.escalated then State(n, true, s.reports + 1) else s.(failures := n)
    case Disconnected => s
    case Closed => s
    case Reconnected => State(0, false, s.reports)
    case Reset => State(0, false, s.reports)
  }

  function Run(patience: nat, events: seq<Event>): State {
    if events == [] then State(0, false, 0)
    else Step(patience, Run(patience, events[..|events| - 1]), events[|events| - 1])
  }

  class ConnectionErrorPolicy {
    const patience: nat
    var consecutiveFailures: nat
    var escalated: bool

    constructor (patience: nat)
      ensures this.patience == patience && consecutiveFailures == 0 && !escalated
    {
      this.patience := patience;
      consecutiveFailures, escalated := 0, false;
    }

    method ResetCounters()
      modifies this
      ensures consecutiveFailures == 0 && !escalated
    {
      consecutiveFailures, escalated := 0, false;
    }

    method OnError() returns (level: Level)
      modifies this
      ensures forall reports: nat ::
                var s := Step(patience, State(old(consecutiveFailures), old(escalated), reports), Failed);
                && consecutiveFailures == s.failures && escalated == s.escalated
                && s.reports == reports + if level == Error then 1 else 0
      ensures level == Error || level == Warning
    {
      consecutiveFailures := consecutiveFailures + 1;
      if consecutiveFailures > patience && !escalated {
        escalated := true;
        return Error;
      }
      return Warning;
    }

    method OnReconnected() returns (level: Level)
      modifies this
      ensures consecutiveFailures == 0 && !escalated && level == Info
    {
      ResetCounters();
      return Info;
    }
  }

  /** Failures per stretch, a stretch being what lies between two resets or reconnects. */
  function Stretches(events: seq<Event>): (counts: seq<nat>)
    ensures counts != []
  {
    if events == [] then [0]
    else
      var counts, e := Stretches(events[..|events| - 1]), events[|events| - 1];
      var n := |counts| - 1;
      match e
      case Failed => counts[n := counts[n] + 1]
      case Reconnected => counts + [0]
      case Reset => counts + [0]
      case Disconnected => counts
      case Closed => counts
  }

  function LongStretches(counts: seq<nat>, patience: nat): nat {
    if counts == [] then 0
    else
      var n := |counts| - 1;
      LongStretches(counts[..n], patience) + if counts[n] > patience then 1 else 0
  }

  /**
   One error-level report for each stretch with more than `patience` failures and none
   otherwise; the counter holds the failures since the last reset.
   */
  lemma {:induction false} OneReportPerOutage(patience: nat, events: seq<Event>)
    ensures
      var s, counts := Run(patience, events), Stretches(events);
      && s.reports == LongStretches(counts, patience)
      && s.failures == counts[|counts| - 1]
      && (s.escalated <==> s.failures > patience)
  {
    if events != [] {
      var n := |events| - 1;
      OneReportPerOutage(patience, events[..n]);
      var before, counts := Stretches(events[..n]), Stretches(events);
      assert counts == before + [0] ==> counts[..|before|] == before;
      assert |counts| == |before| ==> counts[..|before| - 1] == before[..|before| - 1];
    } else {
      assert [0][..0] == [];
    }
  }
}
