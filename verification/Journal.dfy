/**
 The VK action journal and the failed-attempt count taken over it. An entry keeps what the
 count looks at: action, status, the peer named in the details, and the row's timestamp.
 */
module Journal {
  import opened Wrappers

  datatype Action = Confirmation | IssueCode | Unlink | MessageDeny | MessageAllow | Message

  datatype Verdict =
    | Success | AlreadyConfirmed
    | NotFound | Used | Expired | PeerConflict
    | RateLimited | ErrorVerdict
    | ConflictActive | ConflictBlocked | Noop | NoBinding
    | IgnoredChat | UnknownCommand | MissingCode

  datatype Entry = Entry(action: Action, verdict: Verdict, peer: Option<int>, at: int)

  /** The statuses the limiter counts. */
  const FAILED_VERDICTS: set<Verdict> := {NotFound, Used, Expired, PeerConflict}

  predicate CountedFor(e: Entry, peer: int) {
    e.action == Confirmation && e.verdict in FAILED_VERDICTS && e.peer == Some(peer)
  }

  /** Timestamps of the failures counted for a peer, oldest row first. */
  function FailureTimes(journal: seq<Entry>, peer: int): seq<int> {
    if journal == [] then []
    else
      var n := |journal| - 1;
      FailureTimes(journal[..n], peer) + (if CountedFor(journal[n], peer) then [journal[n].at] else [])
  }

  function CountBetween(times: seq<int>, from: int, upTo: int): nat {
    if times == [] then 0
    else
      var n := |times| - 1;
      CountBetween(times[..n], from, upTo) + if from <= times[n] <= upTo then 1 else 0
  }

  function CountSince(times: seq<int>, since: int): nat {
    if times == [] then 0
    else
      var n := |times| - 1;
      CountSince(times[..n], since) + if times[n] >= since then 1 else 0
  }

  function CountFailedSince(journal: seq<Entry>, peer: int, since: int): nat {
    CountSince(FailureTimes(journal, peer), since)
  }

  /** Failures counted for a peer inside the closed window that starts at `from`. */
  function InWindow(journal: seq<Entry>, peer: int, from: int, window: int): nat {
    CountBetween(FailureTimes(journal, peer), from, from + window)
  }

  /** The limiter's decision at a clock reading. */
  predicate Refuses(journal: seq<Entry>, peer: int, check: int, window: int, maxAttempts: nat) {
    CountFailedSince(journal, peer, check - window) >= maxAttempts
  }

  lemma FailureTimesAppend(journal: seq<Entry>, e: Entry, peer: int)
    ensures FailureTimes(journal + [e], peer) == FailureTimes(journal, peer) + if CountedFor(e, peer) then [e.at] else []
  {
    assert (journal + [e])[..|journal|] == journal;
  }

  lemma CountAppend(times: seq<int>, t: int, from: int, upTo: int)
    ensures CountSince(times + [t], from) == CountSince(times, from) + if t >= from then 1 else 0
    ensures CountBetween(times + [t], from, upTo) == CountBetween(times, from, upTo) + if from <= t <= upTo then 1 else 0
  {
    assert (times + [t])[..|times|] == times;
  }

  /** A window's failures are among those since any earlier moment. */
  lemma {:induction false} WindowWithinSince(times: seq<int>, from: int, upTo: int, since: int)
    requires since <= from
    ensures CountBetween(times, from, upTo) <= CountSince(times, since)
  {
    if times == [] {
    } else {
      WindowWithinSince(times[..|times| - 1], from, upTo, since);
    }
  }

  /** Rows that do not count for the peer leave its failures as they are, however many. */
  lemma {:induction false} UncountedRowsDoNotMatter(journal: seq<Entry>, more: seq<Entry>, peer: int)
    requires forall i :: 0 <= i < |more| ==> !CountedFor(more[i], peer)
    ensures FailureTimes(journal + more, peer) == FailureTimes(journal, peer)
  {
    if more == [] {
      assert journal + more == journal;
    } else {
      var n := |more| - 1;
      UncountedRowsDoNotMatter(journal, more[..n], peer);
      assert journal + more == (journal + more[..n]) + [more[n]];
      FailureTimesAppend(journal + more[..n], more[n], peer);
    }
  }

  /** The rows of a peer's failed confirmations in a stretch of time. */
  ghost function FailedRows(journal: seq<Entry>, peer: int, from: int): set<int> {
    set i | 0 <= i < |journal|
            && journal[i].action == Confirmation && journal[i].verdict in {NotFound, Used, Expired, PeerConflict}
            && journal[i].peer == Some(peer) && journal[i].at >= from
  }

  lemma FailedRowsStep(journal: seq<Entry>, peer: int, from: int)
    requires journal != []
    ensures
      var n := |journal| - 1;
      var e := journal[n];
      |FailedRows(journal, peer, from)| == |FailedRows(journal[..n], peer, from)| + if CountedFor(e, peer) && e.at >= from then 1 else 0
  {
    var n := |journal| - 1;
    var before := FailedRows(journal[..n], peer, from);
    var e := journal[n];
    assert FailedRows(journal, peer, from) == if CountedFor(e, peer) && e.at >= from then before + {n} else before;
  }

  /** The limiter's count is the number of those rows; it refuses exactly when there are enough. */
  lemma {:induction false} RefusesByRows(journal: seq<Entry>, peer: int, check: int, window: int, maxAttempts: nat)
    ensures CountFailedSince(journal, peer, check - window) == |FailedRows(journal, peer, check - window)|
    ensures Refuses(journal, peer, check, window, maxAttempts) <==> |FailedRows(journal, peer, check - window)| >= maxAttempts
  {
    if journal == [] {
    } else {
      hide FailedRows, CountedFor;
      var n := |journal| - 1;
      RefusesByRows(journal[..n], peer, check, window, maxAttempts);
      FailedRowsStep(journal, peer, check - window);
      var times := FailureTimes(journal[..n], peer);
      assert times + [] == times;
      CountAppend(times, journal[n].at, check - window, check);
    }
  }

  /** The rows among them up to a moment are what a window counts. */
  lemma {:induction false} WindowByRows(journal: seq<Entry>, peer: int, from: int, window: nat)
    ensures InWindow(journal, peer, from, window) + |FailedRows(journal, peer, from + window + 1)| == |FailedRows(journal, peer, from)|
  {
    if journal == [] {
    } else {
      hide FailedRows, CountedFor;
      var n := |journal| - 1;
      WindowByRows(journal[..n], peer, from, window);
      FailedRowsStep(journal, peer, from);
      FailedRowsStep(journal, peer, from + window + 1);
      var times := FailureTimes(journal[..n], peer);
      assert times + [] == times;
      CountAppend(times, journal[n].at, from, from + window);
    }
  }

  /** Insertion into a list ordered from the most recent down. */
  function Insert(t: int, newestFirst: seq<int>): seq<int> {
    if newestFirst == [] || t >= newestFirst[0] then [t] + newestFirst
    else [newestFirst[0]] + Insert(t, newestFirst[1..])
  }

  function NewestFirst(times: seq<int>): seq<int> {
    if times == [] then []
    else Insert(times[|times| - 1], NewestFirst(times[..|times| - 1]))
  }

  ghost predicate Descending(s: seq<int>) {
    forall i, j :: 0 <= i < j < |s| ==> s[i] >= s[j]
  }

  lemma {:induction false} InsertBelow(t: int, s: seq<int>, top: int)
    requires t <= top && forall i :: 0 <= i < |s| ==> s[i] <= top
    ensures forall i :: 0 <= i < |Insert(t, s)| ==> Insert(t, s)[i] <= top
  {
    if s == [] || t >= s[0] {
    } else {
      InsertBelow(t, s[1..], top);
    }
  }

  lemma {:induction false} InsertDescends(t: int, s: seq<int>)
    requires Descending(s)
    ensures Descending(Insert(t, s))
  {
    if s == [] || t >= s[0] {
    } else {
      InsertDescends(t, s[1..]);
      InsertBelow(t, s[1..], s[0]);
    }
  }

  lemma {:induction false} InsertPermutes(t: int, s: seq<int>)
    ensures multiset(Insert(t, s)) == multiset(s) + multiset{t}
  {
    if s == [] {
    } else {
      assert s == [s[0]] + s[1..];
      if t < s[0] { InsertPermutes(t, s[1..]); }
    }
  }

  lemma {:induction false} NewestFirstSorts(times: seq<int>)
    ensures Descending(NewestFirst(times)) && multiset(NewestFirst(times)) == multiset(times)
  {
    hide Insert;
    if times == [] {
    } else {
      var n := |times| - 1;
      NewestFirstSorts(times[..n]);
      InsertDescends(times[n], NewestFirst(times[..n]));
      InsertPermutes(times[n], NewestFirst(times[..n]));
      assert times == times[..n] + [times[n]];
    }
  }

  lemma {:induction false} CountSplit(a: seq<int>, b: seq<int>, since: int)
    ensures CountSince(a + b, since) == CountSince(a, since) + CountSince(b, since)
  {
    if b == [] {
      assert a + b == a;
    } else {
      var n := |b| - 1;
      CountSplit(a, b[..n], since);
      assert a + b == (a + b[..n]) + [b[n]];
      CountAppend(a + b[..n], b[n], since, since);
    }
  }

  lemma {:induction false} InsertCounts(t: int, s: seq<int>, since: int)
    ensures CountSince(Insert(t, s), since) == CountSince(s, since) + if t >= since then 1 else 0
  {
    if s == [] || t >= s[0] {
      CountSplit([t], s, since);
      assert [t][..0] == [];
    } else {
      InsertCounts(t, s[1..], since);
      CountSplit([s[0]], Insert(t, s[1..]), since);
      CountSplit([s[0]], s[1..], since);
      assert s == [s[0]] + s[1..];
    }
  }

  lemma {:induction false} NewestFirstCounts(times: seq<int>, since: int)
    ensures CountSince(NewestFirst(times), since) == CountSince(times, since)
  {
    if times == [] {
    } else {
      NewestFirstCounts(times[..|times| - 1], since);
      InsertCounts(times[|times| - 1], NewestFirst(times[..|times| - 1]), since);
    }
  }

  lemma {:induction false} CountDescending(s: seq<int>, since: int, m: nat)
    requires Descending(s) && m >= 1
    ensures CountSince(s, since) <= |s|
    ensures CountSince(s, since) >= m <==> |s| >= m && s[m - 1] >= since
  {
    if s == [] {
    } else {
      var n := |s| - 1;
      CountDescending(s[..n], since, m);
      if s[n] >= since { AllSince(s, since); } else if |s| == m { CountDescending(s[..n], since, 1); }
    }
  }

  lemma {:induction false} AllSince(s: seq<int>, since: int)
    requires forall i :: 0 <= i < |s| ==> s[i] >= since
    ensures CountSince(s, since) == |s|
  {
    if s == [] {
    } else {
      AllSince(s[..|s| - 1], since);
    }
  }

  /**
   Limiter recovery: an attempt is refused exactly when the peer has `maxAttempts` counted
   failures and the `maxAttempts`-th most recent of them is no older than the window.
   */
  lemma RefusedIffRecent(journal: seq<Entry>, peer: int, check: int, window: int, maxAttempts: nat)
    requires maxAttempts >= 1
    ensures
      var recent := NewestFirst(FailureTimes(journal, peer));
      Refuses(journal, peer, check, window, maxAttempts) <==>
      |recent| >= maxAttempts && check <= recent[maxAttempts - 1] + window
  {
    var times := FailureTimes(journal, peer);
    NewestFirstSorts(times);
    NewestFirstCounts(times, check - window);
    CountDescending(NewestFirst(times), check - window, maxAttempts);
  }

  /** Refusals, `error` rows and other peers' rows move the moment of readmission by nothing. */
  lemma ReadmissionIsUnmoved(journal: seq<Entry>, more: seq<Entry>, peer: int, check: int, window: int, maxAttempts: nat)
    requires forall i :: 0 <= i < |more| ==>
                           || more[i].action != Confirmation || more[i].peer != Some(peer)
                           || more[i].verdict !in {NotFound, Used, Expired, PeerConflict}
    ensures Refuses(journal + more, peer, check, window, maxAttempts) <==> Refuses(journal, peer, check, window, maxAttempts)
  {
    UncountedRowsDoNotMatter(journal, more, peer);
  }
}
