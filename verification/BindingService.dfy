/**
 The binding domain as the program runs it: one object over the three tables, repository
 statements that update rows in place, and services that call them one after another.
 Each service method is proved to leave the tables as its operation in `BindingOps` does.
 */
module BindingService {
  import opened Wrappers
  import opened DeliveryLedger
  import opened Journal
  import opened LinkCommand
  import opened BindingTables
  import opened BindingOps

  datatype Activation = Bound | RowMissing | PeerInUse

  /**
   What other requests have committed by the time a statement reads the tables again, in a
   session that has written nothing itself: at an insert, and at the reread after a lost one.
   */
  datatype Meanwhile = Meanwhile(atInsert: Db, atReread: Db)

  /** The tables an ensure works on in the end. */
  function EnsureBase(db: Db, user: Uuid, others: Meanwhile): Db {
    if FindUser(db.bindings, user).Some? then db
    else if FindUser(others.atInsert.bindings, user).None? then others.atInsert
    else others.atReread
  }

  /** Somebody inserted the owner's row first, and somebody removed it again before the reread. */
  predicate Contended(db: Db, user: Uuid, others: Meanwhile) {
    && FindUser(db.bindings, user).None? && FindUser(others.atInsert.bindings, user).Some?
    && FindUser(others.atReread.bindings, user).None?
  }

  /** The activation and what follows it, on the tables of that moment. */
  function ActivateOn(db: Db, typed: string, user: Uuid, row: nat, peer: int, profile: Profile, clock: Clock): (Db, Confirmed) {
    if row >= |db.bindings| || !Live(db.bindings[row]) then (db, RowVanished)
    else if exists i :: 0 <= i < |db.bindings| && i != row && LivePeer(db.bindings[i], peer) then
      (Log(db, Confirmation, PeerConflict, Some(peer), clock.at), PeerTaken)
    else
      var code, bound := NormalizeCode(typed), Activated(db.bindings[row], peer, profile.screenName, profile.displayName);
      var codes := if code in db.codes then db.codes[code := db.codes[code].(usedAt := Some(clock.now))] else db.codes;
      (Log(Db(db.bindings[row := bound], codes, db.journal), Confirmation, Success, Some(peer), clock.at),
       Linked(user, row))
  }

  /** A confirmation that reads db, but finds `seen` when it comes to the activation. */
  function ConfirmThrough(db: Db, seen: Db, cfg: Config, typed: string, peer: int, profile: Profile, clock: Clock): (Db, Confirmed) {
    var (d, outcome) := Confirm(db, cfg, typed, peer, profile, clock);
    if outcome.Linked? then ActivateOn(seen, typed, outcome.user, outcome.row, peer, profile, clock) else (d, outcome)
  }

  /** Left alone, it is the confirmation of one atomic step. */
  lemma ConfirmAlone(db: Db, cfg: Config, typed: string, peer: int, profile: Profile, clock: Clock)
    requires UniqueLive(db.bindings)
    ensures ConfirmThrough(db, db, cfg, typed, peer, profile, clock) == Confirm(db, cfg, typed, peer, profile, clock)
  {
    hide Refuses, NormalizeCode;
    var (d, outcome) := Confirm(db, cfg, typed, peer, profile, clock);
    if outcome.Linked? {
      PeerFree(db.bindings, peer, outcome.row);
    }
  }

  /**
   A confirmation that straddles other requests ends like one that began after them, if they
   left its code and row alone and the peer under the limit: a lost race for the peer is
   journalled and answered like a peer found taken, a won one links.
   */
  lemma StraddlingConfirm(db: Db, seen: Db, cfg: Config, typed: string, peer: int, profile: Profile, clock: Clock)
    requires UniqueLive(seen.bindings) && Confirm(db, cfg, typed, peer, profile, clock).1.Linked?
    requires
      var row := Confirm(db, cfg, typed, peer, profile, clock).1.row;
      row < |seen.bindings| && Live(seen.bindings[row]) && seen.bindings[row].user == db.bindings[row].user
    requires NormalizeCode(typed) in seen.codes && seen.codes[NormalizeCode(typed)] == db.codes[NormalizeCode(typed)]
    requires !Refuses(seen.journal, peer, clock.check, cfg.window, cfg.maxAttempts)
    ensures ConfirmThrough(db, seen, cfg, typed, peer, profile, clock) == Confirm(seen, cfg, typed, peer, profile, clock)
  {
    hide Refuses, NormalizeCode;
    var row := Confirm(db, cfg, typed, peer, profile, clock).1.row;
    if FindPeer(seen.bindings, peer).None? || FindPeer(seen.bindings, peer) == Some(row) {
      PeerFree(seen.bindings, peer, row);
    }
  }

  class VkService {
    const cfg: Config
    var bindings: Bindings
    var codes: Codes
    var journal: seq<Entry>
    var committed: Db

    constructor (cfg: Config)
      ensures this.cfg == cfg && Tables() == EMPTY && Valid() && Clean()
    {
      this.cfg := cfg;
      bindings, codes, journal, committed := [], map[], [], EMPTY;
    }

    function Tables(): Db
      reads this
    {
      Db(bindings, codes, journal)
    }

    /** What the database itself enforces. */
    ghost predicate Valid()
      reads this
    {
      UniqueLive(bindings) && UniqueLive(committed.bindings)
    }

    /** The session has nothing to commit. */
    ghost predicate Clean()
      reads this
    {
      Tables() == committed
    }

    method Commit()
      modifies this`committed
      ensures committed == Tables()
    {
      committed := Db(bindings, codes, journal);
    }

    method Rollback()
      modifies this`bindings, this`codes, this`journal
      ensures Tables() == committed
    {
      bindings, codes, journal := committed.bindings, committed.codes, committed.journal;
    }

    /** None stands for the unique-index violation on a second live row of the owner, which ends the session's work. */
    method Create(user: Uuid) returns (row: Option<nat>)
      requires Valid()
      modifies this`bindings, this`codes, this`journal
      ensures Valid()
      ensures row.None? <==> exists i :: 0 <= i < |old(bindings)| && LiveUser(old(bindings)[i], user)
      ensures row.None? ==> Tables() == committed
      ensures row.Some? ==> row.value == |old(bindings)|
      ensures row.Some? ==> Tables() == old(Tables()).(bindings := old(bindings) + [NewBinding(user)])
    {
      if FindUser(bindings, user).Some? {
        Rollback();
        return None;
      }
      bindings := bindings + [NewBinding(user)];
      return Some(|bindings| - 1);
    }

    /** A violation of the index over peers likewise ends the session's work. */
    method Activate(row: nat, peer: int, profile: Profile) returns (result: Activation)
      requires Valid()
      modifies this`bindings, this`codes, this`journal
      ensures Valid()
      ensures result.RowMissing? <==> row >= |old(bindings)| || !Live(old(bindings)[row])
      ensures result.PeerInUse? ==> exists i :: 0 <= i < |old(bindings)| && i != row && LivePeer(old(bindings)[i], peer)
      ensures result.Bound? ==> forall i :: 0 <= i < |old(bindings)| && i != row ==> !LivePeer(old(bindings)[i], peer)
      ensures result.RowMissing? ==> Tables() == old(Tables())
      ensures result.PeerInUse? ==> Tables() == committed
      ensures result.Bound? ==>
                var b := Activated(old(bindings)[row], peer, profile.screenName, profile.displayName);
                Tables() == old(Tables()).(bindings := old(bindings)[row := b])
    {
      if row >= |bindings| || !Live(bindings[row]) {
        return RowMissing;
      }
      var holder := FindPeer(bindings, peer);
      if holder.Some? && holder.value != row {
        Rollback();
        return PeerInUse;
      }
      bindings := bindings[row := Activated(bindings[row], peer, profile.screenName, profile.displayName)];
      return Bound;
    }

    method SetState(row: nat, state: VkState) returns (found: bool)
      requires Valid()
      modifies this`bindings
      ensures Valid()
      ensures found <==> row < |old(bindings)| && Live(old(bindings)[row])
      ensures bindings == if found then old(bindings)[row := old(bindings)[row].(state := state)] else old(bindings)
    {
      found := row < |bindings| && Live(bindings[row]);
      if found {
        bindings := bindings[row := bindings[row].(state := state)];
      }
    }

    method SoftDelete(user: Uuid, now: int) returns (deleted: bool)
      requires Valid()
      modifies this`bindings
      ensures Valid()
      ensures deleted <==> exists i :: 0 <= i < |old(bindings)| && LiveUser(old(bindings)[i], user)
      ensures bindings == SoftDeleted(old(bindings), user, now)
      ensures forall i :: 0 <= i < |bindings| ==> !LiveUser(bindings[i], user)
    {
      deleted := FindUser(bindings, user).Some?;
      bindings := SoftDeleted(bindings, user, now);
    }

    method LogAction(action: Action, verdict: Verdict, peer: Option<int>, at: int)
      modifies this`journal
      ensures journal == old(journal) + [Entry(action, verdict, peer, at)]
    {
      journal := journal + [Entry(action, verdict, peer, at)];
    }

    /** A session without writes of its own sees what is committed by now. */
    method Refresh(seen: Db)
      requires Clean() && UniqueLive(seen.bindings)
      modifies this
      ensures Valid() && Clean() && Tables() == seen
    {
      bindings, codes, journal, committed := seen.bindings, seen.codes, seen.journal, seen;
    }

    /** None stands for the violation that is raised again when the reread finds nothing. */
    method EnsureBinding(user: Uuid, others: Meanwhile) returns (row: Option<nat>, created: bool)
      requires Valid() && Clean() && UniqueLive(others.atInsert.bindings) && UniqueLive(others.atReread.bindings)
      modifies this
      ensures Valid()
      ensures committed == EnsureBase(old(Tables()), user, others)
      ensures row.None? <==> Contended(old(Tables()), user, others)
      ensures row.None? ==> Clean()
      ensures row.Some? ==> (Tables(), row.value) == Ensure(committed, user)
      ensures created <==> FindUser(old(bindings), user).None? && FindUser(others.atInsert.bindings, user).None?
    {
      var current := FindUser(bindings, user);
      if current.Some? {
        return current, false;
      }
      Refresh(others.atInsert);
      row := Create(user);
      if row.Some? {
        return row, true;
      }
      Refresh(others.atReread);
      row, created := FindUser(bindings, user), false;
    }

    /** At most five draws, the first free one wins. */
    method CreateUniqueCode(draws: seq<string>) returns (code: Option<string>)
      requires |draws| == MAX_GENERATION_ATTEMPTS
      ensures code == FirstFree(codes, draws, MAX_GENERATION_ATTEMPTS)
      ensures code.Some? ==> code.value !in codes
    {
      for i := 0 to MAX_GENERATION_ATTEMPTS
        invariant FirstFree(codes, draws, i) == None
      {
        if draws[i] !in codes {
          FirstFreeStays(codes, draws, i + 1, MAX_GENERATION_ATTEMPTS);
          return Some(draws[i]);
        }
      }
      return None;
    }

    method IssueConfirmation(user: Uuid, draws: seq<string>, clock: Clock, others: Meanwhile) returns (issued: Issued)
      requires Valid() && Clean() && UniqueLive(others.atInsert.bindings) && UniqueLive(others.atReread.bindings)
      requires |draws| == MAX_GENERATION_ATTEMPTS
      modifies this
      ensures Valid()
      ensures committed == EnsureBase(old(Tables()), user, others)
      ensures (Tables(), issued) == if Contended(old(Tables()), user, others) then (committed, OwnerContended)
                                    else Issue(committed, cfg, user, draws, clock)
    {
      var found, _ := EnsureBinding(user, others);
      if found.None? {
        return OwnerContended;
      }
      var row := found.value;
      if bindings[row].state == Active {
        LogAction(IssueCode, ConflictActive, None, clock.at);
        return AlreadyActive;
      }
      if bindings[row].state == Blocked {
        LogAction(IssueCode, ConflictBlocked, None, clock.at);
        return BotBlocked;
      }
      codes := Invalidated(codes, row, clock.now);
      var code := CreateUniqueCode(draws);
      if code.None? {
        return NoUniqueCode;
      }
      var expiresAt := clock.now + cfg.ttl;
      codes := codes[code.value := Conf(row, expiresAt, None)];
      LogAction(IssueCode, Success, None, clock.at);
      return Code(code.value, row, expiresAt);
    }

    /**
     The HTTP session around it: commit on success, roll back on an error. It ends as an issue
     that began on what the others had committed; when nobody interferes, on the tables it met.
     */
    method PostIssueConfirmation(user: Uuid, draws: seq<string>, clock: Clock, others: Meanwhile) returns (issued: Issued)
      requires Valid() && Clean() && UniqueLive(others.atInsert.bindings) && UniqueLive(others.atReread.bindings)
      requires |draws| == MAX_GENERATION_ATTEMPTS
      modifies this
      ensures Valid() && Clean()
      ensures
        var base := EnsureBase(old(Tables()), user, others);
        && ((Tables(), issued) == if Contended(old(Tables()), user, others) then (base, OwnerContended)
                                  else IssueRequest(base, cfg, user, draws, clock))
        && (!issued.Code? ==> Tables() == base)
      ensures others == Meanwhile(old(Tables()), old(Tables())) ==>
                (Tables(), issued) == IssueRequest(old(Tables()), cfg, user, draws, clock)
    {
      issued := IssueConfirmation(user, draws, clock, others);
      if issued.Code? {
        Commit();
      } else {
        Rollback();
      }
    }

    /** True when the peer has used up its attempts; the refusal is then journalled. */
    method EnforceRateLimit(peer: int, clock: Clock) returns (refused: bool)
      modifies this`journal
      ensures refused <==> Refuses(old(journal), peer, clock.check, cfg.window, cfg.maxAttempts)
      ensures journal == if refused then old(journal) + [Entry(Confirmation, RateLimited, Some(peer), clock.at)] else old(journal)
    {
      var since := clock.check - cfg.window;
      var failures := CountFailedSince(journal, peer, since);
      refused := failures >= cfg.maxAttempts;
      if refused {
        LogAction(Confirmation, RateLimited, Some(peer), clock.at);
      }
    }

    /** `seen` is what is committed when it comes to the activation. */
    method ConfirmCode(typed: string, peer: int, profile: Profile, clock: Clock, seen: Db) returns (outcome: Confirmed)
      requires Valid() && Clean() && UniqueLive(seen.bindings)
      modifies this
      ensures Valid()
      ensures (Tables(), outcome) == ConfirmThrough(old(Tables()), seen, cfg, typed, peer, profile, clock)
      ensures seen == old(Tables()) ==> (Tables(), outcome) == Confirm(old(Tables()), cfg, typed, peer, profile, clock)
      ensures outcome.RowVanished? ==> Clean()
    {
      ConfirmAlone(Tables(), cfg, typed, peer, profile, clock);
      var code := NormalizeCode(typed);
      var refused := EnforceRateLimit(peer, clock);
      if refused {
        return TooManyAttempts;
      }
      if code !in codes {
        LogAction(Confirmation, NotFound, Some(peer), clock.at);
        return UnknownCode;
      }
      var conf := codes[code];
      var row := conf.row;
      if conf.usedAt.Some? {
        if SamePeerActive(bindings, row, peer) {
          LogAction(Confirmation, AlreadyConfirmed, Some(peer), clock.at);
          return LinkedBefore(bindings[row].user, row);
        }
        LogAction(Confirmation, Used, Some(peer), clock.at);
        return CodeUsed;
      }
      if conf.expiresAt <= clock.now {
        LogAction(Confirmation, Expired, Some(peer), clock.at);
        return CodeExpired;
      }
      if row >= |bindings| || !Live(bindings[row]) {
        LogAction(Confirmation, ErrorVerdict, Some(peer), clock.at);
        return BindingMissing;
      }
      var occupied := FindPeer(bindings, peer);
      if occupied.Some? && occupied.value != row {
        LogAction(Confirmation, PeerConflict, Some(peer), clock.at);
        return PeerTaken;
      }
      var user := bindings[row].user;
      Refresh(seen);
      var activation := Activate(row, peer, profile);
      if activation.RowMissing? {
        return RowVanished;
      }
      if activation.PeerInUse? {
        LogAction(Confirmation, PeerConflict, Some(peer), clock.at);
        return PeerTaken;
      }
      if code in codes {
        codes := codes[code := codes[code].(usedAt := Some(clock.now))];
      }
      LogAction(Confirmation, Success, Some(peer), clock.at);
      return Linked(user, row);
    }

    method UnlinkOwner(user: Uuid, clock: Clock) returns (unlinked: bool, notify: Option<int>)
      requires Valid()
      modifies this`bindings, this`codes, this`journal
      ensures Valid()
      ensures (Tables(), notify) == UnlinkUser(old(Tables()), user, clock)
      ensures unlinked <==> FindUser(old(bindings), user).Some?
    {
      var found := FindUser(bindings, user);
      if found.None? {
        LogAction(Unlink, Noop, None, clock.at);
        return false, None;
      }
      var row := found.value;
      var previous, peer := bindings[row].state, bindings[row].peer;
      codes := Invalidated(codes, row, clock.now);
      var _ := SoftDelete(user, clock.now);
      LogAction(Unlink, Success, None, clock.at);
      return true, if previous == Active then peer else None;
    }

    method MoveTo(peer: int, state: VkState, action: Action, clock: Clock) returns (moved: bool)
      requires Valid()
      modifies this`bindings, this`codes, this`journal
      ensures Valid()
      ensures Tables() == Transition(old(Tables()), peer, state, action, clock)
      ensures moved <==> FindPeer(old(bindings), peer).Some?
    {
      var found := FindPeer(bindings, peer);
      if found.None? {
        LogAction(action, NoBinding, Some(peer), clock.at);
        return false;
      }
      var _ := SetState(found.value, state);
      LogAction(action, Success, Some(peer), clock.at);
      return true;
    }

    /** The user forbids messages of the group. */
    method OnMessageDeny(peer: int, clock: Clock) returns (moved: bool)
      requires Valid()
      modifies this
      ensures Valid() && Clean()
      ensures Tables() == ApplyOp(cfg, old(Tables()), DenyOp(peer, clock))
      ensures moved <==> FindPeer(old(bindings), peer).Some?
    {
      moved := MoveTo(peer, Blocked, MessageDeny, clock);
      Commit();
    }

    /** The user allows them again. */
    method OnMessageAllow(peer: int, clock: Clock) returns (moved: bool)
      requires Valid()
      modifies this
      ensures Valid() && Clean()
      ensures Tables() == ApplyOp(cfg, old(Tables()), AllowOp(peer, clock))
      ensures moved <==> FindPeer(old(bindings), peer).Some?
    {
      moved := MoveTo(peer, Active, MessageAllow, clock);
      Commit();
    }

    /** A message to the bot: what it did is committed whatever the outcome, short of an exception. */
    method OnMessage(dialog: int, from: int, text: string, profile: Profile, clock: Clock, seen: Db) returns (reply: Replied)
      requires Valid() && Clean() && UniqueLive(seen.bindings)
      modifies this
      ensures Valid() && Clean()
      ensures
        var alone := HandleMessage(old(Tables()), cfg, dialog, from, text, profile, clock);
        && (seen == old(Tables()) || !alone.1.Answered? ==> (Tables(), reply) == alone)
        && (alone.1.Answered? ==>
              var parsed := ParseLinkCommand(text, cfg.linkCommand);
              && parsed.Some?
              && var (d, outcome) := ConfirmThrough(old(Tables()), seen, cfg, parsed.value, from, profile, clock);
              (Tables(), reply) == if outcome.RowVanished? then (seen, Failed) else (d, Answered(outcome)))
    {
      if IsChatPeer(dialog) {
        LogAction(Message, IgnoredChat, Some(dialog), clock.at);
        Commit();
        return Ignored;
      }
      var parsed := ParseLinkCommand(text, cfg.linkCommand);
      if parsed.None? || parsed.value == "" {
        LogAction(Message, if parsed.None? then UnknownCommand else MissingCode, Some(dialog), clock.at);
        Commit();
        return if parsed.None? then NotACommand else CodeMissing;
      }
      var outcome := ConfirmCode(parsed.value, from, profile, clock, seen);
      if outcome.RowVanished? {
        return Failed;
      }
      Commit();
      return Answered(outcome);
    }
  }

  /** Once a free code is found, further draws do not matter. */
  lemma {:induction false} FirstFreeStays(codes: Codes, draws: seq<string>, m: nat, n: nat)
    requires m <= n <= |draws| && FirstFree(codes, draws, m).Some?
    ensures FirstFree(codes, draws, n) == FirstFree(codes, draws, m)
  {
    if m == n {
    } else {
      FirstFreeStays(codes, draws, m, n - 1);
    }
  }

  /** Nobody but the row itself holds the peer. */
  lemma PeerFree(bs: Bindings, peer: int, row: nat)
    requires UniqueLive(bs) && (FindPeer(bs, peer).None? || FindPeer(bs, peer) == Some(row))
    ensures forall i :: 0 <= i < |bs| && i != row ==> !LivePeer(bs[i], peer)
  {
  }
}
