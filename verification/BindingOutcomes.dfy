/**
 What each operation of the binding domain answers, and what it leaves, said of the tables
 alone: when which answer is given, and which rows are as before.
 */
module BindingOutcomes {
  import opened Wrappers
  import opened DeliveryLedger
  import opened Journal
  import opened Text
  import opened LinkCommand
  import opened BindingTables
  import opened BindingOps
  import opened BindingSafety
  import opened BindingProperties
  import opened BindingService

  ghost predicate LiveRow(bs: Bindings, i: int) {
    0 <= i < |bs| && bs[i].deletedAt == None
  }

  /** Live row i has this peer. */
  ghost predicate Holds(bs: Bindings, i: int, peer: int) {
    LiveRow(bs, i) && bs[i].peer == Some(peer)
  }

  /** Live row i belongs to this owner. */
  ghost predicate Owns(bs: Bindings, i: int, user: Uuid) {
    LiveRow(bs, i) && bs[i].user == user
  }

  ghost predicate UsedUp(codes: Codes, c: string) {
    c in codes && codes[c].usedAt != None
  }

  /** Stored, unused, and strictly before its expiry. */
  ghost predicate Usable(codes: Codes, c: string, now: int) {
    c in codes && codes[c].usedAt == None && now < codes[c].expiresAt
  }

  /**
   The limit comes first: a peer over it is refused whatever it sends, a waiting code included,
   and nobody else is. The refusal leaves one rate-limited row and changes nothing else.
   */
  lemma RefusedIffOverLimit(db: Db, cfg: Config, typed: string, peer: int, profile: Profile, clock: Clock)
    ensures
      var (d, outcome) := Confirm(db, cfg, typed, peer, profile, clock);
      && (outcome == TooManyAttempts <==> OverLimit(cfg, db, peer, clock.check))
      && (outcome == TooManyAttempts ==>
            d == db.(journal := db.journal + [Entry(Confirmation, RateLimited, Some(peer), clock.at)]))
  {
    RefusesByRows(db.journal, peer, clock.check, cfg.window, cfg.maxAttempts);
    hide Refuses, FailedRows, NormalizeCode;
  }

  /** A peer under the limit: which answer a code gets. */
  lemma ConfirmAnswers(db: Db, cfg: Config, typed: string, peer: int, profile: Profile, clock: Clock)
    requires UniqueLive(db.bindings) && !OverLimit(cfg, db, peer, clock.check)
    ensures
      var outcome, c, bs := Confirm(db, cfg, typed, peer, profile, clock).1, NormalizeCode(typed), db.bindings;
      && (outcome == UnknownCode <==> c !in db.codes)
      && (outcome == CodeUsed <==> UsedUp(db.codes, c) && !BoundTo(db, db.codes[c].row, peer))
      && (forall u: Uuid, i: nat :: outcome == LinkedBefore(u, i) <==>
                           UsedUp(db.codes, c) && db.codes[c].row == i && BoundTo(db, i, peer) && bs[i].user == u)
      && (outcome == CodeExpired <==> c in db.codes && !UsedUp(db.codes, c) && !Usable(db.codes, c, clock.now))
      && (outcome == BindingMissing <==> Usable(db.codes, c, clock.now) && !LiveRow(bs, db.codes[c].row))
      && (outcome == PeerTaken <==>
            && Usable(db.codes, c, clock.now) && LiveRow(bs, db.codes[c].row)
            && exists j :: j != db.codes[c].row && Holds(bs, j, peer))
      && (forall u: Uuid, i: nat :: outcome == Linked(u, i) <==>
                           && Usable(db.codes, c, clock.now) && db.codes[c].row == i && LiveRow(bs, i) && bs[i].user == u
                           && forall j :: j != i ==> !Holds(bs, j, peer))
  {
    RefusesByRows(db.journal, peer, clock.check, cfg.window, cfg.maxAttempts);
    hide Refuses, FailedRows, NormalizeCode;
    forall j | Holds(db.bindings, j, peer) ensures FindPeer(db.bindings, peer) == Some(j) {
      FindPeerUnique(db.bindings, peer, j);
    }
    var found := FindPeer(db.bindings, peer);
    assert found.Some? ==> Holds(db.bindings, found.value, peer);
  }

  /** The status each answer is journalled with. */
  function VerdictOf(outcome: Confirmed): Verdict {
    match outcome
    case Linked(_, _) => Success
    case LinkedBefore(_, _) => AlreadyConfirmed
    case TooManyAttempts => RateLimited
    case UnknownCode => NotFound
    case CodeUsed => Used
    case CodeExpired => Expired
    case BindingMissing => ErrorVerdict
    case PeerTaken => PeerConflict
    case RowVanished => ErrorVerdict
  }

  /** One journal row with the status of the answer; bindings and codes change with a link only. */
  lemma ConfirmLeaves(db: Db, cfg: Config, typed: string, peer: int, profile: Profile, clock: Clock)
    ensures
      var (d, outcome) := Confirm(db, cfg, typed, peer, profile, clock);
      && d.journal == db.journal + [Entry(Confirmation, VerdictOf(outcome), Some(peer), clock.at)]
      && (!outcome.Linked? ==> d.bindings == db.bindings && d.codes == db.codes)
      && (outcome.Linked? ==>
            var c, i := NormalizeCode(typed), outcome.row;
            && i < |db.bindings| && c in db.codes && db.codes[c].row == i
            && d.bindings == db.bindings[i := Binding(db.bindings[i].user, Some(peer), Active, profile.screenName, profile.displayName, None)]
            && d.codes == db.codes[c := Conf(i, db.codes[c].expiresAt, Some(clock.now))])
  {
    hide Refuses, NormalizeCode;
  }

  /**
   A confirmation past its own checks that then finds the tables others left: the row and the
   peer decide alone. A code that was used or withdrawn in between is not looked at again.
   */
  lemma ActivationDecides(db: Db, seen: Db, cfg: Config, typed: string, peer: int, profile: Profile, clock: Clock)
    requires Confirm(db, cfg, typed, peer, profile, clock).1.Linked?
    ensures
      var i, user := Confirm(db, cfg, typed, peer, profile, clock).1.row, Confirm(db, cfg, typed, peer, profile, clock).1.user;
      var (d, outcome) := ConfirmThrough(db, seen, cfg, typed, peer, profile, clock);
      && (outcome == RowVanished <==> !LiveRow(seen.bindings, i))
      && (outcome == PeerTaken <==> LiveRow(seen.bindings, i) && exists j :: j != i && Holds(seen.bindings, j, peer))
      && (outcome == Linked(user, i) <==> LiveRow(seen.bindings, i) && forall j :: j != i ==> !Holds(seen.bindings, j, peer))
      && (outcome == RowVanished ==> d == seen)
      && (outcome == PeerTaken ==>
            d == seen.(journal := seen.journal + [Entry(Confirmation, PeerConflict, Some(peer), clock.at)]))
      && (outcome.Linked? ==>
            var b, c := seen.bindings[i], NormalizeCode(typed);
            && d.bindings == seen.bindings[i := Binding(b.user, Some(peer), Active, profile.screenName, profile.displayName, None)]
            && d.codes == (if c in seen.codes then seen.codes[c := seen.codes[c].(usedAt := Some(clock.now))] else seen.codes)
            && d.journal == seen.journal + [Entry(Confirmation, Success, Some(peer), clock.at)])
  {
    hide Confirm, NormalizeCode;
    var i := Confirm(db, cfg, typed, peer, profile, clock).1.row;
    forall j ensures Holds(seen.bindings, j, peer) <==> 0 <= j < |seen.bindings| && LivePeer(seen.bindings[j], peer) {
    }
  }

  /** What a message is answered: by its dialog first, then by its words. */
  lemma MessageAnswers(db: Db, cfg: Config, dialog: int, from: int, text: string, profile: Profile, clock: Clock)
    ensures
      var reply := HandleMessage(db, cfg, dialog, from, text, profile, clock).1;
      && (reply == Ignored <==> dialog >= 2_000_000_000)
      && (reply == NotACommand <==> dialog < 2_000_000_000 && forall rest :: !Commands(text, cfg.linkCommand, rest))
      && (reply == CodeMissing <==>
            dialog < 2_000_000_000 && exists rest :: Commands(text, cfg.linkCommand, rest) && AllSpace(rest))
      && (reply.Answered? <==>
            dialog < 2_000_000_000 && Matchable(cfg.linkCommand) && exists typed :: Carries(text, cfg.linkCommand, typed))
  {
    var parsed := ParseLinkCommand(text, cfg.linkCommand);
    ParserAnswers(text, cfg.linkCommand, if parsed.Some? then parsed.value else "");
    forall typed | Matchable(cfg.linkCommand) && Carries(text, cfg.linkCommand, typed)
      ensures typed != "" && parsed == Some(typed)
    {
      CarriedCodeIsParsed(text, cfg.linkCommand, typed);
    }
    hide Confirm, ParseLinkCommand, Commands, Carries, Matchable;
  }

  /** What a message leaves: its own row when no code was tried, and otherwise what the confirmation leaves. */
  lemma MessageLeaves(db: Db, cfg: Config, dialog: int, from: int, text: string, typed: string, profile: Profile, clock: Clock)
    ensures
      var d := ApplyOp(cfg, db, MessageOp(dialog, from, text, profile, clock));
      var reply := HandleMessage(db, cfg, dialog, from, text, profile, clock).1;
      && (reply == Ignored ==> d == db.(journal := db.journal + [Entry(Message, IgnoredChat, Some(dialog), clock.at)]))
      && (reply == NotACommand ==> d == db.(journal := db.journal + [Entry(Message, UnknownCommand, Some(dialog), clock.at)]))
      && (reply == CodeMissing ==> d == db.(journal := db.journal + [Entry(Message, MissingCode, Some(dialog), clock.at)]))
      && (reply.Answered? && Carries(text, cfg.linkCommand, typed) ==>
            (d, reply.outcome) == Confirm(db, cfg, typed, from, profile, clock))
  {
    var reply := HandleMessage(db, cfg, dialog, from, text, profile, clock).1;
    if reply.Answered? && Carries(text, cfg.linkCommand, typed) {
      MessageAnswers(db, cfg, dialog, from, text, profile, clock);
      CarriedCodeIsParsed(text, cfg.linkCommand, typed);
    }
    hide Confirm, ParseLinkCommand, Carries;
  }

  /** No recipient list makes a delivery write to the peer. */
  ghost predicate Unreached(bs: Bindings, peer: int) {
    forall users, u :: u in Snapshot(bs, users) ==> Snapshot(bs, users)[u] != peer
  }

  lemma BlockedIsUnreached(bs: Bindings, i: int, peer: int)
    requires UniqueLive(bs) && Holds(bs, i, peer) && bs[i].state == Blocked
    ensures Unreached(bs, peer)
  {
    hide Snapshot;
    forall users, u | u in Snapshot(bs, users) ensures Snapshot(bs, users)[u] != peer {
      SnapshotExact(bs, users);
      var j :| 0 <= j < |bs| && Reachable(bs[j], u);
      assert Holds(bs, j, Snapshot(bs, users)[u]);
    }
  }

  /**
   A deny blocks the peer's live row whatever its state was, and no other; no delivery reaches
   the peer then. Repeated, it changes no row. Without such a row it is only journalled.
   */
  lemma DenyBlocks(cfg: Config, db: Db, peer: int, clock: Clock)
    requires Inv(db)
    ensures
      var d := ApplyOp(cfg, db, DenyOp(peer, clock));
      && d.codes == db.codes && |d.bindings| == |db.bindings|
      && (forall i :: 0 <= i < |db.bindings| ==>
                        d.bindings[i] == if Holds(db.bindings, i, peer) then db.bindings[i].(state := Blocked) else db.bindings[i])
      && Unreached(d.bindings, peer)
      && (forall again :: ApplyOp(cfg, d, DenyOp(peer, again)).bindings == d.bindings)
      && d.journal == db.journal +
                      [Entry(MessageDeny, if exists i :: Holds(db.bindings, i, peer) then Success else NoBinding, Some(peer), clock.at)]
  {
    var d := ApplyOp(cfg, db, DenyOp(peer, clock));
    TransitionSets(db, peer, Blocked, MessageDeny, clock);
    TransitionKeeps(db, peer, Blocked, MessageDeny, clock);
    if i :| Holds(db.bindings, i, peer) {
      assert Holds(d.bindings, i, peer);
      BlockedIsUnreached(d.bindings, i, peer);
    } else {
      UnboundIsUnreached(d.bindings, peer);
    }
    forall again ensures ApplyOp(cfg, d, DenyOp(peer, again)).bindings == d.bindings {
      TransitionSets(d, peer, Blocked, MessageDeny, again);
    }
  }

  lemma UnboundIsUnreached(bs: Bindings, peer: int)
    requires UniqueLive(bs) && forall i :: !Holds(bs, i, peer)
    ensures Unreached(bs, peer)
  {
    hide Snapshot;
    forall users, u | u in Snapshot(bs, users) ensures Snapshot(bs, users)[u] != peer {
      SnapshotExact(bs, users);
      var j :| 0 <= j < |bs| && Reachable(bs[j], u);
      assert Holds(bs, j, Snapshot(bs, users)[u]);
    }
  }

  /** An allow activates the peer's live row, from BLOCKED as from ACTIVE, and no other. */
  lemma AllowActivates(cfg: Config, db: Db, peer: int, clock: Clock)
    requires Inv(db)
    ensures
      var d := ApplyOp(cfg, db, AllowOp(peer, clock));
      && d.codes == db.codes && |d.bindings| == |db.bindings|
      && (forall i :: 0 <= i < |db.bindings| ==>
                        d.bindings[i] == if Holds(db.bindings, i, peer) then db.bindings[i].(state := Active) else db.bindings[i])
      && (forall again :: ApplyOp(cfg, d, AllowOp(peer, again)).bindings == d.bindings)
      && d.journal == db.journal +
                      [Entry(MessageAllow, if exists i :: Holds(db.bindings, i, peer) then Success else NoBinding, Some(peer), clock.at)]
  {
    var d := ApplyOp(cfg, db, AllowOp(peer, clock));
    TransitionSets(db, peer, Active, MessageAllow, clock);
    TransitionKeeps(db, peer, Active, MessageAllow, clock);
    forall again ensures ApplyOp(cfg, d, AllowOp(peer, again)).bindings == d.bindings {
      TransitionSets(d, peer, Active, MessageAllow, again);
    }
  }

  lemma TransitionSets(db: Db, peer: int, state: VkState, action: Action, clock: Clock)
    requires UniqueLive(db.bindings)
    ensures
      var d := Transition(db, peer, state, action, clock);
      && d.codes == db.codes && |d.bindings| == |db.bindings|
      && (forall i :: 0 <= i < |db.bindings| ==>
                        d.bindings[i] == if Holds(db.bindings, i, peer) then db.bindings[i].(state := state) else db.bindings[i])
      && d.journal == db.journal +
                      [Entry(action, if exists i :: Holds(db.bindings, i, peer) then Success else NoBinding, Some(peer), clock.at)]
  {
    forall i | 0 <= i < |db.bindings| ensures Holds(db.bindings, i, peer) <==> FindPeer(db.bindings, peer) == Some(i) {
      FindPeerUnique(db.bindings, peer, i);
    }
    var found := FindPeer(db.bindings, peer);
    assert found.Some? ==> Holds(db.bindings, found.value, peer);
  }

  /** The owner's live row is the one there was, or a new one at the end without a peer. */
  lemma EnsureAdds(cfg: Config, db: Db, user: Uuid)
    requires UniqueLive(db.bindings)
    ensures
      var d := ApplyOp(cfg, db, EnsureOp(user));
      && d.codes == db.codes && d.journal == db.journal
      && d.bindings == (if exists i :: Owns(db.bindings, i, user) then db.bindings
                        else db.bindings + [Binding(user, None, Pending, None, None, None)])
      && forall i :: Owns(d.bindings, i, user) <==> Ensure(db, user).1 == i
  {
    var found := FindUser(db.bindings, user);
    assert found.Some? ==> Owns(db.bindings, found.value, user);
    forall i | Owns(db.bindings, i, user) ensures found == Some(i) {
      FindUserUnique(db.bindings, user, i);
    }
  }

  /**
   An ensure that other requests interrupt: the row of its first read, else a new one on what is
   committed by the insert, else the rival's as reread; the violation when that has gone too.
   */
  lemma EnsureWorksOn(db: Db, user: Uuid, others: Meanwhile)
    ensures
      var base := EnsureBase(db, user, others);
      && ((exists i :: Owns(db.bindings, i, user)) ==> base == db)
      && ((forall i :: !Owns(db.bindings, i, user)) ==>
            if exists i :: Owns(others.atInsert.bindings, i, user) then base == others.atReread else base == others.atInsert)
    ensures Contended(db, user, others) <==>
            && (forall i :: !Owns(db.bindings, i, user)) && (exists i :: Owns(others.atInsert.bindings, i, user))
            && (forall i :: !Owns(others.atReread.bindings, i, user))
  {
    OwnerFound(db.bindings, user);
    OwnerFound(others.atInsert.bindings, user);
    OwnerFound(others.atReread.bindings, user);
    hide FindUser, Owns;
  }

  lemma OwnerFound(bs: Bindings, user: Uuid)
    ensures FindUser(bs, user).Some? <==> exists i :: Owns(bs, i, user)
  {
    var found := FindUser(bs, user);
    assert found.Some? ==> Owns(bs, found.value, user);
    forall i | Owns(bs, i, user) ensures found.Some? {
      assert LiveUser(bs[i], user);
    }
  }

  /** The codes of a row once its unused ones are stamped. */
  ghost predicate StampedFor(before: Codes, after: Codes, row: nat, now: int) {
    forall c :: c in before ==>
                  c in after && after[c] == if before[c].row == row && before[c].usedAt == None then before[c].(usedAt := Some(now))
                                            else before[c]
  }

  /** Draw k is the first that no stored code equals. */
  ghost predicate FirstFreeDraw(codes: Codes, draws: seq<string>, k: nat) {
    k < |draws| && draws[k] !in codes && forall j :: 0 <= j < k ==> draws[j] in codes
  }

  lemma {:induction false} FirstFreeIs(codes: Codes, draws: seq<string>, n: nat, k: nat)
    requires n <= |draws| && FirstFreeDraw(codes, draws, k)
    ensures FirstFree(codes, draws, n) == if k < n then Some(draws[k]) else None
  {
    if n == 0 {
    } else {
      FirstFreeIs(codes, draws, n - 1, k);
    }
  }

  /**
   Which answer an issue gets: refused by the state of the owner's live row, or because all
   five draws are taken; otherwise the first free draw, for that row or a new one.
   */
  lemma IssueAnswers(db: Db, cfg: Config, user: Uuid, draws: seq<string>, clock: Clock, k: nat)
    requires UniqueLive(db.bindings) && |draws| == 5
    ensures
      var r := IssueRequest(db, cfg, user, draws, clock).1;
      && (r == AlreadyActive <==> exists i :: Owns(db.bindings, i, user) && db.bindings[i].state == Active)
      && (r == BotBlocked <==> exists i :: Owns(db.bindings, i, user) && db.bindings[i].state == Blocked)
      && (r == NoUniqueCode <==> MayIssue(db, user) && forall j :: 0 <= j < 5 ==> draws[j] in db.codes)
      && (MayIssue(db, user) && FirstFreeDraw(db.codes, draws, k) ==>
            r == Code(draws[k], Ensure(db, user).1, clock.now + cfg.ttl))
  {
    var found := FindUser(db.bindings, user);
    assert found.Some? ==> Owns(db.bindings, found.value, user);
    forall i | Owns(db.bindings, i, user) ensures found == Some(i) {
      FindUserUnique(db.bindings, user, i);
    }
    var row := Ensure(db, user).1;
    var codes := Invalidated(db.codes, row, clock.now);
    assert codes.Keys == db.codes.Keys;
    FreeCodeFound(codes, draws, 5);
    if FirstFreeDraw(db.codes, draws, k) {
      assert FirstFreeDraw(codes, draws, k);
      FirstFreeIs(codes, draws, 5, k);
    }
    hide FirstFree, Invalidated, FindUser;
  }

  /** What a successful issue leaves; a refused one leaves everything. */
  lemma IssueLeaves(db: Db, cfg: Config, user: Uuid, draws: seq<string>, clock: Clock)
    requires Inv(db) && DrawsOk(draws)
    ensures
      var d, r := ApplyOp(cfg, db, IssueOp(user, draws, clock)), IssueRequest(db, cfg, user, draws, clock).1;
      && (!r.Code? ==> d == db)
      && (r.Code? ==>
            && d.bindings == ApplyOp(cfg, db, EnsureOp(user)).bindings && Owns(d.bindings, r.row, user)
            && d.codes.Keys == db.codes.Keys + {r.code} && d.codes[r.code] == Conf(r.row, clock.now + cfg.ttl, None)
            && StampedFor(db.codes, d.codes, r.row, clock.now)
            && d.journal == db.journal + [Entry(IssueCode, Success, None, clock.at)])
  {
    hide FirstFree, FindUser, TablesOk, DrawsOk;
    IssueAllOrNothing(db, cfg, user, draws, clock);
  }

  /** What an unlink leaves: the owner's live row deleted now, its unused codes stamped, all else as before. */
  lemma UnlinkLeaves(cfg: Config, db: Db, user: Uuid, clock: Clock)
    requires Inv(db)
    ensures
      var d := ApplyOp(cfg, db, UnlinkOp(user, clock));
      && |d.bindings| == |db.bindings| && d.codes.Keys == db.codes.Keys
      && (forall i :: 0 <= i < |db.bindings| ==>
                        d.bindings[i] == if Owns(db.bindings, i, user) then db.bindings[i].(deletedAt := Some(clock.now)) else db.bindings[i])
      && (forall i :: Owns(db.bindings, i, user) ==> StampedFor(db.codes, d.codes, i, clock.now))
      && ((forall i :: !Owns(db.bindings, i, user)) ==> d.codes == db.codes)
      && d.journal == db.journal +
                      [Entry(Unlink, if exists i :: Owns(db.bindings, i, user) then Success else Noop, None, clock.at)]
  {
    var found := FindUser(db.bindings, user);
    assert found.Some? ==> Owns(db.bindings, found.value, user);
    forall i | Owns(db.bindings, i, user) ensures found == Some(i) {
      FindUserUnique(db.bindings, user, i);
    }
    hide FindUser;
  }
}
