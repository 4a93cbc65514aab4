/**
 Properties of the binding operations that span several of them: issuing a code, linking
 with it, submitting it again, and the attempt limit over a whole run.
 */
module BindingProperties {
  import opened Wrappers
  import opened DeliveryLedger
  import opened Journal
  import opened LinkCommand
  import opened BindingTables
  import opened BindingOps
  import opened BindingSafety

  /** The owner has no live row yet, or one that waits for its peer. */
  predicate MayIssue(db: Db, user: Uuid) {
    var found := FindUser(db.bindings, user);
    found.Some? ==> db.bindings[found.value].state == Pending
  }

  lemma {:induction false} FreeCodeFound(codes: Codes, draws: seq<string>, n: nat)
    requires n <= |draws|
    ensures FirstFree(codes, draws, n).Some? <==> exists i :: 0 <= i < n && draws[i] !in codes
  {
    if n == 0 {
    } else {
      FreeCodeFound(codes, draws, n - 1);
    }
  }

  /**
   Issuing is all-or-nothing. It fails exactly when the owner's live row is already bound
   or every draw collides, and then changes nothing, even if the old codes had been
   invalidated. Otherwise the code is one never stored before, expires after the configured
   time, and is the only unused code of the owner's live PENDING row.
   */
  lemma IssueAllOrNothing(db: Db, cfg: Config, user: Uuid, draws: seq<string>, clock: Clock)
    requires Inv(db) && DrawsOk(draws)
    ensures
      var (d, r) := IssueRequest(db, cfg, user, draws, clock);
      && (r.Code? <==> MayIssue(db, user) && exists i :: 0 <= i < |draws| && draws[i] !in db.codes)
      && (!r.Code? ==> d == db)
      && (r.Code? ==>
            && r.code in draws && r.code !in db.codes
            && d.codes.Keys == db.codes.Keys + {r.code} && d.codes[r.code] == Conf(r.row, clock.now + cfg.ttl, None)
            && r.row < |d.bindings| && LiveUser(d.bindings[r.row], user) && d.bindings[r.row].state == Pending
            && (forall c :: Unused(d.codes, c) && d.codes[c].row == r.row ==> c == r.code))
  {
    hide TablesOk, DrawsOk, Unused, FirstFree;
    var (d, row) := Ensure(db, user);
    EnsureKeeps(db, user);
    if d.bindings[row].state == Pending {
      IssueForExactly(d, cfg, row, draws, clock);
    }
  }

  /** For a waiting row: a free draw is stored as its only unused code; without one the issue fails. */
  lemma IssueForExactly(db: Db, cfg: Config, row: nat, draws: seq<string>, clock: Clock)
    requires Inv(db) && DrawsOk(draws) && row < |db.bindings| && Live(db.bindings[row]) && db.bindings[row].state == Pending
    ensures
      var (d, r) := IssueFor(db, cfg, row, draws, clock);
      && (r.Code? <==> exists i :: 0 <= i < |draws| && draws[i] !in db.codes)
      && (!r.Code? ==> r == NoUniqueCode)
      && (r.Code? ==>
            && r.row == row && r.code in draws && r.code !in db.codes && d.bindings == db.bindings
            && d.codes.Keys == db.codes.Keys + {r.code} && d.codes[r.code] == Conf(row, clock.now + cfg.ttl, None)
            && (forall c :: Unused(d.codes, c) && d.codes[c].row == row ==> c == r.code))
  {
    hide TablesOk;
    var codes := Invalidated(db.codes, row, clock.now);
    InvalidateKeeps(db.bindings, db.codes, row, clock.now);
    FreeCodeFound(codes, draws, MAX_GENERATION_ATTEMPTS);
    assert codes.Keys == db.codes.Keys;
    var free := FirstFree(codes, draws, MAX_GENERATION_ATTEMPTS);
    if free.Some? {
      FreeCodeIsGood(codes, draws);
      StoreKeeps(db.bindings, codes, row, free.value, clock.now + cfg.ttl);
      assert free.value in draws;
    }
  }

  /** Row i is the peer's live ACTIVE binding. */
  ghost predicate BoundTo(db: Db, i: nat, peer: int) {
    i < |db.bindings| && db.bindings[i].deletedAt == None && db.bindings[i].state == Active && db.bindings[i].peer == Some(peer)
  }

  /** The operations that end or suspend the binding of this owner and peer. */
  predicate Severs(op: Op, user: Uuid, peer: int) {
    match op
    case UnlinkOp(u, _) => u == user
    case DenyOp(p, _) => p == peer
    case _ => false
  }

  lemma OthersKeepBound(cfg: Config, db: Db, op: Op, i: nat, peer: int)
    requires Inv(db) && OpOk(op) && BoundTo(db, i, peer) && !Severs(op, db.bindings[i].user, peer)
    ensures BoundTo(ApplyOp(cfg, db, op), i, peer)
    ensures ApplyOp(cfg, db, op).bindings[i].user == db.bindings[i].user
  {
    hide Confirm, ParseLinkCommand;
    match op
    case EnsureOp(user) =>
    case IssueOp(user, draws, clock) =>
    case UnlinkOp(user, clock) =>
    case MessageOp(_, from, text, profile, clock) =>
      var parsed := ParseLinkCommand(text, cfg.linkCommand);
      if parsed.Some? { ConfirmKeepsBound(db, cfg, parsed.value, from, profile, clock, i, peer); }
    case DenyOp(p, clock) =>
    case AllowOp(p, clock) =>
  }

  lemma ConfirmKeepsBound(db: Db, cfg: Config, typed: string, from: int, profile: Profile, clock: Clock, i: nat, peer: int)
    requires Inv(db) && BoundTo(db, i, peer)
    ensures
      var d := Confirm(db, cfg, typed, from, profile, clock).0;
      BoundTo(d, i, peer) && d.bindings[i].user == db.bindings[i].user
  {
    hide Refuses, NormalizeCode;
    var (d, outcome) := Confirm(db, cfg, typed, from, profile, clock);
    if outcome.Linked? {
      assert Unused(db.codes, NormalizeCode(typed));
    }
  }

  ghost predicate BoundFor(db: Db, i: nat, user: Uuid, peer: int) {
    BoundTo(db, i, peer) && db.bindings[i].user == user
  }

  lemma OpKeepsBoundFor(cfg: Config, db: Db, op: Op, i: nat, user: Uuid, peer: int)
    requires Inv(db) && OpOk(op) && BoundFor(db, i, user, peer) && !Severs(op, user, peer)
    ensures BoundFor(ApplyOp(cfg, db, op), i, user, peer)
  {
    OthersKeepBound(cfg, db, op, i, peer);
  }

  lemma {:induction false} RunKeepsBound(cfg: Config, ops: seq<Op>, n: nat, i: nat, user: Uuid, peer: int)
    requires OpsOk(ops) && n <= |ops| && BoundFor(RunOps(cfg, ops[..n]), i, user, peer)
    requires forall k :: n <= k < |ops| ==> !Severs(ops[k], user, peer)
    ensures BoundFor(RunOps(cfg, ops), i, user, peer)
  {
    hide ApplyOp;
    if n == |ops| {
      assert ops[..n] == ops;
    } else {
      var m := |ops| - 1;
      var front, last := ops[..m], ops[m];
      assert front[..n] == ops[..n];
      assert OpsOk(front) && OpOk(last) && !Severs(last, user, peer);
      RunKeepsBound(cfg, front, n, i, user, peer);
      RunKeepsInv(cfg, front);
      var db := RunOps(cfg, front);
      assert RunOps(cfg, ops) == ApplyOp(cfg, db, last);
      OpKeepsBoundFor(cfg, db, last, i, user, peer);
    }
  }

  /** A used code of the peer's own active row is answered as confirmed before, at no cost. */
  lemma ResubmissionIsHarmless(db: Db, cfg: Config, typed: string, peer: int, profile: Profile, clock: Clock, i: nat)
    requires BoundTo(db, i, peer) && !Refuses(db.journal, peer, clock.check, cfg.window, cfg.maxAttempts)
    requires
      var code := NormalizeCode(typed);
      code in db.codes && db.codes[code].row == i && db.codes[code].usedAt.Some?
    ensures
      var (d, outcome) := Confirm(db, cfg, typed, peer, profile, clock);
      && outcome == LinkedBefore(db.bindings[i].user, i)
      && d.bindings == db.bindings && d.codes == db.codes
      && forall p :: FailureTimes(d.journal, p) == FailureTimes(db.journal, p)
  {
    hide NormalizeCode, Refuses;
    var d := Confirm(db, cfg, typed, peer, profile, clock).0;
    forall p ensures FailureTimes(d.journal, p) == FailureTimes(db.journal, p) {
      FailureTimesAppend(db.journal, Entry(Confirmation, AlreadyConfirmed, Some(peer), clock.at), p);
    }
  }

  lemma LinksBinds(cfg: Config, db: Db, op: Op, row: nat, peer: int, code: string)
    requires Inv(db) && OpOk(op) && Links(cfg, db, op, row, peer, code)
    ensures BoundTo(ApplyOp(cfg, db, op), row, peer)
  {
    hide NormalizeCode, ParseLinkCommand, Refuses;
  }

  /**
   Replay stability over whole runs: after operation j linked the row to the peer, and as
   long as nobody unlinks the owner or denies the peer, every later submission by the peer
   of any used code of the row is answered `already confirmed`, changes no binding and no
   code, and adds no counted failure, while the peer is under the limit.
   */
  lemma ReplayIsStable(cfg: Config, ops: seq<Op>, j: nat, row: nat, peer: int, code: string, typed: string, profile: Profile, clock: Clock)
    requires OpsOk(ops) && ConfirmedAt(cfg, ops, j, row, peer, code)
    requires row < |RunOps(cfg, ops).bindings|
    requires forall k :: j < k < |ops| ==> !Severs(ops[k], RunOps(cfg, ops).bindings[row].user, peer)
    requires !Refuses(RunOps(cfg, ops).journal, peer, clock.check, cfg.window, cfg.maxAttempts)
    requires
      var codes, again := RunOps(cfg, ops).codes, NormalizeCode(typed);
      again in codes && codes[again].row == row && codes[again].usedAt.Some?
    ensures
      var db := RunOps(cfg, ops);
      var (d, outcome) := Confirm(db, cfg, typed, peer, profile, clock);
      && outcome == LinkedBefore(db.bindings[row].user, row)
      && d.bindings == db.bindings && d.codes == db.codes
      && forall p :: FailureTimes(d.journal, p) == FailureTimes(db.journal, p)
  {
    hide ApplyOp, Confirm, Refuses, Links, NormalizeCode;
    RunKeepsInv(cfg, ops[..j]);
    assert ops[..j + 1][..j] == ops[..j];
    LinksBinds(cfg, RunOps(cfg, ops[..j]), ops[j], row, peer, code);
    RunGrows(cfg, ops, j + 1);
    RunKeepsBound(cfg, ops, j + 1, row, RunOps(cfg, ops).bindings[row].user, peer);
    ResubmissionIsHarmless(RunOps(cfg, ops), cfg, typed, peer, profile, clock, row);
  }

  /** The code is stored unused, for this row of this owner, with this expiry. */
  ghost predicate Waiting(db: Db, code: string, row: nat, user: Uuid, expiresAt: int) {
    && code in db.codes && db.codes[code] == Conf(row, expiresAt, None)
    && row < |db.bindings| && db.bindings[row].user == user
  }

  /** The operation uses the code up, unlinks its owner, or issues the owner another one. */
  ghost predicate Ends(cfg: Config, db: Db, op: Op, code: string, row: nat, user: Uuid) {
    match op
    case UnlinkOp(u, _) => u == user
    case IssueOp(u, draws, clock) => u == user && OpOk(op) && IssueRequest(db, cfg, u, draws, clock).1.Code?
    case MessageOp(_, from, _, _, _) => Links(cfg, db, op, row, from, code)
    case _ => false
  }

  /** A waiting code stays usable through an operation unless the operation ends it. */
  lemma OpEndsCode(cfg: Config, db: Db, op: Op, code: string, row: nat, user: Uuid, expiresAt: int)
    requires Inv(db) && OpOk(op) && Waiting(db, code, row, user, expiresAt)
    ensures Waiting(ApplyOp(cfg, db, op), code, row, user, expiresAt) <==> !Ends(cfg, db, op, code, row, user)
  {
    hide Confirm, ParseLinkCommand, NormalizeCode, IssueRequest, UnlinkUser, Transition;
    OpKeeps(cfg, db, op);
    assert Unused(db.codes, code);
    match op
    case EnsureOp(_) =>
    case IssueOp(u, draws, clock) => IssueEndsCode(cfg, db, u, draws, clock, code, row, user, expiresAt);
    case UnlinkOp(u, clock) => UnlinkEndsCode(db, u, clock, code, row, user, expiresAt);
    case MessageOp(_, from, text, profile, clock) =>
      var parsed := ParseLinkCommand(text, cfg.linkCommand);
      if parsed.Some? { ConfirmEndsCode(cfg, db, parsed.value, from, profile, clock, code, row, user, expiresAt); }
    case DenyOp(peer, clock) => TransitionKeepsCodes(db, peer, Blocked, MessageDeny, clock);
    case AllowOp(peer, clock) => TransitionKeepsCodes(db, peer, Active, MessageAllow, clock);
  }

  lemma TransitionKeepsCodes(db: Db, peer: int, state: VkState, action: Action, clock: Clock)
    ensures Transition(db, peer, state, action, clock).codes == db.codes
  {
  }

  lemma IssueEndsCode(cfg: Config, db: Db, u: Uuid, draws: seq<string>, clock: Clock, code: string, row: nat, user: Uuid, expiresAt: int)
    requires Inv(db) && DrawsOk(draws) && Waiting(db, code, row, user, expiresAt)
    ensures
      var (d, r) := IssueRequest(db, cfg, u, draws, clock);
      Waiting(d, code, row, user, expiresAt) <==> !(u == user && r.Code?)
  {
    assert Unused(db.codes, code);
    FindUserUnique(db.bindings, user, row);
  }

  lemma UnlinkEndsCode(db: Db, u: Uuid, clock: Clock, code: string, row: nat, user: Uuid, expiresAt: int)
    requires Inv(db) && Waiting(db, code, row, user, expiresAt)
    ensures Waiting(UnlinkUser(db, u, clock).0, code, row, user, expiresAt) <==> u != user
  {
    assert Unused(db.codes, code);
    FindUserUnique(db.bindings, user, row);
  }

  lemma ConfirmEndsCode(
    cfg: Config, db: Db, typed: string, peer: int, profile: Profile, clock: Clock, code: string, row: nat, user: Uuid, expiresAt: int)
    requires Inv(db) && Waiting(db, code, row, user, expiresAt)
    ensures
      var (d, outcome) := Confirm(db, cfg, typed, peer, profile, clock);
      Waiting(d, code, row, user, expiresAt) <==> !(outcome.Linked? && NormalizeCode(typed) == code)
    ensures
      var outcome := Confirm(db, cfg, typed, peer, profile, clock).1;
      outcome.Linked? && NormalizeCode(typed) == code ==> outcome.row == row
  {
    hide NormalizeCode, Refuses;
    assert Unused(db.codes, code);
  }

  /** Operation j of the run ends the code. */
  ghost predicate EndsAt(cfg: Config, ops: seq<Op>, j: nat, code: string, row: nat, user: Uuid)
    requires OpsOk(ops)
  {
    j < |ops| && Ends(cfg, RunOps(cfg, ops[..j]), ops[j], code, row, user)
  }

  /** Over a run: the code still waits exactly when none of the operations since has ended it. */
  lemma {:induction false} UsableUntilEnded(cfg: Config, ops: seq<Op>, n: nat, code: string, row: nat, user: Uuid, expiresAt: int)
    requires OpsOk(ops) && n <= |ops| && Waiting(RunOps(cfg, ops[..n]), code, row, user, expiresAt)
    ensures Waiting(RunOps(cfg, ops), code, row, user, expiresAt) <==>
            forall j :: n <= j < |ops| ==> !EndsAt(cfg, ops, j, code, row, user)
  {
    hide ApplyOp, Ends;
    if n == |ops| {
      assert ops[..n] == ops;
    } else {
      var m := |ops| - 1;
      var front := ops[..m];
      assert front[..n] == ops[..n];
      UsableUntilEnded(cfg, front, n, code, row, user, expiresAt);
      forall j | n <= j < m ensures EndsAt(cfg, front, j, code, row, user) <==> EndsAt(cfg, ops, j, code, row, user) {
        assert front[..j] == ops[..j];
      }
      RunKeepsInv(cfg, front);
      var db := RunOps(cfg, front);
      OpKeeps(cfg, db, ops[m]);
      assert RunOps(cfg, ops) == ApplyOp(cfg, db, ops[m]);
      if Waiting(db, code, row, user, expiresAt) {
        OpEndsCode(cfg, db, ops[m], code, row, user, expiresAt);
        assert EndsAt(cfg, ops, m, code, row, user) <==> Ends(cfg, db, ops[m], code, row, user);
        forall j | n <= j < |ops| ensures EndsAt(cfg, ops, j, code, row, user) ==> j == m { }
      } else {
        RunGrows(cfg, front, n);
        var j :| n <= j < m && EndsAt(cfg, front, j, code, row, user);
        assert EndsAt(cfg, ops, j, code, row, user);
      }
    }
  }

  lemma IssuedCodeWaits(cfg: Config, ops: seq<Op>, k: nat, code: string, row: nat)
    requires OpsOk(ops) && IssuedAt(cfg, ops, k, code, row)
    ensures Waiting(RunOps(cfg, ops[..k + 1]), code, row, ops[k].user, ops[k].clock.now + cfg.ttl)
    ensures code in ops[k].draws
  {
    hide IssueRequest;
    RunKeepsInv(cfg, ops[..k]);
    IssueAllOrNothing(RunOps(cfg, ops[..k]), cfg, ops[k].user, ops[k].draws, ops[k].clock);
    assert ops[..k + 1][..k] == ops[..k];
  }

  /**
   From issue to link, over whole runs: after operation k issued a code, a direct message
   that carries it, in any casing and layout, from a peer that is free and under the limit,
   before the expiry, links the row the code was issued for exactly when nothing in between
   used the code, unlinked the owner or issued the owner another code. It then changes
   that row and that code only.
   */
  lemma IssuedCodeLinks(
    cfg: Config, ops: seq<Op>, k: nat, code: string, row: nat,
    dialog: int, peer: int, text: string, typed: string, profile: Profile, clock: Clock)
    requires OpsOk(ops) && IssuedAt(cfg, ops, k, code, row)
    requires Matchable(cfg.linkCommand) && !IsChatPeer(dialog)
    requires Carries(text, cfg.linkCommand, typed) && SameLetters(typed, code)
    requires clock.now < ops[k].clock.now + cfg.ttl
    requires FindPeer(RunOps(cfg, ops).bindings, peer) == None
    requires !Refuses(RunOps(cfg, ops).journal, peer, clock.check, cfg.window, cfg.maxAttempts)
    ensures
      var db, user := RunOps(cfg, ops), ops[k].user;
      var (d, reply) := HandleMessage(db, cfg, dialog, peer, text, profile, clock);
      && (reply == Answered(Linked(user, row)) <==> forall j :: k < j < |ops| ==> !EndsAt(cfg, ops, j, code, row, user))
      && (reply == Answered(Linked(user, row)) ==>
            && row < |db.bindings|
            && d.bindings == db.bindings[row := Binding(user, Some(peer), Active, profile.screenName, profile.displayName, None)]
            && d.codes == db.codes[code := Conf(row, ops[k].clock.now + cfg.ttl, Some(clock.now))])
  {
    hide RunOps, HandleMessage, Refuses, Carries, SameLetters, Matchable, FindPeer, EndsAt, TablesOk, Waiting, OverAlphabet;
    var user, expiresAt := ops[k].user, ops[k].clock.now + cfg.ttl;
    IssuedCodeWaits(cfg, ops, k, code, row);
    UsableUntilEnded(cfg, ops, k + 1, code, row, user, expiresAt);
    FreshCodeIsGood(ops[k].draws, code);
    RunKeepsInv(cfg, ops);
    CodeStaysStored(cfg, ops, k + 1, code, row, user, expiresAt);
    LinksIffWaiting(RunOps(cfg, ops), cfg, dialog, peer, text, typed, profile, clock, code, row, user, expiresAt);
  }

  lemma CodeStaysStored(cfg: Config, ops: seq<Op>, n: nat, code: string, row: nat, user: Uuid, expiresAt: int)
    requires OpsOk(ops) && n <= |ops| && Waiting(RunOps(cfg, ops[..n]), code, row, user, expiresAt)
    ensures
      var db := RunOps(cfg, ops);
      code in db.codes && (db.codes[code].usedAt.Some? || Waiting(db, code, row, user, expiresAt))
  {
    hide ApplyOp;
    RunGrows(cfg, ops, n);
  }

  /** In one state: the message links the row exactly when the code still waits. */
  lemma LinksIffWaiting(
    db: Db, cfg: Config, dialog: int, peer: int, text: string, typed: string, profile: Profile, clock: Clock,
    code: string, row: nat, user: Uuid, expiresAt: int)
    requires Inv(db) && code in db.codes && (db.codes[code].usedAt.Some? || Waiting(db, code, row, user, expiresAt))
    requires Matchable(cfg.linkCommand) && !IsChatPeer(dialog) && Carries(text, cfg.linkCommand, typed)
    requires OverAlphabet(code) && SameLetters(typed, code) && clock.now < expiresAt
    requires FindPeer(db.bindings, peer) == None && !Refuses(db.journal, peer, clock.check, cfg.window, cfg.maxAttempts)
    ensures
      var (d, reply) := HandleMessage(db, cfg, dialog, peer, text, profile, clock);
      && (reply == Answered(Linked(user, row)) <==> Waiting(db, code, row, user, expiresAt))
      && (reply == Answered(Linked(user, row)) ==>
            && row < |db.bindings|
            && d.bindings == db.bindings[row := Binding(user, Some(peer), Active, profile.screenName, profile.displayName, None)]
            && d.codes == db.codes[code := Conf(row, expiresAt, Some(clock.now))])
  {
    hide HandleMessage, Confirm, Refuses, Carries, SameLetters, Matchable, FindPeer, NormalizeCode, OverAlphabet;
    if Waiting(db, code, row, user, expiresAt) {
      assert Unused(db.codes, code);
      IssuedCodeLinksIn(db, cfg, dialog, peer, text, typed, profile, clock, code, row);
    } else {
      NormalizeRestores(typed, code);
      UsedCodeLinksNobody(db, cfg, typed, peer, profile, clock);
      MessageConfirms(db, cfg, dialog, peer, text, typed, profile, clock);
    }
  }

  lemma UsedCodeLinksNobody(db: Db, cfg: Config, typed: string, peer: int, profile: Profile, clock: Clock)
    requires NormalizeCode(typed) in db.codes && db.codes[NormalizeCode(typed)].usedAt.Some?
    ensures !Confirm(db, cfg, typed, peer, profile, clock).1.Linked?
  {
    hide NormalizeCode, Refuses;
  }

  lemma IssuedCodeLinksIn(
    d: Db, cfg: Config, dialog: int, peer: int, text: string, typed: string, profile: Profile, clock: Clock, code: string, row: nat)
    requires Matchable(cfg.linkCommand) && !IsChatPeer(dialog) && Carries(text, cfg.linkCommand, typed)
    requires OverAlphabet(code) && SameLetters(typed, code)
    requires Unused(d.codes, code) && d.codes[code].row == row && clock.now < d.codes[code].expiresAt
    requires row < |d.bindings| && Live(d.bindings[row])
    requires FindPeer(d.bindings, peer) == None && !Refuses(d.journal, peer, clock.check, cfg.window, cfg.maxAttempts)
    ensures
      var (d', reply) := HandleMessage(d, cfg, dialog, peer, text, profile, clock);
      && reply == Answered(Linked(d.bindings[row].user, row))
      && d'.bindings == d.bindings[row := Activated(d.bindings[row], peer, profile.screenName, profile.displayName)]
      && d'.codes == d.codes[code := d.codes[code].(usedAt := Some(clock.now))]
  {
    hide HandleMessage, Confirm, Refuses, Carries, Matchable, FindPeer, OverAlphabet, SameLetters, NormalizeCode;
    NormalizeRestores(typed, code);
    LinkWithCode(d, cfg, typed, peer, profile, clock, code, row);
    MessageConfirms(d, cfg, dialog, peer, text, typed, profile, clock);
  }

  /** A direct message that carries a code is a confirmation with it. */
  lemma MessageConfirms(db: Db, cfg: Config, dialog: int, peer: int, text: string, typed: string, profile: Profile, clock: Clock)
    requires Matchable(cfg.linkCommand) && !IsChatPeer(dialog) && Carries(text, cfg.linkCommand, typed)
    ensures
      var (d, outcome) := Confirm(db, cfg, typed, peer, profile, clock);
      HandleMessage(db, cfg, dialog, peer, text, profile, clock) == (d, Answered(outcome))
  {
    hide Confirm;
    CarriedCodeIsParsed(text, cfg.linkCommand, typed);
  }

  lemma FreshCodeIsGood(draws: seq<string>, code: string)
    requires DrawsOk(draws) && code in draws
    ensures code != "" && OverAlphabet(code)
  {
  }

  lemma LinkWithCode(db: Db, cfg: Config, typed: string, peer: int, profile: Profile, clock: Clock, code: string, row: nat)
    requires NormalizeCode(typed) == code && Unused(db.codes, code) && db.codes[code].row == row
    requires clock.now < db.codes[code].expiresAt && row < |db.bindings| && Live(db.bindings[row])
    requires FindPeer(db.bindings, peer) == None && !Refuses(db.journal, peer, clock.check, cfg.window, cfg.maxAttempts)
    ensures
      var (d, outcome) := Confirm(db, cfg, typed, peer, profile, clock);
      && outcome == Linked(db.bindings[row].user, row)
      && d.bindings == db.bindings[row := Activated(db.bindings[row], peer, profile.screenName, profile.displayName)]
      && d.codes == db.codes[code := db.codes[code].(usedAt := Some(clock.now))]
  {
    hide NormalizeCode, Refuses;
  }

  /** Every message leaves exactly one journal row, and nothing else unless it links. */
  lemma MessagesLogOnce(db: Db, cfg: Config, dialog: int, from: int, text: string, profile: Profile, clock: Clock)
    ensures
      var (d, reply) := HandleMessage(db, cfg, dialog, from, text, profile, clock);
      && |d.journal| == |db.journal| + 1 && d.journal[..|db.journal|] == db.journal
      && d.journal[|db.journal|].at == clock.at
      && d.journal[|db.journal|].peer == Some(if reply.Answered? then from else dialog)
      && (!(reply.Answered? && reply.outcome.Linked?) ==> d.bindings == db.bindings && d.codes == db.codes)
      && (reply.Answered? && reply.outcome in {UnknownCode, CodeUsed, CodeExpired, PeerTaken} <==>
            CountedFor(d.journal[|db.journal|], from))
  {
    hide Refuses, NormalizeCode, ParseLinkCommand;
  }

  /**
   A denied peer is in no delivery's snapshot, whatever users are listed; allowing it again
   restores the bindings exactly.
   */
  lemma DenyThenAllow(db: Db, i: nat, peer: int, users: seq<Uuid>, deny: Clock, allow: Clock)
    requires Inv(db) && BoundTo(db, i, peer)
    ensures
      var denied := Transition(db, peer, Blocked, MessageDeny, deny);
      && (forall u :: u in Snapshot(denied.bindings, users) ==> Snapshot(denied.bindings, users)[u] != peer)
      && Transition(denied, peer, Active, MessageAllow, allow).bindings == db.bindings
  {
    var denied := Transition(db, peer, Blocked, MessageDeny, deny);
    TransitionKeeps(db, peer, Blocked, MessageDeny, deny);
    FindPeerUnique(db.bindings, peer, i);
    FindPeerUnique(denied.bindings, peer, i);
    SnapshotExact(denied.bindings, users);
    var m := Snapshot(denied.bindings, users);
    forall u | u in m ensures m[u] != peer {
      var j :| 0 <= j < |denied.bindings| && Reachable(denied.bindings[j], u);
      FindPeerUnique(denied.bindings, peer, j);
    }
  }

  /**
   Unlinking severs the owner: no live row, no delivery, no code that could still link one
   of the owner's rows. The peer is told exactly when the binding was ACTIVE. Doing it again
   changes no binding and no code.
   */
  lemma UnlinkSevers(db: Db, user: Uuid, users: seq<Uuid>, clock: Clock, again: Clock)
    requires Inv(db)
    ensures
      var (d, notify) := UnlinkUser(db, user, clock);
      && (forall i :: 0 <= i < |d.bindings| ==> !LiveUser(d.bindings[i], user))
      && user !in Snapshot(d.bindings, users)
      && (forall c :: Unused(d.codes, c) ==> d.bindings[d.codes[c].row].user != user)
      && (forall p :: notify == Some(p) <==>
            exists i :: 0 <= i < |db.bindings| && LiveUser(db.bindings[i], user) && BoundTo(db, i, p))
      && UnlinkUser(d, user, again).0.bindings == d.bindings && UnlinkUser(d, user, again).0.codes == d.codes
  {
    var (d, notify) := UnlinkUser(db, user, clock);
    UnlinkKeeps(db, user, clock);
    SnapshotExact(d.bindings, users);
    forall p, i | 0 <= i < |db.bindings| && LiveUser(db.bindings[i], user) && BoundTo(db, i, p) ensures notify == Some(p) {
      FindUserUnique(db.bindings, user, i);
    }
  }

  /** The journal's clock never runs behind the limit check of the same message. */
  predicate StampedAfterCheck(op: Op) {
    op.MessageOp? ==> op.clock.at >= op.clock.check
  }

  ghost predicate WindowsBounded(journal: seq<Entry>, cfg: Config) {
    forall p, a :: InWindow(journal, p, a, cfg.window) <= cfg.maxAttempts
  }

  lemma OneMoreEntry(journal: seq<Entry>, cfg: Config, e: Entry, check: int)
    requires WindowsBounded(journal, cfg)
    requires forall p :: CountedFor(e, p) ==> e.at >= check && !Refuses(journal, p, check, cfg.window, cfg.maxAttempts)
    ensures WindowsBounded(journal + [e], cfg)
  {
    forall p, a ensures InWindow(journal + [e], p, a, cfg.window) <= cfg.maxAttempts {
      var times := FailureTimes(journal, p);
      FailureTimesAppend(journal, e, p);
      assert times + [] == times;
      CountAppend(times, e.at, a, a + cfg.window);
      assert InWindow(journal, p, a, cfg.window) <= cfg.maxAttempts;
      if CountedFor(e, p) && a <= e.at <= a + cfg.window {
        WindowWithinSince(times, a, a + cfg.window, check - cfg.window);
      }
    }
  }

  /** The verdicts of an issue that is refused because the owner is bound. */
  predicate IsConflict(e: Entry) {
    e.verdict == ConflictActive || e.verdict == ConflictBlocked
  }

  /** Each operation appends at most one journal row, no conflict, and one that counts only past the check. */
  lemma OpLogsOnce(cfg: Config, db: Db, op: Op) returns (e: Entry, check: int)
    requires OpOk(op)
    ensures ApplyOp(cfg, db, op).journal == db.journal || ApplyOp(cfg, db, op).journal == db.journal + [e]
    ensures !IsConflict(e)
    ensures StampedAfterCheck(op) ==>
              forall p :: CountedFor(e, p) ==> e.at >= check && !Refuses(db.journal, p, check, cfg.window, cfg.maxAttempts)
  {
    hide NormalizeCode, ParseLinkCommand, Refuses, FindPeer, FindUser, Invalidated, SoftDeleted;
    var journal := ApplyOp(cfg, db, op).journal;
    e := if |journal| > |db.journal| then journal[|db.journal|] else Entry(Unlink, Noop, None, 0);
    check := if op.MessageOp? then op.clock.check else 0;
  }

  /**
   A refused issue journals its verdict, and the rollback of its request takes the row back:
   over every serial run no journal row carries one of the two conflict verdicts.
   */
  lemma {:induction false} ConflictsNeverPersist(cfg: Config, ops: seq<Op>)
    requires OpsOk(ops)
    ensures forall i :: 0 <= i < |RunOps(cfg, ops).journal| ==> !IsConflict(RunOps(cfg, ops).journal[i])
  {
    hide ApplyOp;
    if ops == [] {
    } else {
      var n := |ops| - 1;
      ConflictsNeverPersist(cfg, ops[..n]);
      var e, _ := OpLogsOnce(cfg, RunOps(cfg, ops[..n]), ops[n]);
    }
  }

  /** Such an issue does write the row before it is rolled back. */
  lemma RefusedIssueLogsConflict(db: Db, cfg: Config, user: Uuid, draws: seq<string>, clock: Clock)
    requires Inv(db) && DrawsOk(draws)
    ensures
      var (d, r) := Issue(db, cfg, user, draws, clock);
      (exists i :: |db.journal| <= i < |d.journal| && IsConflict(d.journal[i])) <==> !MayIssue(db, user)
  {
    hide Invalidated, FirstFree;
    var (d, r) := Issue(db, cfg, user, draws, clock);
    if !MayIssue(db, user) {
      assert IsConflict(d.journal[|db.journal|]);
    }
  }

  /**
   The promise of the limit, over every serial run: no closed window of the configured
   length holds more than `maxAttempts` counted failures of one peer.
   */
  lemma {:induction false} AttemptsAreLimited(cfg: Config, ops: seq<Op>)
    requires OpsOk(ops) && forall i :: 0 <= i < |ops| ==> StampedAfterCheck(ops[i])
    ensures WindowsBounded(RunOps(cfg, ops).journal, cfg)
  {
    hide ApplyOp;
    if ops == [] {
    } else {
      var n := |ops| - 1;
      AttemptsAreLimited(cfg, ops[..n]);
      var db := RunOps(cfg, ops[..n]);
      var e, check := OpLogsOnce(cfg, db, ops[n]);
      OneMoreEntry(db.journal, cfg, e, check);
    }
  }
}
