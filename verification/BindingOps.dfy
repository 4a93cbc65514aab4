/**
 Each operation of the binding domain as one atomic step on the three tables: what it
 leaves behind when its transaction ends, and what it answers.
 */
module BindingOps {
  import opened Wrappers
  import opened DeliveryLedger
  import opened Journal
  import opened BindingTables
  import opened LinkCommand

  const MAX_GENERATION_ATTEMPTS := 5

  datatype Config = Config(maxAttempts: nat, window: nat, ttl: nat, linkCommand: string)

  /** Clock readings of one operation: at the limit check, at the later decisions, and of its journal row. */
  datatype Clock = Clock(check: int, now: int, at: int)

  datatype Profile = Profile(screenName: Option<string>, displayName: Option<string>)

  datatype Issued =
    | Code(code: string, row: nat, expiresAt: int)
    | AlreadyActive
    | BotBlocked
    | NoUniqueCode
    | OwnerContended

  datatype Confirmed =
    | Linked(user: Uuid, row: nat)
    | LinkedBefore(user: Uuid, row: nat)
    | TooManyAttempts
    | UnknownCode
    | CodeUsed
    | CodeExpired
    | BindingMissing
    | PeerTaken
    | RowVanished

  datatype Replied = Ignored | NotACommand | CodeMissing | Answered(outcome: Confirmed) | Failed

  function Log(db: Db, action: Action, verdict: Verdict, peer: Option<int>, at: int): Db {
    db.(journal := db.journal + [Entry(action, verdict, peer, at)])
  }

  /** The owner's live row, created when there is none. */
  function Ensure(db: Db, user: Uuid): (r: (Db, nat))
    ensures r.1 < |r.0.bindings| && LiveUser(r.0.bindings[r.1], user)
  {
    match FindUser(db.bindings, user)
    case Some(i) => (db, i)
    case None => (db.(bindings := db.bindings + [NewBinding(user)]), |db.bindings|)
  }

  /** The first of at most n drawn codes that no confirmation row holds. */
  function FirstFree(codes: Codes, draws: seq<string>, n: nat): (r: Option<string>)
    requires n <= |draws|
    ensures r.Some? ==> r.value in draws[..n] && r.value !in codes
    ensures r.None? ==> forall i :: 0 <= i < n ==> draws[i] in codes
  {
    if n == 0 then None
    else
      match FirstFree(codes, draws, n - 1)
      case Some(c) => Some(c)
      case None => if draws[n - 1] in codes then None else Some(draws[n - 1])
  }

  /** A new code for a waiting row, after its earlier codes are invalidated. */
  function IssueFor(db: Db, cfg: Config, row: nat, draws: seq<string>, clock: Clock): (Db, Issued)
    requires |draws| == MAX_GENERATION_ATTEMPTS
  {
    var d := db.(codes := Invalidated(db.codes, row, clock.now));
    match FirstFree(d.codes, draws, MAX_GENERATION_ATTEMPTS)
    case None => (d, NoUniqueCode)
    case Some(code) =>
      var expiresAt := clock.now + cfg.ttl;
      (Log(d.(codes := d.codes[code := Conf(row, expiresAt, None)]), IssueCode, Success, None, clock.at),
       Code(code, row, expiresAt))
  }

  /** The service's own work, before the transaction decides about it. */
  function Issue(db: Db, cfg: Config, user: Uuid, draws: seq<string>, clock: Clock): (Db, Issued)
    requires |draws| == MAX_GENERATION_ATTEMPTS
  {
    var (d, row) := Ensure(db, user);
    match d.bindings[row].state
    case Active => (Log(d, IssueCode, ConflictActive, None, clock.at), AlreadyActive)
    case Blocked => (Log(d, IssueCode, ConflictBlocked, None, clock.at), BotBlocked)
    case Pending => IssueFor(d, cfg, row, draws, clock)
  }

  /** The HTTP boundary: an error rolls everything back, the refusal's journal row included. */
  function IssueRequest(db: Db, cfg: Config, user: Uuid, draws: seq<string>, clock: Clock): (Db, Issued)
    requires |draws| == MAX_GENERATION_ATTEMPTS
  {
    var (d, r) := Issue(db, cfg, user, draws, clock);
    if r.Code? then (d, r) else (db, r)
  }

  /** The binding a used code led to is still this peer's active one. */
  predicate SamePeerActive(bs: Bindings, row: nat, peer: int) {
    row < |bs| && LivePeer(bs[row], peer) && bs[row].state == Active
  }

  function Confirm(db: Db, cfg: Config, typed: string, peer: int, profile: Profile, clock: Clock): (Db, Confirmed) {
    var code := NormalizeCode(typed);
    if Refuses(db.journal, peer, clock.check, cfg.window, cfg.maxAttempts) then
      (Log(db, Confirmation, RateLimited, Some(peer), clock.at), TooManyAttempts)
    else if code !in db.codes then
      (Log(db, Confirmation, NotFound, Some(peer), clock.at), UnknownCode)
    else
      var conf := db.codes[code];
      var row := conf.row;
      if conf.usedAt.Some? then
        if SamePeerActive(db.bindings, row, peer) then
          (Log(db, Confirmation, AlreadyConfirmed, Some(peer), clock.at), LinkedBefore(db.bindings[row].user, row))
        else
          (Log(db, Confirmation, Used, Some(peer), clock.at), CodeUsed)
      else if conf.expiresAt <= clock.now then
        (Log(db, Confirmation, Expired, Some(peer), clock.at), CodeExpired)
      else if row >= |db.bindings| || !Live(db.bindings[row]) then
        (Log(db, Confirmation, ErrorVerdict, Some(peer), clock.at), BindingMissing)
      else if FindPeer(db.bindings, peer).Some? && FindPeer(db.bindings, peer) != Some(row) then
        (Log(db, Confirmation, PeerConflict, Some(peer), clock.at), PeerTaken)
      else
        var bound := Activated(db.bindings[row], peer, profile.screenName, profile.displayName);
        var d := db.(bindings := db.bindings[row := bound], codes := db.codes[code := conf.(usedAt := Some(clock.now))]);
        (Log(d, Confirmation, Success, Some(peer), clock.at), Linked(bound.user, row))
  }

  /** Second part of the answer: the peer to be told about the unlink. */
  function UnlinkUser(db: Db, user: Uuid, clock: Clock): (Db, Option<int>) {
    match FindUser(db.bindings, user)
    case None => (Log(db, Unlink, Noop, None, clock.at), None)
    case Some(row) =>
      var b := db.bindings[row];
      var d := db.(codes := Invalidated(db.codes, row, clock.now), bindings := SoftDeleted(db.bindings, user, clock.now));
      (Log(d, Unlink, Success, None, clock.at), if b.state == Active then b.peer else None)
  }

  function Transition(db: Db, peer: int, state: VkState, action: Action, clock: Clock): Db {
    match FindPeer(db.bindings, peer)
    case None => Log(db, action, NoBinding, Some(peer), clock.at)
    case Some(row) =>
      Log(db.(bindings := db.bindings[row := db.bindings[row].(state := state)]), action, Success, Some(peer), clock.at)
  }

  /** A message to the bot; its journal row is committed whatever the answer. */
  function HandleMessage(db: Db, cfg: Config, dialog: int, from: int, text: string, profile: Profile, clock: Clock): (Db, Replied) {
    if IsChatPeer(dialog) then (Log(db, Message, IgnoredChat, Some(dialog), clock.at), Ignored)
    else
      match ParseLinkCommand(text, cfg.linkCommand)
      case None => (Log(db, Message, UnknownCommand, Some(dialog), clock.at), NotACommand)
      case Some(typed) =>
        if typed == "" then (Log(db, Message, MissingCode, Some(dialog), clock.at), CodeMissing)
        else
          var (d, outcome) := Confirm(db, cfg, typed, from, profile, clock);
          (d, Answered(outcome))
  }

  datatype Op =
    | EnsureOp(user: Uuid)
    | IssueOp(user: Uuid, draws: seq<string>, clock: Clock)
    | UnlinkOp(user: Uuid, clock: Clock)
    | MessageOp(dialog: int, from: int, text: string, profile: Profile, clock: Clock)
    | DenyOp(peer: int, clock: Clock)
    | AllowOp(peer: int, clock: Clock)

  const EMPTY := Db([], map[], [])

  /** Five draws over the code alphabet, none of them empty. */
  predicate DrawsOk(draws: seq<string>) {
    |draws| == MAX_GENERATION_ATTEMPTS && forall i :: 0 <= i < |draws| ==> draws[i] != "" && OverAlphabet(draws[i])
  }

  predicate OpOk(op: Op) {
    op.IssueOp? ==> DrawsOk(op.draws)
  }

  function ApplyOp(cfg: Config, db: Db, op: Op): Db
    requires OpOk(op)
  {
    match op
    case EnsureOp(user) => Ensure(db, user).0
    case IssueOp(user, draws, clock) => IssueRequest(db, cfg, user, draws, clock).0
    case UnlinkOp(user, clock) => UnlinkUser(db, user, clock).0
    case MessageOp(dialog, from, text, profile, clock) => HandleMessage(db, cfg, dialog, from, text, profile, clock).0
    case DenyOp(peer, clock) => Transition(db, peer, Blocked, MessageDeny, clock)
    case AllowOp(peer, clock) => Transition(db, peer, Active, MessageAllow, clock)
  }

  /** Operations one after another, each in its own transaction, from empty tables. */
  function RunOps(cfg: Config, ops: seq<Op>): Db
    requires forall i :: 0 <= i < |ops| ==> OpOk(ops[i])
  {
    if ops == [] then EMPTY
    else ApplyOp(cfg, RunOps(cfg, ops[..|ops| - 1]), ops[|ops| - 1])
  }
}
