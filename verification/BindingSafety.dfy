/**
 What every serial run of the binding operations keeps, and what its rows tell about the
 run that led to them.
 */
module BindingSafety {
  import opened Wrappers
  import opened DeliveryLedger
  import opened Journal
  import opened BindingTables
  import opened LinkCommand
  import opened BindingOps

  /** A row waits for its peer exactly when it has none, deleted rows included. */
  ghost predicate PendingIffUnbound(bs: Bindings) {
    forall i :: 0 <= i < |bs| ==> (bs[i].state == Pending <==> bs[i].peer.None?)
  }

  predicate Unused(codes: Codes, c: string) {
    c in codes && codes[c].usedAt.None?
  }

  ghost predicate CodesOk(bs: Bindings, codes: Codes) {
    && (forall c :: c in codes ==> c != "" && OverAlphabet(c) && codes[c].row < |bs|)
    && (forall c :: Unused(codes, c) ==> Live(bs[codes[c].row]) && bs[codes[c].row].state == Pending)
    && (forall c, d :: Unused(codes, c) && Unused(codes, d) && codes[c].row == codes[d].row ==> c == d)
  }

  ghost predicate TablesOk(bs: Bindings, codes: Codes) {
    UniqueLive(bs) && PendingIffUnbound(bs) && CodesOk(bs, codes)
  }

  ghost predicate Inv(db: Db) {
    TablesOk(db.bindings, db.codes)
  }

  ghost predicate BindingsGrow(a: Bindings, b: Bindings) {
    && |a| <= |b|
    && forall i :: 0 <= i < |a| ==>
                     && b[i].user == a[i].user
                     && (a[i].peer.Some? ==> b[i].peer == a[i].peer)
                     && (a[i].deletedAt.Some? ==> b[i] == a[i])
  }

  ghost predicate CodesGrow(a: Codes, b: Codes) {
    forall c :: c in a ==>
                  && c in b && b[c].row == a[c].row && b[c].expiresAt == a[c].expiresAt
                  && (a[c].usedAt.Some? ==> b[c].usedAt == a[c].usedAt)
  }

  /** Rows and codes only ever gain: what an operation may do to what is already stored. */
  ghost predicate Grows(a: Db, b: Db) {
    BindingsGrow(a.bindings, b.bindings) && CodesGrow(a.codes, b.codes)
  }

  lemma FindUserUnique(bs: Bindings, user: Uuid, i: nat)
    requires UniqueLive(bs) && i < |bs|
    ensures LiveUser(bs[i], user) <==> FindUser(bs, user) == Some(i)
  {
  }

  lemma FindPeerUnique(bs: Bindings, peer: int, i: nat)
    requires UniqueLive(bs) && i < |bs|
    ensures LivePeer(bs[i], peer) <==> FindPeer(bs, peer) == Some(i)
  {
  }

  lemma EnsureKeeps(db: Db, user: Uuid)
    requires Inv(db)
    ensures Inv(Ensure(db, user).0) && Grows(db, Ensure(db, user).0)
  {
  }

  lemma CodesGrowTwice(a: Codes, b: Codes, c: Codes)
    requires CodesGrow(a, b) && CodesGrow(b, c)
    ensures CodesGrow(a, c)
  {
  }

  lemma GrowsTwice(a: Db, b: Db, c: Db)
    requires Grows(a, b) && Grows(b, c)
    ensures Grows(a, c)
  {
    CodesGrowTwice(a.codes, b.codes, c.codes);
  }

  /** After invalidation the row has no unused code. */
  lemma InvalidateKeeps(bs: Bindings, codes: Codes, row: nat, now: int)
    requires TablesOk(bs, codes)
    ensures
      var codes' := Invalidated(codes, row, now);
      TablesOk(bs, codes') && CodesGrow(codes, codes') && forall c :: Unused(codes', c) ==> codes'[c].row != row
  {
    var codes' := Invalidated(codes, row, now);
    forall c | Unused(codes', c) ensures Unused(codes, c) && codes'[c] == codes[c] && codes'[c].row != row {
    }
  }

  lemma StoreKeeps(bs: Bindings, codes: Codes, row: nat, code: string, expiresAt: int)
    requires TablesOk(bs, codes) && row < |bs| && Live(bs[row]) && bs[row].state == Pending
    requires code !in codes && code != "" && OverAlphabet(code)
    requires forall c :: Unused(codes, c) ==> codes[c].row != row
    ensures
      var codes' := codes[code := Conf(row, expiresAt, None)];
      TablesOk(bs, codes') && CodesGrow(codes, codes')
      && forall c :: Unused(codes', c) && codes'[c].row == row ==> c == code
  {
    var codes' := codes[code := Conf(row, expiresAt, None)];
    forall c | Unused(codes', c) ensures c == code || (Unused(codes, c) && codes'[c].row != row) {
    }
  }

  lemma FreeCodeIsGood(codes: Codes, draws: seq<string>)
    requires DrawsOk(draws) && FirstFree(codes, draws, MAX_GENERATION_ATTEMPTS).Some?
    ensures
      var code := FirstFree(codes, draws, MAX_GENERATION_ATTEMPTS).value;
      code !in codes && code != "" && OverAlphabet(code)
  {
    assert FirstFree(codes, draws, MAX_GENERATION_ATTEMPTS).value in draws;
  }

  lemma IssueForKeeps(db: Db, cfg: Config, row: nat, draws: seq<string>, clock: Clock)
    requires Inv(db) && DrawsOk(draws) && row < |db.bindings| && Live(db.bindings[row]) && db.bindings[row].state == Pending
    ensures
      var d := IssueFor(db, cfg, row, draws, clock).0;
      Inv(d) && d.bindings == db.bindings && CodesGrow(db.codes, d.codes)
  {
    hide TablesOk, CodesGrow, OverAlphabet;
    InvalidateKeeps(db.bindings, db.codes, row, clock.now);
    var codes := Invalidated(db.codes, row, clock.now);
    var free := FirstFree(codes, draws, MAX_GENERATION_ATTEMPTS);
    if free.Some? {
      FreeCodeIsGood(codes, draws);
      StoreKeeps(db.bindings, codes, row, free.value, clock.now + cfg.ttl);
      CodesGrowTwice(db.codes, codes, codes[free.value := Conf(row, clock.now + cfg.ttl, None)]);
    }
  }

  lemma IssueKeeps(db: Db, cfg: Config, user: Uuid, draws: seq<string>, clock: Clock)
    requires Inv(db) && DrawsOk(draws)
    ensures
      var d := Issue(db, cfg, user, draws, clock).0;
      Inv(d) && Grows(db, d)
  {
    var (d, row) := Ensure(db, user);
    EnsureKeeps(db, user);
    if d.bindings[row].state == Pending {
      IssueForKeeps(d, cfg, row, draws, clock);
    }
  }

  /** Binding a waiting row to a free peer and using its code up. */
  lemma LinkKeeps(bs: Bindings, codes: Codes, code: string, peer: int, profile: Profile, now: int)
    requires TablesOk(bs, codes) && Unused(codes, code)
    requires FindPeer(bs, peer).None? || FindPeer(bs, peer) == Some(codes[code].row)
    ensures
      var row := codes[code].row;
      var bs' := bs[row := Activated(bs[row], peer, profile.screenName, profile.displayName)];
      var codes' := codes[code := codes[code].(usedAt := Some(now))];
      TablesOk(bs', codes') && BindingsGrow(bs, bs') && CodesGrow(codes, codes')
  {
    var row := codes[code].row;
    var codes' := codes[code := codes[code].(usedAt := Some(now))];
    forall c | Unused(codes', c) ensures Unused(codes, c) && codes'[c].row != row {
    }
    forall i | 0 <= i < |bs| && i != row && Live(bs[i]) ensures bs[i].peer != Some(peer) {
      FindPeerUnique(bs, peer, i);
    }
  }

  lemma ConfirmKeeps(db: Db, cfg: Config, typed: string, peer: int, profile: Profile, clock: Clock)
    requires Inv(db)
    ensures
      var d := Confirm(db, cfg, typed, peer, profile, clock).0;
      Inv(d) && Grows(db, d)
  {
    hide NormalizeCode, Refuses, TablesOk, FindPeer;
    var (d, outcome) := Confirm(db, cfg, typed, peer, profile, clock);
    if outcome.Linked? {
      LinkKeeps(db.bindings, db.codes, NormalizeCode(typed), peer, profile, clock.now);
    }
  }

  lemma UnlinkKeeps(db: Db, user: Uuid, clock: Clock)
    requires Inv(db)
    ensures
      var d := UnlinkUser(db, user, clock).0;
      Inv(d) && Grows(db, d)
  {
    var found := FindUser(db.bindings, user);
    if found.Some? {
      var row := found.value;
      InvalidateKeeps(db.bindings, db.codes, row, clock.now);
      var codes := Invalidated(db.codes, row, clock.now);
      forall c | Unused(codes, c) ensures !LiveUser(db.bindings[codes[c].row], user) {
        FindUserUnique(db.bindings, user, codes[c].row);
      }
    }
  }

  lemma SetStateKeeps(bs: Bindings, codes: Codes, row: nat, state: VkState)
    requires TablesOk(bs, codes) && row < |bs| && Live(bs[row]) && bs[row].peer.Some? && state != Pending
    ensures
      var bs' := bs[row := bs[row].(state := state)];
      TablesOk(bs', codes) && BindingsGrow(bs, bs')
  {
  }

  lemma TransitionKeeps(db: Db, peer: int, state: VkState, action: Action, clock: Clock)
    requires Inv(db) && state != Pending
    ensures
      var d := Transition(db, peer, state, action, clock);
      Inv(d) && Grows(db, d)
  {
    hide TablesOk;
    var found := FindPeer(db.bindings, peer);
    if found.Some? { SetStateKeeps(db.bindings, db.codes, found.value, state); }
  }

  lemma OpKeeps(cfg: Config, db: Db, op: Op)
    requires Inv(db) && OpOk(op)
    ensures Inv(ApplyOp(cfg, db, op)) && Grows(db, ApplyOp(cfg, db, op))
  {
    hide Confirm, ParseLinkCommand, Issue, Ensure, UnlinkUser, Transition, TablesOk;
    match op
    case EnsureOp(user) => EnsureKeeps(db, user);
    case IssueOp(user, draws, clock) => IssueKeeps(db, cfg, user, draws, clock);
    case UnlinkOp(user, clock) => UnlinkKeeps(db, user, clock);
    case MessageOp(_, from, text, profile, clock) =>
      var parsed := ParseLinkCommand(text, cfg.linkCommand);
      if parsed.Some? { ConfirmKeeps(db, cfg, parsed.value, from, profile, clock); }
    case DenyOp(peer, clock) => TransitionKeeps(db, peer, Blocked, MessageDeny, clock);
    case AllowOp(peer, clock) => TransitionKeeps(db, peer, Active, MessageAllow, clock);
  }

  ghost predicate OpsOk(ops: seq<Op>) {
    forall i :: 0 <= i < |ops| ==> OpOk(ops[i])
  }

  /**
   Over every serial run: at most one live row per user and per peer, a row is PENDING
   exactly when its peer is null, a row has at most one unused code, and a row with an
   unused code is live and PENDING.
   */
  lemma {:induction false} RunKeepsInv(cfg: Config, ops: seq<Op>)
    requires OpsOk(ops)
    ensures Inv(RunOps(cfg, ops))
  {
    hide ApplyOp, Grows;
    if ops == [] {
    } else {
      RunKeepsInv(cfg, ops[..|ops| - 1]);
      OpKeeps(cfg, RunOps(cfg, ops[..|ops| - 1]), ops[|ops| - 1]);
    }
  }

  /** Whatever one row or code has gained by some moment, it still has later. */
  lemma {:induction false} RunGrows(cfg: Config, ops: seq<Op>, n: nat)
    requires OpsOk(ops) && n <= |ops|
    ensures Grows(RunOps(cfg, ops[..n]), RunOps(cfg, ops))
  {
    hide ApplyOp;
    if n == |ops| {
      assert ops[..n] == ops;
    } else {
      var m := |ops| - 1;
      var before := RunOps(cfg, ops[..m]);
      RunGrows(cfg, ops[..m], n);
      assert ops[..m][..n] == ops[..n];
      RunKeepsInv(cfg, ops[..m]);
      OpKeeps(cfg, before, ops[m]);
      assert RunOps(cfg, ops) == ApplyOp(cfg, before, ops[m]);
      GrowsTwice(RunOps(cfg, ops[..n]), before, RunOps(cfg, ops));
    }
  }

  /** In state db the operation is a message by which the peer confirms the row with the code. */
  ghost predicate Links(cfg: Config, db: Db, op: Op, row: nat, peer: int, code: string) {
    && op.MessageOp? && op.from == peer
    && ParseLinkCommand(op.text, cfg.linkCommand).Some?
    && NormalizeCode(ParseLinkCommand(op.text, cfg.linkCommand).value) == code
    && var reply := HandleMessage(db, cfg, op.dialog, peer, op.text, op.profile, op.clock).1;
    reply.Answered? && reply.outcome.Linked? && reply.outcome.row == row
  }

  /** Enough of the peer's failed confirmations are recent. */
  ghost predicate OverLimit(cfg: Config, db: Db, peer: int, check: int) {
    |FailedRows(db.journal, peer, check - cfg.window)| >= cfg.maxAttempts
  }

  /**
   What a confirmation finds and leaves: a peer under the limit, in a direct dialog, and an
   unused, unexpired code of an unbound row; a used one of a bound row.
   */
  ghost predicate LinkFacts(cfg: Config, before: Db, after: Db, op: Op, row: nat, peer: int, code: string)
    requires op.MessageOp?
  {
    && !OverLimit(cfg, before, peer, op.clock.check) && op.dialog < 2_000_000_000
    && Unused(before.codes, code) && before.codes[code].row == row && op.clock.now < before.codes[code].expiresAt
    && row < |before.bindings| && before.bindings[row].peer.None?
    && row < |after.bindings| && after.bindings[row].peer == Some(peer)
    && code in after.codes && after.codes[code].usedAt.Some?
  }

  lemma LinksNeedsValidCode(cfg: Config, db: Db, op: Op, row: nat, peer: int, code: string)
    requires Inv(db) && OpOk(op) && Links(cfg, db, op, row, peer, code)
    ensures op.MessageOp? && LinkFacts(cfg, db, ApplyOp(cfg, db, op), op, row, peer, code)
  {
    RefusesByRows(db.journal, peer, op.clock.check, cfg.window, cfg.maxAttempts);
    hide NormalizeCode, Refuses, ParseLinkCommand, FailedRows;
    assert Unused(db.codes, code);
  }

  /** Only a confirmation gives a row its peer. */
  lemma PeerComesFromConfirm(cfg: Config, db: Db, op: Op, row: nat) returns (code: string)
    requires Inv(db) && OpOk(op)
    requires
      var d := ApplyOp(cfg, db, op);
      row < |d.bindings| && d.bindings[row].peer.Some? && (row >= |db.bindings| || db.bindings[row].peer.None?)
    ensures Links(cfg, db, op, row, ApplyOp(cfg, db, op).bindings[row].peer.value, code)
  {
    hide NormalizeCode, Refuses, ParseLinkCommand, FindPeer;
    code := "";
    if op.MessageOp? {
      var parsed := ParseLinkCommand(op.text, cfg.linkCommand);
      if parsed.Some? { code := NormalizeCode(parsed.value); }
    }
  }

  /** Operation j of the run is such a confirmation. */
  ghost predicate ConfirmedAt(cfg: Config, ops: seq<Op>, j: nat, row: nat, peer: int, code: string)
    requires OpsOk(ops)
  {
    j < |ops| && Links(cfg, RunOps(cfg, ops[..j]), ops[j], row, peer, code)
  }

  /** What the run held before and after operation j. */
  ghost predicate LinkedAt(cfg: Config, ops: seq<Op>, j: nat, row: nat, peer: int, code: string)
    requires OpsOk(ops)
  {
    && j < |ops| && ops[j].MessageOp?
    && LinkFacts(cfg, RunOps(cfg, ops[..j]), RunOps(cfg, ops[..j + 1]), ops[j], row, peer, code)
  }

  lemma ConfirmedIsLinked(cfg: Config, ops: seq<Op>, j: nat, row: nat, peer: int, code: string)
    requires OpsOk(ops) && ConfirmedAt(cfg, ops, j, row, peer, code)
    ensures LinkedAt(cfg, ops, j, row, peer, code)
  {
    hide ApplyOp, Links, LinkFacts;
    var before := RunOps(cfg, ops[..j]);
    RunKeepsInv(cfg, ops[..j]);
    LinksNeedsValidCode(cfg, before, ops[j], row, peer, code);
    assert ops[..j + 1][..j] == ops[..j];
    assert RunOps(cfg, ops[..j + 1]) == ApplyOp(cfg, before, ops[j]);
  }

  lemma {:induction false} EveryPeerWasConfirmed(cfg: Config, ops: seq<Op>, row: nat) returns (j: nat, code: string)
    requires OpsOk(ops) && row < |RunOps(cfg, ops).bindings| && RunOps(cfg, ops).bindings[row].peer.Some?
    ensures ConfirmedAt(cfg, ops, j, row, RunOps(cfg, ops).bindings[row].peer.value, code)
  {
    hide ApplyOp, Links;
    var n := |ops| - 1;
    var before := RunOps(cfg, ops[..n]);
    RunKeepsInv(cfg, ops[..n]);
    assert RunOps(cfg, ops) == ApplyOp(cfg, before, ops[n]);
    if row < |before.bindings| && before.bindings[row].peer.Some? {
      j, code := EveryPeerWasConfirmed(cfg, ops[..n], row);
      OpKeeps(cfg, before, ops[n]);
      assert ops[..n][..j] == ops[..j];
    } else {
      j := n;
      code := PeerComesFromConfirm(cfg, before, ops[n], row);
    }
  }

  /** No row and no code is linked twice. */
  lemma LinkedOnce(cfg: Config, ops: seq<Op>, i: nat, j: nat, row: nat, row': nat, p: int, p': int, c: string, c': string)
    requires OpsOk(ops) && LinkedAt(cfg, ops, i, row, p, c) && LinkedAt(cfg, ops, j, row', p', c')
    requires i < j
    ensures row != row' && c != c'
  {
    hide ApplyOp;
    RunGrows(cfg, ops[..j], i + 1);
    assert ops[..j][..i + 1] == ops[..i + 1];
  }

  /** No row and no code is confirmed twice. */
  lemma ConfirmedOnce(cfg: Config, ops: seq<Op>, i: nat, j: nat, row: nat, row': nat, p: int, p': int, c: string, c': string)
    requires OpsOk(ops) && ConfirmedAt(cfg, ops, i, row, p, c) && ConfirmedAt(cfg, ops, j, row', p', c')
    ensures row == row' || c == c' ==> i == j
  {
    hide ApplyOp, Links, LinkFacts;
    ConfirmedIsLinked(cfg, ops, i, row, p, c);
    ConfirmedIsLinked(cfg, ops, j, row', p', c');
    if i < j { LinkedOnce(cfg, ops, i, j, row, row', p, p', c, c'); }
    if j < i { LinkedOnce(cfg, ops, j, i, row', row, p', p, c', c); }
  }

  /**
   Activation provenance: a row with a peer got it from one confirmation, by that peer, then
   under the limit and writing in a direct dialog, with a code that was then unused, the row's
   own, and strictly before its expiry.
   `ConfirmedOnce` says that it is the only confirmation of the row and of the code.
   */
  lemma ActivationProvenance(cfg: Config, ops: seq<Op>, row: nat) returns (j: nat, code: string)
    requires OpsOk(ops) && row < |RunOps(cfg, ops).bindings| && RunOps(cfg, ops).bindings[row].peer.Some?
    ensures ConfirmedAt(cfg, ops, j, row, RunOps(cfg, ops).bindings[row].peer.value, code)
    ensures ops[j].MessageOp? && ops[j].dialog < 2_000_000_000
    ensures !OverLimit(cfg, RunOps(cfg, ops[..j]), RunOps(cfg, ops).bindings[row].peer.value, ops[j].clock.check)
    ensures
      var codes := RunOps(cfg, ops[..j]).codes;
      Unused(codes, code) && codes[code].row == row && ops[j].clock.now < codes[code].expiresAt
  {
    hide ApplyOp, Links, OverLimit;
    j, code := EveryPeerWasConfirmed(cfg, ops, row);
    ConfirmedIsLinked(cfg, ops, j, row, RunOps(cfg, ops).bindings[row].peer.value, code);
  }

  /** A row keeps its peer for good. */
  lemma PeerNeverChanges(cfg: Config, ops: seq<Op>, n: nat, row: nat)
    requires OpsOk(ops) && n <= |ops|
    requires row < |RunOps(cfg, ops[..n]).bindings| && RunOps(cfg, ops[..n]).bindings[row].peer.Some?
    ensures row < |RunOps(cfg, ops).bindings|
    ensures RunOps(cfg, ops).bindings[row].peer == RunOps(cfg, ops[..n]).bindings[row].peer
  {
    hide ApplyOp;
    RunGrows(cfg, ops, n);
  }

  /** Operation k is a successful issue of the code, for the owner of the row it names. */
  ghost predicate IssuedAt(cfg: Config, ops: seq<Op>, k: nat, code: string, row: nat)
    requires OpsOk(ops)
  {
    && k < |ops| && ops[k].IssueOp?
    && var (d, r) := IssueRequest(RunOps(cfg, ops[..k]), cfg, ops[k].user, ops[k].draws, ops[k].clock);
    r.Code? && r.code == code && r.row == row && row < |d.bindings| && d.bindings[row].user == ops[k].user
  }

  lemma NewCodeWasIssued(cfg: Config, db: Db, op: Op, code: string)
    requires OpOk(op) && Inv(db) && code in ApplyOp(cfg, db, op).codes && code !in db.codes
    ensures op.IssueOp?
    ensures
      var (d, r) := IssueRequest(db, cfg, op.user, op.draws, op.clock);
      && r.Code? && r.code == code && r.row == ApplyOp(cfg, db, op).codes[code].row
      && r.row < |d.bindings| && d.bindings[r.row].user == op.user
  {
    hide NormalizeCode, Refuses, ParseLinkCommand;
  }

  /** Every stored code was issued for the row it is stored under. */
  lemma {:induction false} EveryCodeWasIssued(cfg: Config, ops: seq<Op>, code: string) returns (k: nat)
    requires OpsOk(ops) && code in RunOps(cfg, ops).codes
    ensures IssuedAt(cfg, ops, k, code, RunOps(cfg, ops).codes[code].row)
  {
    hide ApplyOp, IssueRequest;
    var n := |ops| - 1;
    var before := RunOps(cfg, ops[..n]);
    RunKeepsInv(cfg, ops[..n]);
    assert RunOps(cfg, ops) == ApplyOp(cfg, before, ops[n]);
    if code in before.codes {
      k := EveryCodeWasIssued(cfg, ops[..n], code);
      OpKeeps(cfg, before, ops[n]);
      assert ops[..n][..k] == ops[..k];
    } else {
      NewCodeWasIssued(cfg, before, ops[n], code);
      k := n;
    }
  }
}
