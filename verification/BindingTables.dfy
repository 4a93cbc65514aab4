/**
 The binding and confirmation tables. A binding row is named by its position: rows are
 appended and updated, never removed. Confirmation rows are keyed by their unique code.
 */
module BindingTables {
  import opened Wrappers
  import opened DeliveryLedger
  import opened Journal

  datatype VkState = Pending | Active | Blocked

  datatype Binding = Binding(
    user: Uuid,
    peer: Option<int>,
    state: VkState,
    screenName: Option<string>,
    displayName: Option<string>,
    deletedAt: Option<int>)

  datatype Conf = Conf(row: nat, expiresAt: int, usedAt: Option<int>)

  type Bindings = seq<Binding>
  type Codes = map<string, Conf>

  datatype Db = Db(bindings: Bindings, codes: Codes, journal: seq<Entry>)

  predicate Live(b: Binding) {
    b.deletedAt.None?
  }

  predicate LiveUser(b: Binding, user: Uuid) {
    Live(b) && b.user == user
  }

  predicate LivePeer(b: Binding, peer: int) {
    Live(b) && b.peer == Some(peer)
  }

  /** The two partial unique indexes over rows that are not deleted. */
  ghost predicate UniqueLive(bs: Bindings) {
    forall i, j :: 0 <= i < j < |bs| && Live(bs[i]) && Live(bs[j]) ==>
                     bs[i].user != bs[j].user && (bs[i].peer.Some? ==> bs[i].peer != bs[j].peer)
  }

  function FindUser(bs: Bindings, user: Uuid): (r: Option<nat>)
    ensures r.Some? ==> r.value < |bs| && LiveUser(bs[r.value], user)
    ensures r.None? ==> forall i :: 0 <= i < |bs| ==> !LiveUser(bs[i], user)
  {
    if bs == [] then None
    else
      var n := |bs| - 1;
      if LiveUser(bs[n], user) then Some(n) else FindUser(bs[..n], user)
  }

  function FindPeer(bs: Bindings, peer: int): (r: Option<nat>)
    ensures r.Some? ==> r.value < |bs| && LivePeer(bs[r.value], peer)
    ensures r.None? ==> forall i :: 0 <= i < |bs| ==> !LivePeer(bs[i], peer)
  {
    if bs == [] then None
    else
      var n := |bs| - 1;
      if LivePeer(bs[n], peer) then Some(n) else FindPeer(bs[..n], peer)
  }

  function NewBinding(user: Uuid): Binding {
    Binding(user, None, Pending, None, None, None)
  }

  function Activated(b: Binding, peer: int, screen: Option<string>, display: Option<string>): Binding {
    b.(peer := Some(peer), state := Active, screenName := screen, displayName := display)
  }

  /** Every live row of the owner is stamped as deleted. */
  function SoftDeleted(bs: Bindings, user: Uuid, now: int): (r: Bindings)
    ensures |r| == |bs|
    ensures forall i :: 0 <= i < |bs| ==> r[i] == if LiveUser(bs[i], user) then bs[i].(deletedAt := Some(now)) else bs[i]
  {
    seq(|bs|, i requires 0 <= i < |bs| => if LiveUser(bs[i], user) then bs[i].(deletedAt := Some(now)) else bs[i])
  }

  /** Every unused code of the row is stamped as used. */
  function Invalidated(codes: Codes, row: nat, now: int): Codes {
    map c | c in codes :: if codes[c].row == row && codes[c].usedAt.None? then codes[c].(usedAt := Some(now)) else codes[c]
  }

  /** The row whose peer a delivery to this user writes to: live, ACTIVE and bound. */
  ghost predicate Reachable(b: Binding, user: Uuid) {
    b.user == user && b.deletedAt == None && b.state == Active && b.peer != None
  }

  /** The delivery's map from listed users to peers, as read in one query. */
  function Snapshot(bs: Bindings, users: seq<Uuid>): map<Uuid, int> {
    if bs == [] then map[]
    else
      var n := |bs| - 1;
      var m := Snapshot(bs[..n], users);
      if bs[n].user in users && Live(bs[n]) && bs[n].state == Active && bs[n].peer.Some? then m[bs[n].user := bs[n].peer.value] else m
  }

  lemma {:induction false} SnapshotMembers(bs: Bindings, users: seq<Uuid>, u: Uuid)
    ensures u in Snapshot(bs, users) <==> u in users && exists i :: 0 <= i < |bs| && Reachable(bs[i], u)
  {
    if bs == [] {
    } else {
      var n := |bs| - 1;
      SnapshotMembers(bs[..n], users, u);
      if i :| 0 <= i < |bs[..n]| && Reachable(bs[..n][i], u) { assert Reachable(bs[i], u); }
      if i :| 0 <= i < |bs| && i != n && Reachable(bs[i], u) { assert Reachable(bs[..n][i], u); }
    }
  }

  lemma {:induction false} SnapshotPeer(bs: Bindings, users: seq<Uuid>, u: Uuid, i: nat)
    requires UniqueLive(bs) && u in Snapshot(bs, users) && i < |bs| && Reachable(bs[i], u)
    ensures Snapshot(bs, users)[u] == bs[i].peer.value
  {
    var n := |bs| - 1;
    SnapshotMembers(bs, users, u);
    if i == n {
    } else {
      SnapshotMembers(bs[..n], users, u);
      assert Reachable(bs[..n][i], u);
      SnapshotPeer(bs[..n], users, u, i);
    }
  }

  /** Under the unique indexes the snapshot is exact and gives different users different peers. */
  lemma SnapshotExact(bs: Bindings, users: seq<Uuid>)
    requires UniqueLive(bs)
    ensures
      var m := Snapshot(bs, users);
      && (forall u :: u in m <==> u in users && exists i :: 0 <= i < |bs| && Reachable(bs[i], u))
      && (forall u, i :: u in m && 0 <= i < |bs| && Reachable(bs[i], u) ==> m[u] == bs[i].peer.value)
      && (forall u, v :: u in m && v in m && m[u] == m[v] ==> u == v)
  {
    hide Snapshot;
    var m := Snapshot(bs, users);
    forall u ensures u in m <==> u in users && exists i :: 0 <= i < |bs| && Reachable(bs[i], u) {
      SnapshotMembers(bs, users, u);
    }
    forall u, i | u in m && 0 <= i < |bs| && Reachable(bs[i], u) ensures m[u] == bs[i].peer.value {
      SnapshotPeer(bs, users, u, i);
    }
    forall u, v | u in m && v in m && m[u] == m[v] ensures u == v {
      var i :| 0 <= i < |bs| && Reachable(bs[i], u);
      var j :| 0 <= j < |bs| && Reachable(bs[j], v);
      assert bs[i].peer == bs[j].peer;
    }
  }
}
