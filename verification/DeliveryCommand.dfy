/**
 The command schema: the recipient list is deduplicated keeping the order of first
 listing, and the text is stripped and bounded.
 */
module DeliveryCommand {
  import opened DeliveryLedger
  import opened DeliveryLoop

  /** Insertion-ordered keys: a repeated value keeps its first place. */
  function Dedup(listed: seq<Uuid>): seq<Uuid> {
    if listed == [] then []
    else
      var kept, last := Dedup(listed[..|listed| - 1]), listed[|listed| - 1];
      if last in kept then kept else kept + [last]
  }

  /** Position i is where x is listed for the first time. */
  ghost predicate FirstListed(listed: seq<Uuid>, x: Uuid, i: nat) {
    i < |listed| && listed[i] == x && x !in listed[..i]
  }

  /** No repeats, no loss, and first listings in order. */
  ghost predicate FirstListingOrder(kept: seq<Uuid>, listed: seq<Uuid>) {
    && Distinct(kept)
    && (forall x :: x in kept <==> x in listed)
    && (forall i, j, a, b :: 0 <= i < j < |kept| && FirstListed(listed, kept[i], a) && FirstListed(listed, kept[j], b) ==> a < b)
  }

  lemma {:induction false} DedupKeepsFirstListings(listed: seq<Uuid>)
    ensures FirstListingOrder(Dedup(listed), listed)
  {
    if listed == [] {
    } else {
      var n := |listed| - 1;
      var front, last := listed[..n], listed[n];
      DedupKeepsFirstListings(front);
      var kept := Dedup(listed);
      assert listed == front + [last];
      forall i, j, a: nat, b: nat | 0 <= i < j < |kept| && FirstListed(listed, kept[i], a) && FirstListed(listed, kept[j], b)
        ensures a < b
      {
        assert kept[i] in front;
        assert kept[i] in listed[..n];
        assert front[..a] == listed[..a];
        assert FirstListed(front, kept[i], a);
        if b < n {
          assert front[..b] == listed[..b];
          assert FirstListed(front, kept[j], b);
          assert kept[j] in Dedup(front);
        }
      }
    }
  }

  lemma {:induction false} FirstListedExists(listed: seq<Uuid>, x: Uuid) returns (i: nat)
    requires x in listed
    ensures FirstListed(listed, x, i)
  {
    if listed[0] == x {
      i := 0;
    } else {
      var j := FirstListedExists(listed[1..], x);
      i := j + 1;
      assert listed[..i] == [listed[0]] + listed[1..][..j];
    }
  }

  /** The three promises leave only one list: it is the deduplicated one. */
  lemma {:induction false} FirstListingOrderIsUnique(a: seq<Uuid>, b: seq<Uuid>, listed: seq<Uuid>)
    requires FirstListingOrder(a, listed) && FirstListingOrder(b, listed)
    ensures a == b
  {
    PrefixAgrees(a, b, listed, |a|);
    PrefixAgrees(b, a, listed, |b|);
  }

  lemma {:induction false} PrefixAgrees(a: seq<Uuid>, b: seq<Uuid>, listed: seq<Uuid>, n: nat)
    requires FirstListingOrder(a, listed) && FirstListingOrder(b, listed)
    requires n <= |a|
    ensures n <= |b| && a[..n] == b[..n]
  {
    if n == 0 {
    } else {
      PrefixAgrees(a, b, listed, n - 1);
      forall t | 0 <= t < n - 1 ensures a[t] == b[t] {
        assert a[..n - 1][t] == b[..n - 1][t];
      }
      var x := a[n - 1];
      assert x in b;
      var q :| 0 <= q < |b| && b[q] == x;
      if q > n - 1 {
        var y := b[n - 1];
        assert y in a;
        var p :| 0 <= p < |a| && a[p] == y;
        var i := FirstListedExists(listed, x);
        var j := FirstListedExists(listed, y);
        assert false;
      }
    }
  }
}
