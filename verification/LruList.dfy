/** The doubly linked circular list that threads the buffers of the cache.
    Links are buffer numbers; HEAD stands for the list head, which is not a buffer. */
module LruList {

  const NBUF: nat := 30
  const HEAD: nat := NBUF

  datatype Links = Links(prev: seq<nat>, next: seq<nat>)

  ghost predicate Distinct(order: seq<nat>) {
    forall i, j :: 0 <= i < j < |order| ==> order[i] != order[j]
  }

  ghost function Ring(order: seq<nat>): seq<nat> {
    [HEAD] + order + [HEAD]
  }

  /** Following next from HEAD visits exactly the buffers of order and comes back to HEAD;
      following prev visits them backwards. */
  ghost predicate Linked(l: Links, order: seq<nat>) {
    && |l.prev| == |l.next| == NBUF + 1
    && Distinct(order)
    && (forall i :: 0 <= i < |order| ==> order[i] < NBUF)
    && (forall i :: 0 <= i <= |order| ==> Joined(l, Ring(order), i))
  }

  /** Neighbours of the ring name each other. */
  ghost predicate Joined(l: Links, r: seq<nat>, i: nat) {
    && i + 1 < |r| && r[i] < |l.next| && r[i + 1] < |l.prev|
    && l.next[r[i]] == r[i + 1] && l.prev[r[i + 1]] == r[i]
  }

  /** The neighbours of b are joined. */
  function Unlink(l: Links, b: nat): (r: Links)
    requires b < |l.prev| == |l.next|
    requires l.next[b] < |l.prev| && l.prev[b] < |l.next|
  {
    Links(l.prev[l.next[b] := l.prev[b]], l.next[l.prev[b] := l.next[b]])
  }

  /** b goes in between the head and the first buffer. */
  function LinkFront(l: Links, b: nat): (r: Links)
    requires |l.prev| == |l.next| == NBUF + 1 && b < NBUF && l.next[HEAD] <= NBUF
  {
    Links(l.prev[b := HEAD][l.next[HEAD] := b], l.next[b := l.next[HEAD]][HEAD := b])
  }

  ghost function Without(order: seq<nat>, p: nat): seq<nat>
    requires p < |order|
  {
    order[..p] + order[p + 1..]
  }

  lemma Neighbours(l: Links, order: seq<nat>, p: nat)
    requires Linked(l, order) && p < |order|
    ensures l.prev[order[p]] == Ring(order)[p] <= NBUF
    ensures l.next[order[p]] == Ring(order)[p + 2] <= NBUF
  {
    var r := Ring(order);
    assert r[p + 1] == order[p];
    assert Joined(l, r, p) && Joined(l, r, p + 1);
  }

  /** The ring without one buffer: the two halves close up. */
  lemma RingWithout(order: seq<nat>, p: nat, i: nat)
    requires p < |order| && i <= |order|
    ensures var r' := Ring(Without(order, p)); |r'| == |order| + 1
    ensures Ring(Without(order, p))[i] == Ring(order)[if i <= p then i else i + 1]
  {
  }

  /** Different places of the ring hold different numbers, except that both ends are the head. */
  lemma RingApart(order: seq<nat>, i: nat, j: nat)
    requires Distinct(order) && (forall k :: 0 <= k < |order| ==> order[k] < NBUF)
    requires i < j <= |order| + 1 && (i > 0 || j <= |order|)
    ensures Ring(order)[i] != Ring(order)[j]
  {
  }

  lemma WithoutKeeps(order: seq<nat>, p: nat)
    requires Distinct(order) && (forall k :: 0 <= k < |order| ==> order[k] < NBUF) && p < |order|
    ensures var o' := Without(order, p);
      |o'| == |order| - 1 && Distinct(o') && forall k :: 0 <= k < |o'| ==> o'[k] < NBUF
  {
    var o' := Without(order, p);
    assert forall k :: 0 <= k < |o'| ==> o'[k] == order[if k < p then k else k + 1];
  }

  lemma UnlinkKeepsRing(l: Links, order: seq<nat>, p: nat)
    requires Linked(l, order) && p < |order|
    ensures l.prev[order[p]] <= NBUF && l.next[order[p]] <= NBUF
    ensures Linked(Unlink(l, order[p]), Without(order, p))
  {
    Neighbours(l, order, p);
    WithoutKeeps(order, p);
    forall i | 0 <= i < |order| ensures Joined(Unlink(l, order[p]), Ring(Without(order, p)), i) {
      UnlinkJoined(l, order, p, i);
    }
  }

  lemma UnlinkJoined(l: Links, order: seq<nat>, p: nat, i: nat)
    requires Linked(l, order) && p < |order| && i < |order|
    requires l.prev[order[p]] <= NBUF && l.next[order[p]] <= NBUF
    ensures Joined(Unlink(l, order[p]), Ring(Without(order, p)), i)
  {
    hide Ring, Without;
    Neighbours(l, order, p);
    RingWithout(order, p, i);
    RingWithout(order, p, i + 1);
    if i < p {
      assert Joined(l, Ring(order), i);
      RingApart(order, i, p);
      RingApart(order, i + 1, p + 2);
    } else if i > p {
      assert Joined(l, Ring(order), i + 1);
      RingApart(order, p, i + 1);
      RingApart(order, p + 2, i + 2);
    }
  }

  lemma LinkFrontKeepsRing(l: Links, order: seq<nat>, b: nat)
    requires Linked(l, order) && b < NBUF && b !in order
    ensures l.next[HEAD] <= NBUF
    ensures Linked(LinkFront(l, b), [b] + order)
  {
    assert Joined(l, Ring(order), 0);
    forall i | 0 <= i <= |order| + 1 ensures Joined(LinkFront(l, b), Ring([b] + order), i) {
      LinkFrontJoined(l, order, b, i);
    }
  }

  lemma LinkFrontJoined(l: Links, order: seq<nat>, b: nat, i: nat)
    requires Linked(l, order) && b < NBUF && b !in order && l.next[HEAD] <= NBUF && i <= |order| + 1
    ensures Joined(LinkFront(l, b), Ring([b] + order), i)
  {
    var r, r' := Ring(order), Ring([b] + order);
    assert Joined(l, r, 0);
    assert r'[0] == HEAD && r'[1] == b && r'[i + 1] == if i == 0 then b else r[i];
    if i >= 2 {
      assert Joined(l, r, i - 1);
      assert r'[i] == r[i - 1];
    }
  }

  /** order lists every buffer, most recently moved to the front first. */
  ghost predicate Stamped(order: seq<nat>, stamp: seq<nat>, clock: nat) {
    && |order| == |stamp| == NBUF
    && (forall i :: 0 <= i < NBUF ==> order[i] < NBUF)
    && (forall b :: 0 <= b < NBUF ==> b in order)
    && (forall i, j :: 0 <= i < j < NBUF ==> stamp[order[i]] > stamp[order[j]])
    && (forall b :: 0 <= b < NBUF ==> stamp[b] < clock)
  }

  lemma MoveStamped(order: seq<nat>, stamp: seq<nat>, clock: nat, p: nat)
    requires Stamped(order, stamp, clock) && p < NBUF
    ensures Stamped([order[p]] + Without(order, p), stamp[order[p] := clock], clock + 1)
  {
    var b := order[p];
    var o', s' := [b] + Without(order, p), stamp[b := clock];
    assert forall i :: 0 <= i < NBUF ==> o'[i] == order[Source(p, i)];
    forall c | 0 <= c < NBUF ensures c in o' {
      assert c in order;
      var i :| 0 <= i < NBUF && order[i] == c;
      assert o'[if i == p then 0 else if i < p then i + 1 else i] == c;
    }
    forall i, j | 0 <= i < j < NBUF ensures s'[o'[i]] > s'[o'[j]] {
      assert stamp[order[p]] != stamp[order[Source(p, j)]];
    }
  }

  /** Where element i of the list came from when element p went to the front. */
  ghost function Source(p: nat, i: nat): nat {
    if i == 0 then p else if i <= p then i - 1 else i
  }
}
