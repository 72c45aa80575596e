/** The handshake timeout list: an intrusive circular doubly linked list, swept
    while its nodes are being removed. */
module TimeoutList {
  const TIMEOUT_THRESHOLD_SEC := 3

  class Node {
    var next: Node?
    var prev: Node?
    const startTime: int

    /** ussl_dlink_init */
    constructor (startTime: int)
      ensures this.startTime == startTime && Alone()
    {
      this.startTime := startTime;
      next, prev := this, this;
    }

    ghost predicate Alone()
      reads this
    {
      next == this && prev == this
    }
  }

  predicate Expired(n: Node, now: int) {
    now - n.startTime > TIMEOUT_THRESHOLD_SEC
  }

  /** The expired nodes (or, with `expired` false, the others), in order. */
  function Select(nodes: seq<Node>, now: int, expired: bool): seq<Node> {
    if nodes == [] then []
    else (if Expired(nodes[0], now) == expired then [nodes[0]] else []) + Select(nodes[1..], now, expired)
  }

  lemma {:induction false} SelectSplits(nodes: seq<Node>, now: int)
    ensures forall n | n in nodes :: n in Select(nodes, now, now - n.startTime > 3)
    ensures forall n | n in Select(nodes, now, true) :: n in nodes && now - n.startTime > 3
    ensures forall n | n in Select(nodes, now, false) :: n in nodes && now - n.startTime <= 3
    ensures multiset(nodes) == multiset(Select(nodes, now, true)) + multiset(Select(nodes, now, false))
  {
    if nodes != [] {
      SelectSplits(nodes[1..], now);
      assert nodes == [nodes[0]] + nodes[1..];
    }
  }

  /** The pointers of some nodes at one moment. */
  type Links = map<Node, Node?>

  ghost predicate LinkAt(ring: seq<Node>, next: Links, prev: Links, i: nat)
    requires i + 1 < |ring|
  {
    && ring[i] in next && next[ring[i]] == ring[i + 1]
    && ring[i + 1] in prev && prev[ring[i + 1]] == ring[i]
  }

  ghost predicate Linked(ring: seq<Node>, next: Links, prev: Links) {
    forall i: nat | i + 1 < |ring| :: LinkAt(ring, next, prev, i)
  }

  /** No node twice, but the head at both ends. */
  ghost predicate IsRing(ring: seq<Node>) {
    && |ring| >= 2 && ring[0] == ring[|ring| - 1]
    && forall i: nat, j: nat | i < j < |ring| && (0 < i || j < |ring| - 1) :: Differ(ring, i, j)
  }

  ghost predicate Differ(ring: seq<Node>, i: nat, j: nat)
    requires i < |ring| && j < |ring|
  {
    ring[i] != ring[j]
  }

  ghost function Drop(s: seq<Node>, k: nat): (r: seq<Node>)
    requires k < |s|
    ensures |r| == |s| - 1 && forall i | 0 <= i < |r| :: r[i] == if i < k then s[i] else s[i + 1]
  {
    s[..k] + s[k + 1..]
  }

  lemma DropRing(ring: seq<Node>, k: nat)
    requires IsRing(ring) && 0 < k < |ring| - 1
    ensures IsRing(Drop(ring, k)) && ring[k] !in Drop(ring, k)
  {
    var s := Drop(ring, k);
    forall i: nat, j: nat | i < j < |s| && (0 < i || j < |s| - 1)
      ensures Differ(s, i, j)
    {
      assert Differ(ring, if i < k then i else i + 1, if j < k then j else j + 1);
    }
    forall i: nat | i < |s|
      ensures s[i] != ring[k]
    {
      if i < k {
        assert Differ(ring, i, k);
      } else {
        assert Differ(ring, k, i + 1);
      }
    }
  }

  /** Linking the neighbours of ring[k] with each other leaves a ring without it. */
  lemma Relinked(ring: seq<Node>, k: nat, next: Links, prev: Links, next': Links, prev': Links)
    requires IsRing(ring) && Linked(ring, next, prev) && 0 < k < |ring| - 1
    requires forall x | x in Drop(ring, k) && x in next ::
               x in next' && next'[x] == if x == ring[k - 1] then ring[k + 1] else next[x]
    requires forall x | x in Drop(ring, k) && x in prev ::
               x in prev' && prev'[x] == if x == ring[k + 1] then ring[k - 1] else prev[x]
    ensures Linked(Drop(ring, k), next', prev')
  {
    var s := Drop(ring, k);
    forall i: nat | i + 1 < |s|
      ensures LinkAt(s, next', prev', i)
    {
      assert s[i] in s && s[i + 1] in s;
      if i + 1 < k {
        assert LinkAt(ring, next, prev, i) && Differ(ring, i, k - 1) && Differ(ring, i + 1, k + 1);
      } else if i >= k {
        assert LinkAt(ring, next, prev, i + 1) && Differ(ring, k - 1, i + 1) && Differ(ring, k + 1, i + 2);
      } else {
        assert LinkAt(ring, next, prev, k - 1) && LinkAt(ring, next, prev, k);
      }
    }
  }

  /** Linking n in after the head leaves a ring with it. */
  lemma LinkedIn(ring: seq<Node>, n: Node, next: Links, prev: Links, next': Links, prev': Links)
    requires IsRing(ring) && Linked(ring, next, prev) && n !in ring
    requires n in next' && next'[n] == ring[1] && n in prev' && prev'[n] == ring[0]
    requires forall x | x in ring && x in next :: x in next' && next'[x] == if x == ring[0] then n else next[x]
    requires forall x | x in ring && x in prev :: x in prev' && prev'[x] == if x == ring[1] then n else prev[x]
    ensures IsRing([ring[0], n] + ring[1..]) && Linked([ring[0], n] + ring[1..], next', prev')
  {
    var s := [ring[0], n] + ring[1..];
    forall i: nat | i + 1 < |s|
      ensures LinkAt(s, next', prev', i)
    {
      if i > 1 {
        assert LinkAt(ring, next, prev, i - 1) && s[i] == ring[i - 1] && s[i + 1] == ring[i];
        assert ring[i - 1] in ring && ring[i] in ring && Differ(ring, 0, i - 1) && Differ(ring, 1, i);
      } else {
        assert LinkAt(ring, next, prev, 0) && ring[0] in ring && ring[1] in ring;
      }
    }
    forall i: nat, j: nat | i < j < |s| && (0 < i || j < |s| - 1)
      ensures Differ(s, i, j)
    {
      if i != 1 && j != 1 {
        assert Differ(ring, if i == 0 then 0 else i - 1, j - 1);
      }
    }
  }

  ghost function Nexts(nodes: seq<Node>): Links
    reads nodes
  {
    map x | x in nodes :: x.next
  }

  ghost function Prevs(nodes: seq<Node>): Links
    reads nodes
  {
    map x | x in nodes :: x.prev
  }

  /** A ring without the head. */
  ghost function Inner(ring: seq<Node>): seq<Node>
    requires |ring| >= 2
  {
    ring[1..|ring| - 1]
  }

  /** In the middle of a sweep of ring `start`: `kept` was visited and stays,
      `todo` is still to be visited. */
  ghost predicate Sweeping(start: seq<Node>, now: int, kept: seq<Node>, todo: seq<Node>, destroyed: seq<Node>) {
    && |start| >= 2 && kept != [] && todo != [] && kept[0] == start[0] == todo[|todo| - 1]
    && kept[1..] + Select(todo[..|todo| - 1], now, false) == Select(Inner(start), now, false)
    && destroyed + Select(todo[..|todo| - 1], now, true) == Select(Inner(start), now, true)
    && (forall x | x in kept :: x in start) && (forall x | x in todo :: x in start)
  }

  lemma SelectRest(todo: seq<Node>, now: int, expired: bool)
    requires |todo| > 1
    ensures Select(todo[..|todo| - 1], now, expired) ==
            (if Expired(todo[0], now) == expired then [todo[0]] else []) + Select(todo[1..][..|todo| - 2], now, expired)
  {
    assert todo[..|todo| - 1][1..] == todo[1..][..|todo| - 2];
  }

  lemma SweepStep(start: seq<Node>, now: int, kept: seq<Node>, todo: seq<Node>, destroyed: seq<Node>)
    requires Sweeping(start, now, kept, todo, destroyed) && todo[0] != start[0]
    ensures Expired(todo[0], now) ==> Sweeping(start, now, kept, todo[1..], destroyed + [todo[0]])
    ensures Drop(kept + todo, |kept|) == kept + todo[1..]
    ensures !Expired(todo[0], now) ==> Sweeping(start, now, kept + [todo[0]], todo[1..], destroyed)
    ensures kept + [todo[0]] + todo[1..] == kept + todo && |todo| > 1
  {
    SelectRest(todo, now, true);
    SelectRest(todo, now, false);
    assert (kept + [todo[0]])[1..] == kept[1..] + [todo[0]];
  }

  lemma SweepEnd(start: seq<Node>, now: int, kept: seq<Node>, todo: seq<Node>, destroyed: seq<Node>)
    requires Sweeping(start, now, kept, todo, destroyed) && todo[0] == start[0] && IsRing(kept + todo)
    ensures Inner(kept + todo) == Select(Inner(start), now, false)
    ensures destroyed == Select(Inner(start), now, true)
  {
    assert !Differ(kept + todo, 0, |kept|);
    assert Inner(kept + todo) == kept[1..];
  }

  class List {
    const head: Node
    ghost var ring: seq<Node> // the head, the listed nodes, and the head again

    constructor ()
      ensures Valid() && ring == [head, head] && fresh(head)
    {
      head := new Node(0);
      ring := [head, head];
    }

    ghost function Nodes(): set<Node>
      reads this
    {
      set x | x in ring
    }

    ghost predicate Valid()
      reads this, ring
    {
      IsRing(ring) && ring[0] == head && Linked(ring, Nexts(ring), Prevs(ring))
    }

    /** add_to_timeout_list */
    method Add(n: Node)
      requires Valid() && n !in ring
      modifies this`ring, n, Nodes()
      ensures Valid() && ring == [head, n] + old(ring)[1..]
    {
      ghost var r, next, prev := ring, Nexts(ring), Prevs(ring);
      assert LinkAt(r, next, prev, 0);
      var first := head.next;
      n.prev := head;
      n.next := first;
      head.next := n;
      first.prev := n;
      ring := [head, n] + r[1..];
      LinkedIn(r, n, next, prev, Nexts(ring), Prevs(ring));
    }

    /** ussl_dlink_delete: unlinks a node listed at position k; on a removed or
        never listed node (k == 0) it leaves the list and its links alone. */
    method Remove(n: Node, ghost k: nat)
      requires Valid() && if k > 0 then k < |ring| - 1 && ring[k] == n else n !in ring && (n.next == null || n.Alone())
      modifies this`ring, n, Nodes()
      ensures Valid() && n.next == null && n !in ring
      ensures ring == if k > 0 then Drop(old(ring), k) else old(ring)
      ensures k == 0 ==> forall x | x in ring :: x.next == old(x.next) && x.prev == old(x.prev)
    {
      ghost var r, next, prev := ring, Nexts(ring), Prevs(ring);
      assert k > 0 ==> LinkAt(r, next, prev, k - 1) && LinkAt(r, next, prev, k);
      assert k > 0 ==> Differ(r, k - 1, k) && Differ(r, k, k + 1);
      if n.next != null {
        var before, after := n.prev, n.next;
        assert k > 0 ==> before == r[k - 1] && after == r[k + 1];
        before.next := after;
        after.prev := before;
        n.next := null;
        assert k > 0 ==> forall x | x in r && x != n ::
            && x.next == (if x == r[k - 1] then r[k + 1] else old(x.next))
            && x.prev == (if x == r[k + 1] then r[k - 1] else old(x.prev));
        if k > 0 {
          ring := Drop(r, k);
          DropRing(r, k);
          Relinked(r, k, next, prev, Nexts(ring), Prevs(ring));
        }
      }
    }
  
    /** Destroying a socket removes its link once more. */
    method Destroy(n: Node)
      requires Valid() && n !in ring && n.next == null
      modifies this`ring, n, Nodes()
      ensures Valid() && ring == old(ring) && n.next == null
      ensures forall x | x in ring :: x.next == old(x.next) && x.prev == old(x.prev)
    {
      Remove(n, 0);
    }

    ghost predicate AllGone(gone: set<Node>)
      reads this, gone
    {
      forall n | n in gone :: n.next == null && n !in Nodes()
    }

    method Expire(n: Node, ghost k: nat, ghost gone: set<Node>)
      requires Valid() && 0 < k < |ring| - 1 && ring[k] == n && AllGone(gone)
      modifies this`ring, Nodes()
      ensures Valid() && ring == Drop(old(ring), k) && AllGone(gone + {n}) && Nodes() <= old(Nodes())
    {
      assert n in Nodes() && gone !! Nodes();
      Remove(n, k);
      assert Nodes() <= old(Nodes());
      assert forall x | x in gone :: x.next == null;
      Destroy(n);
      assert forall x | x in gone :: x.next == null;
    }

    /** check_and_handle_timeout_event: removes exactly the expired nodes, each
        visited once and in order, and keeps the others in order. */
    method Sweep(now: int) returns (destroyed: seq<Node>)
      requires Valid()
      modifies this`ring, Nodes()
      ensures Valid() && Inner(ring) == Select(Inner(old(ring)), now, false)
      ensures destroyed == Select(Inner(old(ring)), now, true)
      ensures AllGone(set n | n in destroyed)
      ensures forall n | n in Inner(old(ring)) :: n in if now - n.startTime > 3 then destroyed else Inner(ring)
      ensures multiset(Inner(old(ring))) == multiset(destroyed) + multiset(Inner(ring))
    {
      ghost var gone: set<Node> := {};
      ghost var kept: seq<Node>, todo: seq<Node> := [head], ring[1..];
      destroyed := [];
      assert LinkAt(ring, Nexts(ring), Prevs(ring), 0);
      assert todo[..|todo| - 1] == Inner(ring) && ring == kept + todo;
      var p: Node := head.next;
      while p != head
        invariant Valid() && ring == kept + todo && Sweeping(old(ring), now, kept, todo, destroyed) && p == todo[0]
        invariant Nodes() <= old(Nodes())
        invariant AllGone(gone) && forall n | n in destroyed :: n in gone
        decreases |todo|
      {
        SweepStep(old(ring), now, kept, todo, destroyed);
        assert LinkAt(ring, Nexts(ring), Prevs(ring), |kept|);
        var np: Node := p.next;
        if Expired(p, now) {
          Expire(p, |kept|, gone);
          gone := gone + {p};
          destroyed := destroyed + [p];
        } else {
          kept := kept + [p];
        }
        todo := todo[1..];
        p := np;
      }
      SweepEnd(old(ring), now, kept, todo, destroyed);
      SelectSplits(Inner(old(ring)), now);
    }
  }
}
