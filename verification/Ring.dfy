/** The intrusive circular doubly linked list of list.h, and the input queues built on it. */
module Ring {
  import opened Sequences

  class ListHead {
    var next: ListHead?
    var prev: ListHead?

    constructor ()
      ensures next == null && prev == null
    {
      next, prev := null, null;
    }
  }

  function Succ(i: nat, n: nat): nat { if i + 1 == n then 0 else i + 1 }

  /** Node `i` and the node after it point to each other; the first comes after the last. */
  ghost predicate Joined(nodes: seq<ListHead>, i: nat)
    requires i < |nodes|
    reads nodes
  {
    nodes[i].next == nodes[Succ(i, |nodes|)] && nodes[Succ(i, |nodes|)].prev == nodes[i]
  }

  ghost predicate Linked(nodes: seq<ListHead>)
    reads nodes
  {
    Distinct(nodes) && forall i :: 0 <= i < |nodes| ==> Joined(nodes, i)
  }

  /** The ring of `head` holds exactly `elems`, in this order. */
  ghost predicate IsRing(head: ListHead, elems: seq<ListHead>)
    reads head, elems
  {
    Linked([head] + elems)
  }

  /** Two rings share no node. */
  ghost predicate Apart(ring: seq<ListHead>, other: seq<ListHead>) {
    forall n :: n in ring ==> n !in other
  }

  method InitListHead(list: ListHead)
    modifies list
    ensures IsRing(list, [])
  {
    list.next := list;
    list.prev := list;
    assert Joined([list] + [], 0);
  }

  method ListEmpty(head: ListHead, ghost elems: seq<ListHead>) returns (b: bool)
    requires IsRing(head, elems)
    ensures b <==> elems == []
  {
    assert Joined([head] + elems, 0);
    b := head.next == head;
  }

  /** __list_add: link `node` between two neighbours. */
  method ListAddBetween(node: ListHead, prev: ListHead, next: ListHead)
    requires node != prev && node != next
    modifies node, prev, next
    ensures node.next == next && node.prev == prev && prev.next == node && next.prev == node
    ensures prev != next ==> next.next == old(next.next) && prev.prev == old(prev.prev)
  {
    next.prev := node;
    node.next := next;
    node.prev := prev;
    prev.next := node;
  }

  /** Insert at the front of the ring. */
  method ListAdd(node: ListHead, head: ListHead, ghost elems: seq<ListHead>)
    requires IsRing(head, elems) && node != head && node !in elems
    modifies node, head, head.next
    ensures IsRing(head, [node] + elems)
  {
    ghost var nodes, n := [head] + elems, |elems| + 1;
    assert Joined(nodes, 0);
    assert forall i :: 0 < i < n ==> Joined(nodes, i);
    ListAddBetween(node, head, head.next);
    ghost var nodes' := [head] + ([node] + elems);
    assert Distinct(nodes') by { assert forall i :: 2 <= i < n + 1 ==> nodes'[i] == nodes[i - 1]; }
    assert Joined(nodes', 0) && Joined(nodes', 1);
    forall i | 2 <= i < n + 1 ensures Joined(nodes', i) { assert old(Joined(nodes, i - 1)); }
  }

  /** Append at the end of the ring; only the new node and the two ends of the ring change. */
  method ListAddTail(node: ListHead, head: ListHead, ghost elems: seq<ListHead>)
    requires IsRing(head, elems) && node != head && node !in elems
    modifies node, head, head.prev
    ensures IsRing(head, elems + [node])
  {
    ghost var nodes, n := [head] + elems, |elems| + 1;
    assert Joined(nodes, n - 1);
    assert forall i :: 0 <= i < n - 1 ==> Joined(nodes, i);
    ListAddBetween(node, head.prev, head);
    ghost var nodes' := nodes + [node];
    assert [head] + (elems + [node]) == nodes';
    assert Joined(nodes', n - 1) && Joined(nodes', n);
    forall i | 0 <= i < n - 1 ensures Joined(nodes', i) { assert old(Joined(nodes, i)); }
  }

  /** __list_del and clearing: the neighbours of `entry` point past it. */
  method ListDelBetween(entry: ListHead)
    requires entry.prev != null && entry.next != null && entry.prev != entry && entry.next != entry
    modifies entry, entry.prev, entry.next
    ensures old(entry.prev).next == old(entry.next) && old(entry.next).prev == old(entry.prev)
    ensures old(entry.prev) != old(entry.next) ==>
              old(entry.prev).prev == old(entry.prev.prev) && old(entry.next).next == old(entry.next.next)
    ensures entry.next == null && entry.prev == null
  {
    entry.next.prev := entry.prev;
    entry.prev.next := entry.next;
    entry.next := null;
    entry.prev := null;
  }

  /** Unlink the k-th element; only it and its neighbours change, and its own links are cleared. */
  method ListDel(entry: ListHead, ghost head: ListHead, ghost elems: seq<ListHead>, ghost k: nat)
    requires IsRing(head, elems) && k < |elems| && elems[k] == entry
    modifies entry, entry.prev, entry.next
    ensures IsRing(head, elems[..k] + elems[k + 1..])
    ensures entry.next == null && entry.prev == null
  {
    hide Distinct;
    ghost var nodes, n, j := [head] + elems, |elems| + 1, k + 1;
    assert Joined(nodes, j - 1) && Joined(nodes, j);
    assert nodes[j] == entry;
    Differ(nodes, j - 1, j);
    Differ(nodes, Succ(j, n), j);
    Differ(nodes, Succ(j, n), j - 1);
    ListDelBetween(entry);
    ghost var rest := [head] + (elems[..k] + elems[k + 1..]);
    assert rest == nodes[..j] + nodes[j + 1..];
    DistinctRemove(nodes, j);
    forall i | 0 <= i < n - 1 ensures Joined(rest, i) {
      ghost var o := if i < j then i else i + 1;
      assert old(Joined(nodes, o));
      Skipping(nodes, j, i);
      Differ(nodes, o, j);
      if o != j - 1 {
        Differ(nodes, o, j - 1);
        Differ(nodes, Succ(o, n), j);
        Differ(nodes, Succ(o, n), Succ(j, n));
      }
    }
  }

  /** Where the nodes are once the j-th is gone. */
  lemma Skipping(nodes: seq<ListHead>, j: nat, i: nat)
    requires 0 < j < |nodes| && i < |nodes| - 1
    ensures var rest, n, o := nodes[..j] + nodes[j + 1..], |nodes|, if i < j then i else i + 1;
      && rest[i] == nodes[o]
      && rest[Succ(i, n - 1)] == if o == j - 1 then nodes[Succ(j, n)] else nodes[Succ(o, n)]
  {}

  lemma Differ(nodes: seq<ListHead>, a: nat, b: nat)
    requires Distinct(nodes) && a < |nodes| && b < |nodes|
    ensures nodes[a] == nodes[b] <==> a == b
  {}

  lemma DistinctRemove(nodes: seq<ListHead>, j: nat)
    requires Distinct(nodes) && j < |nodes|
    ensures Distinct(nodes[..j] + nodes[j + 1..])
  {
    var nodes' := nodes[..j] + nodes[j + 1..];
    assert forall i :: 0 <= i < |nodes'| ==> nodes'[i] == nodes[if i < j then i else i + 1];
  }

  // ----- many rings -----

  /** Rings over the nodes `world`, each given as its head and its elements, that share no node with one
      another. */
  ghost predicate Rings(rings: seq<seq<ListHead>>, world: set<ListHead>)
    reads world
  {
    && (forall i :: 0 <= i < |rings| ==>
        rings[i] != [] && (forall n :: n in rings[i] ==> n in world) && Linked(rings[i]))
    && (forall i, j :: 0 <= i < j < |rings| ==> Apart(rings[i], rings[j]))
  }

  datatype ListOp = AddTail(k: nat, node: ListHead) | AddHead(k: nat, node: ListHead) | Del(k: nat, at: nat)

  /** A new node is in no ring, and what is deleted is an element. */
  ghost predicate Permitted(rings: seq<seq<ListHead>>, world: set<ListHead>, op: ListOp) {
    && op.k < |rings|
    && (op.Del? ==> 0 < op.at < |rings[op.k]|)
    && (!op.Del? ==> rings[op.k] != [] && op.node in world && forall j :: 0 <= j < |rings| ==> op.node !in rings[j])
  }

  function Changed(ring: seq<ListHead>, op: ListOp): seq<ListHead>
    requires ring != [] && (op.Del? ==> 0 < op.at < |ring|)
  {
    match op
    case AddTail(_, node) => ring + [node]
    case AddHead(_, node) => [ring[0], node] + ring[1..]
    case Del(_, at) => ring[..at] + ring[at + 1..]
  }

  ghost function NewNode(op: ListOp): set<ListHead> { if op.Del? then {} else {op.node} }

  /** The operation on its own ring. */
  method PerformOn(ring: seq<ListHead>, op: ListOp)
    requires ring != [] && Linked(ring) && (if op.Del? then 0 < op.at < |ring| else op.node !in ring)
    modifies (set n | n in ring) + NewNode(op)
    ensures Linked(Changed(ring, op))
  {
    hide Linked, Changed;
    ghost var elems := ring[1..];
    HeadAndElements(ring);
    Parts(ring, op);
    Neighbours(ring);
    if op.AddTail? {
      ListAddTail(op.node, ring[0], elems);
    } else if op.AddHead? {
      ListAdd(op.node, ring[0], elems);
    } else {
      ListDel(ring[op.at], ring[0], elems, op.at - 1);
    }
  }

  lemma HeadAndElements(ring: seq<ListHead>)
    requires ring != []
    ensures ring == [ring[0]] + ring[1..] && ring[0] in ring && forall n :: n in ring[1..] ==> n in ring
  {}

  /** The changed ring, as head and elements. */
  lemma Parts(ring: seq<ListHead>, op: ListOp)
    requires ring != [] && (op.Del? ==> 0 < op.at < |ring|)
    ensures match op
      case AddTail(_, node) => Changed(ring, op) == [ring[0]] + (ring[1..] + [node])
      case AddHead(_, node) => Changed(ring, op) == [ring[0]] + ([node] + ring[1..])
      case Del(_, at) =>
        ring[1..][at - 1] == ring[at] && Changed(ring, op) == [ring[0]] + (ring[1..][..at - 1] + ring[1..][at..])
  {
    var h, elems := [ring[0]], ring[1..];
    if op.AddTail? {
      assert ring == h + elems;
      assert (h + elems) + [op.node] == h + (elems + [op.node]);
    } else if op.AddHead? {
      assert [ring[0], op.node] == h + [op.node];
      assert (h + [op.node]) + elems == h + ([op.node] + elems);
    } else {
      var front, back := elems[..op.at - 1], elems[op.at..];
      assert ring[..op.at] == h + front && ring[op.at + 1..] == back;
      assert (h + front) + back == h + (front + back);
    }
  }

  /** A list operation changes its own ring as it should and leaves every other ring alone and apart. */
  method Perform(rings: seq<seq<ListHead>>, ghost world: set<ListHead>, op: ListOp) returns (rings': seq<seq<ListHead>>)
    requires Rings(rings, world) && Permitted(rings, world, op)
    modifies world
    ensures rings' == rings[op.k := Changed(rings[op.k], op)] && Rings(rings', world)
  {
    hide Linked;
    var ring := rings[op.k];
    PerformOn(ring, op);
    rings' := rings[op.k := Changed(ring, op)];
    forall j | 0 <= j < |rings| && j != op.k
      ensures Linked(rings[j]) && Apart(rings'[op.k], rings[j]) && Apart(rings[j], rings'[op.k])
    {
      ChangedApart(rings, world, op, j);
      StillLinked(rings[j]);
    }
  }

  /** A ring has no node twice, and the neighbours of a node are in it. */
  lemma Neighbours(ring: seq<ListHead>)
    requires ring != [] && Linked(ring)
    ensures Distinct(ring)
    ensures forall n :: n in ring ==> n.next in ring && n.prev in ring
  {
    forall i | 0 <= i < |ring| ensures ring[i].next in ring && ring[i].prev in ring {
      assert Joined(ring, i) && Joined(ring, if i == 0 then |ring| - 1 else i - 1);
    }
  }

  /** Its nodes stay apart from the other rings. */
  lemma ChangedApart(rings: seq<seq<ListHead>>, world: set<ListHead>, op: ListOp, j: nat)
    requires Permitted(rings, world, op) && j < |rings| && j != op.k
    requires Apart(rings[op.k], rings[j]) || Apart(rings[j], rings[op.k])
    ensures rings[op.k] != []
    ensures Apart(Changed(rings[op.k], op), rings[j]) && Apart(rings[j], Changed(rings[op.k], op))
  {
    assert forall n :: n in Changed(rings[op.k], op) ==> n in rings[op.k] || (!op.Del? && n == op.node);
  }

  twostate lemma StillLinked(ring: seq<ListHead>)
    requires old(Linked(ring)) && forall n :: n in ring ==> unchanged(n)
    ensures Linked(ring)
  {
    forall i | 0 <= i < |ring| ensures Joined(ring, i) {
      assert old(Joined(ring, i)) && ring[i] in ring && ring[Succ(i, |ring|)] in ring;
    }
  }

  // ----- the queues -----

  /** struct in_packet_queue: a ring of packets and their number. */
  class InPacketQueue {
    const head: ListHead
    var packetNum: nat
    ghost var packets: seq<ListHead>

    ghost predicate Valid()
      reads this, head, packets
    {
      IsRing(head, packets) && packetNum == |packets|
    }

    constructor ()
      ensures Valid() && packets == [] && fresh(head)
    {
      head := new ListHead();
      packetNum, packets := 0, [];
      new;
      InitListHead(head);
    }

    /** add_in_packet: the packet goes behind all others. */
    method AddInPacket(packet: ListHead)
      requires Valid() && packet != head && packet !in packets
      modifies this, packet, head, head.prev
      ensures Valid() && packets == old(packets) + [packet]
    {
      ListAddTail(packet, head, packets);
      packetNum := packetNum + 1;
      packets := packets + [packet];
    }

    /** get_in_packet once the queue is not empty: the oldest packet, unlinked. */
    method GetInPacket() returns (packet: ListHead)
      requires Valid() && packets != []
      modifies this, head, packets
      ensures Valid() && packet == old(packets)[0] && packets == old(packets)[1..]
      ensures packet.next == null && packet.prev == null
    {
      ghost var nodes := [head] + packets;
      assert Joined(nodes, 0) && Joined(nodes, 1) && nodes[1] == packets[0];
      packet := head.next;
      assert packet.next in nodes;
      ListDel(packet, head, packets, 0);
      packetNum := packetNum - 1;
      assert packets[..0] + packets[1..] == packets[1..];
      packets := packets[1..];
    }
  }

  /** A packet that moves from one queue to another leaves the front of the first and joins the end of the
      second; both stay rings and apart, because they share no node, and so does any `other` ring. */
  method MovePacket(from: InPacketQueue, to: InPacketQueue, ghost other: seq<ListHead>) returns (packet: ListHead)
    requires from != to && from.Valid() && to.Valid() && from.packets != [] && Linked(other)
    requires Apart([from.head] + from.packets, [to.head] + to.packets)
    requires Apart(other, [from.head] + from.packets) && Apart(other, [to.head] + to.packets)
    modifies from, to, from.head, from.packets, to.head, to.packets
    ensures from.Valid() && to.Valid() && Linked(other)
    ensures from.packets == old(from.packets)[1..] && to.packets == old(to.packets) + [old(from.packets)[0]]
    ensures packet == old(from.packets)[0]
    ensures Apart([from.head] + from.packets, [to.head] + to.packets)
    ensures Apart(other, [from.head] + from.packets) && Apart(other, [to.head] + to.packets)
  {
    hide Linked;
    ghost var nodes, ring := [from.head] + from.packets, [to.head] + to.packets;
    Members(from.head, from.packets);
    Members(to.head, to.packets);
    Neighbours(nodes);
    Neighbours(ring);
    packet := from.GetInPacket();
    StillLinked(ring);
    StillLinked(other);
    Neighbours(ring);
    ghost var left := [from.head] + from.packets;
    LeftBehind(nodes, left, packet);
    label taken:
    to.AddInPacket(packet);
    StillLinked@taken(left);
    StillLinked@taken(other);
    assert [to.head] + to.packets == ring + [packet];
  }

  lemma Members(head: ListHead, elems: seq<ListHead>)
    ensures head in [head] + elems && forall n :: n in elems ==> n in [head] + elems
  {}

  lemma LeftBehind(nodes: seq<ListHead>, left: seq<ListHead>, packet: ListHead)
    requires |nodes| >= 2 && Distinct(nodes) && packet == nodes[1] && left == [nodes[0]] + nodes[2..]
    ensures packet !in left && forall n :: n in left ==> n in nodes
  {}
}
