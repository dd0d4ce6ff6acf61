/** Both builds of struct evl_sched_queue, in place, over intrusive lists. A thread is represented
    by its rq_next link and its cprio, which is the key of the link. */
module SchedQueue {
  import opened PriorityOrder
  import opened IntrusiveList
  import opened QueueModel
  import opened QueueRefinement

  /** Taking the i-th node out of a sorted ring takes its thread out of the queue. */
  lemma DropAt(ring: seq<Node>, i: nat)
    requires Ring(ring) && 0 < i < |ring| && Sorted(Entries(ring))
    ensures RemoveAt(Entries(ring), i - 1) == Without(Entries(ring), ring[i])
    ensures Sorted(RemoveAt(Entries(ring), i - 1)) && ring[i] !in RemoveAt(ring, i)
  {
    WithoutIsRemoveAt(Entries(ring), i - 1);
    SelectSorted(Entries(ring), NotOf(ring[i]));
  }

  /** !CONFIG_EVL_SCHED_SCALABLE: one list sorted by priority. */
  class ListQueue {
    const head: Node
    ghost var ring: seq<Node>

    ghost predicate Valid()
      reads this, ring
    {
      Ring(ring) && ring[0] == head && Sorted(Entries(ring))
    }

    ghost function Contents(): seq<Item<Node>>
      requires Valid()
      reads this, ring
    {
      Entries(ring)
    }

    /** evl_init_schedq. */
    constructor ()
      ensures Valid() && Contents() == [] && fresh(ring)
    {
      var h := new Node(0);
      head := h;
      ring := [h];
    }

    /** evl_add_schedq. */
    method AddSchedq(thread: Node)
      requires Valid() && thread !in ring
      modifies `ring, thread`next, thread`prev, ring`next, ring`prev
      ensures Valid() && (forall x :: x in ring <==> x in old(ring) || x == thread)
      ensures Contents() == InsertLF(old(Contents()), Item(thread, thread.key))
    {
      InsertKeepsOrder(Contents(), Item(thread, thread.key));
      ring := ListAddPrilf(thread, head, ring);
    }

    /** evl_add_schedq_tail. */
    method AddSchedqTail(thread: Node)
      requires Valid() && thread !in ring
      modifies `ring, thread`next, thread`prev, ring`next, ring`prev
      ensures Valid() && (forall x :: x in ring <==> x in old(ring) || x == thread)
      ensures Contents() == InsertFF(old(Contents()), Item(thread, thread.key))
    {
      InsertKeepsOrder(Contents(), Item(thread, thread.key));
      ring := ListAddPriff(thread, head, ring);
    }

    /** evl_del_schedq. */
    method DelSchedq(thread: Node)
      requires Valid() && thread in ring && thread != head
      modifies `ring, ring`next, ring`prev
      ensures Valid() && thread.next == null && thread !in ring
      ensures Contents() == Without(old(Contents()), thread)
    {
      ghost var i :| 0 <= i < |ring| && ring[i] == thread;
      DropAt(ring, i);
      ListDel(thread, ring, i);
      ring := RemoveAt(ring, i);
    }

    /** evl_get_schedq: NULL when the list is empty, else list_get_entry. */
    method GetSchedq() returns (r: Node?)
      requires Valid()
      modifies `ring, ring`next, ring`prev
      ensures Valid()
      ensures old(Contents()) == [] ==> r == null && Contents() == []
      ensures old(Contents()) != [] ==>
                r == old(Contents())[0].val && r.next == null && Contents() == old(Contents())[1..]
    {
      var empty := ListEmpty(head, ring);
      if empty { return null; }
      r := head.next;
      ghost var s := Contents();
      WithoutIsRemoveAt(s, 0);
      DelSchedq(r);
    }
  }

  /** find_first_bit over the priority map. */
  method FindFirstBit(m: array<bool>) returns (i: nat)
    ensures i == FirstBit(m[..])
  {
    i := 0;
    while i < m.Length && !m[i]
      invariant i <= m.Length && forall k :: 0 <= k < i ==> !m[k]
    {
      i := i + 1;
    }
  }

  ghost function Singletons(hs: seq<Node>): (r: seq<seq<Node>>)
    ensures |r| == |hs| && forall i :: 0 <= i < |hs| ==> r[i] == [hs[i]]
  {
    seq(|hs|, i requires 0 <= i < |hs| => [hs[i]])
  }

  /** An array of initialised list heads. */
  method NewHeads(n: nat) returns (hs: seq<Node>)
    ensures |hs| == n && (forall i :: 0 <= i < n ==> fresh(hs[i]) && Ring([hs[i]]))
    ensures forall i, j :: 0 <= i < j < n ==> hs[i] != hs[j]
  {
    hs := [];
    while |hs| < n
      invariant |hs| <= n
      invariant forall i :: 0 <= i < |hs| ==> fresh(hs[i]) && Ring([hs[i]])
      invariant forall i, j :: 0 <= i < j < |hs| ==> hs[i] != hs[j]
    {
      var h := new Node(0);
      hs := hs + [h];
    }
  }

  /** Every ring lies in the footprint. */
  ghost predicate Covered(rings: seq<seq<Node>>, nodes: set<Node>) {
    forall i, n :: 0 <= i < |rings| && n in rings[i] ==> n in nodes
  }

  ghost predicate Apart(rings: seq<seq<Node>>) {
    forall i, j, n :: 0 <= i < |rings| && 0 <= j < |rings| && n in rings[i] && n in rings[j] ==> i == j
  }

  ghost predicate Rings(rings: seq<seq<Node>>, heads: seq<Node>, nodes: set<Node>)
    requires Covered(rings, nodes)
    reads nodes
  {
    |rings| == |heads| && forall i :: 0 <= i < |rings| ==> Ring(rings[i]) && rings[i][0] == heads[i]
  }

  /** The lists of all levels with their keys. */
  ghost function Levels(rings: seq<seq<Node>>, heads: seq<Node>, nodes: set<Node>): (v: seq<seq<Item<Node>>>)
    requires Covered(rings, nodes) && Rings(rings, heads, nodes)
    reads nodes
    ensures |v| == |rings| && forall i :: 0 <= i < |rings| ==> v[i] == Entries(rings[i])
  {
    seq(|rings|, i requires 0 <= i < |rings| && Covered(rings, nodes) && Rings(rings, heads, nodes) reads nodes =>
      Entries(rings[i]))
  }

  /** A ring none of whose nodes was written keeps its links and its keys. */
  twostate lemma RingKept(c: seq<Node>)
    requires old(Ring(c)) && forall i :: 0 <= i < |c| ==> unchanged(c[i])
    ensures Ring(c) && Entries(c) == old(Entries(c))
  {
    assert forall i {:trigger c[i].next} :: 0 <= i < |c| ==> c[i].next == old(c[i].next);
    assert forall i {:trigger c[i].prev} :: 0 <= i < |c| ==> c[i].prev == old(c[i].prev);
  }

  /** One ring replaced by another over its own and new nodes: the queue is still sound. */
  lemma Relinked(rings: seq<seq<Node>>, idx: nat, c: seq<Node>, heads: seq<Node>, nodes: set<Node>, nodes': set<Node>)
    requires Covered(rings, nodes) && Apart(rings) && |rings| == |heads| && idx < |rings|
    requires Ring(c) && c[0] == heads[idx]
    requires forall x :: x in c ==> x in nodes' && (x in rings[idx] || x !in nodes)
    requires forall j :: 0 <= j < |rings| && j != idx ==> Ring(rings[j]) && rings[j][0] == heads[j]
    requires forall j, x :: 0 <= j < |rings| && j != idx && x in rings[j] ==> x in nodes'
    ensures Covered(rings[idx := c], nodes') && Apart(rings[idx := c]) && Rings(rings[idx := c], heads, nodes')
  {
  }

  /** list_add behind entry i of ring idx, seen from all the rings of a queue. */
  method LinkAt(n: Node, pos: Node, ghost i: nat, ghost idx: nat,
                ghost rings: seq<seq<Node>>, ghost heads: seq<Node>, ghost nodes: set<Node>)
    returns (ghost rings': seq<seq<Node>>)
    requires Covered(rings, nodes) && Apart(rings) && Rings(rings, heads, nodes)
    requires idx < |rings| && i < |rings[idx]| && rings[idx][i] == pos && n !in nodes
    modifies n`next, n`prev, nodes`next, nodes`prev
    ensures Covered(rings', nodes + {n}) && Apart(rings') && Rings(rings', heads, nodes + {n})
    ensures |rings'| == |rings|
    ensures forall j :: 0 <= j < |rings| && j != idx ==> Entries(rings'[j]) == old(Entries(rings[j]))
    ensures Entries(rings'[idx]) == old(Entries(rings[idx]))[..i] + [Item(n, n.key)] + old(Entries(rings[idx]))[i..]
  {
    ghost var c := rings[idx];
    ListAdd(n, pos, c, i);
    forall j | 0 <= j < |rings| && j != idx ensures Ring(rings[j]) && Entries(rings[j]) == old(Entries(rings[j])) {
      assert forall k :: 0 <= k < |rings[j]| ==> rings[j][k] in rings[j];
      RingKept(rings[j]);
    }
    ghost var c' := c[..i + 1] + [n] + c[i + 1..];
    assert forall x :: x in c' ==> x in c || x == n;
    Relinked(rings, idx, c', heads, nodes, nodes + {n});
    rings' := rings[idx := c'];
  }

  /** What taking n out of ring at takes away from the levels. */
  lemma Unlinking(n: Node, i: nat, at: nat, rings: seq<seq<Node>>)
    requires Apart(rings) && (forall j :: 0 <= j < |rings| ==> rings[j] != [] && Ring(rings[j]))
    requires at < |rings| && 0 < i < |rings[at]| && rings[at][i] == n
    ensures forall j :: 0 <= j < |rings| ==>
              Without(Entries(rings[j]), n) == if j == at then RemoveAt(Entries(rings[j]), i - 1) else Entries(rings[j])
  {
    forall j | 0 <= j < |rings|
      ensures Without(Entries(rings[j]), n) == if j == at then RemoveAt(Entries(rings[j]), i - 1) else Entries(rings[j])
    {
      if j == at {
        WithoutIsRemoveAt(Entries(rings[j]), i - 1);
      } else {
        assert n in rings[at];
        assert forall k :: 0 <= k < |rings[j]| ==> rings[j][k] in rings[j] && rings[j][k] != n;
        WithoutAbsent(Entries(rings[j]), n);
      }
    }
  }

  /** list_del of entry i of ring at, seen from all the rings of a queue. */
  method UnlinkAt(n: Node, ghost i: nat, ghost at: nat,
                  ghost rings: seq<seq<Node>>, ghost heads: seq<Node>, ghost nodes: set<Node>)
    returns (ghost rings': seq<seq<Node>>)
    requires Covered(rings, nodes) && Apart(rings) && Rings(rings, heads, nodes)
    requires at < |rings| && 0 < i < |rings[at]| && rings[at][i] == n
    modifies nodes`next, nodes`prev
    ensures Covered(rings', nodes - {n}) && Apart(rings') && Rings(rings', heads, nodes - {n})
    ensures |rings'| == |rings| && n.next == null
    ensures forall j :: 0 <= j < |rings| ==> Entries(rings'[j]) == Without(old(Entries(rings[j])), n)
  {
    ghost var c := rings[at];
    assert n in c;
    Unlinking(n, i, at, rings);
    ListDel(n, c, i);
    forall j | 0 <= j < |rings| && j != at ensures Ring(rings[j]) && Entries(rings[j]) == old(Entries(rings[j])) {
      assert forall k :: 0 <= k < |rings[j]| ==> rings[j][k] in rings[j];
      RingKept(rings[j]);
    }
    ghost var c' := RemoveAt(c, i);
    assert forall x :: x in c' ==> x in c && x != n;
    Relinked(rings, at, c', heads, nodes, nodes - {n});
    rings' := rings[at := c'];
  }

  lemma EmptyRings(hs: seq<Node>, nodes: set<Node>)
    requires forall i :: 0 <= i < |hs| ==> Ring([hs[i]]) && hs[i] in nodes
    requires forall i, j :: 0 <= i < j < |hs| ==> hs[i] != hs[j]
    ensures Covered(Singletons(hs), nodes) && Apart(Singletons(hs)) && Rings(Singletons(hs), hs, nodes)
    ensures Levels(Singletons(hs), hs, nodes) == seq(|hs|, i => [])
  {
  }

  /** CONFIG_EVL_SCHED_SCALABLE: one list per priority, a bitmap and a count. */
  class MlqQueue {
    var elems: int
    const prioMap: array<bool>
    const heads: seq<Node>
    ghost var rings: seq<seq<Node>>
    ghost var nodes: set<Node>

    /** The links are sound: each level is a ring of its own, and no two share a node. */
    ghost predicate Linked()
      reads this, nodes
    {
      && prioMap.Length == |heads| == |rings| == MLQ_LEVELS
      && Covered(rings, nodes) && Apart(rings) && Rings(rings, heads, nodes)
    }

    ghost function Model(): Mlq<Node>
      requires Linked()
      reads this, prioMap, nodes
    {
      Mlq(elems, prioMap[..], Levels(rings, heads, nodes))
    }

    ghost predicate Valid()
      reads this, prioMap, nodes
    {
      Linked() && MlqOk(Model())
    }

    /** The queued threads, most urgent first. */
    ghost function Contents(): seq<Item<Node>>
      requires Valid()
      reads this, prioMap, nodes
    {
      Flatten(Model().heads)
    }

    lemma InitialContents()
      requires Linked() && elems == 0 && rings == Singletons(heads)
      requires forall i :: 0 <= i < MLQ_LEVELS ==> !prioMap[i]
      ensures Valid() && Contents() == []
    {
      assert forall i :: 0 <= i < MLQ_LEVELS ==> heads[i] in rings[i];
      EmptyRings(heads, nodes);
      assert prioMap[..] == seq(MLQ_LEVELS, i => false);
      assert Model() == InitMlq();
      InitOk<Node>();
    }

    /** evl_init_schedq. */
    constructor ()
      ensures Valid() && Contents() == [] && fresh(prioMap) && fresh(nodes)
    {
      var m := new bool[MLQ_LEVELS](i => false);
      var hs := NewHeads(MLQ_LEVELS);
      elems, prioMap, heads := 0, m, hs;
      rings := Singletons(hs);
      nodes := set n | n in hs;
      new;
      EmptyRings(hs, nodes);
      InitialContents();
    }

    /** evl_get_schedq_weight. */
    method GetSchedqWeight() returns (i: nat)
      requires Valid()
      ensures i == FirstBit(Model().prioMap)
    {
      i := FindFirstBit(prioMap);
    }

    /** add_q: the newcomer is not linked yet. */
    method AddQ(prio: int) returns (head: Node)
      requires Linked() && InRange(prio)
      modifies `elems, prioMap
      ensures Linked() && head == heads[QIndex(prio)]
      ensures Model() == QueueModel.AddQ(old(Model()), prio)
    {
      var idx := QIndex(prio);
      head := heads[idx];
      elems := elems + 1;
      var empty := ListEmpty(head, rings[idx]);
      if empty { prioMap[idx] := true; }
    }

    lemma NotQueued(thread: Node)
      requires Linked() && thread !in nodes
      ensures !Holds(Flatten(Model().heads), thread)
    {
      FlattenHolds(Model().heads, thread);
    }

    /** list_add or list_add_tail on the level returned by add_q. */
    method Link(thread: Node, pos: Node, ghost i: nat, ghost idx: nat)
      requires Linked() && thread !in nodes
      requires idx < MLQ_LEVELS && i < |rings[idx]| && rings[idx][i] == pos
      modifies `rings, `nodes, thread`next, thread`prev, nodes`next, nodes`prev
      ensures Linked() && nodes == old(nodes) + {thread}
      ensures Model().heads == old(Model().heads)[idx :=
        old(Model().heads[idx])[..i] + [Item(thread, thread.key)] + old(Model().heads[idx])[i..]]
      ensures Model() == old(Model()).(heads := Model().heads)
    {
      ghost var rings' := LinkAt(thread, pos, i, idx, rings, heads, nodes);
      rings, nodes := rings', nodes + {thread};
    }

    /** add_q then list_add: first of its level. */
    method PutHead(thread: Node)
      requires Linked() && thread !in nodes && InRange(thread.key)
      modifies this, prioMap, thread`next, thread`prev, nodes`next, nodes`prev
      ensures Linked() && nodes == old(nodes) + {thread}
      ensures Model() == AddHead(old(Model()), Item(thread, thread.key))
    {
      ghost var idx := QIndex(thread.key);
      ghost var h, x := Model().heads[idx], Item(thread, thread.key);
      var head := AddQ(thread.key);
      Link(thread, head, 0, idx);
      assert h[..0] + [x] + h[0..] == [x] + h;
    }

    /** add_q then list_add_tail: last of its level. */
    method PutTail(thread: Node)
      requires Linked() && thread !in nodes && InRange(thread.key)
      modifies this, prioMap, thread`next, thread`prev, nodes`next, nodes`prev
      ensures Linked() && nodes == old(nodes) + {thread}
      ensures Model() == AddTail(old(Model()), Item(thread, thread.key))
    {
      ghost var idx := QIndex(thread.key);
      ghost var h, x := Model().heads[idx], Item(thread, thread.key);
      var head := AddQ(thread.key);
      Link(thread, head.prev, |rings[idx]| - 1, idx);
      assert h[..|h|] + [x] + h[|h|..] == h + [x];
    }

    /** list_del of a queued entry. */
    method Unlink(entry: Node, ghost at: nat)
      requires Linked() && at < MLQ_LEVELS && entry in rings[at] && entry != heads[at]
      modifies `rings, `nodes, nodes`next, nodes`prev
      ensures Linked() && nodes == old(nodes) - {entry} && entry.next == null
      ensures Model() == old(Model()).(heads := UnlinkAll(old(Model().heads), entry))
    {
      ghost var i :| 0 <= i < |rings[at]| && rings[at][i] == entry;
      ghost var rings' := UnlinkAt(entry, i, at, rings, heads, nodes);
      rings, nodes := rings', nodes - {entry};
    }

    /** The tail of __evl_del_schedq: one item less, and the mark of level idx goes with its last entry. */
    method DropFrom(idx: nat)
      requires Linked() && idx < MLQ_LEVELS
      modifies `elems, prioMap
      ensures Linked()
      ensures Model() == old(Model()).(elems := old(elems) - 1,
        prioMap := if |old(Model().heads)[idx]| == 0 then old(Model().prioMap)[idx := false] else old(Model().prioMap))
    {
      elems := elems - 1;
      var empty := ListEmpty(heads[idx], rings[idx]);
      if empty { prioMap[idx] := false; }
    }

    /** __evl_del_schedq: entry is linked at level at, the caller says idx. */
    method DelSchedqAt(entry: Node, idx: nat, ghost at: nat)
      requires Linked() && idx < MLQ_LEVELS
      requires at < MLQ_LEVELS && entry in rings[at] && entry != heads[at]
      modifies this, prioMap, nodes`next, nodes`prev
      ensures Linked() && nodes == old(nodes) - {entry} && entry.next == null
      ensures Model() == DelAt(old(Model()), entry, idx)
    {
      Unlink(entry, at);
      DropFrom(idx);
    }

    /** evl_add_schedq. */
    method AddSchedq(thread: Node)
      requires Valid() && thread !in nodes && InRange(thread.key)
      modifies this, prioMap, thread`next, thread`prev, nodes`next, nodes`prev
      ensures Valid() && nodes == old(nodes) + {thread}
      ensures Model() == AddHead(old(Model()), Item(thread, thread.key))
      ensures Contents() == InsertLF(old(Contents()), Item(thread, thread.key))
    {
      NotQueued(thread);
      AddHeadRefines(Model(), Item(thread, thread.key));
      PutHead(thread);
    }

    /** evl_add_schedq_tail. */
    method AddSchedqTail(thread: Node)
      requires Valid() && thread !in nodes && InRange(thread.key)
      modifies this, prioMap, thread`next, thread`prev, nodes`next, nodes`prev
      ensures Valid() && nodes == old(nodes) + {thread}
      ensures Model() == AddTail(old(Model()), Item(thread, thread.key))
      ensures Contents() == InsertFF(old(Contents()), Item(thread, thread.key))
    {
      NotQueued(thread);
      AddTailRefines(Model(), Item(thread, thread.key));
      PutTail(thread);
    }

    /** evl_del_schedq of a thread whose priority did not change since it was queued. */
    method DelSchedq(thread: Node)
      requires Valid() && InRange(thread.key) && Item(thread, thread.key) in Contents()
      modifies this, prioMap, nodes`next, nodes`prev
      ensures Valid() && nodes == old(nodes) - {thread} && thread.next == null
      ensures Model() == Del(old(Model()), Item(thread, thread.key))
      ensures Contents() == Without(old(Contents()), thread)
    {
      ghost var x := Item(thread, thread.key);
      DelRefines(Model(), x);
      OnlyAtItsLevel(Model(), x);
      assert thread in rings[QIndex(x.prio)] && thread != heads[QIndex(x.prio)];
      DelSchedqAt(thread, QIndex(thread.key), QIndex(thread.key));
    }

    /** evl_get_schedq. */
    method GetSchedq() returns (r: Node?)
      requires Valid()
      modifies this, prioMap, nodes`next, nodes`prev
      ensures Valid()
      ensures old(Contents()) == [] ==> r == null && Contents() == [] && nodes == old(nodes)
      ensures old(Contents()) != [] ==> r == old(Contents())[0].val && Contents() == old(Contents())[1..]
      ensures r != null ==> r.next == null && nodes == old(nodes) - {r}
    {
      FirstLevel(Model());
      GetRefines(Model());
      if elems == 0 { return null; }
      var idx := GetSchedqWeight();
      r := heads[idx].next;
      assert r == Model().heads[idx][0].val;
      assert r in rings[idx];
      DelSchedqAt(r, idx, idx);
    }
  }
}
