/** The list build of the timer queue of evl/timer.h, in place: timers sorted by date, equal dates in
    order of arrival. The node of a timer is an intrusive link whose key is the date. */
module TimerQueue {
  import opened PriorityOrder
  import opened DateOrder
  import opened IntrusiveList
  import opened TimerDate

  /** struct evl_timer, as far as queueing and dating go. */
  class Timer {
    const node: Node
    var status: bv32
    var interval: int
    var startDate: int
    var periodicTicks: int
    var scheduled: nat
    const gravity: Gravity

    constructor (interval: int, startDate: int, gravity: Gravity)
      ensures Dequeued() && fresh(node) && Ring([node]) && scheduled == 0
    {
      var n := new Node(0);
      node := n;
      status, scheduled, periodicTicks := TIMER_DEQUEUED, 0, 0;
      this.interval, this.startDate, this.gravity := interval, startDate, gravity;
    }

    /** The date is the anticipated one of the current period. */
    ghost predicate Dated()
      reads this, node
    {
      node.key == UpdatedDate(startDate, periodicTicks, interval, TimerGravity(status, gravity))
    }

    /** So it is the ideal date minus the latency of the context of the timer, wherever that fits. */
    lemma DatedAhead()
      requires Dated()
      ensures node.key == startDate + periodicTicks * interval - Latency(status, gravity)
         <==> FitsS64(startDate + periodicTicks * interval - Latency(status, gravity))
    {
      DatedByItsContext(startDate, periodicTicks, interval, status, gravity);
    }

    predicate Dequeued()
      reads this
    {
      status & TIMER_DEQUEUED != 0
    }

    /** The bookkeeping of evl_enqueue_timer. */
    method NowQueued()
      modifies `status, `scheduled
      ensures status == MarkQueued(old(status)) && !Dequeued() && Dated() == old(Dated())
      ensures scheduled == old(scheduled) + 1
    {
      GravityKept(status, gravity);
      status := MarkQueued(status);
      scheduled := scheduled + 1;
    }

    /** The bookkeeping of evl_dequeue_timer. */
    method NowDequeued()
      modifies `status
      ensures status == MarkDequeued(old(status)) && Dequeued() && Dated() == old(Dated())
    {
      GravityKept(status, gravity);
      status := MarkDequeued(status);
    }

    /** evl_update_timer_date. */
    method UpdateDate()
      modifies node`key
      ensures node.key == UpdatedDate(startDate, periodicTicks, interval, TimerGravity(status, gravity))
    {
      node.key := UpdatedDate(startDate, periodicTicks, interval, TimerGravity(status, gravity));
    }

    /** evl_get_timer_expiry: the ideal date of the current period, as one word. */
    method GetExpiry() returns (date: int)
      ensures date == Expiry(node.key, TimerGravity(status, gravity))
      ensures Dated() ==> date == S64(startDate + periodicTicks * interval)
    {
      date := Expiry(node.key, TimerGravity(status, gravity));
      ExpiryIsDriftFree(startDate, periodicTicks, interval, TimerGravity(status, gravity));
    }
  }

  /** The walk of evl_insert_tnode: backwards, down to the first date not later than the new one. */
  method WalkBack(date: int, head: Node, ghost c: seq<Node>) returns (pos: Node, ghost i: nat)
    requires Ring(c) && head == c[0]
    ensures i < |c| && c[i] == pos && (pos == head <==> i == 0)
    ensures pos != head ==> pos.key <= date
    ensures forall k :: i < k < |c| ==> c[k].key > date
  {
    pos, i := head.prev, |c| - 1;
    while pos != head
      invariant i < |c| && c[i] == pos
      invariant forall k :: i < k < |c| ==> c[k].key > date
      decreases i
    {
      if pos.key <= date { break; }
      pos, i := pos.prev, i - 1;
    }
  }

  /** The position found by the walk splits the queue at the date. */
  lemma DateWalkSplits(date: int, c: seq<Node>, i: nat)
    requires i < |c| && Ascending(Entries(c)) && (i > 0 ==> c[i].key <= date)
    requires forall k :: i < k < |c| ==> c[k].key > date
    ensures forall k :: 0 <= k < i ==> Entries(c)[k].prio <= date
    ensures forall k :: i <= k < |c| - 1 ==> Entries(c)[k].prio > date
  {
    var e := Entries(c);
    assert i > 0 ==> e[i - 1] == Item(c[i], c[i].key);
    assert forall k :: i <= k < |c| - 1 ==> e[k] == Item(c[k + 1], c[k + 1].key);
  }

  /** The walk, then list_add at the position found. */
  method LinkByDate(node: Node, head: Node, ghost c: seq<Node>) returns (ghost c': seq<Node>, ghost i: nat)
    requires Ring(c) && head == c[0] && node !in c && Ascending(Entries(c))
    modifies node`next, node`prev, c`next, c`prev
    ensures i < |c| && c' == c[..i + 1] + [node] + c[i + 1..] && Ring(c')
    ensures Entries(c') == old(Entries(c))[..i] + [Item(node, node.key)] + old(Entries(c))[i..]
    ensures forall k :: 0 <= k < i ==> old(Entries(c))[k].prio <= node.key
    ensures forall k :: i <= k < |c| - 1 ==> old(Entries(c))[k].prio > node.key
  {
    i := 0;
    var pos := head;
    var empty := ListEmpty(head, c);
    if !empty {
      pos, i := WalkBack(node.key, head, c);
    }
    DateWalkSplits(node.key, c, i);
    ListAdd(node, pos, c, i);
    c' := c[..i + 1] + [node] + c[i + 1..];
  }

  /** evl_insert_tnode. */
  method InsertTnode(node: Node, head: Node, ghost c: seq<Node>) returns (ghost c': seq<Node>)
    requires Ring(c) && head == c[0] && node !in c && Ascending(Entries(c))
    modifies node`next, node`prev, c`next, c`prev
    ensures Ring(c') && c'[0] == head
    ensures forall x :: x in c' <==> x in c || x == node
    ensures Entries(c') == InsertByDate(old(Entries(c)), Item(node, node.key))
  {
    ghost var i;
    c', i := LinkByDate(node, head, c);
    DateSplit(old(Entries(c)), i, Item(node, node.key));
  }

  /** evl_remove_tnode. */
  method RemoveTnode(node: Node, ghost c: seq<Node>, ghost i: nat)
    requires Ring(c) && 0 < i < |c| && c[i] == node && Ascending(Entries(c))
    modifies c`next, c`prev
    ensures Ring(RemoveAt(c, i)) && node !in RemoveAt(c, i)
    ensures Entries(RemoveAt(c, i)) == Without(old(Entries(c)), node) && Ascending(Entries(RemoveAt(c, i)))
  {
    WithoutIsRemoveAt(Entries(c), i - 1);
    SelectAscending(Entries(c), NotOf(node));
    ListDel(node, c, i);
  }

  function MarkQueued(s: bv32): (r: bv32)
    ensures r & TIMER_DEQUEUED == 0 && r & !TIMER_DEQUEUED == s & !TIMER_DEQUEUED
  {
    s & !TIMER_DEQUEUED
  }

  function MarkDequeued(s: bv32): (r: bv32)
    ensures r & TIMER_DEQUEUED != 0 && r & !TIMER_DEQUEUED == s & !TIMER_DEQUEUED
  {
    s | TIMER_DEQUEUED
  }

  /** Being queued or not has no say in the gravity of a timer. */
  lemma GravityKept(status: bv32, g: Gravity)
    ensures TimerGravity(MarkQueued(status), g) == TimerGravity(status, g)
    ensures TimerGravity(MarkDequeued(status), g) == TimerGravity(status, g)
  {
  }

  /** A per-CPU queue, and the timers of its base, queued or not, by their nodes. */
  class TimerBase {
    const head: Node
    ghost var ring: seq<Node>
    ghost var timers: map<Node, Timer>

    ghost predicate Linked()
      reads this, ring
    {
      Ring(ring) && ring[0] == head && Ascending(Entries(ring))
    }

    /** EVL_TIMER_DEQUEUED says exactly which timers are out of the queue. */
    ghost predicate Flagged()
      reads this, timers.Values
    {
      && (forall n :: n in timers ==> n != head && timers[n].node == n && (timers[n].Dequeued() <==> n !in ring))
      && (forall n :: n in ring && n != head ==> n in timers)
    }

    ghost predicate Valid()
      reads this, ring, timers.Values
    {
      Linked() && Flagged()
    }

    ghost predicate Owns(t: Timer)
      reads this
    {
      t.node in timers && timers[t.node] == t
    }

    /** What is queued, earliest first. */
    ghost function Queue(): seq<Item<Node>>
      requires Linked()
      reads this, ring
    {
      Entries(ring)
    }

    /** evl_init_tqueue. */
    constructor ()
      ensures Valid() && Queue() == [] && timers == map[] && fresh(ring)
    {
      var h := new Node(0);
      head, ring, timers := h, [h], map[];
    }

    /** A timer joins the base, as __evl_init_timer leaves it. */
    ghost method Adopt(t: Timer)
      requires Valid() && t.node !in timers && t.Dequeued() && t.node !in ring
      modifies `timers
      ensures Valid() && timers == old(timers)[t.node := t] && Queue() == old(Queue())
    {
      timers := timers[t.node := t];
    }

    method Put(node: Node)
      requires Linked() && node !in ring
      modifies `ring, node`next, node`prev, ring`next, ring`prev
      ensures Linked() && (forall n :: n in ring <==> n in old(ring) || n == node)
      ensures Queue() == InsertByDate(old(Queue()), Item(node, node.key))
    {
      InsertKeepsAscending(Queue(), Item(node, node.key));
      ring := InsertTnode(node, head, ring);
    }

    method Take(node: Node)
      requires Linked() && node in ring && node != head
      modifies `ring, ring`next, ring`prev
      ensures Linked() && (forall n :: n in ring <==> n in old(ring) && n != node)
      ensures Queue() == Without(old(Queue()), node)
    {
      ghost var i :| 0 <= i < |ring| && ring[i] == node;
      RemovedNodes(ring, i);
      RemoveTnode(node, ring, i);
      ring := RemoveAt(ring, i);
    }

    /** Dequeue takes back what Enqueue makes of the queue. */
    lemma DequeueUndoes(node: Node)
      requires Linked() && node !in ring
      ensures Without(InsertByDate(Queue(), Item(node, node.key)), node) == Queue()
    {
      forall i | 0 <= i < |Queue()| ensures Queue()[i].val != node {
        assert Queue()[i].val == ring[i + 1];
      }
      DequeueUndoesEnqueue(Queue(), Item(node, node.key));
    }

    /** evl_enqueue_timer. */
    method Enqueue(t: Timer)
      requires Valid() && Owns(t) && t.Dequeued()
      modifies `ring, t`status, t`scheduled, t.node`next, t.node`prev, ring`next, ring`prev
      ensures Valid() && timers == old(timers) && !t.Dequeued()
      ensures Queue() == InsertByDate(old(Queue()), Item(t.node, t.node.key))
      ensures t.status == MarkQueued(old(t.status)) && t.scheduled == old(t.scheduled) + 1
      ensures old(t.Dated()) ==> t.Dated()
    {
      Put(t.node);
      t.NowQueued();
    }

    /** evl_dequeue_timer. */
    method Dequeue(t: Timer)
      requires Valid() && Owns(t) && !t.Dequeued()
      modifies `ring, t`status, ring`next, ring`prev
      ensures Valid() && timers == old(timers) && t.Dequeued()
      ensures Queue() == Without(old(Queue()), t.node)
      ensures t.status == MarkDequeued(old(t.status)) && (old(t.Dated()) ==> t.Dated())
    {
      Take(t.node);
      t.NowDequeued();
    }

    /** evl_update_timer_date on a timer of this base, while it is out of the queue. */
    method UpdateDequeued(t: Timer)
      requires Valid() && Owns(t) && t.Dequeued()
      modifies t.node`key
      ensures Valid() && Queue() == old(Queue())
      ensures t.Dated()
    {
      t.UpdateDate();
      assert forall n :: n in ring ==> n.key == old(n.key);
      EntriesKept(ring);
    }

    /** evl_get_tqueue_head: no queued date is earlier, and among the earliest none is older. */
    method Head() returns (n: Node?)
      requires Valid()
      ensures n == null <==> Queue() == []
      ensures n != null ==> Queue()[0].val == n && forall i :: 1 <= i < |ring| ==> n.key <= ring[i].key
    {
      var empty := ListEmpty(head, ring);
      if empty { return null; }
      n := head.next;
      forall i | 1 <= i < |ring| ensures n.key <= ring[i].key {
        assert Queue()[0].prio <= Queue()[i - 1].prio;
      }
    }

    /** evl_get_tqueue_next. */
    method NextOf(n: Node, ghost i: nat) returns (r: Node?)
      requires Valid() && 0 < i < |ring| && ring[i] == n
      ensures r == if i + 1 < |ring| then ring[i + 1] else null
    {
      if n.next == head { return null; }
      r := n.next;
    }

    /** for_each_evl_tnode, one evl_get_tqueue_next after the other: every queued timer once, in the
        order of their dates. */
    method Walk() returns (visited: seq<Node>)
      requires Valid()
      ensures visited == ring[1..]
      ensures forall i, j :: 0 <= i < j < |visited| ==> visited[i] != visited[j] && visited[i].key <= visited[j].key
      ensures forall n :: n in timers ==> (n in visited <==> !timers[n].Dequeued())
    {
      visited := [];
      var n := Head();
      while n != null
        invariant |visited| < |ring| && visited == ring[1..|visited| + 1]
        invariant n == if |visited| + 1 < |ring| then ring[|visited| + 1] else null
        decreases |ring| - |visited|
      {
        visited := visited + [n];
        n := NextOf(n, |visited|);
      }
      forall i, j | 0 <= i < j < |visited| ensures visited[i] != visited[j] && visited[i].key <= visited[j].key {
        assert Queue()[i].prio <= Queue()[j].prio;
      }
    }
  }
}
