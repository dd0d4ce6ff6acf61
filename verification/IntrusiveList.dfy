/** Circular doubly-linked lists in place: the links of linux/list.h and the priority insertion
    of evl/list.h. A ring is a sequence of nodes whose first one is the list head. */
module IntrusiveList {
  import opened PriorityOrder

  /** A struct list_head, together with the key of the object it is embedded in (cprio for a
      thread, date for a timer node). The key of a list head is never read. */
  class Node {
    var next: Node?
    var prev: Node?
    var key: int

    /** INIT_LIST_HEAD. */
    constructor (key: int)
      ensures Ring([this]) && this.key == key
    {
      next, prev := this, this;
      this.key := key;
    }
  }

  /** Every link of c, in both directions, closes the circle c[0], c[1], ..., c[0]. */
  ghost predicate Ring(c: seq<Node>)
    reads c
  {
    && c != []
    && (forall i, j :: 0 <= i < j < |c| ==> c[i] != c[j])
    && (forall i {:trigger c[i].next} :: 0 <= i < |c| ==> c[i].next == if i + 1 < |c| then c[i + 1] else c[0])
    && (forall i {:trigger c[i].prev} :: 0 <= i < |c| ==> c[i].prev == if i > 0 then c[i - 1] else c[|c| - 1])
  }

  /** The entries of a ring with their keys, in list order. */
  ghost function View(s: seq<Node>): (v: seq<Item<Node>>)
    reads s
    ensures |v| == |s|
    ensures forall i :: 0 <= i < |s| ==> v[i] == Item(s[i], s[i].key)
  {
    if s == [] then [] else View(s[..|s| - 1]) + [Item(s[|s| - 1], s[|s| - 1].key)]
  }

  /** What a ring holds behind its head. */
  ghost function Entries(c: seq<Node>): (v: seq<Item<Node>>)
    requires c != []
    reads c
    ensures |v| == |c| - 1
    ensures forall i :: 0 <= i < |v| ==> v[i] == Item(c[i + 1], c[i + 1].key)
  {
    View(c[1..])
  }

  method ListEmpty(head: Node, ghost c: seq<Node>) returns (r: bool)
    requires Ring(c) && head == c[0]
    ensures r <==> Entries(c) == []
  {
    r := head.next == head;
  }

  /** Link writes leave keys alone, hence the entries of any sequence of nodes. */
  twostate lemma EntriesKept(c: seq<Node>)
    requires c != [] && forall i :: 0 <= i < |c| ==> c[i].key == old(c[i].key)
    ensures Entries(c) == old(Entries(c))
  {
  }

  /** c' is c with n behind its i-th node. */
  ghost predicate Spliced(c: seq<Node>, n: Node, i: nat, c': seq<Node>) {
    && i < |c| && |c'| == |c| + 1
    && forall k {:trigger c'[k]} :: 0 <= k < |c'| ==>
         c'[k] == if k <= i then c[k] else if k == i + 1 then n else c[k - 1]
  }

  /** What __list_add writes closes the circle again. */
  lemma Linked(c: seq<Node>, n: Node, i: nat, c': seq<Node>)
    requires Spliced(c, n, i, c') && n !in c && forall j, k :: 0 <= j < k < |c| ==> c[j] != c[k]
    requires c[i].next == n && n.prev == c[i]
    requires var after := if i + 1 < |c| then c[i + 1] else c[0]; n.next == after && after.prev == n
    requires forall k {:trigger c[k].next} :: 0 <= k < |c| && k != i ==>
               c[k].next == if k + 1 < |c| then c[k + 1] else c[0]
    requires forall k {:trigger c[k].prev} :: 0 <= k < |c| && k != (if i + 1 < |c| then i + 1 else 0) ==>
               c[k].prev == if k > 0 then c[k - 1] else c[|c| - 1]
    ensures Ring(c')
  {
    forall k | 0 <= k < |c'| ensures c'[k].next == if k + 1 < |c'| then c'[k + 1] else c'[0] {
      assert k > i + 1 ==> c[k - 1].next == if k < |c| then c[k] else c[0];
    }
    forall k | 0 <= k < |c'| ensures c'[k].prev == if k > 0 then c'[k - 1] else c'[|c'| - 1] {
      assert k > i + 2 ==> c[k - 1].prev == c[k - 2];
    }
  }

  /** __list_add(n, pos, pos.next). */
  method LinkBehind(n: Node, pos: Node, ghost c: seq<Node>, ghost i: nat)
    requires Ring(c) && i < |c| && c[i] == pos && n !in c
    modifies n`next, n`prev, pos`next, pos.next`prev
    ensures Ring(c[..i + 1] + [n] + c[i + 1..])
  {
    var after := pos.next;
    after.prev := n;
    n.next := after;
    n.prev := pos;
    pos.next := n;
    Linked(c, n, i, c[..i + 1] + [n] + c[i + 1..]);
  }

  /** A node spliced into a sequence of nodes is spliced into its entries. */
  lemma SplicedEntries(c: seq<Node>, n: Node, i: nat)
    requires i < |c|
    ensures Entries(c[..i + 1] + [n] + c[i + 1..]) == Entries(c)[..i] + [Item(n, n.key)] + Entries(c)[i..]
  {
    assert Spliced(c, n, i, c[..i + 1] + [n] + c[i + 1..]);
  }

  /** list_add: link n right behind pos. */
  method ListAdd(n: Node, pos: Node, ghost c: seq<Node>, ghost i: nat)
    requires Ring(c) && i < |c| && c[i] == pos && n !in c
    modifies n`next, n`prev, pos`next, pos.next`prev
    ensures Ring(c[..i + 1] + [n] + c[i + 1..])
    ensures Entries(c[..i + 1] + [n] + c[i + 1..])
         == old(Entries(c))[..i] + [Item(n, n.key)] + old(Entries(c))[i..]
  {
    LinkBehind(n, pos, c, i);
    EntriesKept(c);
    SplicedEntries(c, n, i);
  }

  /** A ring keeps its head and all nodes but the one taken out. */
  lemma RemovedNodes(c: seq<Node>, i: nat)
    requires Ring(c) && 0 < i < |c|
    ensures RemoveAt(c, i) != [] && RemoveAt(c, i)[0] == c[0]
    ensures forall x :: x in RemoveAt(c, i) <==> x in c && x != c[i]
  {
    assert c == c[..i] + [c[i]] + c[i + 1..];
  }

  /** The unlinking and poisoning of list_del. */
  method Bypass(n: Node, ghost c: seq<Node>, ghost i: nat)
    requires Ring(c) && 0 < i < |c| && c[i] == n
    modifies n`next, n`prev, n.prev`next, n.next`prev
    ensures Ring(RemoveAt(c, i)) && n.next == null && n.prev == null
  {
    var before, after := n.prev, n.next;
    after.prev := before;
    before.next := after;
    n.next, n.prev := null, null;
    ghost var c' := RemoveAt(c, i);
    assert forall k :: 0 <= k < |c'| ==> c'[k] == if k < i then c[k] else c[k + 1];
  }

  /** list_del: unlink n and poison its own links. */
  method ListDel(n: Node, ghost c: seq<Node>, ghost i: nat)
    requires Ring(c) && 0 < i < |c| && c[i] == n
    modifies n`next, n`prev, n.prev`next, n.next`prev
    ensures Ring(RemoveAt(c, i)) && n.next == null && n.prev == null
    ensures Entries(RemoveAt(c, i)) == RemoveAt(old(Entries(c)), i - 1)
  {
    Bypass(n, c, i);
    EntriesKept(c);
  }

  /** The position at which the reverse walk stops: i nodes of c[1..] are passed over and stay
      in front. With strict the walk stops at a node of larger key, else at one of equal key too. */
  method ReverseWalk(key: int, head: Node, strict: bool, ghost c: seq<Node>) returns (pos: Node, ghost i: nat)
    requires Ring(c) && head == c[0]
    ensures i < |c| && c[i] == pos && (pos == head <==> i == 0)
    ensures pos != head ==> if strict then key < pos.key else key <= pos.key
    ensures forall k :: i < k < |c| ==> if strict then key >= c[k].key else key > c[k].key
  {
    pos, i := head.prev, |c| - 1;
    while pos != head
      invariant i < |c| && c[i] == pos
      invariant forall k :: i < k < |c| ==> if strict then key >= c[k].key else key > c[k].key
      decreases i
    {
      if (strict && key < pos.key) || (!strict && key <= pos.key) { break; }
      pos, i := pos.prev, i - 1;
    }
  }

  /** The position found by the walk splits a sorted ring at the bar of the new node. */
  lemma WalkSplits(key: int, strict: bool, c: seq<Node>, i: nat)
    requires i < |c| && Sorted(Entries(c))
    requires i > 0 ==> if strict then key < c[i].key else key <= c[i].key
    requires forall k :: i < k < |c| ==> if strict then key >= c[k].key else key > c[k].key
    ensures forall k :: 0 <= k < i ==> Entries(c)[k].prio >= if strict then key + 1 else key
    ensures forall k :: i <= k < |c| - 1 ==> Entries(c)[k].prio < if strict then key + 1 else key
  {
    var e := Entries(c);
    assert i > 0 ==> e[i - 1] == Item(c[i], c[i].key);
    assert forall k :: i <= k < |c| - 1 ==> e[k] == Item(c[k + 1], c[k + 1].key);
  }

  /** __list_add_pri: the walk, then list_add at the position found. */
  method ListAddPri(n: Node, head: Node, strict: bool, ghost c: seq<Node>)
    returns (ghost c': seq<Node>, ghost i: nat)
    requires Ring(c) && head == c[0] && n !in c
    requires Sorted(Entries(c))
    modifies n`next, n`prev, c`next, c`prev
    ensures i < |c| && c' == c[..i + 1] + [n] + c[i + 1..] && Ring(c')
    ensures Entries(c') == old(Entries(c))[..i] + [Item(n, n.key)] + old(Entries(c))[i..]
    ensures forall k :: 0 <= k < i ==> old(Entries(c))[k].prio >= if strict then n.key + 1 else n.key
    ensures forall k :: i <= k < |c| - 1 ==> old(Entries(c))[k].prio < if strict then n.key + 1 else n.key
  {
    i := 0;
    var pos := head;
    var empty := ListEmpty(head, c);
    if !empty {
      pos, i := ReverseWalk(n.key, head, strict, c);
    }
    WalkSplits(n.key, strict, c, i);
    ListAdd(n, pos, c, i);
    c' := c[..i + 1] + [n] + c[i + 1..];
  }

  /** list_add_priff (relational operator <=): last among its equals. */
  method ListAddPriff(n: Node, head: Node, ghost c: seq<Node>) returns (ghost c': seq<Node>)
    requires Ring(c) && head == c[0] && n !in c
    requires Sorted(Entries(c))
    modifies n`next, n`prev, c`next, c`prev
    ensures Ring(c') && c'[0] == head
    ensures forall x :: x in c' <==> x in c || x == n
    ensures Entries(c') == InsertFF(old(Entries(c)), Item(n, n.key))
  {
    ghost var i;
    c', i := ListAddPri(n, head, false, c);
    SplitPoint(old(Entries(c)), i, n.key);
  }

  /** list_add_prilf (relational operator <): first among its equals. */
  method ListAddPrilf(n: Node, head: Node, ghost c: seq<Node>) returns (ghost c': seq<Node>)
    requires Ring(c) && head == c[0] && n !in c
    requires Sorted(Entries(c))
    modifies n`next, n`prev, c`next, c`prev
    ensures Ring(c') && c'[0] == head
    ensures forall x :: x in c' <==> x in c || x == n
    ensures Entries(c') == InsertLF(old(Entries(c)), Item(n, n.key))
  {
    ghost var i;
    c', i := ListAddPri(n, head, true, c);
    SplitPoint(old(Entries(c)), i, n.key + 1);
  }
}
