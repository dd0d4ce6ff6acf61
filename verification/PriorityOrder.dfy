/** Priority-ordered sequences: the declarative meaning of the sorted lists of the EVL core.
    Nothing here walks a list. An insertion is described by what it leaves before and after the
    new item, and a sorted sequence is shown to be determined by its priority groups alone. */
module PriorityOrder {

  /** A queued object together with the key the list is sorted on. */
  datatype Item<T> = Item(val: T, prio: int)

  /** The ways in which a part of a queue is singled out. */
  datatype Cut<T> = Is(p: int) | From(p: int) | Below(p: int) | NotOf(v: T)

  ghost predicate Fits<T>(x: Item<T>, c: Cut<T>) {
    match c
    case Is(p) => x.prio == p
    case From(p) => x.prio >= p
    case Below(p) => x.prio < p
    case NotOf(v) => x.val != v
  }

  /** The items that fit c, in queue order. */
  ghost function Select<T>(s: seq<Item<T>>, c: Cut<T>): seq<Item<T>> {
    if s == [] then []
    else if Fits(s[0], c) then [s[0]] + Select(s[1..], c)
    else Select(s[1..], c)
  }

  /** The items of priority p. */
  ghost function Group<T>(s: seq<Item<T>>, p: int): seq<Item<T>> {
    Select(s, Is(p))
  }

  /** s without whatever belongs to v, everything else in place. */
  ghost function Without<T>(s: seq<Item<T>>, v: T): seq<Item<T>> {
    Select(s, NotOf(v))
  }

  /** x between what is at least as urgent as bar and the rest. */
  ghost function InsertAt<T>(s: seq<Item<T>>, x: Item<T>, bar: int): seq<Item<T>> {
    Select(s, From(bar)) + [x] + Select(s, Below(bar))
  }

  /** Priority FIFO: x goes behind everything at least as urgent. */
  ghost function InsertFF<T>(s: seq<Item<T>>, x: Item<T>): seq<Item<T>> {
    InsertAt(s, x, x.prio)
  }

  /** Priority LIFO: x goes behind everything strictly more urgent. */
  ghost function InsertLF<T>(s: seq<Item<T>>, x: Item<T>): seq<Item<T>> {
    InsertAt(s, x, x.prio + 1)
  }

  function RemoveAt<T>(s: seq<T>, i: nat): seq<T>
    requires i < |s|
  {
    s[..i] + s[i + 1..]
  }

  ghost predicate Sorted<T>(s: seq<Item<T>>) {
    forall i, j :: 0 <= i < j < |s| ==> s[i].prio >= s[j].prio
  }

  ghost predicate Distinct<T>(s: seq<Item<T>>) {
    forall i, j :: 0 <= i < j < |s| ==> s[i].val != s[j].val
  }

  ghost predicate Holds<T>(s: seq<Item<T>>, v: T) {
    exists i :: 0 <= i < |s| && s[i].val == v
  }

  // -------------------------------------------------------------- selections

  lemma Tail<T>(s: seq<T>)
    requires s != []
    ensures s == [s[0]] + s[1..] && forall k :: 0 <= k < |s| - 1 ==> s[1..][k] == s[k + 1]
  {
  }

  lemma {:induction false} SelectConcat<T>(a: seq<Item<T>>, b: seq<Item<T>>, c: Cut<T>)
    ensures Select(a + b, c) == Select(a, c) + Select(b, c)
  {
    if a == [] {
      assert a + b == b;
    } else {
      assert (a + b)[0] == a[0] && (a + b)[1..] == a[1..] + b;
      SelectConcat(a[1..], b, c);
    }
  }

  lemma SelectThree<T>(a: seq<Item<T>>, x: Item<T>, b: seq<Item<T>>, c: Cut<T>)
    ensures Select(a + [x] + b, c) == Select(a, c) + (if Fits(x, c) then [x] else []) + Select(b, c)
  {
    SelectConcat(a + [x], b, c);
    SelectConcat(a, [x], c);
  }

  lemma {:induction false} SelectAll<T>(s: seq<Item<T>>, c: Cut<T>)
    requires forall k :: 0 <= k < |s| ==> Fits(s[k], c)
    ensures Select(s, c) == s
  {
    if s != [] {
      Tail(s);
      SelectAll(s[1..], c);
    }
  }

  lemma {:induction false} SelectNone<T>(s: seq<Item<T>>, c: Cut<T>)
    requires forall k :: 0 <= k < |s| ==> !Fits(s[k], c)
    ensures Select(s, c) == []
  {
    if s != [] {
      Tail(s);
      SelectNone(s[1..], c);
    }
  }

  lemma {:induction false} SelectMembers<T>(s: seq<Item<T>>, c: Cut<T>)
    ensures forall x :: x in Select(s, c) <==> x in s && Fits(x, c)
    ensures forall k :: 0 <= k < |Select(s, c)| ==> Select(s, c)[k] in s && Fits(Select(s, c)[k], c)
  {
    if s != [] {
      Tail(s);
      SelectMembers(s[1..], c);
    }
  }

  lemma {:induction false} SelectSwap<T>(s: seq<Item<T>>, c: Cut<T>, d: Cut<T>)
    ensures Select(Select(s, c), d) == Select(Select(s, d), c)
  {
    if s != [] {
      SelectSwap(s[1..], c, d);
    }
  }

  lemma {:induction false} SelectSorted<T>(s: seq<Item<T>>, c: Cut<T>)
    requires Sorted(s)
    ensures Sorted(Select(s, c))
  {
    if s != [] {
      Tail(s);
      SelectSorted(s[1..], c);
      SelectMembers(s[1..], c);
    }
  }

  /** Where the reverse walk of a sorted list stops is where the two selections meet. */
  lemma {:induction false} SplitPoint<T>(s: seq<Item<T>>, i: nat, bar: int)
    requires i <= |s|
    requires forall k :: 0 <= k < i ==> s[k].prio >= bar
    requires forall k :: i <= k < |s| ==> s[k].prio < bar
    ensures Select(s, From(bar)) == s[..i]
    ensures Select(s, Below(bar)) == s[i..]
  {
    assert s == s[..i] + s[i..];
    SelectConcat(s[..i], s[i..], From(bar));
    SelectConcat(s[..i], s[i..], Below(bar));
    SelectAll(s[..i], From(bar));
    SelectNone(s[..i], Below(bar));
    SelectNone(s[i..], From(bar));
    SelectAll(s[i..], Below(bar));
  }

  /** Every sorted sequence has such a point. */
  lemma {:induction false} SortedSplits<T>(s: seq<Item<T>>, bar: int) returns (i: nat)
    requires Sorted(s)
    ensures i <= |s| && Select(s, From(bar)) == s[..i] && Select(s, Below(bar)) == s[i..]
    ensures forall k :: 0 <= k < i ==> s[k].prio >= bar
    ensures forall k :: i <= k < |s| ==> s[k].prio < bar
  {
    i := 0;
    while i < |s| && s[i].prio >= bar
      invariant i <= |s|
      invariant forall k :: 0 <= k < i ==> s[k].prio >= bar
    {
      i := i + 1;
    }
    SplitPoint(s, i, bar);
  }

  // ------------------------------------------------- what an insertion promises

  lemma {:induction false} SelectGroup<T>(s: seq<Item<T>>, bar: int, p: int)
    ensures Group(Select(s, From(bar)), p) == if p >= bar then Group(s, p) else []
    ensures Group(Select(s, Below(bar)), p) == if p < bar then Group(s, p) else []
  {
    SelectSwap(s, From(bar), Is(p));
    SelectSwap(s, Below(bar), Is(p));
    SelectMembers(s, Is(p));
    if p >= bar {
      SelectAll(Group(s, p), From(bar));
      SelectNone(Group(s, p), Below(bar));
    } else {
      SelectNone(Group(s, p), From(bar));
      SelectAll(Group(s, p), Below(bar));
    }
  }

  /** Tail insertion keeps the order and puts x last in its own group, touching no other group. */
  lemma {:induction false} InsertFFSorted<T>(s: seq<Item<T>>, x: Item<T>)
    requires Sorted(s)
    ensures Sorted(InsertFF(s, x))
    ensures forall p :: Group(InsertFF(s, x), p) == Group(s, p) + (if p == x.prio then [x] else [])
    ensures exists i :: 0 <= i <= |s| && InsertFF(s, x) == s[..i] + [x] + s[i..]
  {
    var i := SortedSplits(s, x.prio);
    assert InsertFF(s, x) == s[..i] + [x] + s[i..];
    forall p ensures Group(InsertFF(s, x), p) == Group(s, p) + (if p == x.prio then [x] else []) {
      SelectThree(Select(s, From(x.prio)), x, Select(s, Below(x.prio)), Is(p));
      SelectGroup(s, x.prio, p);
    }
  }

  /** Head insertion keeps the order and puts x first in its own group, touching no other group. */
  lemma {:induction false} InsertLFSorted<T>(s: seq<Item<T>>, x: Item<T>)
    requires Sorted(s)
    ensures Sorted(InsertLF(s, x))
    ensures forall p :: Group(InsertLF(s, x), p) == (if p == x.prio then [x] else []) + Group(s, p)
    ensures exists i :: 0 <= i <= |s| && InsertLF(s, x) == s[..i] + [x] + s[i..]
  {
    var bar := x.prio + 1;
    var i := SortedSplits(s, bar);
    assert InsertLF(s, x) == s[..i] + [x] + s[i..];
    forall p ensures Group(InsertLF(s, x), p) == (if p == x.prio then [x] else []) + Group(s, p) {
      SelectThree(Select(s, From(bar)), x, Select(s, Below(bar)), Is(p));
      SelectGroup(s, bar, p);
    }
  }

  lemma InsertKeepsOrder<T>(s: seq<Item<T>>, x: Item<T>)
    requires Sorted(s)
    ensures Sorted(InsertFF(s, x)) && Sorted(InsertLF(s, x))
  {
    InsertFFSorted(s, x);
    InsertLFSorted(s, x);
  }

  // ---------------------------------------------------------------- removal

  lemma WithoutAbsent<T>(s: seq<Item<T>>, v: T)
    requires !Holds(s, v)
    ensures Without(s, v) == s
  {
    SelectAll(s, NotOf(v));
  }

  /** Removal disturbs neither the order nor any group. */
  lemma WithoutSorted<T>(s: seq<Item<T>>, v: T)
    requires Sorted(s)
    ensures Sorted(Without(s, v))
    ensures forall p :: Group(Without(s, v), p) == Without(Group(s, p), v)
  {
    SelectSorted(s, NotOf(v));
    forall p ensures Group(Without(s, v), p) == Without(Group(s, p), v) {
      SelectSwap(s, NotOf(v), Is(p));
    }
  }

  lemma RemoveInserted<T>(a: seq<Item<T>>, x: Item<T>, b: seq<Item<T>>)
    requires !Holds(a, x.val) && !Holds(b, x.val)
    ensures Without(a + [x] + b, x.val) == a + b
  {
    SelectThree(a, x, b, NotOf(x.val));
    SelectAll(a, NotOf(x.val));
    SelectAll(b, NotOf(x.val));
  }

  /** For the one holder of v, removal is deletion at its position. */
  lemma {:induction false} WithoutIsRemoveAt<T>(s: seq<Item<T>>, i: nat)
    requires i < |s| && Distinct(s)
    ensures Without(s, s[i].val) == RemoveAt(s, i)
  {
    RemoveInserted(s[..i], s[i], s[i + 1..]);
    assert s == s[..i] + [s[i]] + s[i + 1..];
  }

  /** Insertion followed by removal of the newcomer changes nothing. */
  lemma {:induction false} RemoveUndoesInsert<T>(s: seq<Item<T>>, x: Item<T>, bar: int)
    requires Sorted(s) && !Holds(s, x.val)
    ensures Without(InsertAt(s, x, bar), x.val) == s
  {
    var i := SortedSplits(s, bar);
    RemoveInserted(s[..i], x, s[i..]);
    assert s[..i] + s[i..] == s;
  }

  // --------------------------------------------- groups determine a sorted sequence

  lemma {:induction false} GroupNonempty<T>(s: seq<Item<T>>, p: int)
    ensures Group(s, p) != [] <==> exists i :: 0 <= i < |s| && s[i].prio == p
  {
    SelectMembers(s, Is(p));
    if i :| 0 <= i < |s| && s[i].prio == p {
      assert s[i] in Group(s, p);
    }
    if Group(s, p) != [] {
      assert Group(s, p)[0] in s;
    }
  }

  /** A sequence whose items all have priority p is its own group, and has no other. */
  lemma UniformGroup<T>(s: seq<Item<T>>, p: int, q: int)
    requires forall i :: 0 <= i < |s| ==> s[i].prio == p
    ensures Group(s, q) == if p == q then s else []
  {
    if p == q { SelectAll(s, Is(q)); } else { SelectNone(s, Is(q)); }
  }

  lemma TopMatches<T>(a: seq<Item<T>>, b: seq<Item<T>>)
    requires Sorted(b) && a != []
    requires forall p :: Group(a, p) == Group(b, p)
    ensures b != [] && b[0].prio >= a[0].prio
  {
    GroupNonempty(a, a[0].prio);
    GroupNonempty(b, a[0].prio);
  }

  /** Two sorted sequences with the same priority groups are the same sequence. */
  lemma {:induction false} GroupsDetermine<T>(a: seq<Item<T>>, b: seq<Item<T>>)
    requires Sorted(a) && Sorted(b)
    requires forall p :: Group(a, p) == Group(b, p)
    ensures a == b
  {
    if a == [] {
      if b != [] { TopMatches(b, a); }
    } else {
      TopMatches(a, b);
      TopMatches(b, a);
      assert Group(a, a[0].prio)[0] == a[0] && Group(b, a[0].prio)[0] == b[0];
      forall p ensures Group(a[1..], p) == Group(b[1..], p) {
        var n := if a[0].prio == p then 1 else 0;
        assert Group(a[1..], p) == Group(a, p)[n..];
        assert Group(b[1..], p) == Group(b, p)[n..];
      }
      GroupsDetermine(a[1..], b[1..]);
      Tail(a);
      Tail(b);
    }
  }

  /** Putting the head back at the head of its group undoes its removal. */
  lemma {:induction false} RequeueUndoesPick<T>(s: seq<Item<T>>)
    requires Sorted(s) && s != []
    ensures InsertLF(s[1..], s[0]) == s
  {
    InsertLFSorted(s[1..], s[0]);
    GroupsDetermine(InsertLF(s[1..], s[0]), s);
  }
}
