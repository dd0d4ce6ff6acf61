/** Date-ordered sequences, the mirror of PriorityOrder for timers: the key is a date, the earliest
    comes first, and equal dates stay in order of arrival. */
module DateOrder {
  import opened PriorityOrder

  ghost predicate Ascending<T>(s: seq<Item<T>>) {
    forall i, j :: 0 <= i < j < |s| ==> s[i].prio <= s[j].prio
  }

  /** x goes behind everything that is not later. */
  ghost function InsertByDate<T>(s: seq<Item<T>>, x: Item<T>): seq<Item<T>> {
    Select(s, Below(x.prio + 1)) + [x] + Select(s, From(x.prio + 1))
  }

  /** Where the backward walk over a queue stops. */
  lemma {:induction false} DateSplit<T>(s: seq<Item<T>>, i: nat, x: Item<T>)
    requires i <= |s|
    requires forall k :: 0 <= k < i ==> s[k].prio <= x.prio
    requires forall k :: i <= k < |s| ==> s[k].prio > x.prio
    ensures InsertByDate(s, x) == s[..i] + [x] + s[i..]
  {
    var bar := x.prio + 1;
    assert s == s[..i] + s[i..];
    SelectConcat(s[..i], s[i..], From(bar));
    SelectConcat(s[..i], s[i..], Below(bar));
    SelectNone(s[..i], From(bar));
    SelectAll(s[..i], Below(bar));
    SelectAll(s[i..], From(bar));
    SelectNone(s[i..], Below(bar));
  }

  lemma {:induction false} AscendingSplits<T>(s: seq<Item<T>>, date: int) returns (i: nat)
    requires Ascending(s)
    ensures i <= |s| && (forall k :: 0 <= k < i ==> s[k].prio <= date)
    ensures forall k :: i <= k < |s| ==> s[k].prio > date
  {
    i := 0;
    while i < |s| && s[i].prio <= date
      invariant i <= |s| && forall k :: 0 <= k < i ==> s[k].prio <= date
    {
      i := i + 1;
    }
  }

  /** Insertion keeps the dates in order, moves nobody else, and puts x last among equal dates. */
  lemma {:induction false} InsertByDateOrdered<T>(s: seq<Item<T>>, x: Item<T>)
    requires Ascending(s)
    ensures Ascending(InsertByDate(s, x))
    ensures forall d :: Group(InsertByDate(s, x), d) == Group(s, d) + (if d == x.prio then [x] else [])
    ensures exists i :: 0 <= i <= |s| && InsertByDate(s, x) == s[..i] + [x] + s[i..]
  {
    var i := AscendingSplits(s, x.prio);
    DateSplit(s, i, x);
    assert InsertByDate(s, x) == s[..i] + [x] + s[i..];
    forall d ensures Group(InsertByDate(s, x), d) == Group(s, d) + (if d == x.prio then [x] else []) {
      SelectThree(Select(s, Below(x.prio + 1)), x, Select(s, From(x.prio + 1)), Is(d));
      SelectGroup(s, x.prio + 1, d);
    }
  }

  lemma InsertKeepsAscending<T>(s: seq<Item<T>>, x: Item<T>)
    requires Ascending(s)
    ensures Ascending(InsertByDate(s, x))
  {
    InsertByDateOrdered(s, x);
  }

  lemma {:induction false} SelectAscending<T>(s: seq<Item<T>>, c: Cut<T>)
    requires Ascending(s)
    ensures Ascending(Select(s, c))
  {
    if s != [] {
      Tail(s);
      SelectAscending(s[1..], c);
      SelectMembers(s[1..], c);
    }
  }

  /** A timer removed right after it was inserted leaves no trace. */
  lemma {:induction false} DequeueUndoesEnqueue<T>(s: seq<Item<T>>, x: Item<T>)
    requires Ascending(s) && !Holds(s, x.val)
    ensures Without(InsertByDate(s, x), x.val) == s
  {
    var i := AscendingSplits(s, x.prio);
    DateSplit(s, i, x);
    RemoveInserted(s[..i], x, s[i..]);
    assert s[..i] + s[i..] == s;
  }
}
