/** The two back ends of the runnable queue are interchangeable: every operation of the multi-level
    queue, flattened, is the same operation on one priority-sorted list. */
module QueueRefinement {
  import opened Options
  import opened PriorityOrder
  import opened QueueModel

  lemma InsertedDistinct<T>(s: seq<Item<T>>, i: nat, x: Item<T>)
    requires i <= |s| && Distinct(s) && !Holds(s, x.val)
    ensures Distinct(s[..i] + [x] + s[i..])
  {
  }

  lemma {:induction false} FlattenHolds<T>(heads: seq<seq<Item<T>>>, v: T)
    requires forall i :: 0 <= i < |heads| ==> !Holds(heads[i], v)
    ensures !Holds(Flatten(heads), v)
  {
    if heads != [] {
      assert forall i :: 0 <= i < |heads[1..]| ==> heads[1..][i] == heads[i + 1];
      FlattenHolds(heads[1..], v);
      if k :| 0 <= k < |Flatten(heads)| && Flatten(heads)[k].val == v {
        assert if k < |heads[0]| then heads[0][k].val == v else Flatten(heads[1..])[k - |heads[0]|].val == v;
      }
    }
  }

  lemma InsertKeepsDistinct<T>(s: seq<Item<T>>, x: Item<T>)
    requires Sorted(s) && Distinct(s) && !Holds(s, x.val)
    ensures Distinct(InsertFF(s, x)) && |InsertFF(s, x)| == |s| + 1
    ensures Distinct(InsertLF(s, x)) && |InsertLF(s, x)| == |s| + 1
  {
    var i := SortedSplits(s, x.prio);
    InsertedDistinct(s, i, x);
    var j := SortedSplits(s, x.prio + 1);
    InsertedDistinct(s, j, x);
  }

  lemma {:induction false} FlattenTail<T>(heads: seq<seq<Item<T>>>, x: Item<T>, top: int)
    requires LevelsOk(heads, top) && 0 <= top - x.prio < |heads|
    ensures var heads' := heads[top - x.prio := heads[top - x.prio] + [x]];
            LevelsOk(heads', top) && Flatten(heads') == InsertFF(Flatten(heads), x)
  {
    var heads' := heads[top - x.prio := heads[top - x.prio] + [x]];
    FlattenSorted(heads, top);
    FlattenSorted(heads', top);
    InsertFFSorted(Flatten(heads), x);
    GroupsDetermine(Flatten(heads'), InsertFF(Flatten(heads), x));
  }

  lemma {:induction false} FlattenHead<T>(heads: seq<seq<Item<T>>>, x: Item<T>, top: int)
    requires LevelsOk(heads, top) && 0 <= top - x.prio < |heads|
    ensures var heads' := heads[top - x.prio := [x] + heads[top - x.prio]];
            LevelsOk(heads', top) && Flatten(heads') == InsertLF(Flatten(heads), x)
  {
    var heads' := heads[top - x.prio := [x] + heads[top - x.prio]];
    FlattenSorted(heads, top);
    FlattenSorted(heads', top);
    InsertLFSorted(Flatten(heads), x);
    GroupsDetermine(Flatten(heads'), InsertLF(Flatten(heads), x));
  }

  /** Adding at the tail of a level is the priority-FIFO insertion. */
  lemma {:induction false} AddTailRefines<T>(q: Mlq<T>, x: Item<T>)
    requires MlqOk(q) && InRange(x.prio) && !Holds(Flatten(q.heads), x.val)
    ensures MlqOk(AddTail(q, x))
    ensures Flatten(AddTail(q, x).heads) == InsertFF(Flatten(q.heads), x)
  {
    FlattenTail(q.heads, x, CORE_MAX_PRIO);
    FlattenSorted(q.heads, CORE_MAX_PRIO);
    InsertKeepsDistinct(Flatten(q.heads), x);
  }

  /** Adding at the head of a level is the priority-LIFO insertion. */
  lemma {:induction false} AddHeadRefines<T>(q: Mlq<T>, x: Item<T>)
    requires MlqOk(q) && InRange(x.prio) && !Holds(Flatten(q.heads), x.val)
    ensures MlqOk(AddHead(q, x))
    ensures Flatten(AddHead(q, x).heads) == InsertLF(Flatten(q.heads), x)
  {
    FlattenHead(q.heads, x, CORE_MAX_PRIO);
    FlattenSorted(q.heads, CORE_MAX_PRIO);
    InsertKeepsDistinct(Flatten(q.heads), x);
  }

  /** A queued item sits at the level of its priority and nowhere else. */
  lemma {:induction false} OnlyAtItsLevel<T>(q: Mlq<T>, x: Item<T>)
    requires MlqOk(q) && x in Flatten(q.heads)
    ensures InRange(x.prio) && Holds(q.heads[QIndex(x.prio)], x.val)
    ensures forall i :: 0 <= i < MLQ_LEVELS && i != QIndex(x.prio) ==> !Holds(q.heads[i], x.val)
  {
    var s := Flatten(q.heads);
    FlattenSorted(q.heads, CORE_MAX_PRIO);
    var k :| 0 <= k < |s| && s[k] == x;
    SelectMembers(s, Is(x.prio));
    assert x in Group(s, x.prio);
    forall i | 0 <= i < MLQ_LEVELS && Holds(q.heads[i], x.val) ensures i == QIndex(x.prio) {
      var j :| 0 <= j < |q.heads[i]| && q.heads[i][j].val == x.val;
      var y := q.heads[i][j];
      SelectMembers(s, Is(CORE_MAX_PRIO - i));
      assert y in Group(s, CORE_MAX_PRIO - i);
      var m :| 0 <= m < |s| && s[m] == y;
      assert m == k;
    }
  }

  lemma {:induction false} UnlinkRefines<T>(heads: seq<seq<Item<T>>>, v: T, top: int)
    requires LevelsOk(heads, top)
    ensures LevelsOk(UnlinkAll(heads, v), top)
    ensures Flatten(UnlinkAll(heads, v)) == Without(Flatten(heads), v)
  {
    var heads': seq<seq<Item<T>>> := UnlinkAll(heads, v);
    forall i, k | 0 <= i < |heads'| && 0 <= k < |heads'[i]| ensures heads'[i][k].prio == top - i {
      SelectMembers(heads[i], NotOf(v));
      assert heads'[i][k] in heads[i];
    }
    FlattenSorted(heads, top);
    FlattenSorted(heads', top);
    WithoutSorted(Flatten(heads), v);
    GroupsDetermine(Flatten(heads'), Without(Flatten(heads), v));
  }

  lemma WithoutOne<T>(s: seq<Item<T>>, x: Item<T>)
    requires Distinct(s) && x in s
    ensures Distinct(Without(s, x.val)) && |Without(s, x.val)| == |s| - 1
  {
    var k :| 0 <= k < |s| && s[k] == x;
    WithoutIsRemoveAt(s, k);
  }

  /** Deleting a queued item through the level of its priority is deleting it from the list. */
  lemma {:induction false} DelRefines<T>(q: Mlq<T>, x: Item<T>)
    requires MlqOk(q) && x in Flatten(q.heads)
    ensures InRange(x.prio) && MlqOk(Del(q, x))
    ensures Flatten(Del(q, x).heads) == Without(Flatten(q.heads), x.val)
  {
    OnlyAtItsLevel(q, x);
    UnlinkRefines(q.heads, x.val, CORE_MAX_PRIO);
    WithoutOne(Flatten(q.heads), x);
    forall i | 0 <= i < MLQ_LEVELS && i != QIndex(x.prio) ensures Without(q.heads[i], x.val) == q.heads[i] {
      WithoutAbsent(q.heads[i], x.val);
    }
  }

  /** Picking takes the head of the list, or nothing when there is none. */
  lemma {:induction false} GetRefines<T>(q: Mlq<T>)
    requires MlqOk(q)
    ensures var s, (r, q') := Flatten(q.heads), Get(q);
            && MlqOk(q')
            && (s == [] ==> r == None && q' == q)
            && (s != [] ==> r == Some(s[0]) && Flatten(q'.heads) == s[1..])
  {
    var s := Flatten(q.heads);
    if q.elems != 0 {
      FirstLevel(q);
      assert s[0] in s;
      DelRefines(q, s[0]);
      assert s[0].prio == CORE_MAX_PRIO - FirstBit(q.prioMap);
      WithoutIsRemoveAt(s, 0);
    }
  }

  // -------------------------------------------------------------- whole runs

  datatype Op<T> = PutHead(x: Item<T>) | PutTail(x: Item<T>) | Remove(x: Item<T>) | Pick

  /** What the callers owe: priorities in range, only absent threads added, only queued ones deleted. */
  ghost predicate Legal<T>(op: Op<T>, s: seq<Item<T>>) {
    match op
    case PutHead(x) => InRange(x.prio) && !Holds(s, x.val)
    case PutTail(x) => InRange(x.prio) && !Holds(s, x.val)
    case Remove(x) => x in s
    case Pick => true
  }

  ghost function ListStep<T>(op: Op<T>, s: seq<Item<T>>): (Option<Item<T>>, seq<Item<T>>) {
    match op
    case PutHead(x) => (None, InsertLF(s, x))
    case PutTail(x) => (None, InsertFF(s, x))
    case Remove(x) => (None, Without(s, x.val))
    case Pick => if s == [] then (None, s) else (Some(s[0]), s[1..])
  }

  ghost function MlqStep<T>(op: Op<T>, q: Mlq<T>): (Option<Item<T>>, Mlq<T>)
    requires MlqOk(q) && Legal(op, Flatten(q.heads))
  {
    match op
    case PutHead(x) => (None, AddHead(q, x))
    case PutTail(x) => (None, AddTail(q, x))
    case Remove(x) => DelRefines(q, x); (None, Del(q, x))
    case Pick => Get(q)
  }

  /** An operation changes one priority group only: at its head, at its tail, or by one thread less.
      A pick returns the head of the queue and leaves its tail. */
  lemma {:induction false} OneGroupChanges<T>(op: Op<T>, s: seq<Item<T>>)
    requires Sorted(s) && Distinct(s) && Legal(op, s)
    ensures var (r, s') := ListStep(op, s);
            match op
            case PutHead(x) =>
              r == None && forall p :: Group(s', p) == (if p == x.prio then [x] else []) + Group(s, p)
            case PutTail(x) =>
              r == None && forall p :: Group(s', p) == Group(s, p) + (if p == x.prio then [x] else [])
            case Remove(x) =>
              r == None && exists i :: 0 <= i < |s| && s[i] == x && s' == RemoveAt(s, i)
            case Pick =>
              if s == [] then r == None && s' == [] else r == Some(s[0]) && s == [s[0]] + s'
    ensures Sorted(ListStep(op, s).1) && Distinct(ListStep(op, s).1)
  {
    match op
    case PutHead(x) =>
      InsertLFSorted(s, x);
      InsertKeepsDistinct(s, x);
    case PutTail(x) =>
      InsertFFSorted(s, x);
      InsertKeepsDistinct(s, x);
    case Remove(x) =>
      var i :| 0 <= i < |s| && s[i] == x;
      WithoutIsRemoveAt(s, i);
      SelectSorted(s, NotOf(x.val));
    case Pick =>
      if s != [] { Tail(s); }
  }

  ghost predicate LegalRun<T>(ops: seq<Op<T>>, s: seq<Item<T>>) {
    ops == [] || (Legal(ops[0], s) && LegalRun(ops[1..], ListStep(ops[0], s).1))
  }

  /** What the successive operations return, and the final queue. */
  ghost function ListRun<T>(ops: seq<Op<T>>, s: seq<Item<T>>): (seq<Option<Item<T>>>, seq<Item<T>>) {
    if ops == [] then ([], s)
    else
      var (r, s') := ListStep(ops[0], s);
      var (rs, s'') := ListRun(ops[1..], s');
      ([r] + rs, s'')
  }

  lemma StepRefines<T>(op: Op<T>, q: Mlq<T>)
    requires MlqOk(q) && Legal(op, Flatten(q.heads))
    ensures MlqOk(MlqStep(op, q).1)
    ensures MlqStep(op, q).0 == ListStep(op, Flatten(q.heads)).0
    ensures Flatten(MlqStep(op, q).1.heads) == ListStep(op, Flatten(q.heads)).1
  {
    match op
    case PutHead(x) => AddHeadRefines(q, x);
    case PutTail(x) => AddTailRefines(q, x);
    case Remove(x) => DelRefines(q, x);
    case Pick => GetRefines(q);
  }

  ghost function MlqRun<T>(ops: seq<Op<T>>, q: Mlq<T>): (seq<Option<Item<T>>>, Mlq<T>)
    requires MlqOk(q) && LegalRun(ops, Flatten(q.heads))
    decreases ops
  {
    if ops == [] then ([], q)
    else
      StepRefines(ops[0], q);
      var (r, q') := MlqStep(ops[0], q);
      var (rs, q'') := MlqRun(ops[1..], q');
      ([r] + rs, q'')
  }

  /** Every run of the two back ends returns the same threads and leaves the same order. */
  lemma {:induction false} BackEndsAgree<T>(ops: seq<Op<T>>, q: Mlq<T>)
    requires MlqOk(q) && LegalRun(ops, Flatten(q.heads))
    ensures MlqOk(MlqRun(ops, q).1)
    ensures MlqRun(ops, q).0 == ListRun(ops, Flatten(q.heads)).0
    ensures Flatten(MlqRun(ops, q).1.heads) == ListRun(ops, Flatten(q.heads)).1
    decreases ops
  {
    if ops != [] {
      StepRefines(ops[0], q);
      BackEndsAgree(ops[1..], MlqStep(ops[0], q).1);
    }
  }

  lemma InitOk<T>()
    ensures MlqOk(InitMlq<T>()) && Flatten(InitMlq<T>().heads) == []
  {
    FlattenEmpty(InitMlq<T>().heads);
  }
}
