/** The fifo scheduling class over the runnable queue: rotation within a priority group,
    preemption, and priority boosts (evl/sched/fifo.h and the class-independent part of
    evl/sched.h). */
module FifoClass {
  import opened Options
  import opened PriorityOrder
  import opened QueueModel
  import opened QueueRefinement

  // ---------------------------------------------------------------- rotation

  /** k times: pick the next thread, then queue it behind its equals. */
  ghost function Rotate<T>(s: seq<Item<T>>, k: nat): (seq<Item<T>>, seq<Item<T>>)
    decreases k
  {
    if k == 0 || s == [] then ([], s)
    else
      var (picked, s') := Rotate(InsertFF(s[1..], s[0]), k - 1);
      ([s[0]] + picked, s')
  }

  lemma {:induction false} TopGroupFirst<T>(s: seq<Item<T>>)
    requires Sorted(s) && s != []
    ensures var g := Group(s, s[0].prio); g != [] && s == g + Select(s, Below(s[0].prio))
  {
    var p := s[0].prio;
    var i := SortedSplits(s, p);
    UniformGroup(s[..i], p, p);
    SelectNone(s[i..], Is(p));
    assert s == s[..i] + s[i..];
    SelectConcat(s[..i], s[i..], Is(p));
  }

  /** One turn moves the head behind the last thread of its group. */
  lemma {:induction false} RotateOnce<T>(g: seq<Item<T>>, rest: seq<Item<T>>, p: int)
    requires g != [] && (forall i :: 0 <= i < |g| ==> g[i].prio == p)
    requires Sorted(rest) && (forall i :: 0 <= i < |rest| ==> rest[i].prio < p)
    ensures InsertFF((g + rest)[1..], g[0]) == g[1..] + [g[0]] + rest
  {
    assert (g + rest)[1..] == g[1..] + rest;
    SplitPoint(g[1..] + rest, |g| - 1, p);
  }

  lemma {:induction false} RotatePart<T>(g: seq<Item<T>>, rest: seq<Item<T>>, p: int, k: nat)
    requires k <= |g| && (forall i :: 0 <= i < |g| ==> g[i].prio == p)
    requires Sorted(rest) && (forall i :: 0 <= i < |rest| ==> rest[i].prio < p)
    ensures Rotate(g + rest, k) == (g[..k], g[k..] + g[..k] + rest)
    decreases k
  {
    if k == 0 {
      assert g[0..] + g[..0] + rest == g + rest;
    } else {
      var g' := g[1..] + [g[0]];
      RotateOnce(g, rest, p);
      RotatePart(g', rest, p, k - 1);
      assert g[..k] == [g[0]] + g'[..k - 1];
      assert g[k..] + g[..k] == g'[k - 1..] + g'[..k - 1];
    }
  }

  /** Round robin is fair: as many turns as the top group has threads pick each of them once, in
      queue order, and bring the queue back to where it was. */
  lemma {:induction false} RoundRobinFair<T>(s: seq<Item<T>>)
    requires Sorted(s) && s != []
    ensures var g := Group(s, s[0].prio); Rotate(s, |g|) == (g, s)
  {
    var p := s[0].prio;
    var g, rest := Group(s, p), Select(s, Below(p));
    TopGroupFirst(s);
    SelectMembers(s, Is(p));
    SelectMembers(s, Below(p));
    SelectSorted(s, Below(p));
    RotatePart(g, rest, p, |g|);
    assert g[..|g|] == g && g[|g|..] + g + rest == g + rest;
  }

  /** The operations behind k turns of the round robin over a queue that holds the threads ts. */
  ghost function Turns<T>(ts: seq<Item<T>>): seq<Op<T>> {
    if ts == [] then [] else [Pick, PutTail(ts[0])] + Turns(ts[1..])
  }

  /** What those operations return: each thread in turn, and nothing from an insertion. */
  ghost function TurnResults<T>(ts: seq<Item<T>>): seq<Option<Item<T>>> {
    if ts == [] then [] else [Some(ts[0]), None] + TurnResults(ts[1..])
  }

  lemma {:induction false} TurnsRotate<T>(s: seq<Item<T>>, ts: seq<Item<T>>)
    requires Distinct(s) && Sorted(s) && (forall i :: 0 <= i < |s| ==> InRange(s[i].prio))
    requires Rotate(s, |ts|).0 == ts
    ensures LegalRun(Turns(ts), s)
    ensures ListRun(Turns(ts), s) == (TurnResults(ts), Rotate(s, |ts|).1)
    decreases |ts|
  {
    if ts != [] && s != [] {
      Tail(s);
      InsertKeepsDistinct(s[1..], s[0]);
      InsertKeepsOrder(s[1..], s[0]);
      InsertMembers(s[1..], s[0]);
      TurnsRotate(InsertFF(s[1..], s[0]), ts[1..]);
      TurnFirst(s, Turns(ts[1..]));
    }
  }

  /** A run that starts with one turn of the round robin. */
  lemma TurnFirst<T>(s: seq<Item<T>>, ops: seq<Op<T>>)
    requires s != [] && !Holds(s[1..], s[0].val) && InRange(s[0].prio)
    requires LegalRun(ops, InsertFF(s[1..], s[0]))
    ensures LegalRun([Pick, PutTail(s[0])] + ops, s)
    ensures var (rs, last) := ListRun(ops, InsertFF(s[1..], s[0]));
            ListRun([Pick, PutTail(s[0])] + ops, s) == ([Some(s[0]), None] + rs, last)
  {
    var all := [Pick, PutTail(s[0])] + ops;
    var (rs, last) := ListRun(ops, InsertFF(s[1..], s[0]));
    assert all[1..] == [PutTail(s[0])] + ops && all[1..][1..] == ops;
    assert ListRun(all[1..], s[1..]) == ([None] + rs, last);
    assert [Some(s[0])] + ([None] + rs) == [Some(s[0]), None] + rs;
  }

  lemma InsertMembers<T>(s: seq<Item<T>>, x: Item<T>)
    ensures forall i :: 0 <= i < |InsertFF(s, x)| ==> InsertFF(s, x)[i] == x || InsertFF(s, x)[i] in s
  {
    SelectMembers(s, From(x.prio));
    SelectMembers(s, Below(x.prio));
  }

  /** The same on the multi-level queue: after one turn per top thread the levels, the bitmap and
      the count hold the same queue again. */
  lemma {:induction false} RoundRobinFairMlq<T>(q: Mlq<T>)
    requires MlqOk(q) && Flatten(q.heads) != []
    ensures var s := Flatten(q.heads);
            var g := Group(s, s[0].prio);
            && LegalRun(Turns(g), s)
            && MlqRun(Turns(g), q).0 == TurnResults(g)
            && MlqRun(Turns(g), q).1 == q
  {
    var s := Flatten(q.heads);
    FlattenSorted(q.heads, CORE_MAX_PRIO);
    RoundRobinFair(s);
    TurnsRotate(s, Group(s, s[0].prio));
    BackEndsAgree(Turns(Group(s, s[0].prio)), q);
    OrderDetermines(MlqRun(Turns(Group(s, s[0].prio)), q).1, q);
  }

  /** The order of the threads determines the levels, the bitmap and the count. */
  lemma {:induction false} OrderDetermines<T>(a: Mlq<T>, b: Mlq<T>)
    requires MlqOk(a) && MlqOk(b) && Flatten(a.heads) == Flatten(b.heads)
    ensures a == b
  {
    FlattenSorted(a.heads, CORE_MAX_PRIO);
    FlattenSorted(b.heads, CORE_MAX_PRIO);
    forall i | 0 <= i < MLQ_LEVELS ensures a.heads[i] == b.heads[i] && a.prioMap[i] == b.prioMap[i] {
      assert a.heads[i] == Group(Flatten(a.heads), CORE_MAX_PRIO - i);
    }
    assert a.heads == b.heads && a.prioMap == b.prioMap;
  }

  lemma {:induction false} SelectDistinct<T>(s: seq<Item<T>>, c: Cut<T>)
    requires Distinct(s)
    ensures Distinct(Select(s, c))
  {
    if s != [] {
      Tail(s);
      SelectDistinct(s[1..], c);
      SelectMembers(s[1..], c);
    }
  }

  lemma LevelDistinct<T>(q: Mlq<T>, i: nat)
    requires MlqOk(q) && i < MLQ_LEVELS
    ensures Distinct(q.heads[i])
  {
    FlattenSorted(q.heads, CORE_MAX_PRIO);
    SelectDistinct(Flatten(q.heads), Is(CORE_MAX_PRIO - i));
    assert q.heads[i] == Group(Flatten(q.heads), CORE_MAX_PRIO - i);
  }

  lemma HeadUnlinked<T>(q: Mlq<T>, i: nat)
    requires MlqOk(q) && i < MLQ_LEVELS && q.heads[i] != []
    ensures UnlinkAll(q.heads, q.heads[i][0].val) == q.heads[i := q.heads[i][1..]]
  {
    var x := q.heads[i][0];
    assert x in Flatten(q.heads) by {
      FlattenSorted(q.heads, CORE_MAX_PRIO);
      SelectMembers(Flatten(q.heads), Is(CORE_MAX_PRIO - i));
      assert x in Group(Flatten(q.heads), CORE_MAX_PRIO - i);
    }
    OnlyAtItsLevel(q, x);
    forall j | 0 <= j < MLQ_LEVELS ensures Without(q.heads[j], x.val) == q.heads[i := q.heads[i][1..]][j] {
      if j == i {
        LevelDistinct(q, i);
        WithoutIsRemoveAt(q.heads[i], 0);
      } else {
        WithoutAbsent(q.heads[j], x.val);
      }
    }
  }

  /** A preempted thread goes back to where it was picked from. */
  lemma {:induction false} PreemptionUndone<T>(q: Mlq<T>)
    requires MlqOk(q) && q.elems != 0
    ensures var (r, q') := Get(q);
            r.Some? && InRange(r.value.prio) && MlqOk(q') && AddHead(q', r.value) == q
  {
    FirstLevel(q);
    GetRefines(q);
    var i := FirstBit(q.prioMap);
    HeadUnlinked(q, i);
    Tail(q.heads[i]);
    assert q.heads[i][0].prio == CORE_MAX_PRIO - i;
  }

  // ---------------------------------------------------------------- boosts

  /** The scheduling fields of struct evl_thread. */
  datatype Params = Params(bprio: int, cprio: int, wprio: int, weak: bool)

  /** __evl_track_fifo_priority, then the weighting of evl_track_priority. */
  ghost function Tracked(t: Params, p: Option<int>, weight: int): Params {
    match p
    case Some(prio) => t.(cprio := prio, wprio := prio + weight)
    case None => t.(cprio := t.bprio, wprio := t.bprio + weight, weak := false)
  }

  /** __evl_ceil_fifo_priority, then the weighting of evl_ceil_priority. */
  ghost function Ceiled(t: Params, prio: int, weight: int): Params {
    t.(cprio := prio, wprio := prio + weight)
  }

  class Thread {
    var bprio: int
    var cprio: int
    var wprio: int
    var weak: bool

    ghost function View(): Params
      reads this
    {
      Params(bprio, cprio, wprio, weak)
    }

    method TrackPriority(p: Option<int>, weight: int)
      modifies this
      ensures View() == Tracked(old(View()), p, weight)
    {
      match p {
        case Some(prio) =>
          cprio := prio;
        case None =>
          cprio := bprio;
          weak := false;
      }
      wprio := cprio + weight;
    }

    method CeilPriority(prio: int, weight: int)
      modifies this
      ensures View() == Ceiled(old(View()), prio, weight)
    {
      cprio := prio;
      wprio := cprio + weight;
    }
  }

  /** __evl_chk_fifo_schedparam: whatever it accepts indexes a level of the queue. */
  function ChkFifoParam(user: bool, prio: int): (ok: bool)
    ensures ok ==> InRange(prio)
    ensures ok && user ==> prio != CORE_MIN_PRIO && prio + 2 <= CORE_MAX_PRIO
    ensures !user && InRange(prio) ==> ok
    ensures user && 1 <= prio <= MAX_RT_PRIO - 1 ==> ok
  {
    var min := if user then 1 else CORE_MIN_PRIO;
    var max := if user then MAX_RT_PRIO - 1 else CORE_MAX_PRIO;
    min <= prio <= max
  }

  /** One runqueue and the threads of the class, with the weight of the class. */
  datatype Fifo = Fifo(q: Mlq<nat>, threads: map<nat, Params>, weight: int)

  datatype FifoOp =
    | Enqueue(t: nat) | Requeue(t: nat) | Dequeue(t: nat) | PickNext
    | Track(t: nat, p: Option<int>) | Ceil(t: nat, prio: int)

  ghost predicate Queued(f: Fifo, t: nat) {
    Holds(Flatten(f.q.heads), t)
  }

  /** Every thread has its weighted priority, and sits in the queue under its current priority. */
  ghost predicate FifoOk(f: Fifo) {
    && MlqOk(f.q)
    && (forall t :: t in f.threads ==>
          InRange(f.threads[t].bprio) && InRange(f.threads[t].cprio) &&
          f.threads[t].wprio == f.threads[t].cprio + f.weight)
    && (forall x :: x in Flatten(f.q.heads) ==> x.val in f.threads && x.prio == f.threads[x.val].cprio)
  }

  /** The discipline of the scheduler core: priorities change only while dequeued. */
  ghost predicate Disciplined(op: FifoOp, f: Fifo) {
    match op
    case Enqueue(t) => t in f.threads && !Queued(f, t)
    case Requeue(t) => t in f.threads && !Queued(f, t)
    case Dequeue(t) => t in f.threads && Queued(f, t)
    case PickNext => true
    case Track(t, p) => t in f.threads && !Queued(f, t) && (p.Some? ==> InRange(p.value))
    case Ceil(t, prio) => t in f.threads && !Queued(f, t) && InRange(prio)
  }

  ghost function FifoStep(op: FifoOp, f: Fifo): Fifo
    requires FifoOk(f) && Disciplined(op, f)
  {
    match op
    case Enqueue(t) => f.(q := AddTail(f.q, Item(t, f.threads[t].cprio)))
    case Requeue(t) => f.(q := AddHead(f.q, Item(t, f.threads[t].cprio)))
    case Dequeue(t) => f.(q := Del(f.q, Item(t, f.threads[t].cprio)))
    case PickNext => f.(q := Get(f.q).1)
    case Track(t, p) => f.(threads := f.threads[t := Tracked(f.threads[t], p, f.weight)])
    case Ceil(t, prio) => f.(threads := f.threads[t := Ceiled(f.threads[t], prio, f.weight)])
  }

  lemma {:induction false} FifoStepOk(op: FifoOp, f: Fifo)
    requires FifoOk(f) && Disciplined(op, f)
    ensures FifoOk(FifoStep(op, f))
  {
    var s := Flatten(f.q.heads);
    match op
    case Enqueue(t) =>
      AddTailRefines(f.q, Item(t, f.threads[t].cprio));
      SelectMembers(s, From(f.threads[t].cprio));
      SelectMembers(s, Below(f.threads[t].cprio));
    case Requeue(t) =>
      AddHeadRefines(f.q, Item(t, f.threads[t].cprio));
      SelectMembers(s, From(f.threads[t].cprio + 1));
      SelectMembers(s, Below(f.threads[t].cprio + 1));
    case Dequeue(t) =>
      QueuedUnderCprio(f, t);
      DelRefines(f.q, Item(t, f.threads[t].cprio));
      SelectMembers(s, NotOf(t));
    case PickNext =>
      GetRefines(f.q);
      if s != [] { Tail(s); }
    case Track(t, p) =>
      NotMember(s, t);
    case Ceil(t, prio) =>
      NotMember(s, t);
  }

  lemma NotMember<T>(s: seq<Item<T>>, v: T)
    requires !Holds(s, v)
    ensures forall x :: x in s ==> x.val != v
  {
  }

  lemma QueuedUnderCprio(f: Fifo, t: nat)
    requires FifoOk(f) && t in f.threads && Queued(f, t)
    ensures Item(t, f.threads[t].cprio) in Flatten(f.q.heads)
  {
    var s := Flatten(f.q.heads);
    var i :| 0 <= i < |s| && s[i].val == t;
    assert s[i] in s;
  }

  ghost predicate DisciplinedRun(ops: seq<FifoOp>, f: Fifo)
    requires FifoOk(f)
    decreases ops
  {
    ops == [] ||
    (Disciplined(ops[0], f) && (FifoStepOk(ops[0], f); DisciplinedRun(ops[1..], FifoStep(ops[0], f))))
  }

  ghost function FifoRun(ops: seq<FifoOp>, f: Fifo): Fifo
    requires FifoOk(f) && DisciplinedRun(ops, f)
    decreases ops
  {
    if ops == [] then f
    else
      FifoStepOk(ops[0], f);
      FifoRun(ops[1..], FifoStep(ops[0], f))
  }

  /** Whatever the boosts, after any disciplined run each queued thread is found at the level of its
      current priority, that level is marked, and it is found at no other level. */
  lemma {:induction false} BoostsKeepLevels(ops: seq<FifoOp>, f: Fifo, t: nat)
    requires FifoOk(f) && DisciplinedRun(ops, f)
    requires t in FifoRun(ops, f).threads && Queued(FifoRun(ops, f), t)
    ensures var g := FifoRun(ops, f);
            var i := QIndex(g.threads[t].cprio);
            && FifoOk(g) && 0 <= i < MLQ_LEVELS
            && Holds(g.q.heads[i], t) && g.q.prioMap[i]
            && (forall j :: 0 <= j < MLQ_LEVELS && j != i ==> !Holds(g.q.heads[j], t))
    decreases ops
  {
    if ops == [] {
      QueuedUnderCprio(f, t);
      OnlyAtItsLevel(f.q, Item(t, f.threads[t].cprio));
    } else {
      FifoStepOk(ops[0], f);
      BoostsKeepLevels(ops[1..], FifoStep(ops[0], f), t);
    }
  }

  lemma {:induction false} RunFirst(op: FifoOp, ops: seq<FifoOp>, f: Fifo)
    requires FifoOk(f) && Disciplined(op, f) && FifoOk(FifoStep(op, f)) && DisciplinedRun(ops, FifoStep(op, f))
    ensures DisciplinedRun([op] + ops, f) && FifoRun([op] + ops, f) == FifoRun(ops, FifoStep(op, f))
  {
    assert ([op] + ops)[1..] == ops;
  }

  /** What each operation does to the queue and to the threads. */
  lemma {:induction false} FifoStepOrder(op: FifoOp, f: Fifo)
    requires FifoOk(f) && Disciplined(op, f)
    ensures var s, g := Flatten(f.q.heads), FifoStep(op, f);
            && (op.Enqueue? ==> Flatten(g.q.heads) == InsertFF(s, Item(op.t, f.threads[op.t].cprio)))
            && (op.Requeue? ==> Flatten(g.q.heads) == InsertLF(s, Item(op.t, f.threads[op.t].cprio)))
            && (op.Dequeue? ==> Flatten(g.q.heads) == Without(s, op.t))
            && (op.PickNext? ==> Flatten(g.q.heads) == if s == [] then [] else s[1..])
            && (op.Track? || op.Ceil? ==>
                  g.q == f.q && op.t in g.threads && g.threads == f.threads[op.t := g.threads[op.t]])
            && (!op.Track? && !op.Ceil? ==> g.threads == f.threads)
            && g.weight == f.weight
  {
    match op
    case Enqueue(t) => AddTailRefines(f.q, Item(t, f.threads[t].cprio));
    case Requeue(t) => AddHeadRefines(f.q, Item(t, f.threads[t].cprio));
    case Dequeue(t) =>
      QueuedUnderCprio(f, t);
      DelRefines(f.q, Item(t, f.threads[t].cprio));
    case PickNext => GetRefines(f.q);
    case Track(_, _) =>
    case Ceil(_, _) =>
  }

  lemma {:induction false} RunThree(a: FifoOp, b: FifoOp, c: FifoOp, f: Fifo)
    requires FifoOk(f) && Disciplined(a, f) && FifoOk(FifoStep(a, f))
    requires Disciplined(b, FifoStep(a, f)) && FifoOk(FifoStep(b, FifoStep(a, f)))
    requires Disciplined(c, FifoStep(b, FifoStep(a, f)))
    ensures DisciplinedRun([a, b, c], f)
    ensures FifoRun([a, b, c], f) == FifoStep(c, FifoStep(b, FifoStep(a, f)))
  {
    var f1 := FifoStep(a, f);
    var f2 := FifoStep(b, f1);
    FifoStepOk(c, f2);
    var f3 := FifoStep(c, f2);
    assert DisciplinedRun([], f3) && FifoRun([], f3) == f3;
    RunFirst(c, [], f2);
    RunFirst(b, [c], f1);
    RunFirst(a, [b, c], f);
    assert [c] + [] == [c] && [b] + [c] == [b, c] && [a] + [b, c] == [a, b, c];
  }

  ghost predicate Changes(op: FifoOp, t: nat) {
    match op
    case Track(u, p) => u == t && (p.Some? ==> InRange(p.value))
    case Ceil(u, prio) => u == t && InRange(prio)
    case _ => false
  }

  ghost function Changed(op: FifoOp, x: Params, weight: int): Params
    requires op.Track? || op.Ceil?
  {
    if op.Track? then Tracked(x, op.p, weight) else Ceiled(x, op.prio, weight)
  }

  /** dequeue, change of priority, enqueue. */
  ghost function Around(change: FifoOp, t: nat): seq<FifoOp> {
    [Dequeue(t), change, Enqueue(t)]
  }

  lemma {:induction false} AroundChange(f: Fifo, t: nat, change: FifoOp)
    requires FifoOk(f) && t in f.threads && Queued(f, t) && Changes(change, t)
    ensures DisciplinedRun(Around(change, t), f)
    ensures var x, g := Changed(change, f.threads[t], f.weight), FifoRun(Around(change, t), f);
            && g.threads == f.threads[t := x]
            && Flatten(g.q.heads) == InsertFF(Without(Flatten(f.q.heads), t), Item(t, x.cprio))
  {
    FifoStepOrder(Dequeue(t), f);
    SelectMembers(Flatten(f.q.heads), NotOf(t));
    FifoStepOk(Dequeue(t), f);
    var f1 := FifoStep(Dequeue(t), f);
    assert !Queued(f1, t);
    FifoStepOk(change, f1);
    FifoStepOrder(Enqueue(t), FifoStep(change, f1));
    RunThree(Dequeue(t), change, Enqueue(t), f);
  }

  /** Dropping a boost of a queued thread brings it to the tail of its base level. */
  lemma {:induction false} UnboostReturnsToBase(f: Fifo, t: nat)
    requires FifoOk(f) && t in f.threads && Queued(f, t)
    ensures var ops := [Dequeue(t), Track(t, None), Enqueue(t)];
            && DisciplinedRun(ops, f)
            && Flatten(FifoRun(ops, f).q.heads)
            == InsertFF(Without(Flatten(f.q.heads), t), Item(t, f.threads[t].bprio))
            && t in FifoRun(ops, f).threads
            && FifoRun(ops, f).threads[t] == f.threads[t].(cprio := f.threads[t].bprio,
                                                       wprio := f.threads[t].bprio + f.weight, weak := false)
  {
    AroundChange(f, t, Track(t, None));
  }

  /** Tracking a priority or raising a ceiling takes effect: the base priority and the weak bit stay,
      and t is queued under its new priority, last in its group. */
  lemma {:induction false} ChangeTakesEffect(f: Fifo, t: nat, change: FifoOp, p: int)
    requires FifoOk(f) && t in f.threads && Queued(f, t) && InRange(p)
    requires change == Track(t, Some(p)) || change == Ceil(t, p)
    ensures DisciplinedRun(Around(change, t), f)
    ensures var x, g := f.threads[t], FifoRun(Around(change, t), f);
            && g.threads == f.threads[t := Params(x.bprio, p, p + f.weight, x.weak)]
            && Flatten(g.q.heads) == InsertFF(Without(Flatten(f.q.heads), t), Item(t, p))
  {
    AroundChange(f, t, change);
    assert Changed(change, f.threads[t], f.weight)
        == Params(f.threads[t].bprio, p, p + f.weight, f.threads[t].weak);
  }

  lemma {:induction false} ChangedWaitsLast(f: Fifo, t: nat, change: FifoOp, p: int)
    requires FifoOk(f) && t in f.threads && Queued(f, t) && InRange(p)
    requires change == Track(t, Some(p)) || change == Ceil(t, p)
    ensures DisciplinedRun(Around(change, t), f)
    ensures Group(Flatten(FifoRun(Around(change, t), f).q.heads), p)
         == Group(Without(Flatten(f.q.heads), t), p) + [Item(t, p)]
  {
    ChangeTakesEffect(f, t, change, p);
    FlattenSorted(f.q.heads, CORE_MAX_PRIO);
    LastOfGroup(Flatten(f.q.heads), t, p);
  }

  lemma LastOfGroup<T>(s: seq<Item<T>>, t: T, p: int)
    requires Sorted(s)
    ensures Group(InsertFF(Without(s, t), Item(t, p)), p) == Group(Without(s, t), p) + [Item(t, p)]
  {
    SelectSorted(s, NotOf(t));
    InsertFFSorted(Without(s, t), Item(t, p));
  }

  /** What the scheduler core makes of a preempted thread and of one that yields: picking and putting
      back at the head is the identity, and at the tail moves it behind its equals. No other
      operation on the queue moves or changes any other thread. */
  lemma {:induction false} PickAndPutBack(f: Fifo)
    requires FifoOk(f) && Flatten(f.q.heads) != []
    ensures var s := Flatten(f.q.heads);
            var t := s[0].val;
            && Disciplined(PickNext, f)
            && var g := FifoStep(PickNext, f);
               && FifoOk(g) && t in g.threads && !Queued(g, t) && g.threads == f.threads
               && Flatten(g.q.heads) == s[1..]
               && Disciplined(Requeue(t), g) && FifoStep(Requeue(t), g) == f
               && Disciplined(Enqueue(t), g) && FifoStep(Enqueue(t), g).threads == f.threads
               && Flatten(FifoStep(Enqueue(t), g).q.heads) == InsertFF(s[1..], s[0])
  {
    var s := Flatten(f.q.heads);
    var x := s[0];
    assert x in s;
    GetRefines(f.q);
    Tail(s);
    FifoStepOk(PickNext, f);
    PreemptionUndone(f.q);
    var g := FifoStep(PickNext, f);
    assert Item(x.val, g.threads[x.val].cprio) == x;
    AddTailRefines(g.q, x);
  }

  /** Without the discipline: a thread queued under x.prio is deleted after its priority became
      prio. The queue survives exactly when the level looked at is the right one, or when the level
      left behind is not emptied. */
  lemma {:induction false} DelAfterPriorityChange<T>(q: Mlq<T>, x: Item<T>, prio: int)
    requires MlqOk(q) && x in Flatten(q.heads) && InRange(x.prio) && InRange(prio)
    ensures MlqOk(Del(q, Item(x.val, prio))) <==>
            prio == x.prio || |q.heads[QIndex(x.prio)]| > 1
  {
    var i, k := QIndex(x.prio), QIndex(prio);
    OnlyAtItsLevel(q, x);
    DelRefines(q, x);
    LevelDistinct(q, i);
    var j :| 0 <= j < |q.heads[i]| && q.heads[i][j].val == x.val;
    WithoutIsRemoveAt(q.heads[i], j);
    var good, bad := Del(q, x), Del(q, Item(x.val, prio));
    assert good.heads == bad.heads && good.elems == bad.elems;
    assert |bad.heads[i]| == |q.heads[i]| - 1;
    if k != i {
      WithoutAbsent(q.heads[k], x.val);
      assert bad.prioMap[i];
    }
  }

  lemma SingleThread<T>(x: Item<T>)
    requires InRange(x.prio)
    ensures var q := AddTail(InitMlq(), x);
            && MlqOk(q) && x in Flatten(q.heads) && q.elems == 1
            && (forall i :: 0 <= i < MLQ_LEVELS ==> q.heads[i] == if i == QIndex(x.prio) then [x] else [])
  {
    InitOk<T>();
    AddTailRefines(InitMlq(), x);
  }

  lemma SingleUnlinked<T>(heads: seq<seq<Item<T>>>, x: Item<T>, k: nat)
    requires forall i :: 0 <= i < |heads| ==> heads[i] == if i == k then [x] else []
    ensures forall i :: 0 <= i < |heads| ==> UnlinkAll(heads, x.val)[i] == []
  {
    WithoutIsRemoveAt([x], 0);
  }

  /** What a delete under the wrong level leaves: empty lists, a count of 0 and the old bit. */
  lemma WronglyEmptied<T>(x: Item<T>, now: int)
    requires InRange(x.prio) && InRange(now) && now != x.prio
    ensures var q := Del(AddTail(InitMlq(), x), Item(x.val, now));
            && q.elems == 0 && |q.heads| == |q.prioMap| == MLQ_LEVELS && !MlqOk(q)
            && (forall i :: 0 <= i < MLQ_LEVELS ==> q.heads[i] == [] && (q.prioMap[i] <==> i == QIndex(x.prio)))
  {
    var q := AddTail(InitMlq(), x);
    SingleThread(x);
    SingleUnlinked(q.heads, x, QIndex(x.prio));
    var bad := Del(q, Item(x.val, now));
    assert bad.heads == UnlinkAll(q.heads, x.val);
    assert bad.prioMap[QIndex(x.prio)] && bad.heads[QIndex(x.prio)] == [];
  }

  /** The damage is real: the thread v leaves its level empty but marked, and after a less urgent
      thread w is queued the pick is led to the empty level instead of w. */
  lemma {:induction false} PriorityChangeDamages<T>(v: T, w: T, was: int, now: int, low: int)
    requires InRange(was) && InRange(now) && InRange(low) && low < was && now != was
    ensures var q := AddTail(InitMlq(), Item(v, was));
            && MlqOk(q) && !MlqOk(Del(q, Item(v, now)))
            && var q' := AddTail(Del(q, Item(v, now)), Item(w, low));
               q'.elems == 1 && FirstBit(q'.prioMap) == QIndex(was) && q'.heads[QIndex(was)] == []
  {
    var x := Item(v, was);
    SingleThread(x);
    WronglyEmptied(x, now);
    LowerAdded(Del(AddTail(InitMlq(), x), Item(v, now)), was, Item(w, low));
  }

  lemma LowerAdded<T>(q: Mlq<T>, was: int, x: Item<T>)
    requires |q.heads| == |q.prioMap| == MLQ_LEVELS && InRange(was) && InRange(x.prio) && x.prio < was
    requires forall i :: 0 <= i < MLQ_LEVELS ==> q.heads[i] == [] && (q.prioMap[i] <==> i == QIndex(was))
    ensures AddTail(q, x).elems == q.elems + 1
    ensures FirstBit(AddTail(q, x).prioMap) == QIndex(was) && AddTail(q, x).heads[QIndex(was)] == []
  {
    var q' := AddTail(q, x);
    assert q'.prioMap[QIndex(was)] && forall i :: 0 <= i < QIndex(was) ==> !q'.prioMap[i];
  }
}
