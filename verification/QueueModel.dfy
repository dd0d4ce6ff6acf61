/** The multi-level runnable queue of evl/sched/queue.h on values: a bitmap, an element count and
    one list per priority, and the proof that it is a fast form of one priority-sorted list. */
module QueueModel {
  import opened Options
  import opened PriorityOrder

  const MAX_RT_PRIO := 100
  const CORE_MIN_PRIO := 0
  const CORE_MAX_PRIO := MAX_RT_PRIO + 1
  const MLQ_LEVELS := CORE_MAX_PRIO - CORE_MIN_PRIO + 1

  datatype Mlq<T> = Mlq(elems: int, prioMap: seq<bool>, heads: seq<seq<Item<T>>>)

  ghost predicate InRange(prio: int) {
    CORE_MIN_PRIO <= prio <= CORE_MAX_PRIO
  }

  /** get_qindex: the higher the priority, the lower the index. */
  function QIndex(prio: int): int {
    MLQ_LEVELS - prio - 1
  }

  /** find_first_bit: the first index set, or the size of the map. */
  function FirstBit(m: seq<bool>): (i: nat)
    ensures i <= |m| && (forall k :: 0 <= k < i ==> !m[k]) && (i < |m| ==> m[i])
  {
    if m == [] || m[0] then 0 else 1 + FirstBit(m[1..])
  }

  function InitMlq<T>(): Mlq<T> {
    Mlq(0, seq(MLQ_LEVELS, i => false), seq(MLQ_LEVELS, i => []))
  }

  /** add_q: count the newcomer and mark its level if it was empty. */
  function AddQ<T>(q: Mlq<T>, prio: int): Mlq<T>
    requires InRange(prio) && |q.prioMap| == |q.heads| == MLQ_LEVELS
  {
    q.(elems := q.elems + 1,
       prioMap := if |q.heads[QIndex(prio)]| == 0 then q.prioMap[QIndex(prio) := true] else q.prioMap)
  }

  /** evl_add_schedq. */
  function AddHead<T>(q: Mlq<T>, x: Item<T>): Mlq<T>
    requires InRange(x.prio) && |q.prioMap| == |q.heads| == MLQ_LEVELS
  {
    AddQ(q, x.prio).(heads := q.heads[QIndex(x.prio) := [x] + q.heads[QIndex(x.prio)]])
  }

  /** evl_add_schedq_tail. */
  function AddTail<T>(q: Mlq<T>, x: Item<T>): Mlq<T>
    requires InRange(x.prio) && |q.prioMap| == |q.heads| == MLQ_LEVELS
  {
    AddQ(q, x.prio).(heads := q.heads[QIndex(x.prio) := q.heads[QIndex(x.prio)] + [x]])
  }

  ghost function UnlinkAll<T>(heads: seq<seq<Item<T>>>, v: T): (r: seq<seq<Item<T>>>)
    ensures |r| == |heads| && forall i :: 0 <= i < |heads| ==> r[i] == Without(heads[i], v)
  {
    seq(|heads|, i requires 0 <= i < |heads| => Without(heads[i], v))
  }

  /** __evl_del_schedq: unlink v from wherever it is linked, then update the bit of level idx. */
  ghost function DelAt<T>(q: Mlq<T>, v: T, idx: nat): Mlq<T>
    requires idx < MLQ_LEVELS && |q.prioMap| == |q.heads| == MLQ_LEVELS
  {
    var heads := UnlinkAll(q.heads, v);
    Mlq(q.elems - 1, if |heads[idx]| == 0 then q.prioMap[idx := false] else q.prioMap, heads)
  }

  /** evl_del_schedq: the level is the one of the current priority. */
  ghost function Del<T>(q: Mlq<T>, x: Item<T>): Mlq<T>
    requires InRange(x.prio) && |q.prioMap| == |q.heads| == MLQ_LEVELS
  {
    DelAt(q, x.val, QIndex(x.prio))
  }

  /** evl_get_schedq: nothing when the count is 0, else the first entry of the first marked level. */
  ghost function Get<T>(q: Mlq<T>): (Option<Item<T>>, Mlq<T>)
    requires MlqOk(q)
  {
    if q.elems == 0 then (None, q)
    else
      FirstLevel(q);
      var i := FirstBit(q.prioMap);
      (Some(q.heads[i][0]), DelAt(q, q.heads[i][0].val, i))
  }

  // ------------------------------------------------------------------ invariant

  ghost predicate LevelsOk<T>(heads: seq<seq<Item<T>>>, top: int) {
    forall i, k :: 0 <= i < |heads| && 0 <= k < |heads[i]| ==> heads[i][k].prio == top - i
  }

  /** Each list holds its own priority only, a bit is set exactly when its list is not empty, and
      the count is the number of queued items. */
  ghost predicate MlqOk<T>(q: Mlq<T>) {
    && |q.prioMap| == |q.heads| == MLQ_LEVELS
    && LevelsOk(q.heads, CORE_MAX_PRIO)
    && (forall i :: 0 <= i < MLQ_LEVELS ==> (q.prioMap[i] <==> q.heads[i] != []))
    && q.elems == |Flatten(q.heads)|
    && Distinct(Flatten(q.heads))
  }

  /** The lists one after another, most urgent first. */
  function Flatten<T>(heads: seq<seq<Item<T>>>): seq<Item<T>> {
    if heads == [] then [] else heads[0] + Flatten(heads[1..])
  }

  lemma {:induction false} FlattenSorted<T>(heads: seq<seq<Item<T>>>, top: int)
    requires LevelsOk(heads, top)
    ensures Sorted(Flatten(heads))
    ensures forall k :: 0 <= k < |Flatten(heads)| ==> top - |heads| < Flatten(heads)[k].prio <= top
    ensures forall p :: Group(Flatten(heads), p) == if 0 <= top - p < |heads| then heads[top - p] else []
  {
    if heads != [] {
      assert forall i :: 0 <= i < |heads[1..]| ==> heads[1..][i] == heads[i + 1];
      FlattenSorted(heads[1..], top - 1);
      forall p ensures Group(Flatten(heads), p) == if 0 <= top - p < |heads| then heads[top - p] else [] {
        SelectConcat(heads[0], Flatten(heads[1..]), Is(p));
        UniformGroup(heads[0], top, p);
        assert Group(Flatten(heads), p) == Group(heads[0], p) + Group(Flatten(heads[1..]), p);
      }
    }
  }

  lemma {:induction false} FlattenFirst<T>(heads: seq<seq<Item<T>>>, i: nat)
    requires i < |heads| && heads[i] != []
    requires forall k :: 0 <= k < i ==> heads[k] == []
    ensures Flatten(heads) != [] && Flatten(heads)[0] == heads[i][0]
  {
    if i > 0 {
      FlattenFirst(heads[1..], i - 1);
    }
  }

  lemma {:induction false} FlattenEmpty<T>(heads: seq<seq<Item<T>>>)
    ensures Flatten(heads) == [] <==> forall k :: 0 <= k < |heads| ==> heads[k] == []
  {
    if heads != [] {
      FlattenEmpty(heads[1..]);
      if forall k :: 0 <= k < |heads[1..]| ==> heads[1..][k] == [] {
        assert forall k :: 1 <= k < |heads| ==> heads[k] == heads[1..][k - 1];
      } else {
        var k :| 0 <= k < |heads[1..]| && heads[1..][k] != [];
        assert heads[k + 1] != [];
      }
    }
  }

  /** While the count is not 0 the bitmap leads to the most urgent item. */
  lemma FirstLevel<T>(q: Mlq<T>)
    requires MlqOk(q)
    ensures q.elems == 0 <==> FirstBit(q.prioMap) == MLQ_LEVELS
    ensures q.elems != 0 ==> q.heads[FirstBit(q.prioMap)] != []
    ensures q.elems != 0 ==> Flatten(q.heads)[0] == q.heads[FirstBit(q.prioMap)][0]
  {
    FlattenEmpty(q.heads);
    var i := FirstBit(q.prioMap);
    if i < MLQ_LEVELS {
      FlattenFirst(q.heads, i);
    }
  }
}
