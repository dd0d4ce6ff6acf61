/** Ordered locking: evl_double_thread_lock, which takes two thread locks in address order, and
    evl_get_thread_rq, which takes a thread lock and then the lock of the runqueue it is on. */
module LockOrder {

  /** A thread is its address. */
  datatype Lock = ThreadLock(t: nat) | RqLock(cpu: nat)

  datatype Op =
    | Double(t1: nat, t2: nat)  // evl_double_thread_lock, and both unlocks in either order
    | ThreadRq(t: nat)          // evl_get_thread_rq, evl_put_thread_rq

  /** A party with the operations it still has to run, the locks it holds in the order it took
      them, and whether it is on its way out of the current operation. */
  datatype Actor = Actor(todo: seq<Op>, held: seq<Lock>, leaving: bool)

  /** Who holds each lock, and the runqueue of each thread. */
  datatype State = State(actors: seq<Actor>, owner: map<Lock, nat>, rqOf: map<nat, nat>)

  ghost function Rq(s: State, t: nat): nat {
    if t in s.rqOf then s.rqOf[t] else 0
  }

  /** The lower address first; equal addresses fall into the second branch. */
  ghost function First(op: Op): Lock {
    match op
    case Double(t1, t2) => if t1 < t2 then ThreadLock(t1) else ThreadLock(t2)
    case ThreadRq(t) => ThreadLock(t)
  }

  /** The runqueue is read once the thread lock is held. */
  ghost function Second(op: Op, s: State): Lock {
    match op
    case Double(t1, t2) => if t1 < t2 then ThreadLock(t2) else ThreadLock(t1)
    case ThreadRq(t) => RqLock(Rq(s, t))
  }

  ghost predicate Unfinished(a: Actor) {
    a.todo != []
  }

  /** The actor is at a lock operation, rather than inside the critical section or leaving it. */
  ghost predicate Acquiring(a: Actor) {
    a.todo != [] && !a.leaving && |a.held| < 2
  }

  ghost function Wanted(a: Actor, s: State): Lock
    requires Acquiring(a)
  {
    if a.held == [] then First(a.todo[0]) else Second(a.todo[0], s)
  }

  ghost predicate CanStep(s: State, i: nat) {
    && i < |s.actors|
    && Unfinished(s.actors[i])
    && (Acquiring(s.actors[i]) ==> Wanted(s.actors[i], s) !in s.owner)
    && (!Acquiring(s.actors[i]) ==> s.actors[i].held != [])
  }

  datatype Step = Act(i: nat, swap: bool) | Migrate(t: nat, cpu: nat)

  /** A thread moves to another runqueue only under its lock, hence while nobody holds it. */
  ghost predicate Enabled(x: Step, s: State) {
    match x
    case Act(i, _) => CanStep(s, i)
    case Migrate(t, _) => ThreadLock(t) !in s.owner
  }

  ghost function Acquired(s: State, i: nat): State
    requires i < |s.actors| && Acquiring(s.actors[i])
  {
    var l := Wanted(s.actors[i], s);
    s.(actors := s.actors[i := s.actors[i].(held := s.actors[i].held + [l])], owner := s.owner[l := i])
  }

  /** Release one lock: the last one taken, or the other one when two are held and swap is chosen;
      with the last lock the operation is over. */
  ghost function Released(s: State, i: nat, swap: bool): State
    requires i < |s.actors| && s.actors[i].held != [] && s.actors[i].todo != []
  {
    var a := s.actors[i];
    var k := if swap then 0 else |a.held| - 1;
    var held := a.held[..k] + a.held[k + 1..];
    var a' := if held == [] then Actor(a.todo[1..], [], false) else a.(held := held, leaving := true);
    s.(actors := s.actors[i := a'], owner := s.owner - {a.held[k]})
  }

  ghost function Next(x: Step, s: State): State
    requires Enabled(x, s)
  {
    match x
    case Act(i, swap) => if Acquiring(s.actors[i]) then Acquired(s, i) else Released(s, i, swap)
    case Migrate(t, cpu) => s.(rqOf := s.rqOf[t := cpu])
  }

  // ---------------------------------------------------------------- invariant

  /** What evl_double_thread_lock asks of its callers. */
  ghost predicate Distinct(ops: seq<Op>) {
    forall k :: 0 <= k < |ops| && ops[k].Double? ==> ops[k].t1 != ops[k].t2
  }

  ghost predicate ActorOk(a: Actor, s: State) {
    && Distinct(a.todo)
    && |a.held| <= 2
    && (a.todo == [] ==> a.held == [])
    && (if a.leaving then |a.held| == 1
        else && (|a.held| > 0 ==> a.todo != [] && a.held[0] == First(a.todo[0]))
             && (|a.held| > 1 ==> a.held[1] == Second(a.todo[0], s)))
  }

  /** The owner map and the actors agree on who holds what. */
  ghost predicate Owned(s: State) {
    && (forall l :: l in s.owner ==> s.owner[l] < |s.actors| && l in s.actors[s.owner[l]].held)
    && (forall i, k :: 0 <= i < |s.actors| && 0 <= k < |s.actors[i].held| ==>
          s.actors[i].held[k] in s.owner && s.owner[s.actors[i].held[k]] == i)
  }

  ghost predicate Inv(s: State) {
    Owned(s) && forall i :: 0 <= i < |s.actors| ==> ActorOk(s.actors[i], s)
  }

  lemma {:induction false} AcquireOwned(s: State, i: nat)
    requires Owned(s) && i < |s.actors| && Acquiring(s.actors[i]) && Wanted(s.actors[i], s) !in s.owner
    ensures Owned(Acquired(s, i))
  {
    var s' := Acquired(s, i);
    forall j, k | 0 <= j < |s'.actors| && 0 <= k < |s'.actors[j].held|
      ensures s'.actors[j].held[k] in s'.owner && s'.owner[s'.actors[j].held[k]] == j
    {
      assert k < |s.actors[j].held| ==> s'.actors[j].held[k] == s.actors[j].held[k];
    }
  }

  lemma {:induction false} AcquireKeeps(s: State, i: nat)
    requires Inv(s) && CanStep(s, i) && Acquiring(s.actors[i])
    ensures Inv(Acquired(s, i))
  {
    AcquireOwned(s, i);
    var s' := Acquired(s, i);
    forall j | 0 <= j < |s'.actors| ensures ActorOk(s'.actors[j], s') {
      assert ActorOk(s.actors[j], s);
    }
  }

  lemma {:induction false} LastReleaseOwned(s: State, i: nat, swap: bool)
    requires Owned(s) && i < |s.actors| && s.actors[i].todo != [] && |s.actors[i].held| == 1
    ensures Owned(Released(s, i, swap))
  {
    var s' := Released(s, i, swap);
    assert s'.actors[i].held == [];
    forall l | l in s'.owner ensures s'.owner[l] < |s'.actors| && l in s'.actors[s'.owner[l]].held {
      assert l in s.actors[s.owner[l]].held;
    }
  }

  lemma {:induction false} LastReleaseKeeps(s: State, i: nat, swap: bool)
    requires Inv(s) && i < |s.actors| && s.actors[i].todo != [] && |s.actors[i].held| == 1
    ensures Inv(Released(s, i, swap))
  {
    LastReleaseOwned(s, i, swap);
    var s' := Released(s, i, swap);
    assert Distinct(s.actors[i].todo[1..]);
    forall j | 0 <= j < |s'.actors| ensures ActorOk(s'.actors[j], s') {
      assert ActorOk(s.actors[j], s);
    }
  }

  lemma {:induction false} FirstReleaseOwned(s: State, i: nat, swap: bool)
    requires Owned(s) && i < |s.actors| && s.actors[i].todo != [] && |s.actors[i].held| == 2
    requires s.actors[i].held[0] != s.actors[i].held[1]
    ensures Owned(Released(s, i, swap))
  {
    var a, s' := s.actors[i], Released(s, i, swap);
    var k := if swap then 0 else 1;
    assert s'.actors[i].held == [a.held[1 - k]];
    forall l | l in s'.owner ensures s'.owner[l] < |s'.actors| && l in s'.actors[s'.owner[l]].held {
      assert l in s.actors[s.owner[l]].held;
    }
    forall j, m | 0 <= j < |s'.actors| && 0 <= m < |s'.actors[j].held|
      ensures s'.actors[j].held[m] in s'.owner && s'.owner[s'.actors[j].held[m]] == j
    {
      assert s'.actors[j].held[m] == s.actors[j].held[if j == i then 1 - k else m];
    }
  }

  lemma {:induction false} FirstReleaseKeeps(s: State, i: nat, swap: bool)
    requires Inv(s) && i < |s.actors| && s.actors[i].todo != [] && |s.actors[i].held| == 2
    requires s.actors[i].held[0] != s.actors[i].held[1]
    ensures Inv(Released(s, i, swap))
  {
    FirstReleaseOwned(s, i, swap);
    var s' := Released(s, i, swap);
    forall j | 0 <= j < |s'.actors| ensures ActorOk(s'.actors[j], s') {
      assert ActorOk(s.actors[j], s);
    }
  }

  lemma {:induction false} ReleaseKeeps(s: State, i: nat, swap: bool)
    requires Inv(s) && CanStep(s, i) && !Acquiring(s.actors[i])
    ensures Inv(Released(s, i, swap))
  {
    assert ActorOk(s.actors[i], s);
    if |s.actors[i].held| == 1 { LastReleaseKeeps(s, i, swap); } else { FirstReleaseKeeps(s, i, swap); }
  }

  lemma {:induction false} MigrateKeeps(s: State, t: nat, cpu: nat)
    requires Inv(s) && ThreadLock(t) !in s.owner
    ensures Inv(s.(rqOf := s.rqOf[t := cpu]))
  {
    var s' := s.(rqOf := s.rqOf[t := cpu]);
    forall i | 0 <= i < |s.actors| ensures ActorOk(s'.actors[i], s') {
      var a := s.actors[i];
      if !a.leaving && |a.held| > 1 {
        assert a.held[0] in s.owner;
      }
    }
  }

  lemma {:induction false} StepKeeps(x: Step, s: State)
    requires Inv(s) && Enabled(x, s)
    ensures Inv(Next(x, s)) && |Next(x, s).actors| == |s.actors|
  {
    match x
    case Act(i, swap) => if Acquiring(s.actors[i]) { AcquireKeeps(s, i); } else { ReleaseKeeps(s, i, swap); }
    case Migrate(t, cpu) => MigrateKeeps(s, t, cpu);
  }

  // ------------------------------------------------------------- no deadlock

  ghost function MaxAddr(actors: seq<Actor>): nat {
    if actors == [] then 0
    else
      var rest := MaxAddr(actors[1..]);
      if actors[0].todo == [] then rest
      else
        var op := actors[0].todo[0];
        var m := if op.Double? then (if op.t1 < op.t2 then op.t2 else op.t1) else op.t;
        if m < rest then rest else m
  }

  ghost predicate Addresses(op: Op, t: nat) {
    if op.Double? then t == op.t1 || t == op.t2 else t == op.t
  }

  lemma {:induction false} MaxAddrBounds(actors: seq<Actor>, i: nat, t: nat)
    requires i < |actors| && actors[i].todo != [] && Addresses(actors[i].todo[0], t)
    ensures t <= MaxAddr(actors)
  {
    if i > 0 { MaxAddrBounds(actors[1..], i - 1, t); }
  }

  /** How far up the lock order actor i is blocked. */
  ghost function Room(s: State, i: nat): int
    requires i < |s.actors|
  {
    if !Acquiring(s.actors[i]) then 0
    else match Wanted(s.actors[i], s)
         case ThreadLock(t) => 2 + MaxAddr(s.actors) - t
         case RqLock(_) => 1
  }

  /** Going from a blocked actor to the holder of the lock it wants climbs the lock order, so that
      somebody at the end of the chain can move. */
  lemma {:induction false} SomebodyMoves(s: State, i: nat) returns (j: nat)
    requires Inv(s) && i < |s.actors| && Unfinished(s.actors[i])
    ensures CanStep(s, j)
    decreases Room(s, i)
  {
    var a := s.actors[i];
    assert ActorOk(a, s);
    if CanStep(s, i) { return i; }
    var l := Wanted(a, s);
    j := s.owner[l];
    var b := s.actors[j];
    assert ActorOk(b, s) && l in b.held && Unfinished(b);
    if l.ThreadLock? { MaxAddrBounds(s.actors, i, l.t); }
    if Acquiring(b) {
      assert b.held == [First(b.todo[0])] && l == First(b.todo[0]);
      var w := Wanted(b, s);
      if w.ThreadLock? { MaxAddrBounds(s.actors, j, w.t); }
      j := SomebodyMoves(s, j);
    }
  }

  ghost predicate Run(steps: seq<Step>, s: State)
    decreases steps
  {
    steps == [] || (Enabled(steps[0], s) && Run(steps[1..], Next(steps[0], s)))
  }

  ghost function Final(steps: seq<Step>, s: State): State
    requires Run(steps, s)
    decreases steps
  {
    if steps == [] then s else Final(steps[1..], Next(steps[0], s))
  }

  lemma {:induction false} RunKeeps(steps: seq<Step>, s: State)
    requires Inv(s) && Run(steps, s)
    ensures Inv(Final(steps, s)) && |Final(steps, s).actors| == |s.actors|
    decreases steps
  {
    if steps != [] {
      StepKeeps(steps[0], s);
      RunKeeps(steps[1..], Next(steps[0], s));
    }
  }

  /** Everybody starts without locks, on distinct pairs of threads. */
  ghost predicate Initial(s: State) {
    s.owner == map[] && forall i :: 0 <= i < |s.actors| ==>
      s.actors[i].held == [] && !s.actors[i].leaving && Distinct(s.actors[i].todo)
  }

  /** No deadlock: whatever the actors, their operations and the migrations, as long as somebody is
      not done somebody can take a step. */
  lemma {:induction false} DeadlockFree(s: State, steps: seq<Step>)
    requires Initial(s) && Run(steps, s)
    ensures var s' := Final(steps, s);
            (exists i :: 0 <= i < |s'.actors| && Unfinished(s'.actors[i])) ==> exists j :: CanStep(s', j)
  {
    RunKeeps(steps, s);
    var s' := Final(steps, s);
    if i :| 0 <= i < |s'.actors| && Unfinished(s'.actors[i]) {
      var j := SomebodyMoves(s', i);
    }
  }

  /** A lock never has two holders. */
  lemma {:induction false} Exclusion(s: State, steps: seq<Step>, i: nat, j: nat, l: Lock)
    requires Initial(s) && Run(steps, s)
    requires i < |Final(steps, s).actors| && j < |Final(steps, s).actors|
    requires l in Final(steps, s).actors[i].held && l in Final(steps, s).actors[j].held
    ensures i == j
  {
    RunKeeps(steps, s);
  }

  // ------------------------------------------------- what the locks are for

  /** Between taking the second lock and releasing the first of them. */
  ghost predicate InSection(a: Actor) {
    a.todo != [] && !a.leaving && |a.held| == 2
  }

  /** In the section of a double lock an actor owns both threads; in the one of evl_get_thread_rq,
      the thread and the runqueue it is on now. On the way in, the lower address comes first, and
      the thread before its runqueue. */
  lemma {:induction false} SectionOwns(s: State, i: nat)
    requires Inv(s) && i < |s.actors| && s.actors[i].todo != [] && !s.actors[i].leaving
    ensures var a, op := s.actors[i], s.actors[i].todo[0];
            && (InSection(a) && op.Double? ==>
                  && ThreadLock(op.t1) in s.owner && s.owner[ThreadLock(op.t1)] == i
                  && ThreadLock(op.t2) in s.owner && s.owner[ThreadLock(op.t2)] == i)
            && (InSection(a) && op.ThreadRq? ==>
                  && ThreadLock(op.t) in s.owner && s.owner[ThreadLock(op.t)] == i
                  && (op.t in s.rqOf ==> RqLock(s.rqOf[op.t]) in s.owner && s.owner[RqLock(s.rqOf[op.t])] == i))
            && (|a.held| == 1 && op.Double? ==>
                  && a.held[0].ThreadLock? && a.held[0].t in {op.t1, op.t2}
                  && a.held[0].t <= op.t1 && a.held[0].t <= op.t2)
            && (|a.held| == 1 && op.ThreadRq? ==> a.held[0] == ThreadLock(op.t))
  {
    var a := s.actors[i];
    assert ActorOk(a, s);
    assert InSection(a) ==> a.held == [First(a.todo[0]), Second(a.todo[0], s)];
    assert forall k :: 0 <= k < |a.held| ==> a.held[k] in s.owner && s.owner[a.held[k]] == i;
  }

  /** No two actors are inside sections of threads on the same runqueue, nor of the same thread. */
  lemma {:induction false} SectionsExclude(s: State, i: nat, j: nat, t: nat, u: nat)
    requires Inv(s) && i < |s.actors| && j < |s.actors| && InSection(s.actors[i]) && InSection(s.actors[j])
    requires s.actors[i].todo[0] == ThreadRq(t)
    requires (s.actors[j].todo[0] == ThreadRq(u) && t in s.rqOf && u in s.rqOf && s.rqOf[t] == s.rqOf[u])
          || (s.actors[j].todo[0].Double? && t in {s.actors[j].todo[0].t1, s.actors[j].todo[0].t2})
    ensures i == j
  {
    SectionOwns(s, i);
    SectionOwns(s, j);
  }

  /** A thread changes runqueues exactly by migrating, and never while somebody holds its lock. */
  lemma {:induction false} MovesByMigration(x: Step, s: State, t: nat)
    requires Enabled(x, s)
    ensures x.Migrate? && x.t == t ==> t in Next(x, s).rqOf && Next(x, s).rqOf[t] == x.cpu
    ensures ThreadLock(t) in s.owner || !(x.Migrate? && x.t == t) ==>
              (t in Next(x, s).rqOf <==> t in s.rqOf) && (t in s.rqOf ==> Next(x, s).rqOf[t] == s.rqOf[t])
    ensures ThreadLock(t) !in s.owner ==> forall cpu :: Enabled(Migrate(t, cpu), s)
  {
  }

  /** The operation whose section an actor enters by going from a to b, if any. */
  ghost function Entry(a: Actor, b: Actor): seq<Op> {
    if !InSection(a) && InSection(b) then [b.todo[0]] else []
  }

  /** The operations whose section actor i enters in a run, in the order of entering. */
  ghost function Entered(steps: seq<Step>, s: State, i: nat): seq<Op>
    requires Run(steps, s) && i < |s.actors|
    decreases steps
  {
    if steps == [] then []
    else
      var s' := Next(steps[0], s);
      StepLength(steps[0], s);
      Entry(s.actors[i], s'.actors[i]) + Entered(steps[1..], s', i)
  }

  lemma StepLength(x: Step, s: State)
    requires Enabled(x, s)
    ensures |Next(x, s).actors| == |s.actors|
  {
  }

  /** What i has not entered yet: all but the operation it is in the section of, or leaving. */
  ghost function Ahead(a: Actor): seq<Op> {
    if a.todo != [] && (InSection(a) || a.leaving) then a.todo[1..] else a.todo
  }

  lemma AcquireEnters(a: Actor, l: Lock)
    requires Acquiring(a)
    ensures Ahead(a) == Entry(a, a.(held := a.held + [l])) + Ahead(a.(held := a.held + [l]))
  {
    if |a.held| == 1 {
      assert InSection(a.(held := a.held + [l]));
      assert a.todo == [a.todo[0]] + a.todo[1..];
    }
  }

  lemma ReleaseEnters(a: Actor, b: Actor)
    requires a.todo != [] && (InSection(a) || a.leaving)
    requires b == Actor(a.todo[1..], [], false) || (b.todo == a.todo && b.leaving)
    ensures Ahead(a) == Entry(a, b) + Ahead(b)
  {
    assert !InSection(b);
  }

  lemma {:induction false} StepEnters(x: Step, s: State, i: nat)
    requires Inv(s) && Enabled(x, s) && i < |s.actors|
    ensures Ahead(s.actors[i]) == Entry(s.actors[i], Next(x, s).actors[i]) + Ahead(Next(x, s).actors[i])
  {
    var a, b := s.actors[i], Next(x, s).actors[i];
    assert ActorOk(a, s);
    if x != Act(i, true) && x != Act(i, false) {
      assert b == a;
    } else if Acquiring(a) {
      AcquireEnters(a, Wanted(a, s));
    } else {
      ReleaseEnters(a, b);
    }
  }

  /** Every actor enters the sections of its operations one after the other in its own order, each
      exactly once; none is skipped, whatever the others do. */
  lemma {:induction false} OperationsInOrder(steps: seq<Step>, s: State, i: nat)
    requires Inv(s) && Run(steps, s) && i < |s.actors|
    ensures |Final(steps, s).actors| == |s.actors|
    ensures Ahead(s.actors[i]) == Entered(steps, s, i) + Ahead(Final(steps, s).actors[i])
    decreases steps
  {
    RunKeeps(steps, s);
    if steps != [] {
      var s' := Next(steps[0], s);
      StepKeeps(steps[0], s);
      StepEnters(steps[0], s, i);
      OperationsInOrder(steps[1..], s', i);
      Regroup(Entry(s.actors[i], s'.actors[i]), Entered(steps[1..], s', i), Ahead(Final(steps[1..], s').actors[i]));
    }
  }

  lemma Regroup(a: seq<Op>, b: seq<Op>, c: seq<Op>)
    ensures a + b + c == a + (b + c)
  {
  }

  // ------------------------------------------------------------- completion

  ghost function Work(a: Actor): int {
    4 * |a.todo| - (if a.leaving then 3 else |a.held|)
  }

  ghost function TotalWork(actors: seq<Actor>): int {
    if actors == [] then 0 else Work(actors[0]) + TotalWork(actors[1..])
  }

  lemma {:induction false} WorkUpdate(actors: seq<Actor>, i: nat, a: Actor)
    requires i < |actors|
    ensures TotalWork(actors[i := a]) == TotalWork(actors) - Work(actors[i]) + Work(a)
  {
    if i == 0 {
      assert actors[i := a][1..] == actors[1..];
    } else {
      WorkUpdate(actors[1..], i - 1, a);
      assert actors[i := a][1..] == actors[1..][i - 1 := a];
    }
  }

  lemma {:induction false} WorkNonNegative(actors: seq<Actor>, s: State)
    requires forall i :: 0 <= i < |actors| ==> ActorOk(actors[i], s)
    ensures TotalWork(actors) >= 0
  {
    if actors != [] {
      assert ActorOk(actors[0], s);
      assert forall i :: 0 <= i < |actors[1..]| ==> actors[1..][i] == actors[i + 1];
      WorkNonNegative(actors[1..], s);
    }
  }

  /** Every step of an actor is one of the four of its operation. */
  lemma {:induction false} StepWorks(s: State, i: nat, swap: bool)
    requires Inv(s) && CanStep(s, i)
    ensures TotalWork(Next(Act(i, swap), s).actors) == TotalWork(s.actors) - 1
  {
    assert ActorOk(s.actors[i], s);
    WorkUpdate(s.actors, i, Next(Act(i, swap), s).actors[i]);
  }

  /** The steps of a run that actors take, migrations aside. */
  ghost function ActorSteps(steps: seq<Step>): nat {
    if steps == [] then 0 else (if steps[0].Act? then 1 else 0) + ActorSteps(steps[1..])
  }

  /** Everybody finishes: in every run, migrations included, the actors take exactly as many steps as
      work was done, and where none of them can go on, all operations are over and all locks free. */
  lemma {:induction false} EverybodyFinishes(s: State, steps: seq<Step>)
    requires Inv(s) && Run(steps, s)
    ensures ActorSteps(steps) == TotalWork(s.actors) - TotalWork(Final(steps, s).actors) <= TotalWork(s.actors)
    ensures var s' := Final(steps, s);
            (forall j :: !CanStep(s', j)) ==>
              s'.owner == map[] && forall i :: 0 <= i < |s'.actors| ==> !Unfinished(s'.actors[i])
    decreases steps
  {
    if steps == [] {
      WorkNonNegative(s.actors, s);
      if forall j :: !CanStep(s, j) {
        forall i | 0 <= i < |s.actors| ensures !Unfinished(s.actors[i]) {
          if Unfinished(s.actors[i]) { var j := SomebodyMoves(s, i); }
        }
        assert forall l :: l !in s.owner;
      }
    } else {
      StepKeeps(steps[0], s);
      if steps[0].Act? { StepWorks(s, steps[0].i, steps[0].swap); }
      EverybodyFinishes(Next(steps[0], s), steps[1..]);
    }
  }

  /** So where nobody can go on, every actor has been in the section of each of its operations. */
  lemma {:induction false} AllOperationsRun(s: State, steps: seq<Step>, i: nat)
    requires Initial(s) && Run(steps, s) && i < |s.actors|
    requires forall j :: !CanStep(Final(steps, s), j)
    ensures Entered(steps, s, i) == s.actors[i].todo
  {
    EverybodyFinishes(s, steps);
    OperationsInOrder(steps, s, i);
    assert Ahead(Final(steps, s).actors[i]) == [];
  }

  /** The distinctness the callers owe is needed: evl_double_thread_lock of a thread with itself
      leaves its caller waiting for a lock it holds. */
  lemma {:induction false} SameThreadBlocks(t1: nat, t2: nat)
    ensures var s0 := State([Actor([Double(t1, t2)], [], false)], map[], map[]);
            CanStep(s0, 0) && (CanStep(Next(Act(0, false), s0), 0) <==> t1 != t2)
  {
  }
}
