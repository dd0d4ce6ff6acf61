/** The crossing of evl/crossing.h: a biased reference count, an irq_work and a completion, for any
    number of out-of-band users and any number of rounds. */
module Crossing {

  /** struct evl_crossing: the count, the completion, and whether its irq_work is pending. */
  datatype Core = Core(refs: int, done: nat, queued: bool)

  ghost function Fresh(): Core {
    Core(1, 0, false)
  }

  /** evl_reinit_crossing leaves the irq_work alone. */
  ghost function Reinited(c: Core): Core {
    c.(refs := 1, done := 0)
  }

  /** The single accesses of the protocol. */
  ghost function Incremented(c: Core): Core {
    c.(refs := c.refs + 1)
  }

  ghost function Decremented(c: Core): Core {
    c.(refs := c.refs - 1)
  }

  ghost function WorkQueued(c: Core): Core {
    c.(queued := true)
  }

  ghost function Signalled(c: Core): Core {
    c.(done := c.done + 1, queued := false)
  }

  ghost function Consumed(c: Core): Core
    requires c.done > 0
  {
    c.(done := c.done - 1)
  }

  class EvlCrossing {
    var oobRefs: int
    var oobDone: nat
    var workPending: bool

    ghost function View(): Core
      reads this
    {
      Core(oobRefs, oobDone, workPending)
    }

    /** evl_init_crossing. */
    constructor ()
      ensures View() == Fresh()
    {
      oobRefs, oobDone, workPending := 1, 0, false;
    }

    /** evl_reinit_crossing. */
    method Reinit()
      modifies this
      ensures View() == Reinited(old(View()))
    {
      oobRefs := 1;
      oobDone := 0;
    }

    /** evl_down_crossing. */
    method Down()
      modifies `oobRefs
      ensures View() == Incremented(old(View()))
    {
      oobRefs := oobRefs + 1;
    }

    /** atomic_dec_return. */
    method Dec() returns (r: int)
      modifies `oobRefs
      ensures View() == Decremented(old(View())) && r == oobRefs
    {
      oobRefs := oobRefs - 1;
      r := oobRefs;
    }

    /** irq_work_queue: nothing new when the work is already pending. */
    method QueueWork()
      modifies `workPending
      ensures View() == WorkQueued(old(View()))
    {
      workPending := true;
    }

    /** evl_up_crossing run without interruption. */
    method Up()
      modifies `oobRefs, `workPending
      ensures var c := Decremented(old(View())); View() == if c.refs == 0 then WorkQueued(c) else c
    {
      var r := Dec();
      if r == 0 { QueueWork(); }
    }

    /** evl_open_crossing, run by the irq_work. */
    method Open()
      requires workPending
      modifies this
      ensures View() == Signalled(old(View()))
    {
      workPending := false;
      oobDone := oobDone + 1;
    }

    /** The first half of evl_pass_crossing: wait tells whether wait_for_completion comes next. */
    method PassEnter() returns (wait: bool)
      modifies `oobRefs
      ensures View() == Decremented(old(View())) && (wait <==> View().refs > 0)
    {
      var r := Dec();
      wait := r > 0;
    }

    /** The return of wait_for_completion. */
    method TakeCompletion()
      requires oobDone > 0
      modifies `oobDone
      ensures View() == Consumed(old(View()))
    {
      oobDone := oobDone - 1;
    }
  }

  // ------------------------------------------------------------- all interleavings

  datatype Phase = Opened | Waiting | Passed

  /** What happened since the round began: whether pass found the count at zero by itself, how many
      ups took it to zero, how many completions were signalled and how many were consumed. */
  datatype Round = Round(direct: bool, zeroUps: nat, signalled: nat, consumed: nat)

  /** users went down and not up yet. opening counts those that took the count to zero and did not
      reach irq_work_queue yet. */
  datatype State = State(core: Core, users: set<nat>, opening: nat, phase: Phase, round: Round)

  datatype Step = DownBy(u: nat) | UpBy(u: nat) | QueueIt | RunWork | EnterPass | LeavePass | NextRound

  ghost function Start(): State {
    State(Fresh(), {}, 0, Opened, Round(false, 0, 0, 0))
  }

  ghost predicate Enabled(a: Step, s: State) {
    match a
    case DownBy(u) => u !in s.users
    case UpBy(u) => u in s.users
    case QueueIt => s.opening > 0
    case RunWork => s.core.queued
    case EnterPass => s.phase == Opened
    case LeavePass => s.phase == Waiting && s.core.done > 0
    case NextRound => s.phase == Passed
  }

  ghost function Next(a: Step, s: State): State
    requires Enabled(a, s)
  {
    match a
    case DownBy(u) =>
      s.(core := Incremented(s.core), users := s.users + {u})
    case UpBy(u) =>
      var s' := s.(core := Decremented(s.core), users := s.users - {u});
      if s'.core.refs == 0
      then s'.(opening := s.opening + 1, round := s.round.(zeroUps := s.round.zeroUps + 1))
      else s'
    case QueueIt =>
      s.(core := WorkQueued(s.core), opening := s.opening - 1)
    case RunWork =>
      s.(core := Signalled(s.core),
         round := s.round.(signalled := s.round.signalled + 1))
    case EnterPass =>
      var s' := s.(core := Decremented(s.core));
      if s'.core.refs > 0 then s'.(phase := Waiting)
      else s'.(phase := Passed, round := s.round.(direct := true))
    case LeavePass =>
      s.(core := Consumed(s.core), phase := Passed,
         round := s.round.(consumed := s.round.consumed + 1))
    case NextRound =>
      s.(core := Reinited(s.core), phase := Opened, round := Round(false, 0, 0, 0))
  }

  /** The caution of the header: nobody goes down after pass was entered. */
  ghost predicate Cautious(a: Step, s: State) {
    a.DownBy? ==> s.phase == Opened
  }

  /** What is really needed: nobody goes down once the count is exhausted. */
  ghost predicate InTime(a: Step, s: State) {
    a.DownBy? ==> s.core.refs > 0
  }

  /** An up that took the count to zero is on its way to the passer, at one of three places. */
  ghost function Tokens(s: State): nat {
    s.opening + (if s.core.queued then 1 else 0) + s.core.done
  }

  ghost predicate Inv(s: State) {
    && s.round.zeroUps == Tokens(s) + s.round.consumed
    && s.round.signalled == s.core.done + s.round.consumed
    && match s.phase
       case Opened => s.core.refs == |s.users| + 1 && s.round == Round(false, 0, 0, 0)
       case Waiting => && s.core.refs == |s.users| && !s.round.direct && s.round.consumed == 0
                       && Tokens(s) == if s.core.refs == 0 then 1 else 0
       case Passed => && s.core.refs == 0 && s.users == {} && Tokens(s) == 0
                      && s.round.consumed == if s.round.direct then 0 else 1
  }

  lemma {:induction false} StepKeeps(a: Step, s: State)
    requires Inv(s) && Enabled(a, s) && InTime(a, s)
    ensures Inv(Next(a, s))
  {
    match a
    case DownBy(u) => assert |s.users + {u}| == |s.users| + 1;
    case UpBy(u) => assert |s.users - {u}| == |s.users| - 1;
    case EnterPass => assert |s.users| == 0 ==> s.users == {};
    case LeavePass => assert |s.users| == 0 ==> s.users == {};
    case _ =>
  }

  ghost predicate Run(steps: seq<Step>, s: State)
    decreases steps
  {
    steps == [] || (Enabled(steps[0], s) && InTime(steps[0], s) && Run(steps[1..], Next(steps[0], s)))
  }

  ghost function Final(steps: seq<Step>, s: State): State
    requires Run(steps, s)
    decreases steps
  {
    if steps == [] then s else Final(steps[1..], Next(steps[0], s))
  }

  lemma {:induction false} RunKeeps(steps: seq<Step>, s: State)
    requires Inv(s) && Run(steps, s)
    ensures Inv(Final(steps, s))
    decreases steps
  {
    if steps != [] {
      StepKeeps(steps[0], s);
      RunKeeps(steps[1..], Next(steps[0], s));
    }
  }

  /** The documented caution implies the condition the proofs need. */
  lemma CautionSuffices(a: Step, s: State)
    requires Inv(s) && Enabled(a, s) && Cautious(a, s)
    ensures InTime(a, s)
  {
  }

  /** The states any interleaving can lead to, over any number of rounds. */
  ghost predicate Reachable(s: State) {
    exists steps :: Run(steps, Start()) && Final(steps, Start()) == s
  }

  lemma {:induction false} ReachableInv(s: State)
    requires Reachable(s)
    ensures Inv(s)
  {
    var steps :| Run(steps, Start()) && Final(steps, Start()) == s;
    RunKeeps(steps, Start());
  }

  /** When pass has returned, whatever the interleaving and the round, every user that went down
      has gone up, the count is exhausted and nothing is left in flight. */
  lemma {:induction false} PassIsSafe(s: State)
    requires Reachable(s) && s.phase == Passed
    ensures s.users == {} && s.core == Core(0, 0, false) && s.opening == 0
  {
    ReachableInv(s);
  }

  /** Either pass found the count at zero by itself and nothing was signalled, or exactly one up
      took it to zero and exactly one completion was signalled and consumed. */
  lemma {:induction false} OneOpeningPerRound(s: State)
    requires Reachable(s) && s.phase == Passed
    ensures s.round == Round(true, 0, 0, 0) || s.round == Round(false, 1, 1, 1)
  {
    ReachableInv(s);
  }

  /** The irq_work is never on its way before pass was entered. */
  lemma {:induction false} NoEarlyWork(s: State)
    requires Reachable(s) && s.phase == Opened
    ensures s.opening == 0 && !s.core.queued && s.core.done == 0
  {
    ReachableInv(s);
  }

  /** A new round starts exactly like the first one: nothing stale can open it. */
  lemma {:induction false} ReinitIsFresh(s: State)
    requires Reachable(s) && s.phase == Passed
    ensures Next(NextRound, s) == Start()
  {
    ReachableInv(s);
  }

  /** Reinitialising makes a crossing as good as new, whatever its count and completion say, exactly
      when its irq_work is not on its way. */
  lemma ReinitFreshIff(c: Core)
    ensures Reinited(c) == Fresh() <==> !c.queued
  {
  }

  // ------------------------------------------------------------------ progress

  /** What still separates a waiting passer from its return. */
  ghost function Distance(s: State): nat {
    4 * |s.users| + 3 * s.opening + (if s.core.queued then 2 else 0) + s.core.done
  }

  /** While the passer waits there is always a step that brings it closer, and no step but a new
      down does anything else. */
  lemma {:induction false} WaitingAdvances(s: State)
    requires Inv(s) && s.phase == Waiting
    ensures exists a: Step :: Enabled(a, s) && !a.DownBy?
    ensures forall a: Step :: Enabled(a, s) && !a.DownBy? ==> Distance(Next(a, s)) < Distance(s)
  {
    if s.users != {} {
      var u :| u in s.users;
      assert Enabled(UpBy(u), s);
    } else if s.opening > 0 {
      assert Enabled(QueueIt, s);
    } else if s.core.queued {
      assert Enabled(RunWork, s);
    } else {
      assert Enabled(LeavePass, s);
    }
    forall a: Step | Enabled(a, s) && !a.DownBy? ensures Distance(Next(a, s)) < Distance(s) {
      if a.UpBy? { assert |s.users - {a.u}| == |s.users| - 1; }
    }
  }

  ghost predicate StillWaiting(steps: seq<Step>, s: State)
    requires Run(steps, s)
    decreases steps
  {
    s.phase == Waiting && (steps == [] || (!steps[0].DownBy? && StillWaiting(steps[1..], Next(steps[0], s))))
  }

  /** Pass returns: once nobody goes down any more it can be kept waiting for no more steps than the
      distance, and it is never stuck. */
  lemma {:induction false} PassReturns(steps: seq<Step>, s: State)
    requires Inv(s) && Run(steps, s) && StillWaiting(steps, s)
    ensures |steps| < Distance(s)
    ensures exists a: Step :: Enabled(a, Final(steps, s)) && !a.DownBy?
    decreases steps
  {
    WaitingAdvances(s);
    if steps != [] {
      StepKeeps(steps[0], s);
      PassReturns(steps[1..], Next(steps[0], s));
    }
  }

  // ------------------------------------------- how late a down may come

  /** Pass never returns over a user from s on. */
  ghost predicate Safe(s: State) {
    forall steps :: Run(steps, s) && Final(steps, s).phase == Passed ==> Final(steps, s).users == {}
  }

  /** The steps that bring the completion of an exhausted count to the passer. */
  ghost function Finish(s: State): seq<Step> {
    if s.phase != Waiting then []
    else if s.opening > 0 then [QueueIt, RunWork, LeavePass]
    else if s.core.queued then [RunWork, LeavePass]
    else [LeavePass]
  }

  lemma RunTwo(a: Step, b: Step, s: State)
    requires Enabled(a, s) && InTime(a, s) && Enabled(b, Next(a, s)) && InTime(b, Next(a, s))
    ensures Run([a, b], s) && Final([a, b], s) == Next(b, Next(a, s))
  {
    assert [a, b][1..] == [b] && [b][1..] == [];
    assert Run([b], Next(a, s)) && Final([b], Next(a, s)) == Next(b, Next(a, s));
  }

  lemma {:induction false} LateDown(s: State, u: nat)
    requires Inv(s) && u !in s.users && s.core.refs == 0
    ensures var s' := Next(DownBy(u), s);
            Run(Finish(s), s') && Final(Finish(s), s').phase == Passed && u in Final(Finish(s), s').users
  {
    var s' := Next(DownBy(u), s);
    var steps := Finish(s);
    if s.phase == Waiting {
      if s.opening > 0 {
        RunTwo(RunWork, LeavePass, Next(QueueIt, s'));
        assert steps[1..] == [RunWork, LeavePass];
      } else if s.core.queued {
        RunTwo(RunWork, LeavePass, s');
      } else {
        assert steps[1..] == [];
      }
    }
  }

  /** A user may go down safely exactly while the count is not exhausted, even after pass was
      entered; the documented caution is sufficient and not necessary. */
  lemma {:induction false} DownIsSafeIff(s: State, u: nat)
    requires Inv(s) && u !in s.users
    ensures Safe(Next(DownBy(u), s)) <==> s.core.refs > 0
  {
    var s' := Next(DownBy(u), s);
    if s.core.refs > 0 {
      StepKeeps(DownBy(u), s);
      forall steps | Run(steps, s') && Final(steps, s').phase == Passed ensures Final(steps, s').users == {} {
        RunKeeps(steps, s');
      }
    } else {
      LateDown(s, u);
    }
  }

  // ------------------------------------------------------------- every round happens

  lemma {:induction false} RunAppend(steps: seq<Step>, s: State, a: Step)
    requires Run(steps, s) && Enabled(a, Final(steps, s)) && InTime(a, Final(steps, s))
    ensures Run(steps + [a], s) && Final(steps + [a], s) == Next(a, Final(steps, s))
    decreases steps
  {
    if steps == [] {
      assert [a][1..] == [];
    } else {
      RunAppend(steps[1..], Next(steps[0], s), a);
      assert (steps + [a])[1..] == steps[1..] + [a];
    }
  }

  lemma Extend(s: State, a: Step) returns (s': State)
    requires Reachable(s) && Enabled(a, s) && InTime(a, s)
    ensures Reachable(s') && s' == Next(a, s)
  {
    var steps :| Run(steps, Start()) && Final(steps, Start()) == s;
    RunAppend(steps, Start(), a);
    s' := Next(a, s);
  }

  /** Any users at all may be down when pass is entered. */
  lemma {:induction false} AllGoDown(us: set<nat>)
    ensures Reachable(State(Core(|us| + 1, 0, false), us, 0, Opened, Round(false, 0, 0, 0)))
    decreases |us|
  {
    if us == {} {
      assert Run([], Start()) && Final([], Start()) == Start();
    } else {
      var u :| u in us;
      AllGoDown(us - {u});
      var s := Extend(State(Core(|us|, 0, false), us - {u}, 0, Opened, Round(false, 0, 0, 0)), DownBy(u));
      assert s.users == us;
    }
  }

  /** And whoever is down may go up while the passer waits, the last one opening the crossing. */
  lemma {:induction false} AllGoUp(s: State) returns (s': State)
    requires Reachable(s) && s.phase == Waiting && s.users != {} && s.opening == 0
    ensures Reachable(s') && s'.phase == Waiting && s'.users == {} && s'.opening == 1
    decreases |s.users|
  {
    ReachableInv(s);
    var u :| u in s.users;
    s' := Extend(s, UpBy(u));
    ReachableInv(s');
    assert |s'.users| == |s.users| - 1;
    if s'.users != {} { s' := AllGoUp(s'); }
  }

  /** For any set of users there is a round in which exactly they go down and pass returns: opened by
      pass itself when there are none, and by the last up otherwise. */
  lemma {:induction false} EveryRoundHappens(us: set<nat>)
    ensures exists s :: Reachable(s) && s.phase == Passed
                        && s.round == if us == {} then Round(true, 0, 0, 0) else Round(false, 1, 1, 1)
  {
    AllGoDown(us);
    var s := Extend(State(Core(|us| + 1, 0, false), us, 0, Opened, Round(false, 0, 0, 0)), EnterPass);
    if us != {} {
      assert s.phase == Waiting && s.users == us;
      s := AllGoUp(s);
      s := Extend(s, QueueIt);
      s := Extend(s, RunWork);
      s := Extend(s, LeavePass);
    }
    OneOpeningPerRound(s);
  }
}
