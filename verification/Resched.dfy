/** Reschedule signalling between CPUs: evl_set_resched, evl_schedule and the interrupt and
    preemption brackets around it, as steps of a machine with any number of CPUs. */
module Resched {

  /** What one runqueue says. flags and local stand for RQ_SCHED in the shared and in the private
      flags, irq for RQ_IRQ, rest for the other private bits. owed remembers that the CPU raised
      its own request, so that the code running there is bound to call evl_schedule; serving, that
      the interrupt it handles is a reschedule IPI. */
  datatype Cpu = Cpu(
    flags: bool, local: bool, irq: bool, rest: bv64, resched: set<nat>, preempt: nat, owed: bool, serving: bool)

  /** All runqueues, and the CPUs a reschedule IPI is in flight to. */
  datatype Machine = Machine(cpus: seq<Cpu>, ipis: set<nat>)

  datatype Step =
    | Request(c: nat, target: nat)  // evl_set_resched, called on c
    | Sched(c: nat)                 // evl_schedule
    | Irq(c: nat)                   // evl_enter_irq for a device
    | Ipi(c: nat)                   // evl_enter_irq for a reschedule IPI
    | IrqExit(c: nat)               // evl_exit_irq
    | NoPreempt(c: nat)             // evl_disable_preempt
    | Preempt(c: nat)               // evl_enable_preempt

  ghost function RequestOf(m: Machine, c: nat, t: nat): Machine
    requires c < |m.cpus| && t < |m.cpus|
  {
    if c == t then m.(cpus := m.cpus[c := m.cpus[c].(flags := true, owed := true)])
    else if m.cpus[t].flags then m
    else
      var cpus := m.cpus[t := m.cpus[t].(flags := true)];
      m.(cpus := cpus[c := cpus[c].(local := true, resched := cpus[c].resched + {t})])
  }

  /** The test of evl_schedule. */
  ghost predicate Passes(cpu: Cpu) {
    (cpu.flags || cpu.local) && !cpu.irq
  }

  /** evl_schedule. Behind the test, __evl_schedule consumes the request of this CPU and sends the
      IPIs it owes. */
  ghost function ScheduleOn(m: Machine, c: nat): Machine
    requires c < |m.cpus|
  {
    if !Passes(m.cpus[c]) then m
    else Machine(m.cpus[c := m.cpus[c].(flags := false, local := false, resched := {}, owed := false)],
                 m.ipis + m.cpus[c].resched)
  }

  ghost function SetIrq(m: Machine, c: nat, on: bool, ipi: bool): Machine
    requires c < |m.cpus|
  {
    m.(cpus := m.cpus[c := m.cpus[c].(irq := on, serving := ipi)])
  }

  ghost function SetPreempt(m: Machine, c: nat, count: nat): Machine
    requires c < |m.cpus|
  {
    m.(cpus := m.cpus[c := m.cpus[c].(preempt := count)])
  }

  ghost function PreemptOn(m: Machine, c: nat): Machine
    requires c < |m.cpus| && m.cpus[c].preempt > 0
  {
    var m' := SetPreempt(m, c, m.cpus[c].preempt - 1);
    if m'.cpus[c].preempt == 0 then ScheduleOn(m', c) else m'
  }

  ghost predicate Enabled(s: Step, m: Machine) {
    && s.c < |m.cpus|
    && match s
       case Request(c, t) => t < |m.cpus|
       case Irq(c) => !m.cpus[c].irq
       case Ipi(c) => c in m.ipis && !m.cpus[c].irq
       case IrqExit(c) => m.cpus[c].irq
       case Preempt(c) => m.cpus[c].preempt > 0
       case _ => true
  }

  ghost function Next(s: Step, m: Machine): Machine
    requires Enabled(s, m)
  {
    match s
    case Request(c, t) => RequestOf(m, c, t)
    case Sched(c) => ScheduleOn(m, c)
    case Irq(c) => SetIrq(m, c, true, false)
    case Ipi(c) => SetIrq(m, c, true, true).(ipis := m.ipis - {c})
    case IrqExit(c) => ScheduleOn(SetIrq(m, c, false, false), c)
    case NoPreempt(c) => SetPreempt(m, c, m.cpus[c].preempt + 1)
    case Preempt(c) => PreemptOn(m, c)
  }

  // ------------------------------------------------------------- no lost request

  /** Somebody still has to act for the request pending on t: t itself raised it, an IPI is on its
      way, or another CPU has its private request up and owes t the IPI. */
  ghost predicate Signalled(m: Machine, t: nat)
    requires t < |m.cpus|
  {
    || m.cpus[t].owed
    || t in m.ipis
    || exists a :: 0 <= a < |m.cpus| && a != t && m.cpus[a].local && t in m.cpus[a].resched
  }

  /** t took its IPI and is still inside that interrupt. */
  ghost predicate InService(m: Machine, t: nat)
    requires t < |m.cpus|
  {
    m.cpus[t].irq && m.cpus[t].serving
  }

  ghost predicate Answered(m: Machine, t: nat)
    requires t < |m.cpus|
  {
    Signalled(m, t) || InService(m, t)
  }

  ghost predicate Inv(m: Machine) {
    && (forall c :: 0 <= c < |m.cpus| ==> (m.cpus[c].local <==> m.cpus[c].resched != {}))
    && (forall c :: 0 <= c < |m.cpus| ==> c !in m.cpus[c].resched)
    && (forall c, t :: 0 <= c < |m.cpus| && t in m.cpus[c].resched ==> t < |m.cpus|)
    && (forall t :: t in m.ipis ==> t < |m.cpus|)
    && (forall t :: 0 <= t < |m.cpus| && m.cpus[t].flags ==> Answered(m, t))
    && (forall t :: 0 <= t < |m.cpus| && m.cpus[t].owed ==> m.cpus[t].flags)
  }

  /** If every request is answered with c serving its IPI, then evl_schedule on c keeps that true
      without the IPI. */
  lemma {:induction false} ScheduleKeeps(m: Machine, c: nat)
    requires c < |m.cpus| && !m.cpus[c].irq && Inv(SetIrq(m, c, true, true))
    ensures Inv(ScheduleOn(m, c))
  {
    var m1, m' := SetIrq(m, c, true, true), ScheduleOn(m, c);
    forall k | 0 <= k < |m.cpus|
      ensures && (m'.cpus[k].local <==> m'.cpus[k].resched != {})
              && k !in m'.cpus[k].resched
              && (forall t :: t in m'.cpus[k].resched ==> t < |m.cpus|)
              && (m'.cpus[k].owed ==> m'.cpus[k].flags)
    {
      assert m1.cpus[k] == if k == c then m.cpus[k].(irq := true, serving := true) else m.cpus[k];
    }
    assert m1.cpus[c].resched == m.cpus[c].resched;
    forall t | 0 <= t < |m.cpus| && m'.cpus[t].flags ensures Answered(m', t) {
      assert m1.cpus[t].flags && Answered(m1, t);
      if a :| 0 <= a < |m1.cpus| && a != t && m1.cpus[a].local && t in m1.cpus[a].resched {
        assert a == c ==> t in m'.ipis;
        assert a != c ==> m'.cpus[a].local && t in m'.cpus[a].resched;
      }
    }
  }

  lemma {:induction false} IrqKeeps(m: Machine, c: nat)
    requires c < |m.cpus| && Inv(m)
    ensures Inv(SetIrq(m, c, true, true)) && Inv(SetIrq(m, c, true, true).(ipis := m.ipis - {c}))
  {
    var m' := SetIrq(m, c, true, true);
    forall t | 0 <= t < |m.cpus| && m'.cpus[t].flags
      ensures Answered(m', t) && Answered(m'.(ipis := m.ipis - {c}), t)
    {
      assert Answered(m, t);
      if a :| 0 <= a < |m.cpus| && a != t && m.cpus[a].local && t in m.cpus[a].resched {
        assert m'.cpus[a].local && t in m'.cpus[a].resched;
      }
    }
  }

  /** A device interrupt answers for nothing, so it relies on the answers that are there. */
  lemma {:induction false} DeviceKeeps(m: Machine, c: nat)
    requires c < |m.cpus| && Inv(m) && !m.cpus[c].irq
    ensures Inv(SetIrq(m, c, true, false))
  {
    var m' := SetIrq(m, c, true, false);
    forall t | 0 <= t < |m.cpus| && m'.cpus[t].flags ensures Answered(m', t) {
      assert Answered(m, t);
      if a :| 0 <= a < |m.cpus| && a != t && m.cpus[a].local && t in m.cpus[a].resched {
        assert m'.cpus[a].local && t in m'.cpus[a].resched;
      }
    }
  }

  lemma {:induction false} PreemptKeeps(m: Machine, c: nat, count: nat)
    requires c < |m.cpus| && Inv(m)
    ensures Inv(SetPreempt(m, c, count))
  {
    var m' := SetPreempt(m, c, count);
    forall t | 0 <= t < |m.cpus| && m'.cpus[t].flags ensures Answered(m', t) {
      assert Answered(m, t);
      if a :| 0 <= a < |m.cpus| && a != t && m.cpus[a].local && t in m.cpus[a].resched {
        assert m'.cpus[a].local && t in m'.cpus[a].resched;
      }
    }
  }

  lemma {:induction false} RequestKeeps(m: Machine, c: nat, t: nat)
    requires c < |m.cpus| && t < |m.cpus| && Inv(m)
    ensures Inv(RequestOf(m, c, t))
  {
    var m' := RequestOf(m, c, t);
    forall u | 0 <= u < |m.cpus| && m'.cpus[u].flags ensures Answered(m', u) {
      if m.cpus[u].flags {
        assert Answered(m, u);
        if a :| 0 <= a < |m.cpus| && a != u && m.cpus[a].local && u in m.cpus[a].resched {
          assert m'.cpus[a].local && u in m'.cpus[a].resched;
        }
      } else if c != t {
        assert u == t && m'.cpus[c].local && t in m'.cpus[c].resched;
      }
    }
  }

  lemma {:induction false} StepKeeps(s: Step, m: Machine)
    requires Inv(m) && Enabled(s, m)
    ensures Inv(Next(s, m))
  {
    var c := s.c;
    match s
    case Request(_, t) =>
      RequestKeeps(m, c, t);
    case Sched(_) =>
      IrqKeeps(m, c);
      if !m.cpus[c].irq { ScheduleKeeps(m, c); }
    case Irq(_) =>
      DeviceKeeps(m, c);
    case Ipi(_) =>
      IrqKeeps(m, c);
    case IrqExit(_) =>
      var m0 := SetIrq(m, c, false, false);
      IrqKeeps(m, c);
      assert SetIrq(m0, c, true, true) == SetIrq(m, c, true, true);
      ScheduleKeeps(m0, c);
    case NoPreempt(_) =>
      PreemptKeeps(m, c, m.cpus[c].preempt + 1);
    case Preempt(_) =>
      var m0 := SetPreempt(m, c, m.cpus[c].preempt - 1);
      PreemptKeeps(m, c, m.cpus[c].preempt - 1);
      IrqKeeps(m0, c);
      if !m0.cpus[c].irq { ScheduleKeeps(m0, c); }
  }

  ghost function Boot(n: nat): Machine {
    Machine(seq(n, i => Cpu(false, false, false, 0, {}, 0, false, false)), {})
  }

  ghost predicate Run(steps: seq<Step>, m: Machine)
    decreases steps
  {
    steps == [] || (Enabled(steps[0], m) && Run(steps[1..], Next(steps[0], m)))
  }

  ghost function Final(steps: seq<Step>, m: Machine): Machine
    requires Run(steps, m)
    decreases steps
  {
    if steps == [] then m else Final(steps[1..], Next(steps[0], m))
  }

  lemma {:induction false} RunKeeps(steps: seq<Step>, m: Machine)
    requires Inv(m) && Run(steps, m)
    ensures Inv(Final(steps, m)) && |Final(steps, m).cpus| == |m.cpus|
    decreases steps
  {
    if steps != [] {
      StepKeeps(steps[0], m);
      RunKeeps(steps[1..], Next(steps[0], m));
    }
  }

  /** No request is lost. In every state any number of CPUs can reach from boot, a request pending
      on t was raised by t, has an IPI in flight, or is owed the IPI by a CPU with its own request
      up. Only while t is inside the handler of that very IPI may all three be gone, and then
      leaving the handler serves the request. A device interrupt on t is no excuse. */
  lemma {:induction false} NoLostReschedule(n: nat, steps: seq<Step>, t: nat)
    requires t < n && Run(steps, Boot(n))
    ensures var m := Final(steps, Boot(n));
            && |m.cpus| == n
            && (m.cpus[t].flags && !Signalled(m, t) ==> InService(m, t))
            && (m.cpus[t].flags && InService(m, t) ==>
                  Enabled(IrqExit(t), m) && Served(IrqExit(t), m, t) && !Next(IrqExit(t), m).cpus[t].flags)
            && (m.cpus[t].resched != {} <==> m.cpus[t].local)
            && t !in m.cpus[t].resched
  {
    RunKeeps(steps, Boot(n));
  }

  lemma {:induction false} RunFirst(x: Step, steps: seq<Step>, m: Machine)
    requires Enabled(x, m) && Run(steps, Next(x, m))
    ensures Run([x] + steps, m) && Final([x] + steps, m) == Final(steps, Next(x, m))
  {
    assert ([x] + steps)[1..] == steps;
  }

  /** The exception is real: between taking the IPI and leaving the interrupt, the request has none
      of the three other answers. */
  lemma {:induction false} ServiceIsNeeded()
    ensures exists steps :: Run(steps, Boot(2)) &&
              var m := Final(steps, Boot(2)); |m.cpus| == 2 && m.cpus[1].flags && !Signalled(m, 1) && InService(m, 1)
  {
    var m0 := Boot(2);
    var m1 := Next(Request(0, 1), m0);
    var m2 := Next(Sched(0), m1);
    var m3 := Next(Ipi(1), m2);
    assert Run([], m3) && Final([], m3) == m3;
    RunFirst(Ipi(1), [], m2);
    RunFirst(Sched(0), [Ipi(1)] + [], m1);
    RunFirst(Request(0, 1), [Sched(0)] + ([Ipi(1)] + []), m0);
    assert m3.cpus[1].flags && m3.ipis == {} && m3.cpus[0].resched == {} && m3.cpus[1].resched == {};
  }

  // ------------------------------------------------------------------- draining

  /** The steps the CPUs are bound to take without any new request: leave an interrupt, take a
      pending IPI, and reach the scheduling point of a CPU that owes a request or an IPI (which is
      the end of its preemption-off section, if it is in one). */
  ghost predicate Bound(s: Step, m: Machine) {
    && Enabled(s, m)
    && match s
       case Sched(c) => (m.cpus[c].owed || m.cpus[c].local) && !m.cpus[c].irq && m.cpus[c].preempt == 0
       case Preempt(c) => (m.cpus[c].owed || m.cpus[c].local) && !m.cpus[c].irq
       case Ipi(c) => true
       case IrqExit(c) => true
       case _ => false
  }

  ghost function Weight(cpu: Cpu): nat {
    3 * |cpu.resched| + (if cpu.irq then 1 else 0) + (if cpu.flags then 1 else 0) + cpu.preempt
  }

  ghost function TotalWeight(cpus: seq<Cpu>): nat {
    if cpus == [] then 0 else Weight(cpus[0]) + TotalWeight(cpus[1..])
  }

  /** What remains to be done. */
  ghost function Measure(m: Machine): nat {
    TotalWeight(m.cpus) + 2 * |m.ipis|
  }

  lemma {:induction false} WeightUpdate(cpus: seq<Cpu>, c: nat, cpu: Cpu)
    requires c < |cpus|
    ensures TotalWeight(cpus[c := cpu]) == TotalWeight(cpus) - Weight(cpus[c]) + Weight(cpu)
  {
    if c == 0 {
      assert cpus[c := cpu][1..] == cpus[1..];
    } else {
      WeightUpdate(cpus[1..], c - 1, cpu);
      assert cpus[c := cpu][1..] == cpus[1..][c - 1 := cpu];
    }
  }

  lemma {:induction false} ScheduleLightens(m: Machine, c: nat)
    requires c < |m.cpus| && (m.cpus[c].local <==> m.cpus[c].resched != {})
    ensures Measure(ScheduleOn(m, c)) <= Measure(m)
    ensures Passes(m.cpus[c]) ==> Measure(ScheduleOn(m, c)) < Measure(m)
  {
    if Passes(m.cpus[c]) {
      WeightUpdate(m.cpus, c, ScheduleOn(m, c).cpus[c]);
      assert |m.ipis + m.cpus[c].resched| <= |m.ipis| + |m.cpus[c].resched|;
    }
  }

  lemma {:induction false} ExitLightens(m: Machine, c: nat)
    requires Inv(m) && c < |m.cpus| && m.cpus[c].irq
    ensures Measure(ScheduleOn(SetIrq(m, c, false, false), c)) < Measure(m)
  {
    WeightUpdate(m.cpus, c, m.cpus[c].(irq := false, serving := false));
    ScheduleLightens(SetIrq(m, c, false, false), c);
  }

  lemma {:induction false} PreemptLightens(m: Machine, c: nat)
    requires Inv(m) && c < |m.cpus| && m.cpus[c].preempt > 0
    ensures Measure(PreemptOn(m, c)) < Measure(m)
  {
    WeightUpdate(m.cpus, c, m.cpus[c].(preempt := m.cpus[c].preempt - 1));
    ScheduleLightens(SetPreempt(m, c, m.cpus[c].preempt - 1), c);
  }

  lemma {:induction false} IpiLightens(m: Machine, c: nat)
    requires c < |m.cpus| && c in m.ipis && !m.cpus[c].irq
    ensures Measure(SetIrq(m, c, true, true).(ipis := m.ipis - {c})) < Measure(m)
  {
    WeightUpdate(m.cpus, c, m.cpus[c].(irq := true, serving := true));
    assert |m.ipis - {c}| == |m.ipis| - 1;
  }

  /** Every bound step leaves strictly less to do. */
  lemma {:induction false} BoundStepLightens(s: Step, m: Machine)
    requires Inv(m) && Bound(s, m)
    ensures Measure(Next(s, m)) < Measure(m)
  {
    match s
    case Sched(c) => ScheduleLightens(m, c);
    case Ipi(c) => IpiLightens(m, c);
    case IrqExit(c) => ExitLightens(m, c);
    case Preempt(c) => PreemptLightens(m, c);
  }

  ghost predicate BoundRun(steps: seq<Step>, m: Machine)
    decreases steps
  {
    steps == [] || (Bound(steps[0], m) && BoundRun(steps[1..], Next(steps[0], m)))
  }

  /** Nothing pending, on any CPU or on the wire. */
  ghost predicate Quiet(m: Machine) {
    m.ipis == {} && forall c :: 0 <= c < |m.cpus| ==> !m.cpus[c].flags && !m.cpus[c].local
  }

  /** A state in which no CPU is bound to do anything has no request left. */
  lemma {:induction false} StuckIsQuiet(m: Machine)
    requires Inv(m) && forall s :: !Bound(s, m)
    ensures Quiet(m)
  {
    forall c | 0 <= c < |m.cpus| ensures !m.cpus[c].irq && c !in m.ipis && !m.cpus[c].owed && !m.cpus[c].local {
      assert !Bound(IrqExit(c), m);
      assert !Bound(Ipi(c), m);
      assert !Bound(Sched(c), m);
      assert !Bound(Preempt(c), m);
    }
    assert forall c :: 0 <= c < |m.cpus| && m.cpus[c].flags ==> Answered(m, c);
  }

  /** The bound steps of a run. */
  ghost function Bounds(steps: seq<Step>, m: Machine): nat
    requires Run(steps, m)
    decreases steps
  {
    if steps == [] then 0
    else (if Bound(steps[0], m) then 1 else 0) + Bounds(steps[1..], Next(steps[0], m))
  }

  /** The device interrupts and preemption-off sections that begin in a run: each adds one to what
      remains to be done. */
  ghost function Extra(steps: seq<Step>): nat {
    if steps == [] then 0 else (if steps[0].Irq? || steps[0].NoPreempt? then 1 else 0) + Extra(steps[1..])
  }

  lemma {:induction false} StepLightens(s: Step, m: Machine)
    requires Inv(m) && Enabled(s, m) && !s.Request?
    ensures Measure(Next(s, m)) + (if Bound(s, m) then 1 else 0) <= Measure(m) + Extra([s])
  {
    var c := s.c;
    match s
    case Sched(_) => ScheduleLightens(m, c);
    case Irq(_) => WeightUpdate(m.cpus, c, m.cpus[c].(irq := true, serving := false));
    case Ipi(_) => IpiLightens(m, c);
    case IrqExit(_) => ExitLightens(m, c);
    case NoPreempt(_) => WeightUpdate(m.cpus, c, m.cpus[c].(preempt := m.cpus[c].preempt + 1));
    case Preempt(_) => PreemptLightens(m, c);
  }

  /** Pending requests drain. In any run without new requests, whatever interrupts and sections it
      contains, the bound steps are limited by the weight there was plus what those added; and where
      no bound step is left, nothing is pending. */
  lemma {:induction false} RequestsDrain(steps: seq<Step>, m: Machine)
    requires Inv(m) && Run(steps, m) && forall k :: 0 <= k < |steps| ==> !steps[k].Request?
    ensures Bounds(steps, m) + Measure(Final(steps, m)) <= Measure(m) + Extra(steps)
    ensures (forall s :: !Bound(s, Final(steps, m))) ==> Quiet(Final(steps, m))
    decreases steps
  {
    if steps == [] {
      if forall s :: !Bound(s, m) { StuckIsQuiet(m); }
    } else {
      StepKeeps(steps[0], m);
      StepLightens(steps[0], m);
      RequestsDrain(steps[1..], Next(steps[0], m));
    }
  }

  /** In particular the bound steps by themselves come to an end, in any order. */
  lemma {:induction false} BoundRunsEnd(steps: seq<Step>, m: Machine)
    requires Inv(m) && BoundRun(steps, m)
    ensures Run(steps, m) && |steps| + Measure(Final(steps, m)) <= Measure(m)
    decreases steps
  {
    if steps != [] {
      StepKeeps(steps[0], m);
      BoundStepLightens(steps[0], m);
      BoundRunsEnd(steps[1..], Next(steps[0], m));
    }
  }

  /** The steps in which c runs __evl_schedule. */
  ghost predicate Served(s: Step, m: Machine, c: nat)
    requires Enabled(s, m)
  {
    && s.c == c
    && match s
       case Sched(_) => Passes(m.cpus[c])
       case IrqExit(_) => Passes(m.cpus[c].(irq := false))
       case Preempt(_) => m.cpus[c].preempt == 1 && Passes(m.cpus[c])
       case _ => false
  }

  ghost predicate ServedIn(steps: seq<Step>, m: Machine, c: nat)
    requires Run(steps, m)
    decreases steps
  {
    steps != [] && (Served(steps[0], m, c) || ServedIn(steps[1..], Next(steps[0], m), c))
  }

  /** A request is only ever taken back by its CPU running __evl_schedule, outside of interrupts:
      so a run that drains everything has served every CPU that had one. */
  lemma {:induction false} RequestIsServed(steps: seq<Step>, m: Machine, t: nat)
    requires Run(steps, m) && t < |m.cpus| && m.cpus[t].flags
    ensures |Final(steps, m).cpus| == |m.cpus|
    ensures Final(steps, m).cpus[t].flags || ServedIn(steps, m, t)
    decreases steps
  {
    if steps != [] {
      var m' := Next(steps[0], m);
      if m'.cpus[t].flags {
        RequestIsServed(steps[1..], m', t);
      } else {
        LengthKept(steps[1..], m');
      }
    }
  }

  lemma {:induction false} LengthKept(steps: seq<Step>, m: Machine)
    requires Run(steps, m)
    ensures |Final(steps, m).cpus| == |m.cpus|
    decreases steps
  {
    if steps != [] { LengthKept(steps[1..], Next(steps[0], m)); }
  }

  // ------------------------------------------------- what each call must achieve

  /** Wherever it is issued, in a handler too, a request is posted: the flag of its target is up
      afterwards, and somebody has taken on to deliver it. A request already up is coalesced. */
  lemma {:induction false} RequestPosts(m: Machine, c: nat, t: nat)
    requires c < |m.cpus| && t < |m.cpus|
    ensures Enabled(Request(c, t), m)
    ensures var m' := Next(Request(c, t), m);
            && |m'.cpus| == |m.cpus| && m'.cpus[t].flags
            && (c == t ==> m'.cpus[t].owed)
            && (c != t && !m.cpus[t].flags ==> m'.cpus[c].local && t in m'.cpus[c].resched)
            && (c != t && m.cpus[t].flags ==> m' == m)
            && m'.ipis == m.ipis
            && forall k :: 0 <= k < |m.cpus| ==>
                 && m'.cpus[k].irq == m.cpus[k].irq && m'.cpus[k].serving == m.cpus[k].serving
                 && m'.cpus[k].preempt == m.cpus[k].preempt && m'.cpus[k].rest == m.cpus[k].rest
                 && (k != t ==> m'.cpus[k].flags == m.cpus[k].flags && m'.cpus[k].owed == m.cpus[k].owed)
                 && (k != c ==> m'.cpus[k].local == m.cpus[k].local && m'.cpus[k].resched == m.cpus[k].resched)
  {
  }

  /** What may happen when: calls at any time, an interrupt while none is handled, its end while one
      is, and the end of a preemption-off section inside one. */
  lemma WhatMayHappen(m: Machine, c: nat)
    requires c < |m.cpus|
    ensures Enabled(Sched(c), m) && Enabled(NoPreempt(c), m)
    ensures Enabled(Irq(c), m) <==> !m.cpus[c].irq
    ensures Enabled(IrqExit(c), m) <==> m.cpus[c].irq
    ensures Enabled(Ipi(c), m) <==> c in m.ipis && !m.cpus[c].irq
    ensures Enabled(Preempt(c), m) <==> m.cpus[c].preempt > 0
  {
  }

  /** The points at which the code of c calls __evl_schedule: evl_schedule itself, the end of an
      interrupt and the end of the outermost preemption-off section. */
  ghost predicate SchedulingPoint(s: Step, m: Machine, c: nat)
    requires Enabled(s, m)
  {
    s == Sched(c) || s == IrqExit(c) || (s == Preempt(c) && m.cpus[c].preempt == 1)
  }

  /** __evl_schedule runs exactly where a scheduling point of c finds a request, shared or private,
      and no interrupt is being handled any more. It takes both down, and sends exactly the IPIs c
      owes. Nothing else takes a request down, and no other step sends an IPI. */
  lemma {:induction false} ServiceEffect(s: Step, m: Machine, c: nat)
    requires Inv(m) && Enabled(s, m) && c < |m.cpus|
    ensures var a, b := m.cpus[c], Next(s, m).cpus[c];
            && (Served(s, m, c) <==>
                  SchedulingPoint(s, m, c) && (a.flags || a.local) && (a.irq ==> s.IrqExit?))
            && (Served(s, m, c) ==> !b.irq && !b.flags && !b.local && b.resched == {} && !b.owed
                                    && Next(s, m).ipis == m.ipis + a.resched)
            && (!Served(s, m, c) ==> (a.flags ==> b.flags) && (a.local ==> b.local) && a.resched <= b.resched)
            && (!Served(s, m, s.c) ==> Next(s, m).ipis == if s == Ipi(s.c) then m.ipis - {s.c} else m.ipis)
  {
  }

  /** How often a step occurs in a run. */
  ghost function Count(x: Step, steps: seq<Step>): nat {
    if steps == [] then 0 else (if steps[0] == x then 1 else 0) + Count(x, steps[1..])
  }

  /** The preemption count is the number of sections begun and not ended, whatever else happens, and
      nothing touches the private bits of c that belong to others. */
  lemma {:induction false} SectionsAreCounted(steps: seq<Step>, m: Machine, c: nat)
    requires Run(steps, m) && c < |m.cpus|
    ensures var m' := Final(steps, m);
            && |m'.cpus| == |m.cpus| && m'.cpus[c].rest == m.cpus[c].rest
            && m'.cpus[c].preempt == m.cpus[c].preempt + Count(NoPreempt(c), steps) - Count(Preempt(c), steps)
    decreases steps
  {
    if steps != [] {
      SectionsAreCounted(steps[1..], Next(steps[0], m), c);
    }
  }

  /** Whether c is inside a handler at the end of a run, and whether one of a reschedule IPI: what
      the last interrupt bracket of c in the run says. */
  ghost function Bracket(steps: seq<Step>, c: nat, before: (bool, bool)): (bool, bool) {
    if steps == [] then before
    else Bracket(steps[1..], c,
      if steps[0] == Irq(c) then (true, false)
      else if steps[0] == Ipi(c) then (true, true)
      else if steps[0] == IrqExit(c) then (false, false)
      else before)
  }

  lemma {:induction false} HandlersAreBracketed(steps: seq<Step>, m: Machine, c: nat)
    requires Run(steps, m) && c < |m.cpus|
    ensures var m' := Final(steps, m);
            && |m'.cpus| == |m.cpus|
            && (m'.cpus[c].irq, m'.cpus[c].serving) == Bracket(steps, c, (m.cpus[c].irq, m.cpus[c].serving))
    decreases steps
  {
    if steps != [] {
      HandlersAreBracketed(steps[1..], Next(steps[0], m), c);
    }
  }

  /** From the entry of a handler to its exit c never runs __evl_schedule, and what was requested of
      it stays requested. */
  lemma {:induction false} HandlerIsNotPreempted(steps: seq<Step>, m: Machine, c: nat)
    requires Inv(m) && Run(steps, m) && c < |m.cpus| && m.cpus[c].irq && IrqExit(c) !in steps
    ensures var m' := Final(steps, m);
            && |m'.cpus| == |m.cpus| && m'.cpus[c].irq && !ServedIn(steps, m, c)
            && (m.cpus[c].flags ==> m'.cpus[c].flags) && (m.cpus[c].local ==> m'.cpus[c].local)
    decreases steps
  {
    if steps != [] {
      StepKeeps(steps[0], m);
      ServiceEffect(steps[0], m, c);
      HandlersAreBracketed([steps[0]], m, c);
      HandlerIsNotPreempted(steps[1..], Next(steps[0], m), c);
    }
  }

  /** From the call to the service: whoever requests a reschedule of t, once the CPUs have taken all
      the steps they are bound to take, in any order and with any interrupts in between, t has run
      __evl_schedule since. */
  lemma {:induction false} PostedIsServed(m: Machine, c: nat, t: nat, steps: seq<Step>)
    requires Inv(m) && c < |m.cpus| && t < |m.cpus| && Run(steps, Next(Request(c, t), m))
    requires forall k :: 0 <= k < |steps| ==> !steps[k].Request?
    requires forall s :: !Bound(s, Final(steps, Next(Request(c, t), m)))
    ensures ServedIn(steps, Next(Request(c, t), m), t)
  {
    var m1 := Next(Request(c, t), m);
    RequestPosts(m, c, t);
    StepKeeps(Request(c, t), m);
    RequestsDrain(steps, m1);
    RequestIsServed(steps, m1, t);
  }

  // ------------------------------------------------------------- the code itself

  const RQ_SCHED: bv64 := 0x10000000
  const RQ_IRQ: bv64 := 0x00004000

  lemma SchedBit(l: bv64)
    ensures (l | RQ_SCHED) & RQ_SCHED != 0 && (l & !RQ_SCHED) & RQ_SCHED == 0
    ensures (l | RQ_SCHED) & RQ_IRQ == l & RQ_IRQ && (l & !RQ_SCHED) & RQ_IRQ == l & RQ_IRQ
    ensures (l | RQ_SCHED) & !(RQ_SCHED | RQ_IRQ) == l & !(RQ_SCHED | RQ_IRQ)
    ensures (l & !RQ_SCHED) & !(RQ_SCHED | RQ_IRQ) == l & !(RQ_SCHED | RQ_IRQ)
  {
  }

  lemma IrqBit(l: bv64)
    ensures (l | RQ_IRQ) & RQ_IRQ != 0 && (l & !RQ_IRQ) & RQ_IRQ == 0
    ensures (l | RQ_IRQ) & RQ_SCHED == l & RQ_SCHED && (l & !RQ_IRQ) & RQ_SCHED == l & RQ_SCHED
    ensures (l | RQ_IRQ) & !(RQ_SCHED | RQ_IRQ) == l & !(RQ_SCHED | RQ_IRQ)
    ensures (l & !RQ_IRQ) & !(RQ_SCHED | RQ_IRQ) == l & !(RQ_SCHED | RQ_IRQ)
  {
  }

  function WithSched(l: bv64): (r: bv64)
    ensures r & RQ_SCHED != 0 && r & RQ_IRQ == l & RQ_IRQ
    ensures r & !(RQ_SCHED | RQ_IRQ) == l & !(RQ_SCHED | RQ_IRQ)
  {
    SchedBit(l);
    l | RQ_SCHED
  }

  function WithoutIrq(l: bv64): (r: bv64)
    ensures r & RQ_IRQ == 0 && r & RQ_SCHED == l & RQ_SCHED
    ensures r & !(RQ_SCHED | RQ_IRQ) == l & !(RQ_SCHED | RQ_IRQ)
  {
    IrqBit(l);
    l & !RQ_IRQ
  }

  lemma PassTest(f: bv64, l: bv64)
    requires f & !RQ_SCHED == 0
    ensures (f | l) & (RQ_IRQ | RQ_SCHED) == RQ_SCHED
       <==> (f & RQ_SCHED != 0 || l & RQ_SCHED != 0) && l & RQ_IRQ == 0
  {
  }

  lemma ExitTest(f: bv64, l: bv64)
    ensures (f | l) & RQ_SCHED != 0 <==> f & RQ_SCHED != 0 || l & RQ_SCHED != 0
  {
  }

  /** The fields of struct evl_rq this protocol uses, and the preemption count of the context
      running there. */
  class Rq {
    const cpu: nat
    var flags: bv64
    var localFlags: bv64
    var reschedCpus: set<nat>
    var preemptCount: nat
    ghost var owed: bool
    ghost var serving: bool

    constructor (cpu: nat)
      ensures this.cpu == cpu && Valid() && View() == Boot(1).cpus[0]
    {
      this.cpu, flags, localFlags, reschedCpus, preemptCount := cpu, 0, 0, {}, 0;
      owed, serving := false, false;
    }

    /** The shared flags hold nothing but RQ_SCHED. */
    ghost predicate Valid()
      reads this
    {
      flags & !RQ_SCHED == 0
    }

    ghost function View(): Cpu
      reads this
    {
      Cpu(flags & RQ_SCHED != 0, localFlags & RQ_SCHED != 0, localFlags & RQ_IRQ != 0,
          localFlags & !(RQ_SCHED | RQ_IRQ), reschedCpus, preemptCount, owed, serving)
    }

    /** rq->flags |= RQ_SCHED. */
    method RaiseShared()
      requires Valid()
      modifies `flags
      ensures Valid() && View() == old(View()).(flags := true)
    {
      SchedBit(flags);
      flags := flags | RQ_SCHED;
    }

    /** The requester's side of a remote request. */
    method RaisePrivate(cpu: nat)
      modifies `localFlags, `reschedCpus
      ensures View() == old(View()).(local := true, resched := old(reschedCpus) + {cpu})
    {
      localFlags := WithSched(localFlags);
      reschedCpus := reschedCpus + {cpu};
    }

    /** evl_need_resched. */
    method NeedResched() returns (r: bool)
      ensures r == View().flags
    {
      r := flags & RQ_SCHED != 0;
    }

    method SetIrqFlag(ghost ipi: bool)
      modifies `localFlags, `serving
      ensures View() == old(View()).(irq := true, serving := ipi)
    {
      IrqBit(localFlags);
      localFlags := localFlags | RQ_IRQ;
      serving := ipi;
    }

    method ClearIrqFlag()
      modifies `localFlags, `serving
      ensures View() == old(View()).(irq := false, serving := false)
    {
      localFlags := WithoutIrq(localFlags);
      serving := false;
    }

    /** The test of evl_schedule on the combined words. */
    method MustSchedule() returns (r: bool)
      requires Valid()
      ensures r == Passes(View())
    {
      PassTest(flags, localFlags);
      r := (flags | localFlags) & (RQ_IRQ | RQ_SCHED) == RQ_SCHED;
    }

    /** What __evl_schedule does to the runqueue; the IPIs are the caller's. */
    method Consume()
      modifies this
      ensures Valid()
      ensures View() == old(View()).(flags := false, local := false, resched := {}, owed := false)
    {
      SchedBit(localFlags);
      flags := 0;
      localFlags := localFlags & !RQ_SCHED;
      reschedCpus := {};
      owed := false;
    }
  }

  /** All runqueues of the machine, and the reschedule IPIs in flight. */
  class Smp {
    const rqs: seq<Rq>
    var ipis: set<nat>

    ghost predicate Valid()
      reads this, rqs
    {
      && (forall i :: 0 <= i < |rqs| ==> rqs[i].cpu == i && rqs[i].Valid())
    }

    ghost function View(): (m: Machine)
      reads this, rqs
      ensures |m.cpus| == |rqs| && m.ipis == ipis
      ensures forall i :: 0 <= i < |rqs| ==> m.cpus[i] == rqs[i].View()
    {
      Machine(Views(rqs), ipis)
    }

    /** Only the runqueue of c was written. */
    twostate lemma OnlyOn(c: nat)
      requires old(Valid()) && c < |rqs| && rqs[c].Valid()
      requires forall i :: 0 <= i < |rqs| && i != c ==> unchanged(rqs[i])
      ensures Valid() && View() == Machine(old(View()).cpus[c := rqs[c].View()], ipis)
    {
    }

    /** The remote branch of evl_set_resched. */
    method RequestRemote(c: nat, t: nat)
      requires Valid() && c < |rqs| && t < |rqs| && c != t
      modifies rqs[c], rqs[t]
      ensures Valid() && View() == RequestOf(old(View()), c, t)
    {
      assert rqs[c] != rqs[t];
      var pending := rqs[t].NeedResched();
      if !pending {
        rqs[t].RaiseShared();
        OnlyOn(t);
        label raised:
        rqs[c].RaisePrivate(rqs[t].cpu);
        OnlyOn@raised(c);
      }
    }

    /** evl_set_resched(rqs[t]), called on CPU c. */
    method SetResched(c: nat, t: nat)
      requires Valid() && c < |rqs| && t < |rqs|
      modifies rqs[c], rqs[t]
      ensures Valid() && View() == RequestOf(old(View()), c, t)
    {
      if c == t {
        rqs[c].RaiseShared();
        rqs[c].owed := true;
        OnlyOn(c);
      } else {
        RequestRemote(c, t);
      }
    }

    /** evl_schedule on CPU c. */
    method Schedule(c: nat) returns (entered: bool)
      requires Valid() && c < |rqs|
      modifies this, rqs[c]
      ensures Valid() && View() == ScheduleOn(old(View()), c)
      ensures entered <==> Passes(old(View()).cpus[c])
    {
      entered := rqs[c].MustSchedule();
      if entered {
        ipis := ipis + rqs[c].reschedCpus;
        rqs[c].Consume();
        OnlyOn(c);
      }
    }

    /** evl_enter_irq on CPU c, for a reschedule IPI or for a device. */
    method EnterIrq(c: nat, ipi: bool)
      requires Valid() && c < |rqs|
      requires Enabled(if ipi then Ipi(c) else Irq(c), View())
      modifies this, rqs[c]
      ensures Valid() && View() == Next(if ipi then Ipi(c) else Irq(c), old(View()))
    {
      if ipi { ipis := ipis - {c}; }
      rqs[c].SetIrqFlag(ipi);
      OnlyOn(c);
    }

    /** evl_exit_irq on CPU c. */
    method ExitIrq(c: nat)
      requires Valid() && c < |rqs| && Enabled(IrqExit(c), View())
      modifies this, rqs[c]
      ensures Valid() && View() == Next(IrqExit(c), old(View()))
    {
      rqs[c].ClearIrqFlag();
      OnlyOn(c);
      assert View() == SetIrq(old(View()), c, false, false);
      ExitTest(rqs[c].flags, rqs[c].localFlags);
      if (rqs[c].flags | rqs[c].localFlags) & RQ_SCHED != 0 {
        var _ := Schedule(c);
      }
    }

    /** evl_disable_preempt on CPU c. */
    method DisablePreempt(c: nat)
      requires Valid() && c < |rqs|
      modifies rqs[c]
      ensures Valid() && View() == Next(NoPreempt(c), old(View()))
    {
      rqs[c].preemptCount := rqs[c].preemptCount + 1;
      OnlyOn(c);
      assert View() == SetPreempt(old(View()), c, old(rqs[c].preemptCount) + 1);
    }

    /** evl_enable_preempt on CPU c. */
    method EnablePreempt(c: nat)
      requires Valid() && c < |rqs| && Enabled(Preempt(c), View())
      modifies this, rqs[c]
      ensures Valid() && View() == Next(Preempt(c), old(View()))
    {
      rqs[c].preemptCount := rqs[c].preemptCount - 1;
      OnlyOn(c);
      assert View() == SetPreempt(old(View()), c, old(rqs[c].preemptCount) - 1);
      if rqs[c].preemptCount == 0 {
        var _ := Schedule(c);
      }
    }
  }

  ghost function Views(rqs: seq<Rq>): (v: seq<Cpu>)
    reads rqs
    ensures |v| == |rqs| && forall i :: 0 <= i < |rqs| ==> v[i] == rqs[i].View()
  {
    if rqs == [] then [] else Views(rqs[..|rqs| - 1]) + [rqs[|rqs| - 1].View()]
  }
}
