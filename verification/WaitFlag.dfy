/** The event flag of evl/flag.h and the wait loop of evl/wait.h, for any number of waiters,
    raisers and flushers. The lock of the wait channel is explicit, and every access to the flag is
    a step of its own, because evl_clear_flag does not take the lock. */
module WaitFlag {
  import opened Options

  /** Why a sleeper was woken: a plain wakeup, EVL_T_BCAST, or one of the bits that make
      evl_wait_schedule return an error. */
  datatype Why = Plain | Bcast | Timeo | Break | Rmid

  /** How a wait ended: with the flag, with -EAGAIN, by a broadcast, or with an error. */
  datatype Outcome = Got | Again | Pulsed | Failed(why: Why)

  ghost predicate ReturnsZero(o: Outcome) {
    o.Got? || o.Pulsed?
  }

  /** Where a thread is. In Test, Take, Add, Back, Leave, Set, Flush and End it holds the lock. */
  datatype Pc =
    | Out(last: Option<Outcome>)
    | Enter(nonblock: bool)     // about to lock the wait channel
    | Test(nonblock: bool)      // evl_read_flag: reads raised
    | Take                      // evl_read_flag: saw it raised, writes false
    | Add                       // evl_add_wait_queue, then unlocks
    | Asleep                    // evl_wait_schedule
    | Awake(why: Why)           // about to lock again
    | Back(why: Why)            // the loop condition
    | Leave(out: Outcome)       // unlocks and returns
    | WantRaise | Set | Flush(why: Why) | End | WantFlush(why: Why)

  ghost predicate Holding(p: Pc) {
    p.Test? || p.Take? || p.Add? || p.Back? || p.Leave? || p.Set? || p.Flush? || p.End?
  }

  /** struct evl_flag: the flag and its wait list. */
  datatype Core = Core(raised: bool, waiters: set<nat>)

  /** What the accesses of evl/flag.h and evl/wait.h do to it. */
  ghost function Lowered(c: Core): Core {
    c.(raised := false)
  }

  ghost function Raised(c: Core): Core {
    c.(raised := true)
  }

  ghost function Flushed(c: Core): Core {
    c.(waiters := {})
  }

  ghost function With(c: Core, t: nat): Core {
    c.(waiters := c.waiters + {t})
  }

  ghost function Without(c: Core, t: nat): Core {
    c.(waiters := c.waiters - {t})
  }

  /** Raises, raises that hit a raised flag, reads that returned true, clears that hit a raised
      flag, reads whose flag was cleared between their two accesses, and waits that returned with
      the flag. */
  datatype Counts = Counts(raises: nat, reraises: nat, taken: nat, hits: nat, raced: nat, got: nat)

  datatype State = State(core: Core, lock: Option<nat>, pc: map<nat, Pc>, n: Counts)

  ghost function PcOf(s: State, t: nat): Pc {
    if t in s.pc then s.pc[t] else Out(None)
  }

  datatype Act =
    | CallWait(t: nat, nonblock: bool) | CallRaise(t: nat) | CallFlush(t: nat, why: Why)
    | Clear                     // evl_clear_flag, by anyone at any time
    | Interrupt(t: nat, why: Why)  // a timeout or an unblocking takes t out of the wait list
    | Go(t: nat)                // t runs its next step

  ghost predicate NeedsLock(p: Pc) {
    p.Enter? || p.Awake? || p.WantRaise? || p.WantFlush?
  }

  ghost predicate Enabled(a: Act, s: State) {
    match a
    case CallWait(t, _) => PcOf(s, t).Out?
    case CallRaise(t) => PcOf(s, t).Out?
    case CallFlush(t, _) => PcOf(s, t).Out?
    case Clear => true
    case Interrupt(t, why) => t in s.core.waiters && s.lock == None && (why == Timeo || why == Break)
    case Go(t) => Holding(PcOf(s, t)) || (NeedsLock(PcOf(s, t)) && s.lock == None)
  }

  ghost function Jump(s: State, t: nat, p: Pc): State {
    s.(pc := s.pc[t := p])
  }

  ghost function Locked(s: State, t: nat, p: Pc): State {
    Jump(s, t, p).(lock := Some(t))
  }

  ghost function Unlocked(s: State, t: nat, p: Pc): State {
    Jump(s, t, p).(lock := None)
  }

  /** evl_flush_wait_locked: every waiter leaves the list and is woken with the reason. */
  ghost function WokenAll(s: State, why: Why): State {
    s.(core := Flushed(s.core), pc := s.pc + map u | u in s.core.waiters :: Awake(why))
  }

  /** How a wait ends that was woken up for good. */
  ghost function Ended(why: Why): Outcome {
    if why == Plain then Got else if why == Bcast then Pulsed else Failed(why)
  }

  ghost function Step(s: State, t: nat): State
    requires Enabled(Go(t), s)
  {
    match PcOf(s, t)
    case Enter(nonblock) => Locked(s, t, Test(nonblock))
    case Test(nonblock) => Jump(s, t, if s.core.raised then Take else if nonblock then Leave(Again) else Add)
    case Take =>
      Jump(s, t, Leave(Got)).(core := Lowered(s.core),
        n := s.n.(taken := s.n.taken + 1, raced := if s.core.raised then s.n.raced else s.n.raced + 1))
    case Add => Unlocked(s, t, Asleep).(core := With(s.core, t))
    case Awake(why) => Locked(s, t, Back(why))
    case Back(why) =>
      Jump(s, t, if why == Plain then Test(false) else Leave(Ended(why)))
    case Leave(out) =>
      Unlocked(s, t, Out(Some(out))).(n := if out == Got then s.n.(got := s.n.got + 1) else s.n)
    case WantRaise => Locked(s, t, Set)
    case Set =>
      Jump(s, t, Flush(Plain)).(core := Raised(s.core),
        n := s.n.(raises := s.n.raises + 1, reraises := if s.core.raised then s.n.reraises + 1 else s.n.reraises))
    case WantFlush(why) => Locked(s, t, Flush(why))
    case Flush(why) => Jump(WokenAll(s, why), t, End)
    case End => Unlocked(s, t, Out(None))
  }

  ghost function Next(a: Act, s: State): State
    requires Enabled(a, s)
  {
    match a
    case CallWait(t, nonblock) => Jump(s, t, Enter(nonblock))
    case CallRaise(t) => Jump(s, t, WantRaise)
    case CallFlush(t, why) => Jump(s, t, WantFlush(why))
    case Clear => s.(core := Lowered(s.core), n := if s.core.raised then s.n.(hits := s.n.hits + 1) else s.n)
    case Interrupt(t, why) => Jump(s, t, Awake(why)).(core := Without(s.core, t))
    case Go(t) => Step(s, t)
  }

  const NONE := Counts(0, 0, 0, 0, 0, 0)

  /** What may happen when: a thread outside of any call starts any call, a clear comes at any time,
      a sleeper is interrupted while the lock is free, and a thread inside a call goes on when it
      holds the lock or can take it. */
  lemma WhoMayAct(s: State, t: nat, why: Why)
    ensures PcOf(s, t).Out? <==> Enabled(CallRaise(t), s)
    ensures PcOf(s, t).Out? <==> Enabled(CallFlush(t, why), s)
    ensures PcOf(s, t).Out? <==> Enabled(CallWait(t, true), s) && Enabled(CallWait(t, false), s)
    ensures Enabled(Clear, s)
    ensures t in s.core.waiters && s.lock == None ==> Enabled(Interrupt(t, Timeo), s) && Enabled(Interrupt(t, Break), s)
    ensures !PcOf(s, t).Out? && !PcOf(s, t).Asleep? && s.lock == None ==> Enabled(Go(t), s)
    ensures Exclusive(s) && s.lock == Some(t) ==> Enabled(Go(t), s)
  {
  }

  ghost function Init(): State {
    State(Core(false, {}), None, map[], NONE)
  }

  // ---------------------------------------------------------------- invariants

  /** The lock excludes, and the wait list holds exactly the sleepers. */
  ghost predicate Exclusive(s: State) {
    && (forall t :: t in s.pc ==> (Holding(s.pc[t]) <==> s.lock == Some(t)))
    && (s.lock.Some? ==> s.lock.value in s.pc)
    && (forall t :: t in s.core.waiters <==> t in s.pc && s.pc[t] == Asleep)
  }

  ghost predicate HolderAt(s: State, p: Pc) {
    s.lock.Some? && PcOf(s, s.lock.value) == p
  }

  /** A raised flag with sleepers is only ever seen between the two halves of a raise. */
  ghost predicate NobodySleepsOnRaised(s: State) {
    && (s.core.raised && s.core.waiters != {} ==> HolderAt(s, Flush(Plain)))
    && (HolderAt(s, Add) ==> !s.core.raised)
  }

  /** A clear has slipped between the two accesses of the reader that holds the lock. */
  ghost function Open(s: State): nat {
    if HolderAt(s, Take) && !s.core.raised then 1 else 0
  }

  ghost predicate Balanced(s: State) {
    && s.n.raises + s.n.raced == s.n.taken + s.n.reraises + s.n.hits + (if s.core.raised then 1 else 0)
    && s.n.hits >= s.n.raced + Open(s)
    && s.n.taken == s.n.got + (if HolderAt(s, Leave(Got)) then 1 else 0)
  }

  ghost predicate Inv(s: State) {
    Exclusive(s) && NobodySleepsOnRaised(s) && Balanced(s)
  }

  lemma {:induction false} CallKeepsExclusive(a: Act, s: State)
    requires Exclusive(s) && Enabled(a, s) && !a.Go?
    ensures Exclusive(Next(a, s))
  {
  }

  lemma {:induction false} LockKeepsExclusive(s: State, t: nat)
    requires Exclusive(s) && NeedsLock(PcOf(s, t)) && s.lock == None
    ensures Exclusive(Step(s, t))
  {
  }

  lemma {:induction false} FlushKeepsExclusive(s: State, t: nat)
    requires Exclusive(s) && PcOf(s, t).Flush?
    ensures Exclusive(Step(s, t))
  {
    assert t !in s.core.waiters;
  }

  lemma {:induction false} HolderKeepsExclusive(s: State, t: nat)
    requires Exclusive(s) && Holding(PcOf(s, t)) && !PcOf(s, t).Flush?
    ensures Exclusive(Step(s, t))
  {
  }

  lemma {:induction false} ExclusiveKept(a: Act, s: State)
    requires Exclusive(s) && Enabled(a, s)
    ensures Exclusive(Next(a, s))
  {
    if !a.Go? {
      CallKeepsExclusive(a, s);
    } else if NeedsLock(PcOf(s, a.t)) {
      LockKeepsExclusive(s, a.t);
    } else if PcOf(s, a.t).Flush? {
      FlushKeepsExclusive(s, a.t);
    } else {
      HolderKeepsExclusive(s, a.t);
    }
  }

  lemma {:induction false} SleepersKept(a: Act, s: State)
    requires Exclusive(s) && NobodySleepsOnRaised(s) && Enabled(a, s)
    ensures NobodySleepsOnRaised(Next(a, s))
  {
  }

  lemma {:induction false} BalanceKept(a: Act, s: State)
    requires Exclusive(s) && Balanced(s) && Enabled(a, s)
    ensures Balanced(Next(a, s))
  {
  }

  lemma {:induction false} StepKeeps(a: Act, s: State)
    requires Inv(s) && Enabled(a, s)
    ensures Inv(Next(a, s))
  {
    ExclusiveKept(a, s);
    SleepersKept(a, s);
    BalanceKept(a, s);
  }

  ghost predicate Run(acts: seq<Act>, s: State)
    decreases acts
  {
    acts == [] || (Enabled(acts[0], s) && Run(acts[1..], Next(acts[0], s)))
  }

  ghost function Final(acts: seq<Act>, s: State): State
    requires Run(acts, s)
    decreases acts
  {
    if acts == [] then s else Final(acts[1..], Next(acts[0], s))
  }

  lemma {:induction false} RunKeeps(acts: seq<Act>, s: State)
    requires Inv(s) && Run(acts, s)
    ensures Inv(Final(acts, s))
    decreases acts
  {
    if acts != [] {
      StepKeeps(acts[0], s);
      RunKeeps(acts[1..], Next(acts[0], s));
    }
  }

  ghost predicate Reachable(s: State) {
    exists acts :: Run(acts, Init()) && Final(acts, Init()) == s
  }

  lemma {:induction false} ReachableInv(s: State)
    requires Reachable(s)
    ensures Inv(s)
  {
    var acts :| Run(acts, Init()) && Final(acts, Init()) == s;
    RunKeeps(acts, Init());
  }

  /** No wakeup is lost: with the lock free and the flag raised, nobody is asleep on it. */
  lemma {:induction false} NoLostWakeup(s: State, t: nat)
    requires Reachable(s) && s.lock == None && s.core.raised
    ensures s.core.waiters == {} && PcOf(s, t) != Asleep
  {
    ReachableInv(s);
  }

  /** A clear races when it hits the flag between the two accesses of evl_read_flag. */
  ghost predicate Racing(a: Act, s: State) {
    a.Clear? && s.core.raised && HolderAt(s, Take)
  }

  ghost function Races(acts: seq<Act>, s: State): nat
    requires Run(acts, s)
    decreases acts
  {
    if acts == [] then 0 else (if Racing(acts[0], s) then 1 else 0) + Races(acts[1..], Next(acts[0], s))
  }

  lemma {:induction false} RaceCounted(a: Act, s: State)
    requires Exclusive(s) && Enabled(a, s)
    ensures Next(a, s).n.raced + Open(Next(a, s)) == s.n.raced + Open(s) + if Racing(a, s) then 1 else 0
  {
  }

  lemma {:induction false} RacesCounted(acts: seq<Act>, s: State)
    requires Inv(s) && Run(acts, s)
    ensures Final(acts, s).n.raced + Open(Final(acts, s)) == s.n.raced + Open(s) + Races(acts, s)
    decreases acts
  {
    if acts != [] {
      StepKeeps(acts[0], s);
      RaceCounted(acts[0], s);
      RacesCounted(acts[1..], Next(acts[0], s));
    }
  }

  /** Every raise is accounted for. Over any run that ends with the lock free, the raises are the
      waits that returned with the flag, the raises absorbed by a raised flag, the clears that hit
      one, and the one that is still up, except that a racing clear is counted with its reader. */
  lemma {:induction false} FlagConservation(acts: seq<Act>)
    requires Run(acts, Init()) && Final(acts, Init()).lock == None
    ensures var s := Final(acts, Init());
            && s.n.raises + Races(acts, Init())
            == s.n.got + s.n.reraises + s.n.hits + (if s.core.raised then 1 else 0)
            && s.n.got == s.n.taken <= s.n.raises
            && Races(acts, Init()) <= s.n.hits
  {
    RunKeeps(acts, Init());
    RacesCounted(acts, Init());
  }

  /** So the plain law holds exactly for the runs in which no clear races with a reader. */
  lemma {:induction false} ConservationIff(acts: seq<Act>)
    requires Run(acts, Init()) && Final(acts, Init()).lock == None
    ensures var s := Final(acts, Init());
            s.n.raises == s.n.got + s.n.reraises + s.n.hits + (if s.core.raised then 1 else 0)
            <==> Races(acts, Init()) == 0
  {
    FlagConservation(acts);
  }

  /** Who writes the flag and the wait list, and how. */
  lemma {:induction false} FlagAndListChange(a: Act, s: State, u: nat)
    requires Enabled(a, s)
    ensures Next(a, s).core.raised <==>
              || (a.Go? && PcOf(s, a.t).Set?)
              || (s.core.raised && a != Clear && !(a.Go? && PcOf(s, a.t).Take?))
    ensures u in Next(a, s).core.waiters <==>
              || (a == Go(u) && PcOf(s, u).Add?)
              || (u in s.core.waiters && !(a.Interrupt? && a.t == u) && !(a.Go? && PcOf(s, a.t).Flush?))
  {
  }

  /** What the counts stand for. */
  datatype Event = RaiseDone | RaiseAbsorbed | FlagTaken | ClearHit | FlagReturned

  ghost predicate Happens(e: Event, a: Act, s: State) {
    match e
    case RaiseDone => a.Go? && PcOf(s, a.t).Set?
    case RaiseAbsorbed => a.Go? && PcOf(s, a.t).Set? && s.core.raised
    case FlagTaken => a.Go? && PcOf(s, a.t).Take?
    case ClearHit => a.Clear? && s.core.raised
    case FlagReturned => a.Go? && PcOf(s, a.t) == Leave(Got)
  }

  ghost function Number(e: Event, acts: seq<Act>, s: State): nat
    requires Run(acts, s)
    decreases acts
  {
    if acts == [] then 0 else (if Happens(e, acts[0], s) then 1 else 0) + Number(e, acts[1..], Next(acts[0], s))
  }

  lemma {:induction false} CountsAreEvents(acts: seq<Act>, s: State)
    requires Run(acts, s)
    ensures var n := Final(acts, s).n;
            && n.raises == s.n.raises + Number(RaiseDone, acts, s)
            && n.reraises == s.n.reraises + Number(RaiseAbsorbed, acts, s)
            && n.taken == s.n.taken + Number(FlagTaken, acts, s)
            && n.hits == s.n.hits + Number(ClearHit, acts, s)
            && n.got == s.n.got + Number(FlagReturned, acts, s)
    decreases acts
  {
    if acts != [] { CountsAreEvents(acts[1..], Next(acts[0], s)); }
  }

  /** The same law said of the acts of the run instead of the counts. */
  lemma {:induction false} EventsConserved(acts: seq<Act>)
    requires Run(acts, Init()) && Final(acts, Init()).lock == None
    ensures Number(RaiseDone, acts, Init()) + Races(acts, Init())
         == Number(FlagReturned, acts, Init()) + Number(RaiseAbsorbed, acts, Init())
            + Number(ClearHit, acts, Init()) + (if Final(acts, Init()).core.raised then 1 else 0)
  {
    CountsAreEvents(acts, Init());
    FlagConservation(acts);
  }

  ghost function RaiseCalls(acts: seq<Act>): nat {
    if acts == [] then 0 else (if acts[0].CallRaise? then 1 else 0) + RaiseCalls(acts[1..])
  }

  /** The callers of evl_raise_flag that have not set the flag yet. */
  ghost function Raisers(s: State): set<nat> {
    set t | t in s.pc && (s.pc[t].WantRaise? || s.pc[t].Set?)
  }

  lemma {:induction false} RaisersChange(a: Act, s: State)
    requires Exclusive(s) && Enabled(a, s)
    ensures |Raisers(Next(a, s))|
         == |Raisers(s)| + (if a.CallRaise? then 1 else 0) - (if Happens(RaiseDone, a, s) then 1 else 0)
  {
    var r, r' := Raisers(s), Raisers(Next(a, s));
    forall u ensures u in r' <==> (u in r && !(a == Go(u) && Happens(RaiseDone, a, s))) || a == CallRaise(u) {
      RaiserChange(a, s, u);
    }
    if a.CallRaise? {
      assert r' == r + {a.t};
    } else if Happens(RaiseDone, a, s) {
      assert r' == r - {a.t};
    } else {
      assert r' == r;
    }
  }

  lemma {:induction false} RaiserChange(a: Act, s: State, u: nat)
    requires Exclusive(s) && Enabled(a, s)
    ensures u in Raisers(Next(a, s)) <==>
              (u in Raisers(s) && !(a == Go(u) && Happens(RaiseDone, a, s))) || a == CallRaise(u)
    ensures a == CallRaise(u) ==> u !in Raisers(s)
  {
  }

  /** Every call of evl_raise_flag raises the flag once, unless it has not come to that yet. */
  lemma {:induction false} EveryCallRaises(acts: seq<Act>, s: State)
    requires Inv(s) && Run(acts, s)
    ensures Number(RaiseDone, acts, s) + |Raisers(Final(acts, s))| == RaiseCalls(acts) + |Raisers(s)|
    decreases acts
  {
    if acts != [] {
      StepKeeps(acts[0], s);
      RaisersChange(acts[0], s);
      EveryCallRaises(acts[1..], Next(acts[0], s));
    }
  }

  /** What the readers may still take: the raised flag, and one read already decided. */
  ghost function Pending(s: State): nat {
    (if s.core.raised then 1 else 0) + Open(s)
  }

  lemma {:induction false} PendingGrowsByRaises(a: Act, s: State)
    requires Inv(s) && Enabled(a, s)
    ensures var s' := Next(a, s);
            s'.n.taken + Pending(s') - s.n.taken <= s'.n.raises - s.n.raises + Pending(s)
  {
  }

  /** From any state on, no run has more successful reads than raises, beyond what was pending. */
  lemma {:induction false} OneReaderPerRaise(acts: seq<Act>, s: State)
    requires Inv(s) && Run(acts, s)
    ensures Final(acts, s).n.taken + Pending(Final(acts, s)) - s.n.taken
         <= Final(acts, s).n.raises - s.n.raises + Pending(s)
    decreases acts
  {
    if acts != [] {
      StepKeeps(acts[0], s);
      PendingGrowsByRaises(acts[0], s);
      OneReaderPerRaise(acts[1..], Next(acts[0], s));
    }
  }

  lemma {:induction false} RunFirst(a: Act, acts: seq<Act>, s: State)
    requires Enabled(a, s) && Run(acts, Next(a, s))
    ensures Run([a] + acts, s) && Final([a] + acts, s) == Final(acts, Next(a, s))
  {
    assert ([a] + acts)[1..] == acts;
  }

  // ---------------------------------------------- one reader, one raiser, any run

  /** What others do to a thread in the middle of a call: nothing, or they wake it. */
  lemma {:induction false} OthersLeave(a: Act, s: State, t: nat)
    requires Exclusive(s) && Enabled(a, s) && a != Go(t) && !PcOf(s, t).Out?
    ensures PcOf(Next(a, s), t) == PcOf(s, t) || (PcOf(s, t).Asleep? && PcOf(Next(a, s), t).Awake?)
  {
    if a.Go? && PcOf(s, a.t).Flush? {
      assert PcOf(Next(a, s), t) == if t in s.core.waiters then Awake(PcOf(s, a.t).why) else PcOf(s, t);
    }
  }

  /** How many steps t takes in a run. */
  ghost function Turns(acts: seq<Act>, t: nat): nat {
    if acts == [] then 0 else (if acts[0] == Go(t) then 1 else 0) + Turns(acts[1..], t)
  }

  /** The outcome of the first wait of t that returns in a run. */
  ghost function Returned(acts: seq<Act>, s: State, t: nat): Option<Outcome>
    requires Run(acts, s)
    decreases acts
  {
    if acts == [] then None
    else if acts[0] == Go(t) && PcOf(s, t).Leave? then Some(PcOf(s, t).out)
    else Returned(acts[1..], Next(acts[0], s), t)
  }

  /** No clear comes before t has looked at the flag. */
  ghost predicate Undisturbed(acts: seq<Act>, s: State, t: nat)
    requires Run(acts, s)
    decreases acts
  {
    || acts == []
    || (acts[0] == Go(t) && PcOf(s, t).Test?)
    || (acts[0] != Clear && Undisturbed(acts[1..], Next(acts[0], s), t))
  }

  /** t holds the lock and is about to read the flag. */
  ghost predicate Reading(p: Pc) {
    p.Test? || p == Back(Plain)
  }

  /** The steps t still takes until a wait that gets the flag has returned. */
  ghost function Ahead(p: Pc): nat {
    if p == Awake(Plain) then 5
    else if p == Back(Plain) || p.Enter? then 4
    else if p.Test? then 3
    else if p.Take? then 2 else 1
  }

  /** Once the reader has seen the flag up, whatever the others do, it returns with it. */
  lemma {:induction false} TakerGetsFlag(acts: seq<Act>, s: State, t: nat)
    requires Inv(s) && Run(acts, s) && (PcOf(s, t) == Take || PcOf(s, t) == Leave(Got))
    ensures Returned(acts, s, t) == if Turns(acts, t) >= Ahead(PcOf(s, t)) then Some(Got) else None
    decreases acts
  {
    if acts != [] && !(acts[0] == Go(t) && PcOf(s, t).Leave?) {
      StepKeeps(acts[0], s);
      TakerGetsFlag(acts[1..], Next(acts[0], s), t);
    }
  }

  /** A reader that holds the lock while the flag is up returns with the flag, in every run in
      which no clear comes before it looks, and in no other way once it has taken its steps. */
  lemma {:induction false} ReaderGetsFlag(acts: seq<Act>, s: State, t: nat)
    requires Inv(s) && Run(acts, s) && s.core.raised && Reading(PcOf(s, t)) && Undisturbed(acts, s, t)
    ensures Returned(acts, s, t) == if Turns(acts, t) >= Ahead(PcOf(s, t)) then Some(Got) else None
    decreases acts
  {
    if acts != [] {
      StepKeeps(acts[0], s);
      if acts[0] == Go(t) && PcOf(s, t).Test? {
        TakerGetsFlag(acts[1..], Next(acts[0], s), t);
      } else {
        ReaderGetsFlag(acts[1..], Next(acts[0], s), t);
      }
    }
  }

  /** The arriving or woken waiter that locks first while the flag is up gets it, whatever runs in
      between, as long as nobody clears the flag before it looks. */
  lemma {:induction false} FirstComerGetsFlag(acts: seq<Act>, s: State, t: nat)
    requires Inv(s) && Run(acts, s) && s.lock == None && s.core.raised
    requires (PcOf(s, t).Enter? || PcOf(s, t) == Awake(Plain)) && acts != [] && acts[0] == Go(t)
    requires Undisturbed(acts, s, t)
    ensures Returned(acts, s, t) == if Turns(acts, t) >= Ahead(PcOf(s, t)) then Some(Got) else None
  {
    StepKeeps(acts[0], s);
    ReaderGetsFlag(acts[1..], Next(acts[0], s), t);
  }

  /** And a clear before it looks does take the flag away: a non-blocking reader returns without. */
  lemma {:induction false} ClearedReaderFails(acts: seq<Act>, s: State, t: nat)
    requires Inv(s) && Run(acts, s) && PcOf(s, t) == Test(true)
    requires !s.core.raised || !Undisturbed(acts, s, t)
    ensures Turns(acts, t) >= 2 ==> Returned(acts, s, t) == Some(Again)
    decreases acts
  {
    if acts != [] {
      StepKeeps(acts[0], s);
      if acts[0] == Go(t) {
        LeaverReturns(acts[1..], Next(acts[0], s), t);
      } else {
        ClearedReaderFails(acts[1..], Next(acts[0], s), t);
      }
    }
  }

  lemma {:induction false} LeaverReturns(acts: seq<Act>, s: State, t: nat)
    requires Inv(s) && Run(acts, s) && PcOf(s, t).Leave?
    ensures Turns(acts, t) >= 1 ==> Returned(acts, s, t) == Some(PcOf(s, t).out)
    decreases acts
  {
    if acts != [] && acts[0] != Go(t) {
      StepKeeps(acts[0], s);
      LeaverReturns(acts[1..], Next(acts[0], s), t);
    }
  }

  /** A raiser or flusher that holds the lock, on its way to dropping it, with ws asleep before. */
  ghost predicate Waking(s: State, t: nat, ws: set<nat>, why: Why) {
    match PcOf(s, t)
    case Set => why == Plain && ws <= s.core.waiters
    case Flush(w) => w == why && ws <= s.core.waiters
    case End => s.core.waiters == {} && forall u :: u in ws ==> PcOf(s, u) == Awake(why)
    case _ => false
  }

  ghost function Left(p: Pc): nat {
    if p.Set? then 2 else if p.Flush? then 1 else 0
  }

  lemma {:induction false} WakingKept(a: Act, s: State, t: nat, ws: set<nat>, why: Why)
    requires Inv(s) && Enabled(a, s) && Waking(s, t, ws, why) && (a == Go(t) ==> !PcOf(s, t).End?)
    ensures Waking(Next(a, s), t, ws, why)
    ensures Left(PcOf(Next(a, s), t)) == Left(PcOf(s, t)) - if a == Go(t) then 1 else 0
    ensures a != Clear && (s.core.raised || (a == Go(t) && PcOf(s, t).Set?)) ==> Next(a, s).core.raised
    ensures Next(a, s).n.raises == s.n.raises + if a == Go(t) && PcOf(s, t).Set? then 1 else 0
  {
    assert s.lock == Some(t);
    if a == Go(t) { OwnWaking(s, t, ws, why); }
  }

  lemma {:induction false} OwnWaking(s: State, t: nat, ws: set<nat>, why: Why)
    requires Exclusive(s) && Enabled(Go(t), s) && Waking(s, t, ws, why) && !PcOf(s, t).End?
    ensures Waking(Step(s, t), t, ws, why)
    ensures Left(PcOf(Step(s, t), t)) == Left(PcOf(s, t)) - 1
    ensures s.core.raised || PcOf(s, t).Set? ==> Step(s, t).core.raised
    ensures Step(s, t).n.raises == s.n.raises + if PcOf(s, t).Set? then 1 else 0
  {
  }

  lemma {:induction false} WakerWakes(acts: seq<Act>, s: State, t: nat, ws: set<nat>, why: Why)
    requires Inv(s) && Run(acts, s) && Waking(s, t, ws, why) && Turns(acts, t) == Left(PcOf(s, t))
    ensures Waking(Final(acts, s), t, ws, why) && PcOf(Final(acts, s), t).End?
    ensures Clear !in acts && (s.core.raised || PcOf(s, t).Set?) ==> Final(acts, s).core.raised
    ensures Final(acts, s).n.raises == s.n.raises + if PcOf(s, t).Set? then 1 else 0
    decreases acts
  {
    if acts != [] {
      StepKeeps(acts[0], s);
      assert acts[0] == Go(t) ==> Turns(acts, t) > 0;
      WakingKept(acts[0], s, t, ws, why);
      WakerWakes(acts[1..], Next(acts[0], s), t, ws, why);
    }
  }

  /** In every run that takes a raiser from setting the flag to the end of its section, whatever is
      interleaved, all who slept on the flag are off the wait list with a plain wakeup, and the flag
      is up unless somebody cleared it. */
  lemma {:induction false} RaiseWakesAll(acts: seq<Act>, s: State, t: nat)
    requires Inv(s) && Run(acts, s) && PcOf(s, t).Set? && Turns(acts, t) == 2
    ensures var s' := Final(acts, s);
            && PcOf(s', t).End? && s'.core.waiters == {}
            && (forall u :: u in s.core.waiters ==> PcOf(s', u) == Awake(Plain))
            && (Clear !in acts ==> s'.core.raised) && s'.n.raises == s.n.raises + 1
  {
    WakerWakes(acts, s, t, s.core.waiters, Plain);
  }

  /** From the lock on, in state l, t woke all who slept for the reason and left the list empty. */
  ghost predicate WokeAll(l: State, s: State, t: nat, why: Why) {
    && l.lock == None && PcOf(s, t).End? && s.core.waiters == {}
    && forall u :: u in l.core.waiters ==> PcOf(s, u) == Awake(why)
  }

  /** The waking calls: what they wait for the lock as, and why they wake. */
  ghost function Want(why: Why, raise: bool): Pc {
    if raise then WantRaise else WantFlush(why)
  }

  lemma {:induction false} LockedWakerWakes(acts: seq<Act>, s: State, t: nat, why: Why, raise: bool)
    requires Inv(s) && Run(acts, s) && (raise ==> why == Plain) && PcOf(s, t) == Want(why, raise)
    requires acts != [] && acts[0] == Go(t) && Turns(acts, t) == if raise then 3 else 2
    ensures WokeAll(s, Final(acts, s), t, why)
    ensures Final(acts, s).n.raises == s.n.raises + if raise then 1 else 0
    ensures Clear !in acts && (raise || s.core.raised) ==> Final(acts, s).core.raised
  {
    StepKeeps(acts[0], s);
    var s1 := Next(acts[0], s);
    assert s1 == Locked(s, t, if raise then Set else Flush(why));
    WakerWakes(acts[1..], s1, t, s.core.waiters, why);
  }

  /** A prefix of a run, seen from its second state and from its first. */
  lemma {:induction false} RunLonger(acts: seq<Act>, s: State, k: nat, t: nat)
    requires acts != [] && Enabled(acts[0], s) && k < |acts| && Run(acts[1..][..k], Next(acts[0], s))
    ensures Run(acts[..k + 1], s) && Final(acts[..k + 1], s) == Final(acts[1..][..k], Next(acts[0], s))
    ensures Turns(acts[..k + 1], t) == Turns(acts[1..][..k], t) + if acts[0] == Go(t) then 1 else 0
  {
    RunFirst(acts[0], acts[1..][..k], s);
    assert acts[..k + 1] == [acts[0]] + acts[1..][..k];
    assert acts[..k + 1][1..] == acts[1..][..k];
  }

  lemma {:induction false} WaitingWakerWakes(acts: seq<Act>, s: State, t: nat, why: Why, raise: bool) returns (k: nat)
    requires Inv(s) && Run(acts, s) && (raise ==> why == Plain) && PcOf(s, t) == Want(why, raise)
    requires Turns(acts, t) == if raise then 3 else 2
    ensures k < |acts| && acts[k] == Go(t) && Turns(acts[..k], t) == 0 && Run(acts[..k], s)
    ensures WokeAll(Final(acts[..k], s), Final(acts, s), t, why)
    ensures Final(acts, s).n.raises == Final(acts[..k], s).n.raises + if raise then 1 else 0
    ensures Clear !in acts && (raise || Final(acts[..k], s).core.raised) ==> Final(acts, s).core.raised
    decreases acts
  {
    StepKeeps(acts[0], s);
    if acts[0] == Go(t) {
      k := 0;
      LockedWakerWakes(acts, s, t, why, raise);
    } else {
      OthersLeave(acts[0], s, t);
      k := WaitingWakerWakes(acts[1..], Next(acts[0], s), t, why, raise);
      RunLonger(acts, s, k, t);
      k := k + 1;
    }
  }

  /** A call of evl_raise_flag, in every run that takes it to the end of its section: it sets the flag
      whoever waits, and from the moment k it takes the lock nobody is left asleep. */
  lemma {:induction false} RaiseCallWakesAll(acts: seq<Act>, s: State, t: nat) returns (k: nat)
    requires Inv(s) && Run(acts, s) && acts != [] && acts[0] == CallRaise(t) && Turns(acts, t) == 3
    ensures 0 < k < |acts| && acts[k] == Go(t) && Turns(acts[..k], t) == 0 && Run(acts[..k], s)
    ensures WokeAll(Final(acts[..k], s), Final(acts, s), t, Plain)
    ensures Final(acts, s).n.raises == Final(acts[..k], s).n.raises + 1
    ensures Clear !in acts ==> Final(acts, s).core.raised
  {
    StepKeeps(acts[0], s);
    k := WaitingWakerWakes(acts[1..], Next(acts[0], s), t, Plain, true);
    RunLonger(acts, s, k, t);
    k := k + 1;
  }

  /** A call of evl_flush_flag or evl_pulse_flag wakes everybody for its reason, and raises nothing. */
  lemma {:induction false} FlushCallWakesAll(acts: seq<Act>, s: State, t: nat, why: Why) returns (k: nat)
    requires Inv(s) && Run(acts, s) && acts != [] && acts[0] == CallFlush(t, why) && Turns(acts, t) == 2
    ensures 0 < k < |acts| && acts[k] == Go(t) && Turns(acts[..k], t) == 0 && Run(acts[..k], s)
    ensures WokeAll(Final(acts[..k], s), Final(acts, s), t, why)
    ensures Final(acts, s).n.raises == Final(acts[..k], s).n.raises
  {
    StepKeeps(acts[0], s);
    k := WaitingWakerWakes(acts[1..], Next(acts[0], s), t, why, false);
    RunLonger(acts, s, k, t);
    k := k + 1;
  }

  /** Where no thread can move, the lock is free, and whoever is stuck is asleep on a lowered flag. */
  lemma {:induction false} StuckMeansAsleep(s: State, t: nat)
    requires Reachable(s) && forall u :: !Enabled(Go(u), s)
    ensures s.lock == None
    ensures PcOf(s, t).Out? || (PcOf(s, t) == Asleep && t in s.core.waiters && !s.core.raised)
  {
    ReachableInv(s);
    assert !Enabled(Go(t), s);
    assert s.lock.Some? ==> Enabled(Go(s.lock.value), s);
  }

  // ------------------------------------------------------- from the call of a wait

  ghost predicate InWait(p: Pc) {
    p.Enter? || p.Test? || p.Take? || p.Add? || p.Asleep? || p.Awake? || p.Back? || p.Leave?
  }

  /** A blocking wait, wherever it is. */
  ghost predicate Blocking(p: Pc) {
    InWait(p) && p != Enter(true) && p != Test(true) && p != Leave(Again)
  }

  lemma {:induction false} BlockingKept(a: Act, s: State, t: nat)
    requires Exclusive(s) && Enabled(a, s) && Blocking(PcOf(s, t)) && !(a == Go(t) && PcOf(s, t).Leave?)
    ensures Blocking(PcOf(Next(a, s), t))
  {
  }

  lemma {:induction false} BlockingWaits(acts: seq<Act>, s: State, t: nat)
    requires Inv(s) && Run(acts, s) && Blocking(PcOf(s, t))
    ensures Returned(acts, s, t) != Some(Again)
    decreases acts
  {
    if acts != [] && !(acts[0] == Go(t) && PcOf(s, t).Leave?) {
      StepKeeps(acts[0], s);
      BlockingKept(acts[0], s, t);
      BlockingWaits(acts[1..], Next(acts[0], s), t);
    }
  }

  /** Only a wait that was called non-blocking returns -EAGAIN, however often others take the flag
      away from a blocking one. */
  lemma {:induction false} AgainOnlyNonblocking(acts: seq<Act>, s: State, t: nat, nonblock: bool)
    requires Inv(s) && Run(acts, s) && acts != [] && acts[0] == CallWait(t, nonblock)
    ensures Returned(acts, s, t) == Some(Again) ==> nonblock
  {
    StepKeeps(acts[0], s);
    if !nonblock { BlockingWaits(acts[1..], Next(acts[0], s), t); }
  }

  ghost predicate Polling(p: Pc) {
    p == Enter(true) || p == Test(true) || p == Take || p == Leave(Got) || p == Leave(Again)
  }

  ghost function Most(p: Pc): nat {
    if p.Enter? then 4 else if p.Test? then 3 else if p.Take? then 2 else 1
  }

  lemma {:induction false} PollStep(a: Act, s: State, t: nat)
    requires Exclusive(s) && Enabled(a, s) && Polling(PcOf(s, t)) && !(a == Go(t) && PcOf(s, t).Leave?)
    ensures Polling(PcOf(Next(a, s), t))
    ensures Most(PcOf(Next(a, s), t)) <= Most(PcOf(s, t)) - if a == Go(t) then 1 else 0
  {
    if a != Go(t) { OthersLeave(a, s, t); }
  }

  lemma {:induction false} PollReturns(acts: seq<Act>, s: State, t: nat)
    requires Inv(s) && Run(acts, s) && Polling(PcOf(s, t)) && Turns(acts, t) >= Most(PcOf(s, t))
    ensures Returned(acts, s, t) == Some(Got) || Returned(acts, s, t) == Some(Again)
    decreases acts
  {
    if acts[0] != Go(t) || !PcOf(s, t).Leave? {
      StepKeeps(acts[0], s);
      PollStep(acts[0], s, t);
      PollReturns(acts[1..], Next(acts[0], s), t);
    }
  }

  /** A non-blocking wait never sleeps: four steps of its own bring it back, with the flag or -EAGAIN. */
  lemma {:induction false} NonblockingReturns(acts: seq<Act>, s: State, t: nat)
    requires Inv(s) && Run(acts, s) && acts != [] && acts[0] == CallWait(t, true) && Turns(acts, t) >= 4
    ensures Returned(acts, s, t) == Some(Got) || Returned(acts, s, t) == Some(Again)
  {
    StepKeeps(acts[0], s);
    PollReturns(acts[1..], Next(acts[0], s), t);
  }

  /** A blocking waiter, arriving or woken, that finds the flag down, or cleared before it looks, goes
      to sleep: after its steps it sleeps or has been woken since, and has not returned. */
  lemma {:induction false} LoserSleeps(acts: seq<Act>, s: State, t: nat)
    requires Inv(s) && Run(acts, s) && (PcOf(s, t) == Test(false) || PcOf(s, t) == Back(Plain))
    requires (!s.core.raised || !Undisturbed(acts, s, t)) && Turns(acts, t) == Ahead(PcOf(s, t)) - 1
    ensures Returned(acts, s, t) == None && (PcOf(Final(acts, s), t).Asleep? || PcOf(Final(acts, s), t).Awake?)
    decreases acts
  {
    StepKeeps(acts[0], s);
    if acts[0] == Go(t) && PcOf(s, t).Test? {
      AdderSleeps(acts[1..], Next(acts[0], s), t);
    } else {
      if acts[0] != Go(t) { OthersLeave(acts[0], s, t); }
      LoserSleeps(acts[1..], Next(acts[0], s), t);
    }
  }

  lemma {:induction false} AdderSleeps(acts: seq<Act>, s: State, t: nat)
    requires Inv(s) && Run(acts, s) && (PcOf(s, t).Add? || PcOf(s, t).Asleep? || PcOf(s, t).Awake?)
    requires Turns(acts, t) == if PcOf(s, t).Add? then 1 else 0
    ensures Returned(acts, s, t) == None && (PcOf(Final(acts, s), t).Asleep? || PcOf(Final(acts, s), t).Awake?)
    decreases acts
  {
    if acts != [] {
      StepKeeps(acts[0], s);
      assert acts[0] == Go(t) ==> Turns(acts, t) > 0;
      if acts[0] != Go(t) { OthersLeave(acts[0], s, t); }
      AdderSleeps(acts[1..], Next(acts[0], s), t);
    }
  }

  /** A holder of the lock releases it after a bounded number of its own steps. */
  ghost function HoldLeft(p: Pc): nat {
    if p.Back? then 4
    else if p.Test? || p.Set? then 3
    else if p.Take? || p.Flush? then 2
    else 1
  }

  ghost predicate HeldThroughout(acts: seq<Act>, s: State, t: nat)
    requires Run(acts, s)
    decreases acts
  {
    s.lock == Some(t) && (acts == [] || HeldThroughout(acts[1..], Next(acts[0], s), t))
  }

  lemma {:induction false} SectionsEnd(acts: seq<Act>, s: State, t: nat)
    requires Inv(s) && Run(acts, s) && HeldThroughout(acts, s, t)
    ensures Turns(acts, t) < HoldLeft(PcOf(s, t))
    decreases acts
  {
    if acts != [] {
      StepKeeps(acts[0], s);
      if acts[0] != Go(t) { OthersLeave(acts[0], s, t); }
      SectionsEnd(acts[1..], Next(acts[0], s), t);
    }
  }

  // ------------------------------------------------------- how a wait ends

  /** t is asleep on the flag, and this act wakes it for the reason. */
  ghost predicate Strikes(a: Act, s: State, t: nat, why: Why) {
    || (a.Go? && PcOf(s, a.t) == Flush(why) && t in s.core.waiters)
    || a == Interrupt(t, why)
  }

  /** That happens before the wait of t returns. */
  ghost predicate Struck(acts: seq<Act>, s: State, t: nat, why: Why)
    requires Run(acts, s)
    decreases acts
  {
    && acts != []
    && !(acts[0] == Go(t) && PcOf(s, t).Leave?)
    && (Strikes(acts[0], s, t, why) || Struck(acts[1..], Next(acts[0], s), t, why))
  }

  /** t was woken for the reason already, and is on its way out. */
  ghost predicate Doomed(p: Pc, why: Why) {
    p == Awake(why) || p == Back(why) || p == Leave(Ended(why))
  }

  lemma {:induction false} StrikeDooms(a: Act, s: State, t: nat, why: Why)
    requires Exclusive(s) && Enabled(a, s) && why != Plain
    requires InWait(PcOf(s, t)) && !(a == Go(t) && PcOf(s, t).Leave?)
    ensures InWait(PcOf(Next(a, s), t))
    ensures Doomed(PcOf(Next(a, s), t), why) <==> Strikes(a, s, t, why) || Doomed(PcOf(s, t), why)
  {
    if a == Go(t) {
      OwnStepDooms(s, t, why);
    } else if a.Go? && PcOf(s, a.t).Flush? {
      FlushDooms(a.t, s, t, why);
    }
  }

  lemma {:induction false} OwnStepDooms(s: State, t: nat, why: Why)
    requires Enabled(Go(t), s) && why != Plain && InWait(PcOf(s, t)) && !PcOf(s, t).Leave?
    ensures InWait(PcOf(Step(s, t), t))
    ensures Doomed(PcOf(Step(s, t), t), why) <==> Doomed(PcOf(s, t), why)
  {
  }

  lemma {:induction false} FlushDooms(u: nat, s: State, t: nat, why: Why)
    requires Exclusive(s) && PcOf(s, u).Flush? && InWait(PcOf(s, t)) && why != Plain
    ensures InWait(PcOf(Step(s, u), t))
    ensures Doomed(PcOf(Step(s, u), t), why) <==>
              (PcOf(s, u) == Flush(why) && t in s.core.waiters) || Doomed(PcOf(s, t), why)
  {
  }

  /** How a wait ends, in every run: with the outcome of a reason other than a plain wakeup exactly
      when a flush or an interruption for that reason hit it while it slept. */
  lemma {:induction false} WaitEndsIff(acts: seq<Act>, s: State, t: nat, why: Why)
    requires Inv(s) && Run(acts, s) && InWait(PcOf(s, t)) && why != Plain
    ensures Returned(acts, s, t).Some? ==>
              (Returned(acts, s, t) == Some(Ended(why)) <==> Struck(acts, s, t, why) || Doomed(PcOf(s, t), why))
    decreases acts
  {
    if acts != [] && !(acts[0] == Go(t) && PcOf(s, t).Leave?) {
      StepKeeps(acts[0], s);
      StrikeDooms(acts[0], s, t, why);
      WaitEndsIff(acts[1..], Next(acts[0], s), t, why);
    }
  }

  /** And a waiter woken for such a reason is gone after at most three steps of its own. */
  lemma {:induction false} DoomedReturns(acts: seq<Act>, s: State, t: nat, why: Why)
    requires Inv(s) && Run(acts, s) && Doomed(PcOf(s, t), why) && why != Plain
    requires Turns(acts, t) >= if PcOf(s, t).Awake? then 3 else if PcOf(s, t).Back? then 2 else 1
    ensures Returned(acts, s, t) == Some(Ended(why))
    decreases acts
  {
    if !(acts[0] == Go(t) && PcOf(s, t).Leave?) {
      StepKeeps(acts[0], s);
      if acts[0] != Go(t) { OthersLeave(acts[0], s, t); } else { OwnStepDooms(s, t, why); }
      DoomedReturns(acts[1..], Next(acts[0], s), t, why);
    }
  }

  /** So a wait that returns 0 has come without the flag exactly when a pulse hit it asleep. */
  lemma {:induction false} ZeroWithoutFlagIff(acts: seq<Act>, s: State, t: nat)
    requires Inv(s) && Run(acts, s) && PcOf(s, t).Enter?
    requires Returned(acts, s, t).Some? && ReturnsZero(Returned(acts, s, t).value)
    ensures Returned(acts, s, t) != Some(Got) <==> Struck(acts, s, t, Bcast)
  {
    WaitEndsIff(acts, s, t, Bcast);
  }

  lemma {:induction false} RunAppend(acts: seq<Act>, s: State, a: Act)
    requires Run(acts, s) && Enabled(a, Final(acts, s))
    ensures Run(acts + [a], s) && Final(acts + [a], s) == Next(a, Final(acts, s))
    decreases acts
  {
    if acts == [] {
      assert [a][1..] == [];
    } else {
      RunAppend(acts[1..], Next(acts[0], s), a);
      assert (acts + [a])[1..] == acts[1..] + [a];
    }
  }

  lemma Extend(s: State, a: Act) returns (s': State)
    requires Reachable(s) && Enabled(a, s)
    ensures Reachable(s') && s' == Next(a, s)
  {
    var acts :| Run(acts, Init()) && Final(acts, Init()) == s;
    RunAppend(acts, Init(), a);
    s' := Next(a, s);
  }

  lemma InitReachable()
    ensures Reachable(Init())
  {
    assert Run([], Init()) && Final([], Init()) == Init();
  }

  lemma SleeperReachable() returns (s: State)
    ensures Reachable(s) && s == State(Core(false, {0}), None, map[0 := Asleep], NONE)
  {
    s := Init();
    InitReachable();
    s := Extend(s, CallWait(0, false));
    s := Extend(s, Go(0));
    s := Extend(s, Go(0));
    s := Extend(s, Go(0));
  }

  lemma PulsingReachable() returns (s: State)
    ensures Reachable(s)
    ensures s == State(Core(false, {0}), Some(1), map[0 := Asleep, 1 := Flush(Bcast)], NONE)
  {
    s := SleeperReachable();
    s := Extend(s, CallFlush(1, Bcast));
    s := Extend(s, Go(1));
  }

  lemma PulsedReachable() returns (s: State)
    ensures Reachable(s)
    ensures s == State(Core(false, {}), None, map[0 := Awake(Bcast), 1 := Out(None)], NONE)
  {
    s := PulsingReachable();
    s := Extend(s, Go(1));
    s := Extend(s, Go(1));
  }

  /** A wait that returns 0 did not necessarily read the flag: a pulse does it without any raise. */
  lemma {:induction false} PulseReturnsZero()
    ensures exists s :: Reachable(s) && s.n.raises == 0
                        && PcOf(s, 0) == Out(Some(Pulsed)) && ReturnsZero(Pulsed)
  {
    var s := PulsedReachable();
    s := Extend(s, Go(0));
    s := Extend(s, Go(0));
    s := Extend(s, Go(0));
  }

  lemma RaiserReachable() returns (s: State)
    ensures Reachable(s)
    ensures s == State(Core(true, {}), Some(0), map[0 := Flush(Plain)], NONE.(raises := 1))
  {
    s := Init();
    InitReachable();
    s := Extend(s, CallRaise(0));
    s := Extend(s, Go(0));
    s := Extend(s, Go(0));
  }

  lemma RaisedReachable() returns (s: State)
    ensures Reachable(s)
    ensures s == State(Core(true, {}), None, map[0 := Out(None)], NONE.(raises := 1))
  {
    s := RaiserReachable();
    s := Extend(s, Go(0));
    s := Extend(s, Go(0));
  }

  lemma TakerReachable() returns (s: State)
    ensures Reachable(s)
    ensures s == State(Core(true, {}), Some(1), map[0 := Out(None), 1 := Take], NONE.(raises := 1))
  {
    s := RaisedReachable();
    s := Extend(s, CallWait(1, false));
    s := Extend(s, Go(1));
    s := Extend(s, Go(1));
  }

  /** The plain conservation law does fail: one raise is both cleared and read when the clear slips
      between the two accesses of the reader. */
  lemma {:induction false} RaceHappens()
    ensures exists acts :: Run(acts, Init()) &&
              var s := Final(acts, Init());
              && s.lock == None && Races(acts, Init()) == 1
              && s.n == Counts(1, 0, 1, 1, 1, 1) && !s.core.raised
  {
    var s := TakerReachable();
    s := Extend(s, Clear);
    s := Extend(s, Go(1));
    s := Extend(s, Go(1));
    var acts :| Run(acts, Init()) && Final(acts, Init()) == s;
    RacesCounted(acts, Init());
  }

  // ------------------------------------------------------- the code of one caller

  /** What the rest of the system did to the flag between the unlock before evl_wait_schedule and
      the lock after it: the reason of the wakeup, and the flag as found. */
  datatype Wakeup = Wakeup(why: Why, raised: bool)

  /** The loop goes on after a plain wakeup that finds the flag down. */
  ghost predicate GoesOn(w: Wakeup) {
    w.why == Plain && !w.raised
  }

  class EvlFlag {
    var raised: bool
    var waiters: set<nat>

    ghost function View(): Core
      reads this
    {
      Core(raised, waiters)
    }

    /** evl_init_flag. */
    constructor ()
      ensures View() == Init().core
    {
      raised, waiters := false, {};
    }

    /** evl_read_flag. */
    method ReadFlag() returns (r: bool)
      modifies `raised
      ensures r == old(raised) && View() == Lowered(old(View()))
    {
      if raised {
        raised := false;
        return true;
      }
      return false;
    }

    /** evl_flush_flag_locked: the waiters, all to be woken with the same reason. */
    method FlushLocked() returns (woken: set<nat>)
      modifies `waiters
      ensures woken == old(waiters) && View() == Flushed(old(View()))
    {
      woken := waiters;
      waiters := {};
    }

    /** evl_raise_flag_locked. */
    method RaiseLocked() returns (woken: set<nat>)
      modifies this
      ensures woken == old(waiters) && View() == Flushed(Raised(old(View())))
    {
      raised := true;
      woken := FlushLocked();
    }

    /** evl_clear_flag. */
    method Clear()
      modifies `raised
      ensures View() == Lowered(old(View()))
    {
      raised := false;
    }

    /** evl_wait_flag_timeout by thread t, against the successive wakeups the system has for it.
        None: t is still asleep when those are used up. slept counts the sleeps. */
    method Wait(t: nat, nonblock: bool, wakeups: seq<Wakeup>) returns (out: Option<Outcome>, slept: nat)
      modifies this
      ensures slept <= |wakeups| + 1 && forall k :: 0 <= k < slept - 1 ==> GoesOn(wakeups[k])
      ensures old(raised) ==> out == Some(Got) && slept == 0 && !raised
      ensures !old(raised) && nonblock ==> out == Some(Again) && slept == 0 && !raised
      ensures !old(raised) && !nonblock ==> slept > 0 && (out == None <==> slept == |wakeups| + 1)
      ensures !old(raised) && !nonblock && slept <= |wakeups| ==>
                var w := wakeups[slept - 1];
                && !GoesOn(w)
                && raised == (w.raised && w.why != Plain)
                && out == Some(Ended(w.why))
      ensures out.Some? && out.value == Got ==> !raised
      ensures slept == 0 ==> waiters == old(waiters)
      ensures out == None ==> t in waiters
    {
      slept := 0;
      var got := ReadFlag();
      if got { return Some(Got), 0; }
      if nonblock { return Some(Again), 0; }
      while true
        invariant slept <= |wakeups| && !raised
        invariant forall k :: 0 <= k < slept ==> GoesOn(wakeups[k])
        decreases |wakeups| - slept
      {
        waiters := waiters + {t};
        slept := slept + 1;
        if slept > |wakeups| { return None, slept; }
        var w := wakeups[slept - 1];
        waiters := waiters - {t};
        raised := w.raised;
        if w.why != Plain {
          return Some(if w.why == Bcast then Pulsed else Failed(w.why)), slept;
        }
        got := ReadFlag();
        if got { return Some(Got), slept; }
      }
    }
  }
}
