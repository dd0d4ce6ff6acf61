/** The dates of a periodic timer in 64-bit arithmetic as the C code performs it: signed ktime_t
    dates, unsigned tick counts and gravities, and every sum reduced to one machine word. */
module TimerDate {

  const WORD := 0x1_0000_0000_0000_0000
  const HALF := 0x8000_0000_0000_0000

  /** Conversion to u64. */
  function U64(x: int): (r: int)
    ensures 0 <= r < WORD
  {
    x % WORD
  }

  /** Conversion to s64, ktime_t. */
  function S64(x: int): (r: int)
    ensures -HALF <= r < HALF
  {
    if U64(x) < HALF then U64(x) else U64(x) - WORD
  }

  ghost predicate FitsS64(x: int) {
    -HALF <= x < HALF
  }

  predicate FitsU64(x: int) {
    0 <= x < WORD
  }

  /** struct evl_clock_gravity, three ktime_t values. */
  datatype Gravity = Gravity(irq: int, kernel: int, user: int)

  const TIMER_DEQUEUED: bv32 := 0x01
  const TIMER_KGRAVITY: bv32 := 0x40
  const TIMER_UGRAVITY: bv32 := 0x80

  /** evl_get_timer_gravity: a ktime_t returned as an unsigned long. */
  function TimerGravity(status: bv32, g: Gravity): (r: int)
    ensures FitsU64(r)
  {
    if status & TIMER_KGRAVITY != 0 then U64(g.kernel)
    else if status & TIMER_UGRAVITY != 0 then U64(g.user)
    else U64(g.irq)
  }

  /** The gravity of a timer is the one of the context that waits for it, kernel before user. */
  lemma GravityOfContext(status: bv32, g: Gravity)
    ensures status & TIMER_KGRAVITY != 0 ==> TimerGravity(status, g) == U64(g.kernel)
    ensures status & TIMER_KGRAVITY == 0 && status & TIMER_UGRAVITY != 0 ==> TimerGravity(status, g) == U64(g.user)
    ensures status & (TIMER_KGRAVITY | TIMER_UGRAVITY) == 0 ==> TimerGravity(status, g) == U64(g.irq)
  {
    assert status & (TIMER_KGRAVITY | TIMER_UGRAVITY) == 0 ==>
        status & TIMER_KGRAVITY == 0 && status & TIMER_UGRAVITY == 0;
  }

  /** evl_update_timer_date: the anticipated date. */
  function UpdatedDate(start: int, ticks: int, interval: int, gravity: int): int {
    S64(U64(start) + U64(U64(ticks * U64(interval)) - gravity))
  }

  /** evl_get_timer_expiry: the ideal date. */
  function Expiry(date: int, gravity: int): int {
    S64(U64(date) + gravity)
  }

  /** A word determines a number up to multiples of its size. */
  lemma Wraps(x: int, k: int)
    ensures U64(x + k * WORD) == U64(x) && S64(x + k * WORD) == S64(x)
  {
  }

  lemma WordOf(x: int) returns (k: int)
    ensures U64(x) == x + k * WORD
  {
    k := -(x / WORD);
  }

  lemma SignedOf(x: int) returns (k: int)
    ensures S64(x) == x + k * WORD
  {
    k := WordOf(x);
    if U64(x) >= HALF { k := k - 1; }
  }

  lemma S64Id(x: int)
    ensures S64(x) == x <==> FitsS64(x)
  {
  }

  /** The product of the C code and the exact one are the same word. */
  lemma ProductWord(ticks: int, interval: int) returns (k: int)
    ensures U64(ticks * U64(interval)) == ticks * interval + k * WORD
  {
    var i := WordOf(interval);
    assert ticks * U64(interval) == ticks * interval + (ticks * i) * WORD;
    var j := WordOf(ticks * U64(interval));
    k := ticks * i + j;
  }

  /** Whatever the gravity, and even where its subtraction underflows, the expiry after an update is
      the start date plus the elapsed periods, as one word. */
  lemma {:induction false} ExpiryIsDriftFree(start: int, ticks: int, interval: int, gravity: int)
    ensures Expiry(UpdatedDate(start, ticks, interval, gravity), gravity) == S64(start + ticks * interval)
  {
    var a := WordOf(start);
    var b := ProductWord(ticks, interval);
    var c := WordOf(U64(ticks * U64(interval)) - gravity);
    var sum := U64(start) + U64(U64(ticks * U64(interval)) - gravity);
    var d := SignedOf(sum);
    var date := UpdatedDate(start, ticks, interval, gravity);
    var e := WordOf(date);
    assert U64(date) + gravity == start + ticks * interval + (a + b + c + d + e) * WORD;
    Wraps(start + ticks * interval, a + b + c + d + e);
  }

  /** The expiry is exact if and only if the ideal date fits a ktime_t. */
  lemma {:induction false} ExpiryExactIff(start: int, ticks: int, interval: int, gravity: int)
    ensures Expiry(UpdatedDate(start, ticks, interval, gravity), gravity) == start + ticks * interval
       <==> FitsS64(start + ticks * interval)
  {
    ExpiryIsDriftFree(start, ticks, interval, gravity);
    S64Id(start + ticks * interval);
  }

  /** Consecutive expiries are one interval apart, modulo the word, and exactly so whenever both fit. */
  lemma {:induction false} OneIntervalApart(start: int, ticks: int, interval: int, gravity: int)
    ensures var e0 := Expiry(UpdatedDate(start, ticks, interval, gravity), gravity);
            var e1 := Expiry(UpdatedDate(start, ticks + 1, interval, gravity), gravity);
            && e1 == S64(e0 + interval)
            && (FitsS64(start + ticks * interval) && FitsS64(start + (ticks + 1) * interval) ==> e1 - e0 == interval)
  {
    ExpiryIsDriftFree(start, ticks, interval, gravity);
    ExpiryIsDriftFree(start, ticks + 1, interval, gravity);
    assert (ticks + 1) * interval == ticks * interval + interval;
    var k := SignedOf(start + ticks * interval);
    Wraps(start + (ticks + 1) * interval, k);
    S64Id(start + ticks * interval);
    S64Id(start + (ticks + 1) * interval);
  }

  /** The anticipated date precedes the ideal one by the (signed) gravity of the clock exactly when
      it fits a ktime_t. */
  lemma {:induction false} AnticipationExactIff(start: int, ticks: int, interval: int, gravity: int)
    ensures UpdatedDate(start, ticks, interval, U64(gravity)) == start + ticks * interval - gravity
       <==> FitsS64(start + ticks * interval - gravity)
  {
    var a := WordOf(start);
    var b := ProductWord(ticks, interval);
    var g := WordOf(gravity);
    var c := WordOf(U64(ticks * U64(interval)) - U64(gravity));
    var exact := start + ticks * interval - gravity;
    assert U64(start) + U64(U64(ticks * U64(interval)) - U64(gravity)) == exact + (a + b + c - g) * WORD;
    Wraps(exact, a + b + c - g);
    S64Id(exact);
  }

  /** The latency a timer with these status bits is anticipated by. */
  ghost function Latency(status: bv32, g: Gravity): int {
    if status & TIMER_KGRAVITY != 0 then g.kernel
    else if status & TIMER_UGRAVITY == 0 then g.irq
    else g.user
  }

  /** A timer waits for its ideal date minus the latency of its context, if and only if that fits. */
  lemma {:induction false} DatedByItsContext(start: int, ticks: int, interval: int, status: bv32, g: Gravity)
    ensures UpdatedDate(start, ticks, interval, TimerGravity(status, g))
         == start + ticks * interval - Latency(status, g)
       <==> FitsS64(start + ticks * interval - Latency(status, g))
  {
    GravityOfContext(status, g);
    AnticipationExactIff(start, ticks, interval, Latency(status, g));
  }
}
