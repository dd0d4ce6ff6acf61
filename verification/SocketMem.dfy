/** Receive-memory accounting of evl/net/socket.h: the limit test and the addition are two separate
    atomic accesses, and any number of parties charge and uncharge at once. */
module SocketMem {

  /** The two accesses of evl_charge_socket_rmem and the one of evl_uncharge_socket_rmem. */
  predicate Passes(count: int, max: int) {
    !(count >= max)
  }

  function Added(count: int, size: nat): int {
    count + size
  }

  function Taken(count: int, size: nat): int {
    count - size
  }

  class Socket {
    var rmemCount: int
    const rmemMax: int

    constructor (rmemMax: int)
      ensures rmemCount == 0 && this.rmemMax == rmemMax
    {
      rmemCount := 0;
      this.rmemMax := rmemMax;
    }

    /** The limit test of evl_charge_socket_rmem. */
    method Test() returns (ok: bool)
      ensures ok <==> Passes(rmemCount, rmemMax)
    {
      ok := !(rmemCount >= rmemMax);
    }

    /** evl_charge_socket_rmem run alone: what it accepts exceeds the limit by less than one size. */
    method Charge(size: nat) returns (ok: bool)
      modifies this
      ensures ok <==> Passes(old(rmemCount), rmemMax)
      ensures rmemCount == if ok then Added(old(rmemCount), size) else old(rmemCount)
      ensures ok ==> rmemCount <= rmemMax - 1 + size
    {
      ok := Test();
      if ok { rmemCount := rmemCount + size; }
    }

    /** evl_uncharge_socket_rmem; warn is the condition of its warning. */
    method Uncharge(size: nat) returns (warn: bool)
      modifies this
      ensures rmemCount == Taken(old(rmemCount), size) && warn == (rmemCount < 0)
    {
      rmemCount := rmemCount - size;
      warn := rmemCount < 0;
    }
  }

  /** A charge that passed its test is to be added, and then in force. */
  datatype State = State(count: int, max: int, adding: map<nat, nat>, charged: map<nat, nat>)

  /** A charge is named by its party. */
  datatype Step = Pass(u: nat, size: nat) | Refused | Add(u: nat) | Uncharge(u: nat)

  /** At most n parties are between their test and their addition, and sizes are at most big. */
  ghost predicate Enabled(x: Step, s: State, n: nat, big: nat) {
    match x
    case Pass(u, size) =>
      Passes(s.count, s.max) && size <= big && u !in s.adding && u !in s.charged && |s.adding| < n
    case Refused => !Passes(s.count, s.max)
    case Add(u) => u in s.adding
    case Uncharge(u) => u in s.charged
  }

  ghost function Next(x: Step, s: State, n: nat, big: nat): State
    requires Enabled(x, s, n, big)
  {
    match x
    case Pass(u, size) => s.(adding := s.adding[u := size])
    case Refused => s
    case Add(u) =>
      s.(count := Added(s.count, s.adding[u]), adding := s.adding - {u}, charged := s.charged[u := s.adding[u]])
    case Uncharge(u) => s.(count := Taken(s.count, s.charged[u]), charged := s.charged - {u})
  }

  ghost function Total(m: map<nat, nat>): nat
    decreases |m|
  {
    if m == map[] then 0
    else
      var u :| u in m;
      m[u] + Total(m - {u})
  }

  lemma {:induction false} TotalWithout(m: map<nat, nat>, u: nat)
    requires u in m
    ensures Total(m) == m[u] + Total(m - {u})
    decreases |m|
  {
    var v :| v in m && Total(m) == m[v] + Total(m - {v});
    if v != u {
      TotalWithout(m - {v}, u);
      TotalWithout(m - {u}, v);
      assert m - {v} - {u} == m - {u} - {v};
    }
  }

  lemma TotalWith(m: map<nat, nat>, u: nat, size: nat)
    requires u !in m
    ensures Total(m[u := size]) == Total(m) + size
  {
    TotalWithout(m[u := size], u);
    assert m[u := size] - {u} == m;
  }

  /** k sizes of the largest kind. */
  ghost function Times(k: nat, big: nat): nat {
    if k == 0 then 0 else big + Times(k - 1, big)
  }

  ghost predicate Inv(s: State, n: nat, big: nat) {
    && s.count == Total(s.charged)
    && |s.adding| <= n
    && (forall u :: u in s.adding ==> s.adding[u] <= big && u !in s.charged)
    && (s.count != 0 || s.adding != map[] ==> s.count + Times(|s.adding|, big) <= s.max - 1 + Times(n, big))
  }

  lemma {:induction false} TimesGrows(k: nat, n: nat, big: nat)
    requires k <= n
    ensures Times(k, big) <= Times(n, big)
    decreases n
  {
    if k < n { TimesGrows(k, n - 1, big); }
  }

  lemma {:induction false} TimesIsProduct(k: nat, big: nat)
    ensures Times(k, big) == k * big
  {
    if k > 0 {
      TimesIsProduct(k - 1, big);
      assert k * big == (k - 1) * big + big;
    }
  }

  lemma {:induction false} PassKeeps(u: nat, size: nat, s: State, n: nat, big: nat)
    requires Inv(s, n, big) && Enabled(Pass(u, size), s, n, big)
    ensures Inv(Next(Pass(u, size), s, n, big), n, big)
  {
    assert |s.adding[u := size]| == |s.adding| + 1;
    TimesGrows(|s.adding| + 1, n, big);
  }

  lemma {:induction false} AddKeeps(u: nat, s: State, n: nat, big: nat)
    requires Inv(s, n, big) && u in s.adding
    ensures Inv(Next(Add(u), s, n, big), n, big)
  {
    TotalWith(s.charged, u, s.adding[u]);
    assert |s.adding - {u}| == |s.adding| - 1;
  }

  lemma {:induction false} StepKeeps(x: Step, s: State, n: nat, big: nat)
    requires Inv(s, n, big) && Enabled(x, s, n, big)
    ensures Inv(Next(x, s, n, big), n, big)
  {
    match x
    case Pass(u, size) => PassKeeps(u, size, s, n, big);
    case Refused =>
    case Add(u) => AddKeeps(u, s, n, big);
    case Uncharge(u) => TotalWithout(s.charged, u);
  }

  ghost predicate Run(steps: seq<Step>, s: State, n: nat, big: nat)
    decreases steps
  {
    steps == [] || (Enabled(steps[0], s, n, big) && Run(steps[1..], Next(steps[0], s, n, big), n, big))
  }

  ghost function Final(steps: seq<Step>, s: State, n: nat, big: nat): State
    requires Run(steps, s, n, big)
    decreases steps
  {
    if steps == [] then s else Final(steps[1..], Next(steps[0], s, n, big), n, big)
  }

  lemma {:induction false} RunKeeps(steps: seq<Step>, s: State, n: nat, big: nat)
    requires Inv(s, n, big) && Run(steps, s, n, big)
    ensures Inv(Final(steps, s, n, big), n, big)
    decreases steps
  {
    if steps != [] {
      StepKeeps(steps[0], s, n, big);
      RunKeeps(steps[1..], Next(steps[0], s, n, big), n, big);
    }
  }

  /** The counter is the sum of the charges in force, never negative, and beyond the limit by less
      than n sizes when n parties can be between their two accesses. */
  lemma {:induction false} MemoryBound(steps: seq<Step>, max: int, n: nat, big: nat)
    requires Run(steps, State(0, max, map[], map[]), n, big)
    ensures var s := Final(steps, State(0, max, map[], map[]), n, big);
            && s.count == Total(s.charged) && s.count >= 0
            && (s.count == 0 || s.count <= max - 1 + n * big)
  {
    var s := State(0, max, map[], map[]);
    RunKeeps(steps, s, n, big);
    var s' := Final(steps, s, n, big);
    MaxKept(steps, s, n, big);
    TimesIsProduct(n, big);
  }

  lemma {:induction false} MaxKept(steps: seq<Step>, s: State, n: nat, big: nat)
    requires Run(steps, s, n, big)
    ensures Final(steps, s, n, big).max == s.max
    decreases steps
  {
    if steps != [] { MaxKept(steps[1..], Next(steps[0], s, n, big), n, big); }
  }

  // ------------------------------------------------------------- giving back

  /** Charging and uncharging leaves nothing behind, whatever else is charged or under way. */
  lemma {:induction false} UnchargeUndoes(u: nat, size: nat, s: State, n: nat, big: nat)
    requires s.count < s.max && size <= big && u !in s.adding && u !in s.charged && |s.adding| < n
    ensures var steps := [Pass(u, size), Add(u), Uncharge(u)];
            Run(steps, s, n, big) && Final(steps, s, n, big) == s
  {
    var steps := [Pass(u, size), Add(u), Uncharge(u)];
    var s1 := Next(Pass(u, size), s, n, big);
    var s2 := Next(Add(u), s1, n, big);
    assert s2.charged[u] == size && s2.adding == s.adding;
    var s3 := Next(Uncharge(u), s2, n, big);
    assert s3.charged == s.charged && s3 == s;
    assert steps[1..] == [Add(u), Uncharge(u)] && steps[1..][1..] == [Uncharge(u)] && steps[1..][1..][1..] == [];
    assert Run([], s3, n, big) && Final([], s3, n, big) == s3;
    RunFirst(Uncharge(u), [Uncharge(u)], s2, n, big);
    RunFirst(Add(u), [Add(u), Uncharge(u)], s1, n, big);
    RunFirst(Pass(u, size), steps, s, n, big);
  }

  /** Nobody can charge at or beyond the limit; the attempt changes nothing. */
  lemma RefusedAtLimit(s: State, n: nat, big: nat)
    ensures Enabled(Refused, s, n, big) <==> s.count >= s.max
    ensures Enabled(Refused, s, n, big) ==>
              Next(Refused, s, n, big) == s && forall u, size :: !Enabled(Pass(u, size), s, n, big)
  {
  }

  // ------------------------------------------------------- the bound is reached

  /** Parties lo to hi - 1 all pass their test, then add one after the other. */
  ghost function PassAll(lo: nat, hi: nat, big: nat): seq<Step>
    decreases hi - lo
  {
    if lo >= hi then [] else [Pass(lo, big)] + PassAll(lo + 1, hi, big)
  }

  ghost function AddAll(lo: nat, hi: nat): seq<Step>
    decreases hi - lo
  {
    if lo >= hi then [] else [Add(lo)] + AddAll(lo + 1, hi)
  }

  lemma {:induction false} RunConcat(a: seq<Step>, b: seq<Step>, s: State, n: nat, big: nat)
    requires Run(a, s, n, big) && Run(b, Final(a, s, n, big), n, big)
    ensures Run(a + b, s, n, big) && Final(a + b, s, n, big) == Final(b, Final(a, s, n, big), n, big)
    decreases a
  {
    if a == [] {
      assert a + b == b;
    } else {
      assert (a + b)[0] == a[0] && (a + b)[1..] == a[1..] + b;
      RunConcat(a[1..], b, Next(a[0], s, n, big), n, big);
    }
  }

  ghost function Batch(lo: nat, hi: nat, big: nat): (m: map<nat, nat>)
    ensures forall u :: u in m <==> lo <= u < hi
    ensures forall u :: u in m ==> m[u] == big
  {
    if lo >= hi then map[] else Batch(lo, hi - 1, big)[hi - 1 := big]
  }

  lemma {:induction false} RunFirst(x: Step, steps: seq<Step>, s: State, n: nat, big: nat)
    requires steps != [] && steps[0] == x && Enabled(x, s, n, big) && Run(steps[1..], Next(x, s, n, big), n, big)
    ensures Run(steps, s, n, big) && Final(steps, s, n, big) == Final(steps[1..], Next(x, s, n, big), n, big)
  {
  }

  lemma {:induction false} PassAllRuns(first: nat, lo: nat, n: nat, s: State, big: nat)
    requires first <= lo <= first + n && s.count < s.max && s.adding == Batch(first, lo, big)
    requires |s.adding| == lo - first && forall u :: u in s.charged ==> u < first
    ensures Run(PassAll(lo, first + n, big), s, n, big)
    ensures Final(PassAll(lo, first + n, big), s, n, big) == s.(adding := Batch(first, first + n, big))
    decreases first + n - lo
  {
    if lo < first + n {
      var s1 := Next(Pass(lo, big), s, n, big);
      assert s1.adding == Batch(first, lo + 1, big) && |s1.adding| == |s.adding| + 1;
      PassAllRuns(first, lo + 1, n, s1, big);
      assert PassAll(lo, first + n, big)[1..] == PassAll(lo + 1, first + n, big);
      RunFirst(Pass(lo, big), PassAll(lo, first + n, big), s, n, big);
    }
  }

  lemma {:induction false} AddAllRuns(lo: nat, hi: nat, s: State, n: nat, big: nat)
    requires lo <= hi
    requires forall u :: lo <= u < hi ==> u in s.adding && s.adding[u] == big
    ensures Run(AddAll(lo, hi), s, n, big)
    ensures Final(AddAll(lo, hi), s, n, big).count == s.count + Times(hi - lo, big)
    decreases hi - lo
  {
    if lo < hi {
      AddAllRuns(lo + 1, hi, Next(Add(lo), s, n, big), n, big);
      assert AddAll(lo, hi)[1..] == AddAll(lo + 1, hi);
      RunFirst(Add(lo), AddAll(lo, hi), s, n, big);
    }
  }

  /** A charge run alone. */
  lemma ChargeOne(u: nat, size: nat, s: State, n: nat, big: nat)
    requires n > 0 && size <= big && s.count < s.max && s.adding == map[] && u !in s.charged
    ensures Run([Pass(u, size), Add(u)], s, n, big)
    ensures Final([Pass(u, size), Add(u)], s, n, big)
         == s.(count := s.count + size, charged := s.charged[u := size])
  {
    var s1 := Next(Pass(u, size), s, n, big);
    var s2 := Next(Add(u), s1, n, big);
    assert s2.adding == map[] && Run([], s2, n, big) && Final([], s2, n, big) == s2;
    assert [Add(u)][1..] == [] && [Pass(u, size), Add(u)][1..] == [Add(u)];
    RunFirst(Add(u), [Add(u)], s1, n, big);
    RunFirst(Pass(u, size), [Pass(u, size), Add(u)], s, n, big);
  }

  /** Charges of any allowed size fill the counter to any value below the limit. */
  lemma {:induction false} FillTo(v: nat, max: int, n: nat, big: nat) returns (steps: seq<Step>, s: State, u: nat)
    requires n > 0 && big > 0 && v < max
    ensures Run(steps, State(0, max, map[], map[]), n, big) && Final(steps, State(0, max, map[], map[]), n, big) == s
    ensures s.count == v && s.max == max && s.adding == map[] && forall k :: k in s.charged ==> k < u
    decreases v
  {
    var s0 := State(0, max, map[], map[]);
    if v == 0 {
      steps, s, u := [], s0, 0;
    } else {
      var size := if v < big then v else big;
      steps, s, u := FillTo(v - size, max, n, big);
      ChargeOne(u, size, s, n, big);
      RunConcat(steps, [Pass(u, size), Add(u)], s0, n, big);
      steps := steps + [Pass(u, size), Add(u)];
      s, u := s.(count := v, charged := s.charged[u := size]), u + 1;
    }
  }

  /** n parties pass their test together, then all add the largest size. */
  lemma {:induction false} Burst(u: nat, s: State, n: nat, big: nat) returns (steps: seq<Step>)
    requires s.count < s.max && s.adding == map[] && forall k :: k in s.charged ==> k < u
    ensures Run(steps, s, n, big) && Final(steps, s, n, big).count == s.count + Times(n, big)
  {
    var pass, add := PassAll(u, u + n, big), AddAll(u, u + n);
    PassAllRuns(u, u, n, s, big);
    var s1 := s.(adding := Batch(u, u + n, big));
    AddAllRuns(u, u + n, s1, n, big);
    RunConcat(pass, add, s, n, big);
    steps := pass + add;
    assert Final(steps, s, n, big) == Final(add, s1, n, big);
  }

  /** The bound cannot be improved, whatever the limit and the largest size: n parties that all see
      the counter one below the limit and then all add the largest size take it exactly there. */
  lemma {:induction false} BoundReached(max: int, n: nat, big: nat)
    requires n > 0 && big > 0 && max > 0
    ensures exists steps :: Run(steps, State(0, max, map[], map[]), n, big)
              && Final(steps, State(0, max, map[], map[]), n, big).count == max - 1 + n * big
  {
    var fill, s, u := FillTo(max - 1, max, n, big);
    var burst := Burst(u, s, n, big);
    RunConcat(fill, burst, State(0, max, map[], map[]), n, big);
    TimesIsProduct(n, big);
  }
}
