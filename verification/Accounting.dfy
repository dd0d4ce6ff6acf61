/** Run-time accounting of evl/stat.h: every instant between two account switches of a runqueue goes
    to one account, is dropped by a close, or is erased by a reset. */
module Accounting {

  class Account {
    var start: int
    var total: int

    constructor ()
      ensures start == 0 && total == 0
    {
      start, total := 0, 0;
    }

    /** evl_reset_account at date now. */
    method Reset(now: int)
      modifies this
      ensures total == 0 && start == now
    {
      total := 0;
      start := now;
    }
  }

  /** The accounts in use, which one is current, and the date of the last switch. */
  datatype Books = Books(totals: seq<int>, starts: seq<int>, current: nat, last: int)

  ghost predicate Sound(b: Books) {
    |b.totals| == |b.starts| && b.current < |b.totals|
  }

  ghost function Updated(b: Books, now: int): Books
    requires Sound(b)
  {
    b.(totals := b.totals[b.current := b.totals[b.current] + now - b.last], last := now)
  }

  ghost function ResetTo(b: Books, i: nat, now: int): Books
    requires Sound(b) && i < |b.totals|
  {
    b.(totals := b.totals[i := 0], starts := b.starts[i := now])
  }

  /** The accounting fields of struct evl_rq. */
  class RunQueue {
    var lastSwitch: int
    var current: Account
    const accounts: seq<Account>

    constructor (accounts: seq<Account>, first: nat, now: int)
      requires first < |accounts| && forall i, j :: 0 <= i < j < |accounts| ==> accounts[i] != accounts[j]
      ensures Valid() && this.accounts == accounts && current == accounts[first] && lastSwitch == now
    {
      this.accounts, current, lastSwitch := accounts, accounts[first], now;
    }

    ghost predicate Valid()
      reads this
    {
      current in accounts && forall i, j :: 0 <= i < j < |accounts| ==> accounts[i] != accounts[j]
    }

    ghost predicate Shows(b: Books)
      reads this, accounts
    {
      && |b.totals| == |b.starts| == |accounts|
      && (forall i :: 0 <= i < |accounts| ==> b.totals[i] == accounts[i].total && b.starts[i] == accounts[i].start)
      && b.current < |accounts| && accounts[b.current] == current
      && b.last == lastSwitch
    }

    /** evl_update_account. */
    method Update(now: int, ghost b: Books)
      requires Valid() && Shows(b)
      modifies `lastSwitch, current`total
      ensures Valid() && Shows(Updated(b, now))
    {
      current.total := current.total + (now - lastSwitch);
      lastSwitch := now;
    }

    /** evl_set_current_account. */
    method SetCurrent(i: nat, ghost b: Books) returns (prev: Account)
      requires Valid() && Shows(b) && i < |accounts|
      modifies `current
      ensures Valid() && Shows(b.(current := i)) && prev == old(current)
    {
      prev := current;
      current := accounts[i];
    }

    /** evl_switch_account. */
    method Switch(now: int, i: nat, ghost b: Books) returns (prev: Account)
      requires Valid() && Shows(b) && i < |accounts|
      modifies `lastSwitch, `current, current`total
      ensures Valid() && Shows(Updated(b, now).(current := i)) && prev == old(current)
    {
      Update(now, b);
      prev := SetCurrent(i, Updated(b, now));
    }

    /** evl_reset_account on one of the accounts; the runqueue is left alone. */
    method ResetAccount(i: nat, now: int, ghost b: Books)
      requires Valid() && Shows(b) && i < |accounts|
      modifies accounts[i]
      ensures Valid() && Shows(ResetTo(b, i, now))
    {
      accounts[i].Reset(now);
    }

    /** evl_close_account. */
    method Close(now: int, i: nat, ghost b: Books)
      requires Valid() && Shows(b) && i < |accounts|
      modifies `lastSwitch, `current
      ensures Valid() && Shows(b.(current := i, last := now))
    {
      lastSwitch := now;
      current := accounts[i];
    }
  }

  // ---------------------------------------------------------------- conservation

  datatype Op = Update(now: int) | Switch(now: int, i: nat) | Close(now: int, i: nat) | Reset(now: int, i: nat)

  /** The books, with the time closes dropped, the totals resets erased and the clock. */
  datatype Ledger = Ledger(b: Books, dropped: int, erased: int, clock: int)

  ghost function Sum(s: seq<int>): int {
    if s == [] then 0 else s[0] + Sum(s[1..])
  }

  lemma {:induction false} SumUpdate(s: seq<int>, i: nat, v: int)
    requires i < |s|
    ensures Sum(s[i := v]) == Sum(s) - s[i] + v
  {
    if i == 0 {
      assert s[i := v][1..] == s[1..];
    } else {
      SumUpdate(s[1..], i - 1, v);
      assert s[i := v][1..] == s[1..][i - 1 := v];
    }
  }

  /** The clock of the operations is monotone, and accounts are known ones. */
  ghost predicate Enabled(op: Op, l: Ledger) {
    op.now >= l.clock && (!op.Update? ==> op.i < |l.b.totals|)
  }

  ghost function Next(op: Op, l: Ledger): Ledger
    requires Sound(l.b) && Enabled(op, l)
  {
    match op
    case Update(now) => l.(b := Updated(l.b, now), clock := now)
    case Switch(now, i) => l.(b := Updated(l.b, now).(current := i), clock := now)
    case Close(now, i) => l.(b := l.b.(current := i, last := now), dropped := l.dropped + now - l.b.last, clock := now)
    case Reset(now, i) => l.(b := ResetTo(l.b, i, now), erased := l.erased + l.b.totals[i], clock := now)
  }

  ghost predicate Run(ops: seq<Op>, l: Ledger)
    requires Sound(l.b)
    decreases ops
  {
    ops == [] || (Enabled(ops[0], l) && Run(ops[1..], Next(ops[0], l)))
  }

  ghost function Final(ops: seq<Op>, l: Ledger): Ledger
    requires Sound(l.b) && Run(ops, l)
    decreases ops
  {
    if ops == [] then l else Final(ops[1..], Next(ops[0], l))
  }

  ghost predicate Balanced(l: Ledger, begin: int) {
    Sound(l.b) && Sum(l.b.totals) + l.dropped + l.erased == l.b.last - begin
  }

  /** Time is conserved: over any run all accounts together hold the time from its beginning to the
      last switch, minus what closes dropped and what resets erased. */
  lemma {:induction false} TimeConserved(ops: seq<Op>, l: Ledger, begin: int)
    requires Balanced(l, begin) && Run(ops, l)
    ensures Balanced(Final(ops, l), begin)
    decreases ops
  {
    if ops != [] {
      match ops[0] {
        case Update(now) => SumUpdate(l.b.totals, l.b.current, l.b.totals[l.b.current] + now - l.b.last);
        case Switch(now, i) => SumUpdate(l.b.totals, l.b.current, l.b.totals[l.b.current] + now - l.b.last);
        case Close(now, i) =>
        case Reset(now, i) => SumUpdate(l.b.totals, i, 0);
      }
      TimeConserved(ops[1..], Next(ops[0], l), begin);
    }
  }

  // ---------------------------------------------------- each account gets its own

  /** The date of the last switch before the k-th operation of a run. */
  ghost function DateBefore(ops: seq<Op>, k: nat, l: Ledger): int
    requires k <= |ops|
  {
    if k == 0 then l.b.last else if ops[k - 1].Reset? then DateBefore(ops, k - 1, l) else ops[k - 1].now
  }

  /** The account that is current before the k-th operation: the last one switched or closed to. */
  ghost function CurrentBefore(ops: seq<Op>, k: nat, l: Ledger): nat
    requires k <= |ops|
  {
    if k == 0 then l.b.current
    else if ops[k - 1].Switch? || ops[k - 1].Close? then ops[k - 1].i
    else CurrentBefore(ops, k - 1, l)
  }

  /** What the first k operations charge to account i since it was last reset: for each update and
      switch while it is current, the time since the switch before. */
  ghost function Earned(ops: seq<Op>, k: nat, l: Ledger, i: nat): int
    requires k <= |ops| && i < |l.b.totals|
  {
    if k == 0 then l.b.totals[i]
    else
      var op := ops[k - 1];
      if op.Reset? && op.i == i then 0
      else if (op.Update? || op.Switch?) && CurrentBefore(ops, k - 1, l) == i
      then Earned(ops, k - 1, l, i) + (op.now - DateBefore(ops, k - 1, l))
      else Earned(ops, k - 1, l, i)
  }

  /** The date account i was last reset. */
  ghost function StartBefore(ops: seq<Op>, k: nat, l: Ledger, i: nat): int
    requires k <= |ops| && i < |l.b.starts|
  {
    if k == 0 then l.b.starts[i]
    else if ops[k - 1].Reset? && ops[k - 1].i == i then ops[k - 1].now
    else StartBefore(ops, k - 1, l, i)
  }

  lemma {:induction false} RunPrefix(ops: seq<Op>, k: nat, l: Ledger)
    requires Sound(l.b) && Run(ops, l) && k < |ops|
    ensures Run(ops[..k], l) && Sound(Final(ops[..k], l).b) && Enabled(ops[k], Final(ops[..k], l))
    ensures Run(ops[..k + 1], l) && Final(ops[..k + 1], l) == Next(ops[k], Final(ops[..k], l))
    decreases ops
  {
    if k == 0 {
      assert ops[..0] == [] && ops[..1][1..] == [];
    } else {
      RunPrefix(ops[1..], k - 1, Next(ops[0], l));
      assert ops[..k][1..] == ops[1..][..k - 1] && ops[..k + 1][1..] == ops[1..][..k];
    }
  }

  /** Every account holds exactly the time it was current, slice by slice, since its last reset; the
      slices are cut by updates, switches and closes, and the current account is the last chosen. */
  lemma {:induction false} EachGetsItsOwn(ops: seq<Op>, k: nat, l: Ledger, i: nat)
    requires Sound(l.b) && Run(ops, l) && k <= |ops| && i < |l.b.totals|
    ensures Run(ops[..k], l)
    ensures var b := Final(ops[..k], l).b;
            && Sound(b) && |b.totals| == |l.b.totals|
            && b.totals[i] == Earned(ops, k, l, i) && b.starts[i] == StartBefore(ops, k, l, i)
            && b.last == DateBefore(ops, k, l) && b.current == CurrentBefore(ops, k, l)
    decreases k
  {
    if k > 0 {
      EachGetsItsOwn(ops, k - 1, l, i);
      RunPrefix(ops, k - 1, l);
    } else {
      assert ops[..0] == [];
    }
  }

  // ------------------------------------------------- no account exceeds its own age

  ghost function Age(b: Books, i: nat): int
    requires Sound(b) && i < |b.starts|
  {
    if b.starts[i] <= b.last then b.last - b.starts[i] else 0
  }

  /** No total exceeds the time since the account was started. */
  ghost predicate Plausible(l: Ledger) {
    && Sound(l.b) && l.b.last <= l.clock
    && l.b.starts[l.b.current] <= l.b.last
    && (forall i :: 0 <= i < |l.b.starts| ==> l.b.starts[i] <= l.clock && l.b.totals[i] <= Age(l.b, i))
  }

  /** A reset is harmless unless it hits the current account in the middle of its slice. */
  ghost predicate Harmless(op: Op, l: Ledger) {
    op.Reset? ==> op.i != l.b.current || op.now == l.b.last
  }

  lemma {:induction false} HarmlessKeeps(op: Op, l: Ledger)
    requires Plausible(l) && Enabled(op, l) && Harmless(op, l)
    ensures Plausible(Next(op, l))
  {
  }

  /** Whether a reset is harmless is exactly whether the next update leaves every total plausible:
      an account reset in the middle of its slice is charged for time before its own start. */
  lemma {:induction false} ResetSafeIff(now: int, i: nat, l: Ledger)
    requires Plausible(l) && Enabled(Reset(now, i), l)
    ensures (forall n :: n >= now ==> Plausible(Next(Update(n), Next(Reset(now, i), l))))
       <==> Harmless(Reset(now, i), l)
  {
    var l' := Next(Reset(now, i), l);
    if Harmless(Reset(now, i), l) {
      HarmlessKeeps(Reset(now, i), l);
      forall n | n >= now ensures Plausible(Next(Update(n), l')) {
        HarmlessKeeps(Update(n), l');
      }
    } else {
      var l2 := Next(Update(now), l');
      assert l2.b.totals[i] > 0 && Age(l2.b, i) == 0;
      assert !Plausible(l2);
    }
  }

  /** The failure is real: the only account, reset after running for a while, is charged at the next
      update for all that time, although its own start date is the present. */
  lemma {:induction false} ResetOvercharges(ran: nat)
    requires ran > 0
    ensures var l, ops := Ledger(Books([0], [0], 0, 0), 0, 0, 0), [Reset(ran, 0), Update(ran)];
            && Plausible(l) && Run(ops, l) && !Plausible(Final(ops, l))
            && Final(ops, l).b == Books([ran], [ran], 0, ran)
  {
    var l := Ledger(Books([0], [0], 0, 0), 0, 0, 0);
    var ops := [Reset(ran, 0), Update(ran)];
    var l1 := Next(Reset(ran, 0), l);
    var l2 := Next(Update(ran), l1);
    assert ops[1..] == [Update(ran)] && ops[1..][1..] == [];
    assert Run([], l2) && Final([], l2) == l2;
    assert Run(ops[1..], l1) && Final(ops[1..], l1) == l2;
    assert l2.b.totals[0] > Age(l2.b, 0);
  }
}
