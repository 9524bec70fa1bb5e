// Every granted attempt, counted or not. The bound of 25 holds for an IP that the
// map could count; an IP that a full map cannot count is never refused.
module ThrottleGrants {
  import opened Options
  import opened Collections
  import opened LoginThrottle
  import opened ThrottleLedger
  import opened ThrottleRuns
  import opened ThrottleWitness

  // ----- The log of grants -----

  // The call grants an attempt to `ip` in the window that ends at `now`.
  predicate IsGrant<A, I(==)>(x: System<A, I>, op: Op<A, I>, ip: I, now: nat) {
    op.Try? && op.ip == ip && InWindow(op.now, now) && Begun(x.s, op.account, op.ip, op.now).1.Ok?
  }

  // The same, while the map cannot count the IP.
  predicate IsUncounted<A, I(==)>(x: System<A, I>, op: Op<A, I>, ip: I, now: nat) {
    IsGrant(x, op, ip, now) && !CanCount(x.s.ips, ip, op.now)
  }

  // How many of the first `n` calls grant one.
  function Grants<A, I(==)>(trace: seq<System<A, I>>, ops: seq<Op<A, I>>, n: nat, ip: I, now: nat): nat
    requires n <= |ops| < |trace|
  {
    if n == 0 then 0
    else Grants(trace, ops, n - 1, ip, now) + if IsGrant(trace[n - 1], ops[n - 1], ip, now) then 1 else 0
  }

  function Uncounted<A, I(==)>(trace: seq<System<A, I>>, ops: seq<Op<A, I>>, n: nat, ip: I, now: nat): nat
    requires n <= |ops| < |trace|
  {
    if n == 0 then 0
    else Uncounted(trace, ops, n - 1, ip, now) + if IsUncounted(trace[n - 1], ops[n - 1], ip, now) then 1 else 0
  }

  // How many of the first `n` recorded turns are in the window, and how many of
  // these a success took back.
  function InWindowOf(l: Ledger, n: nat, now: nat): nat
    requires n <= |l|
  {
    if n == 0 then 0 else InWindowOf(l, n - 1, now) + if InWindow(l[n - 1].at, now) then 1 else 0
  }

  function TakenBack(l: Ledger, n: nat, now: nat): nat
    requires n <= |l|
  {
    if n == 0 then 0 else TakenBack(l, n - 1, now) + if l[n - 1].ok && InWindow(l[n - 1].at, now) then 1 else 0
  }

  lemma {:induction false} LiveOrTakenBack(l: Ledger, n: nat, now: nat)
    requires n <= |l|
    ensures InWindowOf(l, n, now) == Live(l, n, now) + TakenBack(l, n, now)
  {
    if n == 0 {
    } else {
      LiveOrTakenBack(l, n - 1, now);
    }
  }

  lemma {:induction false} SameTimesSameWindow(l: Ledger, m: Ledger, n: nat, now: nat)
    requires n <= |l| && n <= |m| && forall j :: 0 <= j < n ==> l[j].at == m[j].at
    ensures InWindowOf(l, n, now) == InWindowOf(m, n, now)
  {
    if n == 0 {
    } else {
      SameTimesSameWindow(l, m, n - 1, now);
    }
  }

  function WindowOf<A, I(==)>(x: System<A, I>, ip: I, now: nat): nat {
    InWindowOf(TurnsOf(x.b, ip), |TurnsOf(x.b, ip)|, now)
  }

  // One call adds to the record exactly what it grants and counts.
  lemma LoggedTry<A, I>(x: System<A, I>, op: Op<A, I>, ip: I, now: nat)
    requires op.Try? && op.ip == ip
    requires Begun(x.s, op.account, op.ip, op.now).1 ==
             LedgerOutcome(FailsOf(x.b, op.account), TurnsOf(x.b, op.ip), op.now,
                           CanCount(x.s.accounts, op.account, op.now), CanCount(x.s.ips, op.ip, op.now))
    ensures WindowOf(After(x, op), ip, now) == WindowOf(x, ip, now)
            + if IsGrant(x, op, ip, now) && !IsUncounted(x, op, ip, now) then 1 else 0
  {
    hide Begun, LedgerOutcome, CanCount, Live;
    var l, m := TurnsOf(x.b, ip), TurnsOf(After(x, op).b, ip);
    if m != l {
      SameTimesSameWindow(l, m, |l|, now);
    }
  }

  lemma LoggedSuccess<A, I>(x: System<A, I>, op: Op<A, I>, ip: I, now: nat)
    requires op.Good?
    ensures WindowOf(After(x, op), ip, now) == WindowOf(x, ip, now)
  {
    var l := TurnsOf(x.b, ip);
    PayFields(l, op.at);
    SameTimesSameWindow(l, Pay(l, op.at), |l|, now);
  }

  // Every granted attempt in the window is a recorded turn, or the map could not
  // count its IP.
  lemma {:induction false} GrantsAreLogged<A(!new), I(!new)>(trace: seq<System<A, I>>, ops: seq<Op<A, I>>, i: nat,
                                                             ip: I, now: nat)
    requires Run(trace, ops) && i <= |ops|
    ensures Grants(trace, ops, i, ip, now) == WindowOf(trace[i], ip, now) + Uncounted(trace, ops, i, ip, now)
  {
    if i == 0 {
    } else {
      GrantsAreLogged(trace, ops, i - 1, ip, now);
      var x, op := trace[i - 1], ops[i - 1];
      if op.Good? {
        LoggedSuccess(x, op, ip, now);
      } else if op.ip == ip {
        RunAnswers(trace, ops, i - 1);
        LoggedTry(x, op, ip, now);
      } else {
        OtherTurns(x, op, ip);
      }
    }
  }

  // ----- The bound, and where it ends -----

  // Of all recent grants that stayed failures, at most 25 were counted.
  lemma GrantsBounded<A(!new), I(!new)>(trace: seq<System<A, I>>, ops: seq<Op<A, I>>, i: nat, ip: I, now: nat)
    requires Run(trace, ops) && i <= |ops| && trace[i].clock <= now
    ensures var l := TurnsOf(trace[i].b, ip);
            Grants(trace, ops, i, ip, now) - TakenBack(l, |l|, now) <= 25 + Uncounted(trace, ops, i, ip, now)
  {
    var l := TurnsOf(trace[i].b, ip);
    GrantsAreLogged(trace, ops, i, ip, now);
    LiveOrTakenBack(l, |l|, now);
    RunAtMost25(trace, ops, i, ip, now);
  }

  // The map could count the IP at each of its attempts in the window.
  ghost predicate Countable<A, I>(trace: seq<System<A, I>>, ops: seq<Op<A, I>>, n: nat, ip: I, now: nat)
    requires n <= |ops| < |trace|
  {
    forall k :: 0 <= k < n && ops[k].Try? && ops[k].ip == ip && InWindow(ops[k].now, now) ==>
      CanCount(trace[k].s.ips, ip, ops[k].now)
  }

  lemma {:induction false} CountableMeansCounted<A, I>(trace: seq<System<A, I>>, ops: seq<Op<A, I>>, n: nat, ip: I,
                                                       now: nat)
    requires n <= |ops| < |trace| && Countable(trace, ops, n, ip, now)
    ensures Uncounted(trace, ops, n, ip, now) == 0
  {
    if n == 0 {
    } else {
      CountableMeansCounted(trace, ops, n - 1, ip, now);
    }
  }

  // No more than 25 unsuccessful attempts in the last 15 minutes, counted over all
  // that were granted, for an IP that the map could count.
  lemma CountableAtMost25<A(!new), I(!new)>(trace: seq<System<A, I>>, ops: seq<Op<A, I>>, i: nat, ip: I, now: nat)
    requires Run(trace, ops) && i <= |ops| && trace[i].clock <= now && Countable(trace, ops, i, ip, now)
    ensures var l := TurnsOf(trace[i].b, ip); Grants(trace, ops, i, ip, now) - TakenBack(l, |l|, now) <= 25
  {
    GrantsBounded(trace, ops, i, ip, now);
    CountableMeansCounted(trace, ops, i, ip, now);
  }

  lemma LongestDelay()
    ensures DelayFor(USIZE_MAX) == MAX_DELAY
  {
    DelaySmall();
  }

  // An IP that the map cannot count always gets its turn, after the longest wait
  // and no more, and the next attempt finds the same.
  lemma UncountedIsNeverRefused<A, I>(s: State<A, I>, account: A, ip: I, now: nat)
    requires !CanCount(s.ips, ip, now)
    ensures var (t, r) := Begun(s, account, ip, now); r.Ok? && r.value.wait == MAX_DELAY && !CanCount(t.ips, ip, now)
  {
    LongestDelay();
    hide DelayFor;
    var room := Room(s.ips, ip, now);
    assert Retain(room, now) == room;
  }

  lemma {:induction false} GrantsOfFirst<A, I>(trace: seq<System<A, I>>, ops: seq<Op<A, I>>, x: System<A, I>,
                                               op: Op<A, I>, n: nat, ip: I, now: nat)
    requires n <= |ops| < |trace|
    ensures Grants(trace + [x], ops + [op], n, ip, now) == Grants(trace, ops, n, ip, now)
  {
    hide IsGrant;
    if n == 0 {
    } else {
      GrantsOfFirst(trace, ops, x, op, n - 1, ip, now);
    }
  }

  lemma UncountedRecordsNothing<A, I>(x: System<A, I>, account: A, ip: I, now: nat)
    requires !CanCount(x.s.ips, ip, now)
    ensures var t := After(x, Try(account, ip, now));
            TurnsOf(t.b, ip) == TurnsOf(x.b, ip) && t.clock == now && t.s == Begun(x.s, account, ip, now).0
  {
    hide Begun, CanCount;
  }

  // One more attempt of an uncounted IP.
  lemma OneMoreUncounted<A(!new), I(!new)>(trace: seq<System<A, I>>, ops: seq<Op<A, I>>, account: A, ip: I, now: nat)
    requires Run(trace, ops) && trace[|ops|].clock <= now && !CanCount(trace[|ops|].s.ips, ip, now)
    ensures var x, op := trace[|ops|], Try(account, ip, now);
            && Run(trace + [After(x, op)], ops + [op]) && After(x, op).clock == now
            && Grants(trace + [After(x, op)], ops + [op], |ops| + 1, ip, now) == Grants(trace, ops, |ops|, ip, now) + 1
            && !CanCount(After(x, op).s.ips, ip, now) && TurnsOf(After(x, op).b, ip) == TurnsOf(x.b, ip)
  {
    var x := trace[|ops|];
    var op: Op<A, I> := Try(account, ip, now);
    UncountedIsNeverRefused(x.s, account, ip, now);
    hide Begun, CanCount, After;
    UncountedRecordsNothing(x, account, ip, now);
    RunExtends(trace, ops, op);
    GrantsOfFirst(trace, ops, After(x, op), op, |ops|, ip, now);
    assert (trace + [After(x, op)])[|ops|] == x && IsGrant(x, op, ip, now);
  }

  function Repeated<T>(x: T, n: nat): (s: seq<T>)
    ensures |s| == n
  {
    if n == 0 then [] else Repeated(x, n - 1) + [x]
  }

  // From every reachable state in which the map cannot count an IP, any number of
  // further attempts at that moment are all granted, and none is recorded.
  lemma {:induction false} UncountedStaysUnbounded<A(!new), I(!new)>(
      trace: seq<System<A, I>>, ops: seq<Op<A, I>>, account: A, ip: I, now: nat, n: nat)
    returns (longer: seq<System<A, I>>)
    requires Run(trace, ops) && |trace| == |ops| + 1 && trace[|ops|].clock <= now
    requires !CanCount(trace[|ops|].s.ips, ip, now)
    ensures var more := ops + Repeated(Try(account, ip, now), n);
            && Run(longer, more) && |longer| == |more| + 1
            && Grants(longer, more, |more|, ip, now) == Grants(trace, ops, |ops|, ip, now) + n
            && longer[|more|].clock == (if n == 0 then trace[|ops|].clock else now)
            && !CanCount(longer[|more|].s.ips, ip, now)
            && TurnsOf(longer[|more|].b, ip) == TurnsOf(trace[|ops|].b, ip)
  {
    hide Run, Grants, CanCount, After, TurnsOf;
    var op: Op<A, I> := Try(account, ip, now);
    if n == 0 {
      assert ops + Repeated(op, 0) == ops;
      longer := trace;
    } else {
      var before := UncountedStaysUnbounded(trace, ops, account, ip, now, n - 1);
      var done := ops + Repeated(op, n - 1);
      OneMoreUncounted(before, done, account, ip, now);
      assert ops + Repeated(op, n) == done + [op];
      longer := before + [After(before[|done|], op)];
    }
  }

  // ----- A flood -----

  // The first `n` numbers.
  function Below(n: nat): (s: set<nat>)
    ensures |s| == n && forall k: nat :: k in s <==> k < n
  {
    if n == 0 then {} else Below(n - 1) + {n - 1}
  }

  // After one attempt each of the IPs below `n`, all at the same moment.
  ghost predicate Flooded(x: System<nat, nat>, n: nat) {
    && x.clock == 0 && x.s.ips.Keys == Below(n) && x.s.accounts.Keys == Below(n)
    && forall k <- x.s.ips :: Kept(x.s.ips[k], 0)
  }

  lemma FloodKeys(m: Counts<nat>, n: nat, r: Result<Attempt, nat>)
    requires n < MAX_KEYS && m.Keys == Below(n)
    ensures AccountsAfter(m, n, r, 0).Keys == Below(n + 1) && IpsAfter(m, n, r, 0).Keys == Below(n + 1)
  {
    hide AccountsAfter, IpsAfter, CanCount;
    assert |m| == |m.Keys|;
    RoomToSpare(m, n, r, 0);
    assert Below(n + 1) == Below(n) + {n};
  }

  // A new IP enters with a turn of its own; the others stay as they are.
  lemma NewIpIsKept(m: Counts<nat>, ip: nat, r: Result<Attempt, nat>)
    requires |m| < MAX_KEYS && ip !in m && (forall k <- m :: Kept(m[k], 0)) && r.Ok?
    ensures forall k <- IpsAfter(m, ip, r, 0) :: Kept(IpsAfter(m, ip, r, 0)[k], 0)
  {
  }

  lemma NewIpIsGranted(s: State<nat, nat>, n: nat)
    requires |s.ips| < MAX_KEYS && |s.accounts| < MAX_KEYS && n !in s.ips && n !in s.accounts
    ensures Answer(s, n, n, 0).Ok?
  {
  }

  lemma FloodNext(x: System<nat, nat>, n: nat)
    requires n < MAX_KEYS && Flooded(x, n)
    ensures Flooded(After(x, Try(n, n, 0)), n + 1)
  {
    hide AccountsAfter, IpsAfter, Answer, Kept, LedgerBegun;
    assert |x.s.ips| == |x.s.ips.Keys| && |x.s.accounts| == |x.s.accounts.Keys|;
    var r := Answer(x.s, n, n, 0);
    NewIpIsGranted(x.s, n);
    FloodKeys(x.s.accounts, n, r);
    FloodKeys(x.s.ips, n, r);
    NewIpIsKept(x.s.ips, n, r);
  }

  lemma FloodStart()
    ensures Flooded(Start(), 0)
  {
  }

  lemma {:induction false} Flood(n: nat) returns (trace: seq<System<nat, nat>>, ops: seq<Op<nat, nat>>)
    requires n <= MAX_KEYS
    ensures Run(trace, ops) && |ops| == n && Flooded(trace[n], n) && trace[n].clock == 0
    ensures forall k :: 0 <= k < n ==> ops[k].ip < MAX_KEYS
  {
    hide Flooded, After, Below;
    if n == 0 {
      FloodStart();
      trace, ops := [Start()], [];
    } else {
      var before, done := Flood(n - 1);
      var op: Op<nat, nat> := Try(n - 1, n - 1, 0);
      FloodNext(before[n - 1], n - 1);
      RunExtends(before, done, op);
      hide Run;
      trace, ops := before + [After(before[n - 1], op)], done + [op];
      assert trace[n].clock == 0 by { ClockAfter(before[n - 1], op); }
    }
  }

  lemma ClockAfter<A, I>(x: System<A, I>, op: Op<A, I>)
    requires op.Try?
    ensures After(x, op).clock == op.now
  {
  }

  lemma {:induction false} NoGrantToStranger(trace: seq<System<nat, nat>>, ops: seq<Op<nat, nat>>, n: nat, ip: nat,
                                             now: nat)
    requires n <= |ops| < |trace| && forall k :: 0 <= k < |ops| ==> ops[k].ip != ip
    ensures Grants(trace, ops, n, ip, now) == 0
  {
    if n == 0 {
    } else {
      NoGrantToStranger(trace, ops, n - 1, ip, now);
    }
  }

  lemma FloodedCannotCount(x: System<nat, nat>)
    requires Flooded(x, MAX_KEYS)
    ensures !CanCount(x.s.ips, MAX_KEYS, 0)
  {
    var m := x.s.ips;
    hide Kept;
    assert |m| == |m.Keys| && MAX_KEYS !in m && Retain(m, 0) == m;
  }

  // Such a state is reached, so no bound holds over all runs: for every `n` some run
  // grants one IP `n` attempts at one moment, none of them taken back.
  lemma UncountedIsUnbounded(n: nat) returns (trace: seq<System<nat, nat>>, ops: seq<Op<nat, nat>>)
    ensures Run(trace, ops) && trace[|ops|].clock == 0 && !CanCount(trace[|ops|].s.ips, MAX_KEYS, 0)
    ensures Grants(trace, ops, |ops|, MAX_KEYS, 0) == n && TurnsOf(trace[|ops|].b, MAX_KEYS) == []
  {
    var before, done := Flood(MAX_KEYS);
    FloodedCannotCount(before[MAX_KEYS]);
    NoGrantToStranger(before, done, |done|, MAX_KEYS, 0);
    NoTurnsOfStranger(before, done, |done|, MAX_KEYS);
    trace := UncountedStaysUnbounded(before, done, 0, MAX_KEYS, 0, n);
    hide Flooded, Run, CanCount;
    ops := done + Repeated(Try(0, MAX_KEYS, 0), n);
  }

  lemma {:induction false} NoTurnsOfStranger(trace: seq<System<nat, nat>>, ops: seq<Op<nat, nat>>, n: nat, ip: nat)
    requires Run(trace, ops) && n <= |ops| && forall k :: 0 <= k < |ops| ==> ops[k].ip != ip
    ensures TurnsOf(trace[n].b, ip) == []
  {
    if n == 0 {
    } else {
      NoTurnsOfStranger(trace, ops, n - 1, ip);
      OtherTurns(trace[n - 1], ops[n - 1], ip);
    }
  }
}
