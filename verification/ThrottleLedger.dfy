// The reference for the throttle: a plain ledger of every counted turn of every IP
// and every counted failure of every account. It never prunes, and it counts by
// looking through the whole log. The lazily pruned and evicted maps give exactly
// its answers. An attempt that a full map cannot count is not in it.
module ThrottleLedger {
  import opened Options
  import opened Collections
  import opened LoginThrottle

  // A recorded turn: when it was asked for, when it starts, how many live
  // failures it made with itself, and whether a success took it back.
  datatype Turn = Turn(at: nat, start: nat, count: nat, ok: bool)
  type Ledger = seq<Turn>

  datatype Book<A, I> = Book(turns: map<I, Ledger>, fails: map<A, seq<nat>>)

  function TurnsOf<A, I>(b: Book<A, I>, ip: I): Ledger {
    if ip in b.turns then b.turns[ip] else []
  }

  function FailsOf<A, I>(b: Book<A, I>, account: A): seq<nat> {
    if account in b.fails then b.fails[account] else []
  }

  // The times of the turns that no success took back.
  function Unpaid(l: Ledger): seq<nat> {
    if l == [] then [] else (if l[0].ok then [] else [l[0].at]) + Unpaid(l[1..])
  }

  predicate IsLive(t: Turn, now: nat) { !t.ok && InWindow(t.at, now) }

  // How many of the first `n` turns are live failures.
  function Live(l: Ledger, n: nat, now: nat): nat
    requires n <= |l|
  {
    if n == 0 then 0 else Live(l, n - 1, now) + if IsLive(l[n - 1], now) then 1 else 0
  }

  // How many of the first `n` times are in the window.
  function Recent(log: seq<nat>, n: nat, now: nat): nat
    requires n <= |log|
  {
    if n == 0 then 0 else Recent(log, n - 1, now) + if InWindow(log[n - 1], now) then 1 else 0
  }

  // The earliest start after the recorded turns.
  function NextOf(l: Ledger): Option<nat> {
    if l == [] then None else Some(l[|l| - 1].start + DelayFor(l[|l| - 1].count))
  }

  // What an attempt gets by the ledger. `ca` and `ci` tell whether the maps have
  // room to count the account and the IP.
  function LedgerOutcome(log: seq<nat>, l: Ledger, now: nat, ca: bool, ci: bool): Result<Attempt, nat> {
    Decide(if ca then Some(Recent(log, |log|, now)) else None, if ci then Some(Live(l, |l|, now)) else None,
           if ci then NextOf(l) else None, now)
  }

  // The ledger after an attempt: a refusal records nothing.
  function LedgerTurn(log: seq<nat>, l: Ledger, now: nat, ca: bool, ci: bool): Ledger {
    var r := LedgerOutcome(log, l, now, ca, ci);
    if r.Ok? && ci then l + [Turn(now, now + r.value.wait, Live(l, |l|, now) + 1, false)] else l
  }

  function LedgerFail(log: seq<nat>, l: Ledger, now: nat, ca: bool, ci: bool): seq<nat> {
    if LedgerOutcome(log, l, now, ca, ci).Ok? && ca then log + [now] else log
  }

  function LedgerBegun<A, I>(b: Book<A, I>, account: A, ip: I, now: nat, ca: bool, ci: bool): Book<A, I> {
    var l, log := TurnsOf(b, ip), FailsOf(b, account);
    Book(b.turns[ip := LedgerTurn(log, l, now, ca, ci)], b.fails[account := LedgerFail(log, l, now, ca, ci)])
  }

  // The first turn of that time that is still a failure is taken back.
  function Pay(l: Ledger, at: nat): Ledger {
    if l == [] then []
    else if !l[0].ok && l[0].at == at then [l[0].(ok := true)] + l[1..]
    else [l[0]] + Pay(l[1..], at)
  }

  function LedgerSucceeded<A, I>(b: Book<A, I>, account: A, ip: I, at: nat): Book<A, I> {
    Book(b.turns[ip := Pay(TurnsOf(b, ip), at)], b.fails - {account})
  }

  // ----- Pruning and taking back -----

  ghost predicate Sorted(times: seq<nat>) {
    forall i, j :: 0 <= i < j < |times| ==> times[i] <= times[j]
  }

  ghost predicate UpTo(times: seq<nat>, clock: nat) {
    forall i :: 0 <= i < |times| ==> times[i] <= clock
  }

  lemma {:induction false} PruneLater(times: seq<nat>, now: nat, later: nat)
    requires now <= later
    ensures Prune(Prune(times, now), later) == Prune(times, later)
  {
    if times != [] && !InWindow(times[0], now) { PruneLater(times[1..], now, later); }
  }

  lemma {:induction false} PrunePush(times: seq<nat>, t: nat, now: nat)
    requires InWindow(t, now)
    ensures Prune(times + [t], now) == Prune(times, now) + [t]
  {
    if times != [] && !InWindow(times[0], now) {
      PrunePush(times[1..], t, now);
      assert (times + [t])[1..] == times[1..] + [t];
    }
  }

  lemma {:induction false} PruneAll(times: seq<nat>, now: nat)
    requires Sorted(times) && (times != [] ==> !InWindow(times[|times| - 1], now))
    ensures Prune(times, now) == []
  {
    if times == [] {
    } else {
      PruneAll(times[1..], now);
    }
  }

  lemma {:induction false} PruneKeepsOrder(times: seq<nat>, now: nat, clock: nat)
    requires Sorted(times) && UpTo(times, clock)
    ensures Sorted(Prune(times, now)) && UpTo(Prune(times, now), clock)
    ensures forall i :: 0 <= i < |Prune(times, now)| ==> InWindow(Prune(times, now)[i], now)
  {
    if times != [] && !InWindow(times[0], now) { PruneKeepsOrder(times[1..], now, clock); }
  }

  lemma {:induction false} WithoutAbsent(times: seq<nat>, t: nat)
    requires t !in times
    ensures Without(times, t) == times
  {
    if times == [] {
    } else {
      WithoutAbsent(times[1..], t);
    }
  }

  lemma {:induction false} WithoutInside(times: seq<nat>, t: nat, low: nat, high: nat)
    requires forall i :: 0 <= i < |times| ==> low <= times[i] <= high
    ensures forall i :: 0 <= i < |Without(times, t)| ==> low <= Without(times, t)[i] <= high
  {
    if times == [] || times[0] == t {
    } else {
      WithoutInside(times[1..], t, low, high);
    }
  }

  lemma {:induction false} WithoutKeepsOrder(times: seq<nat>, t: nat, clock: nat)
    requires Sorted(times) && UpTo(times, clock)
    ensures Sorted(Without(times, t)) && UpTo(Without(times, t), clock)
  {
    if times == [] || times[0] == t {
    } else {
      var rest := Without(times[1..], t);
      WithoutKeepsOrder(times[1..], t, clock);
      WithoutInside(times[1..], t, times[0], clock);
      assert Without(times, t) == [times[0]] + rest;
      hide Without;
    }
  }

  // Taking back and pruning can be done in either order.
  lemma {:induction false} PruneWithout(times: seq<nat>, t: nat, now: nat)
    requires Sorted(times)
    ensures Prune(Without(times, t), now) == Without(Prune(times, now), t)
  {
    if times == [] {
    } else if InWindow(times[0], now) {
      if times[0] == t && 1 < |times| { assert InWindow(times[1], now); }
    } else if times[0] == t {
      PruneKeepsOrder(times[1..], now, if |times| == 1 then 0 else times[|times| - 1]);
      WithoutAbsent(Prune(times[1..], now), t);
    } else {
      PruneWithout(times[1..], t, now);
      assert Without(times, t)[1..] == Without(times[1..], t);
    }
  }

  lemma {:induction false} UnpaidPush(l: Ledger, t: Turn)
    ensures Unpaid(l + [t]) == Unpaid(l) + if t.ok then [] else [t.at]
  {
    if l == [] {
      assert [t][1..] == [];
    } else {
      UnpaidPush(l[1..], t);
      assert (l + [t])[1..] == l[1..] + [t];
    }
  }

  lemma {:induction false} UnpaidPay(l: Ledger, at: nat)
    ensures Unpaid(Pay(l, at)) == Without(Unpaid(l), at)
  {
    if l == [] {
    } else {
      var p := Pay(l, at);
      if !l[0].ok && l[0].at == at {
        assert p[1..] == l[1..];
        assert Unpaid(l)[1..] == Unpaid(l[1..]);
      } else {
        UnpaidPay(l[1..], at);
        assert p[1..] == Pay(l[1..], at);
        if l[0].ok {
          assert Unpaid(l) == Unpaid(l[1..]) && Unpaid(p) == Unpaid(p[1..]);
        } else {
          assert Unpaid(l)[1..] == Unpaid(l[1..]);
        }
      }
    }
  }

  // ----- Counting -----

  // The pruned deque has as many times as the whole log has in the window.
  lemma {:induction false} PruneCounts(log: seq<nat>, n: nat, now: nat)
    requires Sorted(log) && n <= |log|
    ensures |Prune(log[..n], now)| == Recent(log, n, now)
  {
    if n == 0 {
    } else {
      PruneCounts(log, n - 1, now);
      assert log[..n] == log[..n - 1] + [log[n - 1]];
      if InWindow(log[n - 1], now) {
        PrunePush(log[..n - 1], log[n - 1], now);
      } else {
        PruneAll(log[..n], now);
        PruneAll(log[..n - 1], now);
      }
    }
  }

  ghost predicate InOrder(l: Ledger, clock: nat) {
    && (forall j, k :: 0 <= j < k < |l| ==> l[j].at <= l[k].at)
    && (forall j :: 0 <= j < |l| ==> l[j].at <= clock)
  }

  lemma {:induction false} UnpaidInOrder(l: Ledger, clock: nat)
    requires InOrder(l, clock)
    ensures Sorted(Unpaid(l)) && UpTo(Unpaid(l), clock)
    ensures forall i :: 0 <= i < |Unpaid(l)| ==> l != [] && l[0].at <= Unpaid(l)[i]
  {
    if l == [] {
    } else {
      UnpaidInOrder(l[1..], clock);
    }
  }

  lemma {:induction false} UnpaidCounts(l: Ledger, n: nat, now: nat, clock: nat)
    requires InOrder(l, clock) && n <= |l|
    ensures |Prune(Unpaid(l[..n]), now)| == Live(l, n, now)
  {
    if n == 0 {
    } else {
      UnpaidCounts(l, n - 1, now, clock);
      var before, t := l[..n - 1], l[n - 1];
      assert l[..n] == before + [t];
      UnpaidPush(before, t);
      if IsLive(t, now) {
        PrunePush(Unpaid(before), t.at, now);
      } else if t.ok {
        assert Unpaid(l[..n]) == Unpaid(before);
      } else {
        UnpaidInOrder(l[..n], clock);
        UnpaidInOrder(before, t.at);
        PruneAll(Unpaid(l[..n]), now);
        PruneAll(Unpaid(before), now);
      }
    }
  }

  // ----- What every ledger keeps -----

  ghost predicate Spaced(l: Ledger) {
    && (forall j :: 0 <= j < |l| ==> l[j].at <= l[j].start <= l[j].at + MAX_DELAY)
    && (forall j, k :: 0 <= j < k < |l| ==> l[k].start >= l[j].start + DelayFor(l[j].count))
  }

  // A turn was counted with at least the failures that are still failures now.
  ghost predicate Counted(l: Ledger) {
    forall j {:trigger l[j].count} :: 0 <= j < |l| ==> l[j].count >= Live(l, j + 1, l[j].at)
  }

  ghost predicate Sound(l: Ledger, clock: nat) {
    InOrder(l, clock) && Spaced(l) && Counted(l)
  }

  lemma {:induction false} LivePrefix(l: Ledger, m: Ledger, n: nat, now: nat)
    requires n <= |l| <= |m| && m[..|l|] == l
    ensures Live(m, n, now) == Live(l, n, now)
  {
    if n == 0 {
    } else {
      LivePrefix(l, m, n - 1, now);
      assert m[n - 1] == m[..|l|][n - 1];
    }
  }

  lemma CountedPush(l: Ledger, t: Turn)
    requires Counted(l) && !t.ok && t.count == Live(l, |l|, t.at) + 1
    ensures Counted(l + [t])
  {
    var m := l + [t];
    assert m[..|l|] == l;
    forall j | 0 <= j < |m| ensures m[j].count >= Live(m, j + 1, m[j].at) {
      if j < |l| {
        LivePrefix(l, m, j + 1, m[j].at);
        assert l[j].count >= Live(l, j + 1, l[j].at);
      } else {
        LivePrefix(l, m, |l|, t.at);
      }
    }
  }

  lemma SpacedPush(l: Ledger, t: Turn)
    requires Spaced(l) && t.at <= t.start <= t.at + MAX_DELAY && (NextOf(l).Some? ==> t.start >= NextOf(l).value)
    ensures Spaced(l + [t])
  {
    hide DelayFor;
    forall j | 0 <= j < |l| ensures t.start >= l[j].start + DelayFor(l[j].count) {
      var last := l[|l| - 1];
      assert t.start >= last.start + DelayFor(last.count);
      if j < |l| - 1 { assert last.start >= l[j].start + DelayFor(l[j].count); }
    }
  }

  lemma SoundPush(l: Ledger, t: Turn, clock: nat)
    requires Sound(l, clock) && clock <= t.at <= t.start <= t.at + MAX_DELAY
    requires NextOf(l).Some? ==> t.start >= NextOf(l).value
    requires !t.ok && t.count == Live(l, |l|, t.at) + 1
    ensures Sound(l + [t], t.at)
  {
    hide Counted, Spaced, Live, NextOf;
    CountedPush(l, t);
    SpacedPush(l, t);
  }

  lemma DecideBounds(ac: Option<nat>, ic: Option<nat>, next: Option<nat>, now: nat)
    requires next.Some? ==> ic.Some?
    ensures var r := Decide(ac, ic, next, now);
            r.Ok? ==> r.value.wait <= MAX_DELAY && (next.Some? ==> now + r.value.wait >= next.value)
    // A refusal means exactly that the IP's own queue is full.
    ensures Decide(ac, ic, next, now).Err? <==> next.Some? && next.value > now + MAX_DELAY
    ensures Decide(ac, ic, next, now).Err? ==> now + Decide(ac, ic, next, now).error == next.value
  {
    DelayMonotone(Failures(ac, ic), Failures(ac, ic));
  }

  lemma SoundTurn(log: seq<nat>, l: Ledger, now: nat, ca: bool, ci: bool, clock: nat)
    requires Sound(l, clock) && clock <= now
    ensures Sound(LedgerTurn(log, l, now, ca, ci), now)
  {
    hide Decide, DelayFor, Live, Recent, Counted, Spaced, NextOf;
    var r := LedgerOutcome(log, l, now, ca, ci);
    if r.Ok? && ci {
      DecideBounds(if ca then Some(Recent(log, |log|, now)) else None, Some(Live(l, |l|, now)), NextOf(l), now);
      SoundPush(l, Turn(now, now + r.value.wait, Live(l, |l|, now) + 1, false), clock);
    }
  }

  lemma {:induction false} PayFields(l: Ledger, at: nat)
    ensures |Pay(l, at)| == |l|
    ensures forall j :: 0 <= j < |l| ==>
              && Pay(l, at)[j].at == l[j].at && Pay(l, at)[j].start == l[j].start
              && Pay(l, at)[j].count == l[j].count && (l[j].ok ==> Pay(l, at)[j].ok)
  {
    if l == [] {
    } else {
      PayFields(l[1..], at);
    }
  }

  lemma {:induction false} PayLive(l: Ledger, at: nat, n: nat, now: nat)
    requires n <= |l|
    ensures |Pay(l, at)| == |l| && Live(Pay(l, at), n, now) <= Live(l, n, now)
  {
    PayFields(l, at);
    if n == 0 {
    } else {
      PayLive(l, at, n - 1, now);
    }
  }

  lemma CountedPay(l: Ledger, at: nat)
    requires Counted(l)
    ensures Counted(Pay(l, at))
  {
    PayFields(l, at);
    forall j {:trigger l[j].count} | 0 <= j < |l| ensures l[j].count >= Live(Pay(l, at), j + 1, l[j].at) {
      PayLive(l, at, j + 1, l[j].at);
    }
  }

  lemma SoundPay(l: Ledger, at: nat, clock: nat)
    requires Sound(l, clock)
    ensures Sound(Pay(l, at), clock)
  {
    PayFields(l, at);
    CountedPay(l, at);
  }

  // ----- The bound -----

  // The sum of the delays after 1 to `n` failures.
  function DelaySum(n: nat): nat {
    if n == 0 then 0 else DelaySum(n - 1) + DelayFor(n)
  }

  lemma DelaySmall()
    ensures DelayFor(5) == 1_000_000_000 && DelayFor(6) == 2_000_000_000 && DelayFor(7) == 4_000_000_000
    ensures DelayFor(8) == 8_000_000_000 && DelayFor(9) == 16_000_000_000 && DelayFor(10) == 32_000_000_000
    ensures forall n :: n >= 11 ==> DelayFor(n) == MAX_DELAY
    ensures forall n :: n < 5 ==> DelayFor(n) == 0
  {
    assert Shifted(1) == 2_000_000_000 && Shifted(2) == 4_000_000_000 && Shifted(3) == 8_000_000_000;
    assert Shifted(4) == 16_000_000_000 && Shifted(5) == 32_000_000_000 && Shifted(6) == 64_000_000_000;
  }

  lemma DelayMonotone(a: nat, b: nat)
    requires a <= b
    ensures DelayFor(a) <= DelayFor(b) <= MAX_DELAY
  {
    DelaySmall();
    assert 5 <= a < 11 ==> a == 5 || a == 6 || a == 7 || a == 8 || a == 9 || a == 10;
    assert 5 <= b < 11 ==> b == 5 || b == 6 || b == 7 || b == 8 || b == 9 || b == 10;
  }

  lemma {:induction false} DelaySumLarge(n: nat)
    requires n >= 10
    ensures DelaySum(n) == 63_000_000_000 + (n - 10) * MAX_DELAY
  {
    DelaySmall();
    if n == 10 {
      assert DelaySum(4) == 0;
      assert DelaySum(7) == 7_000_000_000;
    } else {
      DelaySumLarge(n - 1);
      assert (n - 10) * MAX_DELAY == (n - 1 - 10) * MAX_DELAY + MAX_DELAY;
    }
  }

  lemma {:induction false} DelaysFillTheWindow(n: nat)
    requires n >= 25
    ensures DelaySum(n) > WINDOW + MAX_DELAY
  {
    DelaySumLarge(n);
    assert (n - 10) * MAX_DELAY >= 15 * MAX_DELAY;
  }

  lemma {:induction false} LiveShrinks(l: Ledger, n: nat, now: nat, later: nat)
    requires n <= |l| && now <= later
    ensures Live(l, n, later) <= Live(l, n, now)
  {
    if n == 0 {
    } else {
      LiveShrinks(l, n - 1, now, later);
    }
  }

  // With c live failures among the first n turns, the next turn starts at least
  // all c delays after the window's start, and so did a live last turn with c - 1.
  lemma {:induction false} DelaysAddUp(l: Ledger, n: nat, now: nat, clock: nat)
    requires Sound(l, clock) && clock <= now && n <= |l|
    ensures Live(l, n, now) > 0 ==>
              l[n - 1].start + DelayFor(l[n - 1].count) + WINDOW > now + DelaySum(Live(l, n, now))
    ensures n > 0 && IsLive(l[n - 1], now) ==> l[n - 1].start + WINDOW > now + DelaySum(Live(l, n, now) - 1)
  {
    if n == 0 {
    } else {
      DelaysAddUp(l, n - 1, now, clock);
      var c, t := Live(l, n, now), l[n - 1];
      assert n > 1 ==> t.start >= l[n - 2].start + DelayFor(l[n - 2].count);
      if IsLive(t, now) {
        assert t.count >= Live(l, n, t.at);
        LiveShrinks(l, n, t.at, now);
        DelayMonotone(c, t.count);
      }
    }
  }

  lemma {:induction false} LastLive(l: Ledger, n: nat, now: nat) returns (m: nat)
    requires n <= |l| && Live(l, n, now) > 0
    ensures 0 < m <= n && IsLive(l[m - 1], now) && Live(l, m, now) == Live(l, n, now)
  {
    if IsLive(l[n - 1], now) { m := n; } else { m := LastLive(l, n - 1, now); }
  }

  // At most 25 live failures: the 25 delays before a 26th sum to 963 seconds, and
  // only 15 minutes plus one longest wait can hold them.
  lemma AtMost25(l: Ledger, now: nat, clock: nat)
    requires Sound(l, clock) && clock <= now
    ensures Live(l, |l|, now) <= 25
  {
    if Live(l, |l|, now) > 25 {
      var m := LastLive(l, |l|, now);
      DelaysAddUp(l, m, now, clock);
      assert l[m - 1].start <= l[m - 1].at + MAX_DELAY;
      DelaysFillTheWindow(Live(l, m, now) - 1);
    }
  }
}
