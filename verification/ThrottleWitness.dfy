// The bound of 25 is exact: one IP that always asks as early as the queue allows
// collects 25 live failures in 843 seconds.
module ThrottleWitness {
  import opened Options
  import opened LoginThrottle
  import opened ThrottleLedger
  import opened ThrottleRuns

  function Second(n: nat): nat { n * 1_000_000_000 }

  // When the k-th attempt asks for its turn, and when that turn starts.
  function AskAt(k: nat): nat {
    if k <= 10 then 0 else if k == 11 then Second(3) else Second(63 + 60 * (k - 12))
  }

  function TurnAt(k: nat): nat {
    if k <= 5 then 0
    else if k == 6 then Second(1)
    else if k == 7 then Second(3)
    else if k == 8 then Second(7)
    else if k == 9 then Second(15)
    else if k == 10 then Second(31)
    else if k == 11 then Second(63)
    else Second(123 + 60 * (k - 12))
  }

  function Plan(n: nat): Ledger {
    if n == 0 then [] else Plan(n - 1) + [Turn(AskAt(n), TurnAt(n), n, false)]
  }

  lemma {:induction false} PlanTurns(n: nat)
    ensures |Plan(n)| == n && forall j :: 0 <= j < n ==> Plan(n)[j] == Turn(AskAt(j + 1), TurnAt(j + 1), j + 1, false)
  {
    if n == 0 {
    } else {
      PlanTurns(n - 1);
    }
  }

  lemma {:induction false} PlanLive(n: nat, m: nat, now: nat)
    requires m <= n == |Plan(n)| && now < WINDOW
    ensures Live(Plan(n), m, now) == m
  {
    if m == 0 {
    } else {
      PlanLive(n, m - 1, now);
      PlanTurns(n);
    }
  }

  lemma PlanStart(n: nat)
    requires n < 25
    ensures StartFor(n, NextOf(Plan(n)), AskAt(n + 1)) == TurnAt(n + 1)
    ensures AskAt(n) <= AskAt(n + 1) <= TurnAt(n + 1) <= AskAt(n + 1) + MAX_DELAY && AskAt(n + 1) < WINDOW
  {
    PlanTurns(n);
    DelaySmall();
    assert 5 <= n < 11 ==> n == 5 || n == 6 || n == 7 || n == 8 || n == 9 || n == 10;
  }

  lemma PlanStep(n: nat)
    requires n < 25
    ensures LedgerOutcome([], Plan(n), AskAt(n + 1), true, true).Ok?
    ensures LedgerTurn([], Plan(n), AskAt(n + 1), true, true) == Plan(n + 1)
  {
    hide StartFor, AskAt, TurnAt, Live, NextOf, DelayFor;
    PlanStart(n);
    PlanTurns(n);
    PlanLive(n, n, AskAt(n + 1));
  }

  ghost predicate Follows(x: System<nat, nat>, n: nat) {
    && TurnsOf(x.b, 0) == Plan(n) && x.clock == AskAt(n)
    && (forall k :: k >= n ==> FailsOf(x.b, k) == [])
    && |x.s.accounts| <= n && |x.s.ips| <= 1 && x.s.ips.Keys <= {0}
  }

  lemma RoomToSpare<K>(m: Counts<K>, key: K, r: Result<Attempt, nat>, now: nat)
    requires |m| < MAX_KEYS
    ensures CanCount(m, key, now)
    ensures AccountsAfter(m, key, r, now).Keys == m.Keys + {key}
    ensures IpsAfter(m, key, r, now).Keys == m.Keys + {key}
  {
    assert Look(m, key, now).map'.Keys == m.Keys + {key};
  }

  lemma BookNext(b: Book<nat, nat>, n: nat)
    requires n < 25 && TurnsOf(b, 0) == Plan(n) && forall k :: k >= n ==> FailsOf(b, k) == []
    ensures var c := LedgerBegun(b, n, 0, AskAt(n + 1), true, true);
            TurnsOf(c, 0) == Plan(n + 1) && forall k :: k >= n + 1 ==> FailsOf(c, k) == []
  {
    PlanStep(n);
    var c := LedgerBegun(b, n, 0, AskAt(n + 1), true, true);
    forall k: nat | k >= n + 1 ensures FailsOf(c, k) == [] { assert FailsOf(b, k) == []; }
  }

  lemma SizeNext(s: State<nat, nat>, n: nat, now: nat)
    requires |s.accounts| <= n < 25 && |s.ips| <= 1 && s.ips.Keys <= {0}
    ensures CanCount(s.accounts, n, now) && CanCount(s.ips, 0, now)
    ensures var t := Begun(s, n, 0, now).0; |t.accounts| <= n + 1 && |t.ips| <= 1 && t.ips.Keys <= {0}
  {
    hide Answer, AccountsAfter, IpsAfter, CanCount;
    var r := Answer(s, n, 0, now);
    RoomToSpare(s.accounts, n, r, now);
    RoomToSpare(s.ips, 0, r, now);
    var accounts, ips := AccountsAfter(s.accounts, n, r, now), IpsAfter(s.ips, 0, r, now);
    assert |accounts.Keys| <= |s.accounts.Keys| + 1;
    assert ips.Keys == {0};
    assert |ips| == |ips.Keys|;
  }

  lemma FollowsNext(x: System<nat, nat>, n: nat)
    requires n < 25 && Follows(x, n)
    ensures Follows(After(x, Try(n, 0, AskAt(n + 1))), n + 1)
  {
    SizeNext(x.s, n, AskAt(n + 1));
    BookNext(x.b, n);
  }

  lemma RunExtends<A, I>(trace: seq<System<A, I>>, ops: seq<Op<A, I>>, op: Op<A, I>)
    requires Run(trace, ops) && (op.Try? ==> trace[|ops|].clock <= op.now)
    ensures Run(trace + [After(trace[|ops|], op)], ops + [op])
  {
    hide After;
  }

  lemma {:induction false} Build(n: nat) returns (trace: seq<System<nat, nat>>, ops: seq<Op<nat, nat>>)
    requires n <= 25
    ensures Run(trace, ops) && |ops| == n && Follows(trace[n], n)
  {
    if n == 0 {
      trace, ops := [Start()], [];
    } else {
      var before, done := Build(n - 1);
      var op: Op<nat, nat> := Try(n - 1, 0, AskAt(n));
      PlanStart(n - 1);
      FollowsNext(before[n - 1], n - 1);
      RunExtends(before, done, op);
      trace, ops := before + [After(before[n - 1], op)], done + [op];
    }
  }

  // Some run reaches 25 live failures of one IP.
  lemma TwentyFiveIsReached() returns (trace: seq<System<nat, nat>>, ops: seq<Op<nat, nat>>)
    ensures Run(trace, ops) && trace != []
    ensures var x := trace[|trace| - 1]; var l := TurnsOf(x.b, 0);
            Live(l, |l|, x.clock) == 25
  {
    trace, ops := Build(25);
    PlanTurns(25);
    PlanLive(25, 25, AskAt(25));
  }
}
