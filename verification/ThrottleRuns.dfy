// Every run of the throttle agrees with the ledger, and what follows from that.
module ThrottleRuns {
  import opened Options
  import opened Collections
  import opened LoginThrottle
  import opened ThrottleLedger

  // ----- One map against its logs -----

  function TimesIn<K>(m: Counts<K>, k: K): seq<nat> { if k in m then m[k].times else [] }

  function NextIn<K>(m: Counts<K>, k: K): Option<nat> { if k in m then m[k].next else None }

  // The map holds what is live of the log: the same times in the window, and the
  // queue position unless it has passed.
  ghost predicate Match<K>(m: Counts<K>, k: K, log: seq<nat>, queue: Option<nat>, clock: nat) {
    && Sorted(TimesIn(m, k)) && UpTo(TimesIn(m, k), clock)
    && Prune(TimesIn(m, k), clock) == Prune(log, clock)
    && (NextIn(m, k).Some? ==> queue == NextIn(m, k))
    && (NextIn(m, k).None? ==> queue.None? || queue.value <= clock)
  }

  lemma MatchLater<K>(m: Counts<K>, k: K, log: seq<nat>, queue: Option<nat>, clock: nat, now: nat)
    requires Match(m, k, log, queue, clock) && clock <= now
    ensures Match(m, k, log, queue, now)
  {
    PruneLater(TimesIn(m, k), clock, now);
    PruneLater(log, clock, now);
  }

  // Eviction forgets no live failure and no pending turn.
  lemma MatchRoom<K>(m: Counts<K>, key: K, k: K, log: seq<nat>, queue: Option<nat>, now: nat)
    requires Match(m, k, log, queue, now)
    ensures Match(Room(m, key, now), k, log, queue, now)
  {
    if k in m && !Kept(m[k], now) { PruneAll(m[k].times, now); }
  }

  lemma MatchLook<K>(m: Counts<K>, key: K, k: K, log: seq<nat>, queue: Option<nat>, now: nat)
    requires Match(m, k, log, queue, now)
    ensures Match(Look(m, key, now).map', k, log, queue, now)
    ensures k == key && Look(m, key, now).entry.Some? ==> Look(m, key, now).entry.value.times == Prune(log, now)
  {
    MatchRoom(m, key, k, log, queue, now);
    var times := TimesIn(Room(m, key, now), k);
    PruneLater(times, now, now);
    PruneKeepsOrder(times, now, now);
  }

  lemma MatchPush<K>(m: Counts<K>, k: K, log: seq<nat>, queue: Option<nat>, e: Entry, now: nat, next: Option<nat>)
    requires Match(m, k, log, queue, now) && k in m && e == Pushed(m[k], now).(next := next)
    ensures Match(m[k := e], k, log + [now], next, now)
  {
    PrunePush(m[k].times, now, now);
    PrunePush(log, now, now);
  }

  lemma MatchWithout<K>(m: Counts<K>, k: K, log: seq<nat>, queue: Option<nat>, at: nat, clock: nat)
    requires Match(m, k, log, queue, clock) && Sorted(log) && k in m
    ensures Match(m[k := m[k].(times := Without(m[k].times, at))], k, Without(log, at), queue, clock)
  {
    PruneWithout(m[k].times, at, clock);
    PruneWithout(log, at, clock);
    WithoutKeepsOrder(m[k].times, at, clock);
  }

  lemma MatchAbsent<K>(m: Counts<K>, k: K, log: seq<nat>, queue: Option<nat>, at: nat, clock: nat)
    requires Match(m, k, log, queue, clock) && Sorted(log) && k !in m
    ensures Match(m, k, Without(log, at), queue, clock)
  {
    PruneWithout(log, at, clock);
  }

  // ----- The whole throttle against the book -----

  ghost predicate MatchIp<A, I>(s: State<A, I>, b: Book<A, I>, k: I, clock: nat) {
    Match(s.ips, k, Unpaid(TurnsOf(b, k)), NextOf(TurnsOf(b, k)), clock) && Sound(TurnsOf(b, k), clock)
  }

  ghost predicate MatchAccount<A, I>(s: State<A, I>, b: Book<A, I>, k: A, clock: nat) {
    && Match(s.accounts, k, FailsOf(b, k), None, clock)
    && Sorted(FailsOf(b, k)) && UpTo(FailsOf(b, k), clock)
  }

  ghost predicate Agree<A(!new), I(!new)>(s: State<A, I>, b: Book<A, I>, clock: nat) {
    && (forall k :: MatchIp(s, b, k, clock))
    && (forall k :: MatchAccount(s, b, k, clock))
    && |s.accounts| <= MAX_KEYS && |s.ips| <= MAX_KEYS
  }

  function CanCount<K>(m: Counts<K>, key: K, now: nat): bool { Look(m, key, now).entry.Some? }

  // What the lookup counts is what the ledger counts.
  lemma IpCount<K>(m: Counts<K>, ip: K, l: Ledger, clock: nat, now: nat)
    requires Match(m, ip, Unpaid(l), NextOf(l), clock) && InOrder(l, clock) && clock <= now && CanCount(m, ip, now)
    ensures CountOf(Look(m, ip, now).entry) == Some(Live(l, |l|, now))
    ensures PlaceOf(Look(m, ip, now).entry) == NextOf(l)
         || (PlaceOf(Look(m, ip, now).entry) == None && NextOf(l).Some? && NextOf(l).value <= now)
  {
    MatchLater(m, ip, Unpaid(l), NextOf(l), clock, now);
    MatchLook(m, ip, ip, Unpaid(l), NextOf(l), now);
    UnpaidCounts(l, |l|, now, clock);
    assert l[..|l|] == l;
  }

  lemma AccountCount<K>(m: Counts<K>, account: K, log: seq<nat>, clock: nat, now: nat)
    requires Match(m, account, log, None, clock) && Sorted(log) && clock <= now && CanCount(m, account, now)
    ensures CountOf(Look(m, account, now).entry) == Some(Recent(log, |log|, now))
  {
    MatchLater(m, account, log, None, clock, now);
    MatchLook(m, account, account, log, None, now);
    PruneCounts(log, |log|, now);
    assert log[..|log|] == log;
  }

  // A queue position that has passed makes no difference.
  lemma DecidePassed(ac: Option<nat>, ic: Option<nat>, place: Option<nat>, queue: Option<nat>, now: nat)
    requires place == queue || (place.None? && queue.Some? && queue.value <= now)
    ensures Decide(ac, ic, place, now) == Decide(ac, ic, queue, now)
  {
  }

  // The maps and the ledger give the same answer: the same wait and the same
  // count, or the same refusal with the same time.
  lemma SameOutcome<A, I>(s: State<A, I>, account: A, ip: I, log: seq<nat>, l: Ledger, clock: nat, now: nat)
    requires Match(s.ips, ip, Unpaid(l), NextOf(l), clock) && InOrder(l, clock)
    requires Match(s.accounts, account, log, None, clock) && Sorted(log) && clock <= now
    ensures Answer(s, account, ip, now) ==
            LedgerOutcome(log, l, now, CanCount(s.accounts, account, now), CanCount(s.ips, ip, now))
  {
    var a, i := Look(s.accounts, account, now).entry, Look(s.ips, ip, now).entry;
    if a.Some? { AccountCount(s.accounts, account, log, clock, now); }
    if i.Some? { IpCount(s.ips, ip, l, clock, now); }
    DecidePassed(CountOf(a), CountOf(i), PlaceOf(i), if i.Some? then NextOf(l) else None, now);
  }

  lemma SoundLater(l: Ledger, clock: nat, now: nat)
    requires Sound(l, clock) && clock <= now
    ensures Sound(l, now)
  {
  }

  // The IP's own entry, when it is counted and got a turn.
  lemma IpGranted<I>(m: Counts<I>, ip: I, log: seq<nat>, l: Ledger, now: nat, ca: bool)
    requires Match(m, ip, Unpaid(l), NextOf(l), now) && InOrder(l, now) && CanCount(m, ip, now)
    requires LedgerOutcome(log, l, now, ca, true).Ok?
    ensures var t := LedgerTurn(log, l, now, ca, true);
            Match(IpsAfter(m, ip, LedgerOutcome(log, l, now, ca, true), now), ip, Unpaid(t), NextOf(t), now)
  {
    hide Decide, Prune, Live, Recent, Unpaid, InOrder;
    var i, t := Look(m, ip, now), LedgerTurn(log, l, now, ca, true);
    var after := IpsAfter(m, ip, LedgerOutcome(log, l, now, ca, true), now);
    IpCount(m, ip, l, now, now);
    MatchLook(m, ip, ip, Unpaid(l), NextOf(l), now);
    UnpaidPush(l, t[|l|]);
    MatchPush(i.map', ip, Unpaid(l), NextOf(l), after[ip], now, NextOf(t));
  }

  lemma IpAfterTry<I>(m: Counts<I>, ip: I, log: seq<nat>, l: Ledger, ca: bool, clock: nat, now: nat)
    requires Match(m, ip, Unpaid(l), NextOf(l), clock) && InOrder(l, clock) && clock <= now
    ensures var r := LedgerOutcome(log, l, now, ca, CanCount(m, ip, now));
            var t := LedgerTurn(log, l, now, ca, CanCount(m, ip, now));
            Match(IpsAfter(m, ip, r, now), ip, Unpaid(t), NextOf(t), now)
  {
    MatchLater(m, ip, Unpaid(l), NextOf(l), clock, now);
    MatchLook(m, ip, ip, Unpaid(l), NextOf(l), now);
    if CanCount(m, ip, now) && LedgerOutcome(log, l, now, ca, true).Ok? { IpGranted(m, ip, log, l, now, ca); }
  }

  lemma OtherIp<I>(m: Counts<I>, ip: I, k: I, r: Result<Attempt, nat>, l: Ledger, clock: nat, now: nat)
    requires Match(m, k, Unpaid(l), NextOf(l), clock) && k != ip && clock <= now
    ensures Match(IpsAfter(m, ip, r, now), k, Unpaid(l), NextOf(l), now)
  {
    MatchLater(m, k, Unpaid(l), NextOf(l), clock, now);
    MatchLook(m, ip, k, Unpaid(l), NextOf(l), now);
  }

  lemma AccountAfterTry<A>(m: Counts<A>, account: A, k: A, r: Result<Attempt, nat>, log: seq<nat>, clock: nat, now: nat)
    requires Match(m, k, log, None, clock) && Sorted(log) && UpTo(log, clock) && clock <= now
    ensures var after := if k == account && r.Ok? && CanCount(m, account, now) then log + [now] else log;
            Match(AccountsAfter(m, account, r, now), k, after, None, now) && Sorted(after) && UpTo(after, now)
  {
    MatchLater(m, k, log, None, clock, now);
    MatchLook(m, account, k, log, None, now);
    if k == account && r.Ok? && CanCount(m, account, now) {
      var looked := Look(m, account, now).map';
      MatchPush(looked, account, log, None, Pushed(looked[account], now), now, looked[account].next);
    }
  }

  lemma MatchIpTry<A, I>(s: State<A, I>, b: Book<A, I>, account: A, ip: I, k: I, clock: nat, now: nat)
    requires MatchIp(s, b, ip, clock) && MatchAccount(s, b, account, clock) && MatchIp(s, b, k, clock) && clock <= now
    ensures var ca, ci := CanCount(s.accounts, account, now), CanCount(s.ips, ip, now);
            MatchIp(Begun(s, account, ip, now).0, LedgerBegun(b, account, ip, now, ca, ci), k, now)
  {
    hide Look, Decide, Match, InOrder, Spaced, Counted, Unpaid, NextOf, IpsAfter;
    var ca, ci := CanCount(s.accounts, account, now), CanCount(s.ips, ip, now);
    var l, log := TurnsOf(b, ip), FailsOf(b, account);
    SameOutcome(s, account, ip, log, l, clock, now);
    if k == ip {
      SoundTurn(log, l, now, ca, ci, clock);
      IpAfterTry(s.ips, ip, log, l, ca, clock, now);
    } else {
      OtherIp(s.ips, ip, k, Answer(s, account, ip, now), TurnsOf(b, k), clock, now);
      SoundLater(TurnsOf(b, k), clock, now);
    }
  }

  lemma MatchAccountTry<A, I>(s: State<A, I>, b: Book<A, I>, account: A, ip: I, k: A, clock: nat, now: nat)
    requires MatchIp(s, b, ip, clock) && MatchAccount(s, b, account, clock) && MatchAccount(s, b, k, clock)
    requires clock <= now
    ensures var ca, ci := CanCount(s.accounts, account, now), CanCount(s.ips, ip, now);
            MatchAccount(Begun(s, account, ip, now).0, LedgerBegun(b, account, ip, now, ca, ci), k, now)
  {
    hide Look, Decide, Match, InOrder, Spaced, Counted, Unpaid, NextOf, AccountsAfter;
    SameOutcome(s, account, ip, FailsOf(b, account), TurnsOf(b, ip), clock, now);
    AccountAfterTry(s.accounts, account, k, Answer(s, account, ip, now), FailsOf(b, k), clock, now);
  }

  lemma MatchAccountSuccess<A, I>(s: State<A, I>, b: Book<A, I>, account: A, ip: I, k: A, at: nat, clock: nat)
    requires MatchAccount(s, b, k, clock)
    ensures MatchAccount(Succeeded(s, account, ip, at), LedgerSucceeded(b, account, ip, at), k, clock)
  {
  }

  // An attempt keeps the maps and the ledger together.
  lemma AgreeTry<A(!new), I(!new)>(s: State<A, I>, b: Book<A, I>, account: A, ip: I, clock: nat, now: nat)
    requires Agree(s, b, clock) && clock <= now
    ensures var ca, ci := CanCount(s.accounts, account, now), CanCount(s.ips, ip, now);
            Agree(Begun(s, account, ip, now).0, LedgerBegun(b, account, ip, now, ca, ci), now)
  {
    var ca, ci := CanCount(s.accounts, account, now), CanCount(s.ips, ip, now);
    var t, c := Begun(s, account, ip, now).0, LedgerBegun(b, account, ip, now, ca, ci);
    SizeAfterTry(s, account, ip, now);
    forall k ensures MatchIp(t, c, k, now) { MatchIpTry(s, b, account, ip, k, clock, now); }
    forall k ensures MatchAccount(t, c, k, now) { MatchAccountTry(s, b, account, ip, k, clock, now); }
  }

  // A success keeps them together too.
  lemma AgreeSuccess<A(!new), I(!new)>(s: State<A, I>, b: Book<A, I>, account: A, ip: I, at: nat, clock: nat)
    requires Agree(s, b, clock)
    ensures Agree(Succeeded(s, account, ip, at), LedgerSucceeded(b, account, ip, at), clock)
  {
    var t, c := Succeeded(s, account, ip, at), LedgerSucceeded(b, account, ip, at);
    SizeAfterSuccess(s, account, ip, at);
    forall k ensures MatchIp(t, c, k, clock) { IpAfterSuccess(s, b, account, ip, k, at, clock); }
    forall k ensures MatchAccount(t, c, k, clock) { MatchAccountSuccess(s, b, account, ip, k, at, clock); }
  }

  lemma SizeAfterSuccess<A, I>(s: State<A, I>, account: A, ip: I, at: nat)
    ensures var t := Succeeded(s, account, ip, at); |t.accounts| <= |s.accounts| && |t.ips| <= |s.ips|
  {
    var t := Succeeded(s, account, ip, at);
    SubsetSize(t.accounts.Keys, s.accounts.Keys);
    assert t.ips.Keys == s.ips.Keys;
  }

  lemma SizeAfterTry<A, I>(s: State<A, I>, account: A, ip: I, now: nat)
    requires |s.accounts| <= MAX_KEYS && |s.ips| <= MAX_KEYS
    ensures var t := Begun(s, account, ip, now).0; |t.accounts| <= MAX_KEYS && |t.ips| <= MAX_KEYS
  {
    var r := Answer(s, account, ip, now);
    var a, i := Look(s.accounts, account, now), Look(s.ips, ip, now);
    RoomSize(s.accounts, account, now);
    RoomSize(s.ips, ip, now);
    assert AccountsAfter(s.accounts, account, r, now).Keys == a.map'.Keys;
    assert IpsAfter(s.ips, ip, r, now).Keys == i.map'.Keys;
  }

  lemma IpAfterSuccess<A, I>(s: State<A, I>, b: Book<A, I>, account: A, ip: I, k: I, at: nat, clock: nat)
    requires MatchIp(s, b, k, clock)
    ensures MatchIp(Succeeded(s, account, ip, at), LedgerSucceeded(b, account, ip, at), k, clock)
  {
    if k == ip {
      var l := TurnsOf(b, ip);
      SoundPay(l, at, clock);
      UnpaidPay(l, at);
      UnpaidInOrder(l, clock);
      NextAfterPay(l, at);
      if ip in s.ips {
        MatchWithout(s.ips, ip, Unpaid(l), NextOf(l), at, clock);
      } else {
        MatchAbsent(s.ips, ip, Unpaid(l), NextOf(l), at, clock);
      }
    }
  }

  lemma NextAfterPay(l: Ledger, at: nat)
    ensures NextOf(Pay(l, at)) == NextOf(l)
  {
    PayFields(l, at);
  }

  lemma RoomSize<K>(m: Counts<K>, key: K, now: nat)
    requires |m| <= MAX_KEYS
    ensures |Look(m, key, now).map'| <= MAX_KEYS
  {
    var r := Retain(m, now);
    assert r.Keys <= m.Keys;
    SubsetSize(r.Keys, m.Keys);
    var room := Room(m, key, now);
    if key !in room { assert (room[key := Entry([], None)]).Keys == room.Keys + {key}; }
    var l := Look(m, key, now);
    assert l.map'.Keys == room.Keys || l.map'.Keys == room.Keys + {key};
  }

  lemma {:induction false} SubsetSize<K>(a: set<K>, b: set<K>)
    requires a <= b
    ensures |a| <= |b|
  {
    if a != {} {
      var x :| x in a;
      SubsetSize(a - {x}, b - {x});
    }
  }

  // ----- Runs -----

  datatype Op<A, I> = Try(account: A, ip: I, now: nat) | Good(account: A, ip: I, at: nat)

  // The throttle beside the ledger. The clock is the time of the last attempt.
  datatype System<A, I> = System(s: State<A, I>, b: Book<A, I>, clock: nat)

  function Start<A, I>(): System<A, I> { System(State(map[], map[]), Book(map[], map[]), 0) }

  function After<A, I>(x: System<A, I>, op: Op<A, I>): System<A, I> {
    match op
    case Try(account, ip, now) =>
      System(Begun(x.s, account, ip, now).0,
             LedgerBegun(x.b, account, ip, now, CanCount(x.s.accounts, account, now), CanCount(x.s.ips, ip, now)), now)
    case Good(account, ip, at) =>
      System(Succeeded(x.s, account, ip, at), LedgerSucceeded(x.b, account, ip, at), x.clock)
  }

  // Any sequence of attempts and successes in which time does not go back.
  ghost predicate Run<A, I>(trace: seq<System<A, I>>, ops: seq<Op<A, I>>) {
    && |trace| == |ops| + 1 && trace[0] == Start()
    && (forall i :: 0 <= i < |ops| ==>
        (ops[i].Try? ==> trace[i].clock <= ops[i].now) && trace[i + 1] == After(trace[i], ops[i]))
  }

  lemma {:induction false} RunAgrees<A(!new), I(!new)>(trace: seq<System<A, I>>, ops: seq<Op<A, I>>, i: nat)
    requires Run(trace, ops) && i <= |ops|
    ensures Agree(trace[i].s, trace[i].b, trace[i].clock)
  {
    if i == 0 {
      forall k ensures MatchIp(trace[0].s, trace[0].b, k, 0) {}
    } else {
      RunAgrees(trace, ops, i - 1);
      var x := trace[i - 1];
      match ops[i - 1]
      case Try(account, ip, now) => AgreeTry(x.s, x.b, account, ip, x.clock, now);
      case Good(account, ip, at) => AgreeSuccess(x.s, x.b, account, ip, at, x.clock);
    }
  }

  // Whenever the throttle answers, it answers as the ledger does: the count is
  // the recorded attempts in the window that no success took back.
  lemma RunAnswers<A(!new), I(!new)>(trace: seq<System<A, I>>, ops: seq<Op<A, I>>, i: nat)
    requires Run(trace, ops) && i < |ops| && ops[i].Try?
    ensures var x, op := trace[i], ops[i];
            Begun(x.s, op.account, op.ip, op.now).1 ==
            LedgerOutcome(FailsOf(x.b, op.account), TurnsOf(x.b, op.ip), op.now,
                          CanCount(x.s.accounts, op.account, op.now), CanCount(x.s.ips, op.ip, op.now))
  {
    RunAgrees(trace, ops, i);
    var x, op := trace[i], ops[i];
    assert MatchIp(x.s, x.b, op.ip, x.clock) && MatchAccount(x.s, x.b, op.account, x.clock);
    SameOutcome(x.s, op.account, op.ip, FailsOf(x.b, op.account), TurnsOf(x.b, op.ip), x.clock, op.now);
  }

  // The wait that two counts and a queue call for: the delay for the larger count,
  // or what is left of the queue if that is longer.
  ghost predicate IsWait(wait: nat, account: nat, ip: nat, queue: Option<nat>, now: nat) {
    && (account >= ip ==> wait >= DelayFor(account)) && (ip >= account ==> wait >= DelayFor(ip))
    && (queue.Some? ==> now + wait >= queue.value)
    && (|| (account >= ip && wait == DelayFor(account)) || (ip >= account && wait == DelayFor(ip))
        || (queue.Some? && now + wait == queue.value))
  }

  // The larger count, up to 10 000.
  ghost predicate IsCount(failures: nat, account: nat, ip: nat) {
    && (account >= ip ==> failures == if account < 10_000 then account else 10_000)
    && (ip >= account ==> failures == if ip < 10_000 then ip else 10_000)
  }

  // 60 seconds, or what is left of the queue if that is longer.
  ghost predicate IsLongWait(wait: nat, queue: Option<nat>, now: nat) {
    && wait >= 60_000_000_000 && (queue.Some? ==> now + wait >= queue.value)
    && (wait == 60_000_000_000 || queue == Some(now + wait))
  }

  // Over any run: a granted attempt waits exactly as long as the larger of the two
  // recorded counts and the IP's own queue call for, and reports that count up to
  // 10 000. An account that the map cannot count calls for the longest delay, and an
  // IP that it cannot count waits just that.
  lemma RunWait<A(!new), I(!new)>(trace: seq<System<A, I>>, ops: seq<Op<A, I>>, i: nat)
    requires Run(trace, ops) && i < |ops| && ops[i].Try?
    requires Begun(trace[i].s, ops[i].account, ops[i].ip, ops[i].now).1.Ok?
    ensures var x, op := trace[i], ops[i];
            var r := Begun(x.s, op.account, op.ip, op.now).1.value;
            var log, l := FailsOf(x.b, op.account), TurnsOf(x.b, op.ip);
            var account, ip := Recent(log, |log|, op.now), Live(l, |l|, op.now);
            var ca, ci := CanCount(x.s.accounts, op.account, op.now), CanCount(x.s.ips, op.ip, op.now);
            && r.at == op.now
            && (ca && ci ==> IsWait(r.wait, account, ip, NextOf(l), op.now) && IsCount(r.failures, account, ip))
            && (!ca && ci ==> IsLongWait(r.wait, NextOf(l), op.now) && r.failures == 10_000)
            && (!ci ==> r.wait == 60_000_000_000 && r.failures == 10_000)
  {
    RunAnswers(trace, ops, i);
    var x, op := trace[i], ops[i];
    var log, l := FailsOf(x.b, op.account), TurnsOf(x.b, op.ip);
    DelaySmall();
    hide Begun, Run, CanCount, Recent, Live, DelayFor, NextOf;
    WaitOf(Recent(log, |log|, op.now), Live(l, |l|, op.now), NextOf(l), op.now);
  }

  lemma WaitOf(account: nat, ip: nat, queue: Option<nat>, now: nat)
    ensures var r := Decide(Some(account), Some(ip), queue, now); r.Ok? ==>
              && r.value.at == now && IsWait(r.value.wait, account, ip, queue, now)
              && IsCount(r.value.failures, account, ip)
  {
    hide DelayFor;
  }

  // No IP ever has more than 25 live failures on record, in the ledger or in its deque.
  lemma RunAtMost25<A(!new), I(!new)>(trace: seq<System<A, I>>, ops: seq<Op<A, I>>, i: nat, ip: I, now: nat)
    requires Run(trace, ops) && i <= |ops| && trace[i].clock <= now
    ensures var l := TurnsOf(trace[i].b, ip); Live(l, |l|, now) <= 25
    ensures |Prune(TimesIn(trace[i].s.ips, ip), now)| <= 25
  {
    RunAgrees(trace, ops, i);
    var x, l := trace[i], TurnsOf(trace[i].b, ip);
    assert MatchIp(x.s, x.b, ip, x.clock);
    AtMost25(l, now, x.clock);
    MatchLater(x.s.ips, ip, Unpaid(l), NextOf(l), x.clock, now);
    UnpaidCounts(l, |l|, now, x.clock);
    assert l[..|l|] == l;
  }

  // Recorded turns start in order, each after the delay of the ones before it,
  // and none waits longer than the longest delay. No map outgrows its cap.
  lemma RunSpaced<A(!new), I(!new)>(trace: seq<System<A, I>>, ops: seq<Op<A, I>>, i: nat, ip: I)
    requires Run(trace, ops) && i <= |ops|
    ensures Spaced(TurnsOf(trace[i].b, ip))
    ensures |trace[i].s.accounts| <= MAX_KEYS && |trace[i].s.ips| <= MAX_KEYS
  {
    RunAgrees(trace, ops, i);
    assert MatchIp(trace[i].s, trace[i].b, ip, trace[i].clock);
  }

  // A refusal means exactly that the IP's own queue reaches past the longest
  // delay. It gives the end of that queue, and it changes no record.
  lemma RunRefusal<A(!new), I(!new)>(trace: seq<System<A, I>>, ops: seq<Op<A, I>>, i: nat)
    requires Run(trace, ops) && i < |ops| && ops[i].Try?
    ensures var x, op := trace[i], ops[i];
            var r, next := Begun(x.s, op.account, op.ip, op.now).1, NextOf(TurnsOf(x.b, op.ip));
            && (r.Err? <==> CanCount(x.s.ips, op.ip, op.now) && next.Some? && next.value > op.now + MAX_DELAY)
            && (r.Err? ==> op.now + r.error == next.value)
            && (r.Ok? ==> r.value.wait <= MAX_DELAY)
            && (r.Err? ==> forall k :: TurnsOf(trace[i + 1].b, k) == TurnsOf(x.b, k))
            && (r.Err? ==> forall k :: FailsOf(trace[i + 1].b, k) == FailsOf(x.b, k))
  {
    hide Begun, Decide, Look, Live, Recent, NextOf;
    RunAnswers(trace, ops, i);
    var x, op := trace[i], ops[i];
    var log, l := FailsOf(x.b, op.account), TurnsOf(x.b, op.ip);
    var ca, ci := CanCount(x.s.accounts, op.account, op.now), CanCount(x.s.ips, op.ip, op.now);
    DecideBounds(if ca then Some(Recent(log, |log|, op.now)) else None,
                 if ci then Some(Live(l, |l|, op.now)) else None, if ci then NextOf(l) else None, op.now);
  }

  // Other IPs never touch an IP's turns.
  lemma OtherTurns<A, I>(x: System<A, I>, op: Op<A, I>, ip: I)
    requires op.ip != ip
    ensures TurnsOf(After(x, op).b, ip) == TurnsOf(x.b, ip)
  {
  }

  // A refused IP that comes back after the given time, with no turn in between,
  // gets one.
  lemma RetryIsGranted<A(!new), I(!new)>(trace: seq<System<A, I>>, ops: seq<Op<A, I>>, i: nat, j: nat)
    requires Run(trace, ops) && i < j < |ops| && ops[i].Try? && ops[j].Try? && ops[i].ip == ops[j].ip
    requires TurnsOf(trace[j].b, ops[i].ip) == TurnsOf(trace[i].b, ops[i].ip)
    requires var r := Begun(trace[i].s, ops[i].account, ops[i].ip, ops[i].now).1;
             r.Err? && ops[j].now >= ops[i].now + r.error
    ensures Begun(trace[j].s, ops[j].account, ops[j].ip, ops[j].now).1.Ok?
  {
    RunRefusal(trace, ops, i);
    RunRefusal(trace, ops, j);
  }

  // An IP that cannot be counted means a map full of other IPs, each with a live
  // failure or a pending turn.
  lemma UncountedMeansFull<A(!new), I(!new)>(trace: seq<System<A, I>>, ops: seq<Op<A, I>>, i: nat, ip: I, now: nat)
    requires Run(trace, ops) && i <= |ops| && trace[i].clock <= now && !CanCount(trace[i].s.ips, ip, now)
    ensures var busy := Retain(trace[i].s.ips, now).Keys;
            && |busy| >= MAX_KEYS && ip !in busy
            && (forall k <- busy :: var l := TurnsOf(trace[i].b, k);
                Live(l, |l|, now) > 0 || (NextOf(l).Some? && NextOf(l).value > now))
  {
    RunAgrees(trace, ops, i);
    var x := trace[i];
    forall k | k in Retain(x.s.ips, now).Keys
      ensures var l := TurnsOf(x.b, k); Live(l, |l|, now) > 0 || (NextOf(l).Some? && NextOf(l).value > now)
    {
      var l := TurnsOf(x.b, k);
      assert MatchIp(x.s, x.b, k, x.clock);
      KeptIsLive(x.s.ips, k, l, x.clock, now);
    }
  }

  lemma KeptIsLive<I>(m: Counts<I>, k: I, l: Ledger, clock: nat, now: nat)
    requires Match(m, k, Unpaid(l), NextOf(l), clock) && InOrder(l, clock) && clock <= now
    requires k in m && Kept(m[k], now)
    ensures Live(l, |l|, now) > 0 || (NextOf(l).Some? && NextOf(l).value > now)
  {
    if m[k].times != [] && InWindow(m[k].times[|m[k].times| - 1], now) {
      PruneKeepsLast(m[k].times, now);
      hide Prune, Unpaid, Live, InOrder;
      MatchLater(m, k, Unpaid(l), NextOf(l), clock, now);
      UnpaidCounts(l, |l|, now, clock);
      assert l[..|l|] == l;
    }
  }

  lemma PruneKeepsLast(times: seq<nat>, now: nat)
    requires times != [] && InWindow(times[|times| - 1], now)
    ensures |Prune(times, now)| > 0
  {
    var before, last := times[..|times| - 1], times[|times| - 1];
    assert times == before + [last];
    PrunePush(before, last, now);
  }
}
