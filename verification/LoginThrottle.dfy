// The login throttle of `throttle.rs`: sliding-window deques of attempt times,
// pruned lazily from the front, in capped maps that drop dead keys when full,
// with a growing delay and one queue of turns per client IP.
//
// Times are in nanoseconds. Keys are the normalised account and IP keys.
module LoginThrottle {
  import opened Options
  import opened Collections

  const FREE_FAILURES: nat := 5
  const WINDOW: nat := 900_000_000_000   // 15 minutes
  const MAX_DELAY: nat := 60_000_000_000 // 60 seconds
  const MAX_KEYS: nat := 10_000
  const USIZE_MAX: nat := 0xFFFF_FFFF_FFFF_FFFF

  // What a map keeps for a key: the times of its unsuccessful attempts, oldest
  // first, and where the queue of an IP ends.
  datatype Entry = Entry(times: seq<nat>, next: Option<nat>)

  type Counts<K> = map<K, Entry>

  datatype State<A, I> = State(accounts: Counts<A>, ips: Counts<I>)

  // A granted attempt: its wait, the count behind the wait, and its time.
  datatype Attempt = Attempt(wait: nat, failures: nat, at: nat)

  function Max(a: nat, b: nat): nat { if a < b then b else a }

  function Min(a: nat, b: nat): nat { if a < b then a else b }

  // 1 second << exponent.
  function Shifted(exponent: nat): nat {
    if exponent == 0 then 1_000_000_000 else 2 * Shifted(exponent - 1)
  }

  function DelayFor(failures: nat): nat {
    if failures < FREE_FAILURES then 0 else Min(Shifted(Min(failures - FREE_FAILURES, 6)), MAX_DELAY)
  }

  predicate InWindow(t: nat, now: nat) { now < t + WINDOW }

  // The deque without the times at its front that have left the window.
  function Prune(times: seq<nat>, now: nat): seq<nat> {
    if times != [] && !InWindow(times[0], now) then Prune(times[1..], now) else times
  }

  // A key that a full map keeps: it has a live failure or a pending turn.
  predicate Kept(e: Entry, now: nat) {
    (e.times != [] && InWindow(e.times[|e.times| - 1], now)) || (e.next.Some? && e.next.value > now)
  }

  function Retain<K>(m: Counts<K>, now: nat): Counts<K> {
    map k | k in m && Kept(m[k], now) :: m[k]
  }

  function Room<K>(m: Counts<K>, key: K, now: nat): Counts<K> {
    if |m| >= MAX_KEYS && key !in m then Retain(m, now) else m
  }

  // A lookup: the map after it, and the pruned entry, unless a full map leaves a
  // new key no place.
  datatype Looked<K> = Looked(map': Counts<K>, entry: Option<Entry>)

  function Look<K>(m: Counts<K>, key: K, now: nat): Looked<K> {
    var room := Room(m, key, now);
    if key !in room && |room| >= MAX_KEYS then Looked(room, None)
    else
      var e := if key in room then room[key] else Entry([], None);
      var pruned := e.(times := Prune(e.times, now));
      Looked(room[key := pruned], Some(pruned))
  }

  // The larger of the two counts. A key without a place counts as the worst.
  function Failures(ac: Option<nat>, ic: Option<nat>): nat {
    if ac.Some? && ic.Some? then Max(ac.value, ic.value) else USIZE_MAX
  }

  function StartFor(failures: nat, next: Option<nat>, now: nat): nat {
    var start := now + DelayFor(failures);
    if next.Some? then Max(start, next.value) else start
  }

  // The answer, from both counts and the IP's place in its queue: a wait, or for a
  // refusal how long the queue still is.
  function Decide(ac: Option<nat>, ic: Option<nat>, next: Option<nat>, now: nat): Result<Attempt, nat> {
    var start := StartFor(Failures(ac, ic), next, now);
    if ic.Some? && start - now > MAX_DELAY then Err(start - now)
    else Ok(Attempt(start - now, Min(Failures(ac, ic), MAX_KEYS), now))
  }

  function CountOf(e: Option<Entry>): Option<nat> { if e.Some? then Some(|e.value.times|) else None }

  function PlaceOf(e: Option<Entry>): Option<nat> { if e.Some? then e.value.next else None }

  function Pushed(e: Entry, now: nat): Entry { e.(times := e.times + [now]) }

  // The account's map after an attempt with the answer `r`.
  function AccountsAfter<A>(m: Counts<A>, account: A, r: Result<Attempt, nat>, now: nat): Counts<A> {
    var looked := Look(m, account, now).map';
    if r.Ok? && account in looked then looked[account := Pushed(looked[account], now)] else looked
  }

  // The IP's map after it. A grant moves the end of the queue behind its own delay.
  function IpsAfter<I>(m: Counts<I>, ip: I, r: Result<Attempt, nat>, now: nat): Counts<I> {
    var i := Look(m, ip, now);
    if r.Err? || i.entry.None? then i.map'
    else
      var e := Pushed(i.entry.value, now);
      i.map'[ip := e.(next := Some(now + r.value.wait + DelayFor(|e.times|)))]
  }

  function Answer<A, I>(s: State<A, I>, account: A, ip: I, now: nat): Result<Attempt, nat> {
    var a, i := Look(s.accounts, account, now).entry, Look(s.ips, ip, now).entry;
    Decide(CountOf(a), CountOf(i), PlaceOf(i), now)
  }

  // One attempt: a grant is on record as a failure at once.
  function Begun<A, I>(s: State<A, I>, account: A, ip: I, now: nat): (State<A, I>, Result<Attempt, nat>) {
    var r := Answer(s, account, ip, now);
    (State(AccountsAfter(s.accounts, account, r, now), IpsAfter(s.ips, ip, r, now)), r)
  }

  // A success forgets the account's record and one time of the IP's.
  function Succeeded<A, I>(s: State<A, I>, account: A, ip: I, at: nat): State<A, I> {
    State(s.accounts - {account},
          if ip in s.ips then s.ips[ip := s.ips[ip].(times := Without(s.ips[ip].times, at))] else s.ips)
  }

  // ----- The implementation -----

  lemma {:induction false} PruneStep(times: seq<nat>, n: nat, now: nat)
    requires n < |times| && !InWindow(times[n], now)
    ensures Prune(times[n..], now) == Prune(times[n + 1..], now)
  {
    assert times[n..][1..] == times[n + 1..];
  }

  method PopOld(times: seq<nat>, now: nat) returns (left: seq<nat>)
    ensures left == Prune(times, now)
  {
    left := times;
    ghost var n := 0;
    while left != [] && !InWindow(left[0], now)
      invariant n <= |times| && left == times[n..]
      invariant Prune(left, now) == Prune(times, now)
    {
      PruneStep(times, n, now);
      left := left[1..];
      n := n + 1;
    }
  }

  lemma WithoutStep(times: seq<nat>, i: nat, t: nat)
    requires i < |times|
    ensures Without(times[i..], t) == if times[i] == t then times[i + 1..] else [times[i]] + Without(times[i + 1..], t)
  {
    assert times[i..][1..] == times[i + 1..];
  }

  method Position(times: seq<nat>, t: nat) returns (found: Option<nat>)
    ensures found.Some? ==>
      found.value < |times| && Without(times, t) == times[..found.value] + times[found.value + 1..]
    ensures found.None? ==> Without(times, t) == times
  {
    assert times == times[0..] && Without([], t) == [];
    hide Without;
    for i := 0 to |times|
      invariant Without(times, t) == times[..i] + Without(times[i..], t)
    {
      WithoutStep(times, i, t);
      if times[i] == t {
        return Some(i);
      }
      assert times[..i] + [times[i]] == times[..i + 1];
    }
    return None;
  }

  // Counts::entry.
  method EntryOf<K(==)>(m: Counts<K>, key: K, now: nat) returns (after: Counts<K>, entry: Option<Entry>)
    ensures Looked(after, entry) == Look(m, key, now)
  {
    after := m;
    if |after| >= MAX_KEYS && key !in after {
      after := map k | k in after && Kept(after[k], now) :: after[k];
      if |after| >= MAX_KEYS {
        return after, None;
      }
    }
    var e := if key in after then after[key] else Entry([], None);
    var left := PopOld(e.times, now);
    e := e.(times := left);
    after := after[key := e];
    entry := Some(e);
  }

  // The wait, or the refusal, for the entries that the lookups found.
  method Queue(a: Option<Entry>, i: Option<Entry>, now: nat) returns (r: Result<Attempt, nat>)
    ensures r == Decide(CountOf(a), CountOf(i), PlaceOf(i), now)
  {
    var failures := if a.Some? && i.Some? then Max(|a.value.times|, |i.value.times|) else USIZE_MAX;
    var start := now + DelayFor(failures);
    if i.Some? {
      if i.value.next.Some? {
        start := Max(start, i.value.next.value);
      }
      if start - now > MAX_DELAY {
        return Err(start - now);
      }
    }
    return Ok(Attempt(start - now, Min(failures, MAX_KEYS), now));
  }

  class Throttle<A(==), I(==)> {
    var accounts: Counts<A>
    var ips: Counts<I>

    ghost function View(): State<A, I>
      reads this
    {
      State(accounts, ips)
    }

    constructor ()
      ensures View() == State(map[], map[])
    {
      accounts, ips := map[], map[];
    }

    method Begin(account: A, ip: I, now: nat) returns (r: Result<Attempt, nat>)
      modifies this
      ensures (View(), r) == Begun(old(View()), account, ip, now)
    {
      var a, i;
      accounts, a := EntryOf(accounts, account, now);
      ips, i := EntryOf(ips, ip, now);
      r := Queue(a, i, now);
      if r.Err? {
        return;
      }
      if i.Some? {
        var e := i.value.(times := i.value.times + [now]);
        ips := ips[ip := e.(next := Some(now + r.value.wait + DelayFor(|e.times|)))];
      }
      if account in accounts {
        accounts := accounts[account := Pushed(accounts[account], now)];
      }
    }

    method Succeed(account: A, ip: I, attempt: Attempt)
      modifies this
      ensures View() == Succeeded(old(View()), account, ip, attempt.at)
    {
      accounts := accounts - {account};
      if ip in ips {
        var e := ips[ip];
        var found := Position(e.times, attempt.at);
        if found.Some? {
          ips := ips[ip := e.(times := e.times[..found.value] + e.times[found.value + 1..])];
        }
      }
    }
  }
}
