// Runs over the accounts, the sessions and the parallel setup claims of
// `setup.rs`. Each database call is one step, and a setup claim is many.
module AccountsRuns {
  import opened Options
  import opened Accounts

  // The reference for a session: whose it is, when it started, and the exact time
  // of its last use. It is forgotten only when somebody ends the session.
  datatype Exact = Exact(account: int, csrf: string, born: nat, used: nat)

  datatype SetupToken = SetupToken(hash: nat, expires: nat)

  // Where a setup claim stands: it saw setup open, its token matched, or its
  // account was created and the token is about to be cleared.
  datatype Claim = Reading | Checked | Won

  datatype System = System(
    d: Tables,
    exact: map<Token, Exact>,
    setup: Option<SetupToken>,
    claims: map<nat, Claim>,
    wins: nat,
    clock: nat)

  datatype Op =
    | Add(id: int, account: Account)
    | Remove(id: int)
    | Change(id: int, hash: string, current: Token, login: NewSession)
    | Reset(name: Name, hash: string)
    | Login(login: NewSession)
    | FailedLogin
    | Use(token: Token)
    | Peek(token: Token)
    | Logout(token: Token)
    | Arrive(c: nat)
    | Present(c: nat, submitted: nat)
    | Create(c: nat, id: int, account: Account)
    | Close(c: nat)
    | Abandon(c: nat)

  predicate Can(x: System, op: Op) {
    match op
    // A password change is for the caller's own session, and the new one is too.
    case Change(id, _, current, login) => login.account == id
    case Arrive(c) => c !in x.claims
    case Present(c, _) => c in x.claims && x.claims[c].Reading?
    case Create(c, _, _) => c in x.claims && x.claims[c].Checked?
    case Close(c) => c in x.claims && x.claims[c].Won?
    case Abandon(c) => c in x.claims
    case _ => true
  }

  ghost function TablesAfter(d: Tables, op: Op, now: nat): Tables {
    match op
    case Add(id, account) => AddAccount(d, id, account).0
    case Remove(id) => DropAccount(d, id).0
    case Change(id, hash, current, login) =>
      (match PasswordChanged(d, id, hash, current, login, now) case Ok(r) => r.0 case Err(_) => d)
    case Reset(name, hash) => PasswordReset(d, name, hash).0
    case Login(login) =>
      (match Insert(Purged(d, now), login, now) case Ok(after) => after case Err(_) => Purged(d, now))
    case FailedLogin => Purged(d, now)
    case Use(token) => Used(d, token, now)
    case Logout(token) => d.(sessions := d.sessions - {token})
    case Create(c, id, account) => FirstAccount(d, id, account).0
    case _ => d
  }

  function Drop(exact: map<Token, Exact>, id: int): map<Token, Exact> {
    map t | t in exact && exact[t].account != id :: exact[t]
  }

  ghost function ExactAfter(x: System, op: Op, now: nat): map<Token, Exact> {
    var d, exact := x.d, x.exact;
    match op
    case Remove(id) => if DropAccount(d, id).1.Yes? then Drop(exact, id) else exact
    case Change(id, hash, current, login) =>
      if PasswordChanged(d, id, hash, current, login, now).Ok?
      then (Drop(exact, id) - {current})[login.token := Exact(id, login.csrf, now, now)] else exact
    case Reset(name, hash) => if Taken(d, name) then Drop(exact, IdOf(d, name)) else exact
    case Login(login) =>
      if Insert(Purged(d, now), login, now).Ok?
      then exact[login.token := Exact(login.account, login.csrf, now, now)] else exact
    case Use(token) =>
      if Accepted(d, token, now) && token in exact then exact[token := exact[token].(used := now)] else exact
    case Logout(token) => exact - {token}
    case _ => exact
  }

  ghost function Apply(x: System, op: Op, now: nat): System
    requires Can(x, op)
  {
    var y := x.(d := TablesAfter(x.d, op, now), exact := ExactAfter(x, op, now), clock := now);
    match op
    case Arrive(c) => if x.setup.None? then y else y.(claims := x.claims[c := Reading])
    case Present(c, submitted) =>
      if x.setup.Some? && x.setup.value.hash == submitted && now < x.setup.value.expires
      then y.(claims := x.claims[c := Checked]) else y.(claims := x.claims - {c})
    case Create(c, id, account) =>
      if FirstAccount(x.d, id, account).1 then y.(claims := x.claims[c := Won], wins := x.wins + 1)
      else y.(claims := x.claims - {c})
    case Close(c) => y.(setup := None, claims := x.claims - {c})
    case Abandon(c) => y.(claims := x.claims - {c})
    case _ => y
  }

  // ----- What every step keeps -----

  ghost predicate TracksRow(row: Row, e: Exact, clock: nat) {
    && row.account == e.account && row.csrf == e.csrf && row.expires == e.born + ABSOLUTE
    && row.seen <= e.used <= row.seen + MINUTE && e.used <= clock
  }

  ghost predicate Over(e: Exact, clock: nat) {
    clock >= e.born + ABSOLUTE || clock + MINUTE >= e.used + IDLE
  }

  // Each row tracks its reference to the minute, and a row is missing only for a
  // session that is over.
  ghost predicate Tracks(d: Tables, exact: map<Token, Exact>, clock: nat) {
    && (forall t <- d.sessions :: t in exact && TracksRow(d.sessions[t], exact[t], clock))
    && (forall t <- exact :: t in d.sessions || Over(exact[t], clock))
  }

  ghost predicate Inv(x: System) {
    && Valid(x.d) && Tracks(x.d, x.exact, x.clock)
    && x.wins <= 1 && (x.wins > 0 ==> |x.d.accounts| > 0)
  }

  lemma ValidStep(d: Tables, op: Op, now: nat)
    requires Valid(d) && (op.Change? ==> op.login.account == op.id)
    ensures Valid(TablesAfter(d, op, now))
  {
    hide PasswordChanged, PasswordReset, SessionOf;
    match op
    case Change(id, hash, current, login) =>
      if PasswordChanged(d, id, hash, current, login, now).Ok? {
        PasswordChangeIsExact(d, id, hash, current, login, now);
      }
    case Reset(name, hash) => PasswordResetIsExact(d, name, hash);
    case _ =>
  }

  lemma TracksChange(x: System, id: int, hash: string, current: Token, login: NewSession, now: nat)
    requires Valid(x.d) && Tracks(x.d, x.exact, x.clock) && x.clock <= now && login.account == id
    ensures var op := Change(id, hash, current, login); Tracks(TablesAfter(x.d, op, now), ExactAfter(x, op, now), now)
  {
    var op := Change(id, hash, current, login);
    var d, exact := TablesAfter(x.d, op, now), ExactAfter(x, op, now);
    if PasswordChanged(x.d, id, hash, current, login, now).Ok? {
      forall t | t in d.sessions ensures t in exact && TracksRow(d.sessions[t], exact[t], now) {
        ChangedRows(x.d, id, hash, current, login, now, t);
      }
      forall t | t in exact ensures t in d.sessions || Over(exact[t], now) {
        ChangedRows(x.d, id, hash, current, login, now, t);
      }
    }
  }

  lemma TracksRemove(x: System, id: int, now: nat)
    requires Valid(x.d) && Tracks(x.d, x.exact, x.clock) && x.clock <= now
    ensures var op := Remove(id); Tracks(TablesAfter(x.d, op, now), ExactAfter(x, op, now), now)
  {
  }

  lemma TracksReset(x: System, name: Name, hash: string, now: nat)
    requires Valid(x.d) && Tracks(x.d, x.exact, x.clock) && x.clock <= now
    ensures var op := Reset(name, hash); Tracks(TablesAfter(x.d, op, now), ExactAfter(x, op, now), now)
  {
  }

  lemma TracksLogout(x: System, token: Token, now: nat)
    requires Valid(x.d) && Tracks(x.d, x.exact, x.clock) && x.clock <= now
    ensures var op := Logout(token); Tracks(TablesAfter(x.d, op, now), ExactAfter(x, op, now), now)
  {
  }

  lemma TracksPurge(x: System, now: nat)
    requires Valid(x.d) && Tracks(x.d, x.exact, x.clock) && x.clock <= now
    ensures var op := FailedLogin; Tracks(TablesAfter(x.d, op, now), ExactAfter(x, op, now), now)
  {
    // What a login purges is over.
    assert forall t | t in x.d.sessions && !Alive(x.d.sessions[t], now) :: Over(x.exact[t], now);
  }

  lemma TracksLogin(x: System, login: NewSession, now: nat)
    requires Valid(x.d) && Tracks(x.d, x.exact, x.clock) && x.clock <= now
    ensures var op := Login(login); Tracks(TablesAfter(x.d, op, now), ExactAfter(x, op, now), now)
  {
    TracksPurge(x, now);
  }

  lemma TracksUse(x: System, token: Token, now: nat)
    requires Valid(x.d) && Tracks(x.d, x.exact, x.clock) && x.clock <= now
    ensures var op := Use(token); Tracks(TablesAfter(x.d, op, now), ExactAfter(x, op, now), now)
  {
  }

  lemma TracksStep(x: System, op: Op, now: nat)
    requires Inv(x) && Can(x, op) && x.clock <= now
    ensures Tracks(TablesAfter(x.d, op, now), ExactAfter(x, op, now), now)
  {
    if op.Change? {
      TracksChange(x, op.id, op.hash, op.current, op.login, now);
    } else if op.Remove? {
      TracksRemove(x, op.id, now);
    } else if op.Reset? {
      TracksReset(x, op.name, op.hash, now);
    } else if op.Logout? {
      TracksLogout(x, op.token, now);
    } else if op.Login? {
      TracksLogin(x, op.login, now);
    } else if op.FailedLogin? {
      TracksPurge(x, now);
    } else if op.Use? {
      TracksUse(x, op.token, now);
    }
  }

  lemma OnlyRemoveShrinks(d: Tables, op: Op, now: nat)
    requires !op.Remove?
    ensures d.accounts.Keys <= TablesAfter(d, op, now).accounts.Keys
  {
    hide SessionsOf, Alive, Accepted;
  }

  lemma RemoveLeavesOne(d: Tables, id: int)
    requires |d.accounts| > 0
    ensures |DropAccount(d, id).0.accounts| > 0
  {
    hide SessionsOf;
    if DropAccount(d, id).1.Yes? {
      assert |d.accounts.Keys - {id}| == |d.accounts.Keys| - 1;
      assert DropAccount(d, id).0.accounts.Keys == d.accounts.Keys - {id};
    }
  }

  // No operation empties the accounts table once it has an account.
  lemma NeverEmptied(d: Tables, op: Op, now: nat)
    requires |d.accounts| > 0
    ensures |TablesAfter(d, op, now).accounts| > 0
  {
    if op.Remove? {
      RemoveLeavesOne(d, op.id);
      hide DropAccount;
    } else {
      OnlyRemoveShrinks(d, op, now);
      hide TablesAfter;
      var after := TablesAfter(d, op, now).accounts;
      assert d.accounts.Keys != {};
      assert |after.Keys| == |after|;
    }
  }

  lemma InvStep(x: System, op: Op, now: nat)
    requires Inv(x) && Can(x, op) && x.clock <= now
    ensures Inv(Apply(x, op, now))
  {
    ValidStep(x.d, op, now);
    TracksStep(x, op, now);
    if |x.d.accounts| > 0 { NeverEmptied(x.d, op, now); }
    if op.Create? && FirstAccount(x.d, op.id, op.account).1 {
      assert op.id in TablesAfter(x.d, op, now).accounts;
    }
  }

  // ----- Runs -----

  // A run from any consistent state in which no claim has won yet, with time that
  // does not go back.
  ghost predicate Run(trace: seq<System>, ops: seq<Op>) {
    && |trace| == |ops| + 1 && Inv(trace[0]) && trace[0].wins == 0
    && (forall i :: 0 <= i < |ops| ==>
        && Can(trace[i], ops[i]) && trace[i].clock <= trace[i + 1].clock
        && trace[i + 1] == Apply(trace[i], ops[i], trace[i + 1].clock))
  }

  lemma {:induction false} RunInv(trace: seq<System>, ops: seq<Op>, i: nat)
    requires Run(trace, ops) && i <= |ops|
    ensures Inv(trace[i])
  {
    hide Apply, Can, Tracks, Valid;
    if i == 0 {
    } else {
      RunInv(trace, ops, i - 1);
      InvStep(trace[i - 1], ops[i - 1], trace[i].clock);
    }
  }

  // Over all interleavings of claims, creates, deletes and password changes: at
  // most one claim wins, and only into an empty table; the table never becomes
  // empty again; and every session belongs to an account that exists.
  lemma {:induction false} SetupWinsOnce(trace: seq<System>, ops: seq<Op>, i: nat, j: nat)
    requires Run(trace, ops) && i <= j <= |ops|
    ensures trace[j].wins <= 1
    ensures |trace[i].d.accounts| > 0 ==> |trace[j].d.accounts| > 0 && trace[j].wins == trace[i].wins
    ensures forall t <- trace[j].d.sessions :: trace[j].d.sessions[t].account in trace[j].d.accounts
  {
    hide Apply, Tracks, TablesAfter;
    RunInv(trace, ops, j);
    if i == j {
    } else {
      SetupWinsOnce(trace, ops, i, j - 1);
      if |trace[i].d.accounts| > 0 {
        NeverEmptied(trace[j - 1].d, ops[j - 1], trace[j].clock);
        NoWin(trace[j - 1], ops[j - 1], trace[j].clock);
      }
    }
  }

  lemma NoWin(x: System, op: Op, now: nat)
    requires Can(x, op) && |x.d.accounts| > 0
    ensures Apply(x, op, now).wins == x.wins && Apply(x, op, now).d == TablesAfter(x.d, op, now)
  {
  }

  // The once-a-minute write and the purge refine exact use times: a session that
  // nobody ended is accepted until 59 minutes after its last use, refused from 60
  // minutes on, refused from 24 hours on, and every other token is refused.
  lemma SessionTimes(trace: seq<System>, ops: seq<Op>, i: nat, token: Token, now: nat)
    requires Run(trace, ops) && i <= |ops| && trace[i].clock <= now
    ensures var x := trace[i];
            && (token !in x.exact ==> !Accepted(x.d, token, now))
            && (token in x.exact ==> var e := x.exact[token];
                && (now < e.born + 86_400_000 && now < e.used + 3_540_000 ==> Accepted(x.d, token, now))
                && (now >= e.born + 86_400_000 || now >= e.used + 3_600_000 ==> !Accepted(x.d, token, now)))
  {
    RunInv(trace, ops, i);
  }

  // What a request learns is what the login that made its session gave: its account,
  // with the name that this account has, and its CSRF token.
  lemma SessionIsOfItsLogin(trace: seq<System>, ops: seq<Op>, i: nat, token: Token, now: nat)
    requires Run(trace, ops) && i <= |ops| && trace[i].clock <= now && SessionOf(trace[i].d, token, now).Some?
    ensures var x, s := trace[i], SessionOf(trace[i].d, token, now).value;
            && token in x.exact && s.account == x.exact[token].account && s.csrf == x.exact[token].csrf
            && s.account in x.d.accounts && s.name == x.d.accounts[s.account].name
  {
    RunInv(trace, ops, i);
  }

  // ----- Only the token's holder wins -----

  // Call `j` showed this claim's token to be the right one and in time.
  ghost predicate Showed(trace: seq<System>, ops: seq<Op>, j: nat, c: nat) {
    && j < |ops| < |trace| && ops[j].Present? && ops[j].c == c && trace[j].setup.Some?
    && ops[j].submitted == trace[j].setup.value.hash && trace[j + 1].clock < trace[j].setup.value.expires
  }

  lemma ClaimStep(x: System, op: Op, now: nat, c: nat)
    requires Can(x, op) && c in Apply(x, op, now).claims && !Apply(x, op, now).claims[c].Reading?
    ensures (c in x.claims && !x.claims[c].Reading?)
         || (op.Present? && op.c == c && x.setup.Some?
             && op.submitted == x.setup.value.hash && now < x.setup.value.expires)
  {
  }

  lemma {:induction false} CheckedHasShown(trace: seq<System>, ops: seq<Op>, i: nat, c: nat)
    requires Run(trace, ops) && i <= |ops| && trace[0].claims == map[]
    requires c in trace[i].claims && !trace[i].claims[c].Reading?
    ensures exists j: nat :: j < i && Showed(trace, ops, j, c)
  {
    if i == 0 {
      assert false;
    } else {
      ClaimStep(trace[i - 1], ops[i - 1], trace[i].clock, c);
      if c in trace[i - 1].claims && !trace[i - 1].claims[c].Reading? {
        CheckedHasShown(trace, ops, i - 1, c);
      } else {
        assert Showed(trace, ops, i - 1, c);
      }
    }
  }

  // A claim creates the account only after it showed the setup token, in time.
  lemma WinnerHasShown(trace: seq<System>, ops: seq<Op>, i: nat)
    requires Run(trace, ops) && i < |ops| && trace[0].claims == map[] && trace[i + 1].wins > trace[i].wins
    ensures ops[i].Create? && trace[i].d.accounts == map[] && exists j: nat :: j < i && Showed(trace, ops, j, ops[i].c)
  {
    assert ops[i].Create?;
    FirstIsExact(trace[i].d, ops[i].id, ops[i].account);
    CheckedHasShown(trace, ops, i, ops[i].c);
  }

  lemma ClosedSetupStays(x: System, op: Op, now: nat)
    requires Can(x, op) && x.setup.None?
    ensures Apply(x, op, now).setup.None?
    ensures forall c <- Apply(x, op, now).claims :: c in x.claims
  {
  }

  // Once a winner has cleared the token, setup is closed for good: no new claim gets in.
  lemma {:induction false} WinnerClosesSetup(trace: seq<System>, ops: seq<Op>, i: nat, j: nat)
    requires Run(trace, ops) && i < j <= |ops| && ops[i].Close?
    ensures trace[j].setup.None? && forall c <- trace[j].claims :: c in trace[i].claims
  {
    if j == i + 1 {
    } else {
      WinnerClosesSetup(trace, ops, i, j - 1);
      ClosedSetupStays(trace[j - 1], ops[j - 1], trace[j].clock);
      hide Apply;
    }
  }

  // ----- Looking is not use -----

  // One call and its time.
  datatype Timed = Timed(op: Op, now: nat)

  // The calls can be made one after the other from `x`.
  ghost predicate CanAll(x: System, calls: seq<Timed>)
    decreases |calls|
  {
    calls == [] || (Can(x, calls[0].op) && CanAll(Apply(x, calls[0].op, calls[0].now), calls[1..]))
  }

  ghost function ApplyAll(x: System, calls: seq<Timed>): System
    requires CanAll(x, calls)
    decreases |calls|
  {
    if calls == [] then x else ApplyAll(Apply(x, calls[0].op, calls[0].now), calls[1..])
  }

  function WithoutPeeks(calls: seq<Timed>): seq<Timed> {
    if calls == [] then []
    else (if calls[0].op.Peek? then [] else [calls[0]]) + WithoutPeeks(calls[1..])
  }

  // All but the clock.
  ghost predicate Same(x: System, y: System) { x.(clock := 0) == y.(clock := 0) }

  lemma SameAfter(x: System, y: System, op: Op, now: nat)
    requires Same(x, y) && Can(x, op)
    ensures Can(y, op) && Same(Apply(x, op, now), Apply(y, op, now))
  {
    assert x.d == y.d && x.exact == y.exact && x.setup == y.setup && x.claims == y.claims && x.wins == y.wins;
    assert ExactAfter(x, op, now) == ExactAfter(y, op, now);
  }

  // A run with every look at a session left out goes the same way: the same
  // tables, the same exact times, the same claims, and so the same answer to every
  // token at any time.
  lemma {:induction false} PeekIsNotUse(x: System, y: System, calls: seq<Timed>, token: Token, now: nat)
    requires Same(x, y) && CanAll(x, calls)
    ensures CanAll(y, WithoutPeeks(calls)) && Same(ApplyAll(x, calls), ApplyAll(y, WithoutPeeks(calls)))
    ensures SessionOf(ApplyAll(x, calls).d, token, now) == SessionOf(ApplyAll(y, WithoutPeeks(calls)).d, token, now)
    decreases |calls|
  {
    if calls == [] {
    } else {
      var op, at, rest := calls[0].op, calls[0].now, calls[1..];
      if op.Peek? {
        assert WithoutPeeks(calls) == WithoutPeeks(rest);
        assert Same(Apply(x, op, at), y);
        PeekIsNotUse(Apply(x, op, at), y, rest, token, now);
      } else {
        SameAfter(x, y, op, at);
        var left := WithoutPeeks(calls);
        assert left[0] == calls[0] && left[1..] == WithoutPeeks(rest);
        PeekIsNotUse(Apply(x, op, at), Apply(y, op, at), rest, token, now);
      }
    }
  }
}
