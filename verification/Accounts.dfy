// Accounts and sessions of `db/mod.rs`: two tables with a cascade, changed by
// transactions that commit whole or not at all. Times are in milliseconds.
module Accounts {
  import opened Options

  const MINUTE: nat := 60_000
  const IDLE: nat := 3_600_000       // 60 minutes without use
  const ABSOLUTE: nat := 86_400_000  // 24 hours after the start

  // A username, with letter case folded: the column compares without case.
  type Name = string
  // The SHA-256 of a session token.
  type Token = nat

  datatype Account = Account(name: Name, hash: string)
  datatype Row = Row(account: int, csrf: string, seen: nat, expires: nat)
  datatype NewSession = NewSession(token: Token, account: int, csrf: string)
  // What a request learns about its session.
  datatype Session = Session(account: int, name: Name, csrf: string)

  datatype Tables = Tables(accounts: map<int, Account>, sessions: map<Token, Row>)

  datatype Deleted = Yes(name: Name) | NoSuchAccount | LastAccount

  ghost predicate Valid(d: Tables) {
    && (forall t <- d.sessions :: d.sessions[t].account in d.accounts)
    && (forall i, j | i in d.accounts && j in d.accounts && d.accounts[i].name == d.accounts[j].name :: i == j)
  }

  function SessionsOf(d: Tables, id: int): set<Token> {
    set t | t in d.sessions && d.sessions[t].account == id
  }

  predicate Taken(d: Tables, name: Name) {
    exists i :: i in d.accounts && d.accounts[i].name == name
  }

  // ----- Each transaction as a function of the tables -----

  // The first account, only into an empty table.
  function FirstAccount(d: Tables, id: int, account: Account): (Tables, bool) {
    if |d.accounts| > 0 then (d, false) else (d.(accounts := d.accounts[id := account]), true)
  }

  function AddAccount(d: Tables, id: int, account: Account): (Tables, Option<int>) {
    if Taken(d, account.name) || id in d.accounts then (d, None)
    else (d.(accounts := d.accounts[id := account]), Some(id))
  }

  // The sessions of a deleted account go with it.
  function DropAccount(d: Tables, id: int): (Tables, Deleted) {
    if id !in d.accounts then (d, NoSuchAccount)
    else if |d.accounts| <= 1 then (d, LastAccount)
    else (Tables(d.accounts - {id}, d.sessions - SessionsOf(d, id)), Yes(d.accounts[id].name))
  }

  // The insert fails for a missing account or a token that is in use.
  function Insert(d: Tables, login: NewSession, now: nat): Result<Tables, string> {
    if login.account !in d.accounts then Err("foreign key")
    else if login.token in d.sessions then Err("unique")
    else Ok(d.(sessions := d.sessions[login.token := Row(login.account, login.csrf, now, now + ABSOLUTE)]))
  }

  function WithHash(d: Tables, id: int, hash: string): Tables {
    if id in d.accounts then d.(accounts := d.accounts[id := d.accounts[id].(hash := hash)]) else d
  }

  function PasswordChanged(d: Tables, id: int, hash: string, current: Token, login: NewSession, now: nat)
    : Result<(Tables, nat), string>
  {
    var ended := SessionsOf(d, id) - {current};
    var cleared := WithHash(d, id, hash).(sessions := d.sessions - ended - {current});
    match Insert(cleared, login, now)
    case Ok(after) => Ok((after, |ended|))
    case Err(e) => Err(e)
  }

  ghost function PasswordReset(d: Tables, name: Name, hash: string): (Tables, Option<nat>) {
    if Taken(d, name) then
      var id := IdOf(d, name);
      (WithHash(d, id, hash).(sessions := d.sessions - SessionsOf(d, id)), Some(|SessionsOf(d, id)|))
    else (d, None)
  }

  ghost function IdOf(d: Tables, name: Name): (id: int)
    requires Taken(d, name)
    ensures id in d.accounts && d.accounts[id].name == name
  {
    var i :| i in d.accounts && d.accounts[i].name == name;
    i
  }

  predicate Alive(row: Row, now: nat) { now < row.expires && now < row.seen + IDLE }

  // The sessions that a login drops are exactly those that are refused anyway.
  function Purged(d: Tables, now: nat): Tables {
    d.(sessions := map t | t in d.sessions && Alive(d.sessions[t], now) :: d.sessions[t])
  }

  predicate Accepted(d: Tables, token: Token, now: nat) {
    token in d.sessions && d.sessions[token].account in d.accounts && Alive(d.sessions[token], now)
  }

  // The answer to a request with this token.
  function SessionOf(d: Tables, token: Token, now: nat): Option<Session> {
    if Accepted(d, token, now) then
      var row := d.sessions[token];
      Some(Session(row.account, d.accounts[row.account].name, row.csrf))
    else None
  }

  // An accepted use is written down once the last one is over a minute old.
  function Used(d: Tables, token: Token, now: nat): Tables {
    if Accepted(d, token, now) && d.sessions[token].seen + MINUTE < now
    then d.(sessions := d.sessions[token := d.sessions[token].(seen := now)]) else d
  }

  // ----- The implementation -----

  class Db {
    // Whether a call may fail for a reason of the database's own, with no effect.
    const faulty: bool
    var accounts: map<int, Account>
    var sessions: map<Token, Row>

    ghost function View(): Tables
      reads this
    {
      Tables(accounts, sessions)
    }

    constructor (faulty: bool)
      ensures View() == Tables(map[], map[]) && this.faulty == faulty
    {
      this.faulty := faulty;
      accounts, sessions := map[], map[];
    }

    method Works() returns (ok: bool)
      ensures !faulty ==> ok
    {
      ok := *;
      ok := ok || !faulty;
    }

    method CreateFirstAccount(id: int, account: Account) returns (r: Result<bool, string>)
      modifies this
      ensures r.Ok? ==> (View(), r.value) == FirstAccount(old(View()), id, account)
      ensures r.Err? ==> View() == old(View())
      ensures !faulty ==> r.Ok?
    {
      var ok := Works();
      if !ok {
        return Err("database");
      }
      if |accounts| > 0 {
        return Ok(false);
      }
      accounts := accounts[id := account];
      return Ok(true);
    }

    // `id` is the row id that the table gives.
    method CreateAccount(id: int, account: Account) returns (r: Result<Option<int>, string>)
      requires id !in accounts
      modifies this
      ensures r.Ok? ==> (View(), r.value) == AddAccount(old(View()), id, account)
      ensures r.Err? ==> View() == old(View())
      ensures !faulty ==> r.Ok?
    {
      var ok := Works();
      if !ok {
        return Err("database");
      }
      if i :| i in accounts && accounts[i].name == account.name {
        return Ok(None);
      }
      accounts := accounts[id := account];
      return Ok(Some(id));
    }

    method DeleteAccount(id: int) returns (r: Result<Deleted, string>)
      modifies this
      ensures r.Ok? ==> (View(), r.value) == DropAccount(old(View()), id)
      ensures r.Ok? && r.value.Yes? ==> accounts == old(accounts) - {id} && id in old(accounts) && |old(accounts)| > 1
      ensures r == Ok(NoSuchAccount) ==> id !in old(accounts)
      ensures r == Ok(LastAccount) ==> old(accounts).Keys == {id}
      ensures r.Err? ==> View() == old(View())
      ensures !faulty ==> r.Ok?
    {
      var ok := Works();
      if !ok {
        return Err("database");
      }
      if id !in accounts {
        return Ok(NoSuchAccount);
      }
      if |accounts| <= 1 {
        DropIsExact(View(), id);
        return Ok(LastAccount);
      }
      var name := accounts[id].name;
      accounts := accounts - {id};
      sessions := map t | t in sessions && sessions[t].account != id :: sessions[t];
      assert sessions == old(sessions) - SessionsOf(old(View()), id);
      return Ok(Yes(name));
    }

    method InsertSession(login: NewSession, now: nat) returns (r: Result<(), string>)
      modifies this`sessions
      ensures r.Ok? ==> Insert(old(View()), login, now) == Ok(View())
      ensures r.Err? ==> View() == old(View())
      ensures !faulty ==> (r.Ok? <==> Insert(old(View()), login, now).Ok?)
    {
      var ok := Works();
      if !ok {
        return Err("database");
      }
      if login.account !in accounts || login.token in sessions {
        return Err("constraint");
      }
      sessions := sessions[login.token := Row(login.account, login.csrf, now, now + ABSOLUTE)];
      return Ok(());
    }

    method ChangePassword(id: int, hash: string, current: Token, login: NewSession, now: nat)
      returns (r: Result<nat, string>)
      modifies this
      ensures r.Ok? ==> PasswordChanged(old(View()), id, hash, current, login, now) == Ok((View(), r.value))
      ensures r.Err? ==> View() == old(View())
      ensures !faulty ==> (r.Ok? <==> PasswordChanged(old(View()), id, hash, current, login, now).Ok?)
    {
      // The transaction works on the tables, and a failed step rolls it back.
      var before, rows := accounts, sessions;
      if id in accounts {
        accounts := accounts[id := accounts[id].(hash := hash)];
      }
      var ended := set t | t in sessions && sessions[t].account == id && t != current;
      assert ended == SessionsOf(old(View()), id) - {current};
      sessions := sessions - ended;
      sessions := sessions - {current};
      var stored := InsertSession(login, now);
      if stored.Err? {
        accounts, sessions := before, rows;
        return Err(stored.error);
      }
      return Ok(|ended|);
    }

    method ResetPassword(name: Name, hash: string) returns (r: Result<Option<nat>, string>)
      requires Valid(View())
      modifies this
      ensures r.Ok? ==> (View(), r.value) == PasswordReset(old(View()), name, hash)
      ensures r.Err? ==> View() == old(View())
      ensures !faulty ==> r.Ok?
    {
      var ok := Works();
      if !ok {
        return Err("database");
      }
      if id :| id in accounts && accounts[id].name == name {
        var ended := set t | t in sessions && sessions[t].account == id;
        assert Taken(View(), name) && id == IdOf(View(), name) && ended == SessionsOf(View(), id);
        accounts := accounts[id := accounts[id].(hash := hash)];
        sessions := sessions - ended;
        return Ok(Some(|ended|));
      }
      return Ok(None);
    }

    method CreateSession(login: NewSession, now: nat) returns (r: Result<(), string>)
      modifies this`sessions
      ensures r.Ok? ==> Insert(Purged(old(View()), now), login, now) == Ok(View())
      ensures r.Err? ==> View() == old(View()) || View() == Purged(old(View()), now)
      ensures !faulty ==> (r.Ok? <==> Insert(Purged(old(View()), now), login, now).Ok?)
    {
      var ok := Works();
      if !ok {
        return Err("database");
      }
      // Two statements: the purge stays even if the insert then fails.
      sessions := map t | t in sessions && Alive(sessions[t], now) :: sessions[t];
      r := InsertSession(login, now);
    }

    method FindSession(token: Token, now: nat) returns (r: Result<Option<Session>, string>)
      modifies this`sessions
      ensures r.Ok? ==> r.value == SessionOf(old(View()), token, now) && View() == Used(old(View()), token, now)
      ensures r.Err? ==> View() == old(View())
      ensures !faulty ==> r.Ok?
    {
      var ok := Works();
      if !ok {
        return Err("database");
      }
      if token !in sessions {
        return Ok(None);
      }
      var row := sessions[token];
      if row.account !in accounts || !Alive(row, now) {
        return Ok(None);
      }
      ok := Works();
      if !ok {
        return Err("database");
      }
      if row.seen + MINUTE < now {
        sessions := sessions[token := row.(seen := now)];
      }
      return Ok(Some(Session(row.account, accounts[row.account].name, row.csrf)));
    }

    method SessionAlive(token: Token, now: nat) returns (r: Result<bool, string>)
      requires Valid(View())
      ensures r.Ok? ==> r.value == Accepted(View(), token, now)
      ensures !faulty ==> r.Ok?
    {
      var ok := Works();
      if !ok {
        return Err("database");
      }
      return Ok(token in sessions && Alive(sessions[token], now));
    }
  }

  // ----- What each transaction does to the tables -----

  // The first account goes into an empty table, as given, and into no other.
  lemma FirstIsExact(d: Tables, id: int, account: Account)
    ensures var (after, won) := FirstAccount(d, id, account);
            && (won <==> d.accounts == map[])
            && after.accounts == (if won then map[id := account] else d.accounts)
            && after.sessions == d.sessions
  {
    assert |d.accounts| == 0 <==> d.accounts == map[] by {
      if |d.accounts| == 0 { assert |d.accounts.Keys| == 0; }
    }
  }

  // A new account is stored as given exactly when nobody has its name, and the
  // others stay.
  lemma AddIsExact(d: Tables, id: int, account: Account)
    requires id !in d.accounts
    ensures var (after, r) := AddAccount(d, id, account);
            && (r == Some(id) <==> forall i <- d.accounts :: d.accounts[i].name != account.name)
            && (r == None <==> exists i :: i in d.accounts && d.accounts[i].name == account.name)
            && after.accounts.Keys == d.accounts.Keys + (if r == Some(id) then {id} else {})
            && (r == Some(id) ==> after.accounts[id] == account)
            && (forall i <- d.accounts :: after.accounts[i] == d.accounts[i])
            && after.sessions == d.sessions
  {
  }

  lemma Member(s: set<int>)
    requires s != {}
    ensures exists x :: x in s
  {
    assert (forall x :: x !in s) ==> s == {};
  }

  // An account goes exactly when it exists and is not the only one. Then it alone
  // goes, with exactly its own sessions.
  lemma DropIsExact(d: Tables, id: int)
    ensures var (after, r) := DropAccount(d, id);
            && (r == NoSuchAccount <==> id !in d.accounts)
            && (r == LastAccount <==> d.accounts.Keys == {id})
            && (r.Yes? <==> id in d.accounts && exists other :: other in d.accounts && other != id)
            && (r.Yes? ==> r.name == d.accounts[id].name && after.accounts == d.accounts - {id})
            && (r.Yes? ==> forall t :: t in after.sessions <==> t in d.sessions && d.sessions[t].account != id)
            && (r.Yes? ==> forall t <- after.sessions :: after.sessions[t] == d.sessions[t])
            && (!r.Yes? ==> after == d)
  {
    if id in d.accounts {
      var others := d.accounts.Keys - {id};
      assert |others| == |d.accounts| - 1;
      assert d.accounts.Keys == others + {id};
      assert forall other :: other in others <==> other in d.accounts && other != id;
      if others == {} {
        assert d.accounts.Keys == {id};
      } else {
        Member(others);
      }
    }
  }

  // A session is stored exactly for an account that exists and a token that is not
  // in use, with a 24 hour end, and every other row stays.
  lemma InsertIsExact(d: Tables, login: NewSession, now: nat)
    ensures var r := Insert(d, login, now);
            && (r.Ok? <==> login.account in d.accounts && login.token !in d.sessions)
            && (r.Ok? ==> r.value.accounts == d.accounts)
            && (r.Ok? ==>
                var row := Row(login.account, login.csrf, now, now + 86_400_000);
                r.value.sessions == d.sessions[login.token := row])
  {
  }

  // ----- What a password change and a reset do -----

  // Which rows a committed change leaves, and with what values.
  lemma ChangedRows(d: Tables, id: int, hash: string, current: Token, login: NewSession, now: nat, t: Token)
    requires PasswordChanged(d, id, hash, current, login, now).Ok?
    ensures var rows := PasswordChanged(d, id, hash, current, login, now).value.0.sessions;
            if t == login.token then t in rows && rows[t] == Row(login.account, login.csrf, now, now + ABSOLUTE)
            else if t in d.sessions && d.sessions[t].account != id && t != current
            then t in rows && rows[t] == d.sessions[t]
            else t !in rows
    ensures login.token in d.sessions ==> login.token == current || d.sessions[login.token].account == id
  {
    assert login.token in d.sessions ==> login.token in SessionsOf(d, id) - {current} || login.token == current;
  }

  lemma OthersLeft(d: Tables, id: int, hash: string, current: Token, login: NewSession, now: nat)
    requires login.account == id && PasswordChanged(d, id, hash, current, login, now).Ok?
    ensures Others(PasswordChanged(d, id, hash, current, login, now).value.0, id) == Others(d, id) - {current}
  {
    hide PasswordChanged;
    var left := Others(PasswordChanged(d, id, hash, current, login, now).value.0, id);
    var want := Others(d, id) - {current};
    forall t ensures (t in left <==> t in want) && (t in left ==> left[t] == want[t]) {
      ChangedRows(d, id, hash, current, login, now, t);
    }
  }

  // Nobody else's session goes, if and only if the caller's own token is not
  // another account's.
  lemma OthersKept(d: Tables, id: int, hash: string, current: Token, login: NewSession, now: nat)
    requires login.account == id && PasswordChanged(d, id, hash, current, login, now).Ok?
    ensures Others(PasswordChanged(d, id, hash, current, login, now).value.0, id) == Others(d, id)
       <==> !(current in d.sessions && d.sessions[current].account != id)
  {
    OthersLeft(d, id, hash, current, login, now);
    var others := Others(d, id);
    assert current in others <==> current in d.sessions && d.sessions[current].account != id;
    assert current !in others - {current};
    if current !in others { assert others - {current} == others; }
  }

  // With another account's token the change does end that session.
  lemma ForeignSessionEnds() returns (d: Tables)
    ensures Valid(d) && 7 in Others(d, 1) && PasswordChanged(d, 1, "new", 7, NewSession(8, 1, "c"), 0).Ok?
    ensures 7 !in Others(PasswordChanged(d, 1, "new", 7, NewSession(8, 1, "c"), 0).value.0, 1)
  {
    d := Tables(map[1 := Account("ann", "old"), 2 := Account("bob", "old")], map[7 := Row(2, "b", 0, ABSOLUTE)]);
  }

  // A change that commits leaves the account exactly the new session, counts
  // exactly its other sessions, and changes no other account.
  lemma PasswordChangeIsExact(d: Tables, id: int, hash: string, current: Token, login: NewSession, now: nat)
    requires Valid(d) && login.account == id && PasswordChanged(d, id, hash, current, login, now).Ok?
    ensures var (after, ended) := PasswordChanged(d, id, hash, current, login, now).value;
            && Valid(after)
            && SessionsOf(after, id) == {login.token}
            && ended == |SessionsOf(d, id) - {current}|
            && after.accounts.Keys == d.accounts.Keys && id in d.accounts
            && after.accounts[id] == d.accounts[id].(hash := hash)
            && (forall a | a in d.accounts && a != id :: after.accounts[a] == d.accounts[a])
  {
    var after := PasswordChanged(d, id, hash, current, login, now).value.0;
    forall t ensures t in SessionsOf(after, id) <==> t == login.token {
      ChangedRows(d, id, hash, current, login, now, t);
    }
    forall t | t in after.sessions ensures after.sessions[t].account in after.accounts {
      ChangedRows(d, id, hash, current, login, now, t);
    }
  }

  function Others(d: Tables, id: int): map<Token, Row> {
    map t | t in d.sessions && d.sessions[t].account != id :: d.sessions[t]
  }

  // A reset leaves no session to the account and every other session as it was.
  lemma PasswordResetIsExact(d: Tables, name: Name, hash: string)
    requires Valid(d)
    ensures var (after, ended) := PasswordReset(d, name, hash);
            && Valid(after)
            && (ended.Some? <==> Taken(d, name))
            && (ended.None? ==> after == d)
            && (ended.Some? ==> var id := IdOf(d, name);
                && SessionsOf(after, id) == {} && ended.value == |SessionsOf(d, id)|
                && after.accounts == d.accounts[id := d.accounts[id].(hash := hash)]
                && Others(after, id) == Others(d, id))
  {
    if Taken(d, name) {
      var id, after := IdOf(d, name), PasswordReset(d, name, hash).0;
      assert SessionsOf(after, id) == {};
      assert Others(after, id) == Others(d, id);
    }
  }
}
