// Single-use WebSocket tickets (`tickets.rs`): a capped map that is purged only
// when it is full, against a map without a cap and against the log of calls.
module Tickets {
  import opened Options

  // A ticket stands for its hash. Times are milliseconds.
  type Hash = nat

  const LIFETIME: nat := 30_000
  const MAX_TICKETS: nat := 10_000

  datatype Ticket = Ticket(session: nat, origin: Option<string>, expires: nat)

  datatype Call =
    | Issue(hash: Hash, session: nat, origin: Option<string>, now: nat)
    | Redeem(hash: Hash, session: nat, origin: Option<string>, now: nat)

  function Live(m: map<Hash, Ticket>, now: nat): map<Hash, Ticket> {
    map h | h in m && now < m[h].expires :: m[h]
  }

  predicate Fits(t: Ticket, c: Call) { t.session == c.session && t.origin == c.origin && c.now < t.expires }

  // The map after a call, and what the call answers.
  function Step(m: map<Hash, Ticket>, c: Call): (map<Hash, Ticket>, bool) {
    match c
    case Issue(h, session, origin, now) =>
      var kept := if |m| >= MAX_TICKETS then Live(m, now) else m;
      if |kept| >= MAX_TICKETS then (kept, false)
      else (kept[h := Ticket(session, origin, now + LIFETIME)], true)
    case Redeem(h, _, _, _) => (m - {h}, h in m && Fits(m[h], c))
  }

  class Store {
    var byHash: map<Hash, Ticket>

    constructor ()
      ensures byHash == map[]
    {
      byHash := map[];
    }

    // `hash` is the hash of the new random ticket.
    method IssueTicket(hash: Hash, session: nat, origin: Option<string>, now: nat) returns (ok: bool)
      modifies this
      ensures (byHash, ok) == Step(old(byHash), Issue(hash, session, origin, now))
    {
      if |byHash| >= MAX_TICKETS {
        byHash := map h | h in byHash && now < byHash[h].expires :: byHash[h];
        if |byHash| >= MAX_TICKETS {
          return false;
        }
      }
      byHash := byHash[hash := Ticket(session, origin, now + LIFETIME)];
      return true;
    }

    method RedeemTicket(hash: Hash, session: nat, origin: Option<string>, now: nat) returns (ok: bool)
      modifies this
      ensures (byHash, ok) == Step(old(byHash), Redeem(hash, session, origin, now))
    {
      if hash !in byHash {
        assert byHash - {hash} == byHash;
        return false;
      }
      var t := byHash[hash];
      byHash := byHash - {hash};
      return t.session == session && t.origin == origin && now < t.expires;
    }
  }

  // ----- Runs -----

  function After(calls: seq<Call>): map<Hash, Ticket> {
    if calls == [] then map[] else Step(After(calls[..|calls| - 1]), calls[|calls| - 1]).0
  }

  // What call `i` answered.
  function Answer(calls: seq<Call>, i: nat): bool
    requires i < |calls|
  {
    Step(After(calls[..i]), calls[i]).1
  }

  // The clock never goes back, and no two new tickets are equal.
  ghost predicate Run(calls: seq<Call>) {
    && (forall i, j :: 0 <= i < j < |calls| ==> calls[i].now <= calls[j].now)
    && (forall i, j :: 0 <= i < j < |calls| && calls[i].Issue? && calls[j].Issue? ==> calls[i].hash != calls[j].hash)
  }

  // The map without cap and purge: it holds every granted ticket until a redeem.
  function Uncapped(calls: seq<Call>): map<Hash, Ticket> {
    if calls == [] then map[]
    else
      var n := |calls| - 1;
      var u, c := Uncapped(calls[..n]), calls[n];
      if c.Redeem? then u - {c.hash}
      else if Answer(calls, n) then u[c.hash := Ticket(c.session, c.origin, c.now + LIFETIME)]
      else u
  }

  // `m` lacks only tickets that have expired by `now`.
  ghost predicate Refines(m: map<Hash, Ticket>, u: map<Hash, Ticket>, now: nat) {
    && (forall h <- m :: h in u && u[h] == m[h])
    && (forall h <- u :: h !in m ==> u[h].expires <= now)
  }

  function End(calls: seq<Call>): nat { if calls == [] then 0 else calls[|calls| - 1].now }

  lemma IssueRefines(m: map<Hash, Ticket>, u: map<Hash, Ticket>, c: Call, before: nat)
    requires c.Issue? && Refines(m, u, before) && before <= c.now && |m| <= MAX_TICKETS
    ensures var t := Ticket(c.session, c.origin, c.now + LIFETIME);
            Refines(Step(m, c).0, if Step(m, c).1 then u[c.hash := t] else u, c.now)
    ensures |Step(m, c).0| <= MAX_TICKETS
  {
    var kept := if |m| >= MAX_TICKETS then Live(m, c.now) else m;
    assert Refines(kept, u, c.now);
    assert kept.Keys <= m.Keys;
    SizeOfPart(kept.Keys, m.Keys);
    SizeOfOneMore(kept, c.hash, Ticket(c.session, c.origin, c.now + LIFETIME));
    hide Live;
  }

  lemma RedeemRefines(m: map<Hash, Ticket>, u: map<Hash, Ticket>, c: Call, before: nat)
    requires c.Redeem? && Refines(m, u, before) && before <= c.now && |m| <= MAX_TICKETS
    ensures Refines(Step(m, c).0, u - {c.hash}, c.now) && |Step(m, c).0| <= MAX_TICKETS
  {
    SizeOfPart((m - {c.hash}).Keys, m.Keys);
  }

  // Both maps after the last call.
  lemma LastCall(calls: seq<Call>)
    requires calls != []
    ensures var n := |calls| - 1;
            var c, (m, answer) := calls[n], Step(After(calls[..n]), calls[n]);
            && After(calls) == m
            && Uncapped(calls) == (
                 if c.Redeem? then Uncapped(calls[..n]) - {c.hash}
                 else if answer then Uncapped(calls[..n])[c.hash := Ticket(c.session, c.origin, c.now + LIFETIME)]
                 else Uncapped(calls[..n]))
  {
    hide Step;
  }

  lemma NothingRefines()
    ensures Refines(After([]), Uncapped([]), End([])) && |After([])| <= MAX_TICKETS
  {
  }

  lemma {:induction false} CappedRefines(calls: seq<Call>)
    requires Run(calls)
    ensures Refines(After(calls), Uncapped(calls), End(calls)) && |After(calls)| <= 10_000
  {
    hide Refines, Step, After, Uncapped, Run;
    if calls == [] {
      NothingRefines();
    } else {
      var n := |calls| - 1;
      RunOfFirst(calls, n);
      CappedRefines(calls[..n]);
      LastCall(calls);
      if calls[n].Issue? {
        IssueRefines(After(calls[..n]), Uncapped(calls[..n]), calls[n], End(calls[..n]));
      } else {
        RedeemRefines(After(calls[..n]), Uncapped(calls[..n]), calls[n], End(calls[..n]));
      }
    }
  }

  lemma SizeOfPart(a: set<Hash>, b: set<Hash>)
    requires a <= b
    ensures |a| <= |b|
  {
    assert b == a + (b - a);
  }

  lemma SizeOfOneMore(m: map<Hash, Ticket>, h: Hash, t: Ticket)
    ensures |m[h := t]| <= |m| + 1
  {
    assert m[h := t].Keys == m.Keys + {h};
  }

  lemma SameLive(m: map<Hash, Ticket>, u: map<Hash, Ticket>, before: nat, now: nat)
    requires Refines(m, u, before) && before <= now
    ensures Live(m, now) == Live(u, now)
  {
  }

  lemma RunOfFirst(calls: seq<Call>, i: nat)
    requires Run(calls) && i < |calls|
    ensures Run(calls[..i]) && End(calls[..i]) <= calls[i].now
  {
  }

  // Cap and purge show in no answer: a redeem answers as without them, and a
  // ticket is refused exactly when too many live ones are out.
  lemma UncappedAgrees(calls: seq<Call>, i: nat)
    requires Run(calls) && i < |calls|
    ensures calls[i].Redeem? ==>
              var u := Uncapped(calls[..i]);
              (Answer(calls, i) <==> calls[i].hash in u && Fits(u[calls[i].hash], calls[i]))
    ensures calls[i].Issue? ==> (Answer(calls, i) <==> |Live(Uncapped(calls[..i]), calls[i].now)| < 10_000)
  {
    RunOfFirst(calls, i);
    CappedRefines(calls[..i]);
    var m, u, now := After(calls[..i]), Uncapped(calls[..i]), calls[i].now;
    if calls[i].Issue? {
      SameLive(m, u, End(calls[..i]), now);
      SizeOfPart(Live(m, now).Keys, m.Keys);
    }
  }

  // Call `j` granted this ticket, and no later call tried to redeem it.
  ghost predicate Outstanding(calls: seq<Call>, hash: Hash, j: nat) {
    && j < |calls| && calls[j].Issue? && calls[j].hash == hash && Answer(calls, j)
    && forall k :: j < k < |calls| ==> !(calls[k].Redeem? && calls[k].hash == hash)
  }

  lemma AnswerOfFirst(calls: seq<Call>, n: nat, j: nat)
    requires j < n <= |calls|
    ensures Answer(calls[..n], j) == Answer(calls, j)
  {
    assert calls[..n][..j] == calls[..j];
  }

  lemma {:induction false} OutstandingIsHeld(calls: seq<Call>, hash: Hash, j: nat)
    requires Run(calls) && Outstanding(calls, hash, j)
    ensures hash in Uncapped(calls)
    ensures Uncapped(calls)[hash] == Ticket(calls[j].session, calls[j].origin, calls[j].now + LIFETIME)
  {
    hide Answer;
    var n := |calls| - 1;
    if j < n {
      var before := calls[..n];
      RunOfFirst(calls, n);
      AnswerOfFirst(calls, n, j);
      assert forall k :: j < k < n ==> before[k] == calls[k];
      OutstandingIsHeld(before, hash, j);
    }
  }

  lemma {:induction false} HeldIsOutstanding(calls: seq<Call>, hash: Hash) returns (j: nat)
    requires Run(calls) && hash in Uncapped(calls)
    ensures Outstanding(calls, hash, j)
  {
    hide Answer;
    var n := |calls| - 1;
    if calls[n].Issue? && calls[n].hash == hash && Answer(calls, n) {
      j := n;
    } else {
      RunOfFirst(calls, n);
      j := HeldIsOutstanding(calls[..n], hash);
      AnswerOfFirst(calls, n, j);
      assert forall k :: j < k < n ==> calls[..n][k] == calls[k];
    }
  }

  // A redeem of a ticket that call `j` granted and nobody tried yet, by its own
  // session and origin and in time.
  ghost predicate Good(calls: seq<Call>, i: nat, j: nat)
    requires i < |calls|
  {
    && Outstanding(calls[..i], calls[i].hash, j)
    && calls[i].session == calls[j].session && calls[i].origin == calls[j].origin
    && calls[i].now < calls[j].now + 30_000
  }

  // A redeem succeeds exactly when the log has a good ticket for it.
  lemma RedeemIffGood(calls: seq<Call>, i: nat)
    requires Run(calls) && i < |calls| && calls[i].Redeem?
    ensures Answer(calls, i) <==> exists j: nat :: Good(calls, i, j)
  {
    UncappedAgrees(calls, i);
    RunOfFirst(calls, i);
    var before, h := calls[..i], calls[i].hash;
    if Answer(calls, i) {
      var j := HeldIsOutstanding(before, h);
      OutstandingIsHeld(before, h, j);
      assert Good(calls, i, j);
    }
    if j: nat :| Good(calls, i, j) {
      OutstandingIsHeld(before, h, j);
    }
  }

  // A ticket opens one socket at most, and a failed try uses it up too.
  lemma RedeemedOnce(calls: seq<Call>, i: nat, k: nat)
    requires Run(calls) && i < k < |calls| && calls[i].Redeem? && calls[k].Redeem? && calls[i].hash == calls[k].hash
    requires Answer(calls, k)
    ensures forall j: nat :: j < i && calls[j].Issue? ==> calls[j].hash != calls[i].hash
    ensures !Answer(calls, i)
  {
    RedeemIffGood(calls, k);
    var j: nat :| Good(calls, k, j);
    assert calls[..k][i] == calls[i];
    assert j > i;
    RedeemIffGood(calls, i);
  }
}
