// A client that keeps listening and reading catches up, in every schedule.
module ReplicationCatchUp {
  import opened Options
  import opened Collections
  import opened Replication
  import opened ReplicationSafety
  import opened ReplicationClients
  import opened ReplicationRuns

  // A step by which a client marks, hears or reads.
  predicate Listens(p: PageStep) { p.Mark? || p.Hear? || p.HearReload? || p.Fetch? }

  // How far a client is from having read everything.
  function Unmarked(client: Client): nat { if client.seen.None? then 1 else 0 }

  function Unseen(s: State, client: Client): nat {
    if client.seen.Some? && client.seen.value < s.reloads then 1 else 0
  }

  function LeftToHear(s: State, client: Client): nat {
    if client.cursor <= |s.out| then |s.out| - client.cursor else 0
  }

  ghost predicate Nearer(s: State, after: Client, before: Client) {
    || Unmarked(after) < Unmarked(before)
    || (Unmarked(after) == Unmarked(before) && Unseen(s, after) < Unseen(s, before))
    || (Unmarked(after) == Unmarked(before) && Unseen(s, after) == Unseen(s, before)
        && LeftToHear(s, after) < LeftToHear(s, before))
    || (Unmarked(after) == Unmarked(before) && Unseen(s, after) == Unseen(s, before)
        && LeftToHear(s, after) == LeftToHear(s, before) && |after.stale| < |before.stale|)
  }

  // Every step of its own brings the client nearer, whichever it is.
  lemma ListeningIsNearer(s: State, c: nat, p: PageStep)
    requires PageCan(s, c, p) && Listens(p) && c in s.clients && Informed(s, s.clients[c])
    ensures Nearer(s, PageAfter(s, c, p), s.clients[c])
  {
    if p.Fetch? {
      var stale := s.clients[c].stale;
      assert |stale - {p.kind}| == |stale| - 1;
    }
  }

  // A step of another client leaves this one and all its signals as they are.
  lemma OthersDoNotDelay(s: State, c: nat, other: nat, p: PageStep)
    requires s.core.past != [] && PageCan(s, other, p) && other != c && c in s.clients
    ensures var t := Apply(s, Page(other, p));
            && c in t.clients && t.clients[c] == s.clients[c]
            && t.out == s.out && t.reloads == s.reloads && t.core == s.core
  {
  }

  // A client that has not caught up always has such a step.
  lemma NextListening(s: State, c: nat) returns (p: PageStep)
    requires c in s.clients && Informed(s, s.clients[c]) && !Caught(s, s.clients[c])
    ensures PageCan(s, c, p) && Listens(p)
  {
    var client := s.clients[c];
    if client.seen.None? {
      p := Mark;
    } else if client.seen.value < s.reloads {
      p := HearReload;
    } else if client.cursor < |s.out| {
      p := Hear;
    } else {
      var kind :| kind in client.stale;
      p := Fetch(kind);
    }
  }

  // A schedule of the client's steps, by their number and the state.
  type Listening = (nat, State) -> PageStep

  ghost predicate KeepsOn(choose: Listening, c: nat) {
    forall n: nat, s: State :: c in s.clients && Informed(s, s.clients[c]) && !Caught(s, s.clients[c]) ==>
      PageCan(s, c, choose(n, s)) && Listens(choose(n, s))
  }

  ghost function AnyListening(s: State, c: nat): (p: PageStep)
    ensures c in s.clients && Informed(s, s.clients[c]) && !Caught(s, s.clients[c]) ==> PageCan(s, c, p) && Listens(p)
  {
    if c in s.clients && Informed(s, s.clients[c]) && !Caught(s, s.clients[c]) then
      ListeningExists(s, c);
      var p :| PageCan(s, c, p) && Listens(p);
      p
    else Leave
  }

  lemma ListeningExists(s: State, c: nat)
    requires c in s.clients && Informed(s, s.clients[c]) && !Caught(s, s.clients[c])
    ensures exists p :: PageCan(s, c, p) && Listens(p)
  {
    var p := NextListening(s, c);
  }

  lemma SomeListeningKeepsOn(c: nat) returns (choose: Listening)
    ensures KeepsOn(choose, c)
  {
    choose := (n: nat, s: State) => AnyListening(s, c);
  }

  // From `s` the schedule takes the client by `steps` to `t`.
  ghost predicate Takes(choose: Listening, n: nat, s: State, c: nat, steps: seq<PageStep>, t: State)
    decreases |steps|
  {
    if steps == [] then s == t
    else
      && s.core.past != [] && steps[0] == choose(n, s) && PageCan(s, c, steps[0])
      && Takes(choose, n + 1, Apply(s, Page(c, steps[0])), c, steps[1..], t)
  }

  // From every reachable state, while the supervisor signals nothing new, every
  // schedule of a client's own steps ends with the client caught up.
  lemma {:induction false} EveryListeningCatchesUp(choose: Listening, n: nat, s: State, c: nat)
    returns (steps: seq<PageStep>, t: State)
    requires s.core.past != [] && AllInformed(s) && c in s.clients && KeepsOn(choose, c)
    ensures Takes(choose, n, s, c, steps, t) && c in t.clients && Caught(t, t.clients[c]) && AllInformed(t)
    ensures t.core == s.core && t.out == s.out && t.reloads == s.reloads
    decreases Unmarked(s.clients[c]), Unseen(s, s.clients[c]), LeftToHear(s, s.clients[c]), |s.clients[c].stale|
  {
    if Caught(s, s.clients[c]) {
      return [], s;
    }
    var p := choose(n, s);
    ListeningIsNearer(s, c, p);
    InformedStep(s, Page(c, p));
    hide AllInformed, PageAfter;
    var more;
    more, t := EveryListeningCatchesUp(choose, n + 1, Apply(s, Page(c, p)), c);
    steps := [p] + more;
    assert steps[1..] == more;
  }

  // Once the events have drained, that view is libvirt's.
  lemma CaughtUpAgrees(s: State, c: nat)
    requires Replicated(s.core) && Drained(s.core) && AllInformed(s) && c in s.clients && Caught(s, s.clients[c])
    ensures s.clients[c].view == Lib(s.core)
  {
    DrainedAgrees(s.core);
    CaughtAgrees(s, s.clients[c]);
  }
}
