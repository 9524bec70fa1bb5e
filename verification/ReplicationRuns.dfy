// The protocol's promises over whole runs: what every reachable state keeps,
// what a drained system has reached, and that it can always drain.
module ReplicationRuns {
  import opened Options
  import opened Collections
  import opened Replication
  import opened ReplicationSafety
  import opened ReplicationClients
  import opened ReplicationTimes
  import opened ReplicationClose

  // A run from the start of the server: any interleaving of libvirt, the
  // supervisor and the clients.
  ghost predicate Run(trace: seq<State>, steps: seq<Step>) {
    && |trace| == |steps| + 1 && trace[0] == INIT
    && (forall i :: 0 <= i < |steps| ==>
        trace[i].core.past != [] && Can(trace[i], steps[i]) && trace[i + 1] == Apply(trace[i], steps[i]))
  }

  ghost predicate Safe(s: State) {
    Replicated(s.core) && CloseAhead(s.core) && Timely(s.core) && AllInformed(s) && NoticesCovered(s)
  }

  lemma {:induction false} RunIsSafe(trace: seq<State>, steps: seq<Step>, i: nat)
    requires Run(trace, steps) && i <= |steps|
    ensures Safe(trace[i])
  {
    if i == 0 {
      ReplicatedInit();
      CloseAheadInit();
      TimelyInit();
    } else {
      RunIsSafe(trace, steps, i - 1);
      var s, step := trace[i - 1], steps[i - 1];
      if step.Host? {
        ReplicatedStep(s.core, step.host);
        CloseAheadStep(s.core, step.host);
        TimelyStep(s.core, step.host);
      }
      InformedStep(s, step);
      NoticesStep(s, step);
    }
  }

  // In every reachable state with a loaded inventory, an object that differs from
  // libvirt has an event to come, or its event is in hand, or the hub has lagged
  // and forces a reload.
  lemma StaleIsCovered(trace: seq<State>, steps: seq<Step>, i: nat, x: Id)
    requires Run(trace, steps) && i <= |steps|
    requires trace[i].core.past != [] && !ReloadPending(trace[i].core.pc)
    requires At(trace[i].core.inv, x) != At(Lib(trace[i].core), x)
    ensures var s := trace[i].core;
            x in s.pending || Unread(s, x) || Lagged(|s.hub|, s.cursor) || InHand(s.pc, x)
  {
    RunIsSafe(trace, steps, i);
    assert Queued(trace[i].core, x) || InHand(trace[i].core.pc, x);
  }

  ghost predicate Drained(s: Core) {
    s.pc.Idle? && s.pending == {} && s.cursor == |s.hub|
  }

  ghost predicate Caught(s: State, client: Client) {
    client.seen == Some(s.reloads) && client.cursor == |s.out| && client.stale == {}
  }

  lemma SameObjects(a: Objects, b: Objects)
    requires forall x :: At(a, x) == At(b, x)
    ensures a == b
  {
    forall x ensures (x in a <==> x in b) && (x in a ==> a[x] == b[x]) { assert At(a, x) == At(b, x); }
  }

  lemma DrainedAgrees(s: Core)
    requires Replicated(s) && Drained(s)
    ensures s.inv == Lib(s)
  {
    forall x ensures At(s.inv, x) == At(Lib(s), x) { assert !Queued(s, x) && !InHand(s.pc, x); }
    SameObjects(s.inv, Lib(s));
  }

  lemma CaughtAgrees(s: State, client: Client)
    requires Informed(s, client) && Caught(s, client) && s.core.pc.Idle?
    ensures client.view == s.core.inv
  {
    forall x ensures At(client.view, x) == At(s.core.inv, x) { assert !ToBeTold(s, client, x); }
    SameObjects(client.view, s.core.inv);
  }

  // Once the events have drained, the inventory is libvirt's, and so is the view
  // of every client that has read what it was told to.
  lemma DrainedRunAgrees(trace: seq<State>, steps: seq<Step>, i: nat)
    requires Run(trace, steps) && i <= |steps| && Drained(trace[i].core)
    ensures trace[i].core.past != [] && trace[i].core.inv == Lib(trace[i].core)
    ensures forall c <- trace[i].clients :: Caught(trace[i], trace[i].clients[c]) ==>
              trace[i].clients[c].view == Lib(trace[i].core)
  {
    var s := trace[i];
    RunIsSafe(trace, steps, i);
    DrainedAgrees(s.core);
    forall c | c in s.clients && Caught(s, s.clients[c]) ensures s.clients[c].view == Lib(s.core) {
      CaughtAgrees(s, s.clients[c]);
    }
  }

  lemma TimesGrow(s: State, step: Step, x: Id)
    requires Timely(s.core) && Can(s, step)
    ensures ReadAt(s.core.times, x) <= ReadAt(Apply(s, step).core.times, x)
  {
    if step.Host? { ReadTimesGrow(s.core, step.host, x); }
  }

  // Read times never go back over a run.
  lemma {:induction false} ReadTimesNeverBack(trace: seq<State>, steps: seq<Step>, i: nat, j: nat, x: Id)
    requires Run(trace, steps) && i <= j <= |steps|
    ensures ReadAt(trace[i].core.times, x) <= ReadAt(trace[j].core.times, x)
  {
    if i == j {
    } else {
      ReadTimesNeverBack(trace, steps, i, j - 1, x);
      RunIsSafe(trace, steps, j - 1);
      TimesGrow(trace[j - 1], steps[j - 1], x);
    }
  }

  // A client that hears a notice and then reads the inventory, at once or later,
  // gets only values that libvirt held when the event was sent or after that.
  lemma NoticeIsFresh(trace: seq<State>, steps: seq<Step>, i: nat, j: nat, k: nat)
    requires Run(trace, steps) && i <= j <= |steps| && k < |trace[i].out|
    ensures var n := trace[i].out[k];
            Genuine(trace[j].core.past, n.id, At(trace[j].core.inv, n.id), n.stamp)
  {
    var n, s := trace[i].out[k], trace[j].core;
    RunIsSafe(trace, steps, i);
    RunIsSafe(trace, steps, j);
    ReadTimesNeverBack(trace, steps, i, j, n.id);
    GenuineEarlier(s.past, n.id, At(s.inv, n.id), ReadAt(s.times, n.id), n.stamp);
  }

  lemma GenuineEarlier(past: seq<Objects>, x: Id, v: Option<Obj>, since: nat, earlier: nat)
    requires Genuine(past, x, v, since) && earlier <= since
    ensures Genuine(past, x, v, earlier)
  {
    match v
    case Some(obj) =>
      forall f: nat | f < |obj| ensures HeldSince(past, earlier, x, f, obj[f]) {
        HeldGrows(past, past, since, earlier, x, f, obj[f]);
      }
    case None =>
  }

  // ----- How far the system is from drained -----

  // A step that libvirt and the supervisor take when nothing changes and no call fails.
  ghost predicate Calm(h: HostStep) {
    !h.Change? && !h.EmitClosed? && !h.Fail?
  }

  // The supervisor is about to make a call.
  ghost predicate AboutToRead(pc: Pc) { pc.Refreshing? || (pc.Loading? && (pc.todo != [] || pc.rest != [])) }

  // A step that does work: it repeats no event, and no call fails that need not.
  // libvirt may send the last event of any pending object while the connection is
  // open, the supervisor may take any step, and on a closed connection its calls fail.
  ghost predicate Working(s: Core, h: HostStep) {
    || (Calm(h) && (h.Emit? ==> h.last && h.x in s.pending))
    || (h.Fail? && Cut(s.hub) && AboutToRead(s.pc))
  }

  // A closed connection is one that the supervisor still has to give up and replace.
  ghost function Broken(s: Core): nat { if !Cut(s.hub) then 0 else if s.pc.Down? then 1 else 2 }

  ghost function Unreads(s: Core): nat {
    if s.cursor <= |s.hub| then |s.hub| - s.cursor else 0
  }

  ghost function Phase(pc: Pc): nat {
    match pc
    case Down => 8 case Opened => 7 case Loading(_, _, _, _) => 6 case Loaded(_, _) => 5 case Counting => 4
    case Refreshing(_, _) => 3 case Refreshed(_, _, _, _) => 2 case Forwarding(_, _) => 1 case Idle => 0
  }

  ghost function Rest(pc: Pc): nat { if pc.Loading? then |pc.rest| else 0 }

  ghost function Todo(pc: Pc): nat { if pc.Loading? then |pc.todo| else 0 }

  ghost function Missing(pc: Pc): int {
    if pc.Loading? && pc.todo != [] then 5 - |pc.todo[0].got|
    else if pc.Refreshing? then 5 - |pc.read.got|
    else 0
  }

  ghost predicate Closer(t: Core, s: Core) {
    Broken(t) < Broken(s) || (Broken(t) == Broken(s) && CloserQueue(t, s))
  }

  ghost predicate CloserQueue(t: Core, s: Core) {
    || |t.pending| < |s.pending|
    || (|t.pending| == |s.pending| && Unreads(t) < Unreads(s))
    || (|t.pending| == |s.pending| && Unreads(t) == Unreads(s) && CloserPc(t.pc, s.pc))
  }

  ghost predicate CloserPc(t: Pc, s: Pc) {
    || Phase(t) < Phase(s)
    || (Phase(t) == Phase(s) && Rest(t) < Rest(s))
    || (Phase(t) == Phase(s) && Rest(t) == Rest(s) && Todo(t) < Todo(s))
    || (Phase(t) == Phase(s) && Rest(t) == Rest(s) && Todo(t) == Todo(s) && 0 <= Missing(t) < Missing(s))
  }

  lemma {:induction false} SomeListing(lib: Objects, kind: Kind, ids: set<Id>, now: nat) returns (todo: seq<Partial>)
    requires WellFormed(lib) && forall x <- ids :: x in lib && x.kind == kind
    ensures forall i :: 0 <= i < |todo| ==>
              todo[i].id in ids && todo[i].got == lib[todo[i].id][..1] && todo[i].since == now
    ensures forall i, j :: 0 <= i < j < |todo| ==> todo[i].id != todo[j].id
    ensures forall x <- ids :: InTodo(todo, x)
    decreases ids
  {
    if ids == {} {
      todo := [];
    } else {
      var x :| x in ids;
      var rest := SomeListing(lib, kind, ids - {x}, now);
      todo := [Partial(x, lib[x][..1], now)] + rest;
      forall y | y in ids ensures InTodo(todo, y) {
        if y == x {
          assert todo[0].id == y;
        } else {
          assert InTodo(rest, y);
          var i :| 0 <= i < |rest| && rest[i].id == y;
          assert todo[i + 1].id == y;
        }
      }
    }
  }

  lemma ListStep(s: Core) returns (h: HostStep)
    requires Replicated(s) && !Cut(s.hub) && s.pc.Loading? && s.pc.todo == [] && s.pc.rest != []
    ensures HostCan(s, h) && h.ListKind?
  {
    var kind := s.pc.rest[0];
    var todo := SomeListing(Lib(s), kind, set x | x in Lib(s) && x.kind == kind, |s.past| - 1);
    assert Listing(Lib(s), kind, todo, Clock(s));
    h := ListKind(todo);
  }

  // The reads of the supervisor's own steps bring it closer.
  lemma LoadCloser(s: Core, h: HostStep)
    requires Replicated(s) && HostCan(s, h) && (h.ListKind? || h.ReadListed? || h.ReadField?)
    ensures CloserPc(HostApply(s, h).pc, s.pc)
  {
    if h.ReadListed? {
      ReadOnAgrees(s, s.pc.todo[0]);
    } else if h.ReadField? {
      ReadOnAgrees(s, s.pc.read);
    }
  }

  // The steps between two reads.
  lemma PlainStep(s: Core) returns (h: HostStep)
    requires Replicated(s) && CloseAhead(s) && !Drained(s) && (s.pending == {} || Cut(s.hub))
    requires !s.pc.Down? && !AboutToRead(s.pc)
    ensures HostCan(s, h) && Working(s, h)
  {
    h := match s.pc
    case Opened => Subscribe
    case Loading(_, _, _, _) => FinishLoad
    case Loaded(_, _) => StoreLoad
    case Counting => CountReload
    case Refreshed(_, _, _, _) => ApplyRefresh
    case Forwarding(_, _) => Forward
    case Idle => Receive;
  }

  lemma ReadStep(s: Core) returns (h: HostStep)
    requires Replicated(s) && AboutToRead(s.pc)
    ensures HostCan(s, h) && Working(s, h)
  {
    if Cut(s.hub) {
      h := Fail;
    } else if s.pc.Refreshing? {
      h := ReadField;
    } else if s.pc.todo != [] {
      h := ReadListed;
    } else {
      h := ListStep(s);
    }
  }

  // A system that has not drained is never stuck, not even on a closed connection
  // with events that never come.
  lemma NextStep(s: Core) returns (h: HostStep)
    requires Replicated(s) && CloseAhead(s) && !Drained(s)
    ensures HostCan(s, h) && Working(s, h)
  {
    if s.pc.Down? {
      h := Connect;
    } else if s.pending != {} && !Cut(s.hub) {
      var x :| x in s.pending;
      h := Emit(x, true);
    } else if AboutToRead(s.pc) {
      h := ReadStep(s);
    } else {
      h := PlainStep(s);
    }
  }

  // A drained system is on an open connection.
  lemma DrainedIsOpen(s: Core)
    requires CloseAhead(s) && Drained(s)
    ensures !Cut(s.hub)
  {
  }

  // ----- Every schedule drains -----

  lemma EmitIsCloser(s: Core, x: Id)
    requires Replicated(s) && HostCan(s, Emit(x, true)) && x in s.pending
    ensures Closer(HostApply(s, Emit(x, true)), s)
  {
    assert |s.pending - {x}| == |s.pending| - 1;
  }

  lemma ConnectIsCloser(s: Core)
    requires Replicated(s) && HostCan(s, Connect)
    ensures Closer(HostApply(s, Connect), s)
  {
    if s.pending != {} { assert |s.pending| > 0; }
  }

  lemma ReceiveIsCloser(s: Core)
    requires Replicated(s) && HostCan(s, Receive)
    ensures Closer(ReceiveStep(s), s)
  {
  }

  lemma PlainIsCloser(s: Core, h: HostStep)
    requires Replicated(s) && HostCan(s, h)
    requires h.Subscribe? || h.FinishLoad? || h.StoreLoad? || h.CountReload? || h.ApplyRefresh? || h.Forward?
    ensures Closer(HostApply(s, h), s)
  {
  }

  lemma ReadIsCloser(s: Core, h: HostStep)
    requires Replicated(s) && HostCan(s, h) && (h.ListKind? || h.ReadListed? || h.ReadField?)
    ensures Closer(HostApply(s, h), s)
  {
    LoadCloser(s, h);
    hide CloserPc;
  }

  // No such step changes libvirt.
  lemma WorkIsNoChange(s: Core, h: HostStep)
    requires Replicated(s) && HostCan(s, h) && Working(s, h)
    ensures HostApply(s, h).past == s.past
  {
  }

  // Each such step, whichever it is, brings the system closer.
  lemma WorkIsCloser(s: Core, h: HostStep)
    requires Replicated(s) && HostCan(s, h) && Working(s, h)
    ensures Closer(HostApply(s, h), s) && HostApply(s, h).past == s.past
  {
    WorkIsNoChange(s, h);
    if h.Fail? {
      assert Broken(HostApply(s, h)) < Broken(s);
    } else if h.Emit? {
      EmitIsCloser(s, h.x);
    } else if h.ListKind? || h.ReadListed? || h.ReadField? {
      ReadIsCloser(s, h);
    } else if h.Connect? {
      ConnectIsCloser(s);
    } else if h.Receive? {
      ReceiveIsCloser(s);
    } else {
      PlainIsCloser(s, h);
    }
  }

  // A schedule picks the next step, by the number of the step and the state.
  type Schedule = (nat, Core) -> HostStep

  // While something is left to do, it picks a step that does work.
  ghost predicate Works(choose: Schedule) {
    forall n, s :: Replicated(s) && CloseAhead(s) && !Drained(s) ==>
      HostCan(s, choose(n, s)) && Working(s, choose(n, s))
  }

  // The step that a schedule without a plan picks.
  ghost function AnyWork(s: Core): (h: HostStep)
    ensures Replicated(s) && CloseAhead(s) && !Drained(s) ==> HostCan(s, h) && Working(s, h)
  {
    if Replicated(s) && CloseAhead(s) && !Drained(s) then
      WorkExists(s);
      var h :| HostCan(s, h) && Working(s, h);
      h
    else Connect
  }

  lemma WorkExists(s: Core)
    requires Replicated(s) && CloseAhead(s) && !Drained(s)
    ensures exists h :: HostCan(s, h) && Working(s, h)
  {
    var h := NextStep(s);
  }

  lemma SomeScheduleWorks() returns (choose: Schedule)
    ensures Works(choose)
  {
    choose := (n: nat, s: Core) => AnyWork(s);
  }

  // From `s` the schedule takes `steps` to `t`.
  ghost predicate Takes(choose: Schedule, n: nat, s: Core, steps: seq<HostStep>, t: Core)
    decreases |steps|
  {
    if steps == [] then s == t
    else
      && s.past != [] && steps[0] == choose(n, s) && HostCan(s, steps[0])
      && Takes(choose, n + 1, HostApply(s, steps[0]), steps[1..], t)
  }

  // From every reachable state, once libvirt rests and only calls on a closed
  // connection fail, every schedule brings the inventory to libvirt's current objects
  // on an open connection in finitely many steps: also from the middle of a load,
  // after a lag, after a close that is read or not, and after a disconnect.
  lemma {:induction false} EveryScheduleDrains(choose: Schedule, n: nat, s: Core)
    returns (steps: seq<HostStep>, t: Core)
    requires Replicated(s) && CloseAhead(s) && Works(choose)
    ensures Takes(choose, n, s, steps, t) && Drained(t) && t.past == s.past && t.past != [] && t.inv == Lib(t)
    ensures !Cut(t.hub)
    decreases Broken(s), |s.pending|, Unreads(s), Phase(s.pc), Rest(s.pc), Todo(s.pc), Missing(s.pc)
  {
    if Drained(s) {
      DrainedAgrees(s);
      DrainedIsOpen(s);
      return [], s;
    }
    var h := choose(n, s);
    WorkIsCloser(s, h);
    ReplicatedStep(s, h);
    CloseAheadStep(s, h);
    hide CloseAhead, Replicated, Working, HostCan, HostApply;
    var more;
    more, t := EveryScheduleDrains(choose, n + 1, HostApply(s, h));
    steps := [h] + more;
    assert steps[1..] == more;
  }
}
