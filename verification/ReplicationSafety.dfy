// Safety of the replication protocol over every run: staleness of the inventory
// is always covered, so is staleness of a client's view, and read times only
// grow.
module ReplicationSafety {
  import opened Options
  import opened Collections
  import opened Replication

  // ----- What covers a stale object -----

  ghost predicate Unread(s: Core, x: Id) {
    exists k :: s.cursor <= k < |s.hub| && s.hub[k].Changed? && s.hub[k].id == x
  }

  // An event for `x` is still to come: not emitted yet, unread in the hub, or
  // overwritten, which forces a reload.
  ghost predicate Queued(s: Core, x: Id) {
    x in s.pending || Unread(s, x) || Lagged(|s.hub|, s.cursor)
  }

  ghost predicate GoodRead(s: Core, p: Partial)
    requires s.past != []
  {
    && |p.got| < Fields(p.id.kind)
    && (Queued(s, p.id) || p.got == [] || (p.id in Lib(s) && p.got <= Lib(s)[p.id]))
  }

  ghost predicate Settled(pc: Pc, x: Id)
    requires pc.Loading?
  {
    x.kind !in pc.rest && !InTodo(pc.todo, x)
  }

  // The reads to do are good, each object is listed once, and each kind is
  // listed once.
  ghost predicate TodoOk(s: Core)
    requires s.past != [] && s.pc.Loading?
  {
    && (forall i :: 0 <= i < |s.pc.todo| ==> GoodRead(s, s.pc.todo[i]) && s.pc.todo[i].id.kind !in s.pc.rest)
    && (forall i, j :: 0 <= i < j < |s.pc.todo| ==> s.pc.todo[i].id != s.pc.todo[j].id)
    && (forall i, j :: 0 <= i < j < |s.pc.rest| ==> s.pc.rest[i] != s.pc.rest[j])
  }

  // What the load has settled agrees with libvirt, or an event is to come.
  ghost predicate AccOk(s: Core)
    requires s.past != [] && s.pc.Loading?
  {
    && (forall x <- s.pc.acc :: Settled(s.pc, x))
    && (forall x :: Settled(s.pc, x) ==> At(s.pc.acc, x) == At(Lib(s), x) || Queued(s, x))
  }

  // The object whose own read the supervisor has in hand.
  ghost predicate InHand(pc: Pc, x: Id) {
    (pc.Refreshing? && pc.read.id == x) || (pc.Refreshed? && pc.id == x)
  }

  ghost predicate ReloadPending(pc: Pc) {
    pc.Down? || pc.Opened? || pc.Loading? || pc.Loaded?
  }

  // The replication invariant: a stale object has an event to come or in hand,
  // or a full load is pending.
  ghost predicate Replicated(s: Core) {
    && s.past != [] && WellFormed(Lib(s))
    && (!s.pc.Down? && !s.pc.Opened? ==> s.cursor <= |s.hub|)
    && (s.pc.Loading? ==> TodoOk(s) && AccOk(s))
    && (s.pc.Loaded? ==> forall x :: At(s.pc.acc, x) == At(Lib(s), x) || Queued(s, x))
    && (!ReloadPending(s.pc) ==> forall x :: !InHand(s.pc, x) ==> At(s.inv, x) == At(Lib(s), x) || Queued(s, x))
    && (s.pc.Refreshing? ==> GoodRead(s, s.pc.read))
    && (s.pc.Refreshed? ==> s.pc.result == At(Lib(s), s.pc.id) || Queued(s, s.pc.id))
  }

  lemma AllKindsListed(kind: Kind)
    ensures kind in [Vm, Pool, Network]
  {
    assert [Vm, Pool, Network][0] == Vm && [Vm, Pool, Network][1] == Pool && [Vm, Pool, Network][2] == Network;
  }

  lemma ReplicatedInit()
    ensures Replicated(INIT_CORE)
  {
  }

  // A step that only makes more events come keeps every cover.
  lemma QueuedGrows(s: Core, t: Core, x: Id)
    requires Queued(s, x) && s.pending <= t.pending && s.hub <= t.hub && s.cursor == t.cursor
    ensures Queued(t, x)
  {
    if Unread(s, x) {
      var k :| s.cursor <= k < |s.hub| && s.hub[k].Changed? && s.hub[k].id == x;
      assert t.hub[k] == s.hub[k];
    }
  }

  lemma ReplicatedChange(s: Core, x: Id, obj: Option<Obj>)
    requires Replicated(s) && HostCan(s, Change(x, obj))
    ensures Replicated(HostApply(s, Change(x, obj)))
  {
    var t := HostApply(s, Change(x, obj));
    forall y | Queued(s, y) ensures Queued(t, y) { QueuedGrows(s, t, y); }
    forall y | y != x ensures At(Lib(t), y) == At(Lib(s), y) {}
    assert !s.pc.Down? ==> Queued(t, x);
  }

  lemma ReplicatedEmit(s: Core, x: Id, last: bool)
    requires Replicated(s) && HostCan(s, Emit(x, last))
    ensures Replicated(HostApply(s, Emit(x, last)))
  {
    var t := HostApply(s, Emit(x, last));
    if s.pc.Opened? { return; }
    forall y | Queued(s, y) ensures Queued(t, y) {
      if y == x {
        assert t.hub[|s.hub|] == Changed(x, Clock(s));
      } else if Unread(s, y) {
        var k :| s.cursor <= k < |s.hub| && s.hub[k].Changed? && s.hub[k].id == y;
        assert t.hub[k] == s.hub[k];
      }
    }
  }

  // One call extends a good read, completes it with libvirt's current object, or
  // finds the object gone.
  lemma ReadOnAgrees(s: Core, p: Partial)
    requires s.past != [] && WellFormed(Lib(s)) && GoodRead(s, p)
    ensures match ReadOn(Lib(s), p)
            case Gone => p.id !in Lib(s)
            case More(got) => GoodRead(s, p.(got := got))
            case Complete(obj) => At(Lib(s), p.id) == Some(obj) || Queued(s, p.id)
  {
    if p.id in Lib(s) && p.got <= Lib(s)[p.id] {
      var obj := Lib(s)[p.id];
      assert p.got + [obj[|p.got|]] == obj[..|p.got| + 1];
      assert obj[..|obj|] == obj;
    }
  }

  lemma InTodoCons(todo: seq<Partial>, x: Id)
    requires todo != []
    ensures InTodo(todo, x) <==> x == todo[0].id || InTodo(todo[1..], x)
  {
    if x != todo[0].id && InTodo(todo, x) {
      var i :| 0 <= i < |todo| && todo[i].id == x;
      assert todo[1..][i - 1].id == x;
    }
  }

  // The queue sees nothing of the supervisor's own work.
  lemma SameQueue(s: Core, t: Core)
    requires t.pending == s.pending && t.hub == s.hub && t.cursor == s.cursor
    ensures forall x :: Queued(s, x) <==> Queued(t, x)
  {
    forall x ensures Queued(s, x) <==> Queued(t, x) { assert Unread(s, x) <==> Unread(t, x); }
  }

  lemma ReadListedTodo(s: Core)
    requires Replicated(s) && s.pc.Loading? && s.pc.todo != []
    ensures TodoOk(ReadListedStep(s))
  {
    var t := ReadListedStep(s);
    ReadOnAgrees(s, s.pc.todo[0]);
    SameQueue(s, t);
    forall i | 0 <= i < |t.pc.todo| ensures GoodRead(t, t.pc.todo[i]) {
      var j := i + |s.pc.todo| - |t.pc.todo|;
      assert t.pc.todo[i].id == s.pc.todo[j].id;
    }
  }

  // After one read, the same objects are settled, plus the one whose read ended.
  lemma ReadListedSettles(s: Core, x: Id)
    requires Replicated(s) && s.pc.Loading? && s.pc.todo != []
    ensures Settled(ReadListedStep(s).pc, x) <==>
            Settled(s.pc, x) || (x == s.pc.todo[0].id && !ReadOn(Lib(s), s.pc.todo[0]).More?)
    ensures !Settled(s.pc, s.pc.todo[0].id)
  {
    var t := ReadListedStep(s);
    var p, tail := s.pc.todo[0], s.pc.todo[1..];
    InTodoCons(s.pc.todo, x);
    InTodoCons(s.pc.todo, p.id);
    assert !InTodo(tail, p.id) by { assert forall i :: 0 <= i < |tail| ==> tail[i] == s.pc.todo[i + 1]; }
    if ReadOn(Lib(s), p).More? {
      InTodoCons(t.pc.todo, x);
      assert t.pc.todo[1..] == tail;
    }
  }

  lemma ReplicatedReadListed(s: Core)
    requires Replicated(s) && s.pc.Loading? && s.pc.todo != []
    ensures Replicated(ReadListedStep(s))
  {
    var t := ReadListedStep(s);
    ReadListedTodo(s);
    ReadOnAgrees(s, s.pc.todo[0]);
    SameQueue(s, t);
    forall x ensures (x in t.pc.acc ==> Settled(t.pc, x))
      && (Settled(t.pc, x) ==> At(t.pc.acc, x) == At(Lib(t), x) || Queued(t, x))
    {
      ReadListedSettles(s, x);
    }
  }

  lemma ReplicatedList(s: Core, todo: seq<Partial>)
    requires Replicated(s) && HostCan(s, ListKind(todo))
    ensures Replicated(HostApply(s, ListKind(todo)))
  {
    var t := HostApply(s, ListKind(todo));
    var kind := s.pc.rest[0];
    SameQueue(s, t);
    forall i | 0 <= i < |todo| ensures GoodRead(t, todo[i]) {
      assert Lib(s)[todo[i].id][..1] <= Lib(s)[todo[i].id];
    }
    forall x | Settled(t.pc, x) ensures At(t.pc.acc, x) == At(Lib(t), x) || Queued(t, x) {
      if x.kind == kind {
        assert x !in Lib(s);
        assert !Settled(s.pc, x);
      } else {
        assert Settled(s.pc, x);
      }
    }
    forall x | x in t.pc.acc ensures Settled(t.pc, x) { assert Settled(s.pc, x); }
  }

  lemma ReplicatedReceive(s: Core)
    requires Replicated(s) && HostCan(s, Receive)
    ensures Replicated(ReceiveStep(s))
  {
    var t := ReceiveStep(s);
    if !Lagged(|s.hub|, s.cursor) && s.hub[s.cursor].Changed? {
      forall y | y != s.hub[s.cursor].id && Unread(s, y) ensures Unread(t, y) {
        var k :| s.cursor <= k < |s.hub| && s.hub[k].Changed? && s.hub[k].id == y;
        assert t.hub[k].id == y;
      }
    } else if Lagged(|s.hub|, s.cursor) {
      forall x ensures !Settled(t.pc, x) { AllKindsListed(x.kind); }
    }
  }

  lemma ReplicatedReadField(s: Core)
    requires Replicated(s) && s.pc.Refreshing?
    ensures Replicated(ReadFieldStep(s))
  {
    var t := ReadFieldStep(s);
    ReadOnAgrees(s, s.pc.read);
    SameQueue(s, t);
  }

  lemma ReplicatedEmitClosed(s: Core)
    requires Replicated(s) && HostCan(s, EmitClosed)
    ensures Replicated(HostApply(s, EmitClosed))
  {
    var t := HostApply(s, EmitClosed);
    if !s.pc.Opened? {
      forall x | Queued(s, x) ensures Queued(t, x) { QueuedGrows(s, t, x); }
    }
  }

  lemma ReplicatedSubscribe(s: Core)
    requires Replicated(s) && s.pc.Opened?
    ensures Replicated(HostApply(s, Subscribe))
  {
    var t := HostApply(s, Subscribe);
    forall x ensures !Settled(t.pc, x) { AllKindsListed(x.kind); }
  }

  lemma ReplicatedFinishLoad(s: Core)
    requires Replicated(s) && HostCan(s, FinishLoad)
    ensures Replicated(HostApply(s, FinishLoad))
  {
    SameQueue(s, HostApply(s, FinishLoad));
    forall x ensures Settled(s.pc, x) {}
  }

  // The stores and signals of the supervisor, after its reads.
  lemma ReplicatedStore(s: Core, step: HostStep)
    requires Replicated(s) && HostCan(s, step)
    requires step.StoreLoad? || step.CountReload? || step.ApplyRefresh? || step.Forward?
    ensures Replicated(HostApply(s, step))
  {
    SameQueue(s, HostApply(s, step));
  }

  // Every step of libvirt and of the supervisor keeps the invariant.
  lemma ReplicatedStep(s: Core, step: HostStep)
    requires Replicated(s) && HostCan(s, step)
    ensures Replicated(HostApply(s, step))
  {
    match step
    case Change(x, obj) => ReplicatedChange(s, x, obj);
    case Emit(x, last) => ReplicatedEmit(s, x, last);
    case EmitClosed => ReplicatedEmitClosed(s);
    case Subscribe => ReplicatedSubscribe(s);
    case ListKind(todo) => ReplicatedList(s, todo);
    case ReadListed => ReplicatedReadListed(s);
    case FinishLoad => ReplicatedFinishLoad(s);
    case Receive => ReplicatedReceive(s);
    case ReadField => ReplicatedReadField(s);
    case StoreLoad | CountReload | ApplyRefresh | Forward => ReplicatedStore(s, step);
    case Connect | Fail =>
  }
}
