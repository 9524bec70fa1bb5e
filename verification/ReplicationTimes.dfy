// How old the values in the inventory are. Each object has a read time. It never
// goes back, and it is never before the event that a client hears about.
module ReplicationTimes {
  import opened Options
  import opened Collections
  import opened Replication
  import opened ReplicationSafety

  ghost predicate Held(past: seq<Objects>, t: nat, x: Id, f: nat, v: int) {
    t < |past| && x in past[t] && f < |past[t][x]| && past[t][x][f] == v
  }

  ghost predicate AbsentSince(past: seq<Objects>, since: nat, x: Id) {
    exists t: nat :: since <= t < |past| && x !in past[t]
  }

  // libvirt held this value at `since` or later. A network that disappears before
  // its last call counts as one without a bridge.
  ghost predicate HeldSince(past: seq<Objects>, since: nat, x: Id, f: nat, v: int) {
    || (exists t: nat :: since <= t && Held(past, t, x, f, v))
    || (x.kind.Network? && f == BRIDGE && v == NO_BRIDGE && AbsentSince(past, since, x))
  }

  lemma HeldGrows(past: seq<Objects>, more: seq<Objects>, since: nat, earlier: nat, x: Id, f: nat, v: int)
    requires past <= more && earlier <= since && HeldSince(past, since, x, f, v)
    ensures HeldSince(more, earlier, x, f, v)
  {
    if t: nat :| since <= t && Held(past, t, x, f, v) {
      assert Held(more, t, x, f, v);
    } else {
      var t: nat :| since <= t < |past| && x !in past[t];
      assert x !in more[t];
    }
  }

  ghost predicate GenuineRead(past: seq<Objects>, x: Id, got: seq<int>, since: nat) {
    forall f: nat :: f < |got| ==> HeldSince(past, since, x, f, got[f])
  }

  // Every field is a value that libvirt held at `since` or later, and an absent
  // object was absent at such a time.
  ghost predicate Genuine(past: seq<Objects>, x: Id, v: Option<Obj>, since: nat) {
    match v
    case Some(obj) => GenuineRead(past, x, obj, since)
    case None => AbsentSince(past, since, x)
  }

  ghost predicate TimelyPc(s: Core) {
    match s.pc
    case Loading(rest, todo, acc, since) =>
      && since <= Clock(s) && (forall x :: ReadAt(s.times, x) <= since)
      && (forall i :: 0 <= i < |todo| ==> GenuineRead(s.past, todo[i].id, todo[i].got, since))
      && (forall x :: Settled(s.pc, x) ==> Genuine(s.past, x, At(acc, x), since))
    case Loaded(acc, since) =>
      && since <= Clock(s) && (forall x :: ReadAt(s.times, x) <= since)
      && (forall x :: Genuine(s.past, x, At(acc, x), since))
    case Refreshing(p, stamp) =>
      stamp <= p.since <= Clock(s) && ReadAt(s.times, p.id) <= p.since && GenuineRead(s.past, p.id, p.got, p.since)
    case Refreshed(x, v, since, stamp) =>
      stamp <= since <= Clock(s) && ReadAt(s.times, x) <= since && Genuine(s.past, x, v, since)
    case Forwarding(x, stamp) => stamp <= ReadAt(s.times, x)
    case _ => true
  }

  ghost predicate Timely(s: Core) {
    && s.past != []
    && (forall x :: ReadAt(s.times, x) <= Clock(s))
    && (forall k :: 0 <= k < |s.hub| && s.hub[k].Changed? ==> s.hub[k].stamp <= Clock(s))
    && (forall x :: Genuine(s.past, x, At(s.inv, x), ReadAt(s.times, x)))
    && TimelyPc(s)
  }

  lemma TimelyInit()
    ensures Timely(INIT_CORE)
  {
    assert forall x: Id :: x !in INIT_CORE.past[0];
  }

  lemma GenuineReadGrows(past: seq<Objects>, more: seq<Objects>, x: Id, got: seq<int>, since: nat)
    requires past <= more && GenuineRead(past, x, got, since)
    ensures GenuineRead(more, x, got, since)
  {
    forall f: nat | f < |got| ensures HeldSince(more, since, x, f, got[f]) {
      HeldGrows(past, more, since, since, x, f, got[f]);
    }
  }

  lemma GenuineGrows(past: seq<Objects>, more: seq<Objects>, x: Id, v: Option<Obj>, since: nat)
    requires past <= more && Genuine(past, x, v, since)
    ensures Genuine(more, x, v, since)
  {
    match v
    case Some(obj) => GenuineReadGrows(past, more, x, obj, since);
    case None =>
      var t: nat :| since <= t < |past| && x !in past[t];
      assert x !in more[t];
  }

  lemma TimelyPcChange(s: Core, x: Id, obj: Option<Obj>)
    requires Timely(s) && HostCan(s, Change(x, obj))
    ensures TimelyPc(HostApply(s, Change(x, obj)))
  {
    var t := HostApply(s, Change(x, obj));
    assert s.past <= t.past;
    if s.pc.Loading? {
      forall i | 0 <= i < |s.pc.todo| ensures GenuineRead(t.past, s.pc.todo[i].id, s.pc.todo[i].got, s.pc.since) {
        GenuineReadGrows(s.past, t.past, s.pc.todo[i].id, s.pc.todo[i].got, s.pc.since);
      }
      forall y | Settled(s.pc, y) ensures Genuine(t.past, y, At(s.pc.acc, y), s.pc.since) {
        GenuineGrows(s.past, t.past, y, At(s.pc.acc, y), s.pc.since);
      }
    } else if s.pc.Loaded? {
      forall y ensures Genuine(t.past, y, At(s.pc.acc, y), s.pc.since) {
        GenuineGrows(s.past, t.past, y, At(s.pc.acc, y), s.pc.since);
      }
    } else if s.pc.Refreshing? {
      GenuineReadGrows(s.past, t.past, s.pc.read.id, s.pc.read.got, s.pc.read.since);
    } else if s.pc.Refreshed? {
      GenuineGrows(s.past, t.past, s.pc.id, s.pc.result, s.pc.since);
    }
  }

  lemma TimelyChange(s: Core, x: Id, obj: Option<Obj>)
    requires Timely(s) && HostCan(s, Change(x, obj))
    ensures Timely(HostApply(s, Change(x, obj)))
  {
    var t := HostApply(s, Change(x, obj));
    TimelyPcChange(s, x, obj);
    forall y ensures Genuine(t.past, y, At(t.inv, y), ReadAt(t.times, y)) {
      GenuineGrows(s.past, t.past, y, At(s.inv, y), ReadAt(s.times, y));
    }
  }

  // One more call reads a value that libvirt holds now.
  lemma ReadOnGenuine(s: Core, p: Partial, since: nat)
    requires Replicated(s) && GoodRead(s, p) && since <= Clock(s) && GenuineRead(s.past, p.id, p.got, since)
    ensures match ReadOn(Lib(s), p)
            case Gone => Genuine(s.past, p.id, None, since)
            case More(got) => GenuineRead(s.past, p.id, got, since)
            case Complete(obj) => Genuine(s.past, p.id, Some(obj), since)
  {
    ReadOnAgrees(s, p);
    var now := |s.past| - 1;
    if p.id in Lib(s) {
      assert Held(s.past, now, p.id, |p.got|, Lib(s)[p.id][|p.got|]);
    } else {
      assert p.id !in s.past[now];
    }
  }

  lemma TimelyReadListed(s: Core)
    requires Replicated(s) && Timely(s) && s.pc.Loading? && s.pc.todo != []
    ensures Timely(ReadListedStep(s))
  {
    var t := ReadListedStep(s);
    var p := s.pc.todo[0];
    ReadOnGenuine(s, p, s.pc.since);
    forall i | 0 <= i < |t.pc.todo| ensures GenuineRead(t.past, t.pc.todo[i].id, t.pc.todo[i].got, t.pc.since) {
      var j := i + |s.pc.todo| - |t.pc.todo|;
      assert t.pc.todo[i].id == s.pc.todo[j].id;
    }
    forall x | Settled(t.pc, x) ensures Genuine(t.past, x, At(t.pc.acc, x), t.pc.since) {
      ReadListedSettles(s, x);
    }
  }

  lemma TimelyList(s: Core, todo: seq<Partial>)
    requires Replicated(s) && Timely(s) && HostCan(s, ListKind(todo))
    ensures Timely(HostApply(s, ListKind(todo)))
  {
    var t := HostApply(s, ListKind(todo));
    var now := |s.past| - 1;
    forall i | 0 <= i < |todo| ensures GenuineRead(t.past, todo[i].id, todo[i].got, t.pc.since) {
      assert Held(s.past, now, todo[i].id, 0, todo[i].got[0]);
    }
    forall x | Settled(t.pc, x) ensures Genuine(t.past, x, At(t.pc.acc, x), t.pc.since) {
      if x.kind == s.pc.rest[0] {
        assert !Settled(s.pc, x);
        assert x !in s.past[now];
      } else {
        assert Settled(s.pc, x);
      }
    }
  }

  lemma TimelyStartLoad(s: Core, step: HostStep)
    requires Timely(s) && HostCan(s, step) && (step.Subscribe? || step.Receive?)
    ensures Timely(HostApply(s, step))
  {
    forall x: Id ensures x.kind in [Vm, Pool, Network] { AllKindsListed(x.kind); }
  }

  lemma TimelyApplyRefresh(s: Core)
    requires Timely(s) && s.pc.Refreshed?
    ensures Timely(HostApply(s, ApplyRefresh))
  {
    var t := HostApply(s, ApplyRefresh);
    forall x ensures ReadAt(t.times, x) <= Clock(t) && Genuine(t.past, x, At(t.inv, x), ReadAt(t.times, x)) {
      assert x != s.pc.id ==> At(t.inv, x) == At(s.inv, x) && ReadAt(t.times, x) == ReadAt(s.times, x);
    }
  }

  lemma TimelyFinishLoad(s: Core)
    requires Timely(s) && HostCan(s, FinishLoad)
    ensures Timely(HostApply(s, FinishLoad))
  {
    forall x ensures Settled(s.pc, x) {}
  }

  lemma TimelyEmit(s: Core, step: HostStep)
    requires Timely(s) && HostCan(s, step) && (step.Emit? || step.EmitClosed? || step.Connect? || step.Fail?)
    ensures Timely(HostApply(s, step))
  {
  }

  // Every step of libvirt and the supervisor keeps the times in order.
  lemma TimelyStep(s: Core, step: HostStep)
    requires Replicated(s) && Timely(s) && HostCan(s, step)
    ensures Timely(HostApply(s, step))
  {
    match step
    case Change(x, obj) => TimelyChange(s, x, obj);
    case Emit(_, _) | EmitClosed | Connect | Fail => TimelyEmit(s, step);
    case Subscribe | Receive => TimelyStartLoad(s, step);
    case ListKind(todo) => TimelyList(s, todo);
    case ReadListed => TimelyReadListed(s);
    case FinishLoad => TimelyFinishLoad(s);
    case ReadField => ReadOnGenuine(s, s.pc.read, s.pc.read.since);
    case ApplyRefresh => TimelyApplyRefresh(s);
    case StoreLoad | CountReload | Forward =>
  }

  // No step moves the read time of any object back.
  lemma ReadTimesGrow(s: Core, step: HostStep, x: Id)
    requires Timely(s) && HostCan(s, step)
    ensures ReadAt(s.times, x) <= ReadAt(HostApply(s, step).times, x)
  {
    if step.StoreLoad? {
      assert ReadAt(s.times, x) <= s.pc.since;
    }
  }

  // Every notice that went out is no newer than the inventory's read of its object.
  ghost predicate NoticesCovered(s: State) {
    forall k :: 0 <= k < |s.out| ==> s.out[k].stamp <= ReadAt(s.core.times, s.out[k].id)
  }

  lemma NoticesStep(s: State, step: Step)
    requires Timely(s.core) && NoticesCovered(s) && Can(s, step)
    ensures NoticesCovered(Apply(s, step))
  {
    var t := Apply(s, step);
    if step.Host? {
      forall k | 0 <= k < |t.out| ensures t.out[k].stamp <= ReadAt(t.core.times, t.out[k].id) {
        ReadTimesGrow(s.core, step.host, t.out[k].id);
      }
    }
  }
}
