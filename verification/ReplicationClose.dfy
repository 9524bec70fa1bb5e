// What a closed connection leads to: the supervisor never rests on it, and the next
// inventory comes from a load on a new one.
module ReplicationClose {
  import opened Options
  import opened Collections
  import opened Replication

  // A close is the last entry of its hub. A supervisor past its load has it ahead
  // of it. One that loads has too, unless the close came before it subscribed; then
  // it has not read anything.
  ghost predicate CloseAhead(s: Core) {
    && (forall k :: 0 <= k < |s.hub| - 1 ==> !s.hub[k].Closed?)
    && (Cut(s.hub) && !s.pc.Down? && !s.pc.Opened? && !s.pc.Loading? ==> s.cursor < |s.hub|)
    && (Cut(s.hub) && s.pc.Loading? ==> s.cursor < |s.hub| || (s.pc.rest != [] && s.pc.todo == []))
  }

  lemma CloseAheadInit()
    ensures CloseAhead(INIT_CORE)
  {
  }

  lemma CloseAheadReceive(s: Core)
    requires s.past != [] && CloseAhead(s) && HostCan(s, Receive)
    ensures CloseAhead(ReceiveStep(s))
  {
  }

  // Every step of libvirt and of the supervisor keeps it.
  lemma CloseAheadStep(s: Core, h: HostStep)
    requires s.past != [] && CloseAhead(s) && HostCan(s, h)
    requires !s.pc.Down? && !s.pc.Opened? ==> s.cursor <= |s.hub|
    ensures CloseAhead(HostApply(s, h))
  {
    if h.Receive? {
      CloseAheadReceive(s);
    }
  }

  // A receiver reads only what the hub still holds.
  lemma OnlyKeptIsRead(s: Core)
    requires s.past != [] && HostCan(s, Receive) && !ReceiveStep(s).pc.Loading?
    ensures s.cursor + 1024 >= |s.hub| && ReceiveStep(s).cursor == s.cursor + 1
  {
  }

  // A supervisor that reads a close is disconnected.
  lemma ReadCloseDisconnects(s: Core)
    requires s.past != [] && HostCan(s, Receive) && s.cursor + 1024 >= |s.hub| && s.hub[s.cursor].Closed?
    ensures HostApply(s, Receive).pc.Down?
  {
  }

  // Its only own step is then to connect anew, to a hub without events.
  lemma OnlyConnectLeaves(s: Core, h: HostStep)
    requires s.past != [] && s.pc.Down? && HostCan(s, h)
    ensures h.Change? || h.Connect? || h.Fail?
    ensures !h.Connect? ==> HostApply(s, h).pc.Down?
    ensures h.Connect? ==> HostApply(s, h).pc.Opened? && HostApply(s, h).hub == [] && HostApply(s, h).pending == {}
  {
  }

  ghost predicate HostRun(trace: seq<Core>, steps: seq<HostStep>) {
    && |trace| == |steps| + 1 && trace[0] == INIT_CORE
    && (forall i :: 0 <= i < |steps| ==>
        trace[i].past != [] && HostCan(trace[i], steps[i]) && trace[i + 1] == HostApply(trace[i], steps[i]))
  }

  // Nothing of the inventory is stored yet, and a load in progress began at `since` or later.
  ghost predicate Reloads(s: Core, inv: Objects, since: int) {
    && s.inv == inv && since <= Clock(s)
    && match s.pc
       case Down => true
       case Opened => true
       case Loading(_, _, _, began) => since <= began
       case Loaded(_, began) => since <= began
       case _ => false
  }

  lemma ReloadsStep(s: Core, h: HostStep, inv: Objects, since: int)
    requires s.past != [] && HostCan(s, h) && !h.StoreLoad? && Reloads(s, inv, since)
    ensures Reloads(HostApply(s, h), inv, since)
  {
  }

  lemma {:induction false} ReloadsRun(trace: seq<Core>, steps: seq<HostStep>, i: nat, j: nat)
    requires HostRun(trace, steps) && i <= j <= |steps| && trace[i].pc.Down?
    requires forall k :: i <= k < j ==> !steps[k].StoreLoad?
    ensures Reloads(trace[j], trace[i].inv, Clock(trace[i]))
  {
    if i == j {
    } else {
      ReloadsRun(trace, steps, i, j - 1);
      ReloadsStep(trace[j - 1], steps[j - 1], trace[i].inv, Clock(trace[i]));
    }
  }

  // After a disconnect the inventory stays as it was until a load stores a new one,
  // and that load began after the disconnect: nothing from the old connection comes in.
  lemma NextInventoryIsNew(trace: seq<Core>, steps: seq<HostStep>, i: nat, j: nat)
    requires HostRun(trace, steps) && i <= j < |steps| && trace[i].pc.Down? && steps[j].StoreLoad?
    requires forall k :: i <= k < j ==> !steps[k].StoreLoad?
    ensures trace[j].inv == trace[i].inv && trace[j + 1].times.load >= Clock(trace[i])
  {
    ReloadsRun(trace, steps, i, j);
  }
}
