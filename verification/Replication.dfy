// The inventory replication protocol of `supervisor.rs`, `cache.rs` and `ws.rs`
// as a transition system.
//
// libvirt is a map from objects to their fields. A change and the event that
// reports it are two separate steps. One supervisor subscribes to the hub, loads
// everything with many small reads, and then reads one object again per event.
// Every read call is its own step, so a read of one object can be torn by
// changes in between. A client listens on the outgoing hub at a position of its
// own, and reads the inventory again, kind by kind, when it is told to.
module Replication {
  import opened Options
  import opened Collections

  // How many events a hub keeps for a slow receiver.
  const HUB_CAPACITY: nat := 1024

  datatype Kind = Vm | Pool | Network

  datatype Id = Id(kind: Kind, uuid: nat)

  // One value per libvirt call that reads the object.
  type Obj = seq<int>
  type Objects = map<Id, Obj>

  // The calls that read one object: the lookup or the list gives the name, and
  // then each field group needs a call of its own.
  function Fields(kind: Kind): nat {
    match kind
    case Vm => 5       // name, info, XML, persistent, autostart
    case Pool => 4     // name, info, persistent, autostart
    case Network => 5  // name, active, persistent, autostart, bridge
  }

  ghost predicate WellFormed(m: Objects) {
    forall x <- m :: |m[x]| == Fields(x.kind)
  }

  // Inventory::apply on the union of the three maps.
  function Put(m: Objects, x: Id, v: Option<Obj>): Objects {
    match v
    case Some(obj) => m[x := obj]
    case None => m - {x}
  }

  // An event in the supervisor's hub. The stamp is libvirt's clock at the send.
  datatype Event = Changed(id: Id, stamp: nat) | Closed

  // An event that the supervisor passed on to the clients.
  datatype Notice = Notice(id: Id, stamp: nat)

  // A read of one object in progress. `since` is libvirt's clock at its start.
  datatype Partial = Partial(id: Id, got: seq<int>, since: nat)

  // Where the supervisor task stands between two of its awaits.
  datatype Pc =
    | Down
    | Opened
    | Loading(rest: seq<Kind>, todo: seq<Partial>, acc: Objects, since: nat)
    | Loaded(acc: Objects, since: nat)
    | Counting
    | Idle
    | Refreshing(read: Partial, stamp: nat)
    | Refreshed(id: Id, result: Option<Obj>, since: nat, stamp: nat)
    | Forwarding(id: Id, stamp: nat)

  // One WebSocket client. `seen` is None until the client has marked the reload
  // counter. `stale` holds the kinds that it was told to read again, and `view`
  // is what it last read.
  datatype Client = Client(cursor: nat, seen: Option<nat>, stale: set<Kind>, view: Objects)

  // When each object was read last: on its own, or else by the last full load.
  datatype Times = Times(own: map<Id, nat>, load: nat)

  // libvirt and the supervisor. `past` holds every state that libvirt had; the
  // last one is current. A hub is the log of everything sent; a receiver is a
  // position in it, and it can read only the last HUB_CAPACITY entries.
  datatype Core = Core(
    past: seq<Objects>,
    pending: set<Id>,
    hub: seq<Event>,
    cursor: nat,
    pc: Pc,
    inv: Objects,
    times: Times)

  // The whole system: the core, what it signals to the clients, and the clients.
  datatype State = State(core: Core, reloads: nat, out: seq<Notice>, clients: map<nat, Client>)

  const INIT_CORE: Core := Core([map[]], {}, [], 0, Down, map[], Times(map[], 0))

  const INIT: State := State(INIT_CORE, 0, [], map[])

  function Clock(s: Core): int { |s.past| - 1 }

  function Lib(s: Core): Objects
    requires s.past != []
  {
    s.past[|s.past| - 1]
  }

  // The time at which the inventory's knowledge of `x` starts.
  function ReadAt(times: Times, x: Id): nat {
    if x in times.own then times.own[x] else times.load
  }

  predicate Lagged(sent: nat, cursor: nat) { cursor + HUB_CAPACITY < sent }

  // The connection of this hub is closed: it sends no more events and answers no
  // more calls.
  predicate Cut(hub: seq<Event>) { hub != [] && hub[|hub| - 1].Closed? }

  const ALL_KINDS: set<Kind> := {Vm, Pool, Network}

  // ----- Steps of libvirt and the supervisor -----

  datatype HostStep =
    | Change(x: Id, obj: Option<Obj>)
    | Emit(x: Id, last: bool)
    | EmitClosed
    | Connect
    | Subscribe
    | ListKind(todo: seq<Partial>)
    | ReadListed
    | FinishLoad
    | StoreLoad
    | CountReload
    | Receive
    | ReadField
    | ApplyRefresh
    | Forward
    | Fail

  ghost predicate InTodo(todo: seq<Partial>, x: Id) {
    exists i :: 0 <= i < |todo| && todo[i].id == x
  }

  ghost predicate Listing(lib: Objects, kind: Kind, todo: seq<Partial>, now: int) {
    && (forall i :: 0 <= i < |todo| ==>
        && todo[i].id in lib && todo[i].id.kind == kind && lib[todo[i].id] != []
        && todo[i].got == lib[todo[i].id][..1] && todo[i].since == now)
    && (forall i, j :: 0 <= i < j < |todo| ==> todo[i].id != todo[j].id)
    && (forall x <- lib :: x.kind == kind ==> InTodo(todo, x))
  }

  ghost predicate HostCan(s: Core, step: HostStep)
    requires s.past != []
  {
    match step
    case Change(x, obj) => obj.Some? ==> |obj.value| == Fields(x.kind)
    case Emit(x, last) => !s.pc.Down? && !Cut(s.hub)
    case EmitClosed => !s.pc.Down? && !Cut(s.hub)
    case Connect => s.pc.Down?
    case Subscribe => s.pc.Opened?
    case ListKind(todo) =>
      && !Cut(s.hub) && s.pc.Loading? && s.pc.todo == [] && s.pc.rest != []
      && Listing(Lib(s), s.pc.rest[0], todo, Clock(s))
    case ReadListed => !Cut(s.hub) && s.pc.Loading? && s.pc.todo != []
    case FinishLoad => s.pc.Loading? && s.pc.todo == [] && s.pc.rest == []
    case StoreLoad => s.pc.Loaded?
    case CountReload => s.pc.Counting?
    case Receive => s.pc.Idle? && s.cursor < |s.hub|
    case ReadField => !Cut(s.hub) && s.pc.Refreshing?
    case ApplyRefresh => s.pc.Refreshed?
    case Forward => s.pc.Forwarding?
    // No await and no call stands between a store and the signal for it.
    case Fail => !s.pc.Counting? && !s.pc.Forwarding?
  }

  // What one call adds to a read: the object may be gone by now.
  datatype ReadResult = Gone | More(got: seq<int>) | Complete(obj: Obj)

  // The last call for a network asks for its bridge, and no answer means none.
  const BRIDGE: nat := 4
  const NO_BRIDGE: int := -1

  function ReadOn(lib: Objects, p: Partial): ReadResult {
    if p.id !in lib || |lib[p.id]| <= |p.got| then
      if p.id.kind.Network? && |p.got| == BRIDGE then Complete(p.got + [NO_BRIDGE]) else Gone
    else
      var got := p.got + [lib[p.id][|p.got|]];
      if |got| < Fields(p.id.kind) then More(got) else Complete(got)
  }

  function ReadListedStep(s: Core): Core
    requires s.past != [] && s.pc.Loading? && s.pc.todo != []
  {
    var p := s.pc.todo[0];
    match ReadOn(Lib(s), p)
    case Gone => s.(pc := s.pc.(todo := s.pc.todo[1..]))
    case More(got) => s.(pc := s.pc.(todo := [p.(got := got)] + s.pc.todo[1..]))
    case Complete(obj) => s.(pc := s.pc.(todo := s.pc.todo[1..], acc := s.pc.acc[p.id := obj]))
  }

  // A receiver that fell behind skips to the oldest entry that is left.
  function ReceiveStep(s: Core): Core
    requires s.past != [] && s.cursor < |s.hub|
  {
    if Lagged(|s.hub|, s.cursor) then
      s.(cursor := |s.hub| - HUB_CAPACITY, pc := Loading([Vm, Pool, Network], [], map[], Clock(s)))
    else
      match s.hub[s.cursor]
      case Closed => s.(cursor := s.cursor + 1, pc := Down)
      case Changed(x, stamp) => s.(cursor := s.cursor + 1, pc := Refreshing(Partial(x, [], Clock(s)), stamp))
  }

  function ReadFieldStep(s: Core): Core
    requires s.past != [] && s.pc.Refreshing?
  {
    var p := s.pc.read;
    match ReadOn(Lib(s), p)
    case Gone => s.(pc := Refreshed(p.id, None, p.since, s.pc.stamp))
    case More(got) => s.(pc := s.pc.(read := p.(got := got)))
    case Complete(obj) => s.(pc := Refreshed(p.id, Some(obj), p.since, s.pc.stamp))
  }

  function HostApply(s: Core, step: HostStep): Core
    requires s.past != [] && HostCan(s, step)
  {
    match step
    case Change(x, obj) =>
      s.(past := s.past + [Put(Lib(s), x, obj)], pending := if s.pc.Down? then s.pending else s.pending + {x})
    case Emit(x, last) =>
      s.(hub := s.hub + [Changed(x, Clock(s))], pending := if last then s.pending - {x} else s.pending)
    case EmitClosed => s.(hub := s.hub + [Closed])
    // A new connection has a hub of its own. It reports no change from before.
    case Connect => s.(pc := Opened, hub := [], cursor := 0, pending := {})
    case Subscribe => s.(cursor := |s.hub|, pc := Loading([Vm, Pool, Network], [], map[], Clock(s)))
    case ListKind(todo) => s.(pc := s.pc.(rest := s.pc.rest[1..], todo := todo))
    case ReadListed => ReadListedStep(s)
    case FinishLoad => s.(pc := Loaded(s.pc.acc, s.pc.since))
    case StoreLoad => s.(inv := s.pc.acc, times := Times(map[], s.pc.since), pc := Counting)
    case CountReload => s.(pc := Idle)
    case Receive => ReceiveStep(s)
    case ReadField => ReadFieldStep(s)
    case ApplyRefresh =>
      s.(inv := Put(s.inv, s.pc.id, s.pc.result), times := s.times.(own := s.times.own[s.pc.id := s.pc.since]),
         pc := Forwarding(s.pc.id, s.pc.stamp))
    case Forward => s.(pc := Idle)
    case Fail => s.(pc := Down)
  }

  // ----- Steps of a client -----

  datatype PageStep = Open | Mark | Hear | HearReload | Fetch(kind: Kind) | Leave

  ghost predicate PageCan(s: State, c: nat, step: PageStep) {
    match step
    case Open => c !in s.clients
    case Mark => c in s.clients && s.clients[c].seen.None?
    case Hear => c in s.clients && s.clients[c].seen.Some? && s.clients[c].cursor < |s.out|
    case HearReload => c in s.clients && s.clients[c].seen.Some? && s.clients[c].seen.value < s.reloads
    case Fetch(kind) => c in s.clients && s.clients[c].seen.Some? && kind in s.clients[c].stale
    case Leave => c in s.clients
  }

  // `view` with the objects of one kind read again from `inv`.
  function ReadKind(view: Objects, inv: Objects, kind: Kind): Objects {
    (map x | x in view && x.kind != kind :: view[x]) + (map x | x in inv && x.kind == kind :: inv[x])
  }

  // The client after a step other than Leave.
  function PageAfter(s: State, c: nat, step: PageStep): Client
    requires PageCan(s, c, step) && !step.Leave?
  {
    match step
    case Open => Client(|s.out|, None, ALL_KINDS, map[])
    case Mark => s.clients[c].(seen := Some(s.reloads))
    case Hear =>
      var client := s.clients[c];
      if Lagged(|s.out|, client.cursor) then client.(cursor := |s.out| - HUB_CAPACITY, stale := ALL_KINDS)
      else client.(cursor := client.cursor + 1, stale := client.stale + {s.out[client.cursor].id.kind})
    case HearReload => s.clients[c].(seen := Some(s.reloads), stale := ALL_KINDS)
    case Fetch(kind) =>
      s.clients[c].(stale := s.clients[c].stale - {kind}, view := ReadKind(s.clients[c].view, s.core.inv, kind))
  }

  // ----- Runs -----

  datatype Step = Host(host: HostStep) | Page(c: nat, page: PageStep)

  ghost predicate Can(s: State, step: Step)
    requires s.core.past != []
  {
    match step
    case Host(h) => HostCan(s.core, h)
    case Page(c, p) => PageCan(s, c, p)
  }

  function Apply(s: State, step: Step): State
    requires s.core.past != [] && Can(s, step)
  {
    match step
    case Host(h) =>
      State(HostApply(s.core, h),
            if h.CountReload? then s.reloads + 1 else s.reloads,
            if h.Forward? then s.out + [Notice(s.core.pc.id, s.core.pc.stamp)] else s.out,
            s.clients)
    case Page(c, p) =>
      s.(clients := if p.Leave? then s.clients - {c} else s.clients[c := PageAfter(s, c, p)])
  }
}
