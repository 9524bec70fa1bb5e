// The in-memory inventory of `cache.rs`: three maps that `load` fills and
// `apply` updates in place.
module Cache {
  import opened Options
  import opened Collections
  import opened Replication
  import opened ReplicationClose

  // What one read found: the object, or that it is gone.
  datatype Refresh = Refresh(id: Id, found: Option<Obj>)

  class Inventory {
    var vms: map<nat, Obj>
    var pools: map<nat, Obj>
    var networks: map<nat, Obj>

    function ByKind(kind: Kind): map<nat, Obj>
      reads this
    {
      match kind
      case Vm => vms
      case Pool => pools
      case Network => networks
    }

    // This inventory holds exactly the objects of `m`.
    ghost predicate Holds(m: Objects)
      reads this
    {
      forall x: Id :: (x in m <==> x.uuid in ByKind(x.kind)) && (x in m ==> m[x] == ByKind(x.kind)[x.uuid])
    }

    constructor ()
      ensures Holds(map[])
    {
      vms, pools, networks := map[], map[], map[];
    }

    // Stores the result of a refresh: the protocol's Put.
    method Apply(refresh: Refresh, ghost m: Objects)
      requires Holds(m)
      modifies this
      ensures Holds(Put(m, refresh.id, refresh.found))
    {
      match refresh
      case Refresh(Id(Vm, u), Some(obj)) => vms := vms[u := obj];
      case Refresh(Id(Vm, u), None) => vms := vms - {u};
      case Refresh(Id(Pool, u), Some(obj)) => pools := pools[u := obj];
      case Refresh(Id(Pool, u), None) => pools := pools - {u};
      case Refresh(Id(Network, u), Some(obj)) => networks := networks[u := obj];
      case Refresh(Id(Network, u), None) => networks := networks - {u};
    }

    // Fills an empty inventory from the reads of the listed objects. A read that
    // found nothing adds nothing.
    method Load(results: seq<Refresh>)
      modifies this
      ensures Holds(Found(results))
    {
      vms, pools, networks := map[], map[], map[];
      for i := 0 to |results|
        invariant Holds(Found(results[..i]))
      {
        assert results[..i + 1][..i] == results[..i];
        if results[i].found.Some? {
          Apply(results[i], Found(results[..i]));
        }
      }
      assert results[..|results|] == results;
    }
  }

  // The objects that the reads found.
  function Found(results: seq<Refresh>): Objects {
    if results == [] then map[]
    else
      var before, last := Found(results[..|results| - 1]), results[|results| - 1];
      if last.found.Some? then before[last.id := last.found.value] else before
  }

  lemma {:induction false} FoundOnly(results: seq<Refresh>, x: Id)
    requires forall i :: 0 <= i < |results| ==> results[i].id != x
    ensures x !in Found(results)
  {
    if results == [] {
    } else {
      FoundOnly(results[..|results| - 1], x);
    }
  }

  // A load of distinct objects holds each one exactly as its read found it.
  lemma {:induction false} FoundEach(results: seq<Refresh>, n: nat)
    requires n < |results| && forall i, j :: 0 <= i < j < |results| ==> results[i].id != results[j].id
    ensures At(Found(results), results[n].id) == results[n].found
  {
    var last := |results| - 1;
    if n < last {
      FoundEach(results[..last], n);
    } else {
      FoundOnly(results[..last], results[n].id);
    }
  }

  // ----- The load of the protocol -----

  // What the read that ends with this step found.
  function Ended(s: Core): seq<Refresh>
    requires s.past != [] && s.pc.Loading? && s.pc.todo != []
  {
    var p := s.pc.todo[0];
    match ReadOn(Lib(s), p)
    case Gone => [Refresh(p.id, None)]
    case More(_) => []
    case Complete(obj) => [Refresh(p.id, Some(obj))]
  }

  // The results of the reads since the load began, torn by whatever happened in between.
  ghost function Results(trace: seq<Core>, steps: seq<HostStep>, i: nat): seq<Refresh>
    requires HostRun(trace, steps) && i <= |steps|
  {
    if i == 0 || steps[i - 1].Subscribe? || steps[i - 1].Receive? then []
    else if steps[i - 1].ReadListed? then Results(trace, steps, i - 1) + Ended(trace[i - 1])
    else Results(trace, steps, i - 1)
  }

  lemma ReadListedFinds(s: Core, results: seq<Refresh>)
    requires s.past != [] && s.pc.Loading? && s.pc.todo != [] && s.pc.acc == Found(results)
    ensures ReadListedStep(s).pc.Loading? && ReadListedStep(s).pc.acc == Found(results + Ended(s))
  {
    var more := results + Ended(s);
    if Ended(s) == [] {
      assert more == results;
    } else {
      assert more[..|results|] == results;
    }
  }

  // No other step of the core changes what a load has.
  lemma OthersKeepLoad(s: Core, h: HostStep)
    requires s.past != [] && HostCan(s, h) && !h.ReadListed? && !h.Subscribe? && !h.Receive?
    ensures var t := HostApply(s, h).pc;
            t.Loading? || t.Loaded? ==> (s.pc.Loading? || s.pc.Loaded?) && t.acc == s.pc.acc
  {
  }

  // The interleaved load holds, at every moment, what the loop builds from the
  // results of its reads so far.
  lemma {:induction false} LoadIsFound(trace: seq<Core>, steps: seq<HostStep>, i: nat)
    requires HostRun(trace, steps) && i <= |steps|
    ensures trace[i].pc.Loading? || trace[i].pc.Loaded? ==> trace[i].pc.acc == Found(Results(trace, steps, i))
  {
    if i == 0 {
    } else {
      LoadIsFound(trace, steps, i - 1);
      var s, h := trace[i - 1], steps[i - 1];
      if h.ReadListed? {
        ReadListedFinds(s, Results(trace, steps, i - 1));
      } else if !h.Subscribe? && !h.Receive? {
        OthersKeepLoad(s, h);
      }
    }
  }

  // So the inventory that a load stores is the one that Load builds.
  lemma StoredIsFound(trace: seq<Core>, steps: seq<HostStep>, i: nat)
    requires HostRun(trace, steps) && i < |steps| && steps[i].StoreLoad?
    ensures trace[i + 1].inv == Found(Results(trace, steps, i))
  {
    LoadIsFound(trace, steps, i);
  }
}
