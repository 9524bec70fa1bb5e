// Deleting a VM and those of its volumes that nobody else has (`delete.rs`), while
// other clients change the domains and any call may fail.
module VmDelete {
  import opened Options
  import opened Disks

  type Uuid = nat

  datatype Disk = Disk(source: Source, shared: bool)

  // A VM with its saved data disks and, while it runs, its live ones.
  datatype Vm = Vm(name: string, active: bool, persistent: bool, saved: seq<Disk>, live: seq<Disk>)

  type Domains = map<Uuid, Vm>

  // The lookups that fail, by VM and disk.
  type Missed = set<(Uuid, Source)>

  // The calls whose failure the delete reports.
  datatype Call =
    | FindDomain | ReadOwn | ListDomains | ReadDomain(u: Uuid) | Undefine | FindAgain
    | FindVolume(index: nat) | DeleteVolume(index: nat)

  datatype Reason = UsedBy(vm: string) | Shared | NotInPool | Failed

  datatype Skipped = Skipped(path: string, reason: Reason)

  datatype Removal = Removal(removed: seq<string>, skipped: seq<Skipped>)

  datatype Error = NoDomain | NotShutOff | StartedMeanwhile | CallFailed(call: Call)

  // A data disk that has a path: the path, the key of its file, and whether it is shared.
  datatype Target = Target(path: string, key: string, shared: bool)

  // What other clients do: the domains at the list, which gives `ids`, those at
  // the visit of each id, and those just before the undefine.
  datatype Others = Others(listed: Domains, ids: seq<Uuid>, during: seq<Domains>, meanwhile: Domains)

  ghost predicate WellFormed(o: Others) {
    |o.during| == |o.ids| && forall u :: u in o.ids <==> u in o.listed
  }

  // ----- Resolving the disks -----

  function PathIn(h: Host, u: Uuid, s: Source, missed: Missed): Option<string> { PathOf(h, s, (u, s) !in missed) }

  // How the report names a disk.
  function Label(h: Host, u: Uuid, s: Source, missed: Missed): string {
    match PathIn(h, u, s, missed)
    case Some(path) => path
    case None => if s.Named? then s.pool + "/" + s.volume else ""
  }

  // The report names a disk by its path, or by its pool and its volume if it has none.
  lemma LabelTells(h: Host, u: Uuid, s: Source, missed: Missed)
    ensures forall path :: PathIn(h, u, s, missed) == Some(path) ==> Label(h, u, s, missed) == path
    ensures PathIn(h, u, s, missed) == None ==>
              s.Named? && |Label(h, u, s, missed)| == |s.pool| + 1 + |s.volume|
              && s.pool <= Label(h, u, s, missed) && Label(h, u, s, missed)[|s.pool|] == '/'
              && Label(h, u, s, missed)[|s.pool| + 1..] == s.volume
  {
  }

  function Labels(h: Host, u: Uuid, disks: seq<Disk>, missed: Missed): multiset<string> {
    if disks == [] then multiset{}
    else Labels(h, u, disks[..|disks| - 1], missed) + multiset{Label(h, u, disks[|disks| - 1].source, missed)}
  }

  function TargetPaths(targets: seq<Target>): multiset<string> {
    if targets == [] then multiset{}
    else TargetPaths(targets[..|targets| - 1]) + multiset{targets[|targets| - 1].path}
  }

  function SkippedPaths(skipped: seq<Skipped>): multiset<string> {
    if skipped == [] then multiset{}
    else SkippedPaths(skipped[..|skipped| - 1]) + multiset{skipped[|skipped| - 1].path}
  }

  function TargetOf(h: Host, u: Uuid, d: Disk, missed: Missed): seq<Target> {
    match PathIn(h, u, d.source, missed)
    case Some(path) => [Target(path, Canonical(h, path), d.shared)]
    case None => []
  }

  function UnresolvedOf(h: Host, u: Uuid, d: Disk, missed: Missed): seq<Skipped> {
    if PathIn(h, u, d.source, missed) == None && d.source.Named?
    then [Skipped(d.source.pool + "/" + d.source.volume, NotInPool)]
    else []
  }

  function Targets(h: Host, u: Uuid, disks: seq<Disk>, missed: Missed): seq<Target> {
    if disks == [] then []
    else Targets(h, u, disks[..|disks| - 1], missed) + TargetOf(h, u, disks[|disks| - 1], missed)
  }

  function Unresolved(h: Host, u: Uuid, disks: seq<Disk>, missed: Missed): seq<Skipped> {
    if disks == [] then []
    else Unresolved(h, u, disks[..|disks| - 1], missed) + UnresolvedOf(h, u, disks[|disks| - 1], missed)
  }

  method Resolve(h: Host, u: Uuid, disks: seq<Disk>, missed: Missed)
    returns (targets: seq<Target>, skipped: seq<Skipped>)
    ensures targets == Targets(h, u, disks, missed) && skipped == Unresolved(h, u, disks, missed)
  {
    targets, skipped := [], [];
    for i := 0 to |disks|
      invariant targets == Targets(h, u, disks[..i], missed) && skipped == Unresolved(h, u, disks[..i], missed)
    {
      assert disks[..i + 1][..i] == disks[..i];
      var d := disks[i];
      match PathIn(h, u, d.source, missed) {
        case Some(path) =>
          targets := targets + [Target(path, Canonical(h, path), d.shared)];
        case None =>
          if d.source.Named? {
            skipped := skipped + [Skipped(d.source.pool + "/" + d.source.volume, NotInPool)];
          }
      }
    }
    assert disks[..|disks|] == disks;
  }

  lemma TargetPathsPush(targets: seq<Target>, t: Target)
    ensures TargetPaths(targets + [t]) == TargetPaths(targets) + multiset{t.path}
  {
    assert (targets + [t])[..|targets|] == targets;
  }

  lemma SkippedPathsPush(skipped: seq<Skipped>, s: Skipped)
    ensures SkippedPaths(skipped + [s]) == SkippedPaths(skipped) + multiset{s.path}
  {
    assert (skipped + [s])[..|skipped|] == skipped;
  }

  lemma Shuffle(a: multiset<string>, b: multiset<string>, c: multiset<string>)
    ensures a + b + c == a + c + b && a + (b + c) == a + c + b
  {
  }

  lemma ResolveOne(h: Host, u: Uuid, targets: seq<Target>, skipped: seq<Skipped>, labels: multiset<string>, d: Disk,
                   missed: Missed)
    requires TargetPaths(targets) + SkippedPaths(skipped) == labels
    ensures TargetPaths(targets + TargetOf(h, u, d, missed)) + SkippedPaths(skipped + UnresolvedOf(h, u, d, missed))
            == labels + multiset{Label(h, u, d.source, missed)}
  {
    if PathIn(h, u, d.source, missed).Some? {
      var t := TargetOf(h, u, d, missed)[0];
      assert skipped + UnresolvedOf(h, u, d, missed) == skipped;
      TargetPathsPush(targets, t);
      Shuffle(TargetPaths(targets), multiset{t.path}, SkippedPaths(skipped));
    } else {
      assert targets + TargetOf(h, u, d, missed) == targets;
      SkippedPathsPush(skipped, UnresolvedOf(h, u, d, missed)[0]);
      Shuffle(TargetPaths(targets), SkippedPaths(skipped), multiset{Label(h, u, d.source, missed)});
    }
  }

  // Every disk becomes one target or one skipped entry.
  lemma {:induction false} ResolveAccounts(h: Host, u: Uuid, disks: seq<Disk>, missed: Missed)
    ensures TargetPaths(Targets(h, u, disks, missed)) + SkippedPaths(Unresolved(h, u, disks, missed))
            == Labels(h, u, disks, missed)
  {
    if disks == [] {
    } else {
      var first, last := disks[..|disks| - 1], disks[|disks| - 1];
      ResolveAccounts(h, u, first, missed);
      ResolveOne(h, u, Targets(h, u, first, missed), Unresolved(h, u, first, missed), Labels(h, u, first, missed), last,
                 missed);
    }
  }

  ghost predicate IsTargetOf(h: Host, u: Uuid, t: Target, d: Disk, missed: Missed) {
    PathIn(h, u, d.source, missed) == Some(t.path) && t.key == Canonical(h, t.path) && t.shared == d.shared
  }

  lemma {:induction false} DiskOfTarget(h: Host, u: Uuid, disks: seq<Disk>, missed: Missed, t: Target)
    returns (d: Disk)
    requires t in Targets(h, u, disks, missed)
    ensures d in disks && IsTargetOf(h, u, t, d, missed)
  {
    var first, last := disks[..|disks| - 1], disks[|disks| - 1];
    if t in Targets(h, u, first, missed) { d := DiskOfTarget(h, u, first, missed, t); } else { d := last; }
  }

  lemma {:induction false} TargetOfDisk(h: Host, u: Uuid, disks: seq<Disk>, missed: Missed, d: Disk)
    requires d in disks && PathIn(h, u, d.source, missed).Some?
    ensures var path := PathIn(h, u, d.source, missed).value;
            Target(path, Canonical(h, path), d.shared) in Targets(h, u, disks, missed)
  {
    var first, last := disks[..|disks| - 1], disks[|disks| - 1];
    if d in first {
      TargetOfDisk(h, u, first, missed, d);
    } else {
      assert d == last && TargetOf(h, u, d, missed)[0] in Targets(h, u, disks, missed);
    }
  }

  lemma {:induction false} DiskOfUnresolved(h: Host, u: Uuid, disks: seq<Disk>, missed: Missed, s: Skipped)
    returns (d: Disk)
    requires s in Unresolved(h, u, disks, missed)
    ensures d in disks && PathIn(h, u, d.source, missed) == None
    ensures s == Skipped(Label(h, u, d.source, missed), NotInPool)
  {
    var first, last := disks[..|disks| - 1], disks[|disks| - 1];
    if s in Unresolved(h, u, first, missed) { d := DiskOfUnresolved(h, u, first, missed, s); } else { d := last; }
  }

  // ----- The files of the other VMs -----

  // The files of these disks, as the lookups found them.
  function KeysOf(h: Host, u: Uuid, disks: seq<Disk>, missed: Missed): set<string> {
    set d | d in disks && PathIn(h, u, d.source, missed).Some? :: Canonical(h, PathIn(h, u, d.source, missed).value)
  }

  // The files of a VM: saved, and for a running VM live too.
  function UsedKeys(h: Host, u: Uuid, vm: Vm, missed: Missed): set<string> {
    KeysOf(h, u, vm.saved, missed) + if vm.active then KeysOf(h, u, vm.live, missed) else {}
  }

  // The VM has this disk in a configuration that counts.
  predicate HasDisk(vm: Vm, d: Disk) { d in vm.saved || (vm.active && d in vm.live) }

  // The scan knows a file of a VM if and only if one of its disks leads there. A
  // disk of that file leads elsewhere if and only if its lookup failed and so does
  // the path as written.
  lemma UsedIff(h: Host, u: Uuid, vm: Vm, missed: Missed, key: string)
    ensures key in UsedKeys(h, u, vm, missed) <==>
              exists d :: HasDisk(vm, d) && KeyOf(h, d.source, (u, d.source) !in missed) == Some(key)
    ensures forall d :: HasDisk(vm, d) && KeyOf(h, d.source, true) == Some(key) ==>
              (KeyOf(h, d.source, (u, d.source) !in missed) != Some(key) <==>
               (u, d.source) in missed && KeyOf(h, d.source, false) != Some(key))
  {
    forall d | HasDisk(vm, d) && KeyOf(h, d.source, (u, d.source) !in missed) == Some(key)
      ensures key in UsedKeys(h, u, vm, missed)
    {
    }
  }

  // Adds the files of `disks`, each with its user unless it already has one.
  method AddUsers(h: Host, u: Uuid, users: map<string, string>, name: string, disks: seq<Disk>, missed: Missed)
    returns (all: map<string, string>)
    ensures all.Keys == users.Keys + KeysOf(h, u, disks, missed)
    ensures forall k <- all :: all[k] == if k in users then users[k] else name
  {
    all := users;
    for i := 0 to |disks|
      invariant all.Keys == users.Keys + KeysOf(h, u, disks[..i], missed)
      invariant forall k <- all :: all[k] == if k in users then users[k] else name
    {
      assert disks[..i + 1] == disks[..i] + [disks[i]];
      var path := PathIn(h, u, disks[i].source, missed);
      if path.Some? {
        var key := Canonical(h, path.value);
        if key !in all { all := all[key := name]; }
      }
    }
    assert disks[..|disks|] == disks;
  }

  // The same for both configurations of a VM.
  method AddVm(h: Host, u: Uuid, users: map<string, string>, vm: Vm, missed: Missed) returns (all: map<string, string>)
    ensures all.Keys == users.Keys + UsedKeys(h, u, vm, missed)
    ensures forall k <- all :: all[k] == if k in users then users[k] else vm.name
  {
    all := AddUsers(h, u, users, vm.name, vm.saved, missed);
    if vm.active {
      all := AddUsers(h, u, all, vm.name, vm.live, missed);
    }
  }

  // Visit `i` finds its VM, which is not the one to delete.
  predicate Visits(o: Others, id: Uuid, i: nat) {
    i < |o.ids| && i < |o.during| && o.ids[i] != id && o.ids[i] in o.during[i]
  }

  function Visited(o: Others, id: Uuid, i: nat): Vm
    requires Visits(o, id, i)
  {
    o.during[i][o.ids[i]]
  }

  // Visit `i` found a VM of this name with the file `k`.
  ghost predicate FoundAt(h: Host, id: Uuid, o: Others, missed: Missed, i: nat, k: string, user: string) {
    Visits(o, id, i) && Visited(o, id, i).name == user && k in UsedKeys(h, o.ids[i], Visited(o, id, i), missed)
  }

  ghost predicate HasUser(h: Host, id: Uuid, o: Others, missed: Missed, k: string, user: string) {
    exists i: nat :: FoundAt(h, id, o, missed, i, k, user)
  }

  // The users are the files that the first `n` visits found, each with one VM that
  // has it.
  ghost predicate ScanOf(h: Host, id: Uuid, o: Others, missed: Missed, users: map<string, string>, n: nat) {
    && (forall i: nat :: i < n && Visits(o, id, i) ==>
          UsedKeys(h, o.ids[i], Visited(o, id, i), missed) <= users.Keys)
    && (forall k <- users :: HasUser(h, id, o, missed, k, users[k]))
  }

  // The calls that the scan makes.
  ghost predicate ScanFails(id: Uuid, o: Others, faults: set<Call>) {
    ListDomains in faults || exists i: nat :: Visits(o, id, i) && ReadDomain(o.ids[i]) in faults
  }

  // The call that ends the scan: the list, or the first visit that fails.
  ghost predicate EndsScan(id: Uuid, o: Others, faults: set<Call>, c: Call) {
    || (c == ListDomains && ListDomains in faults)
    || (ListDomains !in faults && exists i: nat ::
          && Visits(o, id, i) && c == ReadDomain(o.ids[i]) && c in faults
          && forall j: nat :: j < i && Visits(o, id, j) ==> ReadDomain(o.ids[j]) !in faults)
  }

  method PathsOfOtherDomains(h: Host, id: Uuid, o: Others, missed: Missed, faults: set<Call>)
    returns (users: Result<map<string, string>, Call>)
    requires |o.during| == |o.ids|
    ensures users.Ok? <==> !ScanFails(id, o, faults)
    ensures users.Ok? ==> ScanOf(h, id, o, missed, users.value, |o.ids|)
    ensures users.Err? ==> EndsScan(id, o, faults, users.error)
  {
    hide UsedKeys;
    if ListDomains in faults {
      return Err(ListDomains);
    }
    var found: map<string, string> := map[];
    for i := 0 to |o.ids|
      invariant ScanOf(h, id, o, missed, found, i)
      invariant forall j: nat :: j < i && Visits(o, id, j) ==> ReadDomain(o.ids[j]) !in faults
    {
      var u := o.ids[i];
      if u != id && u in o.during[i] {
        assert Visits(o, id, i);
        if ReadDomain(u) in faults {
          return Err(ReadDomain(u));
        }
        ghost var before := found;
        found := AddVm(h, u, found, o.during[i][u], missed);
        forall k | k in found ensures HasUser(h, id, o, missed, k, found[k]) {
          if k !in before { assert FoundAt(h, id, o, missed, i, k, found[k]); }
        }
      }
    }
    return Ok(found);
  }

  // No visit found the file on another VM.
  ghost predicate Unfound(h: Host, id: Uuid, o: Others, missed: Missed, key: string) {
    forall i: nat :: Visits(o, id, i) ==> key !in UsedKeys(h, o.ids[i], Visited(o, id, i), missed)
  }

  lemma UsersAreFound(h: Host, id: Uuid, o: Others, missed: Missed, users: map<string, string>, key: string)
    requires ScanOf(h, id, o, missed, users, |o.ids|) && |o.during| == |o.ids|
    ensures key !in users <==> Unfound(h, id, o, missed, key)
  {
    hide UsedKeys;
    if key in users { assert HasUser(h, id, o, missed, key, users[key]); }
  }

  // ----- The loop over the targets -----

  // A call for volume `i` fails: its lookup or its delete.
  predicate Fails(faults: set<Call>, i: nat) { FindVolume(i) in faults || DeleteVolume(i) in faults }

  // Why target `i` stays, or nothing if it goes.
  function Verdict(t: Target, i: nat, users: map<string, string>, volumes: set<string>, faults: set<Call>)
    : Option<Reason>
  {
    if t.shared then Some(Shared)
    else if t.key in users then Some(UsedBy(users[t.key]))
    else if FindVolume(i) in faults then Some(Failed)
    else if t.path !in volumes then Some(NotInPool)
    else if DeleteVolume(i) in faults then Some(Failed)
    else None
  }

  function ReportWith(report: Removal, path: string, verdict: Option<Reason>): Removal {
    match verdict
    case None => report.(removed := report.removed + [path])
    case Some(why) => report.(skipped := report.skipped + [Skipped(path, why)])
  }

  // The volumes and the report after the first `n` targets.
  function Handle(targets: seq<Target>, n: nat, users: map<string, string>, volumes: set<string>, faults: set<Call>)
    : (set<string>, Removal)
    requires n <= |targets|
  {
    if n == 0 then (volumes, Removal([], []))
    else
      var (left, report) := Handle(targets, n - 1, users, volumes, faults);
      var t := targets[n - 1];
      var verdict := Verdict(t, n - 1, users, left, faults);
      (if verdict == None then left - {t.path} else left, ReportWith(report, t.path, verdict))
  }

  // Target `i` goes, as far as it is not gone already.
  predicate GoesAt(targets: seq<Target>, users: map<string, string>, faults: set<Call>, i: nat, p: string) {
    i < |targets| && targets[i].path == p && !targets[i].shared && targets[i].key !in users && !Fails(faults, i)
  }

  // Exactly the volumes go that some target with working calls may take.
  lemma {:induction false} HandleTakes(targets: seq<Target>, n: nat, users: map<string, string>, volumes: set<string>,
                                       faults: set<Call>, p: string)
    requires n <= |targets|
    ensures p in Handle(targets, n, users, volumes, faults).0 <==>
              p in volumes && !exists i: nat :: i < n && GoesAt(targets, users, faults, i, p)
  {
    if n == 0 {
    } else {
      HandleTakes(targets, n - 1, users, volumes, faults, p);
      assert GoesAt(targets, users, faults, n - 1, p) <==>
        targets[n - 1].path == p && !targets[n - 1].shared && targets[n - 1].key !in users && !Fails(faults, n - 1);
    }
  }

  // ----- What the report accounts for -----

  // Why target `i` may stay.
  ghost predicate JustSkip(s: Skipped, t: Target, i: nat, users: map<string, string>, volumes: set<string>,
                           faults: set<Call>)
  {
    && s.path == t.path
    && match s.reason
       case Shared => t.shared
       case UsedBy(vm) => !t.shared && t.key in users && vm == users[t.key]
       case NotInPool => !t.shared && t.key !in users && t.path !in volumes && FindVolume(i) !in faults
       case Failed => !t.shared && t.key !in users && Fails(faults, i)
  }

  // Exactly the reported volumes are gone, each of them once.
  ghost predicate Erased(removed: seq<string>, before: set<string>, after: set<string>) {
    && after == before - (set p | p in removed)
    && forall p <- removed :: p in before && multiset(removed)[p] == 1
  }

  ghost predicate SkipHolds(s: Skipped, targets: seq<Target>, users: map<string, string>, volumes: set<string>,
                            faults: set<Call>)
  {
    exists i: nat :: i < |targets| && JustSkip(s, targets[i], i, users, volumes, faults)
  }

  ghost predicate RemovalHolds(p: string, targets: seq<Target>, users: map<string, string>, faults: set<Call>) {
    exists i: nat :: GoesAt(targets, users, faults, i, p)
  }

  // What the loop has done with these targets.
  ghost predicate Handled(targets: seq<Target>, part: Removal, users: map<string, string>, before: set<string>,
                          after: set<string>, faults: set<Call>)
  {
    && multiset(part.removed) + SkippedPaths(part.skipped) == TargetPaths(targets)
    && Erased(part.removed, before, after)
    && (forall p <- part.removed :: RemovalHolds(p, targets, users, faults))
    && (forall s <- part.skipped :: SkipHolds(s, targets, users, after, faults))
  }

  lemma RemovalStillHolds(p: string, targets: seq<Target>, users: map<string, string>, faults: set<Call>, t: Target)
    requires RemovalHolds(p, targets, users, faults)
    ensures RemovalHolds(p, targets + [t], users, faults)
  {
    var i: nat :| GoesAt(targets, users, faults, i, p);
    assert GoesAt(targets + [t], users, faults, i, p);
  }

  lemma SkipStillHolds(s: Skipped, targets: seq<Target>, users: map<string, string>, volumes: set<string>,
                       faults: set<Call>, t: Target, left: set<string>)
    requires SkipHolds(s, targets, users, volumes, faults) && left <= volumes
    ensures SkipHolds(s, targets + [t], users, left, faults)
  {
    var i: nat :| i < |targets| && JustSkip(s, targets[i], i, users, volumes, faults);
    assert (targets + [t])[i] == targets[i] && JustSkip(s, targets[i], i, users, left, faults);
  }

  lemma EraseOne(removed: seq<string>, before: set<string>, after: set<string>, p: string)
    requires Erased(removed, before, after) && p in after
    ensures Erased(removed + [p], before, after - {p})
  {
    assert p !in removed && multiset(removed)[p] == 0;
    assert forall q :: q in removed + [p] <==> q in removed || q == p;
  }

  lemma CountRemoved(removed: seq<string>, targets: seq<Target>, skipped: multiset<string>, t: Target)
    requires multiset(removed) + skipped == TargetPaths(targets)
    ensures multiset(removed + [t.path]) + skipped == TargetPaths(targets + [t])
  {
    TargetPathsPush(targets, t);
    hide TargetPaths;
    Shuffle(multiset(removed), multiset{t.path}, skipped);
  }

  lemma CountSkipped(removed: multiset<string>, targets: seq<Target>, skipped: seq<Skipped>, t: Target, s: Skipped)
    requires removed + SkippedPaths(skipped) == TargetPaths(targets) && s.path == t.path
    ensures removed + SkippedPaths(skipped + [s]) == TargetPaths(targets + [t])
  {
    TargetPathsPush(targets, t);
    SkippedPathsPush(skipped, s);
    hide SkippedPaths, TargetPaths;
    Shuffle(removed, SkippedPaths(skipped), multiset{t.path});
  }

  lemma HandleRemoved(targets: seq<Target>, part: Removal, users: map<string, string>, before: set<string>,
                      after: set<string>, faults: set<Call>, t: Target)
    requires Handled(targets, part, users, before, after, faults)
    requires Verdict(t, |targets|, users, after, faults) == None
    ensures Handled(targets + [t], ReportWith(part, t.path, None), users, before, after - {t.path}, faults)
  {
    hide SkippedPaths, TargetPaths, Erased, RemovalHolds, SkipHolds;
    CountRemoved(part.removed, targets, SkippedPaths(part.skipped), t);
    EraseOne(part.removed, before, after, t.path);
    assert RemovalHolds(t.path, targets + [t], users, faults) by { NewRemovalHolds(targets, users, after, faults, t); }
    forall p <- part.removed ensures RemovalHolds(p, targets + [t], users, faults) {
      RemovalStillHolds(p, targets, users, faults, t);
    }
    forall s <- part.skipped ensures SkipHolds(s, targets + [t], users, after - {t.path}, faults) {
      SkipStillHolds(s, targets, users, after, faults, t, after - {t.path});
    }
  }

  lemma NewRemovalHolds(targets: seq<Target>, users: map<string, string>, volumes: set<string>, faults: set<Call>,
                        t: Target)
    requires Verdict(t, |targets|, users, volumes, faults) == None
    ensures RemovalHolds(t.path, targets + [t], users, faults)
  {
    assert GoesAt(targets + [t], users, faults, |targets|, t.path);
  }

  lemma NewSkipHolds(targets: seq<Target>, users: map<string, string>, volumes: set<string>, faults: set<Call>,
                     t: Target)
    requires Verdict(t, |targets|, users, volumes, faults).Some?
    ensures var why := Verdict(t, |targets|, users, volumes, faults).value;
            SkipHolds(Skipped(t.path, why), targets + [t], users, volumes, faults)
  {
    var s := Skipped(t.path, Verdict(t, |targets|, users, volumes, faults).value);
    assert (targets + [t])[|targets|] == t && JustSkip(s, t, |targets|, users, volumes, faults);
  }

  lemma HandleSkipped(targets: seq<Target>, part: Removal, users: map<string, string>, before: set<string>,
                      after: set<string>, faults: set<Call>, t: Target)
    requires Handled(targets, part, users, before, after, faults)
    requires Verdict(t, |targets|, users, after, faults).Some?
    ensures var verdict := Verdict(t, |targets|, users, after, faults);
            Handled(targets + [t], ReportWith(part, t.path, verdict), users, before, after, faults)
  {
    hide SkippedPaths, TargetPaths, Erased, RemovalHolds, SkipHolds;
    var s := Skipped(t.path, Verdict(t, |targets|, users, after, faults).value);
    NewSkipHolds(targets, users, after, faults, t);
    hide Verdict;
    CountSkipped(multiset(part.removed), targets, part.skipped, t, s);
    forall p <- part.removed ensures RemovalHolds(p, targets + [t], users, faults) {
      RemovalStillHolds(p, targets, users, faults, t);
    }
    forall x <- part.skipped ensures SkipHolds(x, targets + [t], users, after, faults) {
      SkipStillHolds(x, targets, users, after, faults, t, after);
    }
  }

  lemma EmptyIsHandled(users: map<string, string>, volumes: set<string>, faults: set<Call>)
    ensures Handled([], Removal([], []), users, volumes, volumes, faults)
  {
  }

  // Each target is removed or skipped once, for a reason that holds.
  lemma {:induction false} HandleIsHandled(targets: seq<Target>, n: nat, users: map<string, string>,
                                           volumes: set<string>, faults: set<Call>)
    requires n <= |targets|
    ensures var (left, report) := Handle(targets, n, users, volumes, faults);
            Handled(targets[..n], report, users, volumes, left, faults)
  {
    hide Handled, Verdict, ReportWith;
    if n == 0 {
      EmptyIsHandled(users, volumes, faults);
    } else {
      HandleIsHandled(targets, n - 1, users, volumes, faults);
      var (left, report) := Handle(targets, n - 1, users, volumes, faults);
      var t := targets[n - 1];
      assert targets[..n] == targets[..n - 1] + [t];
      if Verdict(t, n - 1, users, left, faults) == None {
        HandleRemoved(targets[..n - 1], report, users, volumes, left, faults, t);
      } else {
        HandleSkipped(targets[..n - 1], report, users, volumes, left, faults, t);
      }
    }
  }

  // ----- The report and the disks -----

  // The calls for some target of this path fail.
  ghost predicate FailsAt(h: Host, id: Uuid, missed: Missed, disks: seq<Disk>, faults: set<Call>, p: string) {
    var targets := Targets(h, id, disks, missed);
    exists i: nat :: i < |targets| && targets[i].path == p && Fails(faults, i)
  }

  // Why a disk may stay, told by the disk, the visits and the calls.
  ghost predicate JustSkipped(h: Host, id: Uuid, o: Others, missed: Missed, s: Skipped, disks: seq<Disk>, d: Disk,
                              volumes: set<string>, faults: set<Call>)
  {
    && s.path == Label(h, id, d.source, missed)
    && match s.reason
       case Shared => d.shared
       case UsedBy(vm) => !d.shared && PathIn(h, id, d.source, missed) == Some(s.path)
         && HasUser(h, id, o, missed, Canonical(h, s.path), vm)
       case NotInPool => PathIn(h, id, d.source, missed) == None || (!d.shared && s.path !in volumes)
       case Failed =>
         !d.shared && PathIn(h, id, d.source, missed).Some? && FailsAt(h, id, missed, disks, faults, s.path)
  }

  // The path of an unshared disk whose file no visit found on another VM.
  ghost predicate JustRemoved(h: Host, id: Uuid, o: Others, missed: Missed, p: string, disks: seq<Disk>) {
    && (exists d <- disks :: !d.shared && PathIn(h, id, d.source, missed) == Some(p))
    && Unfound(h, id, o, missed, Canonical(h, p))
  }

  // Each disk is removed or skipped once, and rightly so.
  ghost predicate Accounted(h: Host, id: Uuid, o: Others, missed: Missed, report: Removal, disks: seq<Disk>,
                            volumes: set<string>, faults: set<Call>)
  {
    && multiset(report.removed) + SkippedPaths(report.skipped) == Labels(h, id, disks, missed)
    && (forall p <- report.removed :: JustRemoved(h, id, o, missed, p, disks))
    && (forall s <- report.skipped :: exists d <- disks :: JustSkipped(h, id, o, missed, s, disks, d, volumes, faults))
  }

  lemma {:induction false} SkippedPathsOfBoth(a: seq<Skipped>, b: seq<Skipped>)
    ensures SkippedPaths(a + b) == SkippedPaths(a) + SkippedPaths(b)
  {
    if b == [] {
      assert a + b == a;
    } else {
      assert (a + b)[..|a + b| - 1] == a + b[..|b| - 1];
      SkippedPathsOfBoth(a, b[..|b| - 1]);
    }
  }

  lemma RemovalsAreJust(h: Host, id: Uuid, o: Others, missed: Missed, disks: seq<Disk>, users: map<string, string>,
                        faults: set<Call>, p: string)
    requires RemovalHolds(p, Targets(h, id, disks, missed), users, faults) && |o.during| == |o.ids|
    requires Targets(h, id, disks, missed) != [] ==> ScanOf(h, id, o, missed, users, |o.ids|)
    ensures JustRemoved(h, id, o, missed, p, disks)
  {
    hide Unfound, ScanOf;
    var i: nat :| GoesAt(Targets(h, id, disks, missed), users, faults, i, p);
    var t := Targets(h, id, disks, missed)[i];
    var d := DiskOfTarget(h, id, disks, missed, t);
    UsersAreFound(h, id, o, missed, users, t.key);
  }

  lemma SkipsAreJust(h: Host, id: Uuid, o: Others, missed: Missed, disks: seq<Disk>, users: map<string, string>,
                     volumes: set<string>, faults: set<Call>, s: Skipped)
    requires SkipHolds(s, Targets(h, id, disks, missed), users, volumes, faults)
             || s in Unresolved(h, id, disks, missed)
    requires Targets(h, id, disks, missed) != [] ==> ScanOf(h, id, o, missed, users, |o.ids|)
    ensures exists d <- disks :: JustSkipped(h, id, o, missed, s, disks, d, volumes, faults)
  {
    hide HasUser, UsedKeys;
    if s in Unresolved(h, id, disks, missed) {
      var d := DiskOfUnresolved(h, id, disks, missed, s);
      assert JustSkipped(h, id, o, missed, s, disks, d, volumes, faults);
    } else {
      var targets := Targets(h, id, disks, missed);
      var i: nat :| i < |targets| && JustSkip(s, targets[i], i, users, volumes, faults);
      var d := DiskOfTarget(h, id, disks, missed, targets[i]);
      assert JustSkipped(h, id, o, missed, s, disks, d, volumes, faults);
    }
  }

  // The two parts of a report add up to a full account of the disks.
  lemma ReportAccounts(h: Host, id: Uuid, o: Others, missed: Missed, disks: seq<Disk>, part: Removal,
                       users: map<string, string>, had: set<string>, volumes: set<string>, faults: set<Call>)
    requires Handled(Targets(h, id, disks, missed), part, users, had, volumes, faults) && |o.during| == |o.ids|
    requires Targets(h, id, disks, missed) != [] ==> ScanOf(h, id, o, missed, users, |o.ids|)
    ensures Accounted(h, id, o, missed, part.(skipped := Unresolved(h, id, disks, missed) + part.skipped), disks,
                      volumes, faults)
  {
    hide JustRemoved, JustSkipped, ScanOf, Erased, SkipHolds, RemovalHolds;
    var skipped := Unresolved(h, id, disks, missed);
    assert multiset(part.removed) + SkippedPaths(skipped + part.skipped) == Labels(h, id, disks, missed) by {
      SkippedPathsOfBoth(skipped, part.skipped);
      ResolveAccounts(h, id, disks, missed);
      Shuffle(multiset(part.removed), SkippedPaths(skipped), SkippedPaths(part.skipped));
    }
    forall p <- part.removed ensures JustRemoved(h, id, o, missed, p, disks) {
      RemovalsAreJust(h, id, o, missed, disks, users, faults, p);
    }
    forall s <- skipped + part.skipped
      ensures exists d <- disks :: JustSkipped(h, id, o, missed, s, disks, d, volumes, faults)
    {
      SkipsAreJust(h, id, o, missed, disks, users, volumes, faults, s);
    }
  }

  // ----- Which volumes go -----

  // Target `i` of the disks is unshared, has the path `p`, and its calls work.
  ghost predicate ReadyAt(h: Host, id: Uuid, missed: Missed, disks: seq<Disk>, faults: set<Call>, i: nat, p: string) {
    var targets := Targets(h, id, disks, missed);
    i < |targets| && targets[i].path == p && !targets[i].shared && !Fails(faults, i)
  }

  ghost predicate Ready(h: Host, id: Uuid, missed: Missed, disks: seq<Disk>, faults: set<Call>, p: string) {
    exists i: nat :: ReadyAt(h, id, missed, disks, faults, i, p)
  }

  // What a delete takes, whichever calls fail.
  ghost function Takes(h: Host, id: Uuid, o: Others, missed: Missed, disks: seq<Disk>, volumes: set<string>,
                       faults: set<Call>): set<string>
  {
    set p | p in volumes && Ready(h, id, missed, disks, faults, p) && Unfound(h, id, o, missed, Canonical(h, p))
  }

  lemma TargetKey(h: Host, id: Uuid, missed: Missed, disks: seq<Disk>, i: nat)
    requires i < |Targets(h, id, disks, missed)|
    ensures Targets(h, id, disks, missed)[i].key == Canonical(h, Targets(h, id, disks, missed)[i].path)
  {
    var d := DiskOfTarget(h, id, disks, missed, Targets(h, id, disks, missed)[i]);
  }

  lemma GoesIffReady(h: Host, id: Uuid, o: Others, missed: Missed, disks: seq<Disk>, users: map<string, string>,
                     faults: set<Call>, i: nat, p: string)
    requires Targets(h, id, disks, missed) != [] ==> ScanOf(h, id, o, missed, users, |o.ids|)
    requires |o.during| == |o.ids|
    ensures GoesAt(Targets(h, id, disks, missed), users, faults, i, p) <==>
              ReadyAt(h, id, missed, disks, faults, i, p) && Unfound(h, id, o, missed, Canonical(h, p))
  {
    hide Unfound, ScanOf;
    if i < |Targets(h, id, disks, missed)| {
      TargetKey(h, id, missed, disks, i);
      UsersAreFound(h, id, o, missed, users, Targets(h, id, disks, missed)[i].key);
    }
  }

  // The loop takes exactly these volumes, for every set of failing calls.
  lemma HandleTakesAll(h: Host, id: Uuid, o: Others, missed: Missed, disks: seq<Disk>, users: map<string, string>,
                       volumes: set<string>, faults: set<Call>)
    requires Targets(h, id, disks, missed) != [] ==> ScanOf(h, id, o, missed, users, |o.ids|)
    requires |o.during| == |o.ids|
    ensures var targets := Targets(h, id, disks, missed);
            Handle(targets, |targets|, users, volumes, faults).0 ==
            volumes - Takes(h, id, o, missed, disks, volumes, faults)
  {
    hide Handle, Unfound, ScanOf, ReadyAt, GoesAt;
    var targets := Targets(h, id, disks, missed);
    var left := Handle(targets, |targets|, users, volumes, faults).0;
    forall p ensures p in left <==> p in volumes - Takes(h, id, o, missed, disks, volumes, faults) {
      HandleTakes(targets, |targets|, users, volumes, faults, p);
      forall i: nat
        ensures GoesAt(targets, users, faults, i, p) <==>
                ReadyAt(h, id, missed, disks, faults, i, p) && Unfound(h, id, o, missed, Canonical(h, p))
      {
        GoesIffReady(h, id, o, missed, disks, users, faults, i, p);
      }
      ReadyIsTarget(h, id, missed, disks, faults, p);
    }
  }

  lemma ReadyIsTarget(h: Host, id: Uuid, missed: Missed, disks: seq<Disk>, faults: set<Call>, p: string)
    ensures forall i: nat {:trigger ReadyAt(h, id, missed, disks, faults, i, p)} ::
              ReadyAt(h, id, missed, disks, faults, i, p) ==> i < |Targets(h, id, disks, missed)|
  {
  }

  // The exact condition for every own, unshared volume whose calls work: it goes if
  // and only if no disk that a visit saw on another VM leads to its file.
  lemma TakenIff(h: Host, id: Uuid, o: Others, missed: Missed, disks: seq<Disk>, volumes: set<string>,
                 faults: set<Call>, p: string)
    requires p in volumes && Ready(h, id, missed, disks, faults, p)
    ensures p in Takes(h, id, o, missed, disks, volumes, faults) <==>
              forall i: nat, d :: Visits(o, id, i) && HasDisk(Visited(o, id, i), d) ==>
                KeyOf(h, d.source, (o.ids[i], d.source) !in missed) != Some(Canonical(h, p))
  {
    hide UsedKeys, Ready, KeyOf;
    var key := Canonical(h, p);
    forall i: nat | Visits(o, id, i)
      ensures key in UsedKeys(h, o.ids[i], Visited(o, id, i), missed) <==>
              exists d :: HasDisk(Visited(o, id, i), d)
                && KeyOf(h, d.source, (o.ids[i], d.source) !in missed) == Some(key)
    {
      UsedIff(h, o.ids[i], Visited(o, id, i), missed, key);
    }
  }

  // While nobody changes the domains and every lookup works, it goes if and only if
  // its file is no disk of another domain, saved or live, behind any links.
  lemma QuietlyTakenIff(h: Host, id: Uuid, o: Others, disks: seq<Disk>, volumes: set<string>, faults: set<Call>,
                        p: string)
    requires WellFormed(o) && (forall i :: 0 <= i < |o.during| ==> o.during[i] == o.listed)
    requires p in volumes && Ready(h, id, {}, disks, faults, p)
    ensures p in Takes(h, id, o, {}, disks, volumes, faults) <==>
              forall u <- o.listed :: u != id ==>
                forall d :: d in o.listed[u].saved || (o.listed[u].active && d in o.listed[u].live) ==>
                  !IsFile(h, d.source, p)
  {
    TakenIff(h, id, o, {}, disks, volumes, faults, p);
    hide Takes, Ready, KeyOf, IsFile;
    forall d: Disk ensures KeyOf(h, d.source, true) == Some(Canonical(h, p)) <==> IsFile(h, d.source, p) {
      KeyIffIsFile(h, d.source, p);
    }
    if u, d :| u in o.listed && u != id && HasDisk(o.listed[u], d) && IsFile(h, d.source, p) {
      var i :| 0 <= i < |o.ids| && o.ids[i] == u;
      assert Visits(o, id, i) && HasDisk(Visited(o, id, i), d);
    }
  }

  // ----- The delete -----

  // The delete comes as far as the undefine.
  ghost predicate ReachesUndefine(id: Uuid, removeVolumes: bool, scans: bool, vm: Vm, o: Others, faults: set<Call>) {
    && FindDomain !in faults && !vm.active && (removeVolumes ==> ReadOwn !in faults)
    && (scans ==> !ScanFails(id, o, faults))
  }

  // The undefine works. libvirt undefines no transient domain.
  ghost predicate Undefines(id: Uuid, o: Others, faults: set<Call>) {
    Undefine !in faults && id in o.meanwhile && o.meanwhile[id].persistent
  }

  // Nothing before the volumes stops the delete.
  ghost predicate GoesThrough(id: Uuid, removeVolumes: bool, scans: bool, vm: Vm, o: Others, faults: set<Call>) {
    && ReachesUndefine(id, removeVolumes, scans, vm, o, faults)
    && Undefines(id, o, faults) && !o.meanwhile[id].active && FindAgain !in faults
  }

  // What the delete leaves of the domains: nothing changes before the undefine, and
  // then only the domain itself.
  ghost predicate DomainsAfter(id: Uuid, reaches: bool, o: Others, faults: set<Call>, before: Domains, after: Domains) {
    if !reaches then after == before
    else if !Undefines(id, o, faults) then after == o.meanwhile
    else if o.meanwhile[id].active then after == o.meanwhile[id := o.meanwhile[id].(persistent := false)]
    else after == o.meanwhile - {id}
  }

  class Connection {
    var domains: Domains
    // The volumes of all pools, by their paths.
    var volumes: set<string>

    // A running domain lives on without its definition.
    method UndefineCall(id: Uuid, faults: set<Call>) returns (ok: bool)
      modifies this`domains
      ensures ok <==> id in old(domains) && old(domains)[id].persistent && Undefine !in faults
      ensures !ok ==> domains == old(domains)
      ensures ok && !old(domains)[id].active ==> domains == old(domains) - {id}
      ensures ok && old(domains)[id].active ==> domains == old(domains)[id := old(domains)[id].(persistent := false)]
    {
      if id !in domains || !domains[id].persistent || Undefine in faults {
        return false;
      }
      var vm := domains[id];
      domains := if vm.active then domains[id := vm.(persistent := false)] else domains - {id};
      return true;
    }

    // Looks volume `i` up by its path and deletes it.
    method DeleteVolumeCall(path: string, i: nat, faults: set<Call>) returns (r: Option<Reason>)
      modifies this`volumes
      ensures r == if FindVolume(i) in faults then Some(Failed)
                   else if path !in old(volumes) then Some(NotInPool)
                   else if DeleteVolume(i) in faults then Some(Failed)
                   else None
      ensures volumes == if r == None then old(volumes) - {path} else old(volumes)
    {
      if FindVolume(i) in faults {
        return Some(Failed);
      }
      if path !in volumes {
        return Some(NotInPool);
      }
      if DeleteVolume(i) in faults {
        return Some(Failed);
      }
      volumes := volumes - {path};
      return None;
    }

    method RemoveTargets(targets: seq<Target>, users: map<string, string>, faults: set<Call>) returns (report: Removal)
      modifies this`volumes
      ensures (volumes, report) == Handle(targets, |targets|, users, old(volumes), faults)
    {
      report := Removal([], []);
      for i := 0 to |targets|
        invariant (volumes, report) == Handle(targets, i, users, old(volumes), faults)
      {
        var t := targets[i];
        var reason: Option<Reason>;
        if t.shared {
          reason := Some(Shared);
        } else if t.key in users {
          reason := Some(UsedBy(users[t.key]));
        } else {
          reason := DeleteVolumeCall(t.path, i, faults);
        }
        match reason {
          case None =>
            report := report.(removed := report.removed + [t.path]);
          case Some(why) =>
            report := report.(skipped := report.skipped + [Skipped(t.path, why)]);
        }
      }
    }

    // `missed` are the lookups that fail, `faults` the calls.
    method Delete(h: Host, id: Uuid, removeVolumes: bool, o: Others, missed: Missed, faults: set<Call>)
      returns (r: Result<Removal, Error>)
      requires WellFormed(o)
      modifies this
      ensures id !in old(domains) ==> r == Err(NoDomain) && domains == old(domains)
      ensures id in old(domains) ==>
                var vm := old(domains)[id];
                var scans := removeVolumes && Targets(h, id, vm.saved, missed) != [];
                var reaches := ReachesUndefine(id, removeVolumes, scans, vm, o, faults);
                && (r.Ok? <==> GoesThrough(id, removeVolumes, scans, vm, o, faults))
                && DomainsAfter(id, reaches, o, faults, old(domains), domains)
                && (r == Err(NotShutOff) <==> FindDomain !in faults && vm.active)
                && (r == Err(NoDomain) <==> reaches && id !in o.meanwhile)
                && (r == Err(StartedMeanwhile) <==>
                    reaches && Undefines(id, o, faults) && o.meanwhile[id].active && FindAgain !in faults)
                && (r == Err(CallFailed(FindDomain)) <==> FindDomain in faults)
                && (r == Err(CallFailed(Undefine)) <==> reaches && id in o.meanwhile && !Undefines(id, o, faults))
                && (r == Err(CallFailed(FindAgain)) <==> reaches && Undefines(id, o, faults) && FindAgain in faults)
      ensures r.Err? || id in domains ==> volumes == old(volumes)
      ensures r.Ok? ==> id !in domains
      ensures r.Ok? && !removeVolumes ==> r.value == Removal([], []) && volumes == old(volumes)
      ensures r.Ok? && removeVolumes ==>
                Accounted(h, id, o, missed, r.value, old(domains)[id].saved, volumes, faults)
      ensures r.Ok? ==> Erased(r.value.removed, old(volumes), volumes)
      ensures r.Ok? && removeVolumes ==>
                volumes == old(volumes) - Takes(h, id, o, missed, old(domains)[id].saved, old(volumes), faults)
    {
      hide Accounted, Targets, Unresolved, ScanOf, Takes, SkipHolds, RemovalHolds;
      if FindDomain in faults || id !in domains {
        return Err(if id in domains then CallFailed(FindDomain) else NoDomain);
      }
      if domains[id].active {
        return Err(NotShutOff);
      }
      ghost var disks := domains[id].saved;
      var targets: seq<Target>, unresolved: seq<Skipped> := [], [];
      if removeVolumes {
        if ReadOwn in faults {
          return Err(CallFailed(ReadOwn));
        }
        targets, unresolved := Resolve(h, id, domains[id].saved, missed);
      }
      var users: map<string, string> := map[];
      if targets != [] {
        var found := PathsOfOtherDomains(h, id, o, missed, faults);
        if found.Err? {
          return Err(CallFailed(found.error));
        }
        users := found.value;
      }
      domains := o.meanwhile;
      var ok := UndefineCall(id, faults);
      if !ok {
        return Err(if id in domains then CallFailed(Undefine) else NoDomain);
      }
      if FindAgain in faults {
        return Err(CallFailed(FindAgain));
      }
      if id in domains {
        return Err(StartedMeanwhile);
      }
      ghost var before := volumes;
      var report := RemoveTargets(targets, users, faults);
      HandleIsHandled(targets, |targets|, users, before, faults);
      assert targets[..|targets|] == targets;
      if removeVolumes {
        ReportAccounts(h, id, o, missed, disks, report, users, before, volumes, faults);
        HandleTakesAll(h, id, o, missed, disks, users, before, faults);
      }
      r := Ok(report.(skipped := unresolved + report.skipped));
    }
  }

  // ----- Used disks that go -----

  // One failed lookup lets a volume go that another VM has by its name.
  lemma MissedLookupTakesUsedDisk() returns (h: Host, o: Others, missed: Missed, disks: seq<Disk>)
    ensures WellFormed(o) && Visits(o, 1, 0) && HasDisk(Visited(o, 1, 0), Disk(Named("pool", "disk"), false))
    ensures KeyOf(h, Named("pool", "disk"), true) == Some("/b")
    ensures "/b" in Takes(h, 1, o, missed, disks, {"/b"}, {})
    ensures "/b" !in Takes(h, 1, o, {}, disks, {"/b"}, {})
  {
    var d := Disk(Named("pool", "disk"), false);
    var web := Vm("web", false, true, [d], []);
    h := Host(map[], map[("pool", "disk") := "/b"], map[]);
    o := Others(map[2 := web], [2], [map[2 := web]], map[]);
    missed := {(2, d.source)};
    disks := [Disk(File("/b"), false)];
    OwnDiskIsReady(h, missed);
    OwnDiskIsReady(h, {});
    TakenIff(h, 1, o, missed, disks, {"/b"}, {}, "/b");
    TakenIff(h, 1, o, {}, disks, {"/b"}, {}, "/b");
    hide Takes, Ready;
    assert forall i: nat :: Visits(o, 1, i) ==> i == 0;
    assert Visits(o, 1, 0) && HasDisk(Visited(o, 1, 0), d) && KeyOf(h, d.source, true) == Some("/b");
  }

  lemma OwnDiskIsReady(h: Host, missed: Missed)
    requires h.byPath == map[]
    ensures Ready(h, 1, missed, [Disk(File("/b"), false)], {}, "/b")
  {
    var disks := [Disk(File("/b"), false)];
    assert disks[..0] == [] && Targets(h, 1, disks, missed) == [] + TargetOf(h, 1, disks[0], missed);
    assert ReadyAt(h, 1, missed, disks, {}, 0, "/b");
  }

  // So does a disk that a VM gets after its visit, without any failure at all.
  lemma LateAttachTakesUsedDisk() returns (h: Host, o: Others, disks: seq<Disk>)
    ensures WellFormed(o) && Visits(o, 1, 0) && o.ids[0] == 2
    ensures 2 in o.meanwhile && HasDisk(o.meanwhile[2], Disk(File("/b"), false))
    ensures "/b" in Takes(h, 1, o, {}, disks, {"/b"}, {})
    ensures GoesThrough(1, true, true, Vm("old", false, true, disks, []), o, {})
  {
    disks := [Disk(File("/b"), false)];
    var before, after := Vm("web", false, true, [], []), Vm("web", false, true, disks, []);
    var own := Vm("old", false, true, disks, []);
    h := Host(map[], map[], map[]);
    o := Others(map[2 := before], [2], [map[2 := before]], map[1 := own, 2 := after]);
    OwnDiskIsReady(h, {});
    TakenIff(h, 1, o, {}, disks, {"/b"}, {}, "/b");
    assert forall i: nat :: Visits(o, 1, i) ==> i == 0;
    assert disks[0] in after.saved;
  }

  // A disk that another VM has behind a link stays.
  lemma LinkedDiskStays() returns (h: Host, o: Others, disks: seq<Disk>)
    ensures WellFormed(o) && h.links == map["/l" := "/b"]
    ensures o.listed == map[2 := Vm("web", false, true, [Disk(File("/l"), false)], [])]
    ensures Ready(h, 1, {}, disks, {}, "/b") && "/b" !in Takes(h, 1, o, {}, disks, {"/b"}, {})
  {
    var d := Disk(File("/l"), false);
    var web := Vm("web", false, true, [d], []);
    h := Host(map[], map[], map["/l" := "/b"]);
    o := Others(map[2 := web], [2], [map[2 := web]], map[]);
    disks := [Disk(File("/b"), false)];
    OwnDiskIsReady(h, {});
    QuietlyTakenIff(h, 1, o, disks, {"/b"}, {}, "/b");
    hide Takes, Ready;
    assert "/l"[1] != "/b"[1];
    assert Resolves(h, "/l", "/b") && Resolves(h, "/b", "/b");
    assert LeadsTo(h, d.source, "/l") && SameFile(h, "/l", "/b");
    assert d in o.listed[2].saved && IsFile(h, d.source, "/b");
  }
}
