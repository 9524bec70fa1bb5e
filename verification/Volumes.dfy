// Deleting volumes (`volume.rs`): what the usage scan sees, and so which volumes
// go, when any of its reads may fail.
module Volumes {
  import opened Options
  import opened Disks

  // A volume's own path, and the backing file of an overlay.
  datatype Volume = Volume(path: string, backing: Option<string>)

  type Pool = map<string, Volume>

  // A VM with the disks of its saved configuration and, while it runs, of its live one.
  datatype Vm = Vm(name: string, active: bool, saved: seq<Source>, live: seq<Source>)

  // How the scan fared with one configuration: whether libvirt returned it,
  // whether it parsed, and for which of its disks the lookup failed.
  datatype Outcome = Outcome(read: bool, parses: bool, missed: set<nat>)

  // How it fared with one VM: whether it got the name, both configurations, and an
  // answer to whether the VM runs.
  datatype Visit = Visit(vm: Vm, named: bool, saved: Outcome, answered: bool, live: Outcome)

  // A file and a VM that has it as a disk.
  datatype UseOf = UseOf(key: string, user: string)

  // A configuration in hand: its disks, and the lookups that fail.
  datatype Config = Config(sources: seq<Source>, missed: set<nat>)

  // ----- The scan -----

  function Parsed(sources: seq<Source>, o: Outcome): Config { Config(if o.parses then sources else [], o.missed) }

  function OutcomeOf(v: Visit, live: bool): Outcome { if live then v.live else v.saved }

  // The scan holds this configuration, parsed or not.
  predicate InHand(v: Visit, live: bool) {
    v.named && OutcomeOf(v, live).read && (live ==> v.answered && v.vm.active)
  }

  function ConfigOf(v: Visit, live: bool): Config {
    Parsed(if live then v.vm.live else v.vm.saved, OutcomeOf(v, live))
  }

  function ConfigsOf(v: Visit): seq<Config> {
    (if InHand(v, false) then [ConfigOf(v, false)] else []) + if InHand(v, true) then [ConfigOf(v, true)] else []
  }

  function SourceUses(h: Host, vm: string, s: Source, looked: bool): seq<UseOf> {
    match KeyOf(h, s, looked)
    case Some(key) => [UseOf(key, vm)]
    case None => []
  }

  // The uses of the first `n` disks of a configuration.
  function ConfigUses(h: Host, vm: string, c: Config, n: nat): seq<UseOf>
    requires n <= |c.sources|
  {
    if n == 0 then []
    else ConfigUses(h, vm, c, n - 1) + SourceUses(h, vm, c.sources[n - 1], n - 1 !in c.missed)
  }

  function VisitUses(h: Host, vm: string, configs: seq<Config>): seq<UseOf> {
    if configs == [] then []
    else
      var last := configs[|configs| - 1];
      VisitUses(h, vm, configs[..|configs| - 1]) + ConfigUses(h, vm, last, |last.sources|)
  }

  function AllUses(h: Host, visits: seq<Visit>): seq<UseOf> {
    if visits == [] then []
    else
      var last := visits[|visits| - 1];
      AllUses(h, visits[..|visits| - 1]) + VisitUses(h, last.vm.name, ConfigsOf(last))
  }

  // The disks of one configuration, added to what the scan has.
  method DisksOfConfig(h: Host, vm: string, c: Config, before: seq<UseOf>) returns (out: seq<UseOf>)
    ensures out == before + ConfigUses(h, vm, c, |c.sources|)
  {
    out := before;
    for i := 0 to |c.sources|
      invariant out == before + ConfigUses(h, vm, c, i)
    {
      var path := PathOf(h, c.sources[i], i !in c.missed);
      if path.Some? {
        out := out + [UseOf(Canonical(h, path.value), vm)];
      }
    }
  }

  method DisksOfVm(h: Host, vm: string, configs: seq<Config>, before: seq<UseOf>) returns (out: seq<UseOf>)
    ensures out == before + VisitUses(h, vm, configs)
  {
    hide ConfigUses;
    out := before;
    for c := 0 to |configs|
      invariant out == before + VisitUses(h, vm, configs[..c])
    {
      out := DisksOfConfig(h, vm, configs[c], out);
      assert configs[..c + 1][..c] == configs[..c];
    }
    assert configs[..|configs|] == configs;
  }

  // No failed read stops the scan: it goes on without what it could not read.
  method DisksOfAllDomains(h: Host, visits: seq<Visit>) returns (out: seq<UseOf>)
    ensures out == AllUses(h, visits)
  {
    hide VisitUses;
    out := [];
    for d := 0 to |visits|
      invariant out == AllUses(h, visits[..d])
    {
      assert visits[..d + 1][..d] == visits[..d];
      var v := visits[d];
      var configs: seq<Config> := [];
      if v.named {
        if v.saved.read {
          configs := configs + [Parsed(v.vm.saved, v.saved)];
        }
        if v.answered && v.vm.active && v.live.read {
          configs := configs + [Parsed(v.vm.live, v.live)];
        }
      }
      assert configs == ConfigsOf(v);
      out := DisksOfVm(h, v.vm.name, configs, out);
    }
    assert visits[..|visits|] == visits;
  }

  // ----- What the scan sees -----

  // The disks that the VM really has in one of its two configurations.
  function DisksIn(vm: Vm, live: bool): seq<Source> {
    if !live then vm.saved else if vm.active then vm.live else []
  }

  // The scan got hold of this configuration.
  predicate Reached(v: Visit, live: bool) {
    v.named && OutcomeOf(v, live).read && OutcomeOf(v, live).parses && (live ==> v.answered)
  }

  predicate Looked(v: Visit, live: bool, i: nat) { i !in OutcomeOf(v, live).missed }

  // Disk `i` of this configuration is the file `key`.
  predicate HasDisk(h: Host, v: Visit, live: bool, i: nat, key: string) {
    i < |DisksIn(v.vm, live)| && KeyOf(h, DisksIn(v.vm, live)[i], true) == Some(key)
  }

  // The scan takes it for the file `key`.
  predicate Seen(h: Host, v: Visit, live: bool, i: nat, key: string) {
    && i < |DisksIn(v.vm, live)| && Reached(v, live)
    && KeyOf(h, DisksIn(v.vm, live)[i], Looked(v, live, i)) == Some(key)
  }

  // The scan passes over a disk of the file: its configuration was not read or
  // did not parse, or its lookup failed and the path as written leads elsewhere.
  predicate Overlooked(h: Host, v: Visit, live: bool, i: nat, key: string) {
    && HasDisk(h, v, live, i, key)
    && (!Reached(v, live) || (!Looked(v, live, i) && KeyOf(h, DisksIn(v.vm, live)[i], false) != Some(key)))
  }

  // A failed lookup makes another disk look like the file.
  predicate Mistaken(h: Host, v: Visit, live: bool, i: nat, key: string) {
    && i < |DisksIn(v.vm, live)| && !HasDisk(h, v, live, i, key)
    && Reached(v, live) && !Looked(v, live, i) && KeyOf(h, DisksIn(v.vm, live)[i], false) == Some(key)
  }

  lemma SeenIff(h: Host, v: Visit, live: bool, i: nat, key: string)
    ensures Seen(h, v, live, i, key) <==>
              (HasDisk(h, v, live, i, key) && !Overlooked(h, v, live, i, key)) || Mistaken(h, v, live, i, key)
  {
  }

  // For a disk given by name, a failed lookup is enough to pass it over.
  lemma MissedNameIsOverlooked(h: Host, v: Visit, live: bool, i: nat, key: string)
    requires HasDisk(h, v, live, i, key) && DisksIn(v.vm, live)[i].Named? && !Looked(v, live, i)
    ensures Overlooked(h, v, live, i, key)
  {
  }

  // The VM has this name and a disk that the scan takes for the file.
  ghost predicate SeenAt(h: Host, v: Visit, vm: string, key: string) {
    v.vm.name == vm && (SeenIn(h, v, false, key) || SeenIn(h, v, true, key))
  }

  ghost predicate SeenIn(h: Host, v: Visit, live: bool, key: string) { exists i: nat :: Seen(h, v, live, i, key) }

  ghost predicate SeenBy(h: Host, visits: seq<Visit>, vm: string, key: string) {
    exists d :: 0 <= d < |visits| && SeenAt(h, visits[d], vm, key)
  }

  lemma {:induction false} ConfigUsesIff(h: Host, vm: string, c: Config, n: nat, u: UseOf)
    requires n <= |c.sources|
    ensures u in ConfigUses(h, vm, c, n) <==>
              u.user == vm && exists i: nat :: i < n && KeyOf(h, c.sources[i], i !in c.missed) == Some(u.key)
  {
    if n == 0 {
    } else {
      ConfigUsesIff(h, vm, c, n - 1, u);
    }
  }

  lemma ConfigSeenIff(h: Host, v: Visit, live: bool, u: UseOf)
    ensures var c := ConfigOf(v, live);
            InHand(v, live) && u in ConfigUses(h, v.vm.name, c, |c.sources|) <==>
            u.user == v.vm.name && SeenIn(h, v, live, u.key)
  {
    var c := ConfigOf(v, live);
    ConfigUsesIff(h, v.vm.name, c, |c.sources|, u);
    hide ConfigUses, KeyOf;
    if InHand(v, live) {
      forall i: nat
        ensures Seen(h, v, live, i, u.key) <==>
                i < |c.sources| && KeyOf(h, c.sources[i], i !in c.missed) == Some(u.key)
      {
      }
    }
  }

  // What one VM adds to the scan.
  lemma VisitUsesIff(h: Host, v: Visit, u: UseOf)
    ensures u in VisitUses(h, v.vm.name, ConfigsOf(v)) <==> SeenAt(h, v, u.user, u.key)
  {
    hide SeenIn, ConfigUses;
    ConfigSeenIff(h, v, false, u);
    ConfigSeenIff(h, v, true, u);
    hide VisitUses, ConfigOf, InHand;
    TwoConfigs(h, v.vm.name, InHand(v, false), ConfigOf(v, false), InHand(v, true), ConfigOf(v, true), u);
  }

  // The uses of up to two configurations, each taken or not.
  lemma TwoConfigs(h: Host, vm: string, x: bool, a: Config, y: bool, b: Config, u: UseOf)
    ensures u in VisitUses(h, vm, (if x then [a] else []) + if y then [b] else []) <==>
              (x && u in ConfigUses(h, vm, a, |a.sources|)) || (y && u in ConfigUses(h, vm, b, |b.sources|))
  {
    hide ConfigUses;
    assert VisitUses(h, vm, []) == [];
    OneMoreConfig(h, vm, [], a);
    OneMoreConfig(h, vm, [], b);
    OneMoreConfig(h, vm, [a], b);
    assert [] + [a] == [a] && [] + [b] == [b];
    hide VisitUses;
    if x && y {
    } else if x {
      assert [a] + [] == [a];
    }
  }

  lemma OneMoreConfig(h: Host, vm: string, configs: seq<Config>, c: Config)
    ensures VisitUses(h, vm, configs + [c]) == VisitUses(h, vm, configs) + ConfigUses(h, vm, c, |c.sources|)
  {
    hide ConfigUses;
    assert (configs + [c])[..|configs|] == configs;
  }

  lemma LastVisit(h: Host, visits: seq<Visit>, u: UseOf)
    requires visits != []
    ensures var n := |visits| - 1;
            u in AllUses(h, visits) <==>
            u in AllUses(h, visits[..n]) || u in VisitUses(h, visits[n].vm.name, ConfigsOf(visits[n]))
  {
    hide VisitUses, ConfigsOf;
  }

  // The scan's list is exactly what it saw, saved and live.
  lemma {:induction false} ScanIsExact(h: Host, visits: seq<Visit>, u: UseOf)
    ensures u in AllUses(h, visits) <==> SeenBy(h, visits, u.user, u.key)
  {
    if visits == [] {
    } else {
      hide SeenAt, ConfigsOf, VisitUses, AllUses;
      var n := |visits| - 1;
      var before := visits[..n];
      ScanIsExact(h, before, u);
      VisitUsesIff(h, visits[n], u);
      LastVisit(h, visits, u);
      assert forall d :: 0 <= d < n ==> before[d] == visits[d];
    }
  }

  // ----- The delete -----

  // The calls of a delete whose failure ends it, in their order.
  datatype Call = FindPool | FindVolume | ListVolumes | ListDomains | Describe | Erase

  datatype Refusal = Failed(call: Call) | NotRunning | NoSuchVolume | InUse(vms: set<string>, overlays: set<string>)

  // What a delete finds out: the uses, and the volumes whose own name it could not read.
  datatype Scan = Scan(disks: seq<UseOf>, nameless: set<string>)

  function FileOf(h: Host, v: Volume): string { Canonical(h, v.path) }

  // `o` is an overlay whose backing file is the file of `v`.
  predicate Backs(h: Host, v: Volume, o: Volume) {
    o.backing.Some? && Canonical(h, o.backing.value) == FileOf(h, v)
  }

  function UsersOf(h: Host, v: Volume, disks: seq<UseOf>): set<string> {
    set u | u in disks && u.key == FileOf(h, v) :: u.user
  }

  function OverlaysOf(h: Host, pool: Pool, v: Volume, nameless: set<string>): set<string> {
    set o | o in pool && o !in nameless && Backs(h, v, pool[o])
  }

  predicate Deletable(h: Host, pool: Pool, name: string, scan: Scan) {
    name in pool && UsersOf(h, pool[name], scan.disks) == {} && OverlaysOf(h, pool, pool[name], scan.nameless) == {}
  }

  lemma NoCallFails(faults: set<Call>)
    requires FindPool !in faults && FindVolume !in faults && ListVolumes !in faults
    requires ListDomains !in faults && Describe !in faults && Erase !in faults
    ensures faults == {}
  {
    forall c: Call ensures c !in faults {
      match c
      case FindPool | FindVolume | ListVolumes | ListDomains | Describe | Erase =>
    }
  }

  class StoragePool {
    var active: bool
    var volumes: Pool

    // `faults` says which calls fail.
    method Delete(h: Host, name: string, visits: seq<Visit>, nameless: set<string>, faults: set<Call>)
      returns (r: Result<(), Refusal>)
      modifies this`volumes
      ensures r.Ok? <==>
                active && faults == {} && Deletable(h, old(volumes), name, Scan(AllUses(h, visits), nameless))
      ensures volumes == if r.Ok? then old(volumes) - {name} else old(volumes)
      ensures r.Err? && r.error.Failed? ==> r.error.call in faults
      ensures r == Err(NotRunning) <==> FindPool !in faults && !active
      ensures r == Err(NoSuchVolume) <==>
                FindPool !in faults && active && FindVolume !in faults && name !in old(volumes)
      ensures r.Err? && r.error.InUse? <==>
                active && name in old(volumes) && faults <= {Erase}
                && !Deletable(h, old(volumes), name, Scan(AllUses(h, visits), nameless))
      ensures r.Err? && r.error.InUse? ==>
                name in old(volumes)
                && r.error.vms == UsersOf(h, old(volumes)[name], AllUses(h, visits))
                && r.error.overlays == OverlaysOf(h, old(volumes), old(volumes)[name], nameless)
                && (r.error.vms != {} || r.error.overlays != {})
    {
      if FindPool in faults {
        return Err(Failed(FindPool));
      }
      if !active {
        return Err(NotRunning);
      }
      if FindVolume in faults {
        return Err(Failed(FindVolume));
      }
      if name !in volumes {
        return Err(NoSuchVolume);
      }
      if ListVolumes in faults {
        return Err(Failed(ListVolumes));
      }
      var v := volumes[name];
      var overlays := set o | o in volumes && o !in nameless && Backs(h, v, volumes[o]);
      if ListDomains in faults {
        return Err(Failed(ListDomains));
      }
      var disks := DisksOfAllDomains(h, visits);
      if Describe in faults {
        return Err(Failed(Describe));
      }
      var vms := UsersOf(h, v, disks);
      NoCallFails(faults - {Erase});
      if vms != {} || overlays != {} {
        return Err(InUse(vms, overlays));
      }
      if Erase in faults {
        return Err(Failed(Erase));
      }
      volumes := volumes - {name};
      return Ok(());
    }
  }

  // ----- Which used volumes go -----

  lemma UnseenIffNoUsers(h: Host, v: Volume, visits: seq<Visit>)
    ensures UsersOf(h, v, AllUses(h, visits)) == {} <==>
              forall d, live, i: nat :: 0 <= d < |visits| ==> !Seen(h, visits[d], live, i, FileOf(h, v))
  {
    var key, disks := FileOf(h, v), AllUses(h, visits);
    hide AllUses, Seen;
    if d, live, i: nat :| 0 <= d < |visits| && Seen(h, visits[d], live, i, key) {
      var u := UseOf(key, visits[d].vm.name);
      assert SeenIn(h, visits[d], live, key) && SeenAt(h, visits[d], u.user, key);
      ScanIsExact(h, visits, u);
      assert u.user in UsersOf(h, v, disks);
    }
    if user :| user in UsersOf(h, v, disks) {
      var u :| u in disks && u.key == key && u.user == user;
      ScanIsExact(h, visits, u);
    }
  }

  // Every disk of the file is passed over, and none is mistaken for it.
  ghost predicate AllOverlooked(h: Host, visits: seq<Visit>, key: string) {
    forall d, live, i: nat :: 0 <= d < |visits| ==>
      && (HasDisk(h, visits[d], live, i, key) ==> Overlooked(h, visits[d], live, i, key))
      && !Mistaken(h, visits[d], live, i, key)
  }

  // The exact condition: a volume, used or not, is deletable if and only if it
  // backs no overlay whose name was read, and every VM disk of its file was passed over.
  lemma DeletableIff(h: Host, pool: Pool, name: string, visits: seq<Visit>, nameless: set<string>)
    requires name in pool
    ensures Deletable(h, pool, name, Scan(AllUses(h, visits), nameless)) <==>
              OverlaysOf(h, pool, pool[name], nameless) == {} && AllOverlooked(h, visits, FileOf(h, pool[name]))
  {
    var key := FileOf(h, pool[name]);
    UnseenIffNoUsers(h, pool[name], visits);
    forall d, live, i: nat | 0 <= d < |visits|
      ensures !Seen(h, visits[d], live, i, key) <==>
              (HasDisk(h, visits[d], live, i, key) ==> Overlooked(h, visits[d], live, i, key))
              && !Mistaken(h, visits[d], live, i, key)
    {
      SeenIff(h, visits[d], live, i, key);
    }
  }

  predicate Complete(o: Outcome) { o.read && o.parses && o.missed == {} }

  // A scan in which every read works.
  ghost predicate AllRead(visits: seq<Visit>) {
    forall d :: 0 <= d < |visits| ==>
      visits[d].named && visits[d].answered && Complete(visits[d].saved) && Complete(visits[d].live)
  }

  // The VM has this disk, saved or, while it runs, live.
  predicate HasSource(vm: Vm, s: Source) { s in vm.saved || (vm.active && s in vm.live) }

  lemma HasSourceIff(h: Host, v: Visit, path: string)
    ensures (exists live, i: nat :: HasDisk(h, v, live, i, Canonical(h, path))) <==>
              exists s :: HasSource(v.vm, s) && IsFile(h, s, path)
  {
    if live, i: nat :| HasDisk(h, v, live, i, Canonical(h, path)) {
      var s := DisksIn(v.vm, live)[i];
      KeyIffIsFile(h, s, path);
      assert HasSource(v.vm, s);
    }
    if s :| HasSource(v.vm, s) && IsFile(h, s, path) {
      KeyIffIsFile(h, s, path);
      var live := s !in v.vm.saved;
      assert s in DisksIn(v.vm, live);
      var i: nat :| i < |DisksIn(v.vm, live)| && DisksIn(v.vm, live)[i] == s;
      assert HasDisk(h, v, live, i, Canonical(h, path));
    }
  }

  lemma NoOverlaysIff(h: Host, pool: Pool, v: Volume)
    ensures OverlaysOf(h, pool, v, {}) == {} <==>
              forall o <- pool :: pool[o].backing.Some? ==> !SameFile(h, pool[o].backing.value, v.path)
  {
    var overlays := OverlaysOf(h, pool, v, {});
    forall o | o in pool
      ensures o in overlays <==> pool[o].backing.Some? && SameFile(h, pool[o].backing.value, v.path)
    {
      if pool[o].backing.Some? { SameKeyIffSameFile(h, pool[o].backing.value, v.path); }
    }
  }

  // When every read works, a volume goes exactly when its file is no disk of any VM,
  // saved or live, behind any links, and no backing file of an overlay.
  lemma UnusedIffDeletable(h: Host, pool: Pool, name: string, visits: seq<Visit>)
    requires name in pool && AllRead(visits)
    ensures Deletable(h, pool, name, Scan(AllUses(h, visits), {})) <==>
              (forall o <- pool :: pool[o].backing.Some? ==> !SameFile(h, pool[o].backing.value, pool[name].path))
              && (forall d, s :: 0 <= d < |visits| && HasSource(visits[d].vm, s) ==> !IsFile(h, s, pool[name].path))
  {
    var key := FileOf(h, pool[name]);
    DeletableIff(h, pool, name, visits, {});
    NoOverlaysIff(h, pool, pool[name]);
    hide OverlaysOf, AllUses, Deletable, HasSource, IsFile, SameFile;
    forall d, live, i: nat | 0 <= d < |visits|
      ensures !Overlooked(h, visits[d], live, i, key) && !Mistaken(h, visits[d], live, i, key)
    {
      assert Reached(visits[d], live) && Looked(visits[d], live, i);
    }
    hide HasDisk, Overlooked, Mistaken;
    forall d | 0 <= d < |visits|
      ensures (exists live, i: nat :: HasDisk(h, visits[d], live, i, key)) <==>
              exists s :: HasSource(visits[d].vm, s) && IsFile(h, s, pool[name].path)
    {
      HasSourceIff(h, visits[d], pool[name].path);
    }
  }

  // A disk behind a link keeps its volume.
  lemma LinkedDiskKeepsVolume() returns (h: Host, pool: Pool, v: Visit)
    ensures "disk" in pool && pool["disk"] == Volume("/srv/disk", None) && AllRead([v])
    ensures v.vm == Vm("web", false, [File("/mnt/link")], []) && h.links == map["/mnt/link" := "/srv/disk"]
    ensures !Deletable(h, pool, "disk", Scan(AllUses(h, [v]), {}))
  {
    h := Host(map[], map[], map["/mnt/link" := "/srv/disk"]);
    pool := map["disk" := Volume("/srv/disk", None)];
    var fine := Outcome(true, true, {});
    v := Visit(Vm("web", false, [File("/mnt/link")], []), true, fine, true, fine);
    UnusedIffDeletable(h, pool, "disk", [v]);
    assert "/srv/disk"[1] != "/mnt/link"[1];
    assert Resolves(h, "/mnt/link", "/srv/disk") && Resolves(h, "/srv/disk", "/srv/disk");
    assert LeadsTo(h, File("/mnt/link"), "/mnt/link") && SameFile(h, "/mnt/link", "/srv/disk");
    hide AllUses, Deletable;
    assert HasSource([v][0].vm, File("/mnt/link")) && IsFile(h, File("/mnt/link"), "/srv/disk");
  }

  // One failed read of a saved configuration lets a volume go that a VM uses.
  lemma FailedReadDeletesUsedVolume() returns (h: Host, pool: Pool, v: Visit)
    ensures "disk" in pool && HasDisk(h, v, false, 0, FileOf(h, pool["disk"]))
    ensures v == v.(saved := Outcome(false, true, {})) && v.named && v.answered && Complete(v.live)
    ensures Deletable(h, pool, "disk", Scan(AllUses(h, [v]), {}))
    ensures !Deletable(h, pool, "disk", Scan(AllUses(h, [v.(saved := Outcome(true, true, {}))]), {}))
  {
    h := Host(map[], map[], map[]);
    pool := map["disk" := Volume("/srv/disk", None)];
    var vm := Vm("web", false, [File("/srv/disk")], []);
    v := Visit(vm, true, Outcome(false, true, {}), true, Outcome(true, true, {}));
    var key := FileOf(h, pool["disk"]);
    var sound := v.(saved := Outcome(true, true, {}));
    assert !Reached(v, false) && DisksIn(v.vm, true) == [];
    assert HasDisk(h, [sound][0], false, 0, key) && !Overlooked(h, [sound][0], false, 0, key);
    assert forall live, i: nat :: HasDisk(h, v, live, i, key) ==> Overlooked(h, v, live, i, key);
    assert forall live, i: nat :: !Mistaken(h, v, live, i, key);
    hide HasDisk, Overlooked, Mistaken, AllUses;
    assert AllOverlooked(h, [v], key) && !AllOverlooked(h, [sound], key);
    DeletableIff(h, pool, "disk", [v], {});
    DeletableIff(h, pool, "disk", [sound], {});
  }
}
