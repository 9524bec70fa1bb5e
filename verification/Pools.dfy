// Creating and removing storage pools (`pool.rs`). A script says which libvirt
// calls fail, so what each operation leaves is a function of the script.
module Pools {
  import opened Options
  import opened Collections

  type Uuid = nat

  datatype Pool = Pool(active: bool, persistent: bool, autostart: bool)

  // What there is for one id: the pool in libvirt, and the files below its folder
  // if the folder exists.
  datatype Slot = Slot(pool: Option<Pool>, folder: Option<seq<string>>)

  // The calls that an operation makes, each at one place. `WasActive` and `Restore`
  // are the question before a removal lists the volumes and the stop that undoes a start.
  datatype Call =
    | Find | Define | Build | Autostart | Start | ReadId | WasActive | Refresh | List | DeleteVolume(index: nat)
    | Restore | IsPersistent | IsActive | Stop | DeleteFolder | Undefine

  type Script = set<Call>

  // libvirt keeps a stopped pool only for its definition.
  ghost predicate Sound(p: Option<Pool>) { p.Some? ==> p.value.active || p.value.persistent }

  // Stopping a transient pool removes it.
  function Stopped(p: Pool): Option<Pool> { if p.persistent then Some(p.(active := false)) else None }

  // ----- Creating -----

  // When, if ever, another client starts the pool.
  datatype Others = Never | BeforeBuild | BeforeAutostart | BeforeStart | BeforeCleanup

  // Another client's start needs the folder, as any start does.
  function Ran(s: Slot, now: bool): Slot
    requires s.pool.Some?
  {
    if now && s.folder.Some? then s.(pool := Some(s.pool.value.(active := true))) else s
  }

  // The calls between the definition and the id, up to the first failure. libvirt
  // neither builds nor starts a pool that runs.
  function Prepared(s: Slot, autostart: bool, others: Others, script: Script): (Slot, Option<Call>)
    requires s.pool.Some?
  {
    var first := Ran(s, others.BeforeBuild?);
    if first.pool.value.active || Build in script then (first, Some(Build))
    else
      var built := Ran(if s.folder == None then first.(folder := Some([])) else first, others.BeforeAutostart?);
      if Autostart in script then (built, Some(Autostart))
      else
        var ready := Ran(built.(pool := Some(built.pool.value.(autostart := autostart))), others.BeforeStart?);
        if ready.pool.value.active || Start in script then (ready, Some(Start))
        else (ready.(pool := Some(ready.pool.value.(active := true))), None)
  }

  // libvirt refuses to undefine a pool that runs.
  function CleanedUp(s: Slot, script: Script): Slot
    requires s.pool.Some?
  {
    var p := if s.pool.value.active && IsActive !in script && Stop !in script then Stopped(s.pool.value) else s.pool;
    if p.Some? && (p.value.active || Undefine in script) then s.(pool := p) else s.(pool := None)
  }

  function Created(s: Slot, autostart: bool, others: Others, script: Script): (Slot, Option<Call>) {
    if s.pool.Some? || Define in script then (s, Some(Define))
    else
      var (t, failed) := Prepared(s.(pool := Some(Pool(false, true, false))), autostart, others, script);
      match failed
      case Some(call) => (CleanedUp(Ran(t, others.BeforeCleanup?), script), Some(call))
      case None => (t, if ReadId in script then Some(ReadId) else None)
  }

  // ----- Removing -----

  // The first of the volumes `k` to `n` whose delete fails.
  function FirstBad(n: nat, k: nat, script: Script): (r: Option<nat>)
    requires k <= n
    ensures r.Some? ==> k <= r.value < n
    decreases n - k
  {
    if k == n then None else if DeleteVolume(k) in script then Some(k) else FirstBad(n, k + 1, script)
  }

  function Deleted(folder: Option<seq<string>>, script: Script): (Option<seq<string>>, Option<Call>) {
    if folder == None || Refresh in script then (folder, Some(Refresh))
    else if List in script then (folder, Some(List))
    else
      match FirstBad(|folder.value|, 0, script)
      case None => (Some([]), None)
      case Some(k) => (Some(folder.value[k..]), Some(DeleteVolume(k)))
  }

  // Only a running pool lists its volumes, so a stopped one runs for as long as
  // that takes.
  function Emptied(s: Slot, script: Script): (Slot, Option<Call>)
    requires s.pool.Some?
  {
    var p := s.pool.value;
    if WasActive in script then (s, Some(WasActive))
    else if !p.active && (Start in script || s.folder == None) then (s, Some(Start))
    else
      var up := Some(p.(active := true));
      var (folder, failed) := Deleted(s.folder, script);
      (Slot(if failed.Some? && !p.active && Restore !in script then Stopped(up.value) else up, folder), failed)
  }

  // What follows the volumes. A transient pool is gone once it stops.
  function TakenDown(s: Slot, deleteFiles: bool, removeEmptyFolder: bool, script: Script): (Slot, Option<Call>)
    requires s.pool.Some?
  {
    var p := s.pool.value;
    if IsPersistent in script then (s, Some(IsPersistent))
    else if IsActive in script then (s, Some(IsActive))
    else if p.active && Stop in script then (s, Some(Stop))
    else
      var down := if p.active then s.(pool := Stopped(p)) else s;
      if !p.persistent then (down, None)
      else
        var empty := DeleteFolder !in script && s.folder == Some([]);
        if deleteFiles && !empty then (down, Some(DeleteFolder))
        else
          var bare := if (deleteFiles || removeEmptyFolder) && empty then down.(folder := None) else down;
          if Undefine in script then (bare, Some(Undefine)) else (bare.(pool := None), None)
  }

  function Removed(s: Slot, deleteFiles: bool, removeEmptyFolder: bool, script: Script): (Slot, Option<Call>) {
    if s.pool == None || Find in script then (s, Some(Find))
    else if !deleteFiles then TakenDown(s, deleteFiles, removeEmptyFolder, script)
    else
      var (t, failed) := Emptied(s, script);
      if failed.Some? || t.pool == None then (t, failed) else TakenDown(t, deleteFiles, removeEmptyFolder, script)
  }

  // ----- The implementation -----

  class Libvirt {
    var pools: map<Uuid, Pool>
    var folders: map<Uuid, seq<string>>

    ghost function View(id: Uuid): Slot
      reads this
    {
      Slot(At(pools, id), At(folders, id))
    }

    // What another client may do at any moment.
    method OthersStart(id: Uuid, now: bool)
      requires id in pools
      modifies this`pools
      ensures id in pools && View(id) == Ran(old(View(id)), now)
      ensures pools == if now && id in folders then old(pools)[id := old(pools)[id].(active := true)] else old(pools)
    {
      if now && id in folders {
        pools := pools[id := pools[id].(active := true)];
      }
    }

    method BuildAndStart(id: Uuid, autostart: bool, others: Others, script: Script) returns (failed: Option<Call>)
      requires id in pools
      modifies this
      ensures Only(id, old(pools), pools) && Only(id, old(folders), folders) && id in pools
      ensures (View(id), failed) == Prepared(old(View(id)), autostart, others, script)
    {
      OthersStart(id, others.BeforeBuild?);
      if pools[id].active || Build in script {
        return Some(Build);
      }
      if id !in folders {
        folders := folders[id := []];
      }
      OthersStart(id, others.BeforeAutostart?);
      if Autostart in script {
        return Some(Autostart);
      }
      pools := pools[id := pools[id].(autostart := autostart)];
      OthersStart(id, others.BeforeStart?);
      if pools[id].active || Start in script {
        return Some(Start);
      }
      pools := pools[id := pools[id].(active := true)];
      return None;
    }

    // After a failure. Whatever fails here changes nothing more.
    method CleanUp(id: Uuid, script: Script)
      requires id in pools
      modifies this`pools
      ensures Only(id, old(pools), pools)
      ensures View(id) == CleanedUp(old(View(id)), script)
    {
      var runs := IsActive !in script && pools[id].active;
      if runs && Stop !in script {
        pools := if pools[id].persistent then pools[id := pools[id].(active := false)] else pools - {id};
      }
      if id in pools && !pools[id].active && Undefine !in script {
        pools := pools - {id};
      }
    }

    // libvirt would give the new pool the id `id`.
    method Create(id: Uuid, autostart: bool, others: Others, script: Script) returns (r: Result<Uuid, Call>)
      modifies this
      ensures Only(id, old(pools), pools) && Only(id, old(folders), folders)
      ensures (View(id), if r.Err? then Some(r.error) else None) ==
                Created(old(View(id)), autostart, others, script)
      ensures r.Ok? ==> r.value == id
    {
      if id in pools || Define in script {
        return Err(Define);
      }
      pools := pools[id := Pool(false, true, false)];
      var failed := BuildAndStart(id, autostart, others, script);
      if failed.Some? {
        assert Only(id, old(pools), pools);
        OthersStart(id, others.BeforeCleanup?);
        assert Only(id, old(pools), pools);
        CleanUp(id, script);
        return Err(failed.value);
      }
      if ReadId in script {
        return Err(ReadId);
      }
      return Ok(id);
    }

    // Deletes the volumes in the order of the list, up to the first failure.
    method DeleteVolumes(id: Uuid, script: Script) returns (failed: Option<Call>)
      modifies this`folders
      ensures Only(id, old(folders), folders)
      ensures (At(folders, id), failed) == Deleted(old(At(folders, id)), script)
    {
      if id !in folders || Refresh in script {
        return Some(Refresh);
      }
      if List in script {
        return Some(List);
      }
      var listed := folders[id];
      for i := 0 to |listed|
        invariant Only(id, old(folders), folders) && At(folders, id) == Some(listed[i..])
        invariant FirstBad(|listed|, 0, script) == FirstBad(|listed|, i, script)
      {
        if DeleteVolume(i) in script {
          return Some(DeleteVolume(i));
        }
        assert Without(folders[id], listed[i]) == listed[i + 1..];
        folders := folders[id := Without(folders[id], listed[i])];
      }
      return None;
    }

    method EmptyPool(id: Uuid, script: Script) returns (failed: Option<Call>)
      requires id in pools && Sound(At(pools, id))
      modifies this
      ensures Only(id, old(pools), pools) && Only(id, old(folders), folders) && id in pools
      ensures (View(id), failed) == Emptied(old(View(id)), script)
    {
      if WasActive in script {
        return Some(WasActive);
      }
      var wasActive := pools[id].active;
      if !wasActive {
        if Start in script || id !in folders {
          return Some(Start);
        }
        pools := pools[id := pools[id].(active := true)];
      }
      failed := DeleteVolumes(id, script);
      if failed.Some? && !wasActive && Restore !in script {
        pools := pools[id := pools[id].(active := false)];
      }
    }

    method TakeDown(id: Uuid, deleteFiles: bool, removeEmptyFolder: bool, script: Script) returns (failed: Option<Call>)
      requires id in pools && Sound(At(pools, id))
      modifies this
      ensures Only(id, old(pools), pools) && Only(id, old(folders), folders)
      ensures (View(id), failed) == TakenDown(old(View(id)), deleteFiles, removeEmptyFolder, script)
    {
      if IsPersistent in script {
        return Some(IsPersistent);
      }
      var persistent := pools[id].persistent;
      if IsActive in script {
        return Some(IsActive);
      }
      if pools[id].active {
        if Stop in script {
          return Some(Stop);
        }
        pools := if persistent then pools[id := pools[id].(active := false)] else pools - {id};
      }
      if persistent {
        var empty := DeleteFolder !in script && id in folders && folders[id] == [];
        if deleteFiles {
          if !empty {
            return Some(DeleteFolder);
          }
          folders := folders - {id};
        } else if removeEmptyFolder && empty {
          folders := folders - {id};
        }
        if Undefine in script {
          return Some(Undefine);
        }
        pools := pools - {id};
      }
      return None;
    }

    method Remove(id: Uuid, deleteFiles: bool, removeEmptyFolder: bool, script: Script) returns (r: Result<(), Call>)
      requires Sound(At(pools, id))
      modifies this
      ensures Only(id, old(pools), pools) && Only(id, old(folders), folders)
      ensures (View(id), if r.Err? then Some(r.error) else None) ==
                Removed(old(View(id)), deleteFiles, removeEmptyFolder, script)
    {
      if id !in pools || Find in script {
        return Err(Find);
      }
      var failed: Option<Call>;
      if deleteFiles {
        failed := EmptyPool(id, script);
        if failed.Some? {
          return Err(failed.value);
        }
      }
      failed := TakeDown(id, deleteFiles, removeEmptyFolder, script);
      return if failed.Some? then Err(failed.value) else Ok(());
    }
  }

  // ----- What a script leads to -----

  // The first call of a plan that the script lets fail.
  function FirstOf(plan: seq<Call>, script: Script): Option<Call> {
    if plan == [] then None else if plan[0] in script then Some(plan[0]) else FirstOf(plan[1..], script)
  }

  const CREATE_PLAN: seq<Call> := [Define, Build, Autostart, Start, ReadId]

  // The script with the calls that another client's start makes fail.
  function Disturbed(s: Slot, others: Others, script: Script): Script {
    match others
    case Never => script
    case BeforeBuild => if s.folder.Some? then script + {Build} else script
    case BeforeAutostart => script + {Start}
    case BeforeStart => script + {Start}
    case BeforeCleanup => script
  }

  function CreateFailure(s: Slot, others: Others, script: Script): Option<Call> {
    FirstOf(CREATE_PLAN, Disturbed(s, others, script))
  }

  // Whether the pool runs when the cleanup after this failure begins.
  predicate RunsThen(s: Slot, others: Others, call: Call) {
    match others
    case Never => false
    case BeforeBuild => call != Define && s.folder.Some?
    case BeforeAutostart => call == Autostart || call == Start
    case BeforeStart => call == Start
    case BeforeCleanup => call != Define && (s.folder.Some? || call != Build)
  }

  lemma FirstOfCreate(script: Script)
    ensures FirstOf(CREATE_PLAN, script) ==
              if Define in script then Some(Define)
              else if Build in script then Some(Build)
              else if Autostart in script then Some(Autostart)
              else if Start in script then Some(Start)
              else if ReadId in script then Some(ReadId)
              else None
  {
    var p := CREATE_PLAN;
    assert p[1..] == [Build, Autostart, Start, ReadId];
    assert p[1..][1..] == [Autostart, Start, ReadId];
    assert p[1..][1..][1..] == [Start, ReadId];
    assert p[1..][1..][1..][1..] == [ReadId];
    assert p[1..][1..][1..][1..][1..] == [];
    assert FirstOf([ReadId], script) == if ReadId in script then Some(ReadId) else None;
    assert FirstOf([Start, ReadId], script) == if Start in script then Some(Start) else FirstOf([ReadId], script);
    assert FirstOf([Autostart, Start, ReadId], script)
        == if Autostart in script then Some(Autostart) else FirstOf([Start, ReadId], script);
    assert FirstOf([Build, Autostart, Start, ReadId], script)
        == if Build in script then Some(Build) else FirstOf([Autostart, Start, ReadId], script);
  }

  // A create fails with the first failing call of its plan, and with no other.
  lemma CreateFailsAtFirst(s: Slot, autostart: bool, others: Others, script: Script)
    requires s.pool == None
    ensures Created(s, autostart, others, script).1 == CreateFailure(s, others, script)
  {
    FirstOfCreate(Disturbed(s, others, script));
    hide FirstOf;
  }

  // For every script and every start by another client: a failed create leaves no
  // pool if and only if the first failing call is not the read of the id and the
  // cleanup goes through. The cleanup needs the stop only for a pool that runs by then.
  lemma CreateRestoresIff(s: Slot, autostart: bool, others: Others, script: Script)
    requires s.pool == None && CreateFailure(s, others, script).Some?
    ensures Created(s, autostart, others, script).0.pool == None <==>
              var call := CreateFailure(s, others, script).value;
              && call != ReadId
              && (call != Define ==> Undefine !in script)
              && (RunsThen(s, others, call) ==> IsActive !in script && Stop !in script)
  {
    FirstOfCreate(Disturbed(s, others, script));
    hide FirstOf;
  }

  // A create that succeeds, or fails only in the end, leaves a running pool.
  lemma CreateLeavesRunning(s: Slot, autostart: bool, others: Others, script: Script)
    requires s.pool == None && CreateFailure(s, others, script) in {None, Some(ReadId)}
    ensures Created(s, autostart, others, script).0
            == Slot(Some(Pool(true, true, autostart)), Some(if s.folder.Some? then s.folder.value else []))
  {
    FirstOfCreate(Disturbed(s, others, script));
    hide FirstOf;
  }

  // One script that leaves the pool defined although the create failed.
  lemma FailedCreateLeavesPool()
    ensures Created(Slot(None, None), true, Never, {ReadId})
            == (Slot(Some(Pool(true, true, true)), Some([])), Some(ReadId))
  {
    CreateFailsAtFirst(Slot(None, None), true, Never, {ReadId});
    FirstOfCreate({ReadId});
    CreateLeavesRunning(Slot(None, None), true, Never, {ReadId});
  }

  // ----- Removals -----

  function VolumePlan(n: nat, k: nat): seq<Call>
    requires k <= n
    decreases n - k
  {
    if k == n then [] else [DeleteVolume(k)] + VolumePlan(n, k + 1)
  }

  function EmptyPlan(s: Slot): seq<Call>
    requires s.pool.Some? && s.folder.Some?
  {
    [WasActive] + ((if s.pool.value.active then [] else [Start]) + ([Refresh, List] + VolumePlan(|s.folder.value|, 0)))
  }

  function TakeDownPlan(p: Pool, runs: bool, deleteFiles: bool): seq<Call> {
    [IsPersistent, IsActive] + ((if runs then [Stop] else [])
    + if p.persistent then (if deleteFiles then [DeleteFolder] else []) + [Undefine] else [])
  }

  // The calls that must work for a removal to succeed, in their order.
  function RemovePlan(s: Slot, deleteFiles: bool): seq<Call>
    requires s.pool.Some? && (deleteFiles ==> s.folder.Some?)
  {
    [Find] + ((if deleteFiles then EmptyPlan(s) else [])
    + TakeDownPlan(s.pool.value, deleteFiles || s.pool.value.active, deleteFiles))
  }

  lemma {:induction false} FirstOfBoth(a: seq<Call>, b: seq<Call>, script: Script)
    ensures FirstOf(a + b, script) == if FirstOf(a, script).Some? then FirstOf(a, script) else FirstOf(b, script)
  {
    if a == [] {
      assert a + b == b;
    } else {
      assert (a + b)[1..] == a[1..] + b;
      FirstOfBoth(a[1..], b, script);
    }
  }

  lemma FirstOfOne(c: Call, script: Script)
    ensures FirstOf([c], script) == if c in script then Some(c) else None
  {
    assert [c][1..] == [];
  }

  lemma FirstOfTwo(c: Call, d: Call, script: Script)
    ensures FirstOf([c, d], script) == if c in script then Some(c) else if d in script then Some(d) else None
  {
    assert [c, d][1..] == [d];
    FirstOfOne(d, script);
  }

  lemma {:induction false} FirstOfVolumes(n: nat, k: nat, script: Script)
    requires k <= n
    ensures FirstOf(VolumePlan(n, k), script) ==
              match FirstBad(n, k, script) case Some(i) => Some(DeleteVolume(i)) case None => None
    decreases n - k
  {
    if k == n {
    } else {
      FirstOfBoth([DeleteVolume(k)], VolumePlan(n, k + 1), script);
      FirstOfOne(DeleteVolume(k), script);
      FirstOfVolumes(n, k + 1, script);
    }
  }

  lemma EmptyFailsAtFirst(s: Slot, script: Script)
    requires s.pool.Some? && s.folder.Some?
    ensures Emptied(s, script).1 == FirstOf(EmptyPlan(s), script)
  {
    var volumes := VolumePlan(|s.folder.value|, 0);
    var start := if s.pool.value.active then [] else [Start];
    FirstOfVolumes(|s.folder.value|, 0, script);
    FirstOfTwo(Refresh, List, script);
    FirstOfOne(Start, script);
    FirstOfOne(WasActive, script);
    FirstOfBoth([Refresh, List], volumes, script);
    FirstOfBoth(start, [Refresh, List] + volumes, script);
    FirstOfBoth([WasActive], start + ([Refresh, List] + volumes), script);
    hide FirstOf;
  }

  lemma TakeDownFailsAtFirst(s: Slot, deleteFiles: bool, removeEmptyFolder: bool, script: Script)
    requires s.pool.Some? && (deleteFiles ==> s.folder == Some([]))
    ensures TakenDown(s, deleteFiles, removeEmptyFolder, script).1
            == FirstOf(TakeDownPlan(s.pool.value, s.pool.value.active, deleteFiles), script)
  {
    var p := s.pool.value;
    var stop := if p.active then [Stop] else [];
    var folder := if deleteFiles then [DeleteFolder] else [];
    var end := if p.persistent then folder + [Undefine] else [];
    FirstOfTwo(IsPersistent, IsActive, script);
    FirstOfOne(Stop, script);
    FirstOfOne(DeleteFolder, script);
    FirstOfOne(Undefine, script);
    FirstOfBoth(folder, [Undefine], script);
    FirstOfBoth(stop, end, script);
    FirstOfBoth([IsPersistent, IsActive], stop + end, script);
    assert FirstOf([], script) == None;
    hide FirstOf;
  }

  // For every script: a removal of an existing pool, with its folder there if the
  // files are to go, fails with the first failing call of its plan, and with no other.
  lemma RemoveFailsAtFirst(s: Slot, deleteFiles: bool, removeEmptyFolder: bool, script: Script)
    requires s.pool.Some? && Sound(s.pool) && (deleteFiles ==> s.folder.Some?)
    ensures Removed(s, deleteFiles, removeEmptyFolder, script).1 == FirstOf(RemovePlan(s, deleteFiles), script)
  {
    var p := s.pool.value;
    var first := if deleteFiles then EmptyPlan(s) else [];
    var second := TakeDownPlan(p, deleteFiles || p.active, deleteFiles);
    FirstOfOne(Find, script);
    FirstOfBoth(first, second, script);
    FirstOfBoth([Find], first + second, script);
    assert FirstOf([], script) == None;
    hide FirstOf, EmptyPlan, TakeDownPlan, TakenDown;
    if deleteFiles {
      EmptyFailsAtFirst(s, script);
      var t := Emptied(s, script).0;
      if Emptied(s, script).1 == None { TakeDownFailsAtFirst(t, deleteFiles, removeEmptyFolder, script); }
    } else {
      TakeDownFailsAtFirst(s, deleteFiles, removeEmptyFolder, script);
    }
  }

  // The folder of a transient pool stays, and a folder that is only to go if it is
  // empty may stay for any reason.
  function FolderAfter(s: Slot, deleteFiles: bool, removeEmptyFolder: bool, script: Script): Option<seq<string>>
    requires s.pool.Some?
  {
    if deleteFiles then if s.pool.value.persistent then None else Some([])
    else if removeEmptyFolder && s.pool.value.persistent && s.folder == Some([]) && DeleteFolder !in script then None
    else s.folder
  }

  // A removal succeeds exactly when the pool is gone, and says what became of the folder.
  lemma RemoveSucceedsIff(s: Slot, deleteFiles: bool, removeEmptyFolder: bool, script: Script)
    requires s.pool.Some? && Sound(s.pool)
    ensures var (t, failed) := Removed(s, deleteFiles, removeEmptyFolder, script);
            && (failed == None <==> t.pool == None)
            && (failed == None ==> t.folder == FolderAfter(s, deleteFiles, removeEmptyFolder, script))
            && (!deleteFiles && !removeEmptyFolder ==> t.folder == s.folder)
  {
  }

  // A failed volume delete leaves the volumes from the failing one on, and the
  // pool as it was if and only if the pool ran before or the stop works.
  lemma FailedVolumeKeepsRest(s: Slot, removeEmptyFolder: bool, script: Script, k: nat)
    requires Sound(s.pool) && Removed(s, true, removeEmptyFolder, script).1 == Some(DeleteVolume(k))
    ensures var t := Removed(s, true, removeEmptyFolder, script).0;
            && s.pool.Some? && s.folder.Some? && k < |s.folder.value| && t.folder == Some(s.folder.value[k..])
            && t.pool == Some(s.pool.value.(active := s.pool.value.active || Restore in script))
  {
  }

  // A failed folder delete leaves the pool defined, stopped and empty, and then
  // the same removal without a fault succeeds.
  lemma FailedFolderCanRetry(s: Slot, removeEmptyFolder: bool, script: Script)
    requires Sound(s.pool) && Removed(s, true, removeEmptyFolder, script).1 == Some(DeleteFolder)
    ensures var t := Removed(s, true, removeEmptyFolder, script).0;
            && s.pool.Some? && s.pool.value.persistent
            && t == Slot(Some(s.pool.value.(active := false)), Some([]))
            && Removed(t, true, removeEmptyFolder, {}) == (Slot(None, None), None)
  {
    var t := Removed(s, true, removeEmptyFolder, script).0;
    assert t.folder == Some([]);
    assert Deleted(t.folder, {}) == (Some([]), None);
  }

  // Any other failure before the pool itself is taken down leaves everything as it
  // was, but for a stop that fails too.
  lemma EarlyFailureKeepsAll(s: Slot, removeEmptyFolder: bool, script: Script)
    requires Sound(s.pool)
    requires Removed(s, true, removeEmptyFolder, script).1
             in {Some(Find), Some(WasActive), Some(Start), Some(Refresh), Some(List)}
    ensures var t := Removed(s, true, removeEmptyFolder, script).0;
            t.folder == s.folder && (Restore !in script ==> t.pool == s.pool)
  {
  }

  // What a create leaves of the folder: an existing one with all its files, and a new
  // one only once the build worked.
  lemma CreateKeepsFolder(s: Slot, autostart: bool, others: Others, script: Script)
    requires s.pool == None
    ensures var (t, failed) := Created(s, autostart, others, script);
            t.folder ==
            if s.folder.Some? then s.folder else if failed in {Some(Define), Some(Build)} then None else Some([])
  {
  }

  // A failure after the volumes: the pool runs as it did by then until the stop
  // works, then it is stopped, and it stays defined until the undefine works.
  lemma LateFailureKeepsPool(s: Slot, deleteFiles: bool, removeEmptyFolder: bool, script: Script)
    requires s.pool.Some? && Sound(s.pool) && (deleteFiles ==> s.folder.Some?)
    ensures var (t, failed) := Removed(s, deleteFiles, removeEmptyFolder, script);
            var p := s.pool.value;
            && (failed in {Some(IsPersistent), Some(IsActive), Some(Stop)} ==>
                t == Slot(Some(p.(active := deleteFiles || p.active)), if deleteFiles then Some([]) else s.folder))
            && (failed == Some(Undefine) ==>
                t.pool == Some(p.(active := false))
                && t.folder == FolderAfter(s, deleteFiles, removeEmptyFolder, script))
  {
  }
}
