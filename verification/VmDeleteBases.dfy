// A VM delete does not look at overlays: when it takes a backing file from under
// one (`delete.rs` beside `overlays_of` in `volume.rs`).
module VmDeleteBases {
  import opened Options
  import opened Disks
  import V = Volumes
  import D = VmDelete

  // The pool once the volumes at these paths are gone.
  function Left(pool: V.Pool, gone: set<string>): V.Pool { map n | n in pool && pool[n].path !in gone :: pool[n] }

  // Every overlay that is left has its backing file left.
  ghost predicate BasesKept(h: Host, pool: V.Pool, left: V.Pool) {
    forall o, v | o in left && v in pool && V.Backs(h, pool[v], left[o]) :: v in left
  }

  // The delete takes this volume: an unshared disk of the VM that no visit found
  // elsewhere, and for which no call fails.
  ghost predicate Taken(h: Host, id: D.Uuid, o: D.Others, missed: D.Missed, disks: seq<D.Disk>, volumes: set<string>,
                        faults: set<D.Call>, v: V.Volume)
  {
    && v.path in volumes && D.Ready(h, id, missed, disks, faults, v.path)
    && D.Unfound(h, id, o, missed, Canonical(h, v.path))
  }

  // For every set of failing calls: the backing files stay if and only if the
  // delete takes every overlay along with each base that it takes.
  lemma BasesKeptIff(h: Host, id: D.Uuid, o: D.Others, missed: D.Missed, disks: seq<D.Disk>, volumes: set<string>,
                     faults: set<D.Call>, pool: V.Pool)
    ensures BasesKept(h, pool, Left(pool, D.Takes(h, id, o, missed, disks, volumes, faults))) <==>
              forall v, x | v in pool && x in pool && V.Backs(h, pool[v], pool[x]) ::
                Taken(h, id, o, missed, disks, volumes, faults, pool[v]) ==>
                  Taken(h, id, o, missed, disks, volumes, faults, pool[x])
  {
    hide D.Ready, D.Unfound, V.Backs;
    var left := Left(pool, D.Takes(h, id, o, missed, disks, volumes, faults));
    forall n | n in pool ensures n in left <==> !Taken(h, id, o, missed, disks, volumes, faults, pool[n]) {}
  }

  // ----- Bases that are lost -----

  const POOL: V.Pool := map["base" := V.Volume("/b", None), "overlay" := V.Volume("/o", Some("/b"))]
  const PLAIN: Host := Host(map[], map[], map[])
  const NOBODY: D.Others := D.Others(map[], [], [], map[])

  lemma NobodyFinds(key: string)
    ensures D.WellFormed(NOBODY) && D.Unfound(PLAIN, 1, NOBODY, {}, key)
  {
  }

  // A VM whose one disk is the base of an overlay takes it from under that overlay.
  lemma BaseIsLost()
    ensures V.Backs(PLAIN, POOL["base"], POOL["overlay"])
    ensures var disks := [D.Disk(File("/b"), false)];
            !BasesKept(PLAIN, POOL, Left(POOL, D.Takes(PLAIN, 1, NOBODY, {}, disks, {"/b", "/o"}, {})))
  {
    hide D.Ready, D.Unfound, D.Targets, D.Takes;
    var disks := [D.Disk(File("/b"), false)];
    NobodyFinds("/b");
    D.OwnDiskIsReady(PLAIN, {});
    OverlayIsNotReady();
    assert Taken(PLAIN, 1, NOBODY, {}, disks, {"/b", "/o"}, {}, POOL["base"]);
    assert !Taken(PLAIN, 1, NOBODY, {}, disks, {"/b", "/o"}, {}, POOL["overlay"]);
    BasesKeptIff(PLAIN, 1, NOBODY, {}, disks, {"/b", "/o"}, {}, POOL);
  }

  lemma OverlayIsNotReady()
    ensures !D.Ready(PLAIN, 1, {}, [D.Disk(File("/b"), false)], {}, "/o")
  {
    var disks := [D.Disk(File("/b"), false)];
    assert disks[..0] == [] && D.Targets(PLAIN, 1, [], {}) == [];
    assert D.Targets(PLAIN, 1, disks, {}) == [D.Target("/b", "/b", false)];
    hide D.Targets;
    assert "/o"[1] != "/b"[1];
  }

  // The targets of a VM with both disks.
  lemma BothTargets()
    ensures D.Targets(PLAIN, 1, [D.Disk(File("/b"), false), D.Disk(File("/o"), false)], {})
            == [D.Target("/b", "/b", false), D.Target("/o", "/o", false)]
  {
    var b, o := D.Disk(File("/b"), false), D.Disk(File("/o"), false);
    var both := [b, o];
    assert both[..1] == [b] && [b][..0] == [];
    assert D.Targets(PLAIN, 1, [b], {}) == [] + D.TargetOf(PLAIN, 1, b, {});
  }

  // A VM that has both disks takes both, and keeps no overlay without its base; but
  // if only the overlay's delete fails, the overlay is left without it.
  lemma FailedDeleteLosesBase()
    ensures var disks := [D.Disk(File("/b"), false), D.Disk(File("/o"), false)];
            && BasesKept(PLAIN, POOL, Left(POOL, D.Takes(PLAIN, 1, NOBODY, {}, disks, {"/b", "/o"}, {})))
            && !BasesKept(PLAIN, POOL,
                          Left(POOL, D.Takes(PLAIN, 1, NOBODY, {}, disks, {"/b", "/o"}, {D.DeleteVolume(1)})))
  {
    var disks := [D.Disk(File("/b"), false), D.Disk(File("/o"), false)];
    hide D.Ready, D.Unfound, D.Targets, D.Takes;
    NobodyFinds("/b");
    NobodyFinds("/o");
    BothReady({}, "/b");
    BothReady({}, "/o");
    BothReady({D.DeleteVolume(1)}, "/b");
    BothReady({D.DeleteVolume(1)}, "/o");
    assert "/o"[1] != "/b"[1];
    BasesKeptIff(PLAIN, 1, NOBODY, {}, disks, {"/b", "/o"}, {}, POOL);
    BasesKeptIff(PLAIN, 1, NOBODY, {}, disks, {"/b", "/o"}, {D.DeleteVolume(1)}, POOL);
    assert Taken(PLAIN, 1, NOBODY, {}, disks, {"/b", "/o"}, {}, POOL["overlay"]);
    assert Taken(PLAIN, 1, NOBODY, {}, disks, {"/b", "/o"}, {D.DeleteVolume(1)}, POOL["base"]);
    assert !Taken(PLAIN, 1, NOBODY, {}, disks, {"/b", "/o"}, {D.DeleteVolume(1)}, POOL["overlay"]);
  }

  lemma BothReady(faults: set<D.Call>, p: string)
    ensures D.Ready(PLAIN, 1, {}, [D.Disk(File("/b"), false), D.Disk(File("/o"), false)], faults, p) <==>
              (p == "/b" && !D.Fails(faults, 0)) || (p == "/o" && !D.Fails(faults, 1))
  {
    var disks := [D.Disk(File("/b"), false), D.Disk(File("/o"), false)];
    BothTargets();
    hide D.Targets;
    assert forall i: nat :: D.ReadyAt(PLAIN, 1, {}, disks, faults, i, p) ==> i == 0 || i == 1;
    assert D.ReadyAt(PLAIN, 1, {}, disks, faults, 0, p) <==> p == "/b" && !D.Fails(faults, 0);
    assert D.ReadyAt(PLAIN, 1, {}, disks, faults, 1, p) <==> p == "/o" && !D.Fails(faults, 1);
  }
}
