// Sequences of volume deletes: what they leave, and when they can empty a pool.
module VolumeRuns {
  import opened Options
  import opened Disks
  import opened Volumes

  // One accepted delete, with the links at its time and what its own scan found.
  datatype Deletion = Deletion(h: Host, name: string, scan: Scan)

  // `pool` goes to `left` by these accepted deletes.
  ghost predicate Deletes(pool: Pool, steps: seq<Deletion>, left: Pool)
    decreases |steps|
  {
    if steps == [] then left == pool
    else
      var s := steps[0];
      Deletable(s.h, pool, s.name, s.scan) && Deletes(pool - {s.name}, steps[1..], left)
  }

  // Exactly the deleted names are missing, and no scan had found a user of one.
  lemma {:induction false} OnlyUnusedGo(pool: Pool, steps: seq<Deletion>, left: Pool)
    requires Deletes(pool, steps, left)
    ensures left.Keys == pool.Keys - set s | s in steps :: s.name
    ensures forall n <- left :: left[n] == pool[n]
    ensures forall s <- steps :: s.name in pool && UsersOf(s.h, pool[s.name], s.scan.disks) == {}
    decreases |steps|
  {
    if steps == [] {
    } else {
      OnlyUnusedGo(pool - {steps[0].name}, steps[1..], left);
      assert steps == [steps[0]] + steps[1..];
    }
  }

  // No overlay that is left was on a deleted volume when that volume went, by the
  // links of that time, unless the delete could not read the overlay's name.
  lemma {:induction false} OverlaysKeepTheirBase(pool: Pool, steps: seq<Deletion>, left: Pool)
    requires Deletes(pool, steps, left)
    ensures forall s, o | s in steps && o in left ::
              s.name in pool && o in pool && (Backs(s.h, pool[s.name], pool[o]) ==> o in s.scan.nameless)
    decreases |steps|
  {
    if steps == [] {
    } else {
      var first, rest := steps[0], steps[1..];
      OnlyUnusedGo(pool, steps, left);
      OverlaysKeepTheirBase(pool - {first.name}, rest, left);
      assert steps == [first] + rest;
      var overlays := OverlaysOf(first.h, pool, pool[first.name], first.scan.nameless);
      assert forall o <- left :: o !in overlays;
    }
  }

  // With the same links all along and every name read, an overlay that is left
  // has its backing file left.
  lemma BackingFilesStay(h: Host, pool: Pool, steps: seq<Deletion>, left: Pool)
    requires Deletes(pool, steps, left) && forall s <- steps :: s.h == h && s.scan.nameless == {}
    ensures forall o, v | o in left && v in pool && Backs(h, pool[v], left[o]) :: v in left && left[v] == pool[v]
  {
    OnlyUnusedGo(pool, steps, left);
    OverlaysKeepTheirBase(pool, steps, left);
  }

  // A volume that the scan sees as a disk of a VM is never the one that goes.
  lemma SeenVolumeStays(h: Host, pool: Pool, name: string, visits: seq<Visit>, nameless: set<string>, vm: string)
    requires name in pool && SeenBy(h, visits, vm, FileOf(h, pool[name]))
    ensures !Deletable(h, pool, name, Scan(AllUses(h, visits), nameless))
    ensures vm in UsersOf(h, pool[name], AllUses(h, visits))
  {
    var u := UseOf(FileOf(h, pool[name]), vm);
    ScanIsExact(h, visits, u);
    assert u.user in UsersOf(h, pool[name], AllUses(h, visits));
  }

  // ----- Cycles -----

  // Each volume of `p` is the backing file of the next.
  ghost predicate Stacked(h: Host, pool: Pool, p: seq<string>) {
    && (forall i :: 0 <= i < |p| ==> p[i] in pool)
    && (forall i, j :: 0 <= i < |p| && j == i + 1 < |p| ==> Backs(h, pool[p[i]], pool[p[j]]))
  }

  ghost predicate IsCycle(h: Host, pool: Pool, p: seq<string>) {
    |p| >= 2 && p[0] == p[|p| - 1] && Stacked(h, pool, p)
  }

  ghost predicate Acyclic(h: Host, pool: Pool) { forall p :: !IsCycle(h, pool, p) }

  lemma SubsetIsSmaller(a: set<string>, b: set<string>)
    requires a <= b
    ensures |a| <= |b|
  {
    assert b == a + (b - a);
  }

  lemma {:induction false} DistinctCount(p: seq<string>)
    requires forall i, j :: 0 <= i < j < |p| ==> p[i] != p[j]
    ensures |set x | x in p| == |p|
  {
    if p == [] {
    } else {
      var front, last := p[..|p| - 1], p[|p| - 1];
      DistinctCount(front);
      assert last !in front;
      assert (set x | x in p) == (set x | x in front) + {last};
    }
  }

  // While every volume has an overlay, a stack of any height can be climbed.
  lemma {:induction false} Climb(h: Host, pool: Pool, n: nat) returns (p: seq<string>)
    requires pool.Keys != {} && forall v <- pool :: OverlaysOf(h, pool, pool[v], {}) != {}
    ensures Stacked(h, pool, p) && |p| == n + 1
  {
    if n == 0 {
      var v :| v in pool.Keys;
      p := [v];
    } else {
      var below := Climb(h, pool, n - 1);
      var o :| o in OverlaysOf(h, pool, pool[below[n - 1]], {});
      p := below + [o];
    }
  }

  lemma Repeats(p: seq<string>, names: set<string>) returns (i: nat, j: nat)
    requires |p| > |names| && forall x <- p :: x in names
    ensures i < j < |p| && p[i] == p[j]
  {
    if forall a, b :: 0 <= a < b < |p| ==> p[a] != p[b] {
      DistinctCount(p);
      SubsetIsSmaller((set x | x in p), names);
      assert false;
    }
    i, j :| 0 <= i < j < |p| && p[i] == p[j];
  }

  lemma FindCycle(h: Host, pool: Pool) returns (p: seq<string>)
    requires pool.Keys != {} && forall v <- pool :: OverlaysOf(h, pool, pool[v], {}) != {}
    ensures IsCycle(h, pool, p)
  {
    var stack := Climb(h, pool, |pool.Keys|);
    hide OverlaysOf, Backs;
    var i, j := Repeats(stack, pool.Keys);
    p := stack[i..j + 1];
  }

  // Without a cycle some volume has no overlay.
  lemma SomeTop(h: Host, pool: Pool) returns (top: string)
    requires Acyclic(h, pool) && pool.Keys != {}
    ensures top in pool && OverlaysOf(h, pool, pool[top], {}) == {}
  {
    if forall v <- pool :: OverlaysOf(h, pool, pool[v], {}) != {} {
      var p := FindCycle(h, pool);
      assert false;
    }
    top :| top in pool && OverlaysOf(h, pool, pool[top], {}) == {};
  }

  lemma SubpoolIsAcyclic(h: Host, pool: Pool, part: Pool)
    requires Acyclic(h, pool) && part.Keys <= pool.Keys && forall n <- part :: part[n] == pool[n]
    ensures Acyclic(h, part)
  {
    forall p ensures !IsCycle(h, part, p) { assert IsCycle(h, part, p) ==> IsCycle(h, pool, p); }
  }

  // ----- When a pool can be emptied -----

  // No volume is the disk of a VM that the scan saw.
  ghost predicate Unused(h: Host, pool: Pool, disks: seq<UseOf>) {
    forall n <- pool :: UsersOf(h, pool[n], disks) == {}
  }

  ghost predicate AllScan(steps: seq<Deletion>, h: Host, disks: seq<UseOf>) {
    forall i :: 0 <= i < |steps| ==> steps[i].h == h && steps[i].scan == Scan(disks, {})
  }

  // Some sequence of deletes, each finding `disks`, empties the pool.
  ghost predicate Emptiable(h: Host, pool: Pool, disks: seq<UseOf>) {
    exists steps: seq<Deletion> :: Deletes(pool, steps, map[]) && AllScan(steps, h, disks)
  }

  lemma {:induction false} EmptyFromTheTop(h: Host, pool: Pool, disks: seq<UseOf>) returns (steps: seq<Deletion>)
    requires Acyclic(h, pool) && Unused(h, pool, disks)
    ensures Deletes(pool, steps, map[]) && AllScan(steps, h, disks)
    decreases pool.Keys
  {
    if pool.Keys == {} {
      assert pool == map[];
      return [];
    }
    var top := SomeTop(h, pool);
    var left := pool - {top};
    SubpoolIsAcyclic(h, pool, left);
    var rest := EmptyFromTheTop(h, left, disks);
    steps := [Deletion(h, top, Scan(disks, {}))] + rest;
    assert steps[1..] == rest;
  }

  // Every volume of a cycle has an overlay, so no delete takes one.
  lemma {:induction false} CycleStays(h: Host, pool: Pool, steps: seq<Deletion>, left: Pool, disks: seq<UseOf>,
                                      p: seq<string>)
    requires Deletes(pool, steps, left) && AllScan(steps, h, disks) && IsCycle(h, pool, p)
    ensures IsCycle(h, left, p)
    decreases |steps|
  {
    if steps == [] {
    } else {
      var n := steps[0].name;
      forall i | 0 <= i < |p| ensures p[i] != n {
        var next := if i == |p| - 1 then 1 else i + 1;
        assert Backs(h, pool[p[i]], pool[p[next]]);
        assert p[next] in OverlaysOf(h, pool, pool[p[i]], {});
      }
      CycleStays(h, pool - {n}, steps[1..], left, disks, p);
    }
  }

  // A pool that no VM uses can be emptied by deletes exactly when its backing
  // files form no cycle.
  lemma EmptiableIffAcyclic(h: Host, pool: Pool, disks: seq<UseOf>)
    requires Unused(h, pool, disks)
    ensures Emptiable(h, pool, disks) <==> Acyclic(h, pool)
  {
    if Acyclic(h, pool) {
      var steps := EmptyFromTheTop(h, pool, disks);
    }
    if Emptiable(h, pool, disks) {
      var steps :| Deletes(pool, steps, map[]) && AllScan(steps, h, disks);
      forall p ensures !IsCycle(h, pool, p) {
        if IsCycle(h, pool, p) {
          CycleStays(h, pool, steps, map[], disks, p);
          assert false;
        }
      }
    }
  }

  // From an acyclic pool, whatever was deleted so far, some volume is deletable
  // as long as one is left and no VM uses what is left.
  lemma SomeVolumeIsDeletable(h: Host, pool: Pool, steps: seq<Deletion>, left: Pool, disks: seq<UseOf>)
    requires Acyclic(h, pool) && Deletes(pool, steps, left) && left.Keys != {} && Unused(h, left, disks)
    ensures Acyclic(h, left) && exists name :: Deletable(h, left, name, Scan(disks, {}))
  {
    OnlyUnusedGo(pool, steps, left);
    SubpoolIsAcyclic(h, pool, left);
    var top := SomeTop(h, left);
    assert Deletable(h, left, top, Scan(disks, {}));
  }
}
