// Which file a disk of a VM stands for (`path_of` and `canonical` in `delete.rs`).
module Disks {
  import opened Options

  datatype Source = File(path: string) | Block(path: string) | Named(pool: string, volume: string)

  // The volumes that libvirt finds by a path and by their names, each with its
  // path, and the links of the file system.
  datatype Host = Host(byPath: map<string, string>, byName: map<(string, string), string>, links: map<string, string>)

  function Canonical(h: Host, path: string): string { if path in h.links then h.links[path] else path }

  // The path of a disk. `looked` says whether the lookup in libvirt worked: after
  // a failed one a path stays as written, and a name leads nowhere.
  function PathOf(h: Host, s: Source, looked: bool): Option<string> {
    match s
    case File(path) => Some(if looked && path in h.byPath then h.byPath[path] else path)
    case Block(path) => Some(if looked && path in h.byPath then h.byPath[path] else path)
    case Named(pool, volume) =>
      if looked && (pool, volume) in h.byName then Some(h.byName[(pool, volume)]) else None
  }

  // The file of a disk, as the scans compare it.
  function KeyOf(h: Host, s: Source, looked: bool): Option<string> {
    match PathOf(h, s, looked)
    case Some(path) => Some(Canonical(h, path))
    case None => None
  }

  // ----- Files -----

  // The file that a path stands for, by the links alone.
  ghost predicate Resolves(h: Host, path: string, file: string) {
    (path in h.links && file == h.links[path]) || (path !in h.links && file == path)
  }

  // Two paths stand for one file.
  ghost predicate SameFile(h: Host, a: string, b: string) {
    exists file :: Resolves(h, a, file) && Resolves(h, b, file)
  }

  // Where a disk leads in libvirt: to the volume found for it, or as written.
  ghost predicate LeadsTo(h: Host, s: Source, path: string) {
    match s
    case File(p) => (p in h.byPath && path == h.byPath[p]) || (p !in h.byPath && path == p)
    case Block(p) => (p in h.byPath && path == h.byPath[p]) || (p !in h.byPath && path == p)
    case Named(pool, volume) => (pool, volume) in h.byName && path == h.byName[(pool, volume)]
  }

  // The disk is the file at this path.
  ghost predicate IsFile(h: Host, s: Source, path: string) {
    exists own :: LeadsTo(h, s, own) && SameFile(h, own, path)
  }

  // Equal keys are exactly one file.
  lemma SameKeyIffSameFile(h: Host, a: string, b: string)
    ensures Canonical(h, a) == Canonical(h, b) <==> SameFile(h, a, b)
  {
    assert Resolves(h, a, Canonical(h, a)) && Resolves(h, b, Canonical(h, b));
  }

  lemma KeyIffIsFile(h: Host, s: Source, path: string)
    ensures KeyOf(h, s, true) == Some(Canonical(h, path)) <==> IsFile(h, s, path)
  {
    match PathOf(h, s, true) {
      case Some(own) =>
        assert LeadsTo(h, s, own);
        SameKeyIffSameFile(h, own, path);
      case None =>
    }
  }
}
