// Pool documents, and new pools against the existing ones (`xml/pool.rs`).
module PoolFolders {
  import opened Options
  import opened Paths
  import opened Xml

  datatype Source = Dir | Nfs(host: string, exported: string)

  datatype NewPool = NewPool(name: string, path: string, source: Source)

  // A pool as libvirt returns it: its name and its document.
  datatype Existing = Existing(name: string, doc: Element)

  datatype Refusal = PathInUse(name: string) | ExportInUse(name: string)

  // ----- Documents -----

  function SourceTree(host: string, exported: string): Element {
    Element(SourceTag, map[],
            [Elem(Leaf(HostTag, map[NameOf := host])), Elem(Leaf(DirTag, map[PathAt := exported])),
             Elem(Leaf(FormatTag, map[TypeOf := "nfs"]))])
  }

  function Tree(p: NewPool): Element {
    var name := Elem(TextElement(NameTag, p.name));
    var target := Elem(Element(TargetTag, map[], [Elem(TextElement(PathTag, p.path))]));
    match p.source
    case Dir => Element(PoolTag, map[TypeOf := "dir"], [name, target])
    case Nfs(host, exported) =>
      Element(PoolTag, map[TypeOf := "netfs"], [name, Elem(SourceTree(host, exported)), target])
  }

  method ToXml(p: NewPool) returns (pool: Element)
    ensures pool == Tree(p)
  {
    var kind := if p.source.Dir? then "dir" else "netfs";
    pool := Leaf(PoolTag, map[TypeOf := kind]);
    pool := Pushed(pool, TextElement(NameTag, p.name));
    if p.source.Nfs? {
      var source := Leaf(SourceTag, map[]);
      source := Pushed(source, Leaf(HostTag, map[NameOf := p.source.host]));
      source := Pushed(source, Leaf(DirTag, map[PathAt := p.source.exported]));
      source := Pushed(source, Leaf(FormatTag, map[TypeOf := "nfs"]));
      assert source.children == SourceTree(p.source.host, p.source.exported).children;
      pool := Pushed(pool, source);
    }
    var target := Leaf(TargetTag, map[]);
    target := Pushed(target, TextElement(PathTag, p.path));
    assert target.children == [Elem(TextElement(PathTag, p.path))];
    pool := Pushed(pool, target);
    assert pool.children == Tree(p).children;
  }

  function TargetOf(doc: Element): Option<string> {
    match Child(doc.children, TargetTag)
    case None => None
    case Some(target) => ChildText(target, PathTag)
  }

  // Where an NFS pool mounts from. Any other pool has nothing here.
  function NfsOf(doc: Element): Option<(string, string)> {
    if TypeOf !in doc.attributes || doc.attributes[TypeOf] != "netfs" then None
    else
      match Child(doc.children, SourceTag)
      case None => None
      case Some(source) =>
        var format := ChildAttribute(source, FormatTag, TypeOf);
        if format.Some? && format.value != "nfs" && format.value != "auto" then None
        else
          match ChildAttribute(source, HostTag, NameOf)
          case None => None
          case Some(host) =>
            match ChildAttribute(source, DirTag, PathAt)
            case None => None
            case Some(exported) => Some((host, exported))
  }

  lemma SourceReadsBack(host: string, exported: string)
    ensures var source := SourceTree(host, exported);
            ChildAttribute(source, FormatTag, TypeOf) == Some("nfs")
            && ChildAttribute(source, HostTag, NameOf) == Some(host)
            && ChildAttribute(source, DirTag, PathAt) == Some(exported)
  {
    hide Child;
    ChildInOrder(SourceTree(host, exported).children, FormatTag);
    ChildInOrder(SourceTree(host, exported).children, HostTag);
    ChildInOrder(SourceTree(host, exported).children, DirTag);
  }

  lemma TargetReadsBack(path: string)
    ensures ChildText(Element(TargetTag, map[], [Elem(TextElement(PathTag, path))]), PathTag) == Some(path)
  {
    ChildInOrder([Elem(TextElement(PathTag, path))], PathTag);
  }

  // The document of a new pool says again what it was built from.
  lemma DocumentReadsBack(p: NewPool)
    ensures TargetOf(Tree(p)) == Some(p.path)
    ensures NfsOf(Tree(p)) == if p.source.Nfs? then Some((p.source.host, p.source.exported)) else None
  {
    hide Child, ChildText, ChildAttribute;
    ChildInOrder(Tree(p).children, TargetTag);
    ChildInOrder(Tree(p).children, SourceTag);
    TargetReadsBack(p.path);
    if p.source.Nfs? {
      SourceReadsBack(p.source.host, p.source.exported);
    } else {
      assert "dir"[0] != "netfs"[0];
    }
  }

  // The document states this folder: the first path of its first target.
  ghost predicate StatesFolder(doc: Element, path: string) {
    exists target :: FirstIs(doc.children, TargetTag, target) && HasText(target, PathTag, path)
  }

  // It states this export: it is an NFS pool, by its type and by the format of its
  // first source, if that states one, and that source has both names.
  ghost predicate StatesExport(doc: Element, host: string, exported: string) {
    && TypeOf in doc.attributes && doc.attributes[TypeOf] == "netfs"
    && exists source :: FirstIs(doc.children, SourceTag, source) && SourceStates(source, host, exported)
  }

  ghost predicate SourceStates(source: Element, host: string, exported: string) {
    && (forall format :: HasAttribute(source, FormatTag, TypeOf, format) ==> format == "nfs" || format == "auto")
    && HasAttribute(source, HostTag, NameOf, host) && HasAttribute(source, DirTag, PathAt, exported)
  }

  lemma FolderIff(doc: Element, path: string)
    ensures TargetOf(doc) == Some(path) <==> StatesFolder(doc, path)
  {
    hide FirstIs, Child, ChildText, HasText;
    AllChildren(doc.children, TargetTag);
    if Child(doc.children, TargetTag).Some? {
      var target := Child(doc.children, TargetTag).value;
      assert FirstIs(doc.children, TargetTag, target);
      TextIff(target, PathTag, path);
    }
  }

  lemma SourceIff(source: Element, host: string, exported: string)
    ensures SourceStates(source, host, exported) <==>
              (ChildAttribute(source, FormatTag, TypeOf) in {None, Some("nfs"), Some("auto")}
               && ChildAttribute(source, HostTag, NameOf) == Some(host)
               && ChildAttribute(source, DirTag, PathAt) == Some(exported))
  {
    hide ChildAttribute, HasAttribute;
    AttributeIff(source, HostTag, NameOf, host);
    AttributeIff(source, DirTag, PathAt, exported);
    forall format: string
      ensures ChildAttribute(source, FormatTag, TypeOf) == Some(format) <==>
              HasAttribute(source, FormatTag, TypeOf, format)
    {
      AttributeIff(source, FormatTag, TypeOf, format);
    }
  }

  lemma ExportIff(doc: Element, host: string, exported: string)
    ensures NfsOf(doc) == Some((host, exported)) <==> StatesExport(doc, host, exported)
  {
    hide FirstIs, Child, ChildAttribute, SourceStates;
    AllChildren(doc.children, SourceTag);
    if Child(doc.children, SourceTag).Some? {
      var source := Child(doc.children, SourceTag).value;
      assert FirstIs(doc.children, SourceTag, source);
      SourceIff(source, host, exported);
    }
  }

  // ----- The check -----

  function Lower(c: char): char { if 'A' <= c <= 'Z' then (c as int + 32) as char else c }

  predicate SameHost(a: string, b: string) {
    |a| == |b| && forall i :: 0 <= i < |a| ==> Lower(a[i]) == Lower(b[i])
  }

  // A capital and its small letter.
  ghost predicate CasePair(a: char, b: char) {
    'A' <= a <= 'Z' && 'a' <= b <= 'z' && b as int - a as int == 'a' as int - 'A' as int
  }

  lemma SameHostIff(a: string, b: string)
    ensures SameHost(a, b) <==>
              |a| == |b| && forall i :: 0 <= i < |a| ==> a[i] == b[i] || CasePair(a[i], b[i]) || CasePair(b[i], a[i])
  {
  }

  function PlainOf(s: string): Option<string> { if ParsePath(s).Ok? then Some(ParsePath(s).value) else None }

  predicate TakesFolder(p: NewPool, doc: Element) {
    TargetOf(doc).Some? && PlainOf(TargetOf(doc).value) == Some(p.path)
  }

  predicate TakesExport(p: NewPool, doc: Element) {
    p.source.Nfs? && NfsOf(doc).Some? && SameHost(p.source.host, NfsOf(doc).value.0)
    && PlainOf(NfsOf(doc).value.1) == Some(p.source.exported)
  }

  function Clash(p: NewPool, o: Existing): Option<Refusal> {
    if TakesFolder(p, o.doc) then Some(PathInUse(o.name))
    else if TakesExport(p, o.doc) then Some(ExportInUse(o.name))
    else None
  }

  ghost predicate Free(p: NewPool, existing: seq<Existing>) {
    forall i :: 0 <= i < |existing| ==> Clash(p, existing[i]) == None
  }

  // The first pool in the way, if any.
  ghost predicate FirstClash(p: NewPool, existing: seq<Existing>, i: nat) {
    i < |existing| && Clash(p, existing[i]).Some? && forall j :: 0 <= j < i ==> Clash(p, existing[j]) == None
  }

  method CheckAgainst(p: NewPool, existing: seq<Existing>) returns (r: Result<(), Refusal>)
    ensures r.Ok? <==> Free(p, existing)
    ensures r.Err? ==> exists i: nat :: FirstClash(p, existing, i) && Clash(p, existing[i]) == Some(r.error)
  {
    hide TakesFolder, TakesExport;
    for i := 0 to |existing|
      invariant forall j :: 0 <= j < i ==> Clash(p, existing[j]) == None
    {
      var other := existing[i];
      if TakesFolder(p, other.doc) {
        assert FirstClash(p, existing, i) && Clash(p, existing[i]) == Some(PathInUse(other.name));
        return Err(PathInUse(other.name));
      }
      if TakesExport(p, other.doc) {
        assert FirstClash(p, existing, i) && Clash(p, existing[i]) == Some(ExportInUse(other.name));
        return Err(ExportInUse(other.name));
      }
    }
    return Ok(());
  }

  // ----- What the texts mean -----

  // The constructors keep only plain forms.
  predicate Made(p: NewPool) {
    ParsePath(p.path) == Ok(p.path) && (p.source.Nfs? ==> ParsePath(p.source.exported) == Ok(p.source.exported))
  }

  // Two readable spellings of one place.
  predicate SamePlace(a: string, b: string) { ParsePath(a).Ok? && ParsePath(b).Ok? && Parts(a) == Parts(b) }

  // Both documents have a folder, and it is the same.
  predicate SameFolder(a: Element, b: Element) {
    TargetOf(a).Some? && TargetOf(b).Some? && SamePlace(TargetOf(a).value, TargetOf(b).value)
  }

  // Both are NFS pools on the same export of the same server.
  predicate SameExport(a: Element, b: Element) {
    NfsOf(a).Some? && NfsOf(b).Some? && SameHost(NfsOf(a).value.0, NfsOf(b).value.0)
    && SamePlace(NfsOf(a).value.1, NfsOf(b).value.1)
  }

  lemma PlainIffSamePlace(path: string, other: string)
    requires ParsePath(path) == Ok(path)
    ensures PlainOf(other) == Some(path) <==> SamePlace(path, other)
  {
    if ParsePath(other).Ok? { SameIffSameParts(path, other); }
  }

  // The check refuses a pool for its folder exactly when its document and the other
  // one name the same folder, and for its export exactly when they name the same
  // export but not the same folder, in any spelling.
  lemma ClashIffSame(p: NewPool, o: Existing)
    requires Made(p)
    ensures Clash(p, o) == Some(PathInUse(o.name)) <==> SameFolder(Tree(p), o.doc)
    ensures Clash(p, o) == Some(ExportInUse(o.name)) <==> !SameFolder(Tree(p), o.doc) && SameExport(Tree(p), o.doc)
    ensures Clash(p, o) == None <==> !SameFolder(Tree(p), o.doc) && !SameExport(Tree(p), o.doc)
  {
    DocumentReadsBack(p);
    hide Tree, TargetOf, NfsOf, ParsePath, Parts, SamePlace, PlainOf;
    if TargetOf(o.doc).Some? { PlainIffSamePlace(p.path, TargetOf(o.doc).value); }
    if p.source.Nfs? && NfsOf(o.doc).Some? { PlainIffSamePlace(p.source.exported, NfsOf(o.doc).value.1); }
  }

  // ----- Creating pools one at a time -----

  datatype Request = Request(name: string, path: string, nfs: Option<(string, string)>)

  predicate IsHostChar(c: char) {
    '0' <= c <= '9' || 'a' <= c <= 'z' || 'A' <= c <= 'Z' || c == '.' || c == '-' || c == ':'
  }

  // Accepted as a server name or address. Every character is then one byte.
  predicate IsHost(s: string) {
    0 < |s| <= 253 && (forall c <- s :: IsHostChar(c)) && s[0] != '-' && s[0] != '.'
  }

  function Requested(r: Request): Option<NewPool> {
    match TargetPath(r.path)
    case Err(_) => None
    case Ok(path) =>
      match r.nfs
      case None => Some(NewPool(r.name, path, Dir))
      case Some(nfs) =>
        if IsHost(nfs.0) && PlainOf(nfs.1).Some? then Some(NewPool(r.name, path, Nfs(nfs.0, PlainOf(nfs.1).value)))
        else None
  }

  ghost function Handle(pools: seq<Existing>, r: Request): seq<Existing> {
    match Requested(r)
    case None => pools
    case Some(p) => if Free(p, pools) then pools + [Existing(p.name, Tree(p))] else pools
  }

  ghost function HandleAll(pools: seq<Existing>, requests: seq<Request>): seq<Existing>
    decreases |requests|
  {
    if requests == [] then pools else HandleAll(Handle(pools, requests[0]), requests[1..])
  }

  ghost predicate Apart(pools: seq<Existing>) {
    forall i, j :: 0 <= i < j < |pools| ==>
      !SameFolder(pools[j].doc, pools[i].doc) && !SameExport(pools[j].doc, pools[i].doc)
  }

  lemma RequestedIsMade(r: Request)
    ensures Requested(r).Some? ==> Made(Requested(r).value)
  {
    if Requested(r).Some? {
      ParseIsIdempotent(r.path, ParsePath(r.path).value);
      if r.nfs.Some? { ParseIsIdempotent(r.nfs.value.1, ParsePath(r.nfs.value.1).value); }
    }
  }

  lemma HandleKeepsApart(pools: seq<Existing>, r: Request)
    requires Apart(pools)
    ensures Apart(Handle(pools, r))
  {
    RequestedIsMade(r);
    hide Requested, Clash, SameFolder, SameExport, Tree, Made;
    if Requested(r).Some? {
      var p := Requested(r).value;
      forall i | 0 <= i < |pools|
        ensures Clash(p, pools[i]) == None <==>
                !SameFolder(Tree(p), pools[i].doc) && !SameExport(Tree(p), pools[i].doc)
      {
        ClashIffSame(p, pools[i]);
      }
    }
  }

  // No two pools get the same folder or the same export, over any creates.
  lemma {:induction false} PoolsStayApart(pools: seq<Existing>, requests: seq<Request>)
    requires Apart(pools)
    ensures Apart(HandleAll(pools, requests))
    decreases |requests|
  {
    hide Apart, Handle;
    if requests == [] {
    } else {
      HandleKeepsApart(pools, requests[0]);
      PoolsStayApart(Handle(pools, requests[0]), requests[1..]);
    }
  }

  // What an accepted request adds: one document at the end, with the plain folder and
  // the plain export that were asked for.
  lemma CreatedAsAsked(pools: seq<Existing>, r: Request)
    requires |Handle(pools, r)| != |pools|
    ensures |Handle(pools, r)| == |pools| + 1 && Handle(pools, r)[..|pools|] == pools
    ensures var last := Handle(pools, r)[|pools|];
            && last.name == r.name && TargetPath(r.path).Ok? && TargetOf(last.doc) == Some(TargetPath(r.path).value)
            && (r.nfs == None ==> NfsOf(last.doc) == None)
            && (r.nfs.Some? ==> ParsePath(r.nfs.value.1).Ok?)
            && (r.nfs.Some? ==> NfsOf(last.doc) == Some((r.nfs.value.0, ParsePath(r.nfs.value.1).value)))
  {
    DocumentReadsBack(Requested(r).value);
    hide Tree, TargetOf, NfsOf, Free, ParsePath, TargetPath;
  }

  // A server name that is accepted cannot be taken for an option, a path or a list.
  lemma HostIsSafe(s: string)
    requires IsHost(s)
    ensures s != [] && s[0] != '-' && s[0] != '.' && |s| <= 253
    ensures forall c <- s :: c != '/' && c != ' ' && c != ',' && c != '=' && c as int > 0x20 && (c as int) < 0x7F
  {
  }
}
