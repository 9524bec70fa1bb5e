// Plain paths and pool folders: `parse_path` (`validate.rs`), `target_path` and
// `check_against` (`xml/pool.rs`).
module Paths {
  import opened Options

  // The parts between slashes.
  function Split(s: string): (parts: seq<string>)
    ensures parts != []
  {
    if s == [] then [[]]
    else
      var rest := Split(s[1..]);
      if s[0] == '/' then [[]] + rest else [[s[0]] + rest[0]] + rest[1..]
  }

  function NonEmpty(parts: seq<string>): seq<string> {
    if parts == [] then [] else (if parts[0] == [] then [] else [parts[0]]) + NonEmpty(parts[1..])
  }

  function Join(parts: seq<string>): string {
    if parts == [] then []
    else if |parts| == 1 then parts[0]
    else parts[0] + ("/" + Join(parts[1..]))
  }

  // The folder names in a path.
  function Parts(s: string): seq<string> { NonEmpty(Split(s)) }

  function Plain(parts: seq<string>): string { "/" + Join(parts) }

  function Utf8Length(c: char): nat {
    if c < '\U{80}' then 1 else if c < '\U{800}' then 2 else if c < '\U{10000}' then 3 else 4
  }

  function Bytes(s: string): nat {
    if s == [] then 0 else Utf8Length(s[0]) + Bytes(s[1..])
  }

  predicate IsControl(c: char) { c < '\U{20}' || '\U{7F}' <= c < '\U{A0}' || c == '\U{FFFE}' || c == '\U{FFFF}' }

  datatype PathError = Nul | Empty | NotAbsolute | TooLong(len: nat) | DotSegment | Control | SystemPath(path: string)

  function ParsePath(value: string): Result<string, PathError> {
    if '\0' in value then Err(Nul)
    else if value == [] then Err(Empty)
    else if value[0] != '/' then Err(NotAbsolute)
    else if Bytes(value) > 4096 then Err(TooLong(Bytes(value)))
    else if "." in Parts(value) || ".." in Parts(value) then Err(DotSegment)
    else if exists c <- value :: IsControl(c) then Err(Control)
    else Ok(Plain(Parts(value)))
  }

  // ----- Splitting and joining -----

  predicate IsName(p: string) { p != [] && '/' !in p }

  predicate AreNames(parts: seq<string>) { forall i :: 0 <= i < |parts| ==> IsName(parts[i]) }

  lemma {:induction false} SplitOfBoth(a: string, b: string)
    ensures Split(a + ("/" + b)) == Split(a) + Split(b)
  {
    if a == [] {
      assert (a + ("/" + b))[1..] == b;
    } else {
      assert (a + ("/" + b))[1..] == a[1..] + ("/" + b);
      SplitOfBoth(a[1..], b);
    }
  }

  lemma {:induction false} NonEmptyOfBoth(a: seq<string>, b: seq<string>)
    ensures NonEmpty(a + b) == NonEmpty(a) + NonEmpty(b)
  {
    if a == [] {
      assert a + b == b;
    } else {
      assert (a + b)[1..] == a[1..] + b;
      NonEmptyOfBoth(a[1..], b);
    }
  }

  lemma PartsOfBoth(a: string, b: string)
    ensures Parts(a + ("/" + b)) == Parts(a) + Parts(b)
  {
    SplitOfBoth(a, b);
    NonEmptyOfBoth(Split(a), Split(b));
  }

  lemma {:induction false} SplitOfName(p: string)
    requires '/' !in p
    ensures Split(p) == [p]
  {
    if p == [] {
    } else {
      SplitOfName(p[1..]);
      assert p == [p[0]] + p[1..];
      var rest := Split(p[1..]);
      assert rest == [p[1..]] && rest[1..] == [];
    }
  }

  lemma PartsOfName(p: string)
    requires IsName(p)
    ensures Parts(p) == [p]
  {
    SplitOfName(p);
    var one := Split(p);
    assert one[1..] == [] && NonEmpty(one) == [p] + NonEmpty(one[1..]);
  }

  lemma {:induction false} SplitHasNoSlash(s: string)
    ensures forall p <- Split(s) :: '/' !in p
  {
    if s == [] {
    } else {
      SplitHasNoSlash(s[1..]);
    }
  }

  lemma {:induction false} NonEmptyIsPart(parts: seq<string>)
    ensures forall p <- NonEmpty(parts) :: p in parts && p != []
  {
    if parts == [] {
    } else {
      NonEmptyIsPart(parts[1..]);
    }
  }

  lemma PartsAreNames(s: string)
    ensures AreNames(Parts(s))
  {
    SplitHasNoSlash(s);
    NonEmptyIsPart(Split(s));
    assert forall i :: 0 <= i < |Parts(s)| ==> Parts(s)[i] in NonEmpty(Split(s));
  }

  lemma {:induction false} PartsOfJoin(parts: seq<string>)
    requires AreNames(parts)
    ensures Parts(Join(parts)) == parts
  {
    if |parts| == 1 {
      PartsOfName(parts[0]);
    } else if |parts| > 1 {
      PartsOfJoin(parts[1..]);
      PartsOfBoth(parts[0], Join(parts[1..]));
      PartsOfName(parts[0]);
    }
  }

  // Splitting undoes joining.
  lemma PartsOfPlain(parts: seq<string>)
    requires AreNames(parts)
    ensures Parts(Plain(parts)) == parts
  {
    PartsOfJoin(parts);
    PartsOfBoth([], Join(parts));
    assert [] + ("/" + Join(parts)) == Plain(parts);
  }

  // ----- Lengths -----

  lemma {:induction false} BytesOfBoth(a: string, b: string)
    ensures Bytes(a + b) == Bytes(a) + Bytes(b)
  {
    if a == [] {
      assert a + b == b;
    } else {
      assert (a + b)[1..] == a[1..] + b;
      BytesOfBoth(a[1..], b);
    }
  }

  // The bytes of the parts, with a slash for each.
  function Total(parts: seq<string>): nat {
    if parts == [] then 0 else 1 + Bytes(parts[0]) + Total(parts[1..])
  }

  lemma {:induction false} TotalOfSplit(s: string)
    ensures Total(Split(s)) == Bytes(s) + 1
  {
    if s == [] {
    } else {
      var rest := Split(s[1..]);
      TotalOfSplit(s[1..]);
      if s[0] == '/' {
        assert Split(s)[1..] == rest;
      } else {
        assert Split(s)[1..] == rest[1..];
        assert ([s[0]] + rest[0])[1..] == rest[0];
      }
    }
  }

  lemma {:induction false} TotalOfNonEmpty(parts: seq<string>)
    ensures Total(NonEmpty(parts)) <= Total(parts)
  {
    if parts == [] {
    } else {
      TotalOfNonEmpty(parts[1..]);
      if parts[0] == [] {
        assert NonEmpty(parts) == NonEmpty(parts[1..]);
      } else {
        assert NonEmpty(parts)[1..] == NonEmpty(parts[1..]);
      }
    }
  }

  lemma {:induction false} BytesOfJoin(parts: seq<string>)
    requires parts != []
    ensures 1 + Bytes(Join(parts)) == Total(parts)
  {
    if |parts| > 1 {
      BytesOfJoin(parts[1..]);
      BytesOfBoth(parts[0], "/" + Join(parts[1..]));
      BytesOfBoth("/", Join(parts[1..]));
    }
  }

  // The plain form is never longer.
  lemma PlainIsShort(s: string)
    requires s != [] && s[0] == '/'
    ensures Bytes(Plain(Parts(s))) <= Bytes(s)
  {
    var rest := s[1..];
    assert s == [] + ("/" + rest) == "/" + rest;
    assert Parts(s) == Parts(rest) by { PartsOfBoth([], rest); assert Parts([]) == []; }
    assert Bytes(s) == 1 + Bytes(rest) by { BytesOfBoth("/", rest); }
    assert Bytes(Plain(Parts(s))) == 1 + Bytes(Join(Parts(s))) by { BytesOfBoth("/", Join(Parts(s))); }
    if Parts(s) != [] {
      BytesOfJoin(Parts(s));
      TotalOfSplit(rest);
      TotalOfNonEmpty(Split(rest));
    }
  }

  // ----- Characters -----

  lemma {:induction false} JoinUses(parts: seq<string>, c: char)
    requires c in Join(parts)
    ensures c == '/' || exists p <- parts :: c in p
  {
    if |parts| > 1 && c !in parts[0] && c != '/' { JoinUses(parts[1..], c); }
  }

  lemma {:induction false} SplitUses(s: string, p: string, c: char)
    requires p in Split(s) && c in p
    ensures c in s
  {
    if s != [] && c != s[0] {
      var rest := Split(s[1..]);
      if p in rest { SplitUses(s[1..], p, c); } else { SplitUses(s[1..], rest[0], c); }
    }
  }

  lemma PlainUses(s: string, c: char)
    requires c in Plain(Parts(s))
    ensures c == '/' || c in s
  {
    if c != '/' {
      JoinUses(Parts(s), c);
      var p :| p in Parts(s) && c in p;
      NonEmptyIsPart(Split(s));
      SplitUses(s, p, c);
    }
  }

  // ----- The plain form -----

  // An accepted path has its plain form as its own plain form.
  lemma ParseIsIdempotent(value: string, path: string)
    requires ParsePath(value) == Ok(path)
    ensures ParsePath(path) == Ok(path) && Parts(path) == Parts(value)
  {
    PartsAreNames(value);
    PartsOfPlain(Parts(value));
    PlainIsShort(value);
    forall c | c in path ensures c != '\0' && !IsControl(c) { PlainUses(value, c); }
  }

  // Two accepted inputs get the same path exactly when they name the same folders.
  lemma SameIffSameParts(a: string, b: string)
    requires ParsePath(a).Ok? && ParsePath(b).Ok?
    ensures ParsePath(a).value == ParsePath(b).value <==> Parts(a) == Parts(b)
  {
    ParseIsIdempotent(a, ParsePath(a).value);
    ParseIsIdempotent(b, ParsePath(b).value);
  }

  // ----- System folders -----

  predicate StartsWith(s: string, prefix: string) { prefix <= s }

  // The string test: `path` is `tree` or goes on with a slash after it.
  predicate Below(path: string, tree: string) { path == tree || StartsWith(path, tree + "/") }

  lemma {:induction false} JoinOfBoth(a: seq<string>, b: seq<string>)
    requires a != [] && b != []
    ensures Join(a + b) == Join(a) + ("/" + Join(b))
  {
    assert (a + b)[1..] == a[1..] + b;
    if |a| == 1 {
      assert a[1..] + b == b;
    } else {
      JoinOfBoth(a[1..], b);
      assert (a[0] + ("/" + Join(a[1..]))) + ("/" + Join(b)) == a[0] + ("/" + (Join(a[1..]) + ("/" + Join(b))));
    }
  }

  // On plain paths the string test is the ancestor relation. The root is the
  // exception: no plain path starts with two slashes.
  lemma BelowIffAncestor(path: seq<string>, tree: seq<string>)
    requires AreNames(path) && AreNames(tree)
    ensures Below(Plain(path), Plain(tree)) <==> if tree == [] then path == [] else tree <= path
  {
    PartsOfPlain(path);
    PartsOfPlain(tree);
    if tree != [] && tree <= path && tree != path {
      var more := path[|tree|..];
      assert path == tree + more;
      JoinOfBoth(tree, more);
      assert Plain(path) == (Plain(tree) + "/") + Join(more);
    }
    if StartsWith(Plain(path), Plain(tree) + "/") {
      var rest := Plain(path)[|Plain(tree)| + 1..];
      assert Plain(path) == Plain(tree) + ("/" + rest);
      PartsOfBoth(Plain(tree), rest);
      if tree == [] { NoDoubleSlash(path); }
    }
  }

  lemma NoDoubleSlash(path: seq<string>)
    requires AreNames(path)
    ensures !StartsWith(Plain(path), "//")
  {
    if path != [] {
      assert Join(path)[0] == path[0][0];
      assert Plain(path)[1] == path[0][0];
    }
  }

  const SYSTEM_TREES: seq<string> := [
    "/bin", "/boot", "/dev", "/etc", "/lib", "/lib32", "/lib64", "/proc", "/root", "/run", "/sbin", "/sys", "/tmp",
    "/usr"]

  const SYSTEM_FOLDERS: seq<string> := [
    "/", "/home", "/media", "/mnt", "/opt", "/srv", "/var", "/var/lib", "/var/lib/libvirt"]

  function TargetPath(value: string): Result<string, PathError> {
    match ParsePath(value)
    case Err(e) => Err(e)
    case Ok(path) =>
      if (exists tree <- SYSTEM_TREES :: Below(path, tree)) || path in SYSTEM_FOLDERS then Err(SystemPath(path))
      else Ok(path)
  }

  // The system folders by their names.
  const TREE_NAMES: seq<seq<string>> := [
    ["bin"], ["boot"], ["dev"], ["etc"], ["lib"], ["lib32"], ["lib64"], ["proc"], ["root"], ["run"], ["sbin"], ["sys"],
    ["tmp"], ["usr"]]

  const FOLDER_NAMES: seq<seq<string>> := [
    [], ["home"], ["media"], ["mnt"], ["opt"], ["srv"], ["var"], ["var", "lib"], ["var", "lib", "libvirt"]]

  lemma TreesArePlain(i: nat)
    requires i < |SYSTEM_TREES|
    ensures i < |TREE_NAMES| && AreNames(TREE_NAMES[i]) && TREE_NAMES[i] != []
    ensures SYSTEM_TREES[i] == Plain(TREE_NAMES[i])
  {
  }

  lemma FoldersAreNames(i: nat)
    requires i < |FOLDER_NAMES|
    ensures AreNames(FOLDER_NAMES[i])
  {
  }

  lemma FoldersArePlain(i: nat)
    requires i < |SYSTEM_FOLDERS|
    ensures i < |FOLDER_NAMES| && AreNames(FOLDER_NAMES[i]) && SYSTEM_FOLDERS[i] == Plain(FOLDER_NAMES[i])
  {
    FoldersAreNames(i);
    hide AreNames;
    if i == 7 {
      JoinedPair("var", "lib");
    } else if i == 8 {
      JoinedPair("lib", "libvirt");
      assert ["var", "lib", "libvirt"][1..] == ["lib", "libvirt"];
    }
  }

  lemma JoinedPair(a: string, b: string)
    ensures Join([a, b]) == a + ("/" + b)
  {
    assert [a, b][1..] == [b];
  }

  lemma TreeTest(path: seq<string>, i: nat)
    requires AreNames(path) && i < |SYSTEM_TREES|
    ensures Below(Plain(path), SYSTEM_TREES[i]) <==> Parts(SYSTEM_TREES[i]) <= path
  {
    TreesArePlain(i);
    var names := TREE_NAMES[i];
    hide Plain, Below, TREE_NAMES, SYSTEM_TREES;
    BelowIffAncestor(path, names);
    PartsOfPlain(names);
  }

  lemma FolderTest(path: seq<string>, i: nat)
    requires AreNames(path) && i < |SYSTEM_FOLDERS|
    ensures Plain(path) == SYSTEM_FOLDERS[i] <==> Parts(SYSTEM_FOLDERS[i]) == path
  {
    FoldersArePlain(i);
    PartsOfPlain(path);
    PartsOfPlain(FOLDER_NAMES[i]);
  }

  // A pool folder is refused exactly when one of the trees is its ancestor or it
  // is one of the folders, however the input spells it.
  lemma TargetIsExact(value: string)
    requires ParsePath(value).Ok?
    ensures TargetPath(value).Ok? <==>
              (forall i :: 0 <= i < |SYSTEM_TREES| ==> !(Parts(SYSTEM_TREES[i]) <= Parts(value)))
              && (forall i :: 0 <= i < |SYSTEM_FOLDERS| ==> Parts(SYSTEM_FOLDERS[i]) != Parts(value))
  {
    var path := ParsePath(value).value;
    PartsAreNames(value);
    forall i | 0 <= i < |SYSTEM_TREES|
      ensures Below(path, SYSTEM_TREES[i]) <==> Parts(SYSTEM_TREES[i]) <= Parts(value)
    {
      TreeTest(Parts(value), i);
    }
    forall i | 0 <= i < |SYSTEM_FOLDERS|
      ensures path == SYSTEM_FOLDERS[i] <==> Parts(SYSTEM_FOLDERS[i]) == Parts(value)
    {
      FolderTest(Parts(value), i);
    }
  }
}
