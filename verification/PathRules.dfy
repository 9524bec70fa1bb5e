// When a path is accepted, said of the text alone, and where an accepted pool folder
// really is.
module PathRules {
  import opened Options
  import opened Paths

  // ----- Segments of a text -----

  // `v[i..j]` lies between two slashes or ends of the text.
  predicate IsSegmentAt(v: string, i: int, j: int) {
    && 0 <= i <= j <= |v| && (i == 0 || v[i - 1] == '/') && (j == |v| || v[j] == '/')
    && forall k :: i <= k < j ==> v[k] != '/'
  }

  function FirstEnd(v: string): (n: nat)
    ensures n <= |v|
  {
    if v == [] || v[0] == '/' then 0 else 1 + FirstEnd(v[1..])
  }

  lemma {:induction false} FirstSegment(v: string)
    ensures Split(v)[0] == v[..FirstEnd(v)] && IsSegmentAt(v, 0, FirstEnd(v))
    ensures forall j :: IsSegmentAt(v, 0, j) ==> j == FirstEnd(v)
  {
    if v == [] || v[0] == '/' {
    } else {
      var w := v[1..];
      FirstSegment(w);
      assert v == [v[0]] + w;
      forall j | IsSegmentAt(v, 0, j) ensures j == FirstEnd(v) { assert IsSegmentAt(w, 0, j - 1); }
    }
  }

  lemma Shifted(v: string, i: int, j: int)
    requires v != [] && i >= 0 && (i > 0 || v[0] == '/')
    ensures IsSegmentAt(v, i + 1, j + 1) <==> IsSegmentAt(v[1..], i, j)
    ensures IsSegmentAt(v[1..], i, j) ==> v[i + 1..j + 1] == v[1..][i..j]
  {
    var w := v[1..];
    assert forall k :: 0 <= k < |w| ==> w[k] == v[k + 1];
    if IsSegmentAt(v, i + 1, j + 1) {
      forall k | i <= k < j ensures w[k] != '/' { assert v[k + 1] != '/'; }
    }
    if IsSegmentAt(w, i, j) {
      forall k | i + 1 <= k < j + 1 ensures v[k] != '/' { assert w[k - 1] != '/'; }
      assert v[i + 1..j + 1] == w[i..j];
    }
  }

  // `p` is a segment that starts at `from` or later.
  ghost predicate SegmentFrom(v: string, p: string, from: nat) {
    exists i, j :: i >= from && IsSegmentAt(v, i, j) && v[i..j] == p
  }

  lemma ShiftedSegments(v: string, p: string, from: nat)
    requires v != [] && (from > 0 || v[0] == '/')
    ensures SegmentFrom(v, p, from + 1) <==> SegmentFrom(v[1..], p, from)
  {
    var w := v[1..];
    if SegmentFrom(v, p, from + 1) {
      var i, j :| i >= from + 1 && IsSegmentAt(v, i, j) && v[i..j] == p;
      Shifted(v, i - 1, j - 1);
      assert IsSegmentAt(w, i - 1, j - 1) && w[i - 1..j - 1] == p;
    }
    if SegmentFrom(w, p, from) {
      var i, j :| i >= from && IsSegmentAt(w, i, j) && w[i..j] == p;
      Shifted(v, i, j);
      assert IsSegmentAt(v, i + 1, j + 1) && v[i + 1..j + 1] == p;
    }
  }

  // A segment from the start is the first one or a later one.
  lemma FirstOrLater(v: string, p: string)
    ensures SegmentFrom(v, p, 0) <==> p == Split(v)[0] || SegmentFrom(v, p, 1)
  {
    FirstSegment(v);
    if SegmentFrom(v, p, 0) {
      var i, j :| i >= 0 && IsSegmentAt(v, i, j) && v[i..j] == p;
    }
    assert IsSegmentAt(v, 0, FirstEnd(v)) && v[0..FirstEnd(v)] == Split(v)[0];
  }

  // The segments that begin after the first character.
  lemma NoSegmentInside(v: string, p: string)
    requires v != [] && v[0] != '/'
    ensures SegmentFrom(v, p, 1) <==> SegmentFrom(v, p, 2)
  {
    if SegmentFrom(v, p, 1) {
      var i, j :| i >= 1 && IsSegmentAt(v, i, j) && v[i..j] == p;
      assert i != 1;
    }
  }

  lemma {:induction false} LaterSegments(v: string, p: string)
    ensures p in Split(v)[1..] <==> SegmentFrom(v, p, 1)
  {
    if v == [] {
    } else {
      var w := v[1..];
      LaterSegments(w, p);
      if v[0] == '/' {
        assert Split(v)[1..] == Split(w);
        assert Split(w) == [Split(w)[0]] + Split(w)[1..];
        FirstOrLater(w, p);
        ShiftedSegments(v, p, 0);
      } else {
        assert Split(v)[1..] == Split(w)[1..];
        NoSegmentInside(v, p);
        ShiftedSegments(v, p, 1);
      }
    }
  }

  lemma {:induction false} NonEmptyIff(parts: seq<string>, p: string)
    ensures p in NonEmpty(parts) <==> p in parts && p != []
  {
    if parts == [] {
    } else {
      NonEmptyIff(parts[1..], p);
    }
  }

  // The parts of a path are exactly its non-empty segments.
  lemma PartIff(v: string, p: string)
    ensures p in Parts(v) <==> p != [] && SegmentFrom(v, p, 0)
  {
    NonEmptyIff(Split(v), p);
    FirstOrLater(v, p);
    LaterSegments(v, p);
    assert Split(v) == [Split(v)[0]] + Split(v)[1..];
  }

  // ----- UTF-8 -----

  // The bytes of a character, by section 3 of RFC 3629.
  function Encoded(c: char): seq<nat> {
    var n := c as nat;
    if n < 0x80 then [n]
    else if n < 0x800 then [0xC0 + n / 64, 0x80 + n % 64]
    else if n < 0x10000 then [0xE0 + n / 4096, 0x80 + n / 64 % 64, 0x80 + n % 64]
    else [0xF0 + n / 262144, 0x80 + n / 4096 % 64, 0x80 + n / 64 % 64, 0x80 + n % 64]
  }

  function Utf8(s: string): seq<nat> { if s == [] then [] else Encoded(s[0]) + Utf8(s[1..]) }

  // The number of the first character in `b`, by its leading byte.
  function Decoded(b: seq<nat>): Option<nat> {
    if b == [] then None
    else if b[0] < 0x80 then Some(b[0])
    else if 0xC0 <= b[0] < 0xE0 && |b| >= 2 && b[1] >= 0x80 then Some((b[0] - 0xC0) * 64 + (b[1] - 0x80))
    else if 0xE0 <= b[0] < 0xF0 && |b| >= 3 && b[1] >= 0x80 && b[2] >= 0x80 then
      Some((b[0] - 0xE0) * 4096 + (b[1] - 0x80) * 64 + (b[2] - 0x80))
    else if 0xF0 <= b[0] < 0xF8 && |b| >= 4 && b[1] >= 0x80 && b[2] >= 0x80 && b[3] >= 0x80 then
      Some((b[0] - 0xF0) * 262144 + (b[1] - 0x80) * 4096 + (b[2] - 0x80) * 64 + (b[3] - 0x80))
    else None
  }

  // The bytes tell the character.
  lemma DecodedIsCharacter(c: char, rest: seq<nat>)
    ensures Decoded(Encoded(c) + rest) == Some(c as nat)
  {
    var n, b := c as nat, Encoded(c);
    Digits64(n);
    assert (b + rest)[..|b|] == b;
    assert |b| >= 2 ==> (b + rest)[1] == b[1];
    assert |b| >= 3 ==> (b + rest)[2] == b[2];
    assert |b| >= 4 ==> (b + rest)[3] == b[3];
    assert (b + rest)[0] == b[0];
  }

  lemma Digits64(n: nat)
    ensures n == n / 64 * 64 + n % 64
    ensures n / 64 == n / 4096 * 64 + n / 64 % 64
    ensures n / 4096 == n / 262144 * 64 + n / 4096 % 64
  {
    assert n / 64 / 64 == n / 4096 && n / 4096 / 64 == n / 262144;
  }

  lemma {:induction false} BytesAreUtf8(s: string)
    ensures Bytes(s) == |Utf8(s)|
  {
    if s == [] {
    } else {
      BytesAreUtf8(s[1..]);
    }
  }

  // ----- When a path is accepted -----

  ghost predicate NoNul(v: string) { forall i :: 0 <= i < |v| ==> v[i] as int != 0 }

  ghost predicate NoDots(v: string) {
    forall i, j :: IsSegmentAt(v, i, j) ==> v[i..j] != "." && v[i..j] != ".."
  }

  // No C0 or C1 control, no DEL, and none of the two that XML 1.0 shuts out.
  ghost predicate NoControls(v: string) {
    forall i :: 0 <= i < |v| ==>
      var n := v[i] as int;
      n > 0x1F && (n < 0x7F || n > 0x9F) && n != 0xFFFE && n != 0xFFFF
  }

  lemma DotsIff(v: string)
    ensures NoDots(v) <==> "." !in Parts(v) && ".." !in Parts(v)
  {
    PartIff(v, ".");
    PartIff(v, "..");
    hide Parts;
    if !NoDots(v) {
      var i, j :| IsSegmentAt(v, i, j) && (v[i..j] == "." || v[i..j] == "..");
      assert SegmentFrom(v, v[i..j], 0);
    }
  }

  lemma ControlsIff(v: string)
    ensures NoControls(v) <==> !exists c <- v :: IsControl(c)
  {
    if !NoControls(v) {
      var i :| 0 <= i < |v| && IsControl(v[i]);
      assert v[i] in v;
    }
  }

  lemma NulIff(v: string)
    ensures NoNul(v) <==> '\0' !in v
  {
  }

  // Accepted if and only if the text has no NUL, starts with a slash, has at most
  // 4096 bytes, has no segment "." or "..", and has no control character. Each error
  // stands for the first of these that fails.
  lemma AcceptedIff(v: string)
    ensures ParsePath(v).Ok? <==>
              NoNul(v) && v != [] && v[0] == '/' && |Utf8(v)| <= 4096 && NoDots(v) && NoControls(v)
    ensures ParsePath(v) == Err(Nul) <==> !NoNul(v)
    ensures ParsePath(v) == Err(Empty) <==> v == []
    ensures ParsePath(v) == Err(NotAbsolute) <==> NoNul(v) && v != [] && v[0] != '/'
    ensures forall n :: ParsePath(v) == Err(TooLong(n)) <==>
              NoNul(v) && v != [] && v[0] == '/' && n == |Utf8(v)| > 4096
    ensures ParsePath(v) == Err(DotSegment) <==>
              NoNul(v) && v != [] && v[0] == '/' && |Utf8(v)| <= 4096 && !NoDots(v)
    ensures ParsePath(v) == Err(Control) <==>
              NoNul(v) && v != [] && v[0] == '/' && |Utf8(v)| <= 4096 && NoDots(v) && !NoControls(v)
  {
    NulIff(v);
    BytesAreUtf8(v);
    DotsIff(v);
    ControlsIff(v);
    hide NoNul, NoDots, NoControls, Utf8, Bytes, Parts, IsControl;
  }

  // ----- Where a folder is -----

  // Walks the folder names from `place`: "." stays, and ".." goes up.
  function Follow(parts: seq<string>, place: seq<string>): seq<string>
    decreases |parts|
  {
    if parts == [] then place
    else if parts[0] == "." then Follow(parts[1..], place)
    else if parts[0] == ".." then Follow(parts[1..], if place == [] then [] else place[..|place| - 1])
    else Follow(parts[1..], place + [parts[0]])
  }

  lemma {:induction false} FollowPlain(parts: seq<string>, place: seq<string>)
    requires "." !in parts && ".." !in parts
    ensures Follow(parts, place) == place + parts
    decreases |parts|
  {
    if parts == [] {
    } else {
      FollowPlain(parts[1..], place + [parts[0]]);
      assert place + [parts[0]] + parts[1..] == place + parts;
    }
  }

  // Wherever an accepted pool folder leads, it is not in a system tree and not a
  // system folder.
  lemma AcceptedFolderIsSafe(value: string)
    requires TargetPath(value).Ok?
    ensures var place := Follow(Parts(value), []);
            && (forall i :: 0 <= i < |TREE_NAMES| ==> !(TREE_NAMES[i] <= place))
            && (forall i :: 0 <= i < |FOLDER_NAMES| ==> place != FOLDER_NAMES[i])
  {
    FollowPlain(Parts(value), []);
    assert [] + Parts(value) == Parts(value);
    TargetIsExact(value);
    forall i | 0 <= i < |TREE_NAMES| ensures !(TREE_NAMES[i] <= Parts(value)) {
      TreesArePlain(i);
      PartsOfPlain(TREE_NAMES[i]);
    }
    forall i | 0 <= i < |FOLDER_NAMES| ensures Parts(value) != FOLDER_NAMES[i] {
      FoldersArePlain(i);
      PartsOfPlain(FOLDER_NAMES[i]);
    }
  }
}
