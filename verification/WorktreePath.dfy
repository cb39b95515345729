/** `normalize_worktree_path` of multinexus/agentd/execution_lease.py: the
    lexical identity of a worktree, for POSIX paths. */
module WorktreePath {
  import opened Prelude
  import opened PyText

  const MAX_PATH_LEN: nat := 4096

  /** Library behaviour outside this model: Unicode NFC, and the treatment of
      paths that do not start with exactly one slash (Windows drives and UNC). */
  datatype PathLibrary = PathLibrary(nfc: string -> string, foreign: string -> Result<string>)

  predicate HasControl(s: string) {
    exists c :: c in s && (c as int < 32 || c as int == 127)
  }

  /** The 32 control characters before the blank, and the one after the tilde. */
  lemma ControlMeans(s: string)
    ensures HasControl(s) <==> exists i :: 0 <= i < |s| && (s[i] < ' ' || s[i] == ('~' as int + 1) as char)
  {
    if HasControl(s) {
      var c :| c in s && (c as int < 32 || c as int == 127);
      var i :| 0 <= i < |s| && s[i] == c;
    }
    forall i | 0 <= i < |s| && (s[i] < ' ' || s[i] == ('~' as int + 1) as char) ensures HasControl(s) {
      assert s[i] in s;
    }
  }

  /** An absolute POSIX path; two leading slashes would make it a UNC path. */
  predicate OneLeadingSlash(path: string) {
    path != "" && path[0] == '/' && !(|path| > 1 && path[1] == '/')
  }

  function Normalize(lib: PathLibrary, path: string): Result<string> {
    var stripped := Strip(path);
    if stripped == "" || |stripped| > MAX_PATH_LEN || HasControl(stripped) then Failure
    else if !OneLeadingSlash(stripped) then lib.foreign(stripped)
    else
      var normalized := Normpath(stripped);
      if normalized == "." then Failure
      else Success(lib.nfc(if normalized == "" then "/" else normalized))
  }

  // ----- posixpath.normpath -----

  function InitialSlashes(path: string): nat {
    if path == "" || path[0] != '/' then 0
    else if |path| > 1 && path[1] == '/' && !(|path| > 2 && path[2] == '/') then 2
    else 1
  }

  function Normpath(path: string): string {
    if path == "" then "."
    else
      var slashes := InitialSlashes(path);
      var components := Components(Split(path, '/'), [], slashes > 0);
      var text := (if slashes == 0 then "" else if slashes == 1 then "/" else "//") + Join(components, '/');
      if text == "" then "." else text
  }

  function Components(parts: seq<string>, kept: seq<string>, rooted: bool): seq<string>
    decreases |parts|
  {
    if parts == [] then kept
    else
      var part, rest := parts[0], parts[1..];
      if part == "" || part == "." then Components(rest, kept, rooted)
      else if part != ".." || (!rooted && kept == []) || (kept != [] && kept[|kept| - 1] == "..") then
        Components(rest, kept + [part], rooted)
      else if kept != [] then Components(rest, kept[..|kept| - 1], rooted)
      else Components(rest, kept, rooted)
  }

  // ----- the segment walk it stands for -----

  /** One step from a directory, given as the segments below the root. */
  function Step(dir: seq<string>, segment: string): seq<string> {
    if segment == "" || segment == "." then dir
    else if segment == ".." then (if dir == [] then [] else dir[..|dir| - 1])
    else dir + [segment]
  }

  function Walk(dir: seq<string>, segments: seq<string>): seq<string>
    decreases |segments|
  {
    if segments == [] then dir else Walk(Step(dir, segments[0]), segments[1..])
  }

  predicate Proper(segment: string) {
    segment !in {"", ".", ".."} && '/' !in segment
  }

  ghost predicate AllProper(dir: seq<string>) {
    forall d :: d in dir ==> Proper(d)
  }

  ghost predicate NoSlash(parts: seq<string>) {
    forall p :: p in parts ==> '/' !in p
  }

  /** From a rooted start, `Components` is the walk. */
  lemma {:induction false} ComponentsWalk(parts: seq<string>, kept: seq<string>)
    requires AllProper(kept) && NoSlash(parts)
    ensures Components(parts, kept, true) == Walk(kept, parts)
    ensures AllProper(Walk(kept, parts))
    decreases |parts|
  {
    if parts != [] {
      assert parts[0] in parts;
      assert kept != [] ==> kept[|kept| - 1] in kept;
      ComponentsWalk(parts[1..], Step(kept, parts[0]));
    }
  }

  /** The length of the segments, each with its leading slash. */
  function Weight(parts: seq<string>): nat {
    if parts == [] then 0 else Weight(parts[..|parts| - 1]) + |parts[|parts| - 1]| + 1
  }

  lemma {:induction false} WalkWeight(dir: seq<string>, segments: seq<string>)
    ensures Weight(Walk(dir, segments)) <= Weight(dir) + Weight(segments)
    decreases |segments|
  {
    if segments != [] {
      var next := Step(dir, segments[0]);
      assert (dir + [segments[0]])[..|dir|] == dir;
      WalkWeight(next, segments[1..]);
      WeightHead(segments);
    }
  }

  lemma {:induction false} WeightHead(parts: seq<string>)
    requires parts != []
    ensures Weight(parts) == |parts[0]| + 1 + Weight(parts[1..])
  {
    if |parts| > 1 {
      WeightHead(parts[..|parts| - 1]);
      assert parts[..|parts| - 1][1..] == parts[1..][..|parts| - 2];
    }
  }

  lemma {:induction false} JoinWeight(parts: seq<string>)
    ensures |Join(parts, '/')| == if parts == [] then 0 else Weight(parts) - 1
    decreases |parts|
  {
    if parts != [] {
      WeightHead(parts);
      JoinWeight(parts[1..]);
    }
  }

  /** A slash followed by proper segments. */
  ghost predicate Canonical(path: string) {
    exists dir :: Spells(dir, path)
  }

  ghost predicate Spells(dir: seq<string>, path: string) {
    AllProper(dir) && path == "/" + Join(dir, '/')
  }

  /** The result is the walk of the input's segments from the root, spelled
      canonically, and never longer than the input. */
  lemma NormpathWalks(path: string)
    requires OneLeadingSlash(path)
    ensures Normpath(path) == "/" + Join(Walk([], Split(path, '/')), '/')
    ensures Spells(Walk([], Split(path, '/')), Normpath(path))
    ensures 1 <= |Normpath(path)| <= |path|
  {
    var parts := Split(path, '/');
    ComponentsWalk(parts, []);
    assert parts[0] == "";
    WalkWeight([], parts[1..]);
    WeightHead(parts);
    JoinWeight(Walk([], parts));
    JoinWeight(parts);
    JoinSplit(path, '/');
  }

  lemma {:induction false} WalkProper(dir: seq<string>, segments: seq<string>)
    requires AllProper(segments)
    ensures Walk(dir, segments) == dir + segments
    decreases |segments|
  {
    if segments != [] {
      assert segments[0] in segments;
      WalkProper(dir + [segments[0]], segments[1..]);
    }
  }

  /** Canonical paths are fixed points of `normpath`. */
  lemma NormpathFixesCanonical(path: string)
    requires Canonical(path)
    ensures OneLeadingSlash(path) && Normpath(path) == path
  {
    var dir :| Spells(dir, path);
    CanonicalParts(dir, path);
    NormpathWalks(path);
    if dir == [] {
      assert path[1..] == "";
      assert Split(path, '/') == [""] + [""];
      assert ([""] + [""])[1..] == [""] && [""][1..] == [];
      assert Walk([], [""]) == Walk([], []) == [];
    } else {
      assert ([""] + dir)[1..] == dir;
      WalkProper([], dir);
      assert [] + dir == dir;
    }
  }

  lemma CanonicalParts(dir: seq<string>, path: string)
    requires Spells(dir, path)
    ensures OneLeadingSlash(path)
    ensures dir != [] ==> Split(path, '/') == [""] + dir
    ensures dir == [] ==> path == "/"
  {
    if dir != [] {
      assert dir[0] in dir;
      assert "" + "/" + Join(dir, '/') == path;
      SplitAppend("", Join(dir, '/'), '/');
      SplitJoin(dir, '/');
      assert path[1] == dir[0][0] && dir[0][0] in dir[0];
    }
  }

  lemma {:induction false} WalkChars(dir: seq<string>, segments: seq<string>, text: string)
    requires forall d, c :: d in dir && c in d ==> c in text
    requires forall d, c :: d in segments && c in d ==> c in text
    ensures forall d, c :: d in Walk(dir, segments) && c in d ==> c in text
    decreases |segments|
  {
    if segments != [] {
      assert segments[0] in segments;
      WalkChars(Step(dir, segments[0]), segments[1..], text);
    }
  }

  lemma {:induction false} JoinChars(parts: seq<string>, text: string)
    requires '/' in text && forall d, c :: d in parts && c in d ==> c in text
    ensures forall c :: c in Join(parts, '/') ==> c in text
    decreases |parts|
  {
    if parts != [] {
      assert parts[0] in parts;
      JoinChars(parts[1..], text);
    }
  }

  lemma NormpathChars(path: string)
    requires OneLeadingSlash(path)
    ensures forall c :: c in Normpath(path) ==> c in path
  {
    NormpathWalks(path);
    WalkChars([], Split(path, '/'), path);
    assert path[0] in path;
    JoinChars(Walk([], Split(path, '/')), path);
  }

  // ----- normalize_worktree_path as a whole -----

  /** The segments in normal form, one by one. */
  function Normal(lib: PathLibrary, dir: seq<string>): (r: seq<string>)
    ensures |r| == |dir| && forall i :: 0 <= i < |dir| ==> r[i] == lib.nfc(dir[i])
  {
    seq(|dir|, i requires 0 <= i < |dir| => lib.nfc(dir[i]))
  }

  predicate EndsInSpace(s: string) {
    s != "" && IsSpace(s[|s| - 1])
  }

  /** What NFC does to a proper segment: it stays proper, and white space stays
      at its end or away from it. */
  ghost predicate KeepsSegment(lib: PathLibrary, segment: string) {
    Proper(lib.nfc(segment)) && (EndsInSpace(lib.nfc(segment)) <==> EndsInSpace(segment))
  }

  ghost predicate BySegment(lib: PathLibrary, dir: seq<string>) {
    lib.nfc("/" + Join(dir, '/')) == "/" + Join(Normal(lib, dir), '/')
  }

  /** What is used of Unicode NFC: a slash neither composes nor comes about, so
      it works segment by segment; it is idempotent; and it makes no control
      character. It may change and lengthen any segment. */
  ghost predicate LawfulNfc(lib: PathLibrary) {
    && (forall dir :: AllProper(dir) ==> BySegment(lib, dir))
    && (forall segment :: Proper(segment) ==> KeepsSegment(lib, segment))
    && (forall s {:trigger lib.nfc(s)} ::
          lib.nfc(lib.nfc(s)) == lib.nfc(s) && (HasControl(lib.nfc(s)) ==> HasControl(s)))
  }

  /** A library that changes nothing, as NFC does not change ASCII text, is one
      such library. */
  lemma UnchangingIsLawful(lib: PathLibrary)
    requires forall s :: lib.nfc(s) == s
    ensures LawfulNfc(lib)
  {
    hide Join, Proper, EndsInSpace;
    forall dir | AllProper(dir) ensures BySegment(lib, dir) {
      assert Normal(lib, dir) == dir;
    }
  }

  /** The naive walk of the stripped path, spelled canonically. */
  function Walked(path: string): string {
    "/" + Join(Walk([], Split(Strip(path), '/')), '/')
  }

  lemma NormalProper(lib: PathLibrary, dir: seq<string>)
    requires LawfulNfc(lib) && AllProper(dir)
    ensures Spells(Normal(lib, dir), lib.nfc("/" + Join(dir, '/')))
    ensures dir != [] ==> (EndsInSpace(Normal(lib, dir)[|dir| - 1]) <==> EndsInSpace(dir[|dir| - 1]))
  {
    hide Join, Proper, EndsInSpace;
    assert BySegment(lib, dir);
    forall d | d in Normal(lib, dir) ensures Proper(d) {
      var i :| 0 <= i < |dir| && d == lib.nfc(dir[i]);
      assert dir[i] in dir;
      assert KeepsSegment(lib, dir[i]);
    }
    if dir != [] {
      assert dir[|dir| - 1] in dir;
      assert KeepsSegment(lib, dir[|dir| - 1]);
    }
  }

  /** What normalization gives for a POSIX path, and when it gives anything. */
  lemma NormalizePosix(lib: PathLibrary, path: string)
    requires OneLeadingSlash(Strip(path))
    ensures var stripped := Strip(path);
            if |stripped| > MAX_PATH_LEN || HasControl(stripped) then Normalize(lib, path) == Failure
            else
              && Normalize(lib, path) == Success(lib.nfc(Walked(path)))
              && Canonical(Walked(path)) && |Walked(path)| <= |stripped|
              && (LawfulNfc(lib) ==> Canonical(lib.nfc(Walked(path))))
  {
    hide Normpath, Split, Join, Walk, Strip, LawfulNfc;
    var stripped := Strip(path);
    var dir := Walk([], Split(stripped, '/'));
    NormpathWalks(stripped);
    assert Spells(dir, Normpath(stripped));
    assert Normpath(stripped) != "." by { assert Normpath(stripped)[0] == '/'; }
    if LawfulNfc(lib) {
      NormalProper(lib, dir);
      assert Spells(Normal(lib, dir), lib.nfc(Walked(path)));
    }
  }

  lemma {:induction false} RStripTail(a: string, b: string)
    requires a != "" && !IsSpace(a[|a| - 1])
    ensures RStrip(a + b) == a + RStrip(b)
  {
    if b != "" && IsSpace(b[|b| - 1]) {
      assert (a + b)[..|a + b| - 1] == a + b[..|b| - 1];
      RStripTail(a, b[..|b| - 1]);
    } else if b == "" {
      assert a + b == a;
    }
  }

  lemma {:induction false} JoinLast(front: seq<string>, last: string)
    ensures "/" + Join(front + [last], '/')
         == (if front == [] then "/" else "/" + Join(front, '/') + "/") + last
    decreases |front|
  {
    if front != [] {
      JoinLast(front[1..], last);
      assert (front + [last])[1..] == front[1..] + [last];
      var tail := "/" + Join(front[1..] + [last], '/');
      assert "/" + Join(front + [last], '/') == "/" + front[0] + tail;
      if |front| == 1 {
        assert front[1..] == [] && Join(front, '/') == front[0];
      } else {
        assert "/" + front[0] + ("/" + Join(front[1..], '/') + "/" + last) == "/" + Join(front, '/') + "/" + last;
      }
    }
  }

  /** Stripping a canonical path strips its last segment. */
  lemma StripsLastSegment(front: seq<string>, last: string)
    requires last != ""
    ensures Strip("/" + Join(front + [last], '/')) == "/" + Join(front + [RStrip(last)], '/')
  {
    hide Join, IsSpace;
    var head := if front == [] then "/" else "/" + Join(front, '/') + "/";
    JoinLast(front, last);
    JoinLast(front, RStrip(last));
    SlashIsNoSpace();
    assert head[|head| - 1] == '/';
    RStripTail(head, last);
    assert LStrip(head + last) == head + last;
  }

  lemma SlashIsNoSpace()
    ensures !IsSpace('/')
  {
  }

  lemma {:induction false} WalkThen(dir: seq<string>, segments: seq<string>, last: string)
    requires AllProper(segments)
    ensures Walk(dir, segments + [last]) == Step(dir + segments, last)
    decreases |segments|
  {
    var all := segments + [last];
    if segments == [] {
      assert all == [last] && all[1..] == [] && dir + segments == dir;
    } else {
      assert segments[0] in segments && all[1..] == segments[1..] + [last];
      assert dir + segments == dir + [segments[0]] + segments[1..];
      WalkThen(dir + [segments[0]], segments[1..], last);
    }
  }

  /** Walking a stripped canonical path loses a segment, or ends in one that
      does not end in white space. */
  lemma WalkOfStripped(dir: seq<string>)
    requires AllProper(dir) && dir != []
    ensures var walked := Walk([], Split(Strip("/" + Join(dir, '/')), '/'));
            |walked| < |dir| || (|walked| == |dir| && !EndsInSpace(walked[|walked| - 1]))
  {
    hide Join, Split, Strip, Walk, IsSpace, RStrip;
    var front, last := dir[..|dir| - 1], dir[|dir| - 1];
    assert dir == front + [last] && last in dir;
    StripsLastSegment(front, last);
    var parts := front + [RStrip(last)];
    PartsWithoutSlash(front, last);
    SplitRooted(parts);
    WalkRooted(parts);
    WalkThen([], front, RStrip(last));
    assert [] + front == front;
  }

  lemma PartsWithoutSlash(front: seq<string>, last: string)
    requires AllProper(front) && Proper(last)
    ensures NoSlash(front + [RStrip(last)])
  {
  }

  lemma SplitRooted(parts: seq<string>)
    requires parts != [] && NoSlash(parts)
    ensures Split("/" + Join(parts, '/'), '/') == [""] + parts
  {
    SplitAppend("", Join(parts, '/'), '/');
    assert "" + ['/'] + Join(parts, '/') == "/" + Join(parts, '/');
    SplitJoin(parts, '/');
  }

  lemma WalkRooted(parts: seq<string>)
    ensures Walk([], [""] + parts) == Walk([], parts)
  {
    assert ([""] + parts)[1..] == parts;
  }

  /** A path that is its own normal form does not end in white space. */
  lemma FixedEndsNoSpace(lib: PathLibrary, path: string)
    requires LawfulNfc(lib) && OneLeadingSlash(path) && lib.nfc(Walked(path)) == path
    ensures Canonical(path) && lib.nfc(path) == path && !EndsInSpace(path)
  {
    hide Join, Split, Strip, Walk, LawfulNfc;
    var dir := Walk([], Split(Strip(path), '/'));
    StripPosix(path);
    NormpathWalks(Strip(path));
    assert AllProper(dir);
    NormalProper(lib, dir);
    var own := Normal(lib, dir);
    assert Spells(own, path);
    Idempotent(lib, Walked(path));
    if own == [] {
      RootEndsNoSpace(path);
    } else {
      WalkOfStripped(own);
      LastOfJoin(own, path);
    }
  }

  lemma Idempotent(lib: PathLibrary, s: string)
    requires LawfulNfc(lib)
    ensures lib.nfc(lib.nfc(s)) == lib.nfc(s) && (HasControl(lib.nfc(s)) ==> HasControl(s))
  {
    hide HasControl;
  }

  lemma RootEndsNoSpace(path: string)
    requires Spells([], path)
    ensures !EndsInSpace(path)
  {
  }

  lemma LastOfJoin(dir: seq<string>, path: string)
    requires dir != [] && Spells(dir, path)
    ensures EndsInSpace(path) <==> EndsInSpace(dir[|dir| - 1])
  {
    hide Join;
    assert dir == dir[..|dir| - 1] + [dir[|dir| - 1]] && dir[|dir| - 1] in dir;
    JoinLast(dir[..|dir| - 1], dir[|dir| - 1]);
  }

  /** The lease check `normalize(path) == path` accepts exactly the canonical
      spellings in Unicode normal form that are short enough, free of control
      characters and do not end in white space. */
  lemma AcceptsExactlyFixedPoints(lib: PathLibrary, path: string)
    requires LawfulNfc(lib) && OneLeadingSlash(path)
    ensures Normalize(lib, path) == Success(path)
       <==> && Canonical(path) && lib.nfc(path) == path
            && |path| <= MAX_PATH_LEN && !HasControl(path) && !EndsInSpace(path)
  {
    hide Normpath, Split, Join, Walk, Canonical, HasControl, LawfulNfc, Normalize;
    StripPosix(path);
    NormalizePosix(lib, path);
    if lib.nfc(Walked(path)) == path {
      FixedEndsNoSpace(lib, path);
    }
    if Canonical(path) && !EndsInSpace(path) {
      NormpathFixesCanonical(path);
      NormpathWalks(path);
    }
  }

  lemma StripPosix(path: string)
    requires OneLeadingSlash(path)
    ensures OneLeadingSlash(Strip(path))
    ensures if EndsInSpace(path) then |Strip(path)| < |path| else Strip(path) == path
  {
    assert LStrip(path) == path;
    if !EndsInSpace(path) {
      StripFixed(path);
    } else {
      RStripKeepsSlash(path);
    }
  }

  lemma {:induction false} RStripKeepsSlash(s: string)
    requires OneLeadingSlash(s)
    ensures OneLeadingSlash(RStrip(s))
  {
    if IsSpace(s[|s| - 1]) {
      RStripKeepsSlash(s[..|s| - 1]);
    }
  }

  /** Normalizing twice: a result is a fixed point unless it ends in white space
      or Unicode has made it too long. */
  lemma ResultFixedUnlessTrailingSpace(lib: PathLibrary, path: string)
    requires LawfulNfc(lib) && OneLeadingSlash(Strip(path))
    requires Normalize(lib, path).Success?
    ensures var r := Normalize(lib, path).value;
            Normalize(lib, r) == Success(r) <==> !EndsInSpace(r) && |r| <= MAX_PATH_LEN
  {
    hide Normpath, Split, Join, Walk, Canonical, Normalize, Strip, HasControl, LawfulNfc, EndsInSpace;
    NormalizePosix(lib, path);
    var r := Normalize(lib, path).value;
    Idempotent(lib, Walked(path));
    WalkedChars(path);
    CanonicalShape(r);
    AcceptsExactlyFixedPoints(lib, r);
  }

  lemma CanonicalShape(path: string)
    requires Canonical(path)
    ensures OneLeadingSlash(path)
  {
    NormpathFixesCanonical(path);
  }

  lemma WalkedChars(path: string)
    requires OneLeadingSlash(Strip(path))
    ensures HasControl(Walked(path)) ==> HasControl(Strip(path))
  {
    hide Strip, Walk, Join, Split;
    NormpathWalks(Strip(path));
    NormpathChars(Strip(path));
  }

  /** So normalization is not idempotent: `/a /.` gives a path ending in a
      space, which normalizes to `/a`. */
  lemma TrailingSpaceIsNotFixed(lib: PathLibrary)
    requires LawfulNfc(lib) && lib.nfc("/a ") == "/a "
    ensures Normalize(lib, "/a /.") == Success("/a ")
    ensures Normalize(lib, "/a ") != Success("/a ")
  {
    hide IsSpace, Normpath, Normalize, HasControl, Canonical, LawfulNfc;
    ExampleWalk();
    StripExample();
    NormalizePosix(lib, "/a /.");
    var r := "/a ";
    assert "/" + "a " == r && r[|r| - 1] == ' ';
    ResultFixedUnlessTrailingSpace(lib, "/a /.");
  }

  lemma ExampleWalk()
    ensures Join(Walk([], Split("/a /.", '/')), '/') == "a "
  {
    var parts := ["", "a ", "."];
    assert parts[1..] == ["a ", "."] && parts[1..][1..] == ["."] && parts[1..][1..][1..] == [];
    assert Join(parts, '/') == "/a /.";
    SplitJoin(parts, '/');
    assert [] + ["a "] == ["a "];
  }

  lemma StripExample()
    ensures Strip("/a /.") == "/a /." && !HasControl("/a /.") && IsSpace(' ')
  {
    StripFixed("/a /.");
  }
}
