/**
 Cleaning of the build context path and its place under the workspace. Paths are Unix path strings;
 components, push and pop are those of Rust's standard library.
 */
module BuildPaths {
  import opened Options
  import opened Strings

  // ---------------------------------------------------------------------------------------------
  // Components
  // ---------------------------------------------------------------------------------------------

  datatype Component = RootDir | CurDir | ParentDir | Normal(name: string)

  predicate IsAbsolute(path: string) {
    path != "" && path[0] == '/'
  }

  /** The pieces between slashes. */
  function Split(s: string): (r: seq<string>)
    ensures r != []
    ensures forall i :: 0 <= i < |r| ==> '/' !in r[i]
    decreases |s|
  {
    var k := IndexOf(s, '/');
    if k == |s| then [s] else [s[..k]] + Split(s[k + 1..])
  }

  /** A piece as a component: repeated slashes and inner "." pieces are skipped. */
  function PieceComponent(piece: string, first: bool): seq<Component> {
    if piece == "" then []
    else if piece == "." then (if first then [CurDir] else [])
    else if piece == ".." then [ParentDir]
    else [Normal(piece)]
  }

  function PieceComponents(pieces: seq<string>, first: bool): seq<Component> {
    if pieces == [] then []
    else PieceComponent(pieces[0], first) + PieceComponents(pieces[1..], false)
  }

  /** `Path::components` */
  function Components(path: string): seq<Component> {
    if IsAbsolute(path) then [RootDir] + PieceComponents(Split(path), false)
    else PieceComponents(Split(path), true)
  }

  // ---------------------------------------------------------------------------------------------
  // PathBuf
  // ---------------------------------------------------------------------------------------------

  /** `PathBuf::push` of a component or relative path; an absolute argument replaces the path. */
  function Push(path: string, other: string): string {
    if IsAbsolute(other) then other
    else if path != "" && path[|path| - 1] != '/' then path + "/" + other
    else path + other
  }

  function LastSlash(s: string): (k: Option<nat>)
    ensures k.Some? ==> k.value < |s| && s[k.value] == '/'
  {
    if s == "" then None
    else if s[|s| - 1] == '/' then Some(|s| - 1)
    else LastSlash(s[..|s| - 1])
  }

  /** `PathBuf::pop` of a path without trailing or repeated slashes, as pushing components builds it. */
  function Pop(path: string): string {
    var k := LastSlash(path);
    if path == "/" then path
    else if k.None? then ""
    else if k.value == 0 then "/"
    else path[..k.value]
  }

  // ---------------------------------------------------------------------------------------------
  // Clean paths
  // ---------------------------------------------------------------------------------------------

  predicate IsName(name: string) {
    name != "" && name != "." && name != ".." && '/' !in name
  }

  predicate AreNames(names: seq<string>) {
    forall i :: 0 <= i < |names| ==> IsName(names[i])
  }

  function Intercalate(names: seq<string>): string {
    if names == [] then ""
    else if |names| == 1 then names[0]
    else Intercalate(names[..|names| - 1]) + "/" + names[|names| - 1]
  }

  /** The clean path with these names. */
  function ToPath(rooted: bool, names: seq<string>): string {
    (if rooted then "/" else "") + Intercalate(names)
  }

  function Clean(names: seq<string>, c: Component): seq<string> {
    match c
    case ParentDir => if names == [] then [] else names[..|names| - 1]
    case Normal(name) => names + [name]
    case _ => names
  }

  /** The names that remain when every ".." removes the name before it. */
  function CleanAll(names: seq<string>, cs: seq<Component>): seq<string>
    decreases |cs|
  {
    if cs == [] then names else CleanAll(Clean(names, cs[0]), cs[1..])
  }

  function CleanNames(path: string): seq<string> {
    CleanAll([], Components(path))
  }

  lemma {:induction false} PiecesAreNames(pieces: seq<string>, first: bool)
    requires forall i :: 0 <= i < |pieces| ==> '/' !in pieces[i]
    ensures forall c :: c in PieceComponents(pieces, first) && c.Normal? ==> IsName(c.name)
    ensures RootDir !in PieceComponents(pieces, first)
  {
    if pieces != [] {
      PiecesAreNames(pieces[1..], false);
    }
  }

  lemma {:induction false} CleanKeepsNames(names: seq<string>, cs: seq<Component>)
    requires AreNames(names)
    requires forall c :: c in cs && c.Normal? ==> IsName(c.name)
    ensures AreNames(CleanAll(names, cs))
    decreases |cs|
  {
    if cs != [] {
      assert cs[0] in cs;
      CleanKeepsNames(Clean(names, cs[0]), cs[1..]);
    }
  }

  lemma CleanNamesAreNames(path: string)
    ensures AreNames(CleanNames(path))
  {
    PiecesAreNames(Split(path), !IsAbsolute(path));
    CleanKeepsNames([], Components(path));
  }

  // ---------------------------------------------------------------------------------------------
  // Clean paths and their components
  // ---------------------------------------------------------------------------------------------

  lemma {:induction false} SplitFirst(name: string, rest: string)
    requires '/' !in name
    ensures Split(name + "/" + rest) == [name] + Split(rest)
  {
    hide IndexOf;
    CutAtFirst(name, '/', rest);
  }

  lemma {:induction false} SplitAtSlash(a: string, b: string)
    ensures Split(a + "/" + b) == Split(a) + Split(b)
    decreases |a|
  {
    hide IndexOf, Split;
    var k := IndexOf(a, '/');
    if k == |a| {
      SplitFirst(a, b);
      SplitName(a);
    } else {
      var first, rest := a[..k], a[k + 1..];
      assert a == first + "/" + rest && a + "/" + b == first + "/" + (rest + "/" + b);
      SplitFirst(first, rest);
      SplitFirst(first, rest + "/" + b);
      SplitAtSlash(rest, b);
      assert [first] + Split(rest) + Split(b) == [first] + (Split(rest) + Split(b));
    }
  }

  lemma {:induction false} SplitName(name: string)
    requires '/' !in name
    ensures Split(name) == [name]
  {
  }

  lemma {:induction false} SplitClean(names: seq<string>)
    requires AreNames(names)
    ensures Split(Intercalate(names)) == if names == [] then [""] else names
  {
    if names != [] {
      var init, last := names[..|names| - 1], names[|names| - 1];
      SplitName(last);
      assert names == init + [last];
      if |names| > 1 {
        SplitClean(init);
        SplitAtSlash(Intercalate(init), last);
      }
    }
  }

  function Normals(names: seq<string>): seq<Component> {
    seq(|names|, i requires 0 <= i < |names| => Normal(names[i]))
  }

  lemma {:induction false} PiecesHead(piece: string, rest: seq<string>, first: bool)
    ensures PieceComponents([piece] + rest, first) == PieceComponent(piece, first) + PieceComponents(rest, false)
  {
    assert ([piece] + rest)[1..] == rest;
  }

  lemma NameIsComponent(name: string, first: bool)
    requires IsName(name)
    ensures PieceComponent(name, first) == [Normal(name)]
  {
  }

  lemma {:induction false} PiecesOfNames(names: seq<string>, first: bool)
    requires AreNames(names)
    ensures PieceComponents(names, first) == Normals(names)
    ensures PieceComponents([""] + names, first) == Normals(names)
    decreases |names|
  {
    PiecesHead("", names, first);
    assert [] + PieceComponents(names, false) == PieceComponents(names, false);
    if names != [] {
      hide PieceComponents, IsName;
      PiecesHead(names[0], names[1..], first);
      PiecesHead(names[0], names[1..], false);
      assert [names[0]] + names[1..] == names;
      NameIsComponent(names[0], first);
      NameIsComponent(names[0], false);
      PiecesOfNames(names[1..], false);
      assert Normals(names) == [Normal(names[0])] + Normals(names[1..]);
    }
  }

  /** The components of a clean path are the root, if any, and its names. */
  lemma ComponentsOfClean(rooted: bool, names: seq<string>)
    requires AreNames(names)
    ensures IsAbsolute(ToPath(rooted, names)) <==> rooted
    ensures Components(ToPath(rooted, names)) == (if rooted then [RootDir] else []) + Normals(names)
  {
    var s := Intercalate(names);
    SplitClean(names);
    PiecesOfNames(names, false);
    PiecesOfNames(names, true);
    IntercalateStarts(names);
    if rooted {
      assert ToPath(true, names) == "" + "/" + s;
      SplitAtSlash("", s);
      assert Split("") == [""];
      assert [""] + [""] == ["", ""] && ["", ""][1..] == [""] && [""][1..] == [];
    } else {
      assert ToPath(false, names) == s;
      assert [""][1..] == [];
    }
  }

  lemma {:induction false} IntercalateStarts(names: seq<string>)
    requires AreNames(names)
    ensures names == [] <==> Intercalate(names) == ""
    ensures names != [] ==> Intercalate(names)[0] != '/'
    ensures names != [] ==> Intercalate(names)[|Intercalate(names)| - 1] != '/'
  {
    if names != [] {
      assert '/' !in names[|names| - 1];
      if |names| > 1 {
        IntercalateStarts(names[..|names| - 1]);
      }
    }
  }

  // ---------------------------------------------------------------------------------------------
  // Pushing and popping
  // ---------------------------------------------------------------------------------------------

  lemma PushName(rooted: bool, names: seq<string>, name: string)
    requires AreNames(names) && IsName(name)
    ensures Push(ToPath(rooted, names), name) == ToPath(rooted, names + [name])
  {
    IntercalateStarts(names);
    assert (names + [name])[..|names|] == names;
    assert !IsAbsolute(name) by { assert name[0] in name; }
    if names == [] {
      assert "" + name == name;
    }
  }

  lemma {:induction false} LastSlashOf(prefix: string, name: string)
    requires '/' !in name
    ensures LastSlash(prefix + "/" + name) == Some(|prefix|)
    decreases |name|
  {
    var s := prefix + "/" + name;
    if name == "" {
      assert s == prefix + "/";
    } else {
      assert s[..|s| - 1] == prefix + "/" + name[..|name| - 1];
      assert s[|s| - 1] == name[|name| - 1] && name[|name| - 1] in name;
      LastSlashOf(prefix, name[..|name| - 1]);
    }
  }

  lemma {:induction false} NoSlash(name: string)
    requires '/' !in name
    ensures LastSlash(name) == None
    decreases |name|
  {
    if name != "" {
      assert name[|name| - 1] in name;
      NoSlash(name[..|name| - 1]);
    }
  }

  lemma PopName(rooted: bool, names: seq<string>)
    requires AreNames(names)
    ensures Pop(ToPath(rooted, names)) ==
            ToPath(rooted, if names == [] then [] else names[..|names| - 1])
  {
    var path := ToPath(rooted, names);
    if names != [] {
      var init, last := names[..|names| - 1], names[|names| - 1];
      IntercalateStarts(init);
      assert last != "";
      if init != [] {
        assert path == ToPath(rooted, init) + "/" + last;
        LastSlashOf(ToPath(rooted, init), last);
        assert path[..|ToPath(rooted, init)|] == ToPath(rooted, init);
      } else if rooted {
        assert path == "" + "/" + last;
        LastSlashOf("", last);
      } else {
        assert path == last;
        NoSlash(last);
      }
    } else if rooted {
      assert path == "/";
    } else {
      assert path == "";
    }
  }

  // ---------------------------------------------------------------------------------------------
  // normalize_path
  // ---------------------------------------------------------------------------------------------

  function Normalize(path: string): string {
    ToPath(IsAbsolute(path), CleanNames(path))
  }

  lemma {:induction false} CleanAllAppend(names: seq<string>, cs: seq<Component>, more: seq<Component>)
    ensures CleanAll(names, cs + more) == CleanAll(CleanAll(names, cs), more)
    decreases |cs|
  {
    if cs == [] {
      assert cs + more == more;
    } else {
      assert (cs + more)[1..] == cs[1..] + more;
      CleanAllAppend(Clean(names, cs[0]), cs[1..], more);
    }
  }

  lemma CleanStep(cs: seq<Component>, k: nat)
    requires k < |cs|
    ensures CleanAll([], cs[..k + 1]) == Clean(CleanAll([], cs[..k]), cs[k])
  {
    assert cs[..k + 1] == cs[..k] + [cs[k]];
    CleanAllAppend([], cs[..k], [cs[k]]);
    assert [cs[k]][1..] == [];
  }

  /** The clean path after the first `k` components. */
  function CleanedPrefix(path: string, k: nat): string
    requires k <= |Components(path)|
  {
    ToPath(IsAbsolute(path) && k > 0, CleanAll([], Components(path)[..k]))
  }

  /** What one pass of the loop below does to the path buffer. */
  lemma PushOrPop(path: string, k: nat)
    requires k < |Components(path)|
    ensures CleanedPrefix(path, k + 1) ==
            match Components(path)[k]
            case RootDir => Push(CleanedPrefix(path, k), "/")
            case CurDir => CleanedPrefix(path, k)
            case ParentDir => Pop(CleanedPrefix(path, k))
            case Normal(name) => Push(CleanedPrefix(path, k), name)
  {
    hide ToPath, Push, Pop, CleanAll, Components;
    var names := CleanAll([], Components(path)[..k]);
    var rooted := IsAbsolute(path) && k > 0;
    CleanStep(Components(path), k);
    RootComesFirst(path, k);
    PrefixNames(path, k);
    match Components(path)[k]
    case RootDir => PushRoot(names);
    case CurDir =>
    case ParentDir => PopName(rooted, names);
    case Normal(name) => PushName(rooted, names, name);
  }

  lemma PrefixNames(path: string, k: nat)
    requires k < |Components(path)|
    ensures AreNames(CleanAll([], Components(path)[..k]))
    ensures Components(path)[k].Normal? ==> IsName(Components(path)[k].name)
  {
    hide CleanAll, IsName, PieceComponents, Split;
    PiecesAreNames(Split(path), !IsAbsolute(path));
    assert Components(path)[k] in Components(path);
    assert forall c :: c in Components(path)[..k] ==> c in Components(path);
    CleanKeepsNames([], Components(path)[..k]);
  }

  lemma CleanedWhole(path: string)
    ensures CleanedPrefix(path, 0) == ""
    ensures CleanedPrefix(path, |Components(path)|) == Normalize(path)
  {
    assert Components(path)[..|Components(path)|] == Components(path);
  }

  /** `normalize_path`: pushes and pops the components of a path on a path buffer. */
  method NormalizePath(path: string) returns (normalized: string)
    ensures normalized == Normalize(path)
  {
    hide CleanedPrefix, Normalize, Components, Push, Pop;
    var components := Components(path);
    normalized := "";
    CleanedWhole(path);
    for k := 0 to |components|
      invariant normalized == CleanedPrefix(path, k)
    {
      PushOrPop(path, k);
      match components[k]
      case RootDir => normalized := Push(normalized, "/");
      case CurDir =>
      case ParentDir => normalized := Pop(normalized);
      case Normal(name) => normalized := Push(normalized, name);
    }
  }

  lemma RootComesFirst(path: string, k: nat)
    requires k < |Components(path)|
    ensures Components(path)[k] == RootDir <==> IsAbsolute(path) && k == 0
    ensures Components(path)[k] == RootDir ==> CleanAll([], Components(path)[..k]) == []
  {
    PiecesAreNames(Split(path), !IsAbsolute(path));
    if IsAbsolute(path) && k > 0 {
      assert Components(path)[k] == PieceComponents(Split(path), false)[k - 1];
    }
  }

  lemma PushRoot(names: seq<string>)
    ensures Push(ToPath(false, names), "/") == ToPath(true, [])
  {
  }

  /** A normalized path keeps its root, and its components are the root and plain names. */
  lemma NormalizedIsClean(path: string)
    ensures IsAbsolute(Normalize(path)) <==> IsAbsolute(path)
    ensures Components(Normalize(path)) ==
            (if IsAbsolute(path) then [RootDir] else []) + Normals(CleanNames(path))
    ensures AreNames(CleanNames(path))
  {
    CleanNamesAreNames(path);
    ComponentsOfClean(IsAbsolute(path), CleanNames(path));
  }

  lemma {:induction false} CleanAllOfNormals(names: seq<string>, more: seq<string>)
    ensures CleanAll(names, Normals(more)) == names + more
    decreases |more|
  {
    if more == [] {
      assert names + more == names;
    } else {
      assert Normals(more)[1..] == Normals(more[1..]);
      CleanAllOfNormals(names + [more[0]], more[1..]);
      assert names + more == names + [more[0]] + more[1..];
    }
  }

  lemma CleanNamesOfClean(rooted: bool, names: seq<string>)
    requires AreNames(names)
    ensures CleanNames(ToPath(rooted, names)) == names
  {
    ComponentsOfClean(rooted, names);
    CleanAllOfNormals([], names);
    if rooted {
      assert ([RootDir] + Normals(names))[1..] == Normals(names);
    } else {
      assert [] + Normals(names) == Normals(names);
    }
    assert [] + names == names;
  }

  lemma NormalizeIsIdempotent(path: string)
    ensures Normalize(Normalize(path)) == Normalize(path)
  {
    NormalizedIsClean(path);
    CleanNamesOfClean(IsAbsolute(path), CleanNames(path));
  }

  // ---------------------------------------------------------------------------------------------
  // Joining
  // ---------------------------------------------------------------------------------------------

  lemma {:induction false} PiecesAppend(a: seq<string>, b: seq<string>, first: bool)
    requires a != []
    ensures PieceComponents(a + b, first) == PieceComponents(a, first) + PieceComponents(b, false)
    decreases |a|
  {
    assert (a + b)[1..] == a[1..] + b;
    if |a| == 1 {
      assert a[1..] + b == b;
    } else {
      PiecesAppend(a[1..], b, false);
    }
  }

  /** Whether a first "." counts as a component makes no difference to cleaning. */
  lemma {:induction false} CurDirIsIgnored(names: seq<string>, pieces: seq<string>)
    ensures CleanAll(names, PieceComponents(pieces, true)) == CleanAll(names, PieceComponents(pieces, false))
  {
    if pieces != [] {
      var rest := PieceComponents(pieces[1..], false);
      if pieces[0] == "." {
        assert PieceComponents(pieces, true) == [CurDir] + rest;
        assert ([CurDir] + rest)[1..] == rest;
        assert PieceComponents(pieces, false) == rest;
      } else {
        assert PieceComponents(pieces, true) == PieceComponents(pieces, false);
      }
    }
  }

  /** The pieces of a path, cleaned without regard to root and ".". */
  lemma {:induction false} CleanNamesByPieces(path: string)
    ensures CleanNames(path) == CleanAll([], PieceComponents(Split(path), false))
  {
    CurDirIsIgnored([], Split(path));
    if IsAbsolute(path) {
      var rest := PieceComponents(Split(path), false);
      assert ([RootDir] + rest)[1..] == rest;
    }
  }

  lemma {:induction false} PiecesAtSlash(a: string, b: string)
    ensures PieceComponents(Split(a + "/" + b), false) ==
            PieceComponents(Split(a), false) + PieceComponents(Split(b), false)
  {
    hide PieceComponent;
    SplitAtSlash(a, b);
    PiecesAppend(Split(a), Split(b), false);
  }

  lemma {:induction false} PiecesOfJoin(p: string, q: string)
    requires !IsAbsolute(q)
    ensures PieceComponents(Split(Push(p, q)), false) ==
            PieceComponents(Split(p), false) + PieceComponents(Split(q), false)
  {
    NoPieces();
    hide Split, PieceComponents;
    if p == "" {
      assert p + q == q;
    } else if p[|p| - 1] == '/' {
      var init := p[..|p| - 1];
      assert p + q == init + "/" + q && p == init + "/" + "";
      PiecesAtSlash(init, q);
      PiecesAtSlash(init, "");
    } else {
      PiecesAtSlash(p, q);
    }
  }

  lemma NoPieces()
    ensures PieceComponents(Split(""), false) == []
  {
    assert [""][1..] == [];
  }

  /** Joining a relative path continues the cleaning where the first path stopped. */
  lemma {:induction false} CleanNamesOfJoin(p: string, q: string)
    requires !IsAbsolute(q)
    ensures CleanNames(Push(p, q)) == CleanAll(CleanNames(p), PieceComponents(Split(q), false))
    ensures IsAbsolute(Push(p, q)) <==> IsAbsolute(p)
  {
    CleanNamesByPieces(p);
    CleanNamesByPieces(Push(p, q));
    PiecesOfJoin(p, q);
    CleanAllAppend([], PieceComponents(Split(p), false), PieceComponents(Split(q), false));
    hide CleanAll, CleanNames, PieceComponents, Split;
  }

  /** Normalizing the first part of a joined path early makes no difference. */
  lemma NormalizeOfJoin(p: string, q: string)
    ensures Normalize(Push(p, q)) == Normalize(Push(Normalize(p), q))
  {
    hide Push, Components, CleanNames, ToPath;
    if IsAbsolute(q) {
      PushAbsolute(p, q);
      PushAbsolute(Normalize(p), q);
    } else {
      CleanNamesOfJoin(p, q);
      CleanNamesOfJoin(Normalize(p), q);
      NormalizedIsClean(p);
      CleanNamesOfClean(IsAbsolute(p), CleanNames(p));
    }
  }

  lemma PushAbsolute(p: string, q: string)
    requires IsAbsolute(q)
    ensures Push(p, q) == q
  {
  }

  // ---------------------------------------------------------------------------------------------
  // The workspace
  // ---------------------------------------------------------------------------------------------

  const WORKSPACE := "/workspace"

  /** `absolute_clean_path`, in the working directory `cwd`. */
  function AbsoluteCleanPath(path: string, cwd: string): string {
    Normalize(if IsAbsolute(path) then path else Push(cwd, path))
  }

  function Text(c: Component): string {
    match c
    case RootDir => "/"
    case CurDir => "."
    case ParentDir => ".."
    case Normal(name) => name
  }

  function Texts(cs: seq<Component>): seq<string> {
    seq(|cs|, i requires 0 <= i < |cs| => Text(cs[i]))
  }

  /** `Path::strip_prefix`, which compares component by component. */
  function StripPrefix(path: string, prefix: string): Option<string> {
    var cs, ps := Components(path), Components(prefix);
    if ps <= cs then Some(Intercalate(Texts(cs[|ps|..]))) else None
  }

  function TrimSlashes(s: string): string {
    if s != "" && s[0] == '/' then TrimSlashes(s[1..]) else s
  }

  /** `context_subdir_from_abs_path` */
  function ContextSubdir(absContext: string): Option<string> {
    var subdir := StripPrefix(absContext, WORKSPACE);
    if subdir.None? then None else Some(TrimSlashes(subdir.value))
  }

  lemma OneName(name: string)
    ensures Intercalate([name]) == name
  {
  }

  lemma WorkspaceIsName()
    ensures IsName("workspace") && AreNames(["workspace"])
  {
  }

  lemma WorkspaceComponents()
    ensures "/workspace" == ToPath(true, ["workspace"]) && AreNames(["workspace"])
    ensures Components("/workspace") == [RootDir, Normal("workspace")]
  {
    hide IsName, Intercalate, Components;
    WorkspaceIsName();
    OneName("workspace");
    assert "/" + "workspace" == "/workspace";
    ComponentsOfClean(true, ["workspace"]);
    assert [RootDir] + Normals(["workspace"]) == [RootDir, Normal("workspace")];
  }

  lemma TextsOfNormals(names: seq<string>)
    ensures Texts(Normals(names)) == names
  {
  }

  /** The subdirectory of a clean absolute path: the names after "workspace", if that is the first. */
  lemma SubdirOfClean(names: seq<string>)
    requires AreNames(names)
    ensures ContextSubdir(ToPath(true, names)) ==
            if names != [] && names[0] == "workspace" then Some(Intercalate(names[1..])) else None
  {
    hide Components, ToPath, Intercalate, Texts;
    WorkspaceComponents();
    ComponentsOfClean(true, names);
    var cs := [RootDir] + Normals(names);
    assert [RootDir, Normal("workspace")] <= cs <==> names != [] && names[0] == "workspace" by {
      if names != [] {
        assert cs[1] == Normal(names[0]);
      }
    }
    if names != [] && names[0] == "workspace" {
      assert cs[2..] == Normals(names[1..]);
      TextsOfNormals(names[1..]);
      IntercalateStarts(names[1..]);
    }
  }

  /** Taking off the first name of a clean path. */
  lemma {:induction false} IntercalateFirst(first: string, names: seq<string>)
    ensures Intercalate([first] + names) == if names == [] then first else first + "/" + Intercalate(names)
    decreases |names|
  {
    var all := [first] + names;
    if names != [] {
      assert all[..|all| - 1] == [first] + names[..|names| - 1];
      IntercalateFirst(first, names[..|names| - 1]);
    }
  }

  lemma BelowWorkspace(names: seq<string>, rest: string)
    requires AreNames(names) && ToPath(true, names) == "/workspace/" + rest
    ensures names != [] && names[0] == "workspace"
  {
    hide Intercalate, Split;
    assert Intercalate(names) == ToPath(true, names)[1..];
    assert Intercalate(names) == "workspace" + "/" + rest;
    SplitAtSlash("workspace", rest);
    assert '/' !in "workspace";
    SplitName("workspace");
    SplitClean(names);
  }

  /** Being component-wise under the workspace, for a clean path, as a property of its text. */
  lemma UnderWorkspaceText(names: seq<string>)
    requires AreNames(names)
    ensures names != [] && names[0] == "workspace" <==>
            ToPath(true, names) == "/workspace" || "/workspace/" <= ToPath(true, names)
  {
    hide Intercalate, CleanNames, IsName, Components;
    var path := ToPath(true, names);
    if names != [] && names[0] == "workspace" {
      assert names == ["workspace"] + names[1..];
      IntercalateFirst("workspace", names[1..]);
      assert "/" + ("workspace" + "/" + Intercalate(names[1..])) == "/workspace/" + Intercalate(names[1..]);
    }
    if path == "/workspace" {
      WorkspaceComponents();
      CleanNamesOfClean(true, names);
      CleanNamesOfClean(true, ["workspace"]);
    } else if "/workspace/" <= path {
      BelowWorkspace(names, path[11..]);
    }
  }

  /**
   The subdirectory of a build context: it exists exactly when the cleaned context is the workspace
   or below it, component by component; it is relative, holds no "..", and joining it back to the
   workspace gives the cleaned context.
   */
  lemma SubdirIsContained(context: string, cwd: string)
    requires cwd != "" && cwd[0] == '/'
    ensures var abs := AbsoluteCleanPath(context, cwd);
            var subdir := ContextSubdir(abs);
            && IsAbsolute(abs)
            && (subdir.Some? <==> abs == "/workspace" || "/workspace/" <= abs)
            && (subdir.Some? ==>
                  && !IsAbsolute(subdir.value)
                  && ParentDir !in Components(subdir.value)
                  && Normalize(Push("/workspace", subdir.value)) == abs)
  {
    var joined := if IsAbsolute(context) then context else Push(cwd, context);
    assert IsAbsolute(joined);
    var names := CleanNames(joined);
    NormalizedIsClean(joined);
    hide CleanNames, Normalize, Components, ContextSubdir, Push, Intercalate;
    assert AbsoluteCleanPath(context, cwd) == ToPath(true, names) by { NormalizeRooted(joined); }
    SubdirOfClean(names);
    UnderWorkspaceText(names);
    if names != [] && names[0] == "workspace" {
      RejoinSubdir(names);
    }
  }

  lemma NormalizeRooted(path: string)
    requires IsAbsolute(path)
    ensures Normalize(path) == ToPath(true, CleanNames(path))
  {
  }

  lemma RejoinSubdir(names: seq<string>)
    requires AreNames(names) && names != [] && names[0] == "workspace"
    ensures var subdir := Intercalate(names[1..]);
            && !IsAbsolute(subdir)
            && ParentDir !in Components(subdir)
            && Normalize(Push("/workspace", subdir)) == ToPath(true, names)
  {
    var rest := names[1..];
    var subdir := Intercalate(rest);
    assert ToPath(false, rest) == subdir;
    ComponentsOfClean(false, rest);
    WorkspaceComponents();
    hide Push, Components, Intercalate, ToPath, Normalize;
    CleanNamesOfJoin("/workspace", subdir);
    CleanNamesOfClean(true, ["workspace"]);
    SubdirPieces(rest);
    CleanAllOfNormals(["workspace"], rest);
    assert ["workspace"] + rest == names;
    NormalizeRooted(Push("/workspace", subdir));
  }

  lemma {:induction false} SubdirPieces(names: seq<string>)
    requires AreNames(names)
    ensures PieceComponents(Split(Intercalate(names)), false) == Normals(names)
  {
    SplitClean(names);
    PiecesOfNames(names, false);
    assert [""][1..] == [];
  }

  // ---------------------------------------------------------------------------------------------
  // The context as a walk from the working directory
  // ---------------------------------------------------------------------------------------------

  /** Walks along the pieces of a path: ".." goes up, empty pieces and "." stay, every other one goes down. */
  function Walk(names: seq<string>, pieces: seq<string>): seq<string>
    decreases |pieces|
  {
    if pieces == [] then names
    else if pieces[0] == "" || pieces[0] == "." then Walk(names, pieces[1..])
    else if pieces[0] == ".." then Walk(if names == [] then [] else names[..|names| - 1], pieces[1..])
    else Walk(names + [pieces[0]], pieces[1..])
  }

  lemma {:induction false} SplitOnce(s: string)
    requires '/' in s
    ensures var k := IndexOf(s, '/'); k < |s| && s[k] == '/' && Split(s) == [s[..k]] + Split(s[k + 1..])
  {
    hide IndexOf;
  }

  /** The pieces of a text are those between its slashes. */
  lemma {:induction false} SplitJoins(s: string)
    ensures Intercalate(Split(s)) == s
    decreases |s|
  {
    hide IndexOf, Split, Intercalate;
    if '/' in s {
      SplitOnce(s);
      var k := IndexOf(s, '/');
      SplitJoins(s[k + 1..]);
      IntercalateFirst(s[..k], Split(s[k + 1..]));
      assert s == s[..k] + "/" + s[k + 1..];
    } else {
      SplitName(s);
      OneName(s);
    }
  }

  lemma {:induction false} CleaningIsWalking(names: seq<string>, pieces: seq<string>)
    ensures CleanAll(names, PieceComponents(pieces, false)) == Walk(names, pieces)
    decreases |pieces|
  {
    if pieces != [] {
      var piece, rest := pieces[0], PieceComponents(pieces[1..], false);
      CleanAllAppend(names, PieceComponent(piece, false), rest);
      hide PieceComponents;
      CleaningIsWalking(CleanAll(names, PieceComponent(piece, false)), pieces[1..]);
      CleanPiece(names, piece);
    }
  }

  lemma {:induction false} CleanPiece(names: seq<string>, piece: string)
    ensures CleanAll(names, PieceComponent(piece, false)) ==
            if piece == "" || piece == "." then names
            else if piece == ".." then (if names == [] then [] else names[..|names| - 1])
            else names + [piece]
  {
    assert PieceComponent(piece, false) != [] ==> PieceComponent(piece, false)[1..] == [];
  }

  /**
   The cleaned context, for every context and every absolute working directory: the names that a walk
   from the root along the working directory and then along the context reaches. An absolute context
   starts at the root, wherever the plugin runs.
   */
  lemma {:induction false} ContextIsWalked(context: string, cwd: string)
    requires cwd != "" && cwd[0] == '/'
    ensures AbsoluteCleanPath(context, cwd) ==
            ToPath(true, if context != "" && context[0] == '/' then Walk([], Split(context))
                         else Walk(Walk([], Split(cwd)), Split(context)))
  {
    hide CleanAll, PieceComponents, Split, ToPath, Push;
    if context != "" && context[0] == '/' {
      CleanNamesByPieces(context);
      CleaningIsWalking([], Split(context));
    } else {
      CleanNamesOfJoin(cwd, context);
      CleanNamesByPieces(cwd);
      CleaningIsWalking([], Split(cwd));
      CleaningIsWalking(CleanNames(cwd), Split(context));
    }
  }

  lemma {:induction false} WalkAppend(names: seq<string>, pieces: seq<string>, piece: string)
    ensures Walk(names, pieces + [piece]) == Walk(Walk(names, pieces), [piece])
    decreases |pieces|
  {
    if pieces == [] {
      assert [] + [piece] == [piece];
    } else {
      assert (pieces + [piece])[1..] == pieces[1..] + [piece];
      var next := if pieces[0] == "" || pieces[0] == "." then names
                  else if pieces[0] == ".." then (if names == [] then [] else names[..|names| - 1])
                  else names + [pieces[0]];
      WalkAppend(next, pieces[1..], piece);
    }
  }

  lemma {:induction false} WalkNames(names: seq<string>, more: seq<string>)
    requires AreNames(more)
    ensures Walk(names, more) == names + more
    decreases |more|
  {
    if more == [] {
      assert names + more == names;
    } else {
      WalkNames(names + [more[0]], more[1..]);
      assert names + [more[0]] + more[1..] == names + more;
    }
  }

  lemma {:induction false} WalkPiece(names: seq<string>, piece: string)
    ensures Walk(names, [piece]) ==
            if piece == "" || piece == "." then names
            else if piece == ".." then (if names == [] then [] else names[..|names| - 1])
            else names + [piece]
  {
    assert [piece][1..] == [];
  }

  /** One more piece behind a slash: ".." takes off the last name, "." and nothing change nothing, a name is added. */
  lemma {:induction false} OneMorePiece(context: string, cwd: string, piece: string) returns (names: seq<string>)
    requires cwd != "" && cwd[0] == '/' && context != "" && '/' !in piece
    ensures AbsoluteCleanPath(context, cwd) == ToPath(true, names)
    ensures AbsoluteCleanPath(context + "/" + piece, cwd) ==
            ToPath(true, if piece == "" || piece == "." then names
                         else if piece == ".." then (if names == [] then [] else names[..|names| - 1])
                         else names + [piece])
  {
    hide AbsoluteCleanPath, ToPath, Walk;
    var longer := context + "/" + piece;
    var start := if context[0] == '/' then [] else Walk([], Split(cwd));
    names := Walk(start, Split(context));
    assert longer[0] == context[0];
    ContextIsWalked(context, cwd);
    ContextIsWalked(longer, cwd);
    SplitAtSlash(context, piece);
    SplitName(piece);
    WalkAppend(start, Split(context), piece);
    WalkPiece(names, piece);
    hide Split;
  }

  lemma {:induction false} WalkClean(names: seq<string>, rooted: bool, more: seq<string>)
    requires AreNames(more)
    ensures Walk(names, Split(ToPath(rooted, more))) == names + more
  {
    var s := Intercalate(more);
    SplitClean(more);
    WalkNames(names, more);
    if rooted {
      assert ToPath(true, more) == "" + "/" + s;
      SplitAtSlash("", s);
      assert Split("") == [""];
      WalkFirst(names, Split(s));
    } else {
      assert ToPath(false, more) == s;
    }
    if more == [] {
      WalkNothing(names);
    }
  }

  lemma {:induction false} WalkFirst(names: seq<string>, pieces: seq<string>)
    ensures Walk(names, [""] + pieces) == Walk(names, pieces)
  {
    assert ([""] + pieces)[1..] == pieces;
  }

  lemma {:induction false} WalkNothing(names: seq<string>)
    ensures Walk(names, [""]) == names
  {
    assert [""][1..] == [];
  }

  /**
   From a clean working directory with names `ns`, the relative context with names `ms` is the absolute
   one with all these names, and its subdirectory is what follows "workspace" in them.
   */
  lemma RelativeContext(ns: seq<string>, ms: seq<string>)
    requires AreNames(ns) && AreNames(ms)
    ensures AbsoluteCleanPath(ToPath(false, ms), ToPath(true, ns)) == ToPath(true, ns + ms)
    ensures ContextSubdir(AbsoluteCleanPath(ToPath(false, ms), ToPath(true, ns))) ==
            if ns + ms != [] && (ns + ms)[0] == "workspace" then Some(Intercalate((ns + ms)[1..])) else None
  {
    hide Intercalate, ContextSubdir, AbsoluteCleanPath, Walk, Split;
    ComponentsOfClean(false, ms);
    ContextIsWalked(ToPath(false, ms), ToPath(true, ns));
    WalkClean([], true, ns);
    assert [] + ns == ns;
    WalkClean(ns, false, ms);
    SubdirOfClean(ns + ms);
  }

  /** Another first name yields no subdirectory, even when it starts with "workspace". */
  lemma SiblingIsNotContained(name: string, rest: seq<string>)
    requires IsName(name) && name != "workspace" && AreNames(rest)
    ensures ContextSubdir(ToPath(true, [name] + rest)) == None
  {
    hide ContextSubdir, ToPath, IsName;
    SubdirOfClean([name] + rest);
  }
}
