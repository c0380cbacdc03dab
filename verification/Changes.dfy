/** What CI builds after a change (scripts/ci_changed_projects.py): the incremental selection
    against the full one. A path is its parts; the tree is the set of tracked files. */
module Changes {
  import opened Text

  type Path = seq<string>

  datatype Kind = Jvm | Dotnet | Go | Python | Cpp

  const KINDS: set<Kind> := {Jvm, Dotnet, Go, Python, Cpp}
  const EXAMPLES := "examples"
  const K8S_DIRS: set<string> := {"k8s", "openshift"}
  const INERT_DIRS: set<string> := {"db", "collections", "grafana", "otelcol"}

  predicate EndsWith(s: string, end: string) {
    |end| <= |s| && s[|s| - |end|..] == end
  }

  /** The file name that makes a directory a project of the kind. */
  predicate Marker(kind: Kind, name: string) {
    match kind
    case Jvm => name == "pom.xml"
    case Dotnet => EndsWith(name, ".csproj")
    case Go => name == "go.mod"
    case Python => name == "pyproject.toml"
    case Cpp => name == "conanfile.py"
  }

  function LangKinds(lang: string): set<Kind> {
    if lang == "spring-boot" || lang == "quarkus" then {Jvm}
    else if lang == "dotnet" then {Dotnet}
    else if lang == "go" then {Go}
    else if lang == "python" then {Python}
    else if lang == "cpp" then {Cpp}
    else {}
  }

  predicate Inert(name: string) {
    EndsWith(name, ".md") || EndsWith(name, ".svg") || EndsWith(name, ".excalidraw") || EndsWith(name, ".png")
  }

  predicate Under(f: Path, dir: Path) {
    |dir| < |f| && f[..|dir|] == dir
  }

  predicate IsRecipe(p: Path) {
    "conan-recipes" in p
  }

  /** `composeName` is the pattern of compose file names. */
  predicate IsCompose(f: Path, composeName: string -> bool) {
    f != [] && composeName(f[|f| - 1]) && !Under(f, [EXAMPLES, "_infra"])
  }

  predicate IsK8sScript(f: Path) {
    |f| >= 4 && f[2] in K8S_DIRS && EndsWith(f[|f| - 1], ".sh")
  }

  predicate IsScript(f: Path) {
    f != [] && (f[|f| - 1] == "verify.sh" || IsK8sScript(f))
  }

  function K8sDirs(files: set<Path>): set<Path> {
    set f | f in files && |f| >= 4 && f[0] == EXAMPLES && f[2] in K8S_DIRS :: f[..3]
  }

  function AllProjects(kind: Kind, files: set<Path>, under: Path): set<Path> {
    set f | f in files && Under(f, under) && Marker(kind, f[|f| - 1]) && !IsRecipe(f) :: f[..|f| - 1]
  }

  /** Something in the directory, a file or a directory, has the marker's name. */
  predicate IsProject(files: set<Path>, dir: Path, kind: Kind) {
    !IsRecipe(dir) && exists f :: f in files && Under(f, dir) && Marker(kind, f[|dir|])
  }

  datatype Selection = Selection(projects: set<(Kind, Path)>, compose: set<Path>, scripts: set<Path>, k8s: set<Path>)

  const NOTHING := Selection({}, {}, {}, {})

  function Join(a: Selection, b: Selection): Selection {
    Selection(a.projects + b.projects, a.compose + b.compose, a.scripts + b.scripts, a.k8s + b.k8s)
  }

  predicate Within(a: Selection, b: Selection) {
    a.projects <= b.projects && a.compose <= b.compose && a.scripts <= b.scripts && a.k8s <= b.k8s
  }

  function ProjectsUnder(kinds: set<Kind>, files: set<Path>, under: Path): set<(Kind, Path)> {
    set k, d | k in kinds && d in AllProjects(k, files, under) :: (k, d)
  }

  /** `select_everything`; the tracked files are those below examples. */
  function Everything(files: set<Path>, composeName: string -> bool): Selection {
    Selection(ProjectsUnder(KINDS, files, [EXAMPLES]),
              (set f | f in files && IsCompose(f, composeName)),
              (set f | f in files && IsScript(f)),
              K8sDirs(files))
  }

  // ---------------------------------------------------------------------- nearest_project

  /** The directories above a path that count as ancestors: not examples itself, not the root. */
  predicate Ancestor(path: Path, n: nat) {
    n < |path| && path[..n] !in {[], [EXAMPLES]}
  }

  /** The deepest ancestor that is a project. */
  ghost predicate Nearest(files: set<Path>, path: Path, kind: Kind, r: Option<Path>) {
    match r
    case Some(d) =>
      && Ancestor(path, |d|) && d == path[..|d|] && IsProject(files, d, kind)
      && forall n: nat :: |d| < n && Ancestor(path, n) ==> !IsProject(files, path[..n], kind)
    case None => forall n: nat :: Ancestor(path, n) ==> !IsProject(files, path[..n], kind)
  }

  /** `nearest_project`, for the paths it is called with. */
  method NearestProject(files: set<Path>, path: Path, kind: Kind) returns (r: Option<Path>)
    requires path != [] && (|path| > 1 ==> path[0] == EXAMPLES)
    ensures Nearest(files, path, kind, r)
    ensures r == NearestOf(files, path, kind)
  {
    var n := |path| - 1;
    while path[..n] !in {[], [EXAMPLES]}
      invariant 0 <= n < |path|
      invariant forall m: nat :: n < m && Ancestor(path, m) ==> !IsProject(files, path[..m], kind)
      invariant NearestOf(files, path, kind) == Search(files, path, kind, n)
      decreases n
    {
      if IsProject(files, path[..n], kind) { return Some(path[..n]); }
      n := n - 1;
    }
    assert |path[..n]| <= 1;
    assert forall m: nat :: m <= n ==> path[..m] == [] || m == n;
    r := None;
  }

  function Search(files: set<Path>, path: Path, kind: Kind, n: nat): Option<Path>
    requires n < |path|
  {
    if path[..n] in {[], [EXAMPLES]} then None
    else if IsProject(files, path[..n], kind) then Some(path[..n])
    else if n == 0 then None
    else Search(files, path, kind, n - 1)
  }

  function NearestOf(files: set<Path>, path: Path, kind: Kind): Option<Path>
    requires path != []
  {
    Search(files, path, kind, |path| - 1)
  }

  // ------------------------------------------------------------------ select_for_changes

  function NearestProjects(files: set<Path>, f: Path): set<(Kind, Path)>
    requires f != []
  {
    set k | k in KINDS && NearestOf(files, f, k).Some? :: (k, NearestOf(files, f, k).value)
  }

  /** The manifests a schema or a manifest is rendered into, where they exist. */
  function Rendered(files: set<Path>, f: Path, dirs: set<string>): set<Path>
    requires |f| >= 3
  {
    set d | d in dirs && [f[0], f[1], d] in K8sDirs(files) :: [f[0], f[1], d]
  }

  /** What one changed path selects. */
  function Selects(files: set<Path>, f: Path, composeName: string -> bool): Selection {
    if !Under(f, [EXAMPLES]) then NOTHING
    else
      var name, exist := f[|f| - 1], f in files;
      if IsCompose(f, composeName) then NOTHING.(compose := if exist then {f} else {})
      else if name == "verify.sh" then NOTHING.(scripts := if exist then {f} else {})
      else if |f| >= 4 && f[2] in K8S_DIRS then
        NOTHING.(scripts := if IsK8sScript(f) && exist then {f} else {},
                 k8s := if (IsK8sScript(f) && |f| == 4) || EndsWith(name, ".md") then {}
                        else Rendered(files, f, if f[2] == "k8s" then K8S_DIRS else {f[2]}))
      else
        var schema := NOTHING.(k8s := if |f| >= 4 && f[2] == "db" then Rendered(files, f, K8S_DIRS) else {});
        if Inert(name) || (|f| > 3 && exists i :: 2 <= i < |f| - 1 && f[i] in INERT_DIRS) then schema
        else
          var near := NearestProjects(files, f);
          if near != {} || |f| < 3 then schema.(projects := near)
          else if |f| > 3 && LangKinds(f[2]) != {} then
            schema.(projects := ProjectsUnder(LangKinds(f[2]), files, f[..3]))
          else schema.(projects := ProjectsUnder(KINDS, files, f[..2]))
  }

  function Selected(files: set<Path>, changed: seq<Path>, composeName: string -> bool): Selection {
    if changed == [] then NOTHING
    else Join(Selected(files, changed[..|changed| - 1], composeName),
              Selects(files, changed[|changed| - 1], composeName))
  }

  const KIND_LIST := [Jvm, Dotnet, Go, Python, Cpp]

  /** The loop over the kinds for one changed path. */
  method FindProjects(files: set<Path>, f: Path) returns (near: set<(Kind, Path)>)
    requires Under(f, [EXAMPLES])
    ensures near == NearestProjects(files, f)
  {
    hide Search, IsProject, Nearest;
    near := {};
    assert f[..1] == [EXAMPLES];
    for i := 0 to |KIND_LIST|
      invariant near == set k | k in KIND_LIST[..i] && NearestOf(files, f, k).Some? :: (k, NearestOf(files, f, k).value)
    {
      assert KIND_LIST[..i + 1] == KIND_LIST[..i] + [KIND_LIST[i]];
      var r := NearestProject(files, f, KIND_LIST[i]);
      if r.Some? { near := near + {(KIND_LIST[i], r.value)}; }
    }
    assert KIND_LIST[..|KIND_LIST|] == KIND_LIST;
    assert forall k :: k in KINDS <==> k in KIND_LIST;
  }

  /** The body of the loop over the changed paths. */
  method AddChange(files: set<Path>, f: Path, composeName: string -> bool, before: Selection) returns (sel: Selection)
    ensures sel == Join(before, Selects(files, f, composeName))
  {
    hide NearestProjects, Rendered, ProjectsUnder, Inert, EndsWith;
    sel := before;
    if !Under(f, [EXAMPLES]) { return; }
    var name, exist := f[|f| - 1], f in files;
    if IsCompose(f, composeName) {
      if exist { sel := sel.(compose := sel.compose + {f}); }
      return;
    }
    if name == "verify.sh" {
      if exist { sel := sel.(scripts := sel.scripts + {f}); }
      return;
    }
    if |f| >= 4 && f[2] == "db" {
      sel := sel.(k8s := sel.k8s + Rendered(files, f, K8S_DIRS));
    }
    if |f| >= 4 && f[2] in K8S_DIRS {
      var topLevelScript := IsK8sScript(f) && |f| == 4;
      if IsK8sScript(f) && exist { sel := sel.(scripts := sel.scripts + {f}); }
      if !topLevelScript && !EndsWith(name, ".md") {
        sel := sel.(k8s := sel.k8s + Rendered(files, f, if f[2] == "k8s" then K8S_DIRS else {f[2]}));
      }
      return;
    }
    if Inert(name) || (|f| > 3 && exists i :: 2 <= i < |f| - 1 && f[i] in INERT_DIRS) { return; }
    var near := FindProjects(files, f);
    sel := sel.(projects := sel.projects + near);
    if near != {} || |f| < 3 { return; }
    if |f| > 3 && LangKinds(f[2]) != {} {
      sel := sel.(projects := sel.projects + ProjectsUnder(LangKinds(f[2]), files, f[..3]));
    } else {
      sel := sel.(projects := sel.projects + ProjectsUnder(KINDS, files, f[..2]));
    }
  }

  /** `select_for_changes` */
  method SelectForChanges(files: set<Path>, changed: seq<Path>, composeName: string -> bool) returns (sel: Selection)
    ensures sel == Selected(files, changed, composeName) && Chosen(files, changed, composeName, sel)
  {
    hide Selects, Join, Chosen;
    SelectedMeans(files, changed, composeName);
    sel := NOTHING;
    for i := 0 to |changed|
      invariant sel == Selected(files, changed[..i], composeName)
    {
      assert changed[..i + 1][..i] == changed[..i];
      sel := AddChange(files, changed[i], composeName, sel);
    }
    assert changed[..|changed|] == changed;
  }

  lemma JoinAssoc(a: Selection, b: Selection, c: Selection)
    ensures Join(Join(a, b), c) == Join(a, Join(b, c))
  {
  }

  lemma JoinNothing(a: Selection)
    ensures Join(a, NOTHING) == a
  {
  }

  /** The incremental selection of two lists of changes is that of both together. */
  lemma {:induction false} Distributes(files: set<Path>, a: seq<Path>, b: seq<Path>, composeName: string -> bool)
    ensures Selected(files, a + b, composeName)
        == Join(Selected(files, a, composeName), Selected(files, b, composeName))
  {
    hide Selects, Join;
    JoinNothing(Selected(files, a, composeName));
    if b == [] {
      assert a + b == a;
    } else {
      var init, f := b[..|b| - 1], b[|b| - 1];
      Distributes(files, a, init, composeName);
      assert (a + b)[..|a| + |init|] == a + init;
      JoinAssoc(Selected(files, a, composeName), Selected(files, init, composeName), Selects(files, f, composeName));
    }
  }

  // ------------------------------------------------------------ the selection, member by member

  /** The projects that a language's directory holds. */
  ghost predicate Holds(lang: string, kind: Kind) {
    match kind
    case Jvm => lang in {"spring-boot", "quarkus"}
    case Dotnet => lang == "dotnet"
    case Go => lang == "go"
    case Python => lang == "python"
    case Cpp => lang == "cpp"
  }

  /** A changed file below examples that is neither a compose file nor a verify script. */
  ghost predicate Plain(f: Path, composeName: string -> bool) {
    Under(f, [EXAMPLES]) && !IsCompose(f, composeName) && f[|f| - 1] != "verify.sh"
  }

  /** A changed file for which projects are sought: no manifest and nothing that no build reads. */
  ghost predicate Seeks(f: Path, composeName: string -> bool) {
    && Plain(f, composeName) && !(|f| >= 4 && f[2] in {"k8s", "openshift"})
    && !EndsWith(f[|f| - 1], ".md") && !EndsWith(f[|f| - 1], ".svg")
    && !EndsWith(f[|f| - 1], ".excalidraw") && !EndsWith(f[|f| - 1], ".png")
    && forall i :: 2 <= i < |f| - 1 ==> f[i] !in {"db", "collections", "grafana", "otelcol"}
  }

  /** A tracked project file in `d`, below `root`. */
  ghost predicate Tracks(files: set<Path>, root: Path, kind: Kind, d: Path) {
    exists p :: p in files && Under(p, root) && Marker(kind, p[|p| - 1]) && !IsRecipe(p) && d == p[..|p| - 1]
  }

  ghost predicate IsNearest(files: set<Path>, f: Path, kind: Kind, d: Path) {
    Nearest(files, f, kind, Some(d))
  }

  /** A changed file builds the nearest project of each kind above it; if there is none of any kind,
      those of its language's directory, or else all of its example. */
  ghost predicate Builds(files: set<Path>, f: Path, kind: Kind, d: Path, composeName: string -> bool) {
    && Seeks(f, composeName)
    && if exists k, e :: IsNearest(files, f, k, e) then IsNearest(files, f, kind, d)
       else if |f| > 3 && exists k :: Holds(f[2], k) then Holds(f[2], kind) && Tracks(files, f[..3], kind, d)
       else |f| >= 3 && Tracks(files, f[..2], kind, d)
  }

  /** The schema is rendered into all manifests, those of k8s into openshift's too; notes and a script
      right beside the manifests into none. `d` has to hold tracked files. */
  ghost predicate Renders(files: set<Path>, f: Path, d: Path, composeName: string -> bool) {
    && Plain(f, composeName) && |f| >= 4 && |d| == 3 && d[..2] == f[..2] && d[2] in {"k8s", "openshift"}
    && (exists p :: p in files && |p| >= 4 && p[0] == "examples" && p[..3] == d)
    && (f[2] == "db"
        || ((f[2] == "k8s" || f[2] == d[2] == "openshift")
            && !EndsWith(f[|f| - 1], ".md") && !(|f| == 4 && EndsWith(f[|f| - 1], ".sh"))))
  }

  /** A changed script is checked if it is still there. */
  ghost predicate Checks(files: set<Path>, f: Path, composeName: string -> bool) {
    && f in files && Under(f, [EXAMPLES]) && !IsCompose(f, composeName)
    && (f[|f| - 1] == "verify.sh"
        || (|f| >= 4 && f[2] in {"k8s", "openshift"} && EndsWith(f[|f| - 1], ".sh")))
  }

  ghost predicate Validates(files: set<Path>, f: Path, composeName: string -> bool) {
    f in files && Under(f, [EXAMPLES]) && IsCompose(f, composeName)
  }

  lemma {:induction false} SearchNearest(files: set<Path>, f: Path, k: Kind, n: nat)
    requires n < |f| && Under(f, [EXAMPLES])
    requires forall m: nat :: n < m && Ancestor(f, m) ==> !IsProject(files, f[..m], k)
    ensures Nearest(files, f, k, Search(files, f, k, n))
  {
    hide IsProject;
    if f[..n] !in {[], [EXAMPLES]} && !IsProject(files, f[..n], k) {
      SearchNearest(files, f, k, n - 1);
    } else if f[..n] in {[], [EXAMPLES]} {
      forall m: nat | Ancestor(f, m) ensures n < m {
        assert f[..1] == [EXAMPLES];
      }
    }
  }

  lemma NearestIs(files: set<Path>, f: Path, k: Kind, d: Path)
    requires Under(f, [EXAMPLES])
    ensures NearestOf(files, f, k) == Some(d) <==> IsNearest(files, f, k, d)
  {
    SearchNearest(files, f, k, |f| - 1);
    hide IsProject, Search;
    var r := NearestOf(files, f, k);
    if IsNearest(files, f, k, d) {
      assert f[..|d|] == d;
      if r.Some? { assert f[..|r.value|] == r.value; }
    }
  }

  lemma NearIn(files: set<Path>, f: Path, k: Kind, d: Path)
    requires Under(f, [EXAMPLES])
    ensures (k, d) in NearestProjects(files, f) <==> IsNearest(files, f, k, d)
  {
    hide IsNearest, NearestOf;
    NearestIs(files, f, k, d);
    assert k in KINDS;
  }

  lemma LangIs(lang: string, k: Kind)
    ensures k in LangKinds(lang) <==> Holds(lang, k)
    ensures LangKinds(lang) != {} <==> exists h :: Holds(lang, h)
  {
    if h :| Holds(lang, h) { assert h in LangKinds(lang); }
    if h :| h in LangKinds(lang) { assert Holds(lang, h); }
  }

  lemma TracksIs(kinds: set<Kind>, files: set<Path>, root: Path, k: Kind, d: Path)
    ensures (k, d) in ProjectsUnder(kinds, files, root) <==> k in kinds && Tracks(files, root, k, d)
  {
    hide Marker, IsRecipe, Under;
    assert d in AllProjects(k, files, root) <==> Tracks(files, root, k, d);
  }

  lemma SeeksIs(f: Path, composeName: string -> bool)
    requires Under(f, [EXAMPLES])
    ensures Seeks(f, composeName) <==>
      && !IsCompose(f, composeName) && f[|f| - 1] != "verify.sh" && !(|f| >= 4 && f[2] in K8S_DIRS)
      && !(Inert(f[|f| - 1]) || (|f| > 3 && exists i :: 2 <= i < |f| - 1 && f[i] in INERT_DIRS))
  {
    hide IsCompose, EndsWith;
  }

  lemma ProjectsMean(files: set<Path>, f: Path, composeName: string -> bool, kind: Kind, d: Path)
    ensures (kind, d) in Selects(files, f, composeName).projects <==> Builds(files, f, kind, d, composeName)
  {
    hide IsCompose, Inert, NearestProjects, IsNearest, LangKinds, Holds, ProjectsUnder, Tracks, Rendered, IsK8sScript;
    if Under(f, [EXAMPLES]) {
      SeeksIs(f, composeName);
      hide Seeks;
      if Seeks(f, composeName) {
        forall k, e ensures (k, e) in NearestProjects(files, f) <==> IsNearest(files, f, k, e) {
          NearIn(files, f, k, e);
        }
        assert NearestProjects(files, f) != {} <==> exists k, e :: IsNearest(files, f, k, e) by {
          if x :| x in NearestProjects(files, f) { assert (x.0, x.1) in NearestProjects(files, f); }
        }
        if |f| > 3 {
          LangIs(f[2], kind);
          TracksIs(LangKinds(f[2]), files, f[..3], kind, d);
        }
        if |f| >= 3 { TracksIs(KINDS, files, f[..2], kind, d); }
        assert kind in KINDS;
      }
    }
  }

  lemma RendersMean(files: set<Path>, f: Path, composeName: string -> bool, d: Path)
    ensures d in Selects(files, f, composeName).k8s <==> Renders(files, f, d, composeName)
  {
    hide IsCompose, Inert, NearestProjects, LangKinds, ProjectsUnder, EndsWith;
    if Under(f, [EXAMPLES]) && |f| >= 4 {
      K8sIs(files, d);
      assert |d| == 3 && d[..2] == f[..2] <==> |d| == 3 && d == [f[0], f[1], d[2]];
      hide K8sDirs;
    }
  }

  lemma K8sIs(files: set<Path>, d: Path)
    ensures d in K8sDirs(files) <==> |d| == 3 && d[0] == EXAMPLES && d[2] in K8S_DIRS
                                     && exists p :: p in files && |p| >= 4 && p[0] == EXAMPLES && p[..3] == d
  {
    if p :| p in files && |p| >= 4 && p[0] == EXAMPLES && p[..3] == d && d[2] in K8S_DIRS {
      assert p[2] == p[..3][2];
    }
  }

  lemma FilesMean(files: set<Path>, f: Path, composeName: string -> bool, x: Path)
    ensures x in Selects(files, f, composeName).compose <==> x == f && Validates(files, f, composeName)
    ensures x in Selects(files, f, composeName).scripts <==> x == f && Checks(files, f, composeName)
  {
    hide IsCompose, Inert, NearestProjects, LangKinds, ProjectsUnder, EndsWith, Rendered;
  }

  /** What a list of changed paths selects, member by member. */
  ghost predicate Chosen(files: set<Path>, changed: seq<Path>, composeName: string -> bool, sel: Selection) {
    && (forall k, d :: (k, d) in sel.projects <==> exists f :: f in changed && Builds(files, f, k, d, composeName))
    && (forall d :: d in sel.k8s <==> exists f :: f in changed && Renders(files, f, d, composeName))
    && (forall f :: f in sel.scripts <==> f in changed && Checks(files, f, composeName))
    && (forall f :: f in sel.compose <==> f in changed && Validates(files, f, composeName))
  }

  lemma {:induction false} SelectedMeans(files: set<Path>, changed: seq<Path>, composeName: string -> bool)
    ensures Chosen(files, changed, composeName, Selected(files, changed, composeName))
  {
    hide Selects, Builds, Renders, Checks, Validates;
    if changed != [] {
      var init, f := changed[..|changed| - 1], changed[|changed| - 1];
      SelectedMeans(files, init, composeName);
      assert forall g :: g in changed <==> g in init || g == f by { assert changed == init + [f]; }
      forall k, d ensures (k, d) in Selects(files, f, composeName).projects <==> Builds(files, f, k, d, composeName) {
        ProjectsMean(files, f, composeName, k, d);
      }
      forall d ensures d in Selects(files, f, composeName).k8s <==> Renders(files, f, d, composeName) {
        RendersMean(files, f, composeName, d);
      }
      forall x ensures x in Selects(files, f, composeName).compose <==> x == f && Validates(files, f, composeName)
               ensures x in Selects(files, f, composeName).scripts <==> x == f && Checks(files, f, composeName)
      {
        FilesMean(files, f, composeName, x);
      }
    }
  }

  // ------------------------------------------------ the incremental against the full one

  /** A directory in which a changed file makes the incremental selection look for projects. */
  predicate Reaches(d: Path) {
    && |d| >= 2 && d[0] == EXAMPLES
    && (|d| > 2 ==> d[2] !in K8S_DIRS)
    && forall i :: 2 <= i < |d| ==> d[i] !in INERT_DIRS
  }

  /** Wherever such a directory holds something with a project file's name, it holds a
      tracked file with one. */
  ghost predicate MarkersAreFiles(files: set<Path>) {
    forall k, d :: Reaches(d) && IsProject(files, d, k) ==> d in AllProjects(k, files, [EXAMPLES])
  }

  /** A file name that no rule singles out. */
  predicate Ordinary(name: string, composeName: string -> bool) {
    !composeName(name) && name != "verify.sh" && !Inert(name)
  }

  lemma NearestWithin(files: set<Path>, f: Path, k: Kind, n: nat)
    requires MarkersAreFiles(files) && n < |f| && forall m :: 2 <= m <= n ==> Reaches(f[..m])
    requires f[0] == EXAMPLES
    ensures var r := Search(files, f, k, n); r.Some? ==> r.value in AllProjects(k, files, [EXAMPLES])
  {
    hide AllProjects, Reaches, IsProject;
    var d := f[..n];
    if n >= 2 && !IsProject(files, d, k) { NearestWithin(files, f, k, n - 1); }
    assert n == 1 ==> d == [EXAMPLES];
  }

  lemma NearestProjectsWithin(files: set<Path>, f: Path)
    requires MarkersAreFiles(files) && Under(f, [EXAMPLES])
    requires |f| >= 4 ==> f[2] !in K8S_DIRS && forall i :: 2 <= i < |f| - 1 ==> f[i] !in INERT_DIRS
    ensures NearestProjects(files, f) <= ProjectsUnder(KINDS, files, [EXAMPLES])
  {
    hide Search, MarkersAreFiles;
    assert f[..1][0] == EXAMPLES;
    forall k | k in KINDS && NearestOf(files, f, k).Some?
      ensures NearestOf(files, f, k).value in AllProjects(k, files, [EXAMPLES])
    {
      NearestWithin(files, f, k, |f| - 1);
    }
  }

  lemma ProjectsWithin(kinds: set<Kind>, files: set<Path>, under: Path)
    requires under != [] && under[0] == EXAMPLES && kinds <= KINDS
    ensures ProjectsUnder(kinds, files, under) <= ProjectsUnder(KINDS, files, [EXAMPLES])
  {
  }

  lemma SelectsWithin(files: set<Path>, f: Path, composeName: string -> bool)
    requires MarkersAreFiles(files)
    ensures Within(Selects(files, f, composeName), Everything(files, composeName))
  {
    hide Search, NearestProjects, ProjectsUnder, Inert, EndsWith, MarkersAreFiles;
    if Under(f, [EXAMPLES]) {
      assert f[..1] == [EXAMPLES];
      if |f| < 4 || (f[2] !in K8S_DIRS && forall i :: 2 <= i < |f| - 1 ==> f[i] !in INERT_DIRS) {
        NearestProjectsWithin(files, f);
      }
      if |f| >= 3 { ProjectsWithin(LangKinds(f[2]), files, f[..3]); }
      if |f| >= 2 { ProjectsWithin(KINDS, files, f[..2]); }
    }
  }

  lemma {:induction false} SelectedWithin(files: set<Path>, changed: seq<Path>, composeName: string -> bool)
    requires MarkersAreFiles(files)
    ensures Within(Selected(files, changed, composeName), Everything(files, composeName))
  {
    hide Selects, Everything, MarkersAreFiles;
    if changed != [] {
      SelectedWithin(files, changed[..|changed| - 1], composeName);
      SelectsWithin(files, changed[|changed| - 1], composeName);
    }
  }

  /** A change of an ordinary file in a directory that is taken for a project selects it. */
  lemma DirectorySelects(files: set<Path>, d: Path, k: Kind, name: string, composeName: string -> bool)
    requires Reaches(d) && IsProject(files, d, k) && Ordinary(name, composeName)
    ensures (k, d) in Selected(files, [d + [name]], composeName).projects
  {
    hide Inert, IsProject;
    var f := d + [name];
    assert f[..|d|] == d && f[..1] == [EXAMPLES] && f[2..|d|] == d[2..];
    assert NearestOf(files, f, k) == Some(d);
    assert (k, d) in NearestProjects(files, f);
    var changed := [f];
    assert changed[..0] == [] && changed[0] == f;
    hide NearestProjects, Search, NearestOf;
    assert Selects(files, f, composeName).projects == NearestProjects(files, f);
  }

  /** The incremental selection of every list of changes is part of the full one exactly when
      what is named like a project file, where changes look for projects, is a tracked file
      or stands beside one. */
  lemma WithinExactly(files: set<Path>, composeName: string -> bool, name: string)
    requires Ordinary(name, composeName)
    ensures (forall changed :: Within(Selected(files, changed, composeName), Everything(files, composeName)))
       <==> MarkersAreFiles(files)
  {
    hide Selected, IsProject, AllProjects, Reaches, Ordinary;
    if MarkersAreFiles(files) {
      forall changed ensures Within(Selected(files, changed, composeName), Everything(files, composeName)) {
        SelectedWithin(files, changed, composeName);
      }
    } else {
      var k, d :| Reaches(d) && IsProject(files, d, k) && d !in AllProjects(k, files, [EXAMPLES]);
      DirectorySelects(files, d, k, name, composeName);
      assert !Within(Selected(files, [d + [name]], composeName), Everything(files, composeName));
    }
  }

  /** No directory has the name of a project file. */
  ghost predicate PlainDirs(files: set<Path>) {
    forall f, i, k :: f in files && 0 <= i < |f| - 1 ==> !Marker(k, f[i])
  }

  /** That is more than enough. */
  lemma PlainDirsSuffice(files: set<Path>)
    requires PlainDirs(files)
    ensures MarkersAreFiles(files)
  {
    hide AllProjects, IsProject, PlainDirs;
    forall k, d | Reaches(d) && IsProject(files, d, k) ensures d in AllProjects(k, files, [EXAMPLES]) {
      ProjectWithin(files, d, k);
    }
  }

  lemma ProjectWithin(files: set<Path>, d: Path, k: Kind)
    requires PlainDirs(files) && IsProject(files, d, k) && |d| > 1 && d[0] == EXAMPLES
    ensures d in AllProjects(k, files, [EXAMPLES])
  {
    var g :| g in files && Under(g, d) && Marker(k, g[|d|]);
    assert |g| == |d| + 1;
    assert g[..|g| - 1] == d && g[0] == EXAMPLES && Under(g, [EXAMPLES]);
  }

  /** A directory with a project file's name where changes reach it, and one where none does. */
  lemma MarkerDirectory()
    ensures var files: set<Path> := {[EXAMPLES, "a", "go.mod", "x.txt"]};
            && !MarkersAreFiles(files)
            && (Go, [EXAMPLES, "a"]) in Selected(files, [[EXAMPLES, "a", "y.txt"]], (s: string) => false).projects
            && (Go, [EXAMPLES, "a"]) !in Everything(files, (s: string) => false).projects
    ensures var files: set<Path> := {[EXAMPLES, "a", "db", "pom.xml", "y"]}; !PlainDirs(files) && MarkersAreFiles(files)
  {
    MarkedProject();
    InertMarker();
    OrdinaryText();
    hide *;
    var files: set<Path> := {[EXAMPLES, "a", "go.mod", "x.txt"]};
    var f: Path := [EXAMPLES, "a"] + ["y.txt"];
    assert f == [EXAMPLES, "a", "y.txt"];
    DirectorySelects(files, [EXAMPLES, "a"], Go, "y.txt", (s: string) => false);
  }

  lemma OrdinaryText()
    ensures Ordinary("y.txt", (s: string) => false)
  {
  }

  lemma MarkedProject()
    ensures var files: set<Path> := {[EXAMPLES, "a", "go.mod", "x.txt"]};
            && !MarkersAreFiles(files) && Reaches([EXAMPLES, "a"]) && IsProject(files, [EXAMPLES, "a"], Go)
            && (Go, [EXAMPLES, "a"]) !in Everything(files, (s: string) => false).projects
  {
    var g: Path, d: Path := [EXAMPLES, "a", "go.mod", "x.txt"], [EXAMPLES, "a"];
    assert g[..2] == d && g[|d|] == "go.mod";
    assert IsProject({g}, d, Go) && d !in AllProjects(Go, {g}, [EXAMPLES]);
  }

  lemma InertMarker()
    ensures var files: set<Path> := {[EXAMPLES, "a", "db", "pom.xml", "y"]}; !PlainDirs(files) && MarkersAreFiles(files)
  {
    var g: Path := [EXAMPLES, "a", "db", "pom.xml", "y"];
    assert Marker(Jvm, g[3]);
    forall k, n | 2 <= n < |g| ensures !(Reaches(g[..n]) && Marker(k, g[n])) {
      if n > 2 { assert g[..n][2] == "db"; }
      assert !EndsWith("db", ".csproj");
    }
    forall k, d | Reaches(d) ensures !IsProject({g}, d, k) {
      if Under(g, d) { assert d == g[..|d|]; }
    }
  }
}
