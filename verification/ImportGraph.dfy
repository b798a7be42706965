/** The repository inventory: resolving imported names to files, inverting the import relation, and the worklist
    that collects everything an entry point reaches. Files are ordered integers, module names text. */
module ImportGraph {
  import opened FiniteSums
  import opened Ordering

  type Path = int

  // ---- longest known prefix of a dotted name ----

  /** The text before the last dot, empty when there is none. */
  function BeforeLastDot(name: string): (head: string)
    ensures |head| <= |name|
    ensures name != "" ==> |head| < |name|
  {
    if name == "" then ""
    else if name[|name| - 1] == '.' then name[..|name| - 1]
    else BeforeLastDot(name[..|name| - 1])
  }

  /** p is name cut before one of its dots, or name itself. */
  ghost predicate DottedPrefix(p: string, name: string) {
    p <= name && (|p| == |name| || name[|p|] == '.')
  }

  /** Nothing lies between a name and the text before its last dot. */
  lemma {:induction false} NextPrefix(p: string, name: string)
    requires p != ""
    ensures DottedPrefix(p, name) && p != name <==> DottedPrefix(p, BeforeLastDot(name))
  {
    if name != "" {
      var init := name[..|name| - 1];
      if name[|name| - 1] == '.' {
        DotCut(p, name);
      } else {
        NextPrefix(p, init);
        LetterCut(p, name);
      }
    }
  }

  lemma DotCut(p: string, name: string)
    requires name != "" && name[|name| - 1] == '.'
    ensures DottedPrefix(p, name) && p != name <==> DottedPrefix(p, name[..|name| - 1])
  {
    if p <= name && |p| < |name| {
      assert p == name[..|name| - 1][..|p|];
    }
  }

  lemma LetterCut(p: string, name: string)
    requires name != "" && name[|name| - 1] != '.'
    ensures DottedPrefix(p, name) && p != name <==>
            DottedPrefix(p, name[..|name| - 1]) && p != name[..|name| - 1]
  {
    if p <= name && |p| < |name| {
      assert p == name[..|name| - 1][..|p|];
    }
  }

  /** The longest prefix of the imported name that is a known module; empty when there is none. */
  method ResolveName(imported: string, modules: map<string, Path>) returns (name: string)
    ensures name != "" ==> name in modules && DottedPrefix(name, imported)
    ensures forall p | p in modules && p != "" && DottedPrefix(p, imported) :: |p| <= |name|
    ensures name == Resolved(imported, modules)
  {
    name := imported;
    while name != "" && name !in modules
      invariant forall p | p != "" && DottedPrefix(p, name) :: DottedPrefix(p, imported)
      invariant forall p | p in modules && p != "" && DottedPrefix(p, imported) :: DottedPrefix(p, name)
      invariant Resolved(imported, modules) == Resolved(name, modules)
      decreases |name|
    {
      forall p | p != "" ensures DottedPrefix(p, name) && p != name <==> DottedPrefix(p, BeforeLastDot(name)) {
        NextPrefix(p, name);
      }
      name := BeforeLastDot(name);
    }
  }

  function Resolved(imported: string, modules: map<string, Path>): string
    decreases |imported|
  {
    if imported == "" || imported in modules then imported else Resolved(BeforeLastDot(imported), modules)
  }

  // ---- dependencies and their inverse ----

  datatype File = File(path: Path, imports: seq<string>)

  /** The files a list of imported names resolves to. */
  function Targets(imports: seq<string>, modules: map<string, Path>): set<Path> {
    if imports == [] then {} else
      var init, name := Targets(imports[..|imports| - 1], modules), Resolved(imports[|imports| - 1], modules);
      if name != "" && name in modules then init + {modules[name]} else init
  }

  function Users(users: map<Path, set<Path>>, p: Path): set<Path> {
    if p in users then users[p] else {}
  }

  /** The users index lists q under p exactly when q imports p. */
  ghost predicate IsInverse(users: map<Path, set<Path>>, dependencies: map<Path, set<Path>>) {
    forall p, q :: q in Users(users, p) <==> q in dependencies && p in dependencies[q]
  }

  /** after lists what users lists, and path under every resolved file. */
  ghost predicate UsersExtend(users: map<Path, set<Path>>, after: map<Path, set<Path>>, path: Path,
                              resolved: set<Path>) {
    forall p, q :: q in Users(after, p) <==> q in Users(users, p) || (q == path && p in resolved)
  }

  lemma AddUser(users: map<Path, set<Path>>, after: map<Path, set<Path>>, path: Path, resolved: set<Path>, target: Path)
    requires UsersExtend(users, after, path, resolved)
    ensures UsersExtend(users, after[target := Users(after, target) + {path}], path, resolved + {target})
  {
    var next := after[target := Users(after, target) + {path}];
    forall p, q ensures q in Users(next, p) <==> q in Users(users, p) || (q == path && p in resolved + {target}) {
      assert q in Users(next, p) <==> q in Users(after, p) || (p == target && q == path);
    }
  }

  lemma {:induction false} NextTarget(imports: seq<string>, modules: map<string, Path>, i: nat)
    requires i < |imports|
    ensures var name := Resolved(imports[i], modules);
      Targets(imports[..i + 1], modules) == Targets(imports[..i], modules)
                                            + if name != "" && name in modules then {modules[name]} else {}
  {
    assert imports[..i + 1][..i] == imports[..i];
  }

  method ResolveImports(file: File, modules: map<string, Path>, users: map<Path, set<Path>>)
    returns (resolved: set<Path>, after: map<Path, set<Path>>)
    ensures resolved == Targets(file.imports, modules)
    ensures UsersExtend(users, after, file.path, resolved)
  {
    resolved, after := {}, users;
    for i := 0 to |file.imports|
      invariant resolved == Targets(file.imports[..i], modules)
      invariant UsersExtend(users, after, file.path, resolved)
    {
      NextTarget(file.imports, modules, i);
      var name := ResolveName(file.imports[i], modules);
      if name != "" {
        var target := modules[name];
        AddUser(users, after, file.path, resolved, target);
        resolved := resolved + {target};
        after := after[target := Users(after, target) + {file.path}];
      }
    }
    assert file.imports[..|file.imports|] == file.imports;
  }

  function DependenciesOf(files: seq<File>, modules: map<string, Path>): map<Path, set<Path>> {
    if files == [] then map[] else
      var last := files[|files| - 1];
      DependenciesOf(files[..|files| - 1], modules)[last.path := Targets(last.imports, modules)]
  }

  function FilePaths(files: seq<File>): seq<Path> {
    seq(|files|, i requires 0 <= i < |files| => files[i].path)
  }

  lemma {:induction false} DependencyKeys(files: seq<File>, modules: map<string, Path>, p: Path)
    ensures p in DependenciesOf(files, modules) <==> p in FilePaths(files)
  {
    if files != [] {
      DependencyKeys(files[..|files| - 1], modules, p);
      assert FilePaths(files) == FilePaths(files[..|files| - 1]) + [files[|files| - 1].path];
    }
  }

  method Dependencies(files: seq<File>, modules: map<string, Path>)
    returns (dependencies: map<Path, set<Path>>, users: map<Path, set<Path>>)
    requires Distinct(FilePaths(files))
    ensures dependencies == DependenciesOf(files, modules)
    ensures IsInverse(users, dependencies)
  {
    dependencies, users := map[], map[];
    for i := 0 to |files|
      invariant dependencies == DependenciesOf(files[..i], modules)
      invariant IsInverse(users, dependencies)
    {
      assert files[..i + 1][..i] == files[..i];
      NewPath(files, modules, i);
      var resolved;
      resolved, users := ResolveImports(files[i], modules, users);
      dependencies := dependencies[files[i].path := resolved];
    }
    assert files[..|files|] == files;
  }

  lemma {:induction false} NewPath(files: seq<File>, modules: map<string, Path>, i: nat)
    requires Distinct(FilePaths(files)) && i < |files|
    ensures files[i].path !in DependenciesOf(files[..i], modules)
  {
    var paths := FilePaths(files);
    DependencyKeys(files[..i], modules, files[i].path);
    assert FilePaths(files[..i]) == paths[..i];
    assert paths[i] == files[i].path;
  }

  // ---- reachability ----

  datatype SourceRecord = SourceRecord(imports: seq<Path>, usesSql: bool, moduleEntry: bool, symbols: seq<string>)

  /** An installed command: its name and the file of its module, written as a module or as a package. */
  datatype EntryPoint = EntryPoint(name: int, asModule: Path, asPackage: Path)

  datatype Consumer = Consumer(
    installedAs: seq<int>, directImports: seq<Path>, reachable: seq<Path>, sqlAdapters: seq<Path>,
    persistence: seq<Path>, postgres: seq<Path>)

  /** What a file imports; files outside the source index import nothing. */
  function ImportsOf(source: map<Path, SourceRecord>, p: Path): seq<Path> {
    if p in source then source[p].imports else []
  }

  ghost predicate Edge(source: map<Path, SourceRecord>, a: Path, b: Path) {
    b in ImportsOf(source, a)
  }

  /** A chain of imports from one file to another. */
  ghost predicate IsChain(source: map<Path, SourceRecord>, chain: seq<Path>, a: Path, b: Path) {
    && chain != [] && chain[0] == a && chain[|chain| - 1] == b
    && forall i | 0 <= i < |chain| - 1 :: Edge(source, chain[i], chain[i + 1])
  }

  ghost predicate Reaches(source: map<Path, SourceRecord>, a: Path, b: Path) {
    exists chain :: IsChain(source, chain, a, b)
  }

  lemma ReachesItself(source: map<Path, SourceRecord>, a: Path)
    ensures Reaches(source, a, a)
  {
    assert IsChain(source, [a], a, a);
  }

  lemma ReachesOneMore(source: map<Path, SourceRecord>, a: Path, b: Path, c: Path)
    requires Reaches(source, a, b) && Edge(source, b, c)
    ensures Reaches(source, a, c)
  {
    var chain :| IsChain(source, chain, a, b);
    assert IsChain(source, chain + [c], a, c);
  }

  lemma ReachesTransitive(source: map<Path, SourceRecord>, a: Path, b: Path, c: Path)
    requires Reaches(source, a, b) && Reaches(source, b, c)
    ensures Reaches(source, a, c)
  {
    var chain :| IsChain(source, chain, b, c);
    AlongChain(source, a, chain, b, c);
  }

  lemma {:induction false} AlongChain(source: map<Path, SourceRecord>, a: Path, chain: seq<Path>, b: Path, c: Path)
    requires Reaches(source, a, b) && IsChain(source, chain, b, c)
    ensures Reaches(source, a, c)
    decreases |chain|
  {
    if |chain| > 1 {
      var init := chain[..|chain| - 1];
      assert IsChain(source, init, b, init[|init| - 1]);
      AlongChain(source, a, init, b, init[|init| - 1]);
      assert Edge(source, chain[|chain| - 2], chain[|chain| - 1]);
      ReachesOneMore(source, a, init[|init| - 1], c);
    }
  }

  /** A set that contains its root and everything its members import. */
  ghost predicate Closed(source: map<Path, SourceRecord>, s: set<Path>) {
    forall a, b | a in s && Edge(source, a, b) :: b in s
  }

  lemma {:induction false} ClosedContains(source: map<Path, SourceRecord>, s: set<Path>, chain: seq<Path>, a: Path,
                                          b: Path)
    requires Closed(source, s) && a in s && IsChain(source, chain, a, b)
    ensures b in s
    decreases |chain|
  {
    if |chain| > 1 {
      var init := chain[..|chain| - 1];
      assert IsChain(source, init, a, init[|init| - 1]);
      ClosedContains(source, s, init, a, init[|init| - 1]);
      assert Edge(source, chain[|chain| - 2], chain[|chain| - 1]);
    }
  }

  /** Every file the worklist could ever see. */
  ghost predicate IsUniverse(universe: set<Path>, source: map<Path, SourceRecord>, root: Path) {
    root in universe && forall a, b | Edge(source, a, b) :: b in universe
  }

  lemma UniverseExists(source: map<Path, SourceRecord>, root: Path) returns (universe: set<Path>)
    ensures IsUniverse(universe, source, root)
  {
    universe := {root} + set a, b | a in source && b in source[a].imports :: b;
  }

  ghost predicate Known(universe: set<Path>, source: map<Path, SourceRecord>, root: Path, p: Path) {
    p in universe && Reaches(source, root, p)
  }

  ghost predicate WorklistInvariant(universe: set<Path>, source: map<Path, SourceRecord>, root: Path, seen: set<Path>,
                                    pending: seq<Path>) {
    && (forall p | p in seen || p in pending :: Known(universe, source, root, p))
    && (root in seen || root in pending)
    && (forall a, b | a in seen && Edge(source, a, b) :: b in seen || b in pending)
  }

  lemma WorklistStart(universe: set<Path>, source: map<Path, SourceRecord>, root: Path)
    requires IsUniverse(universe, source, root)
    ensures WorklistInvariant(universe, source, root, {}, [root])
  {
    ReachesItself(source, root);
  }

  /** Popping a file already seen drops a duplicate. */
  lemma WorklistSkip(universe: set<Path>, source: map<Path, SourceRecord>, root: Path, seen: set<Path>,
                     rest: seq<Path>, p: Path)
    requires WorklistInvariant(universe, source, root, seen, rest + [p]) && p in seen
    ensures WorklistInvariant(universe, source, root, seen, rest)
  {
    assert forall q | q in rest :: q in rest + [p];
  }

  /** Popping a new file marks it and pushes all of its imports. */
  lemma WorklistVisit(universe: set<Path>, source: map<Path, SourceRecord>, root: Path, seen: set<Path>,
                      rest: seq<Path>, p: Path)
    requires IsUniverse(universe, source, root)
    requires WorklistInvariant(universe, source, root, seen, rest + [p]) && p !in seen
    ensures WorklistInvariant(universe, source, root, seen + {p}, rest + ImportsOf(source, p))
    ensures |universe - (seen + {p})| < |universe - seen|
  {
    var before, after := rest + [p], rest + ImportsOf(source, p);
    assert p in before;
    forall q | q in seen + {p} || q in after ensures Known(universe, source, root, q) {
      if q in ImportsOf(source, p) {
        ImportIsKnown(universe, source, root, p, q);
      } else {
        assert q in seen || q in before;
      }
    }
    forall a, b | a in seen + {p} && Edge(source, a, b) ensures b in seen + {p} || b in after {
      if a != p {
        assert b in seen || b in before;
      }
    }
    Shrinks(universe, seen, p);
  }

  lemma ImportIsKnown(universe: set<Path>, source: map<Path, SourceRecord>, root: Path, p: Path, q: Path)
    requires IsUniverse(universe, source, root)
    requires Known(universe, source, root, p) && q in ImportsOf(source, p)
    ensures Known(universe, source, root, q)
  {
    assert Edge(source, p, q);
    ReachesOneMore(source, root, p, q);
  }

  lemma Shrinks(universe: set<Path>, seen: set<Path>, p: Path)
    requires p in universe && p !in seen
    ensures |universe - (seen + {p})| < |universe - seen|
  {
    var left, before := universe - (seen + {p}), universe - seen;
    assert p in before && p !in left;
    SubsetCardinality(left, before);
  }

  lemma WorklistDone(universe: set<Path>, source: map<Path, SourceRecord>, root: Path, seen: set<Path>, p: Path)
    requires WorklistInvariant(universe, source, root, seen, [])
    ensures p in seen <==> Reaches(source, root, p)
  {
    if Reaches(source, root, p) {
      var chain :| IsChain(source, chain, root, p);
      assert Closed(source, seen);
      ClosedContains(source, seen, chain, root, p);
    }
  }

  /** The worklist of the source: a stack that may hold duplicates, and the set of files already expanded. */
  method Closure(source: map<Path, SourceRecord>, root: Path) returns (seen: set<Path>)
    ensures forall p :: p in seen <==> Reaches(source, root, p)
  {
    seen := {};
    var pending := [root];
    ghost var universe := UniverseExists(source, root);
    WorklistStart(universe, source, root);
    while pending != []
      invariant WorklistInvariant(universe, source, root, seen, pending)
      decreases |universe - seen|, |pending|
    {
      var dependency, rest := pending[|pending| - 1], pending[..|pending| - 1];
      assert pending == rest + [dependency];
      if dependency in seen {
        WorklistSkip(universe, source, root, seen, rest, dependency);
        pending := rest;
      } else {
        WorklistVisit(universe, source, root, seen, rest, dependency);
        seen := seen + {dependency};
        pending := rest + ImportsOf(source, dependency);
      }
    }
    forall p ensures p in seen <==> Reaches(source, root, p) {
      WorklistDone(universe, source, root, seen, p);
    }
  }

  // ---- executable roots ----

  predicate Contains(text: string, part: string) {
    part <= text || (text != "" && Contains(text[1..], part))
  }

  predicate EndsWith(text: string, part: string) {
    |part| <= |text| && text[|text| - |part|..] == part
  }

  /** The text after the last slash. */
  function LastComponent(text: string): string {
    if text == "" || text[|text| - 1] == '/' then "" else LastComponent(text[..|text| - 1]) + [text[|text| - 1]]
  }

  predicate InToolDirectory(text: string) {
    "scripts/" <= text || "historical_tools/" <= text || "tools/" <= text || "docs/operations/" <= text
  }

  predicate HasMain(symbols: seq<string>) {
    exists name :: name in symbols && (name == "main" || EndsWith(name, "_main"))
  }

  /** Files are told apart by number and named by a text. */
  predicate IsExecutable(source: map<Path, SourceRecord>, installed: set<Path>, text: Path -> string, p: Path) {
    p in source
    && (|| p in installed || source[p].moduleEntry
        || (InToolDirectory(text(p)) && !("_" <= LastComponent(text(p))))
        || ("src/market_regime_alpha/cli/" <= text(p) && HasMain(source[p].symbols)))
  }

  function InstalledFile(source: map<Path, SourceRecord>, e: EntryPoint): Path {
    if e.asModule in source then e.asModule else e.asPackage
  }

  /** Names of the commands installed from a file. */
  function InstalledNames(source: map<Path, SourceRecord>, entries: seq<EntryPoint>, p: Path): set<int> {
    set i | 0 <= i < |entries| && InstalledFile(source, entries[i]) == p :: entries[i].name
  }

  function InstalledFiles(source: map<Path, SourceRecord>, entries: seq<EntryPoint>): set<Path> {
    set i | 0 <= i < |entries| :: InstalledFile(source, entries[i])
  }

  /** The record of one executable root. */
  ghost predicate IsConsumer(source: map<Path, SourceRecord>, entries: seq<EntryPoint>,
                             text: Path -> string, root: Path,
                             c: Consumer)
  {
    && IsSortedSet(c.installedAs, InstalledNames(source, entries, root))
    && c.directImports == ImportsOf(source, root)
    && Increasing(c.reachable) && (forall p :: p in c.reachable <==> Reaches(source, root, p))
    && Increasing(c.sqlAdapters)
    && (forall p :: p in c.sqlAdapters <==> Reaches(source, root, p) && p in source && source[p].usesSql)
    && Increasing(c.persistence)
    && (forall p :: p in c.persistence <==> Reaches(source, root, p) && Contains(text(p), "/persistence/"))
    && Increasing(c.postgres)
    && (forall p :: p in c.postgres <==> Reaches(source, root, p) && Contains(text(p), "/infrastructure/postgres/"))
  }

  method ConsumerOf(source: map<Path, SourceRecord>, entries: seq<EntryPoint>, text: Path -> string, root: Path)
    returns (c: Consumer)
    ensures IsConsumer(source, entries, text, root, c)
  {
    var seen := Closure(source, root);
    c := Consumer(
      SortedSeq(InstalledNames(source, entries, root)), ImportsOf(source, root), SortedSeq(seen),
      SortedSeq(set p | p in seen && p in source && source[p].usesSql),
      SortedSeq(set p | p in seen && Contains(text(p), "/persistence/")),
      SortedSeq(set p | p in seen && Contains(text(p), "/infrastructure/postgres/")));
  }

  method ConsumerGraph(source: map<Path, SourceRecord>, entries: seq<EntryPoint>, text: Path -> string)
    returns (result: map<Path, Consumer>)
    ensures forall p :: p in result <==> IsExecutable(source, InstalledFiles(source, entries), text, p)
    ensures forall p | p in result :: IsConsumer(source, entries, text, p, result[p])
  {
    var installed := InstalledFiles(source, entries);
    var roots := SortedSeq(set p | p in source && IsExecutable(source, installed, text, p));
    result := map[];
    for i := 0 to |roots|
      invariant forall p :: p in result <==> p in roots[..i]
      invariant forall p | p in result :: IsConsumer(source, entries, text, p, result[p])
    {
      var c := ConsumerOf(source, entries, text, roots[i]);
      result := result[roots[i] := c];
    }
    assert roots[..|roots|] == roots;
  }

  // ---- what the closure means ----

  /** The closure is the least set that holds the root and is closed under imports. */
  lemma ClosureIsLeast(source: map<Path, SourceRecord>, root: Path, seen: set<Path>, s: set<Path>)
    requires forall p :: p in seen <==> Reaches(source, root, p)
    requires root in s && Closed(source, s)
    ensures root in seen && Closed(source, seen) && seen <= s
  {
    ReachesItself(source, root);
    forall a, b | a in seen && Edge(source, a, b) ensures b in seen {
      ReachesOneMore(source, root, a, b);
    }
    forall p | p in seen ensures p in s {
      var chain :| IsChain(source, chain, root, p);
      ClosedContains(source, s, chain, root, p);
    }
  }

  /** An entry point reaches everything that anything it reaches does; on an import cycle the closures agree. */
  lemma ClosuresNest(source: map<Path, SourceRecord>, a: Path, b: Path, fromA: set<Path>, fromB: set<Path>)
    requires forall p :: p in fromA <==> Reaches(source, a, p)
    requires forall p :: p in fromB <==> Reaches(source, b, p)
    ensures b in fromA <==> fromB <= fromA
    ensures a in fromB && b in fromA <==> fromA == fromB
  {
    ReachesItself(source, a);
    ReachesItself(source, b);
    if b in fromA {
      Nested(source, a, b, fromA, fromB);
    }
    if a in fromB {
      Nested(source, b, a, fromB, fromA);
    }
  }

  lemma Nested(source: map<Path, SourceRecord>, a: Path, b: Path, fromA: set<Path>, fromB: set<Path>)
    requires forall p :: p in fromA <==> Reaches(source, a, p)
    requires forall p :: p in fromB <==> Reaches(source, b, p)
    requires Reaches(source, a, b)
    ensures fromB <= fromA
  {
    forall p | p in fromB ensures p in fromA {
      ReachesTransitive(source, a, b, p);
    }
  }

  // ---- consumers are imports read backwards ----

  /** source indexes exactly the files of inSource, with their dependencies in sorted order. */
  ghost predicate Indexes(source: map<Path, SourceRecord>, dependencies: map<Path, set<Path>>, inSource: set<Path>) {
    && source.Keys == inSource
    && forall p | p in source :: p in dependencies && source[p].imports == SortedSeq(dependencies[p])
  }

  ghost predicate BackEdge(users: map<Path, set<Path>>, inSource: set<Path>, b: Path, a: Path) {
    a in Users(users, b) && a in inSource
  }

  /** A walk from b back to a over the users index, staying inside the source files. */
  ghost predicate IsBackChain(users: map<Path, set<Path>>, inSource: set<Path>, chain: seq<Path>, b: Path, a: Path) {
    && chain != [] && chain[0] == b && chain[|chain| - 1] == a
    && forall i | 0 <= i < |chain| - 1 :: BackEdge(users, inSource, chain[i], chain[i + 1])
  }

  function Reversed(s: seq<Path>): seq<Path> {
    seq(|s|, i requires 0 <= i < |s| => s[|s| - 1 - i])
  }

  lemma EdgeIsUser(users: map<Path, set<Path>>, dependencies: map<Path, set<Path>>, inSource: set<Path>,
                   source: map<Path, SourceRecord>, a: Path, b: Path)
    requires IsInverse(users, dependencies) && Indexes(source, dependencies, inSource)
    ensures Edge(source, a, b) <==> BackEdge(users, inSource, b, a)
  {
    if a in source {
      assert b in source[a].imports <==> b in dependencies[a];
    }
  }

  /** An entry point reaches a file exactly when that file's consumers, followed backwards, lead to the entry point. */
  lemma ReachesBackwards(users: map<Path, set<Path>>, dependencies: map<Path, set<Path>>, inSource: set<Path>,
                         source: map<Path, SourceRecord>, a: Path, b: Path)
    requires IsInverse(users, dependencies) && Indexes(source, dependencies, inSource)
    ensures Reaches(source, a, b) <==> exists chain :: IsBackChain(users, inSource, chain, b, a)
  {
    if Reaches(source, a, b) {
      var chain :| IsChain(source, chain, a, b);
      var back := Reversed(chain);
      forall i | 0 <= i < |back| - 1 ensures BackEdge(users, inSource, back[i], back[i + 1]) {
        assert Edge(source, chain[|chain| - 2 - i], chain[|chain| - 2 - i + 1]);
        EdgeIsUser(users, dependencies, inSource, source, back[i + 1], back[i]);
      }
      assert IsBackChain(users, inSource, back, b, a);
    }
    if exists chain :: IsBackChain(users, inSource, chain, b, a) {
      var back :| IsBackChain(users, inSource, back, b, a);
      var chain := Reversed(back);
      forall i | 0 <= i < |chain| - 1 ensures Edge(source, chain[i], chain[i + 1]) {
        var j := |back| - 2 - i;
        assert BackEdge(users, inSource, back[j], back[j + 1]);
        EdgeIsUser(users, dependencies, inSource, source, chain[i], chain[i + 1]);
      }
      assert IsChain(source, chain, a, b);
    }
  }
}
