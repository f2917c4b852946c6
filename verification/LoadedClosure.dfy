/** What an import statement loads, against what the version sees (proptex/cache.py). */
module LoadedClosure {
  // Importing `a.b` also runs the packages on the way to it, `from p import m` also loads
  // `m` when it is a submodule of `p`, and a package goes before a module file of the same
  // name. `source_version` resolves the named module alone, the module file first.

  import opened Basics
  import opened Connectivity
  import opened SourceVersion

  // ---- How the interpreter finds a name ----

  /** The packages on the way to a dotted name, outermost first. */
  function Packages(dotted: string, n: nat): seq<string>
    requires n <= |dotted|
  {
    if n == 0 then []
    else if dotted[n-1] == '.' then Packages(dotted, n-1) + [dotted[..n-1]]
    else Packages(dotted, n-1)
  }

  predicate IsPackage(t: Tree, dotted: string) { Slashes(dotted) + "/__init__.py" in t.files }

  predicate IsModule(t: Tree, dotted: string) { Slashes(dotted) + ".py" in t.files }

  /** A package, or a plain directory, may hold submodules; a module file may not. */
  predicate Enterable(t: Tree, dotted: string) { IsPackage(t, dotted) || !IsModule(t, dotted) }

  /** The file a name loads: a package before a module file, through enterable packages. */
  function Found(t: Tree, dotted: string): Option<Path>
  {
    if exists p :: p in Packages(dotted, |dotted|) && !Enterable(t, p) then None
    else if IsPackage(t, dotted) then Some(Slashes(dotted) + "/__init__.py")
    else if IsModule(t, dotted) then Some(Slashes(dotted) + ".py")
    else None
  }

  /** The place of the last `c` below `n`. */
  function LastOf(s: string, c: char, n: nat): (k: Option<nat>)
    requires n <= |s|
    ensures k.Some? ==> k.value < n && s[k.value] == c && forall i :: k.value < i < n ==> s[i] != c
    ensures k.None? ==> forall i :: 0 <= i < n ==> s[i] != c
  {
    if n == 0 then None else if s[n-1] == c then Some(n-1) else LastOf(s, c, n-1)
  }

  function Dots(path: string): string
  {
    seq(|path|, i requires 0 <= i < |path| => if path[i] == '/' then '.' else path[i])
  }

  /** The package a file belongs to; the empty name outside any. */
  function PackageOf(f: Path): string
  {
    match LastOf(f, '/', |f|)
    case None => ""
    case Some(k) => Dots(f[..k])
  }

  /** `n` packages further out; `None` beyond the outermost. */
  function Outward(package: string, n: nat): Option<string>
  {
    if n == 0 then Some(package)
    else
      match LastOf(package, '.', |package|)
      case None => None
      case Some(k) => Outward(package[..k], n-1)
  }

  /** The module a from-import in file `f` names. */
  function Target(f: Path, package: Option<string>, level: nat): Option<string>
  {
    if level == 0 then package
    else if PackageOf(f) == "" then None
    else
      match Outward(PackageOf(f), level-1)
      case None => None
      case Some(base) => Some(if package.Some? then base + "." + package.value else base)
  }

  // ---- What these name ----

  /** The packages on the way are the name cut off at each of its dots. */
  lemma {:induction false} PackagesAre(dotted: string, n: nat, p: string)
    requires n <= |dotted|
    ensures p in Packages(dotted, n) <==> exists k :: 0 <= k < n && dotted[k] == '.' && p == dotted[..k]
  {
    if n > 0 {
      PackagesAre(dotted, n-1, p);
    }
  }

  lemma LastOfCut(s: string, c: char, tail: string)
    requires c !in tail
    ensures LastOf(s + [c] + tail, c, |s| + 1 + |tail|) == Some(|s|)
  {
    var all := s + [c] + tail;
    assert all[|s|] == c;
    forall i | |s| < i < |all|
      ensures all[i] != c
    {
      assert all[i] == tail[i - |s| - 1];
    }
  }

  /** A file belongs to the package its directory spells, and a level of dots goes one
      directory out. */
  lemma PackageOfIs(directory: string, file: string, package: string, name: string, n: nat)
    requires '/' !in file && '.' !in name
    ensures PackageOf(file) == "" && PackageOf(directory + "/" + file) == Dots(directory)
    ensures Outward(package + "." + name, n + 1) == Outward(package, n)
    ensures Outward(name, n + 1) == None && Outward(name, 0) == Some(name)
  {
    LastOfCut(directory, '/', file);
    LastOfCut(package, '.', name);
    assert (directory + "/" + file)[..|directory|] == directory;
    assert (package + "." + name)[..|package|] == package;
    assert file[..|file|] == file && name[..|name|] == name;
  }

  lemma DotsAre(a: string, b: string)
    ensures '/' !in a ==> Dots(a) == a
    ensures Dots(a + "/" + b) == Dots(a) + "." + Dots(b)
  {
  }

  /** Every name a statement of file `f` looks up. */
  ghost predicate LoadsName(f: Path, s: Statement, name: string)
  {
    match s
    case Import(names) => exists d :: d in names && (name == d || name in Packages(d, |d|))
    case FromImport(package, names, level) =>
      Target(f, package, level).Some? && var d := Target(f, package, level).value;
        name == d || name in Packages(d, |d|) || exists n :: n in names && name == d + "." + n
  }

  ghost predicate Loads(t: Tree, f: Path, g: Path)
  {
    var statements := Statements(t, f);
    statements.Some? && exists s, name :: s in statements.value && LoadsName(f, s, name) && Found(t, name) == Some(g)
  }

  ghost function LoadEdge(t: Tree): (Path, Path) -> bool { (f: Path, g: Path) => Loads(t, f, g) }

  /** Every file that running the entry loads. */
  ghost function Loaded(t: Tree, entry: Path): set<Path>
  {
    Component(LoadEdge(t), t.files.Keys, entry)
  }

  lemma LoadedStep(t: Tree, entry: Path, f: Path, g: Path)
    requires f in Loaded(t, entry) && Loads(t, f, g)
    ensures g in Loaded(t, entry)
  {
    ConnectedStep(LoadEdge(t), t.files.Keys, entry, f, g);
  }

  // ---- Nothing missed ----

  /** What a closure file that runs loads is itself in the closure. */
  ghost predicate NamesAll(t: Tree, entry: Path)
  {
    forall f, g :: f in Closure(t, entry) && f in Loaded(t, entry) && Loads(t, f, g) ==> g in Closure(t, entry)
  }

  /** The closure misses nothing that is loaded exactly when its files that run name
      everything they load. */
  lemma ClosureCompleteIff(t: Tree, entry: Path)
    requires entry in t.files
    ensures Loaded(t, entry) <= Closure(t, entry) <==> NamesAll(t, entry)
  {
    var both := Closure(t, entry) * Loaded(t, entry);
    ConnectedSelf(Edge(t), t.files.Keys, entry);
    ConnectedSelf(LoadEdge(t), t.files.Keys, entry);
    if NamesAll(t, entry) {
      forall f, g | f in both && g in t.files && Loads(t, f, g)
        ensures g in both
      {
        LoadedStep(t, entry, f, g);
      }
      ComponentLeast(LoadEdge(t), t.files.Keys, entry, both);
    } else if Loaded(t, entry) <= Closure(t, entry) {
      var f, g :| f in Closure(t, entry) && f in Loaded(t, entry) && Loads(t, f, g) && g !in Closure(t, entry);
      LoadedStep(t, entry, f, g);
    }
  }

  // ---- Nothing extra ----

  /** What a loaded file resolves to is itself loaded. */
  ghost predicate ResolvesLoaded(t: Tree, entry: Path)
  {
    forall f, g :: f in Closure(t, entry) && f in Loaded(t, entry) && Imports(t, f, g) ==> g in Loaded(t, entry)
  }

  /** The closure holds nothing that is not loaded exactly when every import of a file that
      runs resolves to a file that is loaded. */
  lemma ClosureIsLoadedIff(t: Tree, entry: Path)
    requires entry in t.files
    ensures Closure(t, entry) <= Loaded(t, entry) <==> ResolvesLoaded(t, entry)
  {
    var both := Closure(t, entry) * Loaded(t, entry);
    ConnectedSelf(Edge(t), t.files.Keys, entry);
    ConnectedSelf(LoadEdge(t), t.files.Keys, entry);
    if ResolvesLoaded(t, entry) {
      forall f, g | f in both && g in t.files && Imports(t, f, g)
        ensures g in both
      {
        ClosureStep(t, entry, f, g);
      }
      ComponentLeast(Edge(t), t.files.Keys, entry, both);
    } else if Closure(t, entry) <= Loaded(t, entry) {
      var f, g :| f in Closure(t, entry) && f in Loaded(t, entry) && Imports(t, f, g) && g !in Loaded(t, entry);
      ClosureStep(t, entry, f, g);
    }
  }

  /** No module file shares its name with a directory. */
  ghost predicate Unshadowed(t: Tree)
  {
    forall d, g :: IsModule(t, d) && g in t.files ==> !(Slashes(d) + "/" <= g)
  }

  lemma {:induction false} PackageForm(dotted: string, n: nat, p: string) returns (k: nat)
    requires n <= |dotted| && p in Packages(dotted, n)
    ensures k < n && dotted[k] == '.' && p == dotted[..k]
  {
    if dotted[n-1] == '.' && p == dotted[..n-1] {
      k := n - 1;
    } else {
      k := PackageForm(dotted, n-1, p);
    }
  }

  lemma SlashesCut(dotted: string, k: nat)
    requires k < |dotted| && dotted[k] == '.'
    ensures Slashes(dotted[..k]) + "/" == Slashes(dotted)[..k+1]
  {
  }

  lemma PrefixCut(a: string, g: string, n: nat)
    requires a <= g && n <= |a|
    ensures a[..n] <= g
  {
    assert a == g[..|a|];
    assert a[..n] == g[..n];
  }

  lemma PackagePrefixes(dotted: string, p: string, g: Path)
    requires p in Packages(dotted, |dotted|) && Slashes(dotted) <= g
    ensures Slashes(p) + "/" <= g
  {
    var k := PackageForm(dotted, |dotted|, p);
    SlashesCut(dotted, k);
    PrefixCut(Slashes(dotted), g, k + 1);
  }

  lemma InitBelow(name: string)
    ensures name + "/" <= name + "/__init__.py"
  {
    assert name + "/__init__.py" == (name + "/") + "__init__.py";
  }

  /** Without shadowing, the lookup the version uses is the interpreter's. */
  lemma UnshadowedFinds(t: Tree, dotted: string)
    requires Unshadowed(t) && Resolve(t, dotted).Some?
    ensures Found(t, dotted) == Resolve(t, dotted)
  {
    var g := Resolve(t, dotted).value;
    forall p | p in Packages(dotted, |dotted|)
      ensures Enterable(t, p)
    {
      PackagePrefixes(dotted, p, g);
    }
    InitBelow(Slashes(dotted));
  }

  lemma {:induction false} NamesAreLoaded(f: Path, statements: seq<Statement>, name: string)
    requires NamesOf(statements).Some? && name in NamesOf(statements).value
    ensures exists s :: s in statements && LoadsName(f, s, name)
  {
    var (init, last) := (statements[..|statements|-1], statements[|statements|-1]);
    if name in NamesOf(init).value {
      NamesAreLoaded(f, init, name);
      var s :| s in init && LoadsName(f, s, name);
      assert s in statements;
    } else {
      assert last in statements && LoadsName(f, last, name);
    }
  }

  /** Without shadowing the version sees only what is loaded. */
  lemma ClosureIsLoaded(t: Tree, entry: Path)
    requires Unshadowed(t) && entry in t.files
    ensures Closure(t, entry) <= Loaded(t, entry)
  {
    forall f: Path, g: Path | Imports(t, f, g)
      ensures LoadEdge(t)(f, g)
    {
      var n :| n in ImportedNames(t, f).value && Resolve(t, n) == Some(g);
      NamesAreLoaded(f, Statements(t, f).value, n);
      UnshadowedFinds(t, n);
    }
    forall f | f in Closure(t, entry)
      ensures f in Loaded(t, entry)
    {
      ConnectedMoreEdges(Edge(t), LoadEdge(t), t.files.Keys, entry, f);
    }
  }

  // ---- Unseen edits ----

  /** Some edit of a loaded file goes unseen. */
  ghost predicate SomeEditUnseen(t: Tree, entry: Path, extras: seq<Path>)
  {
    exists f: Path, bytes: string :: EditUnseen(t, entry, extras, f, bytes)
  }

  ghost predicate EditUnseen(t: Tree, entry: Path, extras: seq<Path>, f: Path, bytes: string)
  {
    && f in t.files && f in Loaded(t, entry) && t.files[f] != bytes
    && VersionResult(Edit(t, f, bytes), entry, extras).Ok?
    && VersionResult(Edit(t, f, bytes), entry, extras) == VersionResult(t, entry, extras)
  }

  lemma OtherBytes(bytes: string) returns (other: string)
    ensures other != bytes
  {
    other := bytes + "#";
    assert |other| != |bytes|;
  }

  /** The version is blind to some edit of a loaded file exactly when one is neither in
      the closure nor named as an extra. */
  lemma BlindIff(t: Tree, entry: Path, extras: seq<Path>)
    requires VersionResult(t, entry, extras).Ok?
    ensures SomeEditUnseen(t, entry, extras) <==> !(Loaded(t, entry) <= Sources(t, entry, extras))
  {
    if SomeEditUnseen(t, entry, extras) {
      var f: Path, bytes: string :| EditUnseen(t, entry, extras, f, bytes);
      EditChangesVersionIff(t, entry, extras, f, bytes);
    }
    if !(Loaded(t, entry) <= Sources(t, entry, extras)) {
      var f :| f in Loaded(t, entry) && f !in Sources(t, entry, extras);
      ConnectedInNodes(LoadEdge(t), t.files.Keys, entry, f);
      var bytes := OtherBytes(t.files[f]);
      OutsideEditChangesNothing(t, entry, extras, f, bytes);
      assert EditUnseen(t, entry, extras, f, bytes);
    }
  }

  // ---- Witnesses ----

  function OneStatement(s: Statement): string -> Option<seq<Statement>>
  {
    (text: string) => if text == "uses" then Some([s]) else Some([])
  }

  /** `a.py` holds one import; package `p` and its submodule import nothing. */
  function Small(s: Statement): Tree
  {
    Tree(map["a.py" := "uses", "p/__init__.py" := "", "p/m.py" := ""], OneStatement(s))
  }

  /** The same with a module file in the place of the submodule. */
  function Twin(s: Statement): Tree
  {
    Tree(map["a.py" := "uses", "p/__init__.py" := "", "p.py" := ""], OneStatement(s))
  }

  lemma Spelling()
    ensures Slashes("p") + ".py" == "p.py" && Slashes("p") + "/__init__.py" == "p/__init__.py"
    ensures Slashes("p.m") + ".py" == "p/m.py" && Slashes("p.m") + "/__init__.py" == "p/m/__init__.py"
    ensures Packages("p", |"p"|) == [] && Packages("p.m", |"p.m"|) == ["p"]
  {
    assert Slashes("p") == "p" && Slashes("p.m") == "p/m";
    WayTo("p.m");
    assert Packages("p", 1) == Packages("p", 0) == [];
  }

  lemma WayTo(dotted: string)
    requires dotted == "p.m"
    ensures Packages(dotted, |dotted|) == ["p"]
  {
    assert dotted[1] == '.' && dotted[..1] == "p";
    assert Packages(dotted, 1) == Packages(dotted, 0) == [];
    assert Packages(dotted, 2) == Packages(dotted, 1) + ["p"];
    assert Packages(dotted, 3) == Packages(dotted, 2);
  }

  lemma SmallFinds(s: Statement)
    ensures Resolve(Small(s), "p") == Some("p/__init__.py") && Resolve(Small(s), "p.m") == Some("p/m.py")
    ensures Found(Small(s), "p") == Some("p/__init__.py") && Found(Small(s), "p.m") == Some("p/m.py")
  {
    Spelling();
    assert |"p/m.py"| == 6 && |"p.py"| == 4 && |"p/m/__init__.py"| == 15 && |"p/__init__.py"| == 13;
  }

  lemma TwinFinds(s: Statement)
    ensures Resolve(Twin(s), "p") == Some("p.py") && Found(Twin(s), "p") == Some("p/__init__.py")
  {
    Spelling();
    assert |"p.py"| == 4 && |"p/__init__.py"| == 13;
  }

  /** One import and no further ones. */
  ghost predicate OneImport(t: Tree, s: Statement, g: Path)
  {
    && t.parse == OneStatement(s) && "a.py" in t.files && t.files["a.py"] == "uses"
    && g in t.files && g != "a.py" && forall f :: f in t.files && f != "a.py" ==> t.files[f] == ""
  }

  /** The closure is the entry and the one file its import resolves to. */
  lemma OneClosure(t: Tree, s: Statement, name: string, g: Path)
    requires OneImport(t, s, g) && StatementNames(s) == Some([name]) && Resolve(t, name) == Some(g)
    ensures Closure(t, "a.py") == {"a.py", g} && VersionResult(t, "a.py", []).Ok?
  {
    assert [s][..0] == [];
    assert NamesOf([s]) == Some([] + [name]);
    assert [] + [name] == [name];
    assert ImportedNames(t, "a.py") == Some([name]) && ImportedNames(t, g) == Some([]);
    ConnectedSelf(Edge(t), t.files.Keys, "a.py");
    assert Imports(t, "a.py", g);
    ConnectedStep(Edge(t), t.files.Keys, "a.py", "a.py", g);
    assert Closed(Edge(t), t.files.Keys, {"a.py", g});
    ComponentLeast(Edge(t), t.files.Keys, "a.py", {"a.py", g});
  }

  lemma OneLoads(t: Tree, s: Statement, name: string, g: Path)
    requires OneImport(t, s, g) && LoadsName("a.py", s, name) && Found(t, name) == Some(g)
    ensures g in Loaded(t, "a.py")
  {
    assert Statements(t, "a.py") == Some([s]) && s in [s];
    ConnectedSelf(LoadEdge(t), t.files.Keys, "a.py");
    LoadedStep(t, "a.py", "a.py", g);
  }

  /** `from p import m`: the submodule is loaded and not seen. */
  lemma SubmoduleIsMissed()
    ensures var t := Small(FromImport(Some("p"), ["m"], 0));
      && "p/m.py" in Loaded(t, "a.py") && "p/m.py" !in Closure(t, "a.py")
      && SomeEditUnseen(t, "a.py", [])
  {
    var s := FromImport(Some("p"), ["m"], 0);
    SmallFinds(s);
    OneClosure(Small(s), s, "p", "p/__init__.py");
    assert "p" + "." + "m" == "p.m" && "m" in ["m"];
    OneLoads(Small(s), s, "p.m", "p/m.py");
    BlindIff(Small(s), "a.py", []);
  }

  lemma PassesThrough(s: Statement)
    requires s == Import(["p.m"])
    ensures LoadsName("a.py", s, "p")
  {
    Spelling();
    assert "p.m" in ["p.m"] && "p" in ["p"];
  }

  /** `import p.m`: the package is loaded and not seen. */
  lemma PackageIsMissed()
    ensures var t := Small(Import(["p.m"]));
      && "p/__init__.py" in Loaded(t, "a.py") && "p/__init__.py" !in Closure(t, "a.py")
      && SomeEditUnseen(t, "a.py", [])
  {
    var s := Import(["p.m"]);
    SmallFinds(s);
    OneClosure(Small(s), s, "p.m", "p/m.py");
    PassesThrough(s);
    OneLoads(Small(s), s, "p", "p/__init__.py");
    BlindIff(Small(s), "a.py", []);
  }

  lemma OnlyName(s: Statement, f: Path, name: string)
    requires s == Import(["p"]) && LoadsName(f, s, name)
    ensures name == "p"
  {
    Spelling();
  }

  lemma TwinLoadsOnly(s: Statement, f: Path, g: Path)
    requires s == Import(["p"]) && f in {"a.py", "p/__init__.py"} && Loads(Twin(s), f, g)
    ensures g == "p/__init__.py"
  {
    var t := Twin(s);
    var statement, name :| statement in Statements(t, f).value && LoadsName(f, statement, name) && Found(t, name) == Some(g);
    assert statement == s;
    OnlyName(s, f, name);
    TwinFinds(s);
  }

  lemma LoadedPair(t: Tree, entry: Path, g: Path)
    requires entry in t.files && g in Loaded(t, entry)
    requires forall f, h :: f in {entry, g} && Loads(t, f, h) ==> h == g
    ensures Loaded(t, entry) == {entry, g}
  {
    ConnectedSelf(LoadEdge(t), t.files.Keys, entry);
    ComponentLeast(LoadEdge(t), t.files.Keys, entry, {entry, g});
  }

  lemma TwinLoadsPackage(s: Statement)
    requires s == Import(["p"])
    ensures Loaded(Twin(s), "a.py") == {"a.py", "p/__init__.py"}
  {
    TwinFinds(s);
    assert "p" in ["p"];
    OneLoads(Twin(s), s, "p", "p/__init__.py");
    forall f, g | f in {"a.py", "p/__init__.py"} && Loads(Twin(s), f, g)
      ensures g == "p/__init__.py"
    {
      TwinLoadsOnly(s, f, g);
    }
    LoadedPair(Twin(s), "a.py", "p/__init__.py");
  }

  /** `import p` beside both `p.py` and `p/__init__.py`: the package is loaded and not seen,
      the module file is seen and not loaded. */
  lemma ShadowedIsMissed()
    ensures var t := Twin(Import(["p"]));
      && "p/__init__.py" in Loaded(t, "a.py") && "p/__init__.py" !in Closure(t, "a.py")
      && "p.py" in Closure(t, "a.py") && "p.py" !in Loaded(t, "a.py")
      && SomeEditUnseen(t, "a.py", [])
  {
    var s := Import(["p"]);
    TwinFinds(s);
    assert |"p.py"| == 4 && |"p/__init__.py"| == 13;
    OneClosure(Twin(s), s, "p", "p.py");
    TwinLoadsPackage(s);
    BlindIff(Twin(s), "a.py", []);
  }
}
