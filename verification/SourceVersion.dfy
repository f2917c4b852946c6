/** A stage's source version (proptex/cache.py). */
module SourceVersion {
  // The hash of its entry file's transitive import closure, computed by a worklist over a
  // finite tree of files.

  import opened Basics
  import opened Connectivity

  type Path = string

  /** The hash of the sorted (path, file hash) pairs: equal exactly for equal pair sets. */
  datatype Version = VersionOf(pairs: set<(Path, Digest<string>)>)

  datatype Result<T> = Ok(value: T) | CacheError

  /** An import statement: `import a.b, c`, or `from module import names` with `level`
      leading dots. */
  datatype Statement =
    | Import(names: seq<string>)
    | FromImport(package: Option<string>, names: seq<string>, level: nat)

  /** The files under the import root, and the import statements of a text; `None` does
      not parse. */
  datatype Tree = Tree(files: map<Path, string>, parse: string -> Option<seq<Statement>>)

  /** The names one statement adds; `None` is the refusal of a relative import. */
  function StatementNames(s: Statement): Option<seq<string>>
  {
    match s
    case Import(names) => Some(names)
    case FromImport(package, _, level) =>
      if level > 0 then None else if package.Some? then Some([package.value]) else Some([])
  }

  function NamesOf(statements: seq<Statement>): Option<seq<string>>
  {
    if statements == [] then Some([])
    else
      match (NamesOf(statements[..|statements|-1]), StatementNames(statements[|statements|-1]))
      case (Some(before), Some(names)) => Some(before + names)
      case _ => None
  }

  function Slashes(dotted: string): string
  {
    seq(|dotted|, i requires 0 <= i < |dotted| => if dotted[i] == '.' then '/' else dotted[i])
  }

  /** A module file wins over a package of the same name. */
  function Resolve(t: Tree, dotted: string): Option<Path>
  {
    if Slashes(dotted) + ".py" in t.files then Some(Slashes(dotted) + ".py")
    else if Slashes(dotted) + "/__init__.py" in t.files then Some(Slashes(dotted) + "/__init__.py")
    else None
  }

  function Statements(t: Tree, f: Path): Option<seq<Statement>>
  {
    if f in t.files then t.parse(t.files[f]) else None
  }

  function ImportedNames(t: Tree, f: Path): Option<seq<string>>
  {
    var statements := Statements(t, f);
    if statements.None? then None else NamesOf(statements.value)
  }

  /** What a statement adds to the worklist. */
  ghost predicate Adds(s: Statement, n: string)
  {
    (s.Import? && n in s.names) || (s.FromImport? && s.package == Some(n))
  }

  lemma {:induction false} NamesOfAre(statements: seq<Statement>)
    ensures NamesOf(statements).Some? <==> forall s :: s in statements && s.FromImport? ==> s.level == 0
    ensures NamesOf(statements).Some? ==>
      forall n :: n in NamesOf(statements).value <==> exists s :: s in statements && Adds(s, n)
  {
    if statements != [] {
      var (init, last) := (statements[..|statements|-1], statements[|statements|-1]);
      NamesOfAre(init);
      assert statements == init + [last];
      if NamesOf(statements).Some? {
        assert NamesOf(statements).value == NamesOf(init).value + StatementNames(last).value;
        assert forall n :: n in StatementNames(last).value <==> Adds(last, n);
      }
    }
  }

  /** A file's imports are those of all its statements, and a relative one anywhere in it
      is refused. */
  lemma ImportedNamesAre(t: Tree, f: Path)
    ensures ImportedNames(t, f).Some? <==>
      f in t.files && t.parse(t.files[f]).Some?
      && forall s :: s in t.parse(t.files[f]).value && s.FromImport? ==> s.level == 0
    ensures ImportedNames(t, f).Some? ==>
      forall n :: n in ImportedNames(t, f).value <==>
        exists s :: s in t.parse(t.files[f]).value
                    && ((s.Import? && n in s.names) || (s.FromImport? && s.package == Some(n)))
  {
    if Statements(t, f).Some? {
      NamesOfAre(Statements(t, f).value);
      assert forall s, n :: Adds(s, n) <==> (s.Import? && n in s.names) || (s.FromImport? && s.package == Some(n));
    }
  }

  /** A dotted name's path has a component for every part of the name. */
  lemma SlashesAre(a: string, b: string)
    ensures '.' !in a ==> Slashes(a) == a
    ensures Slashes(a + "." + b) == Slashes(a) + "/" + Slashes(b)
  {
  }

  /** What a name resolves to: the module file, or failing that the package. */
  lemma ResolveIs(t: Tree, dotted: string, g: Path)
    ensures Resolve(t, dotted) == Some(g) <==>
      g in t.files && (g == Slashes(dotted) + ".py" ||
        (g == Slashes(dotted) + "/__init__.py" && Slashes(dotted) + ".py" !in t.files))
  {
  }

  ghost predicate Imports(t: Tree, f: Path, g: Path)
  {
    var names := ImportedNames(t, f);
    names.Some? && exists n :: n in names.value && Resolve(t, n) == Some(g)
  }

  ghost function Edge(t: Tree): (Path, Path) -> bool { (f: Path, g: Path) => Imports(t, f, g) }

  /** The least set holding the entry file and closed under resolved imports. */
  ghost function Closure(t: Tree, entry: Path): set<Path>
  {
    Component(Edge(t), t.files.Keys, entry)
  }

  ghost predicate Readable(t: Tree, files: set<Path>)
  {
    forall f :: f in files ==> ImportedNames(t, f).Some?
  }

  function Pairs(t: Tree, files: set<Path>): set<(Path, Digest<string>)>
  {
    set f | f in files && f in t.files :: (f, Sha256(t.files[f]))
  }

  ghost predicate Frontier(t: Tree, entry: Path, visited: set<Path>, stack: seq<Path>)
  {
    && (forall f :: f in visited || f in stack ==> f in Closure(t, entry))
    && (entry in visited || entry in stack)
    && (forall f, g :: f in visited && Imports(t, f, g) ==> g in visited || g in stack)
  }

  lemma ResolvedInTree(t: Tree, f: Path, g: Path)
    requires Imports(t, f, g)
    ensures g in t.files
  {
  }

  lemma ClosureStep(t: Tree, entry: Path, f: Path, g: Path)
    requires f in Closure(t, entry) && Imports(t, f, g)
    ensures g in Closure(t, entry)
  {
    ResolvedInTree(t, f, g);
    ConnectedStep(Edge(t), t.files.Keys, entry, f, g);
  }

  /** The closure holds the entry and whatever its files import, and is within every set
      that does. */
  lemma ClosureIsLeast(t: Tree, entry: Path, files: set<Path>)
    requires entry in t.files
    ensures entry in Closure(t, entry) && Closure(t, entry) <= t.files.Keys
    ensures forall f, g :: f in Closure(t, entry) && Imports(t, f, g) ==> g in Closure(t, entry)
    ensures entry in files && (forall f, g :: f in files && Imports(t, f, g) ==> g in files) ==> Closure(t, entry) <= files
  {
    ConnectedSelf(Edge(t), t.files.Keys, entry);
    forall f, g | f in Closure(t, entry) && Imports(t, f, g)
      ensures g in Closure(t, entry)
    {
      ClosureStep(t, entry, f, g);
    }
    if entry in files && forall f, g :: f in files && Imports(t, f, g) ==> g in files {
      var inside := files * t.files.Keys;
      assert Closed(Edge(t), t.files.Keys, inside);
      ComponentLeast(Edge(t), t.files.Keys, entry, inside);
    }
  }

  /** An empty worklist means the closure has been reached. */
  lemma FrontierDone(t: Tree, entry: Path, visited: set<Path>)
    requires Frontier(t, entry, visited, [])
    ensures visited == Closure(t, entry)
  {
    assert Closed(Edge(t), t.files.Keys, visited);
    ComponentLeast(Edge(t), t.files.Keys, entry, visited);
  }

  /** The names of one file: each that resolves to an unvisited file is pushed. */
  method PushImports(t: Tree, names: seq<string>, visited: set<Path>, stack: seq<Path>) returns (grown: seq<Path>)
    ensures forall g :: g in grown <==>
      g in stack || (g !in visited && exists n :: n in names && Resolve(t, n) == Some(g))
  {
    grown := stack;
    for i := 0 to |names|
      invariant forall g :: g in grown <==>
        g in stack || (g !in visited && exists n :: n in names[..i] && Resolve(t, n) == Some(g))
    {
      assert names[..i+1] == names[..i] + [names[i]];
      var resolved := Resolve(t, names[i]);
      if resolved.Some? && resolved.value !in visited {
        grown := grown + [resolved.value];
      }
    }
    assert names[..|names|] == names;
  }

  method ImportClosure(t: Tree, entry: Path) returns (r: Result<set<Path>>)
    ensures r.Ok? <==> entry in t.files && Readable(t, Closure(t, entry))
    ensures r.Ok? ==> r.value == Closure(t, entry)
  {
    if entry !in t.files {
      return CacheError;
    }
    var visited: set<Path>, stack := {}, [entry];
    ConnectedSelf(Edge(t), t.files.Keys, entry);
    while stack != []
      invariant Frontier(t, entry, visited, stack) && Readable(t, visited)
      invariant forall f :: f in stack ==> f in t.files
      decreases t.files.Keys - visited, |stack|
    {
      var f := stack[|stack|-1];
      ghost var before := stack;
      stack := stack[..|stack|-1];
      assert before == stack + [f];
      if f !in visited {
        var names := ImportedNames(t, f);
        if names.None? {
          return CacheError;
        }
        ghost var remaining := t.files.Keys - visited;
        visited := visited + {f};
        assert f in remaining && t.files.Keys - visited < remaining;
        stack := PushImports(t, names.value, visited, stack);
        forall g | Imports(t, f, g)
          ensures g in Closure(t, entry) && g in t.files
        {
          ClosureStep(t, entry, f, g);
          ResolvedInTree(t, f, g);
        }
      }
    }
    FrontierDone(t, entry, visited);
    r := Ok(visited);
  }

  method SourceVersion(t: Tree, entry: Path, extras: seq<Path>) returns (r: Result<Version>)
    ensures r == VersionResult(t, entry, extras)
  {
    var closure := ImportClosure(t, entry);
    if closure.CacheError? {
      return CacheError;
    }
    var visited := closure.value;
    for i := 0 to |extras|
      invariant visited == Closure(t, entry) + (set e | e in extras[..i])
    {
      assert extras[..i+1] == extras[..i] + [extras[i]];
      visited := visited + {extras[i]};
    }
    assert extras[..|extras|] == extras;
    if exists f :: f in visited && f !in t.files {
      return CacheError;
    }
    r := Ok(VersionOf(Pairs(t, visited)));
  }

  ghost function Sources(t: Tree, entry: Path, extras: seq<Path>): set<Path>
  {
    Closure(t, entry) + (set e | e in extras)
  }

  ghost function VersionResult(t: Tree, entry: Path, extras: seq<Path>): Result<Version>
  {
    if entry in t.files && Readable(t, Closure(t, entry)) && Sources(t, entry, extras) <= t.files.Keys
    then Ok(VersionOf(Pairs(t, Sources(t, entry, extras))))
    else CacheError
  }

  // ---- What an edit does to the version ----

  function Edit(t: Tree, f: Path, bytes: string): Tree
  {
    t.(files := t.files[f := bytes])
  }

  /** Editing a file moves only the imports that file itself makes. */
  lemma EditKeepsOtherEdges(t: Tree, f: Path, bytes: string, g: Path, h: Path)
    requires f in t.files && g != f
    ensures Imports(Edit(t, f, bytes), g, h) == Imports(t, g, h)
    ensures Edit(t, f, bytes).files.Keys == t.files.Keys
  {
    var t' := Edit(t, f, bytes);
    assert forall n :: Resolve(t', n) == Resolve(t, n);
    assert ImportedNames(t', g) == ImportedNames(t, g);
  }

  /** A file stays in the closure however it is itself edited. */
  lemma EditedFileStays(t: Tree, entry: Path, f: Path, bytes: string)
    requires f in Closure(t, entry)
    ensures f in Closure(Edit(t, f, bytes), entry)
  {
    var t' := Edit(t, f, bytes);
    var (keys, x) := (t.files.Keys, Closure(Edit(t, f, bytes), entry));
    assert t'.files.Keys == keys;
    ConnectedInNodes(Edge(t), keys, entry, f);
    ConnectedSelf(Edge(t'), keys, entry);
    if f !in x {
      forall u, v | u in x && v in keys && Imports(t, u, v)
        ensures v in x
      {
        EditKeepsOtherEdges(t, f, bytes, u, v);
        ClosureStep(t', entry, u, v);
      }
      ConnectedStaysInside(Edge(t), keys, entry, f, x);
    }
  }

  lemma ClosureShrinksNot(t: Tree, entry: Path, f: Path, bytes: string)
    requires f in t.files && f !in Closure(t, entry) && entry in t.files
    ensures Closure(Edit(t, f, bytes), entry) <= Closure(t, entry)
  {
    var t' := Edit(t, f, bytes);
    var (keys, x) := (t.files.Keys, Closure(t, entry));
    assert t'.files.Keys == keys;
    ConnectedSelf(Edge(t), keys, entry);
    forall u, v | u in x && v in keys && Imports(t', u, v)
      ensures v in x
    {
      EditKeepsOtherEdges(t, f, bytes, u, v);
      ClosureStep(t, entry, u, v);
    }
    ComponentLeast(Edge(t'), keys, entry, x);
  }

  /** Editing a file outside the closure leaves the closure as it was. */
  lemma OutsideEditKeepsClosure(t: Tree, entry: Path, f: Path, bytes: string)
    requires f in t.files && f !in Closure(t, entry) && entry in t.files
    ensures Closure(Edit(t, f, bytes), entry) == Closure(t, entry)
  {
    var t' := Edit(t, f, bytes);
    ClosureShrinksNot(t, entry, f, bytes);
    ClosureShrinksNot(t', entry, f, t.files[f]);
    assert Edit(t', f, t.files[f]).files == t.files;
  }

  /** An edit that changes a file's bytes changes the version exactly when the file is
      in the closure or named as an extra, even if the edit changes its imports. */
  lemma EditChangesVersionIff(t: Tree, entry: Path, extras: seq<Path>, f: Path, bytes: string)
    requires f in t.files && t.files[f] != bytes
    requires VersionResult(t, entry, extras).Ok? && VersionResult(Edit(t, f, bytes), entry, extras).Ok?
    ensures VersionResult(Edit(t, f, bytes), entry, extras) != VersionResult(t, entry, extras)
       <==> f in Closure(t, entry) || f in extras
  {
    var t' := Edit(t, f, bytes);
    if f in Sources(t, entry, extras) {
      if f in Closure(t, entry) {
        EditedFileStays(t, entry, f, bytes);
      }
      assert (f, Sha256(t.files[f])) in Pairs(t, Sources(t, entry, extras));
      assert (f, Sha256(t.files[f])) !in Pairs(t', Sources(t', entry, extras));
    } else {
      OutsideEditKeepsClosure(t, entry, f, bytes);
      assert Pairs(t', Sources(t', entry, extras)) == Pairs(t, Sources(t, entry, extras));
    }
  }

  /** An edit outside the sources cannot even turn success into an error or back. */
  lemma OutsideEditChangesNothing(t: Tree, entry: Path, extras: seq<Path>, f: Path, bytes: string)
    requires f in t.files && f !in Closure(t, entry) && f !in extras
    ensures VersionResult(Edit(t, f, bytes), entry, extras) == VersionResult(t, entry, extras)
  {
    var t' := Edit(t, f, bytes);
    if entry in t.files {
      OutsideEditKeepsClosure(t, entry, f, bytes);
      assert forall g :: g in Closure(t, entry) ==> ImportedNames(t', g) == ImportedNames(t, g);
      assert Pairs(t', Sources(t', entry, extras)) == Pairs(t, Sources(t, entry, extras));
    }
  }
}
