/** What counts as a directive, what it is replaced by, and when resolving panics
    (smirk/engine-renderer/build.rs). */
module ShaderDirectives {
  import opened Basics
  import opened ShaderText
  import opened ShaderReturns

  // ---- Trimming ----

  predicate Trimmed(s: Text) { s == "" || (!White(s[0]) && !White(s[|s|-1])) }

  /** `core` with white space before and behind. */
  ghost predicate Around(line: Text, before: Text, core: Text, behind: Text)
  {
    line == before + core + behind && AllWhite(before) && AllWhite(behind) && Trimmed(core)
  }

  lemma {:induction false} StartDropped(before: Text, s: Text)
    requires AllWhite(before) && (s == "" || !White(s[0]))
    ensures TrimStart(before + s) == s
  {
    if before == "" {
      assert before + s == s;
    } else {
      assert (before + s)[1..] == before[1..] + s;
      StartDropped(before[1..], s);
    }
  }

  lemma {:induction false} StartOfWhite(s: Text)
    requires AllWhite(s)
    ensures TrimStart(s) == ""
  {
    if s != "" {
      StartOfWhite(s[1..]);
    }
  }

  lemma {:induction false} StartKept(s: Text) returns (before: Text)
    ensures s == before + TrimStart(s) && AllWhite(before)
    ensures TrimStart(s) != "" ==> !White(TrimStart(s)[0])
  {
    if s != "" && White(s[0]) {
      var rest := StartKept(s[1..]);
      before := [s[0]] + rest;
      assert s == [s[0]] + s[1..];
    } else {
      before := "";
    }
  }

  lemma {:induction false} EndKept(s: Text) returns (behind: Text)
    ensures s == TrimEnd(s) + behind && AllWhite(behind)
    ensures TrimEnd(s) != "" ==> TrimEnd(s)[0] == s[0] && !White(TrimEnd(s)[|TrimEnd(s)|-1])
  {
    TrimmedPrefix(s);
    if s != "" && White(s[|s|-1]) {
      var rest := EndKept(s[..|s|-1]);
      behind := rest + [s[|s|-1]];
      assert s == s[..|s|-1] + [s[|s|-1]];
    } else {
      behind := "";
    }
  }

  /** Trimming takes the white space at either end, all of it and nothing else. */
  lemma TrimIs(line: Text) returns (before: Text, behind: Text)
    ensures Around(line, before, Trim(line), behind)
  {
    before := StartKept(line);
    behind := EndKept(TrimStart(line));
  }

  lemma TrimOnly(line: Text, before: Text, core: Text, behind: Text)
    requires Around(line, before, core, behind)
    ensures Trim(line) == core
  {
    var s := core + behind;
    assert line == before + s;
    if core == "" {
      assert s == behind && before + behind == line;
      WhiteJoin(before, behind);
      StartOfWhite(line);
    } else {
      StartDropped(before, s);
      TrimWhiteTail(core, behind);
    }
  }

  // ---- Directives ----

  ghost predicate IncludeLine(line: Text, name: Text)
  {
    exists before, behind :: AllWhite(before) && AllWhite(behind) && line == before + Including(name) + behind
  }

  function Including(name: Text): Text { "//#include \"" + name + "\"" }

  /** An include line is the directive with its quoted name, alone but for white space. */
  lemma IncludeIs(line: Text, name: Text)
    ensures IncludeOf(line) == Some(name) <==> IncludeLine(line, name)
  {
    if IncludeOf(line) == Some(name) {
      var before, behind := TrimIs(line);
      IncludeCore(Trim(line), name);
      assert line == before + Including(name) + behind;
    }
    if IncludeLine(line, name) {
      var before, behind :| AllWhite(before) && AllWhite(behind) && line == before + Including(name) + behind;
      TrimOnly(line, before, Including(name), behind);
      IncludeCore(Including(name), name);
    }
  }

  lemma IncludeCore(core: Text, name: Text)
    ensures (match StripPrefix(core, "//#include \"")
             case None => None
             case Some(s) => if s != "" && s[|s|-1] == '"' then Some(s[..|s|-1]) else None) == Some(name)
       <==> core == Including(name)
  {
    if core == Including(name) {
      assert core[|"//#include \""|..] == name + "\"";
    }
  }

  ghost predicate ConstLine(line: Text, name: Text)
  {
    exists before, gap, behind :: ConstParts(line, before, gap, name, behind)
  }

  ghost predicate ConstParts(line: Text, before: Text, gap: Text, name: Text, behind: Text)
  {
    && AllWhite(before) && AllWhite(gap) && AllWhite(behind)
    && line == before + Declaring(gap, name) + behind && name != "" && Trimmed(name)
  }

  function Declaring(gap: Text, name: Text): Text { "//#const " + gap + name }

  lemma ConstParted(line: Text, name: Text)
    requires ConstOf(line) == Some(name)
    ensures ConstLine(line, name)
  {
    var before, behind := TrimIs(line);
    var core := Trim(line);
    var s := core[|"//#const "|..];
    var gap, rest := TrimIs(s);
    assert core == "//#const " + s;
    NoRest(core, gap, name, rest);
    assert ConstParts(line, before, gap, name, behind);
  }

  lemma ConstCore(gap: Text, name: Text)
    requires AllWhite(gap) && name != "" && Trimmed(name)
    ensures Trimmed(Declaring(gap, name)) && StripPrefix(Declaring(gap, name), "//#const ") == Some(gap + name)
    ensures Trim(gap + name) == name
  {
    assert Declaring(gap, name)[|"//#const "|..] == gap + name;
    assert gap + name + "" == gap + name;
    TrimOnly(gap + name, gap, name, "");
  }

  /** A const line is the directive and a name, alone but for white space. */
  lemma ConstIs(line: Text, name: Text)
    ensures ConstOf(line) == Some(name) <==> ConstLine(line, name)
  {
    if ConstOf(line) == Some(name) {
      ConstParted(line, name);
    }
    if ConstLine(line, name) {
      var before, gap, behind :| ConstParts(line, before, gap, name, behind);
      ConstCore(gap, name);
      TrimOnly(line, before, Declaring(gap, name), behind);
    }
  }

  lemma NoRest(core: Text, gap: Text, name: Text, rest: Text)
    requires core == "//#const " + (gap + name + rest) && Trimmed(core)
    requires AllWhite(gap) && AllWhite(rest)
    ensures rest == "" && name != "" && core == "//#const " + gap + name
  {
    LastOf(core, gap, name, rest);
    assert White(' ');
  }

  lemma LastOf(core: Text, gap: Text, name: Text, rest: Text)
    requires core == "//#const " + (gap + name + rest)
    ensures core[|core|-1] == if rest != "" then rest[|rest|-1] else if name != "" then name[|name|-1]
                              else if gap != "" then gap[|gap|-1] else ' '
    ensures rest == "" ==> core == "//#const " + gap + name
  {
  }

  /** No line is both. */
  lemma OneDirective(line: Text)
    ensures IncludeOf(line).None? || ConstOf(line).None?
  {
    assert IncludeOf(line).Some? ==> Trim(line)[3] == 'i';
    assert ConstOf(line).Some? ==> Trim(line)[3] == 'c';
  }

  // ---- Splitting ----

  /** A text splits after each of its line breaks, one carriage return before each going
      with it; a last line needs no break. */
  lemma LinesAre(a: Text, l: Text)
    requires Ended(a) && OneLine(l)
    ensures Lines("") == []
    ensures l == "" || l[|l|-1] != '\r' ==> Lines(a + l + "\n") == Lines(a) + [l]
    ensures l != "" ==> Lines(a + l) == Lines(a) + [l]
  {
    LastLine(a, l);
  }

  lemma ReturnGoesWithBreak(a: Text, l: Text)
    requires Ended(a) && OneLine(l)
    ensures Lines(a + (l + "\r") + "\n") == Lines(a) + [l]
  {
    LastLine(a, l + "\r");
    assert (l + "\r")[..|l|] == l;
  }

  // ---- What lines become ----

  /** A snippet, resolved and trimmed at its end; a declaration; or the line as it stands. */
  lemma LineTextIs(src: Source, line: Text, level: nat, name: Text)
    requires src.Acyclic() && (IncludeOf(line).Some? ==> src.rank(IncludeOf(line).value) < level)
    ensures IncludeLine(line, name) && name in src.snippets ==>
      && src.Below(Lines(src.snippets[name]), src.rank(name))
      && var text := src.LinesText(Lines(src.snippets[name]), src.rank(name));
         src.LineText(line, level) == if text.None? then None else Some(TrimEnd(text.value) + "\n")
    ensures ConstLine(line, name) && src.declare(name).Some? ==>
      src.LineText(line, level) == Some(src.declare(name).value + "\n")
    ensures Plain(line) ==> src.LineText(line, level) == Some(line + "\n")
  {
    IncludeIs(line, name);
    ConstIs(line, name);
    OneDirective(line);
  }

  function Both(a: Option<Text>, b: Option<Text>): Option<Text>
  {
    if a.None? || b.None? then None else Some(a.value + b.value)
  }

  lemma BothAssociates(a: Option<Text>, b: Option<Text>, c: Option<Text>)
    ensures Both(Both(a, b), c) == Both(a, Both(b, c))
  {
    if a.Some? && b.Some? && c.Some? {
      Associates(a.value, b.value, c.value);
    }
  }

  lemma StepsBoth(src: Source, lines: seq<Text>, line: Text, level: nat)
    requires src.Acyclic() && src.Below(lines + [line], level)
    ensures src.Below(lines, level) && (IncludeOf(line).Some? ==> src.rank(IncludeOf(line).value) < level)
    ensures src.LinesText(lines + [line], level) == Both(src.LinesText(lines, level), src.LineText(line, level))
  {
    src.LinesTextStep(lines, line, level);
  }

  lemma BelowParts(src: Source, a: seq<Text>, b: seq<Text>, level: nat)
    requires src.Below(a + b, level)
    ensures src.Below(a, level) && src.Below(b, level)
  {
    assert forall i :: 0 <= i < |a| ==> (a + b)[i] == a[i];
    assert forall i :: 0 <= i < |b| ==> (a + b)[|a| + i] == b[i];
  }

  /** Lines resolve one by one, in order. */
  lemma {:induction false} LinesTextConcat(src: Source, a: seq<Text>, b: seq<Text>, level: nat)
    requires src.Acyclic() && src.Below(a + b, level)
    ensures src.Below(a, level) && src.Below(b, level)
    ensures src.LinesText(a + b, level) == Both(src.LinesText(a, level), src.LinesText(b, level))
    decreases |b|
  {
    BelowParts(src, a, b, level);
    if b == [] {
      var text := src.LinesText(a, level);
      assert a + b == a && (text.Some? ==> text.value + "" == text.value);
    } else {
      var (init, line) := (b[..|b|-1], b[|b|-1]);
      assert a + b == (a + init) + [line] && b == init + [line];
      StepsBoth(src, a + init, line, level);
      StepsBoth(src, init, line, level);
      LinesTextConcat(src, a, init, level);
      BothAssociates(src.LinesText(a, level), src.LinesText(init, level), src.LineText(line, level));
    }
  }

  // ---- Panics ----

  /** The line names a snippet or a constant there is none of, or a snippet that does. */
  ghost predicate LinePanics(src: Source, line: Text, level: nat)
    requires src.Acyclic() && (IncludeOf(line).Some? ==> src.rank(IncludeOf(line).value) < level)
    decreases level, 0
  {
    if IncludeOf(line).Some? then
      var name := IncludeOf(line).value;
      name !in src.snippets || Panics(src, Lines(src.snippets[name]), src.rank(name))
    else ConstOf(line).Some? && src.declare(ConstOf(line).value).None?
  }

  ghost predicate Panics(src: Source, lines: seq<Text>, level: nat)
    requires src.Acyclic() && src.Below(lines, level)
    decreases level, 1
  {
    exists i :: 0 <= i < |lines| && LinePanics(src, lines[i], level)
  }

  /** Resolving panics exactly when some line reached does. */
  lemma {:induction false} PanicsIff(src: Source, lines: seq<Text>, level: nat)
    requires src.Acyclic() && src.Below(lines, level)
    ensures src.LinesText(lines, level).None? <==> Panics(src, lines, level)
    decreases level, 1 + |lines|
  {
    if lines != [] {
      var (init, line) := (lines[..|lines|-1], lines[|lines|-1]);
      assert lines == init + [line];
      src.LinesTextStep(init, line, level);
      PanicsIff(src, init, level);
      if IncludeOf(line).Some? && IncludeOf(line).value in src.snippets {
        var name := IncludeOf(line).value;
        PanicsIff(src, Lines(src.snippets[name]), src.rank(name));
      }
      assert src.LineText(line, level).None? <==> LinePanics(src, line, level);
      PanicsLast(src, init, line, lines, level);
    }
  }

  lemma PanicsLast(src: Source, init: seq<Text>, line: Text, lines: seq<Text>, level: nat)
    requires Adds(src, init, line, lines, level)
    ensures Panics(src, lines, level) <==> Panics(src, init, level) || LinePanics(src, line, level)
  {
    assert lines[|init|] == line;
    if i :| 0 <= i < |init| && LinePanics(src, init[i], level) {
      assert lines[i] == init[i];
    }
  }
}
