/** When one pass of the shader preprocessor is enough (smirk/engine-renderer/build.rs). A
    line that still ends in a carriage return after its break has taken one is pushed with
    it, and the next pass takes that one too. Which of them reach the output can be read off
    the text, its snippets and the declarations. */
module ShaderReturns {
  import opened Basics
  import opened ShaderText

  predicate AllWhite(t: Text) { forall i :: 0 <= i < |t| ==> White(t[i]) }

  predicate EndsInReturn(t: Text) { t != "" && t[|t|-1] == '\r' }

  // ---- On the sources ----

  /** The line resolves to white space. */
  ghost predicate LineBlank(src: Source, line: Text, level: nat)
    requires src.Acyclic() && (IncludeOf(line).Some? ==> src.rank(IncludeOf(line).value) < level)
    decreases level, 0
  {
    if IncludeOf(line).Some? then
      var name := IncludeOf(line).value;
      name in src.snippets && BlankFrom(src, Lines(src.snippets[name]), src.rank(name), 0)
    else if ConstOf(line).Some? then
      var text := src.declare(ConstOf(line).value);
      text.Some? && AllWhite(text.value)
    else AllWhite(line)
  }

  ghost predicate BlankFrom(src: Source, lines: seq<Text>, level: nat, from: nat)
    requires src.Acyclic() && src.Below(lines, level)
    decreases level, 1
  {
    forall j :: from <= j < |lines| ==> LineBlank(src, lines[j], level)
  }

  /** The line leaves a carriage return before a break: a kept line or a declaration by
      ending in one, an include when its snippet passes one on. */
  ghost predicate LineReturns(src: Source, line: Text, level: nat)
    requires src.Acyclic() && (IncludeOf(line).Some? ==> src.rank(IncludeOf(line).value) < level)
    decreases level, 0
  {
    if IncludeOf(line).Some? then
      var name := IncludeOf(line).value;
      name in src.snippets && PassesReturn(src, Lines(src.snippets[name]), src.rank(name))
    else if ConstOf(line).Some? then
      var text := src.declare(ConstOf(line).value);
      text.Some? && EndsInReturn(text.value)
    else EndsInReturn(line)
  }

  /** A snippet's tail is trimmed: a return survives when the line is itself an include,
      or when something that is not blank follows. */
  ghost predicate PassesReturn(src: Source, lines: seq<Text>, level: nat)
    requires src.Acyclic() && src.Below(lines, level)
    decreases level, 3
  {
    exists i: nat {:trigger PassesAt(src, lines, level, i)} :: i < |lines| && PassesAt(src, lines, level, i)
  }

  ghost predicate PassesAt(src: Source, lines: seq<Text>, level: nat, i: nat)
    requires src.Acyclic() && src.Below(lines, level) && i < |lines|
    decreases level, 2
  {
    LineReturns(src, lines[i], level) && (IncludeOf(lines[i]).Some? || !BlankFrom(src, lines, level, i + 1))
  }

  /** The text itself is not trimmed. */
  ghost predicate KeepsReturn(src: Source, lines: seq<Text>, level: nat)
    requires src.Acyclic() && src.Below(lines, level)
  {
    exists i :: 0 <= i < |lines| && LineReturns(src, lines[i], level)
  }

  ghost predicate Adds(src: Source, lines: seq<Text>, line: Text, all: seq<Text>, level: nat)
  {
    && all == lines + [line] && src.Acyclic() && src.Below(all, level) && src.Below(lines, level)
    && (IncludeOf(line).Some? ==> src.rank(IncludeOf(line).value) < level)
  }

  lemma BlankStep(src: Source, lines: seq<Text>, line: Text, all: seq<Text>, level: nat, from: nat)
    requires Adds(src, lines, line, all, level) && from <= |lines|
    ensures BlankFrom(src, all, level, from) <==> BlankFrom(src, lines, level, from) && LineBlank(src, line, level)
  {
    assert all[|lines|] == line && forall j :: 0 <= j < |lines| ==> all[j] == lines[j];
  }

  lemma KeepsStep(src: Source, lines: seq<Text>, line: Text, all: seq<Text>, level: nat)
    requires Adds(src, lines, line, all, level)
    ensures KeepsReturn(src, all, level) <==> KeepsReturn(src, lines, level) || LineReturns(src, line, level)
  {
    assert all[|lines|] == line && forall j :: 0 <= j < |lines| ==> all[j] == lines[j];
    if i :| 0 <= i < |lines| && LineReturns(src, lines[i], level) {
      assert LineReturns(src, all[i], level);
    }
  }

  lemma PassesAtStep(src: Source, lines: seq<Text>, line: Text, all: seq<Text>, level: nat, i: nat)
    requires Adds(src, lines, line, all, level) && i < |lines|
    ensures PassesAt(src, all, level, i)
       <==> if LineBlank(src, line, level) then PassesAt(src, lines, level, i) else LineReturns(src, lines[i], level)
  {
    BlankStep(src, lines, line, all, level, i + 1);
  }

  lemma PassesSome(src: Source, lines: seq<Text>, level: nat) returns (i: nat)
    requires src.Acyclic() && src.Below(lines, level) && PassesReturn(src, lines, level)
    ensures i < |lines| && PassesAt(src, lines, level, i)
  {
    i :| i < |lines| && PassesAt(src, lines, level, i);
  }

  lemma PassesStep(src: Source, lines: seq<Text>, line: Text, all: seq<Text>, level: nat)
    requires Adds(src, lines, line, all, level)
    ensures PassesReturn(src, all, level) <==>
      (|| (IncludeOf(line).Some? && LineReturns(src, line, level))
       || if LineBlank(src, line, level) then PassesReturn(src, lines, level) else KeepsReturn(src, lines, level))
  {
    var n := |lines|;
    assert BlankFrom(src, all, level, n + 1) && all[n] == line;
    forall i: nat | i < n
      ensures PassesAt(src, all, level, i)
         <==> if LineBlank(src, line, level) then PassesAt(src, lines, level, i) else LineReturns(src, lines[i], level)
    {
      PassesAtStep(src, lines, line, all, level, i);
    }
    if PassesReturn(src, all, level) {
      var i := PassesSome(src, all, level);
      assert i < n ==> (if LineBlank(src, line, level) then PassesAt(src, lines, level, i) else LineReturns(src, lines[i], level));
    }
    if IncludeOf(line).Some? && LineReturns(src, line, level) {
      assert PassesAt(src, all, level, n);
    }
    if LineBlank(src, line, level) && PassesReturn(src, lines, level) {
      var i := PassesSome(src, lines, level);
      assert PassesAt(src, all, level, i);
    }
    if !LineBlank(src, line, level) && KeepsReturn(src, lines, level) {
      var i :| 0 <= i < n && LineReturns(src, lines[i], level);
      assert PassesAt(src, all, level, i);
    }
  }

  // ---- On texts ----

  lemma {:induction false} TrimmedPrefix(t: Text)
    ensures TrimEnd(t) <= t && (TrimEnd(t) != "" ==> !White(TrimEnd(t)[|TrimEnd(t)|-1]))
    ensures TrimEnd(t) == "" <==> AllWhite(t)
  {
    if t != "" && White(t[|t|-1]) {
      TrimmedPrefix(t[..|t|-1]);
      assert t == t[..|t|-1] + [t[|t|-1]];
    }
  }

  lemma TrimmedStays(t: Text)
    ensures TrimEnd(TrimEnd(t)) == TrimEnd(t)
  {
    TrimmedPrefix(t);
  }

  lemma {:induction false} TrimWhiteTail(a: Text, w: Text)
    requires AllWhite(w)
    ensures TrimEnd(a + w) == TrimEnd(a)
  {
    if w == "" {
      assert a + w == a;
    } else {
      var (init, c) := (w[..|w|-1], w[|w|-1]);
      assert a + w == (a + init) + [c];
      TrimWhiteTail(a, init);
    }
  }

  lemma {:induction false} TrimBehind(a: Text, c: Text)
    requires !AllWhite(c)
    ensures TrimEnd(a + c) == a + TrimEnd(c)
  {
    assert (a + c)[|a + c|-1] == c[|c|-1];
    if White(c[|c|-1]) {
      assert (a + c)[..|a + c|-1] == a + c[..|c|-1];
      TrimBehind(a, c[..|c|-1]);
    }
  }

  lemma WhiteJoin(a: Text, b: Text)
    ensures AllWhite(a + b) <==> AllWhite(a) && AllWhite(b)
  {
    assert forall i :: 0 <= i < |a| ==> (a + b)[i] == a[i];
    assert forall i :: 0 <= i < |b| ==> (a + b)[|a| + i] == b[i];
  }

  lemma ReturnsJoin(a: Text, d: Text)
    requires Ended(a)
    ensures ReturnBreaks(a + d) <==> ReturnBreaks(a) || ReturnBreaks(d)
  {
    if i: nat :| ReturnAt(a, i) {
      assert ReturnAt(a + d, i);
    }
    if i: nat :| ReturnAt(d, i) {
      assert ReturnAt(a + d, |a| + i);
    }
    if i: nat :| ReturnAt(a + d, i) {
      if i < |a| {
        assert ReturnAt(a, i);
      } else if i > |a| {
        assert ReturnAt(d, i - |a|);
      }
    }
  }

  lemma ReturnsEnd(c: Text)
    ensures ReturnBreaks(c + "\n") <==> ReturnBreaks(c) || EndsInReturn(c)
  {
    if i: nat :| ReturnAt(c, i) {
      assert ReturnAt(c + "\n", i);
    }
    if EndsInReturn(c) {
      assert ReturnAt(c + "\n", |c|);
    }
    if i: nat :| ReturnAt(c + "\n", i) {
      if i < |c| { assert ReturnAt(c, i); }
    }
  }

  lemma OneLineReturns(c: Text)
    requires OneLine(c)
    ensures !ReturnBreaks(c) && !ReturnBreaks(TrimEnd(c))
  {
    TrimmedPrefix(c);
  }

  // ---- The sources tell ----

  /** What a line contributes: its content, whether that is blank, and its returns. */
  ghost predicate Tells(src: Source, line: Text, level: nat, c: Text)
    requires src.Acyclic() && (IncludeOf(line).Some? ==> src.rank(IncludeOf(line).value) < level)
  {
    && src.LineText(line, level) == Some(c + "\n")
    && (AllWhite(c) <==> LineBlank(src, line, level))
    && (ReturnBreaks(c) || EndsInReturn(c) <==> LineReturns(src, line, level))
    && (ReturnBreaks(TrimEnd(c)) <==> IncludeOf(line).Some? && LineReturns(src, line, level))
  }

  ghost predicate AllTold(src: Source, lines: seq<Text>, level: nat, text: Text)
    requires src.Acyclic() && src.Below(lines, level)
  {
    && Ended(text) && (AllWhite(text) <==> BlankFrom(src, lines, level, 0))
    && (ReturnBreaks(text) <==> KeepsReturn(src, lines, level))
    && (ReturnBreaks(TrimEnd(text)) <==> PassesReturn(src, lines, level))
  }

  lemma TextGrows(a: Text, c: Text)
    requires Ended(a)
    ensures var t := a + (c + "\n");
      && Ended(t) && (AllWhite(t) <==> AllWhite(a) && AllWhite(c))
      && (ReturnBreaks(t) <==> ReturnBreaks(a) || ReturnBreaks(c) || EndsInReturn(c))
      && TrimEnd(t) == if AllWhite(c) then TrimEnd(a) else a + TrimEnd(c)
  {
    WhiteJoin(c, "\n");
    WhiteJoin(a, c + "\n");
    ReturnsEnd(c);
    ReturnsJoin(a, c + "\n");
    if AllWhite(c) {
      TrimWhiteTail(a, c + "\n");
    } else {
      TrimBehind(a, c + "\n");
      TrimWhiteTail(c, "\n");
    }
  }

  lemma GrowsTold(src: Source, lines: seq<Text>, line: Text, all: seq<Text>, level: nat, a: Text, c: Text)
    requires Adds(src, lines, line, all, level) && AllTold(src, lines, level, a) && Tells(src, line, level, c)
    ensures AllTold(src, all, level, a + (c + "\n"))
  {
    TextGrows(a, c);
    BlankStep(src, lines, line, all, level, 0);
    KeepsStep(src, lines, line, all, level);
    PassesStep(src, lines, line, all, level);
    ReturnsJoin(a, TrimEnd(c));
    if AllWhite(c) {
      TrimmedPrefix(c);
    }
  }

  lemma OwnLineTold(src: Source, line: Text, level: nat, c: Text)
    requires src.Acyclic() && IncludeOf(line).None? && OneLine(c)
    requires if ConstOf(line).Some? then src.declare(ConstOf(line).value) == Some(c) else c == line
    ensures Tells(src, line, level, c)
  {
    OneLineReturns(c);
  }

  lemma IncludeTold(src: Source, line: Text, level: nat, name: Text, r: Text)
    requires src.Acyclic() && IncludeOf(line) == Some(name) && name in src.snippets && src.rank(name) < level
    requires src.LinesText(Lines(src.snippets[name]), src.rank(name)) == Some(r)
    requires AllTold(src, Lines(src.snippets[name]), src.rank(name), r)
    ensures Tells(src, line, level, TrimEnd(r))
  {
    TrimmedPrefix(r);
    TrimmedStays(r);
  }

  lemma {:induction false} SourcesTell(src: Source, lines: seq<Text>, level: nat)
    requires src.Acyclic() && src.Below(lines, level) && DeclaresLines(src) && AllLines(lines)
    requires src.LinesText(lines, level).Some?
    ensures AllTold(src, lines, level, src.LinesText(lines, level).value)
    decreases level, 1 + |lines|
  {
    if lines == [] {
      assert !ReturnBreaks("");
    } else {
      var (init, line) := (lines[..|lines|-1], lines[|lines|-1]);
      SourcesTell(src, init, level);
      assert Adds(src, init, line, lines, level);
      var a := src.LinesText(init, level).value;
      var c: Text;
      if IncludeOf(line).Some? {
        var name := IncludeOf(line).value;
        LinesAreLines(src.snippets[name]);
        SourcesTell(src, Lines(src.snippets[name]), src.rank(name));
        var r := src.LinesText(Lines(src.snippets[name]), src.rank(name)).value;
        IncludeTold(src, line, level, name, r);
        c := TrimEnd(r);
      } else {
        c := if ConstOf(line).Some? then src.declare(ConstOf(line).value).value else line;
        OwnLineTold(src, line, level, c);
      }
      GrowsTold(src, init, line, lines, level, a, c);
    }
  }

  // ---- Resolving twice ----

  /** Resolving what was resolved, with whatever snippets and constants, changes nothing
      exactly when no line of the text leaves a carriage return: no kept line and no
      declaration ends in one, but in a snippet's trimmed tail. */
  lemma ResolveTwiceIff(src: Source, text: Text, level: nat, other: Source, level': nat)
    requires src.Acyclic() && src.Below(Lines(text), level) && DeclaresLines(src)
    requires other.Acyclic() && src.LinesText(Lines(text), level).Some?
    ensures var out := src.LinesText(Lines(text), level).value;
      && other.Below(Lines(out), level')
      && (other.LinesText(Lines(out), level') == Some(out) <==> !KeepsReturn(src, Lines(text), level))
  {
    LinesAreLines(text);
    SourcesTell(src, Lines(text), level);
    ResolvedTwiceIff(src, text, level, other, level');
  }

  predicate Clean(t: Text) { '\r' !in t }

  ghost predicate CleanSource(src: Source)
  {
    && (forall name :: name in src.snippets ==> Clean(src.snippets[name]))
    && (forall name :: src.declare(name).Some? ==> Clean(src.declare(name).value))
  }

  lemma {:induction false} LinesAreClean(t: Text)
    requires Clean(t)
    ensures forall i :: 0 <= i < |Lines(t)| ==> Clean(Lines(t)[i])
    decreases |t|
  {
    if t != "" && Break(t) < |t| {
      LinesAreClean(t[Break(t)+1..]);
    }
  }

  lemma {:induction false} CleanLineReturns(src: Source, line: Text, level: nat)
    requires src.Acyclic() && (IncludeOf(line).Some? ==> src.rank(IncludeOf(line).value) < level)
    requires CleanSource(src) && Clean(line)
    ensures !LineReturns(src, line, level)
    decreases level
  {
    if IncludeOf(line).Some? && IncludeOf(line).value in src.snippets {
      var name := IncludeOf(line).value;
      var lines := Lines(src.snippets[name]);
      LinesAreClean(src.snippets[name]);
      forall i | 0 <= i < |lines|
        ensures !LineReturns(src, lines[i], src.rank(name))
      {
        CleanLineReturns(src, lines[i], src.rank(name));
      }
      if PassesReturn(src, lines, src.rank(name)) {
        var i := PassesSome(src, lines, src.rank(name));
      }
    }
  }

  /** On sources without carriage returns, resolving is idempotent. */
  lemma ResolveTwice(src: Source, text: Text, level: nat, other: Source, level': nat)
    requires src.Acyclic() && src.Below(Lines(text), level) && DeclaresLines(src)
    requires CleanSource(src) && Clean(text)
    requires other.Acyclic() && src.LinesText(Lines(text), level).Some?
    ensures var out := src.LinesText(Lines(text), level).value;
      other.Below(Lines(out), level') && other.LinesText(Lines(out), level') == Some(out)
  {
    LinesAreClean(text);
    forall i | 0 <= i < |Lines(text)|
      ensures !LineReturns(src, Lines(text)[i], level)
    {
      CleanLineReturns(src, Lines(text)[i], level);
    }
    ResolveTwiceIff(src, text, level, other, level');
  }
}
