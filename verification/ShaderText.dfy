/** The shader preprocessor (smirk/engine-renderer/build.rs): include lines splice in
    snippets, resolved in their turn and trimmed at the end, const lines become declarations,
    and every other line is kept. A missing snippet or constant panics, here the result
    `None`. Lines are split as the standard library splits them, one carriage return before
    a break belonging to the break. */
module ShaderText {
  import opened Basics

  type Text = string

  // ---- Trimming ----

  predicate White(c: char)
  {
    var n := c as int;
    9 <= n <= 13 || n == 32 || n == 0x85 || n == 0xA0 || n == 0x1680 || 0x2000 <= n <= 0x200A
    || n == 0x2028 || n == 0x2029 || n == 0x202F || n == 0x205F || n == 0x3000
  }

  function TrimStart(s: Text): (r: Text)
    ensures |r| <= |s|
  {
    if s != "" && White(s[0]) then TrimStart(s[1..]) else s
  }

  function TrimEnd(s: Text): (r: Text)
    ensures |r| <= |s|
  {
    if s != "" && White(s[|s|-1]) then TrimEnd(s[..|s|-1]) else s
  }

  function Trim(s: Text): Text { TrimEnd(TrimStart(s)) }

  // ---- Lines ----

  function Break(t: Text): (n: nat)
    ensures n <= |t| && (n < |t| ==> t[n] == '\n') && forall i :: 0 <= i < n ==> t[i] != '\n'
  {
    if t == "" || t[0] == '\n' then 0 else 1 + Break(t[1..])
  }

  /** One carriage return before a line break belongs to the break. */
  function StripReturn(line: Text): Text
  {
    if line != "" && line[|line|-1] == '\r' then line[..|line|-1] else line
  }

  function Lines(t: Text): seq<Text>
  {
    if t == "" then []
    else if Break(t) == |t| then [t]
    else [StripReturn(t[..Break(t)])] + Lines(t[Break(t)+1..])
  }

  // ---- Directives ----

  function StripPrefix(s: Text, prefix: Text): Option<Text>
  {
    if prefix <= s then Some(s[|prefix|..]) else None
  }

  /** The snippet an include line names. */
  function IncludeOf(line: Text): Option<Text>
  {
    match StripPrefix(Trim(line), "//#include \"")
    case None => None
    case Some(s) => if s != "" && s[|s|-1] == '"' then Some(s[..|s|-1]) else None
  }

  /** The constant a const line names. */
  function ConstOf(line: Text): Option<Text>
  {
    match StripPrefix(Trim(line), "//#const ")
    case None => None
    case Some(s) => Some(Trim(s))
  }

  predicate Plain(line: Text) { IncludeOf(line).None? && ConstOf(line).None? }

  /** The snippet files, the injected declarations, and a rank that falls along includes. */
  datatype Source = Source(snippets: map<Text, Text>, declare: Text -> Option<Text>, rank: Text -> nat)
  {
    /** No snippet includes itself, however far around. */
    ghost predicate Acyclic()
    {
      forall name :: name in snippets ==> Below(Lines(snippets[name]), rank(name))
    }

    /** All snippets these lines include rank below `level`. */
    ghost predicate Below(lines: seq<Text>, level: nat)
    {
      forall i :: 0 <= i < |lines| && IncludeOf(lines[i]).Some? ==> rank(IncludeOf(lines[i]).value) < level
    }

    /** What one line becomes; `None` is a panic. */
    ghost function LineText(line: Text, level: nat): Option<Text>
      requires Acyclic() && (IncludeOf(line).Some? ==> rank(IncludeOf(line).value) < level)
      decreases level, 0
    {
      if IncludeOf(line).Some? then
        var name := IncludeOf(line).value;
        if name !in snippets then None
        else
          match LinesText(Lines(snippets[name]), rank(name))
          case None => None
          case Some(text) => Some(TrimEnd(text) + "\n")
      else if ConstOf(line).Some? then
        match declare(ConstOf(line).value)
        case None => None
        case Some(text) => Some(text + "\n")
      else Some(line + "\n")
    }

    ghost function LinesText(lines: seq<Text>, level: nat): Option<Text>
      requires Acyclic() && Below(lines, level)
      decreases level, 1 + |lines|
    {
      if lines == [] then Some("")
      else
        match (LinesText(lines[..|lines|-1], level), LineText(lines[|lines|-1], level))
        case (Some(before), Some(text)) => Some(before + text)
        case _ => None
    }

    lemma LinesTextStep(lines: seq<Text>, line: Text, level: nat)
      requires Acyclic() && Below(lines + [line], level)
      ensures Below(lines, level) && (IncludeOf(line).Some? ==> rank(IncludeOf(line).value) < level)
      ensures LinesText(lines + [line], level)
           == match (LinesText(lines, level), LineText(line, level))
              case (Some(before), Some(text)) => Some(before + text)
              case _ => None
    {
      assert (lines + [line])[..|lines|] == lines && (lines + [line])[|lines|] == line;
      assert forall i :: 0 <= i < |lines| ==> (lines + [line])[i] == lines[i];
    }

    lemma FailurePersists(lines: seq<Text>, k: nat, level: nat)
      requires Acyclic() && Below(lines, level) && k <= |lines|
      requires LinesText(lines[..k], level).None?
      ensures LinesText(lines, level).None?
    {
      if k < |lines| {
        assert lines[..|lines|-1][..k] == lines[..k];
        FailurePersists(lines[..|lines|-1], k, level);
      } else {
        assert lines[..k] == lines;
      }
    }

    method Resolve(text: Text, level: nat) returns (out: Option<Text>)
      requires Acyclic() && Below(Lines(text), level)
      ensures out == LinesText(Lines(text), level)
      decreases level
    {
      var lines := Lines(text);
      var pushed := "";
      for k := 0 to |lines|
        invariant LinesText(lines[..k], level) == Some(pushed)
      {
        var line := lines[k];
        assert lines[..k+1] == lines[..k] + [line];
        LinesTextStep(lines[..k], line, level);
        var piece := None;
        if IncludeOf(line).Some? {
          var name := IncludeOf(line).value;
          if name in snippets {
            var snippet := Resolve(snippets[name], rank(name));
            piece := if snippet.None? then None else Some(TrimEnd(snippet.value) + "\n");
          }
        } else if ConstOf(line).Some? {
          var found := declare(ConstOf(line).value);
          piece := if found.None? then None else Some(found.value + "\n");
        } else {
          piece := Some(line + "\n");
        }
        if piece.None? {
          FailurePersists(lines, k+1, level);
          return None;
        }
        pushed := pushed + piece.value;
      }
      assert lines[..|lines|] == lines;
      out := Some(pushed);
    }
  }

  // ---- Lines of concatenations ----

  predicate OneLine(t: Text) { forall i :: 0 <= i < |t| ==> t[i] != '\n' }

  predicate Ended(t: Text) { t == "" || t[|t|-1] == '\n' }

  lemma LinesUnfold(t: Text, n: nat)
    requires n == Break(t) < |t|
    ensures Lines(t) == [StripReturn(t[..n])] + Lines(t[n+1..])
  {
  }

  lemma SlicesStay(a: Text, b: Text, n: nat)
    requires n < |a|
    ensures (a + b)[..n] == a[..n] && (a + b)[n+1..] == a[n+1..] + b
  {
  }

  lemma JoinStep(a: Text, b: Text, n: nat)
    requires a != "" && Ended(a) && n == Break(a)
    ensures n < |a| && Ended(a[n+1..])
    ensures Lines(a) == [StripReturn(a[..n])] + Lines(a[n+1..])
    ensures Lines(a + b) == [StripReturn(a[..n])] + Lines(a[n+1..] + b)
  {
    BreakStays(a, b);
    SlicesStay(a, b, n);
    LinesUnfold(a, n);
    LinesUnfold(a + b, n);
  }

  lemma {:induction false} LinesJoin(a: Text, b: Text)
    requires Ended(a)
    ensures Lines(a + b) == Lines(a) + Lines(b)
    decreases |a|
  {
    if a == "" {
      assert a + b == b;
      assert Lines(a) + Lines(b) == Lines(b);
    } else {
      var n := Break(a);
      JoinStep(a, b, n);
      LinesJoin(a[n+1..], b);
      Associates([StripReturn(a[..n])], Lines(a[n+1..]), Lines(b));
    }
  }

  lemma BreakStays(a: Text, b: Text)
    requires a != "" && Ended(a)
    ensures Break(a) < |a| && Break(a + b) == Break(a)
  {
    assert (a + b)[Break(a)] == '\n';
    assert (a + b)[|a|-1] == '\n';
    assert forall i :: 0 <= i < Break(a) ==> (a + b)[i] == a[i];
  }

  lemma LastLine(a: Text, l: Text)
    requires Ended(a) && OneLine(l)
    ensures Lines(a + l) == if l == "" then Lines(a) else Lines(a) + [l]
    ensures Lines(a + l + "\n") == Lines(a) + [StripReturn(l)]
  {
    LinesJoin(a, l);
    LinesJoin(a, l + "\n");
    Associates(a, l, "\n");
    OneBroken(l, l + "\n");
  }

  lemma OneBroken(l: Text, t: Text)
    requires OneLine(l) && t == l + "\n"
    ensures Lines(t) == [StripReturn(l)]
  {
    assert t[|l|] == '\n';
    assert Break(t) == |l|;
    assert t[..|l|] == l && t[|l|+1..] == "";
  }

  ghost predicate AllPlain(t: Text)
  {
    forall i :: 0 <= i < |Lines(t)| ==> Plain(Lines(t)[i])
  }

  lemma PlainJoin(a: Text, b: Text)
    requires Ended(a) && AllPlain(a) && AllPlain(b)
    ensures AllPlain(a + b)
  {
    LinesJoin(a, b);
  }

  // ---- Trimming keeps lines plain ----

  lemma {:induction false} TrimDropsWhite(s: Text, w: char)
    requires White(w)
    ensures Trim(s + [w]) == Trim(s)
    decreases |s|
  {
    if s == "" {
      assert TrimStart([w]) == "";
    } else if White(s[0]) {
      assert (s + [w])[1..] == s[1..] + [w];
      TrimDropsWhite(s[1..], w);
    } else {
      assert (s + [w])[..|s|] == s;
    }
  }

  lemma PlainDropsWhite(l: Text, w: char)
    requires White(w)
    ensures Plain(l + [w]) <==> Plain(l)
  {
    TrimDropsWhite(l, w);
  }

  /** A text is its ended part and a last line without a break. */
  lemma {:induction false} Splits(t: Text) returns (a: Text, l: Text)
    ensures t == a + l && Ended(a) && OneLine(l)
  {
    if Ended(t) {
      a, l := t, "";
    } else {
      var init := t[..|t|-1];
      var b, m := Splits(init);
      a, l := b, m + [t[|t|-1]];
      assert t == init + [t[|t|-1]];
    }
  }

  lemma PlainStripped(l: Text)
    ensures Plain(StripReturn(l)) <==> Plain(l)
  {
    if StripReturn(l) != l {
      assert l == l[..|l|-1] + ['\r'];
      PlainDropsWhite(l[..|l|-1], '\r');
    }
  }

  lemma PlainParts(a: Text, l: Text)
    requires Ended(a) && OneLine(l)
    ensures AllPlain(a + l + "\n") <==> AllPlain(a) && Plain(l)
    ensures l != "" ==> (AllPlain(a + l) <==> AllPlain(a) && Plain(l))
  {
    LastLine(a, l);
    PlainStripped(l);
    PlainLists(Lines(a), StripReturn(l), Lines(a + l + "\n"));
    if l != "" {
      PlainLists(Lines(a), l, Lines(a + l));
    }
  }

  lemma PlainLists(lines: seq<Text>, l: Text, all: seq<Text>)
    requires all == lines + [l]
    ensures (forall i :: 0 <= i < |all| ==> Plain(all[i])) <==> (forall i :: 0 <= i < |lines| ==> Plain(lines[i])) && Plain(l)
  {
    assert all[|lines|] == l;
    assert forall i :: 0 <= i < |lines| ==> all[i] == lines[i];
  }

  lemma PlainShorter(s: Text, w: char)
    requires White(w) && AllPlain(s + [w])
    ensures AllPlain(s)
  {
    var a, l := Splits(s);
    assert s + [w] == a + (l + [w]);
    PlainDropsWhite(l, w);
    if w == '\n' {
      assert a + (l + [w]) == a + l + "\n";
    } else {
      PlainParts(a, l + [w]);
    }
    if l == "" {
      assert a + l == a;
    }
    PlainParts(a, l);
  }

  lemma {:induction false} TrimEndPlain(t: Text)
    requires AllPlain(t)
    ensures AllPlain(TrimEnd(t) + "\n")
  {
    if t != "" && White(t[|t|-1]) {
      assert t == t[..|t|-1] + [t[|t|-1]];
      PlainShorter(t[..|t|-1], t[|t|-1]);
      TrimEndPlain(t[..|t|-1]);
    } else {
      EndPlain(t);
    }
  }

  lemma EndPlain(t: Text)
    requires AllPlain(t) && (t != "" ==> t[|t|-1] != '\n')
    ensures AllPlain(t + "\n")
  {
    var a, l := Splits(t);
    if l == "" {
      assert a == "";
      EmptyIsPlain();
    }
    PlainParts(a, l);
  }

  lemma EmptyIsPlain()
    ensures Plain("")
  {
  }

  // ---- Resolving twice ----

  /** Every declaration is one line, and no directive. */
  ghost predicate DeclaresLines(src: Source)
  {
    forall name :: src.declare(name).Some? ==> OneLine(src.declare(name).value) && Plain(src.declare(name).value)
  }

  lemma {:induction false} LinesAreLines(t: Text)
    ensures AllLines(Lines(t))
    decreases |t|
  {
    if t != "" && Break(t) < |t| {
      LinesAreLines(t[Break(t)+1..]);
    }
  }

  ghost predicate AllLines(lines: seq<Text>)
  {
    forall i :: 0 <= i < |lines| ==> OneLine(lines[i])
  }

  /** No directive left, and the last line ended. */
  ghost predicate Settled(t: Text) { Ended(t) && AllPlain(t) }

  lemma LineSettled(line: Text)
    requires OneLine(line) && Plain(line)
    ensures Settled(line + "\n")
  {
    PlainParts("", line);
    assert "" + line + "\n" == line + "\n";
  }

  /** A resolved text has no directive left. */
  lemma {:induction false} TextSettled(src: Source, lines: seq<Text>, level: nat)
    requires src.Acyclic() && src.Below(lines, level) && DeclaresLines(src) && AllLines(lines)
    requires src.LinesText(lines, level).Some?
    ensures Settled(src.LinesText(lines, level).value)
    decreases level, 1 + |lines|
  {
    if lines != [] {
      var (init, line) := (lines[..|lines|-1], lines[|lines|-1]);
      TextSettled(src, init, level);
      if IncludeOf(line).Some? {
        var name := IncludeOf(line).value;
        LinesAreLines(src.snippets[name]);
        TextSettled(src, Lines(src.snippets[name]), src.rank(name));
        TrimEndPlain(src.LinesText(Lines(src.snippets[name]), src.rank(name)).value);
      } else if ConstOf(line).Some? {
        LineSettled(src.declare(ConstOf(line).value).value);
      } else {
        LineSettled(line);
      }
      PlainJoin(src.LinesText(init, level).value, src.LineText(line, level).value);
    }
  }

  lemma {:induction false} PlainIsKept(src: Source, lines: seq<Text>, level: nat)
    requires src.Acyclic() && forall i :: 0 <= i < |lines| ==> Plain(lines[i])
    ensures src.Below(lines, level) && src.LinesText(lines, level) == Some(Joined(lines))
  {
    if lines != [] {
      PlainIsKept(src, lines[..|lines|-1], level);
    }
  }

  function Joined(lines: seq<Text>): Text
  {
    if lines == [] then "" else Joined(lines[..|lines|-1]) + (lines[|lines|-1] + "\n")
  }

  lemma {:induction false} JoinedFront(line: Text, lines: seq<Text>)
    ensures Joined([line] + lines) == (line + "\n") + Joined(lines)
  {
    if lines != [] {
      JoinedFront(line, lines[..|lines|-1]);
      assert ([line] + lines)[..|lines|] == [line] + lines[..|lines|-1];
    } else {
      assert [line] + lines == [line];
      assert Joined([line]) == "" + (line + "\n");
    }
  }

  /** Some line break comes with a carriage return. */
  ghost predicate ReturnBreaks(t: Text)
  {
    exists i: nat :: ReturnAt(t, i)
  }

  ghost predicate ReturnAt(t: Text, i: nat) { 0 < i < |t| && t[i] == '\n' && t[i-1] == '\r' }

  lemma EndedBreaks(t: Text, n: nat)
    requires Ended(t) && t != "" && n == Break(t)
    ensures n < |t| && Ended(t[n+1..])
  {
    assert t[|t|-1] == '\n';
    if n + 1 < |t| {
      assert t[n+1..][|t|-n-2] == t[|t|-1];
    }
  }

  lemma Reassembles(t: Text, n: nat)
    requires n < |t| && t[n] == '\n'
    ensures t == (t[..n] + "\n") + t[n+1..]
  {
  }

  lemma FirstLine(t: Text, n: nat)
    requires Ended(t) && t != "" && n == Break(t)
    ensures n < |t| && Ended(t[n+1..]) && t == (t[..n] + "\n") + t[n+1..]
    ensures Lines(t) == [StripReturn(t[..n])] + Lines(t[n+1..])
  {
    EndedBreaks(t, n);
    Reassembles(t, n);
    LinesUnfold(t, n);
  }

  lemma ReturnsSplit(t: Text, n: nat)
    requires n == Break(t) < |t|
    ensures ReturnBreaks(t) <==> ReturnAt(t, n) || ReturnBreaks(t[n+1..])
  {
    var rest := t[n+1..];
    if i :| 0 < i < |rest| && ReturnAt(rest, i) {
      assert t[n+1+i] == rest[i] && t[n+i] == rest[i-1];
      assert ReturnAt(t, n+1+i);
    }
    if i :| 0 < i < |t| && ReturnAt(t, i) && i != n {
      assert i > n && t[i-1] != '\n';
      assert i > n + 1;
      assert rest[i-n-1] == t[i] && rest[i-n-2] == t[i-1];
      assert ReturnAt(rest, i-n-1);
    }
  }

  /** Lines joined again are the text, or shorter by the carriage returns of its breaks. */
  lemma {:induction false} LinesRejoin(t: Text)
    requires Ended(t)
    ensures !ReturnBreaks(t) ==> Joined(Lines(t)) == t
    ensures |Joined(Lines(t))| <= |t| && (ReturnBreaks(t) ==> |Joined(Lines(t))| < |t|)
    decreases |t|
  {
    if t == "" {
      assert !ReturnBreaks(t);
    } else {
      var n := Break(t);
      FirstLine(t, n);
      ReturnsSplit(t, n);
      LinesRejoin(t[n+1..]);
      JoinedFront(StripReturn(t[..n]), Lines(t[n+1..]));
    }
  }

  /** Resolving a resolved text changes it exactly when one of its line breaks comes with
      a carriage return. */
  lemma ResolvedTwiceIff(src: Source, text: Text, level: nat, other: Source, level': nat)
    requires src.Acyclic() && src.Below(Lines(text), level) && DeclaresLines(src)
    requires other.Acyclic() && src.LinesText(Lines(text), level).Some?
    ensures var out := src.LinesText(Lines(text), level).value;
      && other.Below(Lines(out), level')
      && (other.LinesText(Lines(out), level') == Some(out) <==> !ReturnBreaks(out))
  {
    var out := src.LinesText(Lines(text), level).value;
    LinesAreLines(text);
    TextSettled(src, Lines(text), level);
    PlainIsKept(other, Lines(out), level');
    LinesRejoin(out);
  }

  /** A doubled carriage return loses one to each pass. */
  lemma CarriageReturnsBreak(src: Source)
    requires src.Acyclic()
    ensures Lines("a\r\r\n") == ["a\r"] && src.Below(["a\r"], 0) && src.LinesText(["a\r"], 0) == Some("a\r\n")
    ensures Lines("a\r\n") == ["a"] && src.Below(["a"], 0) && src.LinesText(["a"], 0) == Some("a\n")
  {
    ReturnStripped("a\r", "a\r\r\n");
    ReturnStripped("a", "a\r\n");
    OneKept(src, "a\r", "a\r\n");
    OneKept(src, "a", "a\n");
  }

  lemma ReturnStripped(l: Text, t: Text)
    requires OneLine(l) && t == l + "\r\n"
    ensures Lines(t) == [l]
  {
    assert t[|l|+1] == '\n';
    assert Break(t) == |l| + 1;
    assert t[..|l|+1] == l + "\r" && t[|l|+2..] == "";
    assert StripReturn(l + "\r") == l;
  }

  lemma OneKept(src: Source, l: Text, t: Text)
    requires src.Acyclic() && l != "" && l[0] == 'a' && |l| <= 2 && t == l + "\n"
    ensures src.Below([l], 0) && src.LinesText([l], 0) == Some(t)
  {
    assert |Trim(l)| <= |l|;
    PlainIsKept(src, [l], 0);
    assert Joined([l]) == "" + t == t;
  }
}
