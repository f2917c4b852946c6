/** Small definitions shared by the models. */
module Basics {

  datatype Option<T> = None | Some(value: T)

  /** A hash without collisions remembers what it hashes. */
  datatype Digest<T> = Sha256(content: T)

  ghost predicate Distinct<T>(s: seq<T>)
  {
    forall i, j :: 0 <= i < j < |s| ==> s[i] != s[j]
  }

  function RemoveAt<T>(s: seq<T>, k: nat): (r: seq<T>)
    requires k < |s|
    ensures |r| == |s| - 1
    ensures forall x :: x in r ==> x in s
  {
    s[..k] + s[k+1..]
  }

  lemma CountedTwice<T>(s: seq<T>, i: nat, j: nat)
    requires i < j < |s| && s[i] == s[j]
    ensures multiset(s)[s[i]] >= 2
  {
    assert s == s[..i] + [s[i]] + s[i+1..j] + [s[j]] + s[j+1..];
  }

  lemma Associates<T>(x: seq<T>, y: seq<T>, z: seq<T>)
    ensures (x + y) + z == x + (y + z)
  {
  }

  // ---- Selections ----

  function Filter<T>(keep: T -> bool, s: seq<T>): seq<T>
  {
    if s == [] then []
    else if keep(s[|s|-1]) then Filter(keep, s[..|s|-1]) + [s[|s|-1]]
    else Filter(keep, s[..|s|-1])
  }

  /** `f` lists, in order, the places of everything in `s` that is kept. */
  ghost predicate Places<T>(keep: T -> bool, s: seq<T>, f: seq<nat>)
  {
    && (forall i, j :: 0 <= i < j < |f| ==> f[i] < f[j])
    && (forall k: nat :: k in f <==> k < |s| && keep(s[k]))
  }

  /** `r` is what stands in `s` at the places `f`, in order. */
  ghost predicate Picks<T>(s: seq<T>, f: seq<nat>, r: seq<T>)
  {
    && (forall i, j :: 0 <= i < j < |f| ==> f[i] < f[j])
    && |r| == |f|
    && forall i :: 0 <= i < |r| ==> f[i] < |s| && r[i] == s[f[i]]
  }

  /** `r` is what is kept of `s`, in order and as often as it occurs. */
  ghost predicate Selects<T>(keep: T -> bool, s: seq<T>, f: seq<nat>, r: seq<T>)
  {
    && Places(keep, s, f) && |r| == |f|
    && forall i :: 0 <= i < |r| ==> f[i] in f && r[i] == s[f[i]]
  }

  lemma SelectsPicks<T>(keep: T -> bool, s: seq<T>, f: seq<nat>, r: seq<T>)
    requires Selects(keep, s, f, r)
    ensures Picks(s, f, r) && forall k: nat :: k in f <==> k < |s| && keep(s[k])
  {
  }

  lemma FilterAppends<T>(keep: T -> bool, s: seq<T>, x: T)
    ensures Filter(keep, s + [x]) == Filter(keep, s) + if keep(x) then [x] else []
  {
    assert (s + [x])[..|s|] == s;
  }

  lemma {:induction false} FilterFirst<T>(keep: T -> bool, x: T, s: seq<T>)
    ensures Filter(keep, [x] + s) == (if keep(x) then [x] else []) + Filter(keep, s)
  {
    if s == [] {
      assert [x] + s == [x] && [x][..0] == [];
    } else {
      FilterFirst(keep, x, s[..|s|-1]);
      assert ([x] + s)[..|s|] == [x] + s[..|s|-1];
    }
  }

  lemma PlacesStep<T>(keep: T -> bool, s: seq<T>, x: T, f: seq<nat>)
    requires Places(keep, s, f)
    ensures Places(keep, s + [x], if keep(x) then f + [|s|] else f)
  {
    var (t, g) := (s + [x], if keep(x) then f + [|s|] else f);
    forall k: nat ensures k in g <==> k < |t| && keep(t[k])
    {
      assert k in g <==> k in f || (keep(x) && k == |s|);
    }
    forall i, j | 0 <= i < j < |g| ensures g[i] < g[j]
    {
      if j == |f| { assert f[i] in f; }
    }
  }

  lemma {:induction false} FilterSelects<T>(keep: T -> bool, s: seq<T>) returns (f: seq<nat>)
    ensures Selects(keep, s, f, Filter(keep, s)) && Picks(s, f, Filter(keep, s))
  {
    if s == [] {
      f := [];
    } else {
      var (init, x) := (s[..|s|-1], s[|s|-1]);
      assert s == init + [x];
      var g := FilterSelects(keep, init);
      PlacesStep(keep, init, x, g);
      f := if keep(x) then g + [|init|] else g;
    }
  }

  // ---- Sums ----

  function Total(s: seq<real>): real
  {
    if s == [] then 0.0 else Total(s[..|s|-1]) + s[|s|-1]
  }

  lemma {:induction false} TotalFirst(x: real, s: seq<real>)
    ensures Total([x] + s) == x + Total(s)
  {
    if s == [] {
      assert [x] + s == [x] && [x][..0] == [];
    } else {
      TotalFirst(x, s[..|s|-1]);
      assert ([x] + s)[..|s|] == [x] + s[..|s|-1];
    }
  }
}
