/** Canvases: which views share one, and how their cache units fill the views' albedo
    sources (proptex/generate.py `view_pairs`, prop_texture.py `generate_units`). */
module ViewPairs {
  import opened Basics
  import opened StageCache

  type Pair = seq<nat>

  // ---- Pairing ----

  function BasePairs(base: nat): seq<Pair>
  {
    seq(base / 2, i requires 0 <= i < base / 2 => [i, i + base / 2]) + if base % 2 == 1 then [[base - 1]] else []
  }

  /** Picked views pair among themselves, in pick order. */
  function ExtraPairs(from: nat, n: nat): seq<Pair>
    decreases n - from
  {
    if from >= n then []
    else if from + 1 < n then [[from, from + 1]] + ExtraPairs(from + 2, n)
    else [[from]]
  }

  function PairsOf(n: nat, extra: nat): seq<Pair>
    requires extra <= n
  {
    BasePairs(n - extra) + ExtraPairs(n - extra, n)
  }

  method Pairs(n: nat, extra: nat) returns (pairs: seq<Pair>)
    requires extra <= n
    ensures pairs == PairsOf(n, extra)
  {
    var base := n - extra;
    var half := base / 2;
    pairs := seq(half, i requires 0 <= i < half => [i, i + half]);
    if base % 2 == 1 {
      pairs := pairs + [[base - 1]];
    }
    var i := base;
    while i < n
      invariant base <= i
      invariant pairs + ExtraPairs(i, n) == PairsOf(n, extra)
      decreases n - i
    {
      var pair := if i + 1 < n then [i, i + 1] else [i];
      assert ExtraPairs(i, n) == [pair] + ExtraPairs(i + 2, n);
      pairs := pairs + [pair];
      i := i + 2;
    }
  }

  /** A canvas and a slot on it. */
  datatype Place = Place(canvas: nat, slot: nat)

  predicate OnCanvas(pairs: seq<Pair>, p: Place)
  {
    p.canvas < |pairs| && p.slot < |pairs[p.canvas]|
  }

  /** Where a view's crop is. */
  function PlaceOf(n: nat, extra: nat, view: nat): Place
    requires extra <= n && view < n
  {
    var base := n - extra;
    var half := base / 2;
    if view < half then Place(view, 0)
    else if view < 2 * half then Place(view - half, 1)
    else if view < base then Place(half, 0)
    else Place(half + base % 2 + (view - base) / 2, (view - base) % 2)
  }

  lemma {:induction false} ExtraAt(from: nat, n: nat, k: nat)
    requires from <= n
    ensures |ExtraPairs(from, n)| == (n - from + 1) / 2
    ensures k < |ExtraPairs(from, n)| ==>
      ExtraPairs(from, n)[k] == if from + 2 * k + 1 < n then [from + 2 * k, from + 2 * k + 1] else [from + 2 * k]
    decreases n - from
  {
    if from + 1 < n {
      ExtraAt(from + 2, n, if k == 0 then 0 else k - 1);
    }
  }

  /** The `k`-th canvas. */
  function CanvasAt(base: nat, half: nat, odd: nat, n: nat, k: nat): Pair
    requires base == 2 * half + odd
  {
    if k < half then [k, k + half]
    else if k < half + odd then [2 * half]
    else
      var view := base + 2 * (k - half - odd);
      if view + 1 < n then [view, view + 1] else [view]
  }

  lemma PairsAt(n: nat, extra: nat, k: nat)
    requires extra <= n
    ensures var (base, pairs) := (n - extra, PairsOf(n, extra));
      && |pairs| == base / 2 + base % 2 + (extra + 1) / 2
      && (k < |pairs| ==> pairs[k] == CanvasAt(base, base / 2, base % 2, n, k))
  {
    var base := n - extra;
    ExtraAt(base, n, if k >= |BasePairs(base)| then k - |BasePairs(base)| else 0);
  }

  lemma PlaceHolds(n: nat, extra: nat, view: nat)
    requires extra <= n && view < n
    ensures OnCanvas(PairsOf(n, extra), PlaceOf(n, extra, view))
    ensures var p := PlaceOf(n, extra, view); PairsOf(n, extra)[p.canvas][p.slot] == view
  {
    PairsAt(n, extra, PlaceOf(n, extra, view).canvas);
  }

  lemma HeldAtPlace(n: nat, extra: nat, p: Place)
    requires extra <= n && OnCanvas(PairsOf(n, extra), p)
    ensures var view := PairsOf(n, extra)[p.canvas][p.slot]; view < n && PlaceOf(n, extra, view) == p
  {
    PairsAt(n, extra, p.canvas);
  }

  /** Every view has exactly one place, for every count of views and of picks. */
  lemma ViewsPartition(n: nat, extra: nat, view: nat, p: Place)
    requires extra <= n && view < n
    ensures OnCanvas(PairsOf(n, extra), PlaceOf(n, extra, view))
    ensures OnCanvas(PairsOf(n, extra), p) ==>
      (PairsOf(n, extra)[p.canvas][p.slot] == view <==> p == PlaceOf(n, extra, view))
  {
    PlaceHolds(n, extra, view);
    if OnCanvas(PairsOf(n, extra), p) {
      HeldAtPlace(n, extra, p);
    }
  }

  /** No canvas mixes a base view and a picked one; two base views on one canvas are
      half the base apart, opposite when the base is even. */
  lemma PairsDoNotMix(n: nat, extra: nat, k: nat)
    requires extra <= n && k < |PairsOf(n, extra)|
    ensures var (pair, base) := (PairsOf(n, extra)[k], n - extra);
      && 1 <= |pair| <= 2
      && (|pair| == 2 ==> (pair[0] < base <==> pair[1] < base))
      && (|pair| == 2 && pair[1] < base ==> pair[1] - pair[0] == base / 2)
      && (|pair| == 2 && pair[0] >= base ==> pair[1] == pair[0] + 1)
  {
    var base := n - extra;
    ExtraAt(base, n, if k >= |BasePairs(base)| then k - |BasePairs(base)| else 0);
  }

  // ---- Filling the sources ----

  datatype Source = Unset | Set(place: Place)

  method FillSources(n: nat, extra: nat, pairs: seq<Pair>) returns (sources: seq<Source>)
    requires extra <= n && pairs == PairsOf(n, extra)
    ensures |sources| == n
    ensures forall view :: 0 <= view < n ==> sources[view] == Set(PlaceOf(n, extra, view))
  {
    sources := seq(n, _ => Unset);
    for k := 0 to |pairs|
      invariant |sources| == n
      invariant forall view :: 0 <= view < n && PlaceOf(n, extra, view).canvas < k ==> sources[view] == Set(PlaceOf(n, extra, view))
    {
      for slot := 0 to |pairs[k]|
        invariant |sources| == n
        invariant forall view :: 0 <= view < n && Filled(PlaceOf(n, extra, view), k, slot) ==>
          sources[view] == Set(PlaceOf(n, extra, view))
      {
        var view := pairs[k][slot];
        HeldAtPlace(n, extra, Place(k, slot));
        sources := sources[view := Set(Place(k, slot))];
        forall v | 0 <= v < n && Filled(PlaceOf(n, extra, v), k, slot + 1)
          ensures sources[v] == Set(PlaceOf(n, extra, v))
        {
          ViewsPartition(n, extra, v, Place(k, slot));
        }
      }
      forall v | 0 <= v < n && PlaceOf(n, extra, v).canvas < k + 1
        ensures sources[v] == Set(PlaceOf(n, extra, v))
      {
        ViewsPartition(n, extra, v, Place(k, 0));
        assert Filled(PlaceOf(n, extra, v), k, |pairs[k]|);
      }
    }
    forall v | 0 <= v < n
      ensures sources[v] == Set(PlaceOf(n, extra, v))
    {
      ViewsPartition(n, extra, v, Place(0, 0));
    }
  }

  predicate Filled(p: Place, canvas: nat, slot: nat)
  {
    p.canvas < canvas || (p.canvas == canvas && p.slot < slot)
  }

  // ---- The canvases ----

  /** What other processes publish into the shared root while this one runs, and what
      each of its own producers would write. */
  datatype World = World(beforeProbe: nat -> Store, beforeCanvas: nat -> Store, duringCanvas: nat -> Store,
                         production: nat -> Production)

  /** Published entries are never replaced. */
  function Joined(store: Store, others: Store): Store { others + store }

  /** One run of a producer, and whether the server was open. */
  datatype Ran = Ran(canvas: nat, open: bool)

  datatype Outcome = Canvases(records: seq<Record>, sources: seq<Source>) | Failed

  ghost predicate Kept(before: Store, after: Store)
  {
    forall k :: k in before ==> k in after && after[k] == before[k]
  }

  /** The records are those published for the first calls. */
  ghost predicate Published(store: Store, calls: seq<Call>, records: seq<Record>)
  {
    && |records| <= |calls|
    && forall k :: 0 <= k < |records| ==> calls[k].key in store && store[calls[k].key].record == records[k]
  }

  lemma PublishedKept(before: Store, after: Store, calls: seq<Call>, records: seq<Record>, r: Record)
    requires Kept(before, after) && Published(before, calls, records) && |records| < |calls|
    requires calls[|records|].key in after && after[calls[|records|].key].record == r
    ensures Published(after, calls, records + [r])
  {
  }

  /** Whether some canvas misses. The store only grows meanwhile. */
  method AnyMiss(root: CacheRoot, calls: seq<Call>, world: World) returns (miss: bool)
    modifies root
    ensures Kept(old(root.store), root.store)
    ensures !miss ==> forall k :: 0 <= k < |calls| ==> Hits(root.store, calls[k].key)
    ensures miss ==> exists k :: 0 <= k < |calls| && !Hits(old(root.store), calls[k].key)
  {
    for k := 0 to |calls|
      invariant Kept(old(root.store), root.store)
      invariant forall j :: 0 <= j < k ==> Hits(root.store, calls[j].key)
    {
      root.store := Joined(root.store, world.beforeProbe(k));
      if !Hits(root.store, calls[k].key) {
        return true;
      }
    }
    return false;
  }

  /** Producers ran for canvases below `k` that were missing to begin with, in order and at
      most once each. */
  ghost predicate RunsFor(log: seq<Ran>, before: Store, calls: seq<Call>, k: nat)
    requires k <= |calls|
  {
    && (forall i :: 0 <= i < |log| ==> log[i].canvas < k && !Hits(before, calls[log[i].canvas].key))
    && (forall i, j :: 0 <= i < j < |log| ==> log[i].canvas < log[j].canvas)
  }

  lemma RunsForMore(log: seq<Ran>, before: Store, now: Store, calls: seq<Call>, k: nat, open: bool)
    requires k < |calls| && RunsFor(log, before, calls, k) && Kept(before, now)
    ensures RunsFor(log, before, calls, k + 1)
    ensures !Hits(now, calls[k].key) ==> RunsFor(log + [Ran(k, open)], before, calls, k + 1)
  {
  }

  ghost predicate SomeFails(calls: seq<Call>, world: World)
  {
    exists k :: 0 <= k < |calls| && Seal(calls[k], world.production(k)).None?
  }

  /** No producer runs while the server is closed, for a canvas already published, or twice;
      every canvas handed on is published, and nothing else fails than a production. */
  method CacheCanvases(root: CacheRoot, calls: seq<Call>, open: bool, world: World)
    returns (records: Option<seq<Record>>, log: seq<Ran>)
    requires !open ==> forall k :: 0 <= k < |calls| ==> Hits(root.store, calls[k].key)
    modifies root
    ensures Kept(old(root.store), root.store)
    ensures log != [] ==> open
    ensures forall i :: 0 <= i < |log| ==> log[i].open
    ensures RunsFor(log, old(root.store), calls, |calls|)
    ensures records.None? ==> SomeFails(calls, world)
    ensures records.Some? ==> |records.value| == |calls| && Published(root.store, calls, records.value)
  {
    var done: seq<Record> := [];
    log := [];
    for k := 0 to |calls|
      invariant Kept(old(root.store), root.store)
      invariant log != [] ==> open
      invariant forall i :: 0 <= i < |log| ==> log[i].open
      invariant RunsFor(log, old(root.store), calls, k)
      invariant |done| == k && Published(root.store, calls, done)
    {
      ghost var store := root.store;
      root.store := Joined(root.store, world.beforeCanvas(k));
      RunsForMore(log, old(root.store), root.store, calls, k, open);
      if !Hits(root.store, calls[k].key) {
        assert open;
        log := log + [Ran(k, open)];
      }
      var r := root.Cached(calls[k], world.production(k), Joined(root.store, world.duringCanvas(k)));
      if r == Error {
        assert Seal(calls[k], world.production(k)).None?;
        return None, log;
      }
      PublishedKept(store, root.store, calls, done, r.record);
      done := done + [r.record];
    }
    records := Some(done);
  }

  function Calls(pairs: seq<Pair>, plan: (nat, Pair) -> Call): (r: seq<Call>)
    ensures |r| == |pairs| && forall k :: 0 <= k < |r| ==> r[k] == plan(k, pairs[k])
  {
    seq(|pairs|, k requires 0 <= k < |pairs| => plan(k, pairs[k]))
  }

  /** `plan` gives a canvas its key and declared outputs. The server is opened only when
      some canvas misses, and is open whenever a producer runs; each view gets the one
      crop that is its own, from a published canvas. */
  method GenerateUnits(root: CacheRoot, plan: (nat, Pair) -> Call, n: nat, extra: nat, world: World)
    returns (outcome: Outcome, serving: bool, log: seq<Ran>)
    requires extra <= n
    modifies root
    ensures Kept(old(root.store), root.store)
    ensures serving ==> exists k :: 0 <= k < |PairsOf(n, extra)| && !Hits(old(root.store), plan(k, PairsOf(n, extra)[k]).key)
    ensures log != [] ==> serving
    ensures forall i :: 0 <= i < |log| ==> log[i].open
    ensures RunsFor(log, old(root.store), Calls(PairsOf(n, extra), plan), |PairsOf(n, extra)|)
    ensures outcome.Failed? ==> SomeFails(Calls(PairsOf(n, extra), plan), world)
    ensures outcome.Canvases? ==>
      && |outcome.records| == |PairsOf(n, extra)| && Published(root.store, Calls(PairsOf(n, extra), plan), outcome.records)
      && |outcome.sources| == n
      && forall view :: 0 <= view < n ==> outcome.sources[view] == Set(PlaceOf(n, extra, view))
  {
    var pairs := Pairs(n, extra);
    var calls := Calls(pairs, plan);
    serving := AnyMiss(root, calls, world);
    var records, ran := CacheCanvases(root, calls, serving, world);
    if records.None? {
      return Failed, serving, ran;
    }
    var sources := FillSources(n, extra, pairs);
    outcome, log := Canvases(records.value, sources), ran;
  }
}
