/** What a call of `cached` returns, and who is told of a miss
    (scripts/ai-pipeline/proptex/cache.py). */
module CacheOutcomes {
  import opened Basics
  import opened StageCache
  import opened CacheRuns

  // ---- Sealing ----

  /** A production becomes an entry exactly when it raised nothing and left every declared
      output; the record then hashes those outputs and no other file. */
  lemma SealIff(call: Call, p: Production)
    ensures Seal(call, p).Some? <==> p.Produced? && forall n :: n in call.outputNames ==> n in p.files
    ensures Seal(call, p).Some? ==>
      var (e, r) := (Seal(call, p).value, Seal(call, p).value.record);
      && e.files == p.files && r.key == call.key && r.unit == call.unit
      && r.elapsed == p.elapsed && r.measurements == p.measurements
      && (forall o :: o in r.outputs <==> o.stage == call.key.stage && o.unit == call.unit && o.name in call.outputNames)
      && (forall o :: o in r.outputs ==> o.name in p.files && r.outputs[o] == Sha256(p.files[o.name]))
  {
  }

  // ---- One caller ----

  ghost predicate At(s: System, i: nat, c: Caller)
  {
    |s.callers| == |s.calls| && i < |s.calls| && s.callers[i] == c
  }

  /** A caller that finds its key is answered from the entry; one that does not, and is not
      overtaken, publishes what it sealed and is told it was a miss, or reports the error and
      leaves no trace. */
  lemma LoneCaller(s: System, i: nat, p: Production)
    requires At(s, i, Probing)
    ensures var (call, probed) := (s.calls[i], Next(s, Probe(i)));
      && probed.store == s.store
      && (call.key in s.store ==> At(probed, i, Done(Result(s.store[call.key].record, true))))
      && (call.key !in s.store ==>
           var built := Next(probed, Produce(i, p));
           && built.store == s.store
           && (Seal(call, p).None? ==> At(built, i, Done(Error)))
           && (Seal(call, p).Some? ==>
                var after := Next(built, Rename(i));
                && At(after, i, Done(Result(Seal(call, p).value.record, false)))
                && after.store == s.store[call.key := Seal(call, p).value]))
  {
  }

  /** A caller that is overtaken throws its own entry away and is answered from the one that
      won, as a hit. */
  lemma OvertakenCaller(s: System, i: nat, e: Entry)
    requires At(s, i, Sealed(e)) && s.calls[i].key in s.store
    ensures var after := Next(s, Rename(i));
      after.store == s.store && At(after, i, Done(Result(s.store[s.calls[i].key].record, true)))
  {
  }

  /** No move of one caller moves another. */
  lemma OthersStay(s: System, m: Move, j: nat)
    requires |s.callers| == |s.calls| && j < |s.callers| && j != m.i
    ensures Next(s, m).callers[j] == s.callers[j] && Next(s, m).calls == s.calls
  {
  }

  // ---- Who misses ----

  ghost predicate SomeMissed(s: System, key: Key)
  {
    |s.callers| == |s.calls| && exists i :: MissedAt(s, i, key)
  }

  ghost predicate MissedAt(s: System, i: nat, key: Key)
  {
    i < |s.callers| && i < |s.calls| && s.calls[i].key == key && Missed(s.callers[i])
  }

  lemma MissedStays(s: System, m: Move, key: Key)
    requires |s.callers| == |s.calls|
    ensures SomeMissed(s, key) ==> SomeMissed(Next(s, m), key)
    ensures SomeMissed(Next(s, m), key) && !SomeMissed(s, key) ==> key !in s.store && key in Next(s, m).store
    ensures key !in s.store && key in Next(s, m).store ==> SomeMissed(Next(s, m), key)
  {
    var t := Next(s, m);
    if SomeMissed(s, key) {
      var i: nat :| MissedAt(s, i, key);
      assert MissedAt(t, i, key);
    }
    if SomeMissed(t, key) && !SomeMissed(s, key) {
      var i: nat :| MissedAt(t, i, key);
      assert !MissedAt(s, i, key);
    }
    if key !in s.store && key in t.store {
      assert MissedAt(t, m.i, key);
    }
  }

  lemma {:induction false} MissesRun(s: System, moves: seq<Move>, key: Key)
    requires |s.callers| == |s.calls|
    ensures SomeMissed(Run(s, moves), key) <==> SomeMissed(s, key) || (key !in s.store && key in Run(s, moves).store)
    decreases |moves|
  {
    if moves != [] {
      var t := Next(s, moves[0]);
      MissedStays(s, moves[0], key);
      NextKeepsEntries(s, moves[0]);
      MissesRun(t, moves[1..], key);
      EntriesAreForever(t, moves[1..]);
    }
  }

  /** In every interleaving, a key is published in it exactly when some caller is told it
      missed; by `OneRecordPerKey` that is one caller. */
  lemma MissedIffPublished(store: Store, calls: seq<Call>, moves: seq<Move>, key: Key)
    ensures SomeMissed(Run(Start(store, calls), moves), key)
       <==> key !in store && key in Run(Start(store, calls), moves).store
  {
    MissesRun(Start(store, calls), moves, key);
    assert forall i :: !MissedAt(Start(store, calls), i, key);
  }

  // ---- Output keys as text ----

  /** Within one stage, outputs of different units or names never share a key. */
  lemma KeysDiffer(stage: string, unit: Option<string>, name: string, other: Option<string>, named: string)
    requires ':' !in name && ':' !in named
    ensures KeyText(stage, unit, name) == KeyText(stage, other, named) <==> unit == other && name == named
  {
    NameReadBackIff(stage, unit, name);
    NameReadBackIff(stage, other, named);
    if KeyText(stage, unit, name) == KeyText(stage, other, named) {
      var (a, b) := (if unit.Some? then ":" + unit.value else "", if other.Some? then ":" + other.value else "");
      assert KeyText(stage, unit, name)[|stage|..|stage| + |a|] == a;
      assert KeyText(stage, other, named)[|stage|..|stage| + |b|] == b;
      if unit.Some? && other.Some? {
        assert a[1..] == unit.value && b[1..] == other.value;
      }
    }
  }
}
