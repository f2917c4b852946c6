/** What holds in every interleaving of concurrent `cached` calls over one cache root. */
module CacheRuns {
  import opened Basics
  import opened StageCache

  ghost predicate CompleteStore(store: Store)
  {
    forall k :: k in store ==> Complete(k, store[k])
  }

  function Start(store: Store, calls: seq<Call>): (s: System)
    ensures |s.callers| == |s.calls|
  {
    System(store, calls, seq(|calls|, _ => Probing))
  }

  /** A reader never finds a partial entry: whatever a root that held complete entries
      holds later is complete too. */
  lemma PublishedIsComplete(store: Store, calls: seq<Call>, moves: seq<Move>)
    requires CompleteStore(store)
    ensures CompleteStore(Run(Start(store, calls), moves).store)
    ensures Sound(Run(Start(store, calls), moves))
  {
    RunSound(Start(store, calls), moves);
  }

  /** All callers of one key get the same record, and at most one of them is told it
      was a miss. */
  lemma OneRecordPerKey(store: Store, calls: seq<Call>, moves: seq<Move>, i: nat, j: nat)
    requires CompleteStore(store) && i < |calls| && j < |calls| && calls[i].key == calls[j].key
    requires var s := Run(Start(store, calls), moves);
      && s.callers[i].Done? && s.callers[i].returned.Result?
      && s.callers[j].Done? && s.callers[j].returned.Result?
    ensures var s := Run(Start(store, calls), moves);
      && calls[i].key in s.store
      && s.callers[i].returned.record == s.callers[j].returned.record == s.store[calls[i].key].record
      && (!s.callers[i].returned.hit && !s.callers[j].returned.hit ==> i == j)
  {
    var s := Run(Start(store, calls), moves);
    PublishedIsComplete(store, calls, moves);
    assert CallerSound(s, i) && CallerSound(s, j);
    if i < j { assert !(Missed(s.callers[i]) && Missed(s.callers[j])); }
    if j < i { assert !(Missed(s.callers[j]) && Missed(s.callers[i])); }
  }

  ghost predicate NoMiss(s: System, key: Key)
  {
    |s.callers| == |s.calls| &&
    forall i :: 0 <= i < |s.callers| && s.calls[i].key == key ==> !Missed(s.callers[i])
  }

  /** A key already published is never produced again for anyone who has yet to probe,
      and never reported as a miss. */
  lemma {:induction false} PublishedNeverMisses(s: System, moves: seq<Move>, key: Key)
    requires key in s.store && NoMiss(s, key)
    ensures NoMiss(Run(s, moves), key)
    decreases |moves|
  {
    if moves != [] {
      var t := Next(s, moves[0]);
      NextKeepsEntries(s, moves[0]);
      assert NoMiss(t, key);
      PublishedNeverMisses(t, moves[1..], key);
    }
  }

  /** A true `hits` probe stays true. */
  lemma HitsStays(s: System, moves: seq<Move>, key: Key)
    requires |s.callers| == |s.calls| && Hits(s.store, key)
    ensures Hits(Run(s, moves).store, key)
  {
    EntriesAreForever(s, moves);
  }

  // ---- `cached` refines running `produce` ----

  /** What producing a key writes, and which outputs are declared for it. */
  datatype Producer = Producer(produce: Key -> Files, outputs: Key -> set<string>)
  {
    ghost predicate Writes(key: Key, files: Files)
    {
      forall n :: n in outputs(key) && n in files ==> n in produce(key) && files[n] == produce(key)[n]
    }

    ghost predicate Made(key: Key, e: Entry)
    {
      && Complete(key, e) && Writes(key, e.files)
      && (forall n :: n in outputs(key) <==> OutputKey(key.stage, e.record.unit, n) in e.record.outputs)
    }

    ghost predicate MadeStore(store: Store)
    {
      forall k :: k in store ==> Made(k, store[k])
    }

    ghost predicate Faithful(calls: seq<Call>, m: Move)
    {
      m.Produce? && m.production.Produced? && m.i < |calls| ==> Writes(calls[m.i].key, m.production.files)
    }

    ghost predicate Declares(calls: seq<Call>)
    {
      forall i :: 0 <= i < |calls| ==> calls[i].outputNames == outputs(calls[i].key)
    }

    ghost predicate Invariant(s: System)
    {
      && |s.callers| == |s.calls| && MadeStore(s.store) && Declares(s.calls)
      && forall i :: 0 <= i < |s.callers| && s.callers[i].Sealed? ==> Made(s.calls[i].key, s.callers[i].entry)
    }

    lemma SealMade(call: Call, p: Production)
      requires Seal(call, p).Some? && call.outputNames == outputs(call.key) && Writes(call.key, p.files)
      ensures Made(call.key, Seal(call, p).value)
    {
      SealComplete(call, p);
    }

    lemma NextMade(s: System, m: Move)
      requires Invariant(s) && Faithful(s.calls, m)
      ensures Invariant(Next(s, m))
    {
      if m.Produce? && m.i < |s.callers| && s.callers[m.i].Building? && Seal(s.calls[m.i], m.production).Some? {
        SealMade(s.calls[m.i], m.production);
      }
    }

    lemma {:induction false} RunMade(s: System, moves: seq<Move>)
      requires Invariant(s) && forall m :: m in moves ==> Faithful(s.calls, m)
      ensures Invariant(Run(s, moves))
      decreases |moves|
    {
      if moves != [] {
        NextMade(s, moves[0]);
        RunMade(Next(s, moves[0]), moves[1..]);
      }
    }
  }

  /** If what `produce` writes depends on the key alone, then in every interleaving the
      directory a caller is handed holds, for each declared output, the bytes a direct
      run would have written, under the hash the record states. */
  lemma CachedRefinesProduce(prod: Producer, store: Store, calls: seq<Call>, moves: seq<Move>, i: nat, n: string)
    requires prod.MadeStore(store) && prod.Declares(calls)
    requires forall m :: m in moves ==> prod.Faithful(calls, m)
    requires i < |calls| && n in calls[i].outputNames
    requires var c := Run(Start(store, calls), moves).callers[i]; c.Done? && c.returned.Result?
    ensures var (key, s) := (calls[i].key, Run(Start(store, calls), moves));
      && key in s.store && n in s.store[key].files && n in prod.produce(key)
      && s.store[key].files[n] == prod.produce(key)[n]
      && var r := s.callers[i].returned.record;
         OutputKey(key.stage, r.unit, n) in r.outputs
         && r.outputs[OutputKey(key.stage, r.unit, n)] == Sha256(prod.produce(key)[n])
  {
    var s := Run(Start(store, calls), moves);
    PublishedIsComplete(store, calls, moves);
    assert CallerSound(s, i);
    prod.RunMade(Start(store, calls), moves);
    assert prod.Made(calls[i].key, s.store[calls[i].key]);
  }

  // ---- Reading outputs back ----

  /** `outputs_of`: the named outputs of a record; `None` is the CacheError. */
  function OutputsOf(r: Record, names: set<string>): Option<map<OutputKey, Digest<string>>>
  {
    if forall n :: n in names ==> exists o :: o in r.outputs && o.name == n
    then Some(map o | o in r.outputs && o.name in names :: r.outputs[o])
    else None
  }

  /** An output key as it is written: stage, unit if any, and name, between colons. */
  function KeyText(stage: string, unit: Option<string>, name: string): string
  {
    stage + (if unit.Some? then ":" + unit.value else "") + ":" + name
  }

  /** `rsplit(":", 1)[1]`: what follows the last colon. */
  function AfterLast(text: string): string
  {
    if text == "" || text[|text|-1] == ':' then "" else AfterLast(text[..|text|-1]) + [text[|text|-1]]
  }

  lemma {:induction false} AfterLastHasNone(text: string)
    ensures ':' !in AfterLast(text)
  {
    if text != "" && text[|text|-1] != ':' {
      AfterLastHasNone(text[..|text|-1]);
    }
  }

  lemma {:induction false} AfterColon(before: string, name: string)
    requires ':' !in name
    ensures AfterLast(before + ":" + name) == name
  {
    if name != "" {
      var init := name[..|name|-1];
      AfterColon(before, init);
      assert (before + ":" + name)[..|before| + |name|] == before + ":" + init;
    }
  }

  /** The name is read back from the key's text exactly when it holds no colon itself. */
  lemma NameReadBackIff(stage: string, unit: Option<string>, name: string)
    ensures AfterLast(KeyText(stage, unit, name)) == name <==> ':' !in name
  {
    AfterLastHasNone(KeyText(stage, unit, name));
    if ':' !in name {
      AfterColon(stage + (if unit.Some? then ":" + unit.value else ""), name);
    }
  }

  /** The unit is a label: in every interleaving, a caller's outputs carry its own unit
      exactly when the unit that published the entry is the same. */
  lemma UnitIsThePublishers(store: Store, calls: seq<Call>, moves: seq<Move>, i: nat)
    requires CompleteStore(store) && i < |calls|
    requires var c := Run(Start(store, calls), moves).callers[i];
      c.Done? && c.returned.Result? && c.returned.record.outputs != map[]
    ensures var s := Run(Start(store, calls), moves);
      var record := s.callers[i].returned.record;
      && calls[i].key in s.store && record == s.store[calls[i].key].record
      && ((forall o :: o in record.outputs ==> o.unit == calls[i].unit) <==> record.unit == calls[i].unit)
  {
    var s := Run(Start(store, calls), moves);
    PublishedIsComplete(store, calls, moves);
    assert CallerSound(s, i);
    assert Complete(calls[i].key, s.store[calls[i].key]);
    var o :| o in s.callers[i].returned.record.outputs;
  }

  /** A consumer can always merge its producer's declared outputs verbatim. */
  lemma DeclaredOutputsAreFound(prod: Producer, key: Key, e: Entry, names: set<string>)
    requires prod.Made(key, e) && names <= prod.outputs(key)
    ensures var found := OutputsOf(e.record, names);
      && found.Some?
      && (forall o :: o in found.value <==> o.name in names && o == OutputKey(key.stage, e.record.unit, o.name))
      && (forall o :: o in found.value ==> o in e.record.outputs && found.value[o] == e.record.outputs[o])
  {
    forall n | n in names
      ensures exists o :: o in e.record.outputs && o.name == n
    {
      assert OutputKey(key.stage, e.record.unit, n) in e.record.outputs;
    }
  }
}
