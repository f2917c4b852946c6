/** The content-addressed stage cache (scripts/ai-pipeline/proptex/cache.py). */
module StageCache {
  // Entries are built in a private temporary directory and published by one rename, which
  // fails when another producer has already published the key.

  import opened Basics

  /** The canonical-JSON hash of stage, version, params and inputs, without collisions. */
  datatype Key = KeyOf(stage: string, version: string, params: string, inputs: map<string, Digest<string>>)

  type Files = map<string, string>

  /** `unit` labels an entry but is no part of its key. */
  datatype Call = Call(key: Key, unit: string, outputNames: set<string>)

  /** An output's name in a record: the producing stage and unit prefix it. */
  datatype OutputKey = OutputKey(stage: string, unit: string, name: string)

  datatype Record = Record(key: Key, unit: string, outputs: map<OutputKey, Digest<string>>,
                           elapsed: real, measurements: string)

  datatype Entry = Entry(files: Files, record: Record)

  type Store = map<Key, Entry>

  /** What one run of `produce` leaves in its temporary directory, or its exception. */
  datatype Production = Produced(files: Files, elapsed: real, measurements: string) | Raised

  datatype Returned = Result(record: Record, hit: bool) | Error

  function Hits(store: Store, key: Key): bool { key in store }

  function SealRecord(call: Call, p: Production): (r: Record)
    requires p.Produced? && call.outputNames <= p.files.Keys
  {
    Record(call.key, call.unit,
           map n | n in call.outputNames :: OutputKey(call.key.stage, call.unit, n) := Sha256(p.files[n]),
           p.elapsed, p.measurements)
  }

  /** The outcome of `produce` and the check that every declared output was written. */
  function Seal(call: Call, p: Production): Option<Entry>
  {
    if p.Produced? && call.outputNames <= p.files.Keys then Some(Entry(p.files, SealRecord(call, p))) else None
  }

  /** The rename: it creates the directory, or fails because it is there. */
  function Publish(store: Store, key: Key, e: Entry): (Store, Returned)
  {
    if key in store then (store, Result(store[key].record, true))
    else (store[key := e], Result(e.record, false))
  }

  class CacheRoot {
    var store: Store

    constructor (store: Store)
      ensures this.store == store
    {
      this.store := store;
    }

    /** `cached`, run while other processes publish into the same root: `others` is
        the store as it stands, whatever they added, when the rename happens. */
    method Cached(call: Call, p: Production, others: Store) returns (r: Returned)
      requires forall k :: k in store ==> k in others && others[k] == store[k]
      modifies this
      ensures old(call.key in store) ==>
        store == old(store) && r == Result(old(store)[call.key].record, true)
      ensures old(call.key !in store) ==>
        if Seal(call, p).None? then r == Error && store == others
        else (store, r) == Publish(others, call.key, Seal(call, p).value)
      ensures r.Result? ==> call.key in store && r.record == store[call.key].record
    {
      if Hits(store, call.key) {
        return Result(store[call.key].record, true);
      }
      store := others;
      var sealed := Seal(call, p);
      if sealed.None? {
        return Error;
      }
      var (published, result) := Publish(store, call.key, sealed.value);
      store := published;
      r := result;
    }
  }

  // ---- Concurrent callers ----

  /** Where one call of `cached` stands. */
  datatype Caller =
    | Probing
    | Building
    | Sealed(entry: Entry)
    | Done(returned: Returned)
    | Crashed

  /** The shared store and every call in flight. */
  datatype System = System(store: Store, calls: seq<Call>, callers: seq<Caller>)

  datatype Move =
    | Probe(i: nat)
    | Produce(i: nat, production: Production)
    | Rename(i: nat)
    | Crash(i: nat)

  function Next(s: System, m: Move): System
    requires |s.callers| == |s.calls|
  {
    if m.i >= |s.callers| then s
    else
      var call := s.calls[m.i];
      match (m, s.callers[m.i])
      case (Probe(i), Probing) =>
        s.(callers := s.callers[i := if Hits(s.store, call.key)
                                     then Done(Result(s.store[call.key].record, true)) else Building])
      case (Produce(i, p), Building) =>
        s.(callers := s.callers[i := match Seal(call, p) case Some(e) => Sealed(e) case None => Done(Error)])
      case (Rename(i), Sealed(e)) =>
        var (store, returned) := Publish(s.store, call.key, e);
        s.(store := store, callers := s.callers[i := Done(returned)])
      case (Crash(i), Done(_)) => s
      case (Crash(i), _) => s.(callers := s.callers[i := Crashed])
      case _ => s
  }

  function Run(s: System, moves: seq<Move>): (r: System)
    requires |s.callers| == |s.calls|
    ensures |r.callers| == |r.calls| && r.calls == s.calls
    decreases |moves|
  {
    if moves == [] then s else Run(Next(s, moves[0]), moves[1..])
  }

  /** An entry is complete: it carries its own key, and each recorded output is there
      with the recorded hash. */
  ghost predicate Complete(key: Key, e: Entry)
  {
    && e.record.key == key
    && forall o :: o in e.record.outputs ==>
         && o.stage == key.stage && o.unit == e.record.unit
         && o.name in e.files && e.record.outputs[o] == Sha256(e.files[o.name])
  }

  ghost predicate Sound(s: System)
  {
    && |s.callers| == |s.calls|
    && (forall k :: k in s.store ==> Complete(k, s.store[k]))
    && (forall i :: 0 <= i < |s.callers| ==> CallerSound(s, i))
    && (forall i, j :: 0 <= i < j < |s.callers| && s.calls[i].key == s.calls[j].key ==>
          !(Missed(s.callers[i]) && Missed(s.callers[j])))
  }

  ghost predicate CallerSound(s: System, i: nat)
    requires i < |s.callers| == |s.calls|
  {
    match s.callers[i]
    case Sealed(e) => Complete(s.calls[i].key, e) && CoversOutputs(s.calls[i], e)
    case Done(Result(record, _)) => s.calls[i].key in s.store && s.store[s.calls[i].key].record == record
    case _ => true
  }

  /** Every output the call declared is recorded. */
  ghost predicate CoversOutputs(call: Call, e: Entry)
  {
    forall n :: n in call.outputNames ==> OutputKey(call.key.stage, e.record.unit, n) in e.record.outputs
  }

  predicate Missed(c: Caller)
  {
    c.Done? && c.returned.Result? && !c.returned.hit
  }

  lemma SealComplete(call: Call, p: Production)
    requires Seal(call, p).Some?
    ensures Complete(call.key, Seal(call, p).value) && CoversOutputs(call, Seal(call, p).value)
  {
  }

  /** Entries never change or disappear. */
  lemma NextKeepsEntries(s: System, m: Move)
    requires |s.callers| == |s.calls|
    ensures forall k :: k in s.store ==> k in Next(s, m).store && Next(s, m).store[k] == s.store[k]
  {
  }

  lemma {:induction false} EntriesAreForever(s: System, moves: seq<Move>)
    requires |s.callers| == |s.calls|
    ensures forall k :: k in s.store ==> k in Run(s, moves).store && Run(s, moves).store[k] == s.store[k]
    decreases |moves|
  {
    if moves != [] {
      NextKeepsEntries(s, moves[0]);
      EntriesAreForever(Next(s, moves[0]), moves[1..]);
    }
  }

  lemma NextSound(s: System, m: Move)
    requires Sound(s)
    ensures Sound(Next(s, m))
  {
    var t := Next(s, m);
    NextKeepsEntries(s, m);
    if m.i < |s.callers| {
      assert CallerSound(s, m.i);
      if m.Produce? && s.callers[m.i].Building? && Seal(s.calls[m.i], m.production).Some? {
        SealComplete(s.calls[m.i], m.production);
      }
      forall i | 0 <= i < |t.callers|
        ensures CallerSound(t, i)
      {
        assert CallerSound(s, i);
      }
      forall i, j | 0 <= i < j < |t.callers| && t.calls[i].key == t.calls[j].key
        ensures !(Missed(t.callers[i]) && Missed(t.callers[j]))
      {
        assert CallerSound(s, i) && CallerSound(s, j);
      }
    }
  }

  lemma {:induction false} RunSound(s: System, moves: seq<Move>)
    requires Sound(s)
    ensures Sound(Run(s, moves))
    decreases |moves|
  {
    if moves != [] {
      NextSound(s, moves[0]);
      RunSound(Next(s, moves[0]), moves[1..]);
    }
  }
}
