/** The persistence worker (server/vordar-server/src/db.rs). */
module Persistence {
  // One FIFO channel of login and save requests, drained in waves, one transaction a wave,
  // replies released only after the commit. Which statements, begins and commits fail is an
  // oracle's choice.

  import opened Basics
  import opened Tables

  datatype Outcome = Granted(record: Record) | BadToken

  datatype Loaded = Loaded(conn: nat, name: string, outcome: Outcome)

  /** `fails` lists the statements of this request that will return an error, numbered
      in the order `login` issues them; a save has the one statement 0. */
  datatype Request =
    | Login(conn: nat, name: string, token: Token, defaults: Record, reply: nat, fails: set<nat>)
    | Save(name: string, record: Record, fails: set<nat>)

  /** A finished login still paired with the request it answers. */
  datatype Reply = Reply(request: Request, outcome: Outcome)

  datatype Fate = Committed | BeginFailed | CommitFailed

  datatype Wave = Wave(batch: seq<Request>, fate: Fate)

  datatype Step<T> = Step(tables: Tables, result: Option<T>)

  datatype Effect = Effect(tables: Tables, replies: seq<Reply>)

  function LoadOrCreate(codec: Codec, t: Tables, name: string, defaults: Record, id: nat, fails: set<nat>): Step<Record>
  {
    if 2 in fails then Step(t, None)
    else
      var t' := InsertCharacter(t, name, defaults, id);
      if 3 in fails then Step(t', None) else Step(t', Some(ToRecord(codec, t'.characters[name])))
  }

  /** The account half of a login: nothing on a failed statement, else the account's id
      or a refusal. */
  function Authenticate(t: Tables, name: string, token: Token, fails: set<nat>): Step<Option<nat>>
  {
    if 0 in fails then Step(t, None)
    else if name !in t.accounts then
      if 1 in fails then Step(t, None)
      else Step(InsertAccount(t, name, Some(Sha256(token))), Some(Some(t.lastId + 1)))
    else
      match t.accounts[name].tokenHash
      case None =>
        if 1 in fails then Step(t, None)
        else Step(ClaimAccount(t, name, Sha256(token)), Some(Some(t.accounts[name].id)))
      case Some(claimed) =>
        Step(t, Some(if claimed == Sha256(token) then Some(t.accounts[name].id) else None))
  }

  function DoLogin(codec: Codec, t: Tables, name: string, token: Token, defaults: Record, fails: set<nat>): Step<Outcome>
  {
    var auth := Authenticate(t, name, token, fails);
    match auth.result
    case None => Step(auth.tables, None)
    case Some(None) => Step(auth.tables, Some(BadToken))
    case Some(Some(id)) =>
      var loaded := LoadOrCreate(codec, auth.tables, name, defaults, id, fails);
      match loaded.result
      case None => Step(loaded.tables, None)
      case Some(record) =>
        if 4 in fails then Step(loaded.tables, None)
        else Step(HealLink(loaded.tables, name, id), Some(Granted(record)))
  }

  /** One request inside an open transaction. */
  function Apply(codec: Codec, t: Tables, r: Request): Step<Outcome>
  {
    match r
    case Login(_, name, token, defaults, _, fails) => DoLogin(codec, t, name, token, defaults, fails)
    case Save(name, record, fails) =>
      Step(if 0 in fails then t else UpdateCharacter(codec, t, name, record), None)
  }

  /** How one request runs inside an open transaction. */
  type Engine = (Tables, Request) -> Step<Outcome>

  function Sql(codec: Codec): Engine { (t: Tables, r: Request) => Apply(codec, t, r) }

  function Answer(r: Request, s: Step<Outcome>): seq<Reply>
  {
    match s.result
    case Some(o) => [Reply(r, o)]
    case None => []
  }

  /** One-at-a-time execution in channel order: the simple form the waves refine. */
  function ApplyAll(run: Engine, t: Tables, batch: seq<Request>): Effect
    decreases |batch|
  {
    if batch == [] then Effect(t, [])
    else
      var s := run(t, batch[0]);
      var rest := ApplyAll(run, s.tables, batch[1..]);
      Effect(rest.tables, Answer(batch[0], s) + rest.replies)
  }

  // ---- The worker ----

  function ToLoaded(r: Reply): Loaded
  {
    match r.request
    case Login(conn, name, _, _, _, _) => Loaded(conn, name, r.outcome)
    case Save(name, _, _) => Loaded(0, name, r.outcome)
  }

  function To(h: nat): Reply -> bool { (r: Reply) => r.request.Login? && r.request.reply == h }

  /** What reaches handle `h`, in order. */
  function Delivered(replies: seq<Reply>, h: nat): seq<Loaded>
  {
    if replies == [] then []
    else
      var r := replies[|replies|-1];
      Delivered(replies[..|replies|-1], h) + if To(h)(r) then [ToLoaded(r)] else []
  }

  class Worker {
    const codec: Codec
    var durable: Tables
    /** The shared request channel, oldest first. */
    var queue: seq<Request>
    /** One private reply channel per minted handle. */
    var inbox: seq<seq<Loaded>>

    constructor (codec: Codec, initial: Tables)
      ensures this.codec == codec && durable == initial && queue == [] && inbox == []
    {
      this.codec := codec;
      durable, queue, inbox := initial, [], [];
    }

    /** `handle` and `fork` alike: a fresh, empty reply channel over the same queue. */
    method Fork() returns (h: nat)
      modifies this`inbox
      ensures h == old(|inbox|) && inbox == old(inbox) + [[]]
    {
      h := |inbox|;
      inbox := inbox + [[]];
    }

    method SendLogin(h: nat, conn: nat, name: string, token: Token, defaults: Record, fails: set<nat>)
      modifies this`queue
      ensures queue == old(queue) + [Login(conn, name, token, defaults, h, fails)]
    {
      queue := queue + [Login(conn, name, token, defaults, h, fails)];
    }

    method SendSave(name: string, record: Record, fails: set<nat>)
      modifies this`queue
      ensures queue == old(queue) + [Save(name, record, fails)]
    {
      queue := queue + [Save(name, record, fails)];
    }

    method Poll(h: nat) returns (loaded: seq<Loaded>)
      requires h < |inbox|
      modifies this`inbox
      ensures loaded == old(inbox)[h] && inbox == old(inbox)[h := []]
    {
      loaded := inbox[h];
      inbox := inbox[h := []];
    }

    /** One turn of the worker loop: the first request, plus the `more` that were
        already queued. A failed begin or commit drops the whole wave. */
    method RunWave(more: nat, fate: Fate)
      requires more < |queue|
      modifies this
      ensures queue == old(queue)[more+1..]
      ensures var effect := WaveEffect(Sql(codec), old(durable), Wave(old(queue)[..more+1], fate));
        durable == effect.tables && |inbox| == old(|inbox|)
        && forall h :: 0 <= h < |inbox| ==> inbox[h] == old(inbox)[h] + Delivered(effect.replies, h)
    {
      var batch := queue[..more+1];
      queue := queue[more+1..];
      if fate == BeginFailed {
        return;
      }
      var tx, loaded := ProcessBatch(Sql(codec), durable, batch);
      if fate == CommitFailed {
        return;
      }
      durable := tx;
      ReleaseReplies(loaded);
    }

    method ReleaseReplies(loaded: seq<Reply>)
      modifies this`inbox
      ensures |inbox| == old(|inbox|)
      ensures forall h :: 0 <= h < |inbox| ==> inbox[h] == old(inbox)[h] + Delivered(loaded, h)
    {
      for i := 0 to |loaded|
        invariant |inbox| == old(|inbox|)
        invariant forall h :: 0 <= h < |inbox| ==> inbox[h] == old(inbox)[h] + Delivered(loaded[..i], h)
      {
        var r := loaded[i];
        assert loaded[..i+1] == loaded[..i] + [r];
        if r.request.Login? && r.request.reply < |inbox| {
          inbox := inbox[r.request.reply := inbox[r.request.reply] + [ToLoaded(r)]];
        }
      }
      assert loaded[..|loaded|] == loaded;
    }
  }

  method ProcessBatch(run: Engine, start: Tables, batch: seq<Request>) returns (tx: Tables, loaded: seq<Reply>)
    ensures Effect(tx, loaded) == ApplyAll(run, start, batch)
  {
    tx, loaded := start, [];
    for i := 0 to |batch|
      invariant var rest := ApplyAll(run, tx, batch[i..]);
        Effect(rest.tables, loaded + rest.replies) == ApplyAll(run, start, batch)
    {
      assert batch[i..][1..] == batch[i+1..];
      var step := run(tx, batch[i]);
      tx := step.tables;
      loaded := loaded + Answer(batch[i], step);
    }
  }

  function WaveEffect(run: Engine, t: Tables, w: Wave): Effect
  {
    if w.fate == Committed then ApplyAll(run, t, w.batch) else Effect(t, [])
  }
}
