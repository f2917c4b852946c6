/** Handles and the worker, interleaved at will (server/vordar-server/src/db.rs). */
module Conversations {
  // Any order of minting handles, asking through them, worker turns and polls, against the
  // run of waves it amounts to.

  import opened Tables
  import opened Persistence
  import opened PersistenceRuns

  datatype Op =
    | Mint
    | AskLogin(h: nat, conn: nat, name: string, token: Token, defaults: Record, fails: set<nat>)
    | AskSave(name: string, record: Record, fails: set<nat>)
    | Collect(h: nat)
    | Turn(more: nat, fate: Fate)

  /** The worker's state, and what has happened so far: the waves run, the requests sent,
      and what each handle's polls returned. */
  datatype Talk = Talk(durable: Tables, queue: seq<Request>, inbox: seq<seq<Loaded>>,
                       waves: seq<Wave>, sent: seq<Request>, collected: seq<seq<Loaded>>)

  predicate Allowed(s: Talk, op: Op)
  {
    match op
    case AskLogin(h, _, _, _, _, _) => h < |s.inbox|
    case Collect(h) => h < |s.inbox| && h < |s.collected|
    case Turn(more, _) => more < |s.queue|
    case _ => true
  }

  /** A wave's replies appended to the inboxes. */
  function Spread(inbox: seq<seq<Loaded>>, replies: seq<Reply>): (r: seq<seq<Loaded>>)
    ensures |r| == |inbox| && forall h :: 0 <= h < |r| ==> r[h] == inbox[h] + Delivered(replies, h)
  {
    seq(|inbox|, h requires 0 <= h < |inbox| => inbox[h] + Delivered(replies, h))
  }

  function Ask(s: Talk, r: Request): Talk { s.(queue := s.queue + [r], sent := s.sent + [r]) }

  function Next(run: Engine, s: Talk, op: Op): Talk
    requires Allowed(s, op)
  {
    match op
    case Mint => s.(inbox := s.inbox + [[]], collected := s.collected + [[]])
    case AskLogin(h, conn, name, token, defaults, fails) => Ask(s, Login(conn, name, token, defaults, h, fails))
    case AskSave(name, record, fails) => Ask(s, Save(name, record, fails))
    case Collect(h) => s.(inbox := s.inbox[h := []], collected := s.collected[h := s.collected[h] + s.inbox[h]])
    case Turn(more, fate) =>
      var wave := Wave(s.queue[..more+1], fate);
      var effect := WaveEffect(run, s.durable, wave);
      s.(durable := effect.tables, queue := s.queue[more+1..], inbox := Spread(s.inbox, effect.replies),
         waves := s.waves + [wave])
  }

  /** One operation on a real worker is one step of the conversation. */
  method Perform(w: Worker, op: Op, ghost s: Talk) returns (got: seq<Loaded>)
    requires Allowed(s, op) && w.durable == s.durable && w.queue == s.queue && w.inbox == s.inbox
    modifies w
    ensures var t := Next(Sql(w.codec), s, op);
      w.durable == t.durable && w.queue == t.queue && w.inbox == t.inbox
    ensures op.Collect? ==> Next(Sql(w.codec), s, op).collected == s.collected[op.h := s.collected[op.h] + got]
  {
    got := [];
    match op {
      case Mint => var h := w.Fork();
      case AskLogin(h, conn, name, token, defaults, fails) => w.SendLogin(h, conn, name, token, defaults, fails);
      case AskSave(name, record, fails) => w.SendSave(name, record, fails);
      case Collect(h) => got := w.Poll(h);
      case Turn(more, fate) => w.RunWave(more, fate);
    }
  }

  ghost predicate AllAllowed(run: Engine, s: Talk, ops: seq<Op>)
    decreases |ops|
  {
    ops == [] || (Allowed(s, ops[0]) && AllAllowed(run, Next(run, s, ops[0]), ops[1..]))
  }

  function Converse(run: Engine, s: Talk, ops: seq<Op>): Talk
    requires AllAllowed(run, s, ops)
    decreases |ops|
  {
    if ops == [] then s else Converse(run, Next(run, s, ops[0]), ops[1..])
  }

  // ---- The invariant ----

  /** Everything `h` was ever handed, polled or not. */
  function Handed(s: Talk, h: nat): seq<Loaded>
    requires h < |s.inbox| == |s.collected|
  {
    s.collected[h] + s.inbox[h]
  }

  ghost predicate KnownHandles(requests: seq<Request>, count: nat)
  {
    forall r :: r in requests && r.Login? ==> r.reply < count
  }

  /** The run so far explains the tables, the queue and every handle. */
  ghost predicate Explained(run: Engine, t: Tables, s: Talk)
  {
    && s.durable == RunWaves(run, t, s.waves).tables
    && AllRequests(s.waves) + s.queue == s.sent && KnownHandles(s.sent, |s.inbox|)
    && |s.inbox| == |s.collected|
    && forall h :: 0 <= h < |s.inbox| ==> Handed(s, h) == Delivered(RunWaves(run, t, s.waves).replies, h)
  }

  lemma {:induction false} DeliveredConcat(a: seq<Reply>, b: seq<Reply>, h: nat)
    ensures Delivered(a + b, h) == Delivered(a, h) + Delivered(b, h)
  {
    if b == [] {
      assert a + b == a;
    } else {
      assert (a + b)[..|a|+|b|-1] == a + b[..|b|-1];
      DeliveredConcat(a, b[..|b|-1], h);
    }
  }

  lemma RunWavesFirst(run: Engine, t: Tables, w: Wave, rest: seq<Wave>)
    ensures var e := WaveEffect(run, t, w);
      var later := RunWaves(run, e.tables, rest);
      RunWaves(run, t, [w] + rest) == Effect(later.tables, e.replies + later.replies)
    ensures AllRequests([w] + rest) == w.batch + AllRequests(rest)
  {
    assert ([w] + rest)[1..] == rest;
  }

  lemma {:induction false} RunWavesLast(run: Engine, t: Tables, waves: seq<Wave>, w: Wave)
    ensures var e1 := RunWaves(run, t, waves);
      var e2 := WaveEffect(run, e1.tables, w);
      RunWaves(run, t, waves + [w]) == Effect(e2.tables, e1.replies + e2.replies)
    ensures AllRequests(waves + [w]) == AllRequests(waves) + w.batch
    decreases |waves|
  {
    if waves == [] {
      RunWavesFirst(run, t, w, []);
      assert waves + [w] == [w] + [];
    } else {
      var (first, rest) := (waves[0], waves[1..]);
      RunWavesLast(run, WaveEffect(run, t, first).tables, rest, w);
      RunWavesFirst(run, t, first, rest);
      RunWavesFirst(run, t, first, rest + [w]);
      assert waves == [first] + rest && waves + [w] == [first] + (rest + [w]);
    }
  }

  lemma {:induction false} NothingDelivered(replies: seq<Reply>, h: nat)
    requires forall r :: r in replies && r.request.Login? ==> r.request.reply < h
    ensures Delivered(replies, h) == []
  {
    if replies != [] {
      NothingDelivered(replies[..|replies|-1], h);
    }
  }

  lemma {:induction false} CommittedWereSent(waves: seq<Wave>)
    ensures forall r :: r in CommittedRequests(waves) ==> r in AllRequests(waves)
  {
    if waves != [] {
      CommittedWereSent(waves[1..]);
    }
  }

  lemma HandedMore(handed: seq<Loaded>, collected: seq<Loaded>, inbox: seq<Loaded>, replies: seq<Reply>, more: seq<Reply>, h: nat)
    requires handed == collected + inbox == Delivered(replies, h)
    ensures collected + (inbox + Delivered(more, h)) == Delivered(replies + more, h)
  {
    DeliveredConcat(replies, more, h);
    assert collected + (inbox + Delivered(more, h)) == (collected + inbox) + Delivered(more, h);
  }

  ghost predicate HandedAre(collected: seq<seq<Loaded>>, inbox: seq<seq<Loaded>>, replies: seq<Reply>)
  {
    |inbox| == |collected| && forall h :: 0 <= h < |inbox| ==> collected[h] + inbox[h] == Delivered(replies, h)
  }

  lemma SpreadHands(collected: seq<seq<Loaded>>, inbox: seq<seq<Loaded>>, replies: seq<Reply>, more: seq<Reply>)
    requires HandedAre(collected, inbox, replies)
    ensures HandedAre(collected, Spread(inbox, more), replies + more)
  {
    forall h | 0 <= h < |inbox|
      ensures collected[h] + Spread(inbox, more)[h] == Delivered(replies + more, h)
    {
      HandedMore(collected[h] + inbox[h], collected[h], inbox[h], replies, more, h);
    }
  }

  lemma QueueMoves(waved: seq<Request>, queue: seq<Request>, more: nat)
    requires more < |queue|
    ensures (waved + queue[..more+1]) + queue[more+1..] == waved + queue
  {
  }

  lemma TurnExplained(run: Engine, t: Tables, s: Talk, more: nat, fate: Fate)
    requires Explained(run, t, s) && more < |s.queue|
    ensures Explained(run, t, Next(run, s, Turn(more, fate)))
  {
    var wave := Wave(s.queue[..more+1], fate);
    var replies := RunWaves(run, t, s.waves).replies;
    RunWavesLast(run, t, s.waves, wave);
    QueueMoves(AllRequests(s.waves), s.queue, more);
    assert HandedAre(s.collected, s.inbox, replies) by {
      assert forall h :: 0 <= h < |s.inbox| ==> Handed(s, h) == s.collected[h] + s.inbox[h];
    }
    SpreadHands(s.collected, s.inbox, replies, WaveEffect(run, s.durable, wave).replies);
  }

  lemma MintExplained(codec: Codec, t: Tables, s: Talk)
    requires Explained(Sql(codec), t, s)
    ensures Explained(Sql(codec), t, Next(Sql(codec), s, Mint))
  {
    var after := Next(Sql(codec), s, Mint);
    var replies := RunWaves(Sql(codec), t, s.waves).replies;
    RepliesAreCommitted(codec, t, s.waves);
    CommittedWereSent(s.waves);
    assert forall r :: r in AllRequests(s.waves) ==> r in s.sent;
    NothingDelivered(replies, |s.inbox|);
    forall h | 0 <= h < |after.inbox|
      ensures Handed(after, h) == Delivered(replies, h)
    {
      if h < |s.inbox| { assert Handed(after, h) == Handed(s, h); }
    }
  }

  lemma AskExplained(run: Engine, t: Tables, s: Talk, r: Request)
    requires Explained(run, t, s) && (r.Login? ==> r.reply < |s.inbox|)
    ensures Explained(run, t, Ask(s, r))
  {
    assert AllRequests(s.waves) + (s.queue + [r]) == AllRequests(s.waves) + s.queue + [r];
    forall h | 0 <= h < |s.inbox|
      ensures Handed(Ask(s, r), h) == Delivered(RunWaves(run, t, s.waves).replies, h)
    {
      assert Handed(Ask(s, r), h) == Handed(s, h);
    }
  }

  lemma CollectExplained(run: Engine, t: Tables, s: Talk, h: nat)
    requires Explained(run, t, s) && h < |s.inbox|
    ensures Explained(run, t, Next(run, s, Collect(h)))
  {
    var after := Next(run, s, Collect(h));
    forall k | 0 <= k < |s.inbox|
      ensures Handed(after, k) == Delivered(RunWaves(run, t, s.waves).replies, k)
    {
      assert Handed(after, k) == Handed(s, k);
    }
  }

  lemma NextExplained(codec: Codec, t: Tables, s: Talk, op: Op)
    requires Explained(Sql(codec), t, s) && Allowed(s, op)
    ensures Explained(Sql(codec), t, Next(Sql(codec), s, op))
  {
    match op
    case Mint => MintExplained(codec, t, s);
    case AskLogin(h, conn, name, token, defaults, fails) =>
      AskExplained(Sql(codec), t, s, Login(conn, name, token, defaults, h, fails));
    case AskSave(name, record, fails) => AskExplained(Sql(codec), t, s, Save(name, record, fails));
    case Collect(h) => CollectExplained(Sql(codec), t, s, h);
    case Turn(more, fate) => TurnExplained(Sql(codec), t, s, more, fate);
  }

  lemma {:induction false} ConverseExplained(codec: Codec, t: Tables, s: Talk, ops: seq<Op>)
    requires Explained(Sql(codec), t, s) && AllAllowed(Sql(codec), s, ops)
    ensures Explained(Sql(codec), t, Converse(Sql(codec), s, ops))
    decreases |ops|
  {
    if ops != [] {
      NextExplained(codec, t, s, ops[0]);
      ConverseExplained(codec, t, Next(Sql(codec), s, ops[0]), ops[1..]);
    }
  }

  function Fresh(t: Tables): Talk { Talk(t, [], [], [], [], []) }

  /** However handles and worker interleave, the tables and what each handle was handed
      are those of running the committed requests one at a time, in the order sent; and
      every request sent is in some wave or still queued. */
  lemma InterleavingsRefine(codec: Codec, t: Tables, ops: seq<Op>)
    requires AllAllowed(Sql(codec), Fresh(t), ops)
    ensures var s := Converse(Sql(codec), Fresh(t), ops);
      var simple := ApplyAll(Sql(codec), t, CommittedRequests(s.waves));
      && AllRequests(s.waves) + s.queue == s.sent && s.durable == simple.tables
      && |s.inbox| == |s.collected|
      && forall h :: 0 <= h < |s.inbox| ==> Handed(s, h) == Delivered(simple.replies, h)
  {
    ConverseExplained(codec, t, Fresh(t), ops);
    WavesRefineOneAtATime(Sql(codec), t, Converse(Sql(codec), Fresh(t), ops).waves);
  }
}
