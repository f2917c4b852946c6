/** What every run of the persistence worker keeps. */
module PersistenceRuns {
  // However its queue is cut into waves, and whatever fails.

  import opened Basics
  import opened Tables
  import opened Persistence

  /** A run of the worker: its waves in order. */
  function RunWaves(run: Engine, t: Tables, waves: seq<Wave>): Effect
    decreases |waves|
  {
    if waves == [] then Effect(t, [])
    else
      var first := WaveEffect(run, t, waves[0]);
      var rest := RunWaves(run, first.tables, waves[1..]);
      Effect(rest.tables, first.replies + rest.replies)
  }

  function CommittedRequests(waves: seq<Wave>): seq<Request>
  {
    if waves == [] then []
    else (if waves[0].fate == Committed then waves[0].batch else []) + CommittedRequests(waves[1..])
  }

  function AllRequests(waves: seq<Wave>): seq<Request>
  {
    if waves == [] then [] else waves[0].batch + AllRequests(waves[1..])
  }

  // ---- Waves refine one-at-a-time execution ----

  lemma {:induction false} ApplyAllConcat(run: Engine, t: Tables, a: seq<Request>, b: seq<Request>)
    ensures var e1 := ApplyAll(run, t, a);
      var e2 := ApplyAll(run, e1.tables, b);
      ApplyAll(run, t, a + b) == Effect(e2.tables, e1.replies + e2.replies)
    decreases |a|
  {
    if a == [] {
      assert a + b == b;
    } else {
      var (r, rest) := (a[0], a[1..]);
      var s := run(t, r);
      var e1 := ApplyAll(run, s.tables, rest);
      ApplyAllConcat(run, s.tables, rest, b);
      ApplyAllFirst(run, t, r, rest);
      ApplyAllFirst(run, t, r, rest + b);
      Associates(Answer(r, s), e1.replies, ApplyAll(run, e1.tables, b).replies);
      assert a == [r] + rest;
      Associates([r], rest, b);
    }
  }

  lemma ApplyAllFirst(run: Engine, t: Tables, r: Request, rest: seq<Request>)
    ensures var s := run(t, r);
      var e := ApplyAll(run, s.tables, rest);
      ApplyAll(run, t, [r] + rest) == Effect(e.tables, Answer(r, s) + e.replies)
  {
    assert ([r] + rest)[1..] == rest;
  }

  /** The durable tables and all replies are those of running just the committed
      waves' requests one at a time. */
  lemma {:induction false} WavesRefineOneAtATime(run: Engine, t: Tables, waves: seq<Wave>)
    ensures RunWaves(run, t, waves) == ApplyAll(run, t, CommittedRequests(waves))
    decreases |waves|
  {
    if waves != [] {
      var w := waves[0];
      WavesRefineOneAtATime(run, WaveEffect(run, t, w).tables, waves[1..]);
      if w.fate == Committed {
        ApplyAllConcat(run, t, w.batch, CommittedRequests(waves[1..]));
      } else {
        assert CommittedRequests(waves) == CommittedRequests(waves[1..]);
      }
    }
  }

  lemma {:induction false} AllCommitted(waves: seq<Wave>)
    requires forall w :: w in waves ==> w.fate == Committed
    ensures CommittedRequests(waves) == AllRequests(waves)
  {
    if waves != [] {
      assert waves[0] in waves && forall w :: w in waves[1..] ==> w in waves;
      AllCommitted(waves[1..]);
    }
  }

  /** With every begin and commit succeeding, where the worker cuts its queue into
      waves cannot be observed: not in the tables, and not on any handle. */
  lemma CutsAreInvisible(run: Engine, t: Tables, waves: seq<Wave>, others: seq<Wave>)
    requires AllRequests(waves) == AllRequests(others)
    requires forall w :: w in waves + others ==> w.fate == Committed
    ensures RunWaves(run, t, waves) == RunWaves(run, t, others)
         == ApplyAll(run, t, AllRequests(waves))
    ensures forall h :: Delivered(RunWaves(run, t, waves).replies, h)
                     == Delivered(ApplyAll(run, t, AllRequests(waves)).replies, h)
  {
    assert forall w :: w in waves || w in others ==> w in waves + others;
    AllCommitted(waves);
    AllCommitted(others);
    WavesRefineOneAtATime(run, t, waves);
    WavesRefineOneAtATime(run, t, others);
  }

  /** Every reply answers a login of a committed wave. */
  lemma {:induction false} RepliesAnswerLogins(codec: Codec, t: Tables, batch: seq<Request>)
    ensures forall r :: r in ApplyAll(Sql(codec), t, batch).replies ==> r.request in batch && r.request.Login?
    decreases |batch|
  {
    if batch != [] {
      RepliesAnswerLogins(codec, Apply(codec, t, batch[0]).tables, batch[1..]);
    }
  }

  lemma RepliesAreCommitted(codec: Codec, t: Tables, waves: seq<Wave>)
    ensures forall r :: r in RunWaves(Sql(codec), t, waves).replies ==>
              r.request in CommittedRequests(waves) && r.request.Login?
  {
    WavesRefineOneAtATime(Sql(codec), t, waves);
    RepliesAnswerLogins(codec, t, CommittedRequests(waves));
  }

  // ---- Trust on first use ----

  lemma AuthenticateKeepsHash(t: Tables, name: string, token: Token, fails: set<nat>, other: string)
    requires HashOf(t, other).Some?
    ensures HashOf(Authenticate(t, name, token, fails).tables, other) == HashOf(t, other)
  {
  }

  lemma OnlyAuthenticateTouchesAccounts(codec: Codec, t: Tables, r: Request)
    ensures Apply(codec, t, r).tables.accounts
         == if r.Login? then Authenticate(t, r.name, r.token, r.fails).tables.accounts else t.accounts
  {
  }

  lemma ApplyKeepsHash(codec: Codec, t: Tables, r: Request, name: string)
    requires HashOf(t, name).Some?
    ensures HashOf(Apply(codec, t, r).tables, name) == HashOf(t, name)
  {
    OnlyAuthenticateTouchesAccounts(codec, t, r);
    if r.Login? {
      AuthenticateKeepsHash(t, r.name, r.token, r.fails, name);
    }
  }

  lemma {:induction false} HashNeverChanges(codec: Codec, t: Tables, batch: seq<Request>, name: string)
    requires HashOf(t, name).Some?
    ensures HashOf(ApplyAll(Sql(codec), t, batch).tables, name) == HashOf(t, name)
    decreases |batch|
  {
    if batch != [] {
      ApplyKeepsHash(codec, t, batch[0], name);
      HashNeverChanges(codec, Apply(codec, t, batch[0]).tables, batch[1..], name);
    }
  }

  /** A login is refused exactly when the name is claimed by another token, and then
      it has changed neither table. */
  lemma RefusedIff(codec: Codec, t: Tables, r: Request)
    requires r.Login?
    ensures Apply(codec, t, r).result == Some(BadToken)
       <==> 0 !in r.fails && HashOf(t, r.name).Some? && HashOf(t, r.name) != Some(Sha256(r.token))
    ensures Apply(codec, t, r).result == Some(BadToken) ==> Apply(codec, t, r).tables == t
  {
  }

  lemma GrantClaims(codec: Codec, t: Tables, r: Request)
    requires r.Login? && Apply(codec, t, r).result.Some? && Apply(codec, t, r).result.value.Granted?
    ensures HashOf(Apply(codec, t, r).tables, r.name) == Some(Sha256(r.token))
    ensures HashOf(t, r.name) in {None, Some(Sha256(r.token))}
  {
  }

  /** Every granted reply's token is the one whose hash is durable at the end. */
  lemma {:induction false} GrantsAreDurable(codec: Codec, t: Tables, batch: seq<Request>)
    ensures forall r :: r in ApplyAll(Sql(codec), t, batch).replies && r.outcome.Granted? ==>
      r.request.Login? && HashOf(ApplyAll(Sql(codec), t, batch).tables, r.request.name) == Some(Sha256(r.request.token))
    decreases |batch|
  {
    if batch != [] {
      var (q, s) := (batch[0], Apply(codec, t, batch[0]));
      GrantsAreDurable(codec, s.tables, batch[1..]);
      if q.Login? && s.result.Some? && s.result.value.Granted? {
        GrantClaims(codec, t, q);
        HashNeverChanges(codec, s.tables, batch[1..], q.name);
      }
    }
  }

  /** Over any run, all granted logins of one name carry one token. */
  lemma OneTokenPerName(codec: Codec, t: Tables, waves: seq<Wave>, a: Reply, b: Reply)
    requires var replies := RunWaves(Sql(codec), t, waves).replies; a in replies && b in replies
    requires a.outcome.Granted? && b.outcome.Granted? && a.request.name == b.request.name
    ensures a.request.Login? && b.request.Login? && a.request.token == b.request.token
    ensures HashOf(RunWaves(Sql(codec), t, waves).tables, a.request.name) == Some(Sha256(a.request.token))
  {
    WavesRefineOneAtATime(Sql(codec), t, waves);
    GrantsAreDurable(codec, t, CommittedRequests(waves));
  }

  // ---- Links ----

  lemma AuthenticateLinked(t: Tables, name: string, token: Token, fails: set<nat>)
    requires Linked(t)
    ensures Linked(Authenticate(t, name, token, fails).tables)
  {
    if 0 !in fails && 1 !in fails {
      if name !in t.accounts {
        InsertAccountLinked(t, name, Some(Sha256(token)));
      } else if t.accounts[name].tokenHash.None? {
        ClaimAccountLinked(t, name, Sha256(token));
      }
    }
  }

  lemma AuthenticateNames(t: Tables, name: string, token: Token, fails: set<nat>)
    ensures var s := Authenticate(t, name, token, fails);
      && s.tables.characters == t.characters
      && (s.result.Some? && s.result.value.Some? ==>
            name in s.tables.accounts && s.tables.accounts[name].id == s.result.value.value)
  {
  }

  lemma InsertAccountLinked(t: Tables, name: string, hash: Option<Digest<Token>>)
    requires Linked(t) && name !in t.accounts
    ensures Linked(InsertAccount(t, name, hash))
  {
  }

  lemma ClaimAccountLinked(t: Tables, name: string, hash: Digest<Token>)
    requires Linked(t) && name in t.accounts
    ensures Linked(ClaimAccount(t, name, hash))
  {
  }

  /** Under the link invariant the self-healing UPDATE has nothing to heal. */
  lemma LoginLinked(codec: Codec, t: Tables, name: string, token: Token, defaults: Record, fails: set<nat>)
    requires Linked(t)
    ensures Linked(DoLogin(codec, t, name, token, defaults, fails).tables)
    ensures var s := Authenticate(t, name, token, fails);
      s.result.Some? && s.result.value.Some? ==>
        var loaded := LoadOrCreate(codec, s.tables, name, defaults, s.result.value.value, fails);
        HealLink(loaded.tables, name, s.result.value.value) == loaded.tables
  {
    AuthenticateLinked(t, name, token, fails);
    AuthenticateNames(t, name, token, fails);
    var s := Authenticate(t, name, token, fails);
    if s.result.Some? && s.result.value.Some? {
      InsertLinked(s.tables, name, defaults, s.result.value.value);
    }
  }

  lemma InsertLinked(t: Tables, name: string, defaults: Record, id: nat)
    requires Linked(t) && name in t.accounts && t.accounts[name].id == id
    ensures Linked(InsertCharacter(t, name, defaults, id))
    ensures HealLink(t, name, id) == t
    ensures HealLink(InsertCharacter(t, name, defaults, id), name, id) == InsertCharacter(t, name, defaults, id)
  {
  }

  lemma ApplyLinked(codec: Codec, t: Tables, r: Request)
    requires Linked(t)
    ensures Linked(Apply(codec, t, r).tables)
  {
    if r.Login? {
      LoginLinked(codec, t, r.name, r.token, r.defaults, r.fails);
    }
  }

  lemma {:induction false} ApplyAllLinked(codec: Codec, t: Tables, batch: seq<Request>)
    requires Linked(t)
    ensures Linked(ApplyAll(Sql(codec), t, batch).tables)
    decreases |batch|
  {
    if batch != [] {
      ApplyLinked(codec, t, batch[0]);
      ApplyAllLinked(codec, Apply(codec, t, batch[0]).tables, batch[1..]);
    }
  }

  lemma RunLinked(codec: Codec, t: Tables, waves: seq<Wave>)
    requires Linked(t)
    ensures Linked(RunWaves(Sql(codec), t, waves).tables)
  {
    WavesRefineOneAtATime(Sql(codec), t, waves);
    ApplyAllLinked(codec, t, CommittedRequests(waves));
  }

  // ---- A relogin sees its own save ----

  ghost predicate Holds(codec: Codec, t: Tables, name: string, record: Record)
  {
    name in t.characters && ToRecord(codec, t.characters[name]) == record
  }

  /** What a later load gives back for a saved record: an unencodable cooldown map is
      stored, and so read back, as the empty one. */
  function AsStored(codec: Codec, r: Record): Record
  {
    r.(cooldowns := if codec.encode(r.cooldowns).Some? then r.cooldowns else map[], cooldownsCorrupt := false)
  }

  /** `got` is `saved`, less cooldowns that could not be encoded. */
  ghost predicate IsSaved(codec: Codec, saved: Record, got: Record)
  {
    && got.zone == saved.zone && got.pos == saved.pos && got.health == saved.health && got.xp == saved.xp
    && !got.cooldownsCorrupt
    && got.cooldowns == if codec.encode(saved.cooldowns).Some? then saved.cooldowns else map[]
  }

  lemma SaveHolds(codec: Codec, t: Tables, name: string, record: Record)
    requires codec.Faithful() && name in t.characters
    ensures Holds(codec, UpdateCharacter(codec, t, name, record), name, AsStored(codec, record))
  {
  }

  ghost predicate RowKept(t: Tables, after: Tables, name: string)
    requires name in t.characters
  {
    name in after.characters && t.characters[name].(accountId := None) == after.characters[name].(accountId := None)
  }

  lemma LoginKeepsRow(codec: Codec, t: Tables, r: Request, name: string)
    requires r.Login? && name in t.characters
    ensures RowKept(t, Apply(codec, t, r).tables, name)
  {
    assert Authenticate(t, r.name, r.token, r.fails).tables.characters == t.characters;
  }

  lemma ApplyHolds(codec: Codec, t: Tables, r: Request, name: string, record: Record)
    requires Holds(codec, t, name, record) && !(r.Save? && r.name == name)
    ensures Holds(codec, Apply(codec, t, r).tables, name, record)
  {
    if r.Login? {
      LoginKeepsRow(codec, t, r, name);
    }
  }

  lemma {:induction false} ApplyAllHolds(codec: Codec, t: Tables, batch: seq<Request>, name: string, record: Record)
    requires Holds(codec, t, name, record)
    requires forall r :: r in batch ==> !(r.Save? && r.name == name)
    ensures Holds(codec, ApplyAll(Sql(codec), t, batch).tables, name, record)
    decreases |batch|
  {
    if batch != [] {
      ApplyHolds(codec, t, batch[0], name, record);
      ApplyAllHolds(codec, Apply(codec, t, batch[0]).tables, batch[1..], name, record);
    }
  }

  lemma LoginReadsHeld(codec: Codec, t: Tables, r: Request, record: Record)
    requires r.Login? && Holds(codec, t, r.name, record)
    requires Apply(codec, t, r).result.Some? && Apply(codec, t, r).result.value.Granted?
    ensures Apply(codec, t, r).result.value.record == record
  {
  }

  /** A save enqueued before a login of the same character is what that login reads,
      through whichever handles they came and whatever other requests and failures lie
      between, as long as no later save of that name does. */
  lemma ReloginSeesSave(codec: Codec, t: Tables, save: Request, between: seq<Request>, login: Request)
    requires codec.Faithful() && save.Save? && login.Login? && save.name == login.name
    requires save.name in t.characters && 0 !in save.fails
    requires forall r :: r in between ==> !(r.Save? && r.name == save.name)
    ensures var s := Apply(codec, ApplyAll(Sql(codec), t, [save] + between).tables, login);
      s.result.Some? && s.result.value.Granted? ==> IsSaved(codec, save.record, s.result.value.record)
  {
    var t1 := Apply(codec, t, save).tables;
    SaveHolds(codec, t, save.name, save.record);
    ApplyAllHolds(codec, t1, between, save.name, AsStored(codec, save.record));
    assert ([save] + between)[1..] == between;
    var t2 := ApplyAll(Sql(codec), t, [save] + between).tables;
    if Apply(codec, t2, login).result.Some? && Apply(codec, t2, login).result.value.Granted? {
      LoginReadsHeld(codec, t2, login, AsStored(codec, save.record));
    }
  }

  lemma ApplyAround(run: Engine, t: Tables, first: seq<Request>, r: Request, after: seq<Request>)
    ensures var earlier := ApplyAll(run, t, first);
      var s := run(earlier.tables, r);
      ApplyAll(run, t, first + [r] + after).replies
      == earlier.replies + Answer(r, s) + ApplyAll(run, s.tables, after).replies
  {
    ApplyAllConcat(run, t, first, [r] + after);
    ApplyAllFirst(run, ApplyAll(run, t, first).tables, r, after);
    assert first + [r] + after == first + ([r] + after);
  }

  lemma SaveThenLogin(codec: Codec, t: Tables, before: seq<Request>, save: Request, between: seq<Request>, login: Request)
    requires codec.Faithful() && save.Save? && login.Login? && save.name == login.name && 0 !in save.fails
    requires save.name in ApplyAll(Sql(codec), t, before).tables.characters
    requires forall r :: r in between ==> !(r.Save? && r.name == save.name)
    ensures var s := Apply(codec, ApplyAll(Sql(codec), t, before + ([save] + between)).tables, login);
      s.result.Some? && s.result.value.Granted? ==> IsSaved(codec, save.record, s.result.value.record)
  {
    ApplyAllConcat(Sql(codec), t, before, [save] + between);
    ReloginSeesSave(codec, ApplyAll(Sql(codec), t, before).tables, save, between, login);
  }

  /** A relogin in any run sees the last save of its name before it whose wave committed,
      wherever the waves were cut, whatever was dropped, and whichever handles asked. */
  lemma RunReloginSeesSave(codec: Codec, t: Tables, waves: seq<Wave>,
                           before: seq<Request>, save: Request, between: seq<Request>, login: Request, after: seq<Request>)
    requires CommittedRequests(waves) == before + ([save] + between) + [login] + after
    requires codec.Faithful() && save.Save? && login.Login? && save.name == login.name && 0 !in save.fails
    requires save.name in ApplyAll(Sql(codec), t, before).tables.characters
    requires forall r :: r in between ==> !(r.Save? && r.name == save.name)
    ensures var earlier := ApplyAll(Sql(codec), t, before + ([save] + between));
      var s := Apply(codec, earlier.tables, login);
      && RunWaves(Sql(codec), t, waves).replies
         == earlier.replies + Answer(login, s) + ApplyAll(Sql(codec), s.tables, after).replies
      && (s.result.Some? && s.result.value.Granted? ==> IsSaved(codec, save.record, s.result.value.record))
  {
    WavesRefineOneAtATime(Sql(codec), t, waves);
    SaveThenLogin(codec, t, before, save, between, login);
    ApplyAround(Sql(codec), t, before + ([save] + between), login, after);
  }

  // ---- Logins without a reply ----

  /** A login gets no reply exactly when a statement it reaches fails. */
  lemma NoReplyIff(codec: Codec, t: Tables, r: Request)
    requires r.Login?
    ensures Apply(codec, t, r).result == None <==>
      (|| 0 in r.fails
       || (HashOf(t, r.name).None? && 1 in r.fails)
       || (HashOf(t, r.name) in {None, Some(Sha256(r.token))} && (2 in r.fails || 3 in r.fails || 4 in r.fails)))
  {
  }

  /** What a login without a reply leaves in its wave: it claims the name exactly when the
      name was free and the first two statements went through; and on linked tables it
      changes anything exactly then, or when it got as far as creating a character. */
  lemma FailedLoginStillClaims(codec: Codec, t: Tables, r: Request)
    requires r.Login? && Apply(codec, t, r).result == None
    ensures var after := Apply(codec, t, r).tables;
      && (HashOf(after, r.name) != HashOf(t, r.name) <==> HashOf(t, r.name).None? && 0 !in r.fails && 1 !in r.fails)
      && (HashOf(after, r.name) != HashOf(t, r.name) ==> HashOf(after, r.name) == Some(Sha256(r.token)))
      && (Linked(t) ==>
           (after != t <==>
             0 !in r.fails && ((HashOf(t, r.name).None? && 1 !in r.fails)
                               || (HashOf(t, r.name).Some? && 2 !in r.fails && r.name !in t.characters))))
  {
  }
}
