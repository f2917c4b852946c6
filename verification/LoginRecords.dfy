/** What logins are granted, and where their answers go (server/vordar-server/src/db.rs). */
module LoginRecords {
  import opened Basics
  import opened Tables
  import opened Persistence
  import opened PersistenceRuns

  ghost predicate IsGranted(s: Step<Outcome>) { s.result.Some? && s.result.value.Granted? }

  // ---- A first login ----

  /** A fresh character stands in the start zone with the position and health it was offered. */
  ghost function Fresh(offered: Record): Record
  {
    Record("start", offered.pos, offered.health, map[], 0, false)
  }

  lemma FirstLogin(codec: Codec, t: Tables, r: Request)
    requires codec.Faithful() && r.Login? && r.name !in t.characters
    ensures var s := Apply(codec, t, r);
      IsGranted(s) ==>
        && s.result == Some(Granted(Record("start", r.defaults.pos, r.defaults.health, map[], 0, false)))
        && Holds(codec, s.tables, r.name, Fresh(r.defaults))
  {
    assert Authenticate(t, r.name, r.token, r.fails).tables.characters == t.characters;
  }

  lemma LaterLogin(codec: Codec, t: Tables, first: Request, between: seq<Request>, login: Request)
    requires codec.Faithful() && first.Login? && login.Login? && first.name == login.name
    requires first.name !in t.characters && IsGranted(Apply(codec, t, first))
    requires forall r :: r in between ==> !(r.Save? && r.name == first.name)
    ensures var s := Apply(codec, ApplyAll(Sql(codec), t, [first] + between).tables, login);
      IsGranted(s) ==> s.result.value.record == Fresh(first.defaults)
  {
    FirstLogin(codec, t, first);
    ApplyAllFirst(Sql(codec), t, first, between);
    ApplyAllHolds(codec, Apply(codec, t, first).tables, between, first.name, Fresh(first.defaults));
    var now := ApplyAll(Sql(codec), t, [first] + between).tables;
    if IsGranted(Apply(codec, now, login)) {
      LoginReadsHeld(codec, now, login, Fresh(first.defaults));
    }
  }

  /** In any run, the first granted login of a name without a character is answered with the
      fresh record, and so is a later one when no save of that name was committed between:
      whatever the later one offers, wherever the waves were cut and whatever was dropped. */
  lemma RunFirstLogin(codec: Codec, t: Tables, waves: seq<Wave>,
                      before: seq<Request>, first: Request, between: seq<Request>, login: Request, after: seq<Request>)
    requires CommittedRequests(waves) == before + ([first] + between) + [login] + after
    requires codec.Faithful() && first.Login? && login.Login? && first.name == login.name
    requires first.name !in ApplyAll(Sql(codec), t, before).tables.characters
    requires IsGranted(Apply(codec, ApplyAll(Sql(codec), t, before).tables, first))
    requires forall r :: r in between ==> !(r.Save? && r.name == first.name)
    ensures Reply(first, Granted(Record("start", first.defaults.pos, first.defaults.health, map[], 0, false)))
            in RunWaves(Sql(codec), t, waves).replies
    ensures var earlier := ApplyAll(Sql(codec), t, before + ([first] + between));
      var s := Apply(codec, earlier.tables, login);
      && RunWaves(Sql(codec), t, waves).replies
         == earlier.replies + Answer(login, s) + ApplyAll(Sql(codec), s.tables, after).replies
      && (IsGranted(s) ==>
           s.result.value.record == Record("start", first.defaults.pos, first.defaults.health, map[], 0, false))
  {
    var t1 := ApplyAll(Sql(codec), t, before).tables;
    WavesRefineOneAtATime(Sql(codec), t, waves);
    FirstLogin(codec, t1, first);
    LaterLogin(codec, t1, first, between, login);
    ApplyAllConcat(Sql(codec), t, before, [first] + between);
    ApplyAllFirst(Sql(codec), t1, first, between);
    ApplyAround(Sql(codec), t, before + ([first] + between), login, after);
    var answer := Reply(first, Granted(Fresh(first.defaults)));
    assert Answer(first, Apply(codec, t1, first)) == [answer];
    assert answer in ApplyAll(Sql(codec), t, before + ([first] + between)).replies;
  }

  // ---- Every login, every save ----

  /** A granted login of an existing character reads its row; a cooldown text that does not
      decode comes back as no cooldowns, flagged. */
  lemma LoginReadsRow(codec: Codec, t: Tables, r: Request)
    requires r.Login? && r.name in t.characters && IsGranted(Apply(codec, t, r))
    ensures var (row, got) := (t.characters[r.name], Apply(codec, t, r).result.value.record);
      && got.zone == row.zone && got.pos == row.pos && got.health == row.health && got.xp == row.xp
      && (got.cooldownsCorrupt <==> codec.decode(row.cooldowns).None?)
      && (got.cooldownsCorrupt ==> got.cooldowns == map[])
      && (!got.cooldownsCorrupt ==> codec.decode(row.cooldowns) == Some(got.cooldowns))
  {
    assert Authenticate(t, r.name, r.token, r.fails).tables.characters == t.characters;
  }

  /** A granted login leaves its character linked: to the account it had, or else to the
      one that logged in. */
  lemma GrantLinks(codec: Codec, t: Tables, r: Request)
    requires r.Login? && IsGranted(Apply(codec, t, r))
    ensures var after := Apply(codec, t, r).tables;
      && r.name in after.accounts && r.name in after.characters
      && after.characters[r.name].accountId
         == if r.name in t.characters && t.characters[r.name].accountId.Some?
            then t.characters[r.name].accountId else Some(after.accounts[r.name].id)
  {
    AuthenticateNames(t, r.name, r.token, r.fails);
  }

  /** No request touches another name's account or character. */
  lemma OthersUntouched(codec: Codec, t: Tables, r: Request, other: string)
    requires other != r.name
    ensures var after := Apply(codec, t, r).tables;
      && (other in after.accounts <==> other in t.accounts)
      && (other in t.accounts ==> after.accounts[other] == t.accounts[other])
      && (other in after.characters <==> other in t.characters)
      && (other in t.characters ==> after.characters[other] == t.characters[other])
  {
    OnlyAuthenticateTouchesAccounts(codec, t, r);
  }

  /** A save changes at most its own row, keeps the link, and creates nothing. */
  lemma SaveTouchesOneRow(codec: Codec, t: Tables, r: Request)
    requires r.Save?
    ensures var after := Apply(codec, t, r).tables;
      && after.accounts == t.accounts && after.characters.Keys == t.characters.Keys
      && (0 in r.fails || r.name !in t.characters ==> after == t)
      && (r.name in t.characters ==> after.characters[r.name].accountId == t.characters[r.name].accountId)
  {
  }

  // ---- One request, one wave ----

  /** With `ApplyAllConcat` this leaves nothing of one-at-a-time execution open. */
  lemma OneRequest(run: Engine, t: Tables, r: Request)
    ensures ApplyAll(run, t, []) == Effect(t, [])
    ensures ApplyAll(run, t, [r]).tables == run(t, r).tables
    ensures forall o :: run(t, r).result == Some(o) ==> ApplyAll(run, t, [r]).replies == [Reply(r, o)]
    ensures run(t, r).result == None ==> ApplyAll(run, t, [r]).replies == []
  {
    ApplyAllFirst(run, t, r, []);
    assert [r] + [] == [r];
  }

  lemma {:induction false} CommittedConcat(a: seq<Wave>, b: seq<Wave>)
    ensures CommittedRequests(a + b) == CommittedRequests(a) + CommittedRequests(b)
  {
    if a == [] {
      assert a + b == b;
    } else {
      assert (a + b)[1..] == a[1..] + b;
      CommittedConcat(a[1..], b);
    }
  }

  /** A wave whose begin or commit failed leaves no trace in any run; one that committed
      has run its whole batch. */
  lemma OneWave(run: Engine, t: Tables, before: seq<Wave>, w: Wave, after: seq<Wave>)
    ensures w.fate != Committed ==> RunWaves(run, t, before + [w] + after) == RunWaves(run, t, before + after)
    ensures w.fate == Committed ==>
      CommittedRequests(before + [w] + after) == CommittedRequests(before) + w.batch + CommittedRequests(after)
  {
    CommittedConcat(before + [w], after);
    CommittedConcat(before, [w]);
    CommittedConcat(before, after);
    assert [w][1..] == [] && CommittedRequests([w]) == if w.fate == Committed then w.batch else [];
    assert w.fate != Committed ==> CommittedRequests(before + [w] + after) == CommittedRequests(before + after);
    WavesRefineOneAtATime(run, t, before + [w] + after);
    WavesRefineOneAtATime(run, t, before + after);
  }

  // ---- Delivery ----

  ghost predicate Delivers(replies: seq<Reply>, h: nat, f: seq<nat>, got: seq<Loaded>)
  {
    && (forall i, j :: 0 <= i < j < |f| ==> f[i] < f[j])
    && (forall k: nat :: k in f <==> k < |replies| && replies[k].request.Login? && replies[k].request.reply == h)
    && |got| == |f|
    && forall i :: 0 <= i < |got| ==>
         f[i] in f && got[i] == Loaded(replies[f[i]].request.conn, replies[f[i]].request.name, replies[f[i]].outcome)
  }

  lemma {:induction false} DeliveredLoads(replies: seq<Reply>, h: nat)
    ensures var kept := Filter(To(h), replies);
      && |Delivered(replies, h)| == |kept|
      && forall i :: 0 <= i < |kept| ==> Delivered(replies, h)[i] == ToLoaded(kept[i])
  {
    if replies != [] {
      DeliveredLoads(replies[..|replies|-1], h);
    }
  }

  /** A handle is handed the outcomes of exactly the logins asked through it, in order, each
      under the connection and name it was asked with. */
  lemma DeliveredAre(replies: seq<Reply>, h: nat) returns (f: seq<nat>)
    ensures Delivers(replies, h, f, Delivered(replies, h))
  {
    DeliveredLoads(replies, h);
    f := FilterSelects(To(h), replies);
  }
}
