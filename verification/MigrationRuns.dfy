/** The schema ladder from any legacy file, through any crashes. */
module MigrationRuns {
  // It always ends in the same latest file, with every character kept and linked to the
  // account of its own name.

  import opened Basics
  import opened Tables
  import opened Migrations
  import opened Persistence
  import opened PersistenceRuns

  /** A file exactly as version `f.version` of the ladder leaves it; version 0 also
      covers a brand-new file with no table at all. */
  ghost predicate Legacy(f: File)
  {
    && 0 <= f.version <= |MIGRATIONS|
    && (f.characters.None? ==> f.version == 0)
    && (f.characters.Some? ==>
          var t := f.characters.value;
          t.cooldowns == (f.version >= 2) && t.accountId == (f.version >= 3) && t.xp == (f.version >= 4))
    && (f.accounts.Some? <==> f.version >= 3)
    && (f.version >= 3 ==> Linked(ToTables(f)))
  }

  function Rows(f: File): map<string, Character>
  {
    if f.characters.Some? then f.characters.value.rows else map[]
  }

  function ToTables(f: File): Tables
    requires f.accounts.Some?
  {
    Tables(f.accounts.value.rows, Rows(f), f.accounts.value.lastId)
  }

  /** No row is lost and no cell that existed is changed; new columns hold their
      defaults. */
  ghost predicate Preserves(f: File, g: File)
  {
    && f.version <= g.version
    && Rows(g).Keys == Rows(f).Keys
    && forall n :: n in Rows(f) ==> RowPreserved(f.version, Rows(f)[n], g.version, Rows(g)[n])
  }

  ghost predicate RowPreserved(fv: int, c: Character, gv: int, d: Character)
  {
    && d.zone == c.zone && d.pos == c.pos && d.health == c.health
    && (fv >= 2 ==> d.cooldowns == c.cooldowns)
    && (fv < 2 && gv >= 2 ==> d.cooldowns == EMPTY)
    && (fv >= 3 ==> d.accountId == c.accountId)
    && (fv >= 4 ==> d.xp == c.xp)
    && (fv < 4 && gv >= 4 ==> d.xp == 0)
  }

  // ---- Backfilling accounts ----

  /** Distinct names get distinct ids, in order. */
  lemma {:induction false} InsertAllLinks(a: AccountTable, names: seq<string>)
    requires a.rows == map[]
    requires Distinct(names)
    ensures var r := InsertAll(a, names);
      && r.lastId == a.lastId + |names|
      && (forall n :: n in r.rows <==> n in names)
      && (forall n :: n in r.rows ==> r.rows[n].tokenHash == None && r.rows[n].id <= r.lastId)
      && (forall m, n :: m in r.rows && n in r.rows && m != n ==> r.rows[m].id != r.rows[n].id)
  {
    if names != [] {
      var init := names[..|names|-1];
      InsertAllLinks(a, init);
      assert names == init + [names[|names|-1]];
    }
  }

  lemma BackfillRung(listing: Listing, f: File)
    requires Lists(listing) && Legacy(f) && f.version == 2
    ensures Rung(listing, f).Some? && Legacy(Rung(listing, f).value) && Preserves(f, Rung(listing, f).value)
  {
    var t := f.characters.value;
    var names := listing(t.rows.Keys);
    assert Enumerates(names, t.rows.Keys);
    var f1 := f.(accounts := Some(AccountTable(map[], 0)));
    var rows2 := MapRows((c: Character) => c.(accountId := None), t.rows);
    var f2 := f1.(characters := Some(t.(accountId := true, rows := rows2)));
    assert rows2.Keys == t.rows.Keys;
    var a3 := InsertAll(f1.accounts.value, names);
    InsertAllLinks(f1.accounts.value, names);
    var f3 := f2.(accounts := Some(a3));
    var f4 := f3.(characters := Some(f2.characters.value.(rows := LinkRows(rows2, a3.rows))));
    var batch := MIGRATIONS[2];
    assert Exec(listing, batch[0], f) == Some(f1);
    assert Exec(listing, batch[1], f1) == Some(f2);
    assert Exec(listing, batch[2], f2) == Some(f3);
    assert Exec(listing, batch[3], f3) == Some(f4);
    FourStatements(listing, batch[0], batch[1], batch[2], batch[3], f);
    assert Rung(listing, f) == Some(f4.(version := 3));
  }

  lemma FourStatements(listing: Listing, a: Ddl, b: Ddl, c: Ddl, d: Ddl, f: File)
    ensures ExecAll(listing, [a, b, c, d], f) ==
      match Exec(listing, a, f)
      case None => None
      case Some(f1) =>
        match Exec(listing, b, f1)
        case None => None
        case Some(f2) =>
          match Exec(listing, c, f2)
          case None => None
          case Some(f3) => Exec(listing, d, f3)
  {
    FirstStatement(listing, a, [b, c, d], f);
    match Exec(listing, a, f)
    case None =>
    case Some(f1) =>
      FirstStatement(listing, b, [c, d], f1);
      match Exec(listing, b, f1)
      case None =>
      case Some(f2) =>
        FirstStatement(listing, c, [d], f2);
        match Exec(listing, c, f2)
        case None =>
        case Some(f3) => OneStatement(listing, d, f3);
  }

  lemma FirstStatement(listing: Listing, a: Ddl, rest: seq<Ddl>, f: File)
    ensures ExecAll(listing, [a] + rest, f) ==
      match Exec(listing, a, f)
      case None => None
      case Some(g) => ExecAll(listing, rest, g)
  {
    assert ([a] + rest)[1..] == rest;
  }

  lemma OneStatement(listing: Listing, a: Ddl, f: File)
    ensures ExecAll(listing, [a], f) == Exec(listing, a, f)
  {
    assert [a][1..] == [];
  }

  /** Every rung of a legacy file succeeds, and leaves a legacy file one version up. */
  lemma RungWorks(listing: Listing, f: File)
    requires Lists(listing) && Legacy(f) && f.version < |MIGRATIONS|
    ensures Rung(listing, f).Some? && Rung(listing, f).value.version == f.version + 1
    ensures Legacy(Rung(listing, f).value) && Preserves(f, Rung(listing, f).value)
  {
    if f.version == 2 {
      BackfillRung(listing, f);
    } else {
      OneStatement(listing, MIGRATIONS[f.version][0], f);
      assert MIGRATIONS[f.version] == [MIGRATIONS[f.version][0]];
    }
  }

  lemma PreservesTransitive(f: File, g: File, h: File)
    requires Preserves(f, g) && Preserves(g, h)
    ensures Preserves(f, h)
  {
    forall n | n in Rows(f)
      ensures RowPreserved(f.version, Rows(f)[n], h.version, Rows(h)[n])
    {
      assert RowPreserved(f.version, Rows(f)[n], g.version, Rows(g)[n]);
      assert RowPreserved(g.version, Rows(g)[n], h.version, Rows(h)[n]);
    }
  }

  /** `k` rungs climb exactly as many versions as are left, losing nothing. */
  lemma {:induction false} ClimbWorks(listing: Listing, f: File, k: nat)
    requires Lists(listing) && Legacy(f)
    ensures var g := Climb(listing, f, k);
      && Legacy(g) && Preserves(f, g)
      && g.version == if f.version + k <= |MIGRATIONS| then f.version + k else |MIGRATIONS|
    decreases k
  {
    if k > 0 && f.version < |MIGRATIONS| {
      RungWorks(listing, f);
      var g := Rung(listing, f).value;
      ClimbWorks(listing, g, k-1);
      PreservesTransitive(f, g, Climb(listing, g, k-1));
    }
  }

  // ---- Accounts ----

  /** Accounts that were there are untouched; backfilled ones are one unclaimed account a
      character. */
  ghost predicate AccountsFrom(f: File, g: File)
  {
    && (f.version >= 3 ==> g.accounts == f.accounts)
    && (f.version < 3 <= g.version ==>
          && g.accounts.Some? && g.accounts.value.rows.Keys == Rows(f).Keys
          && forall n :: n in g.accounts.value.rows ==> g.accounts.value.rows[n].tokenHash == None)
  }

  lemma RungAccounts(listing: Listing, f: File)
    requires Lists(listing) && Legacy(f) && f.version < |MIGRATIONS|
    ensures Rung(listing, f).Some? && AccountsFrom(f, Rung(listing, f).value)
  {
    RungWorks(listing, f);
    if f.version == 2 {
      var batch := MIGRATIONS[2];
      FourStatements(listing, batch[0], batch[1], batch[2], batch[3], f);
      var names := listing(Rows(f).Keys);
      assert Enumerates(names, Rows(f).Keys);
      InsertAllLinks(AccountTable(map[], 0), names);
    } else {
      OneStatement(listing, MIGRATIONS[f.version][0], f);
      assert MIGRATIONS[f.version] == [MIGRATIONS[f.version][0]];
    }
  }

  /** Climbing leaves existing accounts alone, and backfills one for every character, free
      to be claimed by its first login. */
  lemma {:induction false} BackfilledUnclaimed(listing: Listing, f: File, k: nat)
    requires Lists(listing) && Legacy(f)
    ensures AccountsFrom(f, Climb(listing, f, k))
    decreases k
  {
    if k > 0 && f.version < |MIGRATIONS| {
      RungWorks(listing, f);
      RungAccounts(listing, f);
      var g := Rung(listing, f).value;
      BackfilledUnclaimed(listing, g, k-1);
      ClimbWorks(listing, g, k-1);
    }
  }

  // ---- Crashes ----

  lemma {:induction false} ClimbTwice(listing: Listing, f: File, a: nat, b: nat)
    ensures Climb(listing, Climb(listing, f, a), b) == Climb(listing, f, a + b)
    decreases a
  {
    if a > 0 {
      match Rung(listing, f)
      case None =>
      case Some(g) => ClimbTwice(listing, g, a-1, b);
    }
  }

  /** Climbing longer than the ladder changes nothing. */
  lemma {:induction false} ClimbSaturates(listing: Listing, f: File, k: nat, m: nat)
    requires |MIGRATIONS| - f.version <= k <= m
    ensures Climb(listing, f, k) == Climb(listing, f, m)
    decreases k
  {
    if k > 0 {
      match Rung(listing, f)
      case None =>
      case Some(g) => ClimbSaturates(listing, g, k-1, m-1);
    }
  }

  /** Starts that each die after so many committed transactions. */
  function Restarts(listing: Listing, f: File, budgets: seq<nat>): File
    decreases |budgets|
  {
    if budgets == [] then f else Restarts(listing, Climb(listing, f, budgets[0]), budgets[1..])
  }

  function Total(budgets: seq<nat>): nat
  {
    if budgets == [] then 0 else budgets[0] + Total(budgets[1..])
  }

  lemma {:induction false} RestartsClimb(listing: Listing, f: File, budgets: seq<nat>)
    ensures Restarts(listing, f, budgets) == Climb(listing, f, Total(budgets))
    decreases |budgets|
  {
    if budgets != [] {
      RestartsClimb(listing, Climb(listing, f, budgets[0]), budgets[1..]);
      ClimbTwice(listing, f, budgets[0], Total(budgets[1..]));
    }
  }

  /** However many starts crashed wherever between transactions, the next full start
      ends in the file an uninterrupted one would have produced. This holds of any
      file, legacy or not: a failing entry fails the same way every time. */
  lemma CrashesAreInvisible(listing: Listing, f: File, budgets: seq<nat>)
    requires f.version >= 0
    ensures Climb(listing, Restarts(listing, f, budgets), |MIGRATIONS|) == Climb(listing, f, |MIGRATIONS|)
  {
    var n := |MIGRATIONS|;
    RestartsClimb(listing, f, budgets);
    ClimbTwice(listing, f, Total(budgets), n);
    ClimbSaturates(listing, f, n, Total(budgets) + n);
  }

  /** A legacy file reaches the latest version with every character kept and linked,
      whatever crashes came before. */
  lemma MigratedAndLinked(listing: Listing, f: File, budgets: seq<nat>)
    requires Lists(listing) && Legacy(f)
    ensures var g := Climb(listing, Restarts(listing, f, budgets), |MIGRATIONS|);
      g.version == |MIGRATIONS| && Preserves(f, g) && g.accounts.Some? && Linked(ToTables(g))
  {
    CrashesAreInvisible(listing, f, budgets);
    ClimbWorks(listing, f, |MIGRATIONS|);
  }

  /** From then on no run of the worker ever leaves a character unlinked. */
  lemma RunsStayLinked(listing: Listing, f: File, budgets: seq<nat>, codec: Codec, waves: seq<Wave>)
    requires Lists(listing) && Legacy(f)
    ensures var g := Climb(listing, Restarts(listing, f, budgets), |MIGRATIONS|);
      g.accounts.Some? && Linked(RunWaves(Sql(codec), ToTables(g), waves).tables)
  {
    MigratedAndLinked(listing, f, budgets);
    RunLinked(codec, ToTables(Climb(listing, Restarts(listing, f, budgets), |MIGRATIONS|)), waves);
  }

  /** A file stamped by a newer build is left alone. */
  lemma NewerIsUntouched(listing: Listing, f: File, budgets: seq<nat>)
    requires f.version >= |MIGRATIONS|
    ensures Restarts(listing, f, budgets) == f
  {
    RestartsClimb(listing, f, budgets);
  }
}
