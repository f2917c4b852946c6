/** The append-only schema ladder (server/vordar-server/src/db.rs). */
module Migrations {
  // Each entry runs in its own transaction together with its version bump, so a crash lands
  // between entries and the next start resumes there.

  import opened Basics
  import opened Tables

  /** The characters table with the columns added so far; the cells of a column that
      does not exist yet hold nothing meaningful. */
  datatype CharacterTable = CharacterTable(cooldowns: bool, accountId: bool, xp: bool, rows: map<string, Character>)

  datatype AccountTable = AccountTable(rows: map<string, Account>, lastId: nat)

  /** A database file: `user_version` and the tables present. */
  datatype File = File(version: int, characters: Option<CharacterTable>, accounts: Option<AccountTable>)

  datatype Ddl =
    | CreateCharactersIfNotExists
    | AddCooldowns
    | CreateAccounts
    | AddAccountId
    | InsertAccountsFromCharacters
    | LinkCharacters
    | AddXp

  const MIGRATIONS: seq<seq<Ddl>> := [
    [CreateCharactersIfNotExists],
    [AddCooldowns],
    [CreateAccounts, AddAccountId, InsertAccountsFromCharacters, LinkCharacters],
    [AddXp]
  ]

  /** The order in which `SELECT name FROM characters` lists a table. */
  type Listing = set<string> -> seq<string>

  ghost predicate Lists(listing: Listing)
  {
    forall names :: Enumerates(listing(names), names)
  }

  ghost predicate Enumerates(s: seq<string>, names: set<string>)
  {
    (forall n :: n in s <==> n in names) && Distinct(s)
  }

  function InsertAll(a: AccountTable, names: seq<string>): AccountTable
  {
    if names == [] then a
    else
      var before := InsertAll(a, names[..|names|-1]);
      AccountTable(before.rows[names[|names|-1] := Account(before.lastId + 1, None)], before.lastId + 1)
  }

  function MapRows(f: Character -> Character, rows: map<string, Character>): (r: map<string, Character>)
    ensures r.Keys == rows.Keys && forall n :: n in rows ==> r[n] == f(rows[n])
  {
    map n | n in rows :: f(rows[n])
  }

  function LinkRows(rows: map<string, Character>, accounts: map<string, Account>): map<string, Character>
  {
    map n | n in rows ::
      rows[n].(accountId := if n in accounts then Some(accounts[n].id) else None)
  }

  /** One statement; `None` is an SQL error. */
  function Exec(listing: Listing, ddl: Ddl, f: File): Option<File>
  {
    match ddl
    case CreateCharactersIfNotExists =>
      Some(if f.characters.Some? then f
           else f.(characters := Some(CharacterTable(false, false, false, map[]))))
    case AddCooldowns =>
      if f.characters.None? || f.characters.value.cooldowns then None
      else
        var t := f.characters.value;
        var rows := MapRows((c: Character) => c.(cooldowns := EMPTY), t.rows);
        Some(f.(characters := Some(t.(cooldowns := true, rows := rows))))
    case CreateAccounts =>
      if f.accounts.Some? then None else Some(f.(accounts := Some(AccountTable(map[], 0))))
    case AddAccountId =>
      if f.characters.None? || f.characters.value.accountId then None
      else
        var t := f.characters.value;
        var rows := MapRows((c: Character) => c.(accountId := None), t.rows);
        Some(f.(characters := Some(t.(accountId := true, rows := rows))))
    case InsertAccountsFromCharacters =>
      if f.characters.None? || f.accounts.None? || f.characters.value.rows.Keys * f.accounts.value.rows.Keys != {}
      then None
      else Some(f.(accounts := Some(InsertAll(f.accounts.value, listing(f.characters.value.rows.Keys)))))
    case LinkCharacters =>
      if f.characters.None? || f.accounts.None? || !f.characters.value.accountId then None
      else
        var t := f.characters.value;
        Some(f.(characters := Some(t.(rows := LinkRows(t.rows, f.accounts.value.rows)))))
    case AddXp =>
      if f.characters.None? || f.characters.value.xp then None
      else
        var t := f.characters.value;
        var rows := MapRows((c: Character) => c.(xp := 0), t.rows);
        Some(f.(characters := Some(t.(xp := true, rows := rows))))
  }

  function ExecAll(listing: Listing, batch: seq<Ddl>, f: File): Option<File>
  {
    if batch == [] then Some(f)
    else
      match Exec(listing, batch[0], f)
      case None => None
      case Some(g) => ExecAll(listing, batch[1..], g)
  }

  /** One rung: the entry and its version bump commit together, or an error rolls the
      transaction back. `None` also when no entry is pending. */
  function Rung(listing: Listing, f: File): Option<File>
  {
    if !(0 <= f.version < |MIGRATIONS|) then None
    else
      match ExecAll(listing, MIGRATIONS[f.version], f)
      case None => None
      case Some(g) => Some(g.(version := f.version + 1))
  }

  /** The file after at most `k` committed rungs. */
  function Climb(listing: Listing, f: File, k: nat): File
    decreases k
  {
    if k == 0 then f
    else
      match Rung(listing, f)
      case None => f
      case Some(g) => Climb(listing, g, k-1)
  }

  class Database {
    var file: File

    constructor (file: File)
      ensures this.file == file
    {
      this.file := file;
    }

    /** `migrate`, killed by a crash before its transaction number `budget` commits
        (a budget of |MIGRATIONS| never bites). Returns whether it finished in Ok. */
    method Migrate(listing: Listing, budget: nat) returns (ok: bool)
      modifies this
      ensures file == Climb(listing, old(file), budget)
      ensures ok <==> file.version == |MIGRATIONS|
      ensures old(file.version) < 0 || old(file.version) > |MIGRATIONS| ==> !ok && file == old(file)
    {
      var version := file.version;
      if version < 0 || version > |MIGRATIONS| {
        return false;
      }
      ghost var start := file;
      for i := version to |MIGRATIONS|
        invariant version <= i <= |MIGRATIONS| && file.version == i && i - version <= budget
        invariant Climb(listing, start, budget) == Climb(listing, file, budget - (i - version))
      {
        if i - version == budget {
          return false;
        }
        match ExecAll(listing, MIGRATIONS[i], file)
        case None =>
          return false;
        case Some(g) =>
          file := g.(version := i + 1);
      }
      ok := true;
    }
  }
}
