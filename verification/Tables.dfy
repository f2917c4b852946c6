/** The tables of the character store (server/vordar-server/src/db.rs). */
module Tables {
  // UNIQUE names make a table a map from name to row; a rowid is handed out as one more than
  // the largest so far.

  import opened Basics

  newtype Byte = x: int | 0 <= x < 256

  type Token = t: seq<Byte> | |t| == 32 witness seq(32, _ => 0)

  datatype Vec3 = Vec3(x: real, y: real, z: real)

  type Cooldowns = map<string, nat>

  /** The RON text codec; encoding or decoding may fail. */
  datatype Codec = Codec(encode: Cooldowns -> Option<string>, decode: string -> Option<Cooldowns>)
  {
    ghost predicate Faithful()
    {
      && (forall c :: encode(c).Some? ==> decode(encode(c).value) == Some(c))
      && decode(EMPTY) == Some(map[])
    }
  }

  const EMPTY := "{}"

  datatype Record = Record(zone: string, pos: Vec3, health: int, cooldowns: Cooldowns, xp: nat,
                           cooldownsCorrupt: bool)

  datatype Account = Account(id: nat, tokenHash: Option<Digest<Token>>)

  datatype Character = Character(zone: string, pos: Vec3, health: int, cooldowns: string, xp: nat,
                                 accountId: Option<nat>)

  datatype Tables = Tables(accounts: map<string, Account>, characters: map<string, Character>, lastId: nat)

  /** INSERT INTO accounts (name, token_hash) */
  function InsertAccount(t: Tables, name: string, hash: Option<Digest<Token>>): Tables
  {
    t.(accounts := t.accounts[name := Account(t.lastId + 1, hash)], lastId := t.lastId + 1)
  }

  /** UPDATE accounts SET token_hash: the row is named by its unique name. */
  function ClaimAccount(t: Tables, name: string, hash: Digest<Token>): Tables
    requires name in t.accounts
  {
    t.(accounts := t.accounts[name := t.accounts[name].(tokenHash := Some(hash))])
  }

  /** INSERT OR IGNORE INTO characters: zone, cooldowns and xp come from the schema. */
  function InsertCharacter(t: Tables, name: string, defaults: Record, id: nat): Tables
  {
    if name in t.characters then t
    else t.(characters := t.characters[name := Character("start", defaults.pos, defaults.health, EMPTY, 0, Some(id))])
  }

  /** UPDATE characters SET account_id ... WHERE name = ? AND account_id IS NULL */
  function HealLink(t: Tables, name: string, id: nat): Tables
  {
    if name in t.characters && t.characters[name].accountId.None?
    then t.(characters := t.characters[name := t.characters[name].(accountId := Some(id))])
    else t
  }

  /** UPDATE characters SET zone, pos, health, cooldowns, xp WHERE name = ? */
  function UpdateCharacter(codec: Codec, t: Tables, name: string, r: Record): Tables
  {
    if name !in t.characters then t
    else
      var text := match codec.encode(r.cooldowns) case Some(s) => s case None => EMPTY;
      t.(characters := t.characters[name :=
        Character(r.zone, r.pos, r.health, text, r.xp, t.characters[name].accountId)])
  }

  /** Reading a row back: an unreadable cooldown text is flagged, never trusted. */
  function ToRecord(codec: Codec, c: Character): Record
  {
    match codec.decode(c.cooldowns)
    case Some(m) => Record(c.zone, c.pos, c.health, m, c.xp, false)
    case None => Record(c.zone, c.pos, c.health, map[], c.xp, true)
  }

  ghost function HashOf(t: Tables, name: string): Option<Digest<Token>>
  {
    if name in t.accounts then t.accounts[name].tokenHash else None
  }

  /** Every character belongs to the account of its own name, and ids are unique. */
  ghost predicate Linked(t: Tables)
  {
    && (forall n :: n in t.characters ==>
          n in t.accounts && t.characters[n].accountId == Some(t.accounts[n].id))
    && (forall n :: n in t.accounts ==> t.accounts[n].id <= t.lastId)
    && (forall m, n :: m in t.accounts && n in t.accounts && m != n ==> t.accounts[m].id != t.accounts[n].id)
  }
}
