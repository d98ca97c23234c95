/**
 * The two tables the registration service writes, as an in-memory store.
 * The `characters` constraints come from its migration (unique nickname,
 * owner foreign key with cascade on delete). The `users` table is not part
 * of this model; its unique index on `email` is an ASSUMPTION about it,
 * written into InsertUser and into Valid.
 */
module Database {
  import opened Wrappers
  import opened CharactersSchema

  /** One row of the users table: the key, the display name, the email and the stored password hash. */
  datatype User = User(id: nat, name: string, email: string, password: string)

  /** A rejected statement, named by the index or constraint that refused it (Laravel's naming). */
  datatype DbError = UniqueViolation(index: string) | ForeignKeyViolation(constraint: string)

  const UsersEmailUnique := "users_email_unique"
  const CharactersNicknameUnique := "characters_nickname_unique"
  const CharactersUserIdForeign := "characters_user_id_foreign"

  /** Both tables, keyed by primary key, with the next auto-increment value of each. */
  datatype Tables = Tables(
    users: map<nat, User>,
    characters: map<nat, Character>,
    nextUserId: nat,
    nextCharacterId: nat)

  /** A freshly migrated database: no rows, keys start at 1. */
  const EmptyTables := Tables(map[], map[], 1, 1)

  predicate EmailTaken(users: map<nat, User>, email: string)
  {
    exists id | id in users :: users[id].email == email
  }

  predicate NicknameTaken(characters: map<nat, Character>, nickname: string)
  {
    exists id | id in characters :: characters[id].nickname == nickname
  }

  /** The assumed unique index on users.email. */
  ghost predicate EmailsUnique(users: map<nat, User>)
  {
    forall a, b | a in users && b in users && users[a].email == users[b].email :: a == b
  }

  /** The unique index on characters.nickname. */
  ghost predicate NicknamesUnique(characters: map<nat, Character>)
  {
    forall a, b | a in characters && b in characters && characters[a].nickname == characters[b].nickname :: a == b
  }

  /** The foreign key characters.user_id -> users.id. */
  ghost predicate OwnersExist(t: Tables)
  {
    forall id | id in t.characters :: t.characters[id].userId in t.users
  }

  /** Every row sits under its own key, and every key is below the next auto-increment value. */
  ghost predicate KeysConsistent(t: Tables)
  {
    && (forall id | id in t.users :: t.users[id].id == id && id < t.nextUserId)
    && (forall id | id in t.characters :: t.characters[id].id == id && id < t.nextCharacterId)
  }

  /** Every state a database that enforces these constraints can be in. */
  ghost predicate Valid(t: Tables)
  {
    KeysConsistent(t) && EmailsUnique(t.users) && NicknamesUnique(t.characters) && OwnersExist(t)
  }

  /** `INSERT INTO users`: rejected when the email is already present, otherwise stored under the next key. */
  function InsertUser(t: Tables, name: string, email: string, password: string): (r: Result<(Tables, User), DbError>)
    ensures r.Failure? <==> EmailTaken(t.users, email)
    ensures r.Failure? ==> r.error == UniqueViolation(UsersEmailUnique)
    ensures r.Success? ==>
      var (t', u) := r.value;
      && u == User(t.nextUserId, name, email, password)
      && t' == t.(users := t.users[u.id := u], nextUserId := t.nextUserId + 1)
    ensures r.Success? && Valid(t) ==> r.value.1.id !in t.users && Valid(r.value.0)
  {
    if EmailTaken(t.users, email) then
      Failure(UniqueViolation(UsersEmailUnique))
    else
      var u := User(t.nextUserId, name, email, password);
      Success((t.(users := t.users[u.id := u], nextUserId := t.nextUserId + 1), u))
  }

  /**
   * `INSERT INTO characters` for owner `userId`: rejected when the nickname
   * is already present or the owner does not exist, otherwise the row with
   * its defaults filled in is stored under the next key.
   */
  function InsertCharacter(t: Tables, userId: nat, f: CharacterFields): (r: Result<(Tables, Character), DbError>)
    ensures r.Failure? <==> NicknameTaken(t.characters, f.nickname) || userId !in t.users
    ensures r.Failure? && NicknameTaken(t.characters, f.nickname) ==> r.error == UniqueViolation(CharactersNicknameUnique)
    ensures r.Failure? && !NicknameTaken(t.characters, f.nickname) ==> r.error == ForeignKeyViolation(CharactersUserIdForeign)
    ensures r.Success? ==>
      var (t', c) := r.value;
      && c == WithDefaults(t.nextCharacterId, userId, f)
      && t' == t.(characters := t.characters[c.id := c], nextCharacterId := t.nextCharacterId + 1)
    ensures r.Success? && Valid(t) ==> r.value.1.id !in t.characters && Valid(r.value.0)
  {
    if NicknameTaken(t.characters, f.nickname) then
      Failure(UniqueViolation(CharactersNicknameUnique))
    else if userId !in t.users then
      Failure(ForeignKeyViolation(CharactersUserIdForeign))
    else
      var c := WithDefaults(t.nextCharacterId, userId, f);
      Success((t.(characters := t.characters[c.id := c], nextCharacterId := t.nextCharacterId + 1), c))
  }

  /** `DELETE FROM users WHERE id = ...`; the cascade removes the characters that user owns. */
  function DeleteUser(t: Tables, id: nat): (t': Tables)
    ensures t'.users == t.users - {id}
    ensures forall cid :: cid in t'.characters <==> cid in t.characters && t.characters[cid].userId != id
    ensures forall cid | cid in t'.characters :: t'.characters[cid] == t.characters[cid]
    ensures t'.nextUserId == t.nextUserId && t'.nextCharacterId == t.nextCharacterId
    ensures Valid(t) ==> Valid(t')
  {
    t.(users := t.users - {id},
       characters := map cid | cid in t.characters && t.characters[cid].userId != id :: t.characters[cid])
  }

  /** Inserting a character whose nickname is taken is refused and leaves both tables as they were. */
  lemma DuplicateNicknameRejected(t: Tables, userId: nat, f: CharacterFields)
    requires NicknameTaken(t.characters, f.nickname)
    ensures InsertCharacter(t, userId, f) == Failure(UniqueViolation(CharactersNicknameUnique))
  {
  }

  /** Deleting a user and then looking at any other user's characters: they are all still there, unchanged. */
  lemma DeleteUserSparesOtherOwners(t: Tables, id: nat, other: nat)
    requires other != id
    ensures var t' := DeleteUser(t, id);
      forall cid | cid in t.characters && t.characters[cid].userId == other ::
        cid in t'.characters && t'.characters[cid] == t.characters[cid]
  {
  }

  /**
   * The database a connection talks to. `tables` is reassigned by each
   * statement; a transaction is a saved copy that is put back on rollback.
   */
  class Connection {
    var tables: Tables

    constructor (initial: Tables)
      ensures tables == initial
    {
      tables := initial;
    }

    /** `User::create([...])`: the inserted row, or the error that refused it. */
    method CreateUser(name: string, email: string, password: string) returns (r: Result<User, DbError>)
      modifies this
      ensures var ins := InsertUser(old(tables), name, email, password);
        && (ins.Success? ==> r == Success(ins.value.1) && tables == ins.value.0)
        && (ins.Failure? ==> r == Failure(ins.error) && tables == old(tables))
    {
      var ins := InsertUser(tables, name, email, password);
      if ins.Success? {
        tables := ins.value.0;
        r := Success(ins.value.1);
      } else {
        r := Failure(ins.error);
      }
    }

    /**
     * `$user->character()->create([...])`: the stored row, or the error that
     * refused it. Eloquent returns only the attributes it was given, plus the
     * key and owner, without reading back column defaults such as `exp` and
     * `location_id`; this method returns the stored row instead. The services
     * discard the value, so nothing depends on the difference.
     */
    method CreateCharacter(userId: nat, f: CharacterFields) returns (r: Result<Character, DbError>)
      modifies this
      ensures var ins := InsertCharacter(old(tables), userId, f);
        && (ins.Success? ==> r == Success(ins.value.1) && tables == ins.value.0)
        && (ins.Failure? ==> r == Failure(ins.error) && tables == old(tables))
    {
      var ins := InsertCharacter(tables, userId, f);
      if ins.Success? {
        tables := ins.value.0;
        r := Success(ins.value.1);
      } else {
        r := Failure(ins.error);
      }
    }

    /** Opens a transaction: the state a rollback returns to. */
    method BeginTransaction() returns (saved: Tables)
      ensures saved == tables
    {
      saved := tables;
    }

    /** Rolls back to the state saved when the transaction began. */
    method RollBack(saved: Tables)
      modifies this
      ensures tables == saved
    {
      tables := saved;
    }
  }
}
