/**
 * The back end's authentication service: registration inside one database
 * transaction, and login by email lookup plus password check.
 */
module AuthService {
  import opened Wrappers
  import opened Hashing
  import opened CharactersSchema
  import opened Database

  /** The validated registration input. */
  datatype RegisterDto = RegisterDto(name: string, email: string, password: string, nickname: string)

  /** The validated login input. */
  datatype LoginDto = LoginDto(email: string, password: string)

  /** A validation failure reported against one input field. */
  datatype AuthError = ValidationError(field: string, messages: seq<string>)

  /** The only failure login gives, whatever the cause. */
  const InvalidCredentials := ValidationError("email", ["The provided credentials are incorrect."])

  /** The attributes registration gives the new character. */
  function StartingCharacter(nickname: string): CharacterFields
  {
    OnlyNickname(nickname).(
      level := Some(1), cultivationRealm := Some(1), currentQi := Some(0), maxQi := Some(100),
      strength := Some(5), agility := Some(5), vitality := Some(5), spirit := Some(5))
  }

  /** The store after a registration, and what the call returned or threw. */
  datatype Outcome = Outcome(tables: Tables, result: Result<User, DbError>)

  /**
   * What one registration transaction does to the store: insert the user
   * with the hashed password, insert its character, and on any rejected
   * insert roll back to the state before the transaction.
   */
  function RegisterTransaction(t: Tables, h: Hasher, dto: RegisterDto): (o: Outcome)
    ensures o.result.Success? <==>
      !EmailTaken(t.users, dto.email) && !NicknameTaken(t.characters, dto.nickname)
    ensures o.result.Failure? ==> o.tables == t
    ensures o.result.Failure? && EmailTaken(t.users, dto.email) ==>
      o.result.error == UniqueViolation(UsersEmailUnique)
    ensures o.result.Failure? && !EmailTaken(t.users, dto.email) ==>
      o.result.error == UniqueViolation(CharactersNicknameUnique)
    ensures o.result.Success? ==>
      var u := o.result.value;
      var cid := t.nextCharacterId;
      && u == User(t.nextUserId, dto.name, dto.email, h.make(dto.password))
      && o.tables.users == t.users[u.id := u]
      && o.tables.characters
         == t.characters[cid := Character(cid, u.id, dto.nickname, 1, 0, 1, 0, 100, 5, 5, 5, 5, 1)]
      && o.tables.nextUserId == t.nextUserId + 1
      && o.tables.nextCharacterId == cid + 1
    ensures Valid(t) ==> Valid(o.tables)
    ensures Valid(t) && o.result.Success? ==>
      o.result.value.id !in t.users && t.nextCharacterId !in t.characters
  {
    match InsertUser(t, dto.name, dto.email, h.make(dto.password))
    case Failure(e) => Outcome(t, Failure(e))
    case Success((t1, u)) =>
      match InsertCharacter(t1, u.id, StartingCharacter(dto.nickname))
      case Failure(e) => Outcome(t, Failure(e))
      case Success((t2, _)) => Outcome(t2, Success(u))
  }

  /** `AuthService::register`: the transaction run against a live connection. */
  method Register(db: Connection, h: Hasher, dto: RegisterDto) returns (r: Result<User, DbError>)
    modifies db
    ensures db.tables == RegisterTransaction(old(db.tables), h, dto).tables
    ensures r == RegisterTransaction(old(db.tables), h, dto).result
  {
    var saved := db.BeginTransaction();
    var user := db.CreateUser(dto.name, dto.email, h.make(dto.password));
    if user.Failure? {
      db.RollBack(saved);
      return Failure(user.error);
    }
    var character := db.CreateCharacter(user.value.id, StartingCharacter(dto.nickname));
    if character.Failure? {
      db.RollBack(saved);
      return Failure(character.error);
    }
    r := Success(user.value);
  }

  /**
   * `User::where('email', ...)->first()` over the keys `from` up to `bound`.
   * The query has no `orderBy`, so which matching row comes first is up to
   * the engine; the model takes the lowest key. Under EmailsUnique at most
   * one row matches, and then every choice gives the same answer.
   */
  function FirstWithEmail(users: map<nat, User>, email: string, from: nat, bound: nat): (r: Option<User>)
    decreases bound - from
    ensures r.Some? ==> r.value.email == email
    ensures r.Some? ==>
      exists id | from <= id < bound && id in users ::
        && users[id] == r.value
        && forall j | from <= j < id && j in users :: users[j].email != email
    ensures r.None? <==> forall id | from <= id < bound && id in users :: users[id].email != email
  {
    if bound <= from then None
    else if from in users && users[from].email == email then Some(users[from])
    else FirstWithEmail(users, email, from + 1, bound)
  }

  /** `AuthService::login`: the user with that email whose stored hash checks, else the one generic error. */
  function Login(t: Tables, h: Hasher, dto: LoginDto): (r: Result<User, AuthError>)
    ensures r.Success? ==>
      r.value.email == dto.email && h.check(dto.password, r.value.password)
      && exists id | id in t.users :: t.users[id] == r.value
    ensures r.Failure? ==> r.error == InvalidCredentials
    ensures Valid(t) ==>
      (r.Success? <==>
        exists id | id in t.users :: t.users[id].email == dto.email && h.check(dto.password, t.users[id].password))
  {
    match FirstWithEmail(t.users, dto.email, 0, t.nextUserId)
    case None => Failure(InvalidCredentials)
    case Some(u) =>
      if !h.check(dto.password, u.password) then Failure(InvalidCredentials) else Success(u)
  }

  /** Under the store constraints, a user whose email matches is the one the lookup finds. */
  lemma LookupFindsOwner(t: Tables, id: nat)
    requires Valid(t) && id in t.users
    ensures FirstWithEmail(t.users, t.users[id].email, 0, t.nextUserId) == Some(t.users[id])
  {
  }

  /** Right after a registration, logging in with the same email and password yields the new user. */
  lemma RegisterThenLogin(t: Tables, h: Hasher, dto: RegisterDto)
    requires Valid(t) && Sound(h)
    requires RegisterTransaction(t, h, dto).result.Success?
    ensures var o := RegisterTransaction(t, h, dto);
      Login(o.tables, h, LoginDto(dto.email, dto.password)) == Success(o.result.value)
  {
  }

  /** An unknown email and a wrong password produce one and the same failure. */
  lemma UnknownEmailAndWrongPasswordAlike(t: Tables, h: Hasher, unknown: LoginDto, wrong: LoginDto, id: nat)
    requires Valid(t)
    requires !EmailTaken(t.users, unknown.email)
    requires id in t.users && t.users[id].email == wrong.email && !h.check(wrong.password, t.users[id].password)
    ensures Login(t, h, unknown) == Login(t, h, wrong) == Failure(InvalidCredentials)
  {
  }

  /** A duplicate nickname aborts the registration: no user row is left behind and the store is as before. */
  lemma DuplicateNicknameLeavesNoOrphan(t: Tables, h: Hasher, dto: RegisterDto)
    requires !EmailTaken(t.users, dto.email) && NicknameTaken(t.characters, dto.nickname)
    ensures var o := RegisterTransaction(t, h, dto);
      && o == Outcome(t, Failure(UniqueViolation(CharactersNicknameUnique)))
      && !EmailTaken(o.tables.users, dto.email)
  {
  }

  /** The keys of the characters `uid` owns. */
  function Owned(t: Tables, uid: nat): set<nat>
  {
    set cid | cid in t.characters && t.characters[cid].userId == uid
  }

  /** Each user owns exactly one character. The schema does not enforce this; registration keeps it. */
  ghost predicate OneCharacterEach(t: Tables)
  {
    forall uid | uid in t.users :: |Owned(t, uid)| == 1
  }

  lemma RegisterKeepsOneCharacterEach(t: Tables, h: Hasher, dto: RegisterDto)
    requires Valid(t) && OneCharacterEach(t)
    ensures OneCharacterEach(RegisterTransaction(t, h, dto).tables)
  {
    var o := RegisterTransaction(t, h, dto);
    if o.result.Success? {
      var t' := o.tables;
      var u := o.result.value;
      forall uid | uid in t'.users ensures |Owned(t', uid)| == 1 {
        if uid == u.id {
          assert Owned(t', uid) == {t.nextCharacterId};
        } else {
          assert Owned(t', uid) == Owned(t, uid);
        }
      }
    }
  }

  /**
   * Registering Ivan into an empty database succeeds with a level-1
   * "DragonSlayer"; the same registration again is refused on the email and
   * changes nothing; the right password logs in as the new user and a wrong
   * one gives the generic failure.
   */
  lemma RegisterAndLoginScenario(h: Hasher)
    requires Sound(h)
    requires !h.check("Wrong!", h.make("Secret123"))
    ensures var dto := RegisterDto("Ivan", "ivan@cultivation.world", "Secret123", "DragonSlayer");
      var first := RegisterTransaction(EmptyTables, h, dto);
      var again := RegisterTransaction(first.tables, h, dto);
      && first.result.Success?
      && first.tables.characters[1].nickname == "DragonSlayer"
      && first.tables.characters[1].level == 1
      && first.tables.characters[1].userId == first.result.value.id
      && again == Outcome(first.tables, Failure(UniqueViolation(UsersEmailUnique)))
      && Login(first.tables, h, LoginDto("ivan@cultivation.world", "Secret123")) == Success(first.result.value)
      && Login(first.tables, h, LoginDto("ivan@cultivation.world", "Wrong!")) == Failure(InvalidCredentials)
  {
  }
}
