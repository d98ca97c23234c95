/**
 * The back end's second registration service. Its body repeats
 * AuthService's registration statement for statement; here it is written
 * out again and proved to meet the same specification, so the two cannot
 * be told apart by any caller.
 */
module RegistrationService {
  import opened Wrappers
  import opened Hashing
  import opened Database
  import AuthService

  /** `RegistrationService::register`: user insert, then character insert, in one transaction. */
  method Register(db: Connection, h: Hasher, dto: AuthService.RegisterDto) returns (r: Result<User, DbError>)
    modifies db
    ensures db.tables == AuthService.RegisterTransaction(old(db.tables), h, dto).tables
    ensures r == AuthService.RegisterTransaction(old(db.tables), h, dto).result
  {
    var saved := db.BeginTransaction();
    var user := db.CreateUser(dto.name, dto.email, h.make(dto.password));
    if user.Failure? {
      db.RollBack(saved);
      r := Failure(user.error);
      return;
    }
    var character := db.CreateCharacter(user.value.id, AuthService.StartingCharacter(dto.nickname));
    if character.Failure? {
      db.RollBack(saved);
      r := Failure(character.error);
      return;
    }
    r := Success(user.value);
  }

  /**
   * Given two databases in the same state, registering the same input
   * through either service leaves them in the same state with the same
   * result.
   */
  method ServicesAgree(viaAuth: Connection, viaRegistration: Connection, h: Hasher, dto: AuthService.RegisterDto)
    returns (a: Result<User, DbError>, b: Result<User, DbError>)
    requires viaAuth != viaRegistration
    requires viaAuth.tables == viaRegistration.tables
    modifies viaAuth, viaRegistration
    ensures a == b
    ensures viaAuth.tables == viaRegistration.tables
  {
    a := AuthService.Register(viaAuth, h, dto);
    b := Register(viaRegistration, h, dto);
  }
}
