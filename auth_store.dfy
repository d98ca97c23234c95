/**
 * The front end's authentication store: the signed-in user, a loading flag
 * and the last error message. Each API call is one step whose outcome (a
 * resolved value or a rejection with the server's error body) is a
 * parameter.
 */
module AuthStore {
  import opened Wrappers

  /** The character part of the user the API returns. */
  datatype CharacterView = CharacterView(nickname: string, level: int)

  /** The user the API returns; the character may be missing. */
  datatype UserView = UserView(id: int, name: string, email: string, character: Option<CharacterView>)

  /** Field name to messages, as in a 422 response body. */
  type FieldErrors = map<string, seq<string>>

  /** The body of an error response, each key possibly missing. */
  datatype ErrorData = ErrorData(message: Option<string>, errors: Option<FieldErrors>)

  /** How an awaited API call ended: resolved with a value, or rejected with the response body if there was one. */
  datatype ApiOutcome<T> = Resolved(value: T) | Rejected(data: Option<ErrorData>)

  /** What `register` hands back to the form. */
  datatype RegisterReply = RegisterReply(success: bool, errors: Option<FieldErrors>)

  const DefaultCultivatorName := "Даосист"
  const LoginFailedText := "Неверные учётные данные"
  const RegisterFailedText := "Ошибка регистрации"

  /**
   * The `cultivatorName` getter: the character's nickname, else the user's
   * name, else the fixed default; an empty string counts as missing.
   */
  function CultivatorName(user: Option<UserView>): (name: string)
    ensures name != ""
    ensures user.Some? && user.value.character.Some? && user.value.character.value.nickname != "" ==>
      name == user.value.character.value.nickname
    ensures (user.None? || user.value.character.None? || user.value.character.value.nickname == "") ==>
      name == (if user.Some? && user.value.name != "" then user.value.name else DefaultCultivatorName)
  {
    if user.Some? && user.value.character.Some? && user.value.character.value.nickname != "" then
      user.value.character.value.nickname
    else if user.Some? && user.value.name != "" then
      user.value.name
    else
      DefaultCultivatorName
  }

  /** `err.response?.data?.message || fallback`: the server's message unless missing or empty. */
  function ErrorText(data: Option<ErrorData>, fallback: string): (text: string)
    ensures fallback != "" ==> text != ""
    ensures text == fallback || (data.Some? && data.value.message == Some(text) && text != "")
    ensures data.Some? && data.value.message.Some? && data.value.message.value != "" ==>
      text == data.value.message.value
  {
    if data.Some? && data.value.message.Some? && data.value.message.value != "" then
      data.value.message.value
    else
      fallback
  }

  /** `err.response?.data?.errors || {}`: an object is never falsy, so only a missing one becomes `{}`. */
  function FieldErrorsOf(data: Option<ErrorData>): (errors: FieldErrors)
    ensures data.Some? && data.value.errors.Some? ==> errors == data.value.errors.value
    ensures (data.None? || data.value.errors.None?) ==> errors == map[]
  {
    if data.Some? && data.value.errors.Some? then data.value.errors.value else map[]
  }

  class Store {
    var user: Option<UserView>
    var loading: bool
    var error: Option<string>

    constructor ()
      ensures user == None && !loading && error == None
    {
      user := None;
      loading := false;
      error := None;
    }

    /** The `isAuthenticated` getter. */
    function IsAuthenticated(): (b: bool)
      reads this
      ensures b <==> user != None
    {
      user.Some?
    }

    /** `login`: true and the returned user on success; false, the old user and an error text on failure. */
    method Login(outcome: ApiOutcome<UserView>) returns (ok: bool)
      modifies this
      ensures ok <==> outcome.Resolved?
      ensures !loading
      ensures outcome.Resolved? ==> user == Some(outcome.value) && error == None
      ensures outcome.Rejected? ==>
        user == old(user) && error == Some(ErrorText(outcome.data, LoginFailedText))
    {
      loading := true;
      error := None;
      match outcome {
        case Resolved(u) =>
          user := Some(u);
          ok := true;
        case Rejected(data) =>
          error := Some(ErrorText(data, LoginFailedText));
          ok := false;
      }
      loading := false;
    }

    /** `register`: like login, but the reply carries the server's field errors on failure. */
    method Register(outcome: ApiOutcome<UserView>) returns (reply: RegisterReply)
      modifies this
      ensures reply.success <==> outcome.Resolved?
      ensures !loading
      ensures outcome.Resolved? ==> user == Some(outcome.value) && error == None && reply.errors == None
      ensures outcome.Rejected? ==>
        && user == old(user)
        && error == Some(ErrorText(outcome.data, RegisterFailedText))
        && reply.errors == Some(FieldErrorsOf(outcome.data))
    {
      loading := true;
      error := None;
      match outcome {
        case Resolved(u) =>
          user := Some(u);
          reply := RegisterReply(true, None);
        case Rejected(data) =>
          var errors := FieldErrorsOf(data);
          error := Some(ErrorText(data, RegisterFailedText));
          reply := RegisterReply(false, Some(errors));
      }
      loading := false;
    }

    /** `fetchUser`: the current user from the server, or none; loading and error are left alone. */
    method FetchUser(outcome: ApiOutcome<UserView>)
      modifies this
      ensures user == (if outcome.Resolved? then Some(outcome.value) else None)
      ensures loading == old(loading) && error == old(error)
    {
      match outcome {
        case Resolved(u) =>
          user := Some(u);
        case Rejected(_) =>
          user := None;
      }
    }

    /** `logout`: signed out whether or not the server call succeeded; the error is left alone. */
    method Logout(outcome: ApiOutcome<()>)
      modifies this
      ensures user == None && !loading
      ensures error == old(error)
    {
      loading := true;
      match outcome {
        case Resolved(_) =>
          user := None;
        case Rejected(_) =>
          user := None;
      }
      loading := false;
    }
  }
}

