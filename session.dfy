/**
 * The browser's user context: the `user` and `token` state, the
 * `signup`/`login`/`logout` transitions, and the effect that mirrors both
 * into localStorage. The server's answer to a request is a parameter.
 */
module Session {
  import opened JsValues
  import PasswordRule

  /** The `{ name, email }` object kept as `user`. */
  datatype Profile = Profile(name: JsString, email: JsString)

  /** The two localStorage keys, `token` and `user`; None when the key is removed. */
  datatype Storage = Storage(token: Option<JsString>, user: Option<Profile>)

  /** What axios hands back: the success body, an error response (with its `message`, if any), or nothing ever. */
  datatype Reply =
    | Accepted(name: JsString, email: JsString, token: JsString)
    | Refused(message: Option<string>)
    | Silent

  /** A request the context sends to the server. */
  datatype AuthRequest =
    | SignupRequest(name: JsString, email: JsString, password: JsString)
    | LoginRequest(email: JsString, password: JsString)

  /** How a call ends: stopped before any request, signed in, an alert and a rethrow, or still waiting. */
  datatype Outcome = Blocked(alert: string) | SignedIn | Failed(alert: string) | Waiting

  const PasswordAlert := "Password must be 8–12 characters and include at least 1 uppercase letter."

  /** `err.response?.data?.message || fallback`. */
  function AlertText(message: Option<string>, fallback: string): (a: string)
    ensures a == fallback <==> message.None? || message.value == [] || message.value == fallback
    ensures message.Some? && message.value != [] ==> a == message.value
  {
    if message.Some? && message.value != [] then message.value else fallback
  }

  /** The effect on `[token, user]`: both keys are written when both are truthy, otherwise both are removed. */
  function Persisted(token: JsString, user: Option<Profile>): (s: Storage)
    ensures s.token.Some? <==> s.user.Some?
    ensures s.token.Some? <==> token != [] && user.Some?
    ensures s.token.Some? ==> s.token.value == token && s.user == user
  {
    if token != [] && user.Some? then Storage(Some(token), user) else Storage(None, None)
  }

  class UserProvider {
    var user: Option<Profile>
    var token: JsString
    var storage: Storage
    var sent: seq<AuthRequest>

    /** The persistence effect has run on the current state. */
    ghost predicate Valid()
      reads this
    {
      storage == Persisted(token, user)
    }

    /** Mount: `token` from storage or `""`, `user` from storage or null, then the effect. */
    constructor (saved: Storage)
      ensures Valid() && sent == []
      ensures token == (if saved.token.Some? then saved.token.value else [])
      ensures user == saved.user
    {
      token := if saved.token.Some? then saved.token.value else [];
      user := saved.user;
      sent := [];
      new;
      storage := Persisted(token, user);
    }

    /** `signup`: a password the rule refuses never reaches the server; a failed request leaves the session as it was. */
    method Signup(name: JsString, email: JsString, password: JsString, reply: Reply) returns (outcome: Outcome)
      requires Valid()
      modifies this
      ensures Valid()
      ensures !PasswordRule.ValidatePassword(password) ==>
        outcome == Blocked(PasswordAlert) && user == old(user) && token == old(token) && sent == old(sent)
      ensures PasswordRule.ValidatePassword(password) ==>
        && sent == old(sent) + [SignupRequest(name, email, password)]
        && match reply
           case Accepted(n, e, t) => outcome == SignedIn && user == Some(Profile(n, e)) && token == t
           case Refused(m) => outcome == Failed(AlertText(m, "Signup failed")) && user == old(user) && token == old(token)
           case Silent => outcome == Waiting && user == old(user) && token == old(token)
    {
      if !PasswordRule.ValidatePassword(password) {
        return Blocked(PasswordAlert);
      }
      sent := sent + [SignupRequest(name, email, password)];
      outcome := Answer(reply, "Signup failed");
    }

    /** `login`: on success the session is the reply's; otherwise it is unchanged. */
    method Login(email: JsString, password: JsString, reply: Reply) returns (outcome: Outcome)
      requires Valid()
      modifies this
      ensures Valid()
      ensures sent == old(sent) + [LoginRequest(email, password)]
      ensures match reply
        case Accepted(n, e, t) => outcome == SignedIn && user == Some(Profile(n, e)) && token == t
        case Refused(m) => outcome == Failed(AlertText(m, "Login failed")) && user == old(user) && token == old(token)
        case Silent => outcome == Waiting && user == old(user) && token == old(token)
    {
      sent := sent + [LoginRequest(email, password)];
      outcome := Answer(reply, "Login failed");
    }

    /** The shared tail of signup and login: adopt the reply's profile and token, or alert. */
    method Answer(reply: Reply, fallback: string) returns (outcome: Outcome)
      requires Valid()
      modifies this`user, this`token, this`storage
      ensures Valid()
      ensures match reply
        case Accepted(n, e, t) => outcome == SignedIn && user == Some(Profile(n, e)) && token == t
        case Refused(m) => outcome == Failed(AlertText(m, fallback)) && user == old(user) && token == old(token)
        case Silent => outcome == Waiting && user == old(user) && token == old(token)
    {
      match reply
      case Accepted(n, e, t) =>
        user := Some(Profile(n, e));
        token := t;
        storage := Persisted(token, user);
        outcome := SignedIn;
      case Refused(m) =>
        outcome := Failed(AlertText(m, fallback));
      case Silent =>
        outcome := Waiting;
    }

    /** `logout`: no user, an empty token, and both storage keys removed. */
    method Logout()
      requires Valid()
      modifies this
      ensures Valid()
      ensures user == None && token == [] && storage == Storage(None, None) && sent == old(sent)
    {
      user := None;
      token := [];
      storage := Storage(None, None);
    }
  }
}
