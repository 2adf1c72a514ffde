/** The administrator login page: the form validation, the fixed credential table, and the
    session entry it writes to, and reads back from, the browser's storage.

    A browser store is reduced to its `soetAdminSession` entry, an object of class
    `SessionStore`; the page uses two of them, the persistent `localStorage` and the per-tab
    `sessionStorage`. An entry is kept as the session object it encodes as JSON. `now` is the
    time in milliseconds. */
module AdminLogin {
  import opened Wrappers
  import opened Strings

  const DayMillis := 1000 * 60 * 60 * 24

  /** How long a remembered session lasts. */
  const RememberFor := 30 * DayMillis

  /** The JSON object kept under `soetAdminSession`; `expiry` is only written when the
      administrator asked to be remembered. */
  datatype Session = Session(username: string, loginTime: int, isAdmin: bool, expiry: Option<int>)

  /** The `soetAdminSession` entry of one browser store. */
  class SessionStore {
    var adminSession: Option<Session>

    constructor (entry: Option<Session>)
      ensures adminSession == entry
    {
      adminSession := entry;
    }
  }

  // ---------------------------------------------------------------------------------------
  // validateForm
  // ---------------------------------------------------------------------------------------

  /** The messages `validateForm` can show. */
  datatype FormError = UsernameRequired | UsernameTooShort | PasswordRequired | PasswordTooShort {
    function Text(): string {
      match this
      case UsernameRequired => "Username is required"
      case UsernameTooShort => "Username must be at least 3 characters"
      case PasswordRequired => "Password is required"
      case PasswordTooShort => "Password must be at least 6 characters"
    }
  }

  /** The errors `validateForm` shows, in the order it shows them; the banner ends up with the
      last. Both fields are always checked. The username must not be blank once trimmed, but
      its length is that of the raw field. */
  function FormErrors(username: string, password: string): (errors: seq<FormError>)
    ensures |errors| <= 2
    ensures UsernameRequired in errors <==> Trim(username) == ""
    ensures UsernameTooShort in errors <==> Trim(username) != "" && |username| < 3
    ensures PasswordRequired in errors <==> password == ""
    ensures PasswordTooShort in errors <==> password != "" && |password| < 6
    ensures errors == [] <==> Trim(username) != "" && |username| >= 3 && |password| >= 6
  {
    var name := if Trim(username) == "" then Some(UsernameRequired)
                else if |username| < 3 then Some(UsernameTooShort) else None;
    var pass := if password == "" then Some(PasswordRequired)
                else if |password| < 6 then Some(PasswordTooShort) else None;
    match (name, pass)
    case (None, None) => []
    case (Some(n), None) => [n]
    case (None, Some(q)) => [q]
    case (Some(n), Some(q)) => [n, q]
  }

  /** `validateForm()`: `isValid` starts true and each failed rule clears it. */
  method ValidateForm(username: string, password: string) returns (isValid: bool, errors: seq<FormError>)
    ensures errors == FormErrors(username, password)
    ensures isValid <==> errors == []
  {
    isValid := true;
    errors := [];
    if Trim(username) == "" {
      errors := errors + [UsernameRequired];
      isValid := false;
    } else if |username| < 3 {
      errors := errors + [UsernameTooShort];
      isValid := false;
    }
    if password == "" {
      errors := errors + [PasswordRequired];
      isValid := false;
    } else if |password| < 6 {
      errors := errors + [PasswordTooShort];
      isValid := false;
    }
  }

  /** Leading blanks count towards the username's length: "  a" is long enough although
      the name it stands for has one letter. */
  lemma PaddedShortNamePasses()
    ensures FormErrors("  a", "secret") == []
  {
    assert Trim("  a") != "" by {
      TrimEmptyIffAllWhitespace("  a");
      assert !IsJsWhitespace("  a"[2]);
    }
  }

  // ---------------------------------------------------------------------------------------
  // The credential check
  // ---------------------------------------------------------------------------------------

  /** The credential table of the page. */
  const Credentials: map<string, string> := map[
    "admin" := "soet2024", "soetadmin" := "vikram@123", "principal" := "principal@soet", "dean" := "dean@2024"]

  /** `adminCredentials[username] && adminCredentials[username] === password`, on the trimmed
      username: the stored password must be non-empty and equal to the one typed. */
  predicate Authenticates(username: string, password: string) {
    var name := Trim(username);
    name in Credentials && Credentials[name] != "" && Credentials[name] == password
  }

  /** Exactly the four pairs of the table log in, and the password is compared as typed. */
  lemma LoginTable(username: string, password: string)
    requires username in Credentials
    ensures Authenticates(username, password) <==> password == Credentials[username]
    ensures !Authenticates(username, Credentials[username] + " ")
  {
    TableNamesUnpadded(username);
  }

  lemma TableNamesUnpadded(username: string)
    requires username in Credentials
    ensures Trim(username) == username && Credentials[username] != ""
  {
    var names := ["admin", "soetadmin", "principal", "dean"];
    assert username in names;
    TrimKeepsUnpadded(username);
  }

  /** A pair that logs in is a row of the table. */
  lemma AuthenticatesOnlyTableRows(username: string, password: string)
    requires Authenticates(username, password)
    ensures Trim(username) in Credentials.Keys && password in Credentials.Values
  {
    var name := Trim(username);
    assert Credentials[name] == password;
  }

  /** Every row of the table gets past the form validation, so no pair the table accepts is
      turned away before the check. */
  lemma TableRowsPassValidation(username: string)
    requires username in Credentials
    ensures FormErrors(username, Credentials[username]) == []
  {
    TableNamesUnpadded(username);
    var rows := [("admin", "soet2024"), ("soetadmin", "vikram@123"), ("principal", "principal@soet"), ("dean", "dean@2024")];
    assert (username, Credentials[username]) in rows;
  }

  // ---------------------------------------------------------------------------------------
  // Sessions
  // ---------------------------------------------------------------------------------------

  /** The session `storeSession` writes to `localStorage` for a remembered login. */
  function RememberedSession(username: string, now: int): Session {
    Session(username, now, true, Some(now + RememberFor))
  }

  /** The session `storeSession` writes to `sessionStorage` otherwise. */
  function TabSession(username: string, now: int): Session {
    Session(username, now, true, None)
  }

  /** `storeSession(username, rememberMe)`: one store is written and the other is left as it
      was. */
  method StoreSession(username: string, rememberMe: bool, now: int, local: SessionStore, session: SessionStore)
    requires local != session
    modifies local, session
    ensures rememberMe ==>
      local.adminSession == Some(RememberedSession(username, now)) && session.adminSession == old(session.adminSession)
    ensures !rememberMe ==>
      session.adminSession == Some(TabSession(username, now)) && local.adminSession == old(local.adminSession)
  {
    if rememberMe {
      local.adminSession := Some(RememberedSession(username, now));
    } else {
      session.adminSession := Some(TabSession(username, now));
    }
  }

  /** The login page's test of the `localStorage` entry: it has an expiry still in the
      future. */
  predicate LocalSessionLive(entry: Option<Session>, now: int) {
    entry.Some? && entry.value.expiry.Some? && entry.value.expiry.value > now
  }

  /** A remembered session is live for thirty days after the login, and not a moment longer. */
  lemma RememberedSessionLasts(username: string, loginTime: int, now: int)
    ensures LocalSessionLive(Some(RememberedSession(username, loginTime)), now) <==> now < loginTime + RememberFor
  {
  }

  /** `checkExistingSession()`: a live remembered session, or any tab session, welcomes the
      administrator back; a remembered session that is not live is removed. */
  method CheckExistingSession(now: int, local: SessionStore, session: SessionStore) returns (welcome: bool)
    requires local != session
    modifies local
    ensures welcome <==> LocalSessionLive(old(local.adminSession), now) || session.adminSession.Some?
    ensures local.adminSession == if LocalSessionLive(old(local.adminSession), now) then old(local.adminSession) else None
  {
    var localEntry := local.adminSession;
    var sessionEntry := session.adminSession;
    if localEntry.Some? {
      if localEntry.value.expiry.Some? && localEntry.value.expiry.value > now {
        return true;
      } else {
        local.adminSession := None;
      }
    }
    welcome := sessionEntry.Some?;
  }

  // ---------------------------------------------------------------------------------------
  // Submitting the form
  // ---------------------------------------------------------------------------------------

  const InvalidCredentials := "Invalid username or password. Please try again."

  datatype LoginResult = Invalid(errors: seq<FormError>) | Refused(message: string) | LoggedIn

  /** The submit handler: validation first, then the table on the trimmed username; only a
      login writes a session. */
  method Submit(username: string, password: string, rememberMe: bool, now: int,
                local: SessionStore, session: SessionStore) returns (result: LoginResult)
    requires local != session
    modifies local, session
    ensures FormErrors(username, password) != [] ==>
      result == Invalid(FormErrors(username, password))
      && local.adminSession == old(local.adminSession) && session.adminSession == old(session.adminSession)
    ensures FormErrors(username, password) == [] && !Authenticates(username, password) ==>
      result == Refused(InvalidCredentials)
      && local.adminSession == old(local.adminSession) && session.adminSession == old(session.adminSession)
    ensures FormErrors(username, password) == [] && Authenticates(username, password) ==>
      result == LoggedIn
      && (if rememberMe then
            local.adminSession == Some(RememberedSession(Trim(username), now))
            && session.adminSession == old(session.adminSession)
          else
            session.adminSession == Some(TabSession(Trim(username), now))
            && local.adminSession == old(local.adminSession))
  {
    var isValid, errors := ValidateForm(username, password);
    if !isValid {
      return Invalid(errors);
    }
    var name := Trim(username);
    if name in Credentials && Credentials[name] != "" && Credentials[name] == password {
      StoreSession(name, rememberMe, now, local, session);
      result := LoggedIn;
    } else {
      result := Refused(InvalidCredentials);
    }
  }
}
