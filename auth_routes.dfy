/** The account routes under `/api/auth`: `login`, `register`, `profile`, `change-password`
    and `logout`. Each handler runs its guards in order, changes fields of the account record
    in memory and then saves it; an early answer leaves the collection as it was.

    Every handler is given twice: as a function from the collection before the request to
    the answer and the collection after it, which the lemmas are about, and as a method on the
    collection that does the work step by step and is proved to agree with the function. */
module AuthRoutes {
  import opened Wrappers
  import opened Strings
  import opened Http
  import opened AdminModel
  import opened AuthMiddleware

  /** bcrypt and `jwt.sign`, and the bcrypt cost in use. `sign` takes the `admin` claim and the
      `expiresIn` option. */
  datatype Crypto = Crypto(
    hash: (string, int) -> string,
    rounds: int,
    compare: (string, string) -> bool,
    sign: (Claims, string) -> string)

  /** An answer, the token it carries (login only), and the collection after the request. */
  datatype Handled = Handled(response: Response, token: Option<string>, accounts: seq<Account>)

  /** The ValidationError branch: the messages of the failing paths, joined by ", ". */
  function ValidationAnswer(messages: seq<string>): Response {
    Response(400, Join(messages, ", "))
  }

  /** `await admin.save()` followed by the success answer `onSaved`. A validation error is
      answered with a 400 where the handler catches it (`catchesValidation`), and every other
      failure, a duplicate key among them, with the handler's 500. */
  function SaveAndAnswer(accounts: seq<Account>, doc: Account, passwordModified: bool, c: Crypto,
                         onSaved: Response, catchesValidation: bool, serverError: string)
    : (h: Handled)
    ensures WellFormed(doc) && KeysFreeFor(accounts, doc) ==>
      h == Handled(onSaved, None, Put(accounts, PreSave(Strict(doc), passwordModified, c.hash, c.rounds)))
    ensures !WellFormed(doc) && catchesValidation ==>
      h == Handled(ValidationAnswer(ValidationMessages(doc)), None, accounts)
    ensures !WellFormed(doc) && !catchesValidation ==> h == Handled(ServerError(serverError), None, accounts)
    ensures WellFormed(doc) && !KeysFreeFor(accounts, doc) ==>
      h == Handled(ServerError(serverError), None, accounts)
  {
    match SaveOutcome(accounts, doc, passwordModified, c.hash, c.rounds)
    case Saved(stored) => Handled(onSaved, None, Put(accounts, stored))
    case Invalid(messages) =>
      if catchesValidation then Handled(ValidationAnswer(messages), None, accounts)
      else Handled(ServerError(serverError), None, accounts)
    case DuplicateKey => Handled(ServerError(serverError), None, accounts)
  }

  /** The account of `id` followed by an in-memory edit and `save()`, as a method. */
  method SaveAnswer(store: AdminStore, doc: Account, passwordModified: bool, c: Crypto,
                    onSaved: Response, catchesValidation: bool, serverError: string)
    returns (response: Response)
    requires store.Valid()
    modifies store
    ensures store.Valid()
    ensures var h := SaveAndAnswer(old(store.accounts), doc, passwordModified, c, onSaved,
                                   catchesValidation, serverError);
            response == h.response && store.accounts == h.accounts
  {
    var saved := store.Save(doc, passwordModified, c.hash, c.rounds);
    match saved
    case Saved(_) => response := onSaved;
    case Invalid(messages) =>
      response := if catchesValidation then ValidationAnswer(messages) else ServerError(serverError);
    case DuplicateKey => response := ServerError(serverError);
  }

  // ---------------------------------------------------------------------------------------
  // POST /login
  // ---------------------------------------------------------------------------------------

  datatype LoginBody = LoginBody(email: Option<string>, password: Option<string>)

  const MissingCredentials := Response(400, "Please provide email and password")
  const InvalidCredentials := Response(401, "Invalid credentials")
  const LoginDeactivated := Response(401, "Account is deactivated. Please contact administrator.")
  const LoginServerError := "Server error during login"
  const LoginSuccessful := Response(200, "Login successful")
  const DefaultTokenLifetime := "7d"

  /** `process.env.JWT_EXPIRE || '7d'`. */
  function TokenLifetime(jwtExpire: Option<string>): (r: string)
    ensures Truthy(jwtExpire) ==> r == jwtExpire.value
    ensures !Truthy(jwtExpire) ==> r == DefaultTokenLifetime
  {
    if Truthy(jwtExpire) then jwtExpire.value else DefaultTokenLifetime
  }

  /** The guards of login up to the password check: `Pass(account)` lets login proceed.
      `found` is the result of `findOne({ email })`. */
  function LoginCheck(body: LoginBody, found: Fetch<Account>, compare: (string, string) -> bool)
    : (o: Outcome<Account>)
    ensures o.Pass? <==> (Truthy(body.email) && Truthy(body.password) && found.Found?
                         && found.record.isActive && compare(body.password.value, found.record.password))
    ensures o.Pass? ==> o.value == found.record
  {
    if !Truthy(body.email) || !Truthy(body.password) then Stop(MissingCredentials)
    else match found
      case Failed => Stop(ServerError(LoginServerError))
      case Missing => Stop(InvalidCredentials)
      case Found(admin) =>
        if !admin.isActive then Stop(LoginDeactivated)
        else if !compare(body.password.value, admin.password) then Stop(InvalidCredentials)
        else Pass(admin)
  }

  /** `findOne({ email })` with the email as the schema's setters normalise it. */
  function LoginLookup(accounts: seq<Account>, body: LoginBody): (r: Fetch<Account>)
    ensures r.Found? ==>
      Truthy(body.email) && r.record in accounts && r.record.email == NormaliseEmail(body.email.value)
  {
    if Truthy(body.email) then FindByEmailIn(accounts, NormaliseEmail(body.email.value), None) else Missing
  }

  /** The login route over a snapshot of the collection. A token is issued exactly when the
      credentials pass and the account, stamped with `lastLogin`, saves; it carries the
      account's id, email and role, and only then is anything written. */
  function LoginSpec(accounts: seq<Account>, body: LoginBody, now: int, c: Crypto,
                     jwtExpire: Option<string>): (h: Handled)
    ensures h.token.Some? ==> h.response == LoginSuccessful
    ensures var found := LoginLookup(accounts, body);
      h.token.Some? <==>
        (LoginCheck(body, found, c.compare).Pass?
         && WellFormed(found.record.(lastLogin := Some(now)))
         && KeysFreeFor(accounts, found.record.(lastLogin := Some(now))))
    ensures var found := LoginLookup(accounts, body);
      h.token.Some? ==>
        && h.token == Some(c.sign(Claims(found.record.id, found.record.email, found.record.role),
                                  TokenLifetime(jwtExpire)))
        && h.accounts == Put(accounts, Strict(found.record.(lastLogin := Some(now))))
    ensures h.token.None? ==> h.accounts == accounts
  {
    match LoginCheck(body, LoginLookup(accounts, body), c.compare)
    case Stop(response) => Handled(response, None, accounts)
    case Pass(admin) =>
      var updated := admin.(lastLogin := Some(now));
      var saved := SaveAndAnswer(accounts, updated, false, c, LoginSuccessful, false, LoginServerError);
      if saved.response == LoginSuccessful then
        var token := c.sign(Claims(admin.id, admin.email, admin.role), TokenLifetime(jwtExpire));
        saved.(token := Some(token))
      else saved
  }

  /** A login request with a missing field is answered with a 400 whatever the collection
      holds, and changes nothing. */
  lemma LoginNeedsBothFields(accounts: seq<Account>, body: LoginBody, now: int, c: Crypto,
                             jwtExpire: Option<string>)
    requires !Truthy(body.email) || !Truthy(body.password)
    ensures LoginSpec(accounts, body, now, c, jwtExpire) == Handled(MissingCredentials, None, accounts)
  {
  }

  /** An unknown email and a wrong password get the same answer, so the answer does not tell
      which accounts exist; an inactive account gets its own answer whatever the password. */
  lemma LoginDoesNotRevealAccounts(body: LoginBody, admin: Account, compare: (string, string) -> bool)
    requires Truthy(body.email) && Truthy(body.password)
    ensures LoginCheck(body, Missing, compare) == Stop(InvalidCredentials)
    ensures admin.isActive && !compare(body.password.value, admin.password) ==>
      LoginCheck(body, Found(admin), compare) == Stop(InvalidCredentials)
    ensures !admin.isActive ==> LoginCheck(body, Found(admin), compare) == Stop(LoginDeactivated)
  {
  }

  /** Login never consults the lockout fields: a locked account with the right password logs
      in, and the failure counter plays no part in any answer. */
  lemma LoginIgnoresLockout(body: LoginBody, admin: Account, compare: (string, string) -> bool,
                            attempts: nat, lockUntil: Option<int>)
    ensures LoginCheck(body, Found(admin.(loginAttempts := attempts, lockUntil := lockUntil)), compare).Pass?
      == LoginCheck(body, Found(admin), compare).Pass?
    ensures LoginCheck(body, Found(admin.(loginAttempts := attempts, lockUntil := lockUntil)), compare).Stop?
      ==> LoginCheck(body, Found(admin.(loginAttempts := attempts, lockUntil := lockUntil)), compare)
          == LoginCheck(body, Found(admin), compare)
  {
  }

  /** A successful login changes only `lastLogin` of the account whose email is the given one
      and whose password matches, leaves its failure counter and lock as they were and every
      other account as it was, and signs a token carrying `{ id, email, role }` that lives for
      `JWT_EXPIRE`, by default seven days. */
  lemma LoginSuccessEffects(accounts: seq<Account>, body: LoginBody, now: int, c: Crypto,
                            jwtExpire: Option<string>)
    requires LoginSpec(accounts, body, now, c, jwtExpire).token.Some?
    ensures Truthy(body.email) && Truthy(body.password)
    ensures var h := LoginSpec(accounts, body, now, c, jwtExpire);
      var admin := FindByEmailIn(accounts, NormaliseEmail(body.email.value), None).record;
      && admin in accounts && admin.isActive && c.compare(body.password.value, admin.password)
      && FindIn(h.accounts, admin.id) == Found(Strict(admin.(lastLogin := Some(now))))
      && FindIn(h.accounts, admin.id).record.loginAttempts == admin.loginAttempts
      && FindIn(h.accounts, admin.id).record.lockUntil == admin.lockUntil
      && (forall id :: id != admin.id ==> FindIn(h.accounts, id) == FindIn(accounts, id))
      && h.token == Some(c.sign(Claims(admin.id, admin.email, admin.role), TokenLifetime(jwtExpire)))
  {
    assert LoginCheck(body, LoginLookup(accounts, body), c.compare).Pass?;
  }

  /** Valid credentials of an active, well-formed account in a collection with unique keys
      always log in: the answer is a success with the account's token. */
  lemma ValidCredentialsLogIn(accounts: seq<Account>, body: LoginBody, now: int, c: Crypto,
                              jwtExpire: Option<string>, i: nat)
    requires UniqueKeys(accounts) && i < |accounts|
    requires Truthy(body.email) && Truthy(body.password)
    requires accounts[i].email == NormaliseEmail(body.email.value)
    requires accounts[i].isActive && WellFormed(accounts[i])
    requires c.compare(body.password.value, accounts[i].password)
    ensures var h := LoginSpec(accounts, body, now, c, jwtExpire);
      && h.response == LoginSuccessful
      && h.token == Some(c.sign(Claims(accounts[i].id, accounts[i].email, accounts[i].role),
                                TokenLifetime(jwtExpire)))
  {
    var found := LoginLookup(accounts, body);
    var admin := found.record;
    StoredKeysFree(accounts, i, admin.(lastLogin := Some(now)));
  }

  method Login(store: AdminStore, body: LoginBody, now: int, c: Crypto, jwtExpire: Option<string>)
    returns (response: Response, token: Option<string>)
    requires store.Valid()
    modifies store
    ensures store.Valid()
    ensures var h := LoginSpec(old(store.accounts), body, now, c, jwtExpire);
            response == h.response && token == h.token && store.accounts == h.accounts
  {
    token := None;
    if !Truthy(body.email) || !Truthy(body.password) {
      return MissingCredentials, None;
    }
    match LoginCheck(body, LoginLookup(store.accounts, body), c.compare)
    case Stop(refusal) =>
      response := refusal;
    case Pass(admin) =>
      var updated := admin.(lastLogin := Some(now));
      response := SaveAnswer(store, updated, false, c, LoginSuccessful, false, LoginServerError);
      if response == LoginSuccessful {
        token := Some(c.sign(Claims(admin.id, admin.email, admin.role), TokenLifetime(jwtExpire)));
      }
  }

  // ---------------------------------------------------------------------------------------
  // POST /register
  // ---------------------------------------------------------------------------------------

  datatype RegisterBody = RegisterBody(
    name: Option<string>,
    email: Option<string>,
    password: Option<string>,
    role: Option<string>,
    permissions: Option<seq<string>>)

  const NotSuperAdmin := Response(403, "Only super admins can create new admin accounts")
  const MissingRegisterFields := Response(400, "Please provide name, email, and password")
  const EmailExists := Response(400, "Admin with this email already exists")
  const RegisterServerError := "Server error during registration"
  const AccountCreated := Response(201, "Admin account created successfully")

  /** The guards of register: `requester` is the result of `findById(req.admin.id)` (a missing
      account makes `currentAdmin.role` throw), `existing` that of `findOne({ email })`. */
  function RegisterCheck(requester: Fetch<Account>, body: RegisterBody, existing: Fetch<Account>)
    : (o: Outcome<AdminId>)
    ensures o.Pass? <==> (requester.Found? && requester.record.role == RoleSuperAdmin
                          && Truthy(body.name) && Truthy(body.email) && Truthy(body.password)
                          && existing.Missing?)
    ensures o.Pass? ==> o.value == requester.record.id
    ensures requester.Found? && requester.record.role != RoleSuperAdmin ==> o == Stop(NotSuperAdmin)
    ensures requester.Found? && requester.record.role == RoleSuperAdmin
            && !(Truthy(body.name) && Truthy(body.email) && Truthy(body.password)) ==>
      o == Stop(MissingRegisterFields)
    ensures requester.Found? && requester.record.role == RoleSuperAdmin
            && Truthy(body.name) && Truthy(body.email) && Truthy(body.password) && existing.Found? ==>
      o == Stop(EmailExists)
    ensures !requester.Found?
            || (requester.record.role == RoleSuperAdmin
                && Truthy(body.name) && Truthy(body.email) && Truthy(body.password) && existing.Failed?) ==>
      o == Stop(ServerError(RegisterServerError))
  {
    match requester
    case Found(current) =>
      if current.role != RoleSuperAdmin then Stop(NotSuperAdmin)
      else if !Truthy(body.name) || !Truthy(body.email) || !Truthy(body.password) then
        Stop(MissingRegisterFields)
      else (match existing
        case Found(_) => Stop(EmailExists)
        case Failed => Stop(ServerError(RegisterServerError))
        case Missing => Pass(current.id))
    case _ => Stop(ServerError(RegisterServerError))
  }

  /** `new Admin({ name, email, password, role: role || 'admin', permissions: permissions || [],
      createdBy })` exactly as the route writes it: no `username` is given. */
  function RegisterDraftAsWritten(id: AdminId, body: RegisterBody, creator: AdminId): (a: Account)
    requires Truthy(body.name) && Truthy(body.email) && Truthy(body.password)
    ensures a.username == ""
  {
    Account(
      id := id,
      username := "",
      email := NormaliseEmail(body.email.value),
      password := body.password.value,
      role := if Truthy(body.role) then body.role.value else RoleAdmin,
      isActive := true,
      lastLogin := None,
      loginAttempts := 0,
      lockUntil := None,
      name := body.name,
      permissions := Some(body.permissions.GetOr([])),
      createdBy := Some(creator),
      lastLogout := None)
  }

  /** The new account with its `username` taken from the `name` the route requires, so that
      the schema's required username is supplied. */
  function RegisterDraft(id: AdminId, body: RegisterBody, creator: AdminId): (a: Account)
    requires Truthy(body.name) && Truthy(body.email) && Truthy(body.password)
    ensures a == RegisterDraftAsWritten(id, body, creator).(username := Trim(body.name.value))
    ensures a.role == (if Truthy(body.role) then body.role.value else RoleAdmin)
    ensures a.permissions == Some(if body.permissions.Some? then body.permissions.value else [])
    ensures a.createdBy == Some(creator) && a.isActive && a.loginAttempts == 0 && a.lockUntil.None?
  {
    RegisterDraftAsWritten(id, body, creator).(username := Trim(body.name.value))
  }

  /** The register route as written over a snapshot of the collection; `newId` is the fresh
      id the new document receives. */
  function RegisterAsWrittenSpec(accounts: seq<Account>, requesterId: AdminId, body: RegisterBody,
                                 newId: AdminId, c: Crypto): Handled
    requires FindIn(accounts, newId).Missing?
  {
    var existing := if Truthy(body.email) then FindByEmailIn(accounts, NormaliseEmail(body.email.value), None)
                    else Missing;
    match RegisterCheck(FindIn(accounts, requesterId), body, existing)
    case Stop(response) => Handled(response, None, accounts)
    case Pass(creator) =>
      SaveAndAnswer(accounts, RegisterDraftAsWritten(newId, body, creator), true, c,
                    AccountCreated, true, RegisterServerError)
  }

  /** As written, register can never create an account: the document it builds has no
      username, so `save()` always fails validation and the answer starts with the message of
      the required username. */
  lemma RegisterAsWrittenNeverCreates(accounts: seq<Account>, requesterId: AdminId,
                                      body: RegisterBody, newId: AdminId, c: Crypto)
    requires FindIn(accounts, newId).Missing?
    ensures RegisterAsWrittenSpec(accounts, requesterId, body, newId, c).accounts == accounts
    ensures RegisterAsWrittenSpec(accounts, requesterId, body, newId, c).response != AccountCreated
  {
    var h := RegisterAsWrittenSpec(accounts, requesterId, body, newId, c);
    var existing := if Truthy(body.email) then FindByEmailIn(accounts, NormaliseEmail(body.email.value), None)
                    else Missing;
    var o := RegisterCheck(FindIn(accounts, requesterId), body, existing);
    if o.Pass? {
      var draft := RegisterDraftAsWritten(newId, body, o.value);
      var msgs := ValidationMessages(draft);
      assert msgs[0] == "Username is required";
      assert h.response == ValidationAnswer(msgs);
      assert Join(msgs, ", ")[..20] == "Username is required" by {
        JoinStartsWithFirst(msgs, ", ");
      }
    }
  }

  lemma {:induction false} JoinStartsWithFirst(parts: seq<string>, sep: string)
    requires |parts| > 0
    ensures |Join(parts, sep)| >= |parts[0]| && Join(parts, sep)[..|parts[0]|] == parts[0]
  {
    if |parts| > 1 {
      assert Join(parts, sep) == parts[0] + (sep + Join(parts[1..], sep));
    }
  }

  /** The register route with the username supplied. Only a super admin creates an account,
      and a request that creates none writes nothing. */
  function RegisterSpec(accounts: seq<Account>, requesterId: AdminId, body: RegisterBody,
                        newId: AdminId, c: Crypto): (h: Handled)
    requires FindIn(accounts, newId).Missing?
    ensures h.response == AccountCreated ==>
      FindIn(accounts, requesterId).Found? && FindIn(accounts, requesterId).record.role == RoleSuperAdmin
    ensures h.response == AccountCreated ==>
      FindIn(h.accounts, newId).Found? && forall id :: id != newId ==> FindIn(h.accounts, id) == FindIn(accounts, id)
    ensures h.response != AccountCreated ==> h.accounts == accounts
  {
    var existing := if Truthy(body.email) then FindByEmailIn(accounts, NormaliseEmail(body.email.value), None)
                    else Missing;
    match RegisterCheck(FindIn(accounts, requesterId), body, existing)
    case Stop(response) => Handled(response, None, accounts)
    case Pass(creator) =>
      SaveAndAnswer(accounts, RegisterDraft(newId, body, creator), true, c,
                    AccountCreated, true, RegisterServerError)
  }

  /** A super admin who gives a new email, a name of 3 to 30 characters that no account has as
      its username, a password of at least 8 and a valid role creates exactly that account,
      password hashed; the name, permissions and creator the route passes are not declared by
      the schema and are not stored. Every other account stays as it was. */
  lemma RegisterCreatesAccount(accounts: seq<Account>, requesterId: AdminId, body: RegisterBody,
                               newId: AdminId, c: Crypto)
    requires FindIn(accounts, newId).Missing?
    requires FindIn(accounts, requesterId).Found?
    requires FindIn(accounts, requesterId).record.role == RoleSuperAdmin
    requires Truthy(body.name) && Truthy(body.email) && Truthy(body.password)
    requires FindByEmailIn(accounts, NormaliseEmail(body.email.value), None).Missing?
    requires FindByUsernameIn(accounts, Trim(body.name.value), newId).Missing?
    requires WellFormed(RegisterDraft(newId, body, requesterId))
    ensures var h := RegisterSpec(accounts, requesterId, body, newId, c);
      && h.response == AccountCreated
      && FindIn(h.accounts, newId)
         == Found(Strict(RegisterDraft(newId, body, requesterId)).(password := c.hash(body.password.value, c.rounds)))
      && FindIn(h.accounts, newId).record.name.None?
      && FindIn(h.accounts, newId).record.permissions.None?
      && FindIn(h.accounts, newId).record.createdBy.None?
      && forall id :: id != newId ==> FindIn(h.accounts, id) == FindIn(accounts, id)
  {
    var draft := RegisterDraft(newId, body, requesterId);
    assert !Taken(accounts, draft);
  }

  /** A name that another account already has as its username passes every check of the
      route and is refused by the unique index, which the route answers with its 500. */
  lemma RegisterTakenUsername(accounts: seq<Account>, requesterId: AdminId, body: RegisterBody,
                              newId: AdminId, c: Crypto)
    requires FindIn(accounts, newId).Missing?
    requires FindIn(accounts, requesterId).Found?
    requires FindIn(accounts, requesterId).record.role == RoleSuperAdmin
    requires Truthy(body.name) && Truthy(body.email) && Truthy(body.password)
    requires FindByEmailIn(accounts, NormaliseEmail(body.email.value), None).Missing?
    requires FindByUsernameIn(accounts, Trim(body.name.value), newId).Found?
    requires WellFormed(RegisterDraft(newId, body, requesterId))
    ensures RegisterSpec(accounts, requesterId, body, newId, c)
      == Handled(ServerError(RegisterServerError), None, accounts)
  {
    var draft := RegisterDraft(newId, body, requesterId);
    assert Taken(accounts, draft);
  }

  /** Register refuses, without writing, a requester that is not a super admin. */
  lemma OnlySuperAdminsRegister(accounts: seq<Account>, requesterId: AdminId, body: RegisterBody,
                                newId: AdminId, c: Crypto)
    requires FindIn(accounts, requesterId).Found?
    requires FindIn(accounts, requesterId).record.role != RoleSuperAdmin
    requires FindIn(accounts, newId).Missing?
    ensures RegisterSpec(accounts, requesterId, body, newId, c) == Handled(NotSuperAdmin, None, accounts)
  {
  }

  method Register(store: AdminStore, requesterId: AdminId, body: RegisterBody, newId: AdminId,
                  c: Crypto)
    returns (response: Response)
    requires store.Valid() && FindIn(store.accounts, newId).Missing?
    modifies store
    ensures store.Valid()
    ensures var h := RegisterSpec(old(store.accounts), requesterId, body, newId, c);
            response == h.response && store.accounts == h.accounts
  {
    var current := store.FindById(requesterId);
    var existing := if Truthy(body.email) then FindByEmailIn(store.accounts, NormaliseEmail(body.email.value), None)
                    else Missing;
    match RegisterCheck(current, body, existing)
    case Stop(refusal) =>
      response := refusal;
    case Pass(creator) =>
      var admin := RegisterDraft(newId, body, creator);
      response := SaveAnswer(store, admin, true, c, AccountCreated, true, RegisterServerError);
  }

  // ---------------------------------------------------------------------------------------
  // PUT /profile
  // ---------------------------------------------------------------------------------------

  datatype ProfileBody = ProfileBody(
    name: Option<string>,
    email: Option<string>,
    currentPassword: Option<string>,
    newPassword: Option<string>)

  const AccountMissing := Response(404, "Admin not found")
  const EmailTaken := Response(400, "Email is already taken")
  const CurrentPasswordRequired := Response(400, "Current password is required to set new password")
  const CurrentPasswordIncorrect := Response(400, "Current password is incorrect")
  const PlainServerError := "Server error"
  const ProfileUpdated := Response(200, "Profile updated successfully")

  /** The record edits of the profile route: `Pass((edited, passwordModified))` or an early
      answer. `takenBy` is the result of `findOne({ email, _id: { $ne: admin._id } })`. */
  function ProfileEdit(admin: Account, body: ProfileBody, takenBy: Fetch<Account>,
                       compare: (string, string) -> bool): (o: Outcome<(Account, bool)>)
    ensures Truthy(body.email) && takenBy.Found? ==> o == Stop(EmailTaken)
    ensures o.Pass? ==>
      (o.value.0.id == admin.id && o.value.0.role == admin.role
       && o.value.0.isActive == admin.isActive && o.value.0.loginAttempts == admin.loginAttempts)
    ensures o.Pass? ==> (o.value.0.password != admin.password ==>
      Truthy(body.newPassword) && Truthy(body.currentPassword)
      && compare(body.currentPassword.value, admin.password))
    ensures Truthy(body.email) && takenBy.Failed? ==> o == Stop(ServerError(PlainServerError))
    ensures o.Pass? <==>
      (&& (!Truthy(body.email) || takenBy.Missing?)
       && (!Truthy(body.newPassword)
           || (Truthy(body.currentPassword) && compare(body.currentPassword.value, admin.password))))
    ensures (!Truthy(body.email) || takenBy.Missing?) && Truthy(body.newPassword) ==>
      (!Truthy(body.currentPassword) ==> o == Stop(CurrentPasswordRequired))
      && (Truthy(body.currentPassword) && !compare(body.currentPassword.value, admin.password) ==>
            o == Stop(CurrentPasswordIncorrect))
    ensures o.Pass? ==>
      && o.value.0 == admin.(name := if Truthy(body.name) then body.name else admin.name,
                             email := if Truthy(body.email) then NormaliseEmail(body.email.value) else admin.email,
                             password := if Truthy(body.newPassword) then body.newPassword.value else admin.password)
      && o.value.1 == (o.value.0.password != admin.password)
  {
    var named := if Truthy(body.name) then admin.(name := body.name) else admin;
    if Truthy(body.email) && takenBy.Found? then Stop(EmailTaken)
    else if Truthy(body.email) && takenBy.Failed? then Stop(ServerError(PlainServerError))
    else
      var mailed := if Truthy(body.email) then named.(email := NormaliseEmail(body.email.value)) else named;
      if !Truthy(body.newPassword) then Pass((mailed, false))
      else if !Truthy(body.currentPassword) then Stop(CurrentPasswordRequired)
      else if !compare(body.currentPassword.value, admin.password) then Stop(CurrentPasswordIncorrect)
      else Pass((mailed.(password := body.newPassword.value), body.newPassword.value != admin.password))
  }

  function ProfileSpec(accounts: seq<Account>, id: AdminId, body: ProfileBody, c: Crypto): Handled {
    match FindIn(accounts, id)
    case Found(admin) =>
      var takenBy := if Truthy(body.email)
                     then FindByEmailIn(accounts, NormaliseEmail(body.email.value), Some(admin.id))
                     else Missing;
      (match ProfileEdit(admin, body, takenBy, c.compare)
       case Stop(response) => Handled(response, None, accounts)
       case Pass((edited, passwordModified)) =>
         SaveAndAnswer(accounts, edited, passwordModified, c, ProfileUpdated, true, PlainServerError))
    case _ => Handled(AccountMissing, None, accounts)
  }

  /** A profile request that is refused for a taken email, a missing current password or a
      wrong current password writes nothing. */
  lemma ProfileErrorsPersistNothing(accounts: seq<Account>, id: AdminId, body: ProfileBody, c: Crypto)
    requires ProfileSpec(accounts, id, body, c).response
      in {EmailTaken, CurrentPasswordRequired, CurrentPasswordIncorrect}
    ensures ProfileSpec(accounts, id, body, c).accounts == accounts
  {
  }

  /** The stored password changes only through a new password confirmed by the current one. */
  lemma ProfilePasswordNeedsCurrent(accounts: seq<Account>, id: AdminId, body: ProfileBody, c: Crypto)
    requires FindIn(accounts, id).Found?
    requires ProfileSpec(accounts, id, body, c).response == ProfileUpdated
    ensures var before := FindIn(accounts, id).record;
      var after := FindIn(ProfileSpec(accounts, id, body, c).accounts, id);
      after.Found? && (after.record.password != before.password ==>
        Truthy(body.newPassword) && Truthy(body.currentPassword)
        && c.compare(body.currentPassword.value, before.password))
  {
    var admin := FindIn(accounts, id).record;
    var takenBy := if Truthy(body.email)
                   then FindByEmailIn(accounts, NormaliseEmail(body.email.value), Some(admin.id))
                   else Missing;
    var o := ProfileEdit(admin, body, takenBy, c.compare);
    assert o.Pass?;
    var edited := o.value.0;
    var modified := o.value.1;
    assert !modified ==> edited.password == admin.password;
  }

  /** A successful profile update stores the normalised new email, if one was given, and
      keeps the username, role and activity of the account and every other account; the
      `name` the route assigns is not declared by the schema and is not stored. */
  lemma ProfileUpdateStores(accounts: seq<Account>, id: AdminId, body: ProfileBody, c: Crypto)
    requires ProfileSpec(accounts, id, body, c).response == ProfileUpdated
    ensures FindIn(accounts, id).Found?
    ensures var before := FindIn(accounts, id).record;
      var after := FindIn(ProfileSpec(accounts, id, body, c).accounts, id);
      && after.Found? && after.record.name.None?
      && after.record.email == (if Truthy(body.email) then NormaliseEmail(body.email.value) else before.email)
      && after.record.username == before.username && after.record.role == before.role
      && after.record.isActive == before.isActive
    ensures forall other :: other != id ==>
      FindIn(ProfileSpec(accounts, id, body, c).accounts, other) == FindIn(accounts, other)
  {
    var admin := FindIn(accounts, id).record;
    var takenBy := if Truthy(body.email)
                   then FindByEmailIn(accounts, NormaliseEmail(body.email.value), Some(admin.id))
                   else Missing;
    var o := ProfileEdit(admin, body, takenBy, c.compare);
    assert o.Pass?;
    var edited := o.value.0;
    assert WellFormed(edited) && KeysFreeFor(accounts, edited);
    var stored := PreSave(Strict(edited), o.value.1, c.hash, c.rounds);
    assert ProfileSpec(accounts, id, body, c).accounts == Put(accounts, stored);
  }

  method Profile(store: AdminStore, id: AdminId, body: ProfileBody, c: Crypto)
    returns (response: Response)
    requires store.Valid()
    modifies store
    ensures store.Valid()
    ensures var h := ProfileSpec(old(store.accounts), id, body, c);
            response == h.response && store.accounts == h.accounts
  {
    var found := store.FindById(id);
    if !found.Found? {
      return AccountMissing;
    }
    var admin := found.record;
    var takenBy := if Truthy(body.email)
                   then FindByEmailIn(store.accounts, NormaliseEmail(body.email.value), Some(admin.id))
                   else Missing;
    match ProfileEdit(admin, body, takenBy, c.compare)
    case Stop(refusal) =>
      response := refusal;
    case Pass((edited, passwordModified)) =>
      response := SaveAnswer(store, edited, passwordModified, c, ProfileUpdated, true, PlainServerError);
  }

  // ---------------------------------------------------------------------------------------
  // POST /change-password
  // ---------------------------------------------------------------------------------------

  datatype ChangePasswordBody = ChangePasswordBody(
    currentPassword: Option<string>,
    newPassword: Option<string>,
    confirmPassword: Option<string>)

  const MissingPasswordFields :=
    Response(400, "Please provide current password, new password, and confirm password")
  const PasswordsDiffer := Response(400, "New password and confirm password do not match")
  const PasswordChanged := Response(200, "Password changed successfully")

  /** The checks that precede the lookup. */
  function ChangePasswordPrecheck(body: ChangePasswordBody): (o: Outcome<string>)
    ensures o.Pass? <==>
      (Truthy(body.currentPassword) && Truthy(body.newPassword)
       && Truthy(body.confirmPassword) && body.newPassword == body.confirmPassword)
    ensures o.Pass? ==> o.value == body.newPassword.value
  {
    if !Truthy(body.currentPassword) || !Truthy(body.newPassword) || !Truthy(body.confirmPassword) then
      Stop(MissingPasswordFields)
    else if body.newPassword.value != body.confirmPassword.value then Stop(PasswordsDiffer)
    else Pass(body.newPassword.value)
  }

  function ChangePasswordSpec(accounts: seq<Account>, id: AdminId, body: ChangePasswordBody, c: Crypto)
    : Handled
  {
    match ChangePasswordPrecheck(body)
    case Stop(response) => Handled(response, None, accounts)
    case Pass(newPassword) =>
      match FindIn(accounts, id)
      case Found(admin) =>
        if !c.compare(body.currentPassword.value, admin.password) then
          Handled(CurrentPasswordIncorrect, None, accounts)
        else
          SaveAndAnswer(accounts, admin.(password := newPassword), newPassword != admin.password, c,
                        PasswordChanged, true, PlainServerError)
      case _ => Handled(AccountMissing, None, accounts)
  }

  /** The password is replaced, by the digest of the new one, only when all three fields are
      given, the new password is confirmed, the current one matches, and the new one passes
      validation; otherwise nothing is written. */
  lemma ChangePasswordGuarded(accounts: seq<Account>, id: AdminId, body: ChangePasswordBody, c: Crypto)
    ensures var h := ChangePasswordSpec(accounts, id, body, c);
      h.accounts != accounts ==>
        && ChangePasswordPrecheck(body).Pass?
        && FindIn(accounts, id).Found?
        && c.compare(body.currentPassword.value, FindIn(accounts, id).record.password)
        && h.response == PasswordChanged
        && h.accounts == Put(accounts, PreSave(Strict(FindIn(accounts, id).record.(password := body.newPassword.value)),
                                                body.newPassword.value != FindIn(accounts, id).record.password,
                                                c.hash, c.rounds))
  {
    var h := ChangePasswordSpec(accounts, id, body, c);
    if h.accounts != accounts {
      assert ChangePasswordPrecheck(body).Pass?;
      var admin := FindIn(accounts, id).record;
      var doc := admin.(password := body.newPassword.value);
      assert WellFormed(doc) && KeysFreeFor(accounts, doc);
    }
  }

  method ChangePassword(store: AdminStore, id: AdminId, body: ChangePasswordBody, c: Crypto)
    returns (response: Response)
    requires store.Valid()
    modifies store
    ensures store.Valid()
    ensures var h := ChangePasswordSpec(old(store.accounts), id, body, c);
            response == h.response && store.accounts == h.accounts
  {
    var pre := ChangePasswordPrecheck(body);
    if pre.Stop? {
      return pre.response;
    }
    var newPassword := pre.value;
    var found := store.FindById(id);
    if !found.Found? {
      return AccountMissing;
    }
    var admin := found.record;
    if !c.compare(body.currentPassword.value, admin.password) {
      return CurrentPasswordIncorrect;
    }
    var modified := newPassword != admin.password;
    response := SaveAnswer(store, admin.(password := newPassword), modified, c, PasswordChanged, true,
                           PlainServerError);
  }

  // ---------------------------------------------------------------------------------------
  // POST /logout
  // ---------------------------------------------------------------------------------------

  const LoggedOut := Response(200, "Logged out successfully")

  /** The logout route: the account, if there is one, is stamped with `lastLogout` and
      saved; the answer is a success unless the save fails. */
  function LogoutSpec(accounts: seq<Account>, id: AdminId, now: int, c: Crypto): (h: Handled)
    ensures h.response == LoggedOut || h.response == ServerError(PlainServerError)
    ensures h.response == LoggedOut <==>
      FindIn(accounts, id).Missing?
      || (var s := FindIn(accounts, id).record.(lastLogout := Some(now));
          WellFormed(s) && KeysFreeFor(accounts, s))
    ensures h.token.None?
  {
    match FindIn(accounts, id)
    case Found(admin) =>
      SaveAndAnswer(accounts, admin.(lastLogout := Some(now)), false, c, LoggedOut, false, PlainServerError)
    case _ => Handled(LoggedOut, None, accounts)
  }

  /** Logout answers success for a missing account too, and otherwise writes back the account
      without the undeclared `lastLogout`: over a collection whose accounts show only declared
      fields it writes nothing at all. */
  lemma LogoutPersistsNothing(accounts: seq<Account>, id: AdminId, now: int, c: Crypto)
    ensures FindIn(accounts, id).Missing? ==> LogoutSpec(accounts, id, now, c) == Handled(LoggedOut, None, accounts)
    ensures LogoutSpec(accounts, id, now, c).accounts != accounts ==>
      LogoutSpec(accounts, id, now, c).accounts == Put(accounts, Strict(FindIn(accounts, id).record))
    ensures AllDeclared(accounts) ==> LogoutSpec(accounts, id, now, c).accounts == accounts
  {
    if FindIn(accounts, id).Found? {
      var admin := FindIn(accounts, id).record;
      assert Strict(admin.(lastLogout := Some(now))) == Strict(admin);
      if AllDeclared(accounts) {
        var i :| 0 <= i < |accounts| && accounts[i] == admin;
        assert Declared(accounts[i]);
        PutStored(accounts, admin);
      }
    }
  }

  method Logout(store: AdminStore, id: AdminId, now: int, c: Crypto) returns (response: Response)
    requires store.Valid()
    modifies store
    ensures store.Valid()
    ensures var h := LogoutSpec(old(store.accounts), id, now, c);
            response == h.response && store.accounts == h.accounts
  {
    var found := store.FindById(id);
    if found.Found? {
      var admin := found.record;
      response := SaveAnswer(store, admin.(lastLogout := Some(now)), false, c, LoggedOut, false, PlainServerError);
    } else {
      response := LoggedOut;
    }
  }
}
