/** The `Admin` model: the account record, its schema constraints, the account-lockout state
    machine (`isLocked`, `incLoginAttempts`, `resetLoginAttempts`), the password-hashing pre-save
    hook, and the collection that holds the accounts.

    Time is an integer number of milliseconds passed in as `now`. bcrypt is the parameter
    `hash` (plaintext and cost to digest); nothing is assumed about it. */
module AdminModel {
  import opened Wrappers
  import opened Strings
  import opened Lists

  type AdminId = nat

  const RoleAdmin := "admin"
  const RoleSuperAdmin := "super_admin"

  /** Failed attempts that lock the account, and how long the lock lasts (two hours). */
  const MaxLoginAttempts := 5
  const LockTime := 2 * 60 * 60 * 1000

  /** The bcrypt cost used when `BCRYPT_SALT_ROUNDS` does not parse to a non-zero number. */
  const DefaultSaltRounds := 12

  const MinUsernameLength := 3
  const MaxUsernameLength := 30
  const MinPasswordLength := 8

  /** One administrator account document. `username`, `email` and `password` are "" when
      absent. `name`, `permissions`, `createdBy` and `lastLogout` are written by the routes
      although the schema does not declare them; `None` is an absent field. The schema is
      strict, so `save()` drops them (see `Strict`) and a stored account never has them. */
  datatype Account = Account(
    id: AdminId,
    username: string,
    email: string,
    password: string,
    role: string,
    isActive: bool,
    lastLogin: Option<int>,
    loginAttempts: nat,
    lockUntil: Option<int>,
    name: Option<string>,
    permissions: Option<seq<string>>,
    createdBy: Option<AdminId>,
    lastLogout: Option<int>)

  // ---------------------------------------------------------------------------------------
  // Setters and schema constraints
  // ---------------------------------------------------------------------------------------

  /** The `trim` and `lowercase` setters of `email`, applied on every assignment. */
  function NormaliseEmail(e: string): (r: string)
    ensures |r| <= |e|
    ensures forall i :: 0 <= i < |r| ==> !('A' <= r[i] <= 'Z')
    ensures |r| == |Trim(e)| && forall i :: 0 <= i < |r| ==> r[i] == ToLowerChar(Trim(e)[i])
  {
    ToLower(Trim(e))
  }

  /** `\w` of a JavaScript regular expression without the `u` flag. */
  predicate IsWordChar(c: char) {
    'a' <= c <= 'z' || 'A' <= c <= 'Z' || '0' <= c <= '9' || c == '_'
  }

  /** The language of `\w+([.-]?\w+)*`: word characters with single `.` or `-` between them. */
  predicate SeparatedWords(s: string) {
    && |s| > 0
    && IsWordChar(s[0])
    && IsWordChar(s[|s| - 1])
    && (forall i :: 0 <= i < |s| ==> IsWordChar(s[i]) || s[i] == '.' || s[i] == '-')
    && (forall i :: 0 <= i < |s| - 1 ==> IsWordChar(s[i]) || IsWordChar(s[i + 1]))
  }

  /** `d` is `\w+([.-]?\w+)*` followed by a last group `\.\w{n}`. Earlier `\.\w{2,3}` groups of
      `(\.\w{2,3})+` are themselves separated words, so only the last group is constrained. */
  predicate EndsInTopLevel(d: string, n: nat) {
    && |d| >= n + 2
    && d[|d| - n - 1] == '.'
    && SeparatedWords(d[..|d| - n - 1])
    && (forall i :: |d| - n <= i < |d| ==> IsWordChar(d[i]))
  }

  /** The schema's email pattern `^\w+([.-]?\w+)*@\w+([.-]?\w+)*(\.\w{2,3})+$`. */
  predicate EmailPattern(e: string) {
    exists k :: 0 <= k < |e| && e[k] == '@' && SeparatedWords(e[..k])
      && (EndsInTopLevel(e[k + 1..], 2) || EndsInTopLevel(e[k + 1..], 3))
  }

  function UsernameError(u: string): Option<string> {
    if u == "" then Some("Username is required")
    else if |u| < MinUsernameLength then Some("Username must be at least 3 characters long")
    else if |u| > MaxUsernameLength then Some("Username cannot exceed 30 characters")
    else None
  }

  function EmailError(e: string): Option<string> {
    if e == "" then Some("Email is required")
    else if !EmailPattern(e) then Some("Please enter a valid email")
    else None
  }

  function PasswordError(p: string): Option<string> {
    if p == "" then Some("Password is required")
    else if |p| < MinPasswordLength then Some("Password must be at least 8 characters long")
    else None
  }

  function RoleError(role: string): Option<string> {
    if role == RoleAdmin || role == RoleSuperAdmin then None
    else Some("`" + role + "` is not a valid enum value for path `role`.")
  }

  function Present(o: Option<string>): seq<string> {
    if o.Some? then [o.value] else []
  }

  /** The constraints every stored account meets, stated directly. */
  predicate WellFormed(a: Account) {
    && MinUsernameLength <= |a.username| <= MaxUsernameLength
    && EmailPattern(a.email)
    && |a.password| >= MinPasswordLength
    && a.role in {RoleAdmin, RoleSuperAdmin}
  }

  /** The messages of the `ValidationError` that `save()` raises, path by path in schema order;
      each path reports only its first failing validator. */
  function ValidationMessages(a: Account): (msgs: seq<string>)
    ensures msgs == [] <==> WellFormed(a)
    ensures |msgs| <= 4
  {
    Present(UsernameError(a.username)) + Present(EmailError(a.email))
      + Present(PasswordError(a.password)) + Present(RoleError(a.role))
  }

  /** `parseInt(process.env.BCRYPT_SALT_ROUNDS) || 12`; `parsed` is `None` for `NaN`. */
  function SaltRounds(parsed: Option<int>): (n: int)
    ensures n != 0
    ensures parsed.Some? && parsed.value != 0 ==> n == parsed.value
    ensures parsed.None? || parsed.value == 0 ==> n == DefaultSaltRounds
  {
    if parsed.Some? && parsed.value != 0 then parsed.value else DefaultSaltRounds
  }

  /** The document as a strict schema persists it: the undeclared fields are dropped. */
  function Strict(a: Account): (r: Account)
    ensures Declared(r)
    ensures r.id == a.id && r.username == a.username && r.email == a.email && r.password == a.password
    ensures r.role == a.role && r.isActive == a.isActive && r.lastLogin == a.lastLogin
    ensures r.loginAttempts == a.loginAttempts && r.lockUntil == a.lockUntil
    ensures Declared(a) ==> r == a
  {
    a.(name := None, permissions := None, createdBy := None, lastLogout := None)
  }

  /** The account has none of the fields the schema does not declare. */
  predicate Declared(a: Account) {
    a.name.None? && a.permissions.None? && a.createdBy.None? && a.lastLogout.None?
  }

  /** The pre-save hook: the password is replaced by its digest only when it was modified. */
  function PreSave(a: Account, passwordModified: bool, hash: (string, int) -> string, rounds: int)
    : (r: Account)
    ensures passwordModified ==> r == a.(password := hash(a.password, rounds))
    ensures !passwordModified ==> r == a
  {
    if passwordModified then a.(password := hash(a.password, rounds)) else a
  }

  /** Saving a stored record again, with the password unmodified, leaves the digest as it is:
      a password is hashed once however often the account is saved afterwards. */
  lemma DigestNeverRehashed(a: Account, hash: (string, int) -> string, rounds: int, saves: nat)
    ensures SaveRepeatedly(PreSave(a, true, hash, rounds), saves, hash, rounds).password
      == hash(a.password, rounds)
    decreases saves
  {
    if saves > 0 {
      DigestNeverRehashed(a, hash, rounds, saves - 1);
    }
  }

  function SaveRepeatedly(a: Account, saves: nat, hash: (string, int) -> string, rounds: int)
    : Account
    decreases saves
  {
    if saves == 0 then a else PreSave(SaveRepeatedly(a, saves - 1, hash, rounds), false, hash, rounds)
  }

  // ---------------------------------------------------------------------------------------
  // Account lockout
  // ---------------------------------------------------------------------------------------

  /** The virtual `isLocked`. */
  predicate IsLocked(a: Account, now: int) {
    a.lockUntil.Some? && a.lockUntil.value > now
  }

  /** A lock that was set and has run out strictly before `now`. */
  predicate LockExpired(a: Account, now: int) {
    a.lockUntil.Some? && a.lockUntil.value < now
  }

  /** The record as the `updateOne` of `incLoginAttempts` leaves it after one failure at `now`. */
  function AfterFailedAttempt(a: Account, now: int): (r: Account)
    ensures r == a.(loginAttempts := r.loginAttempts, lockUntil := r.lockUntil)
    ensures LockExpired(a, now) ==> r.loginAttempts == 1 && r.lockUntil.None?
    ensures !LockExpired(a, now) ==> r.loginAttempts == a.loginAttempts + 1
    ensures !LockExpired(a, now) ==>
      (r.lockUntil != a.lockUntil <==> a.loginAttempts + 1 >= MaxLoginAttempts && !IsLocked(a, now))
    ensures r.lockUntil != a.lockUntil && r.lockUntil.Some? ==> r.lockUntil == Some(now + LockTime)
  {
    if LockExpired(a, now) then
      a.(lockUntil := None, loginAttempts := 1)
    else if a.loginAttempts + 1 >= MaxLoginAttempts && !IsLocked(a, now) then
      a.(loginAttempts := a.loginAttempts + 1, lockUntil := Some(now + LockTime))
    else
      a.(loginAttempts := a.loginAttempts + 1)
  }

  /** The record as the `updateOne` of `resetLoginAttempts` leaves it: both fields unset, and
      `loginAttempts` reads back as its schema default 0. */
  function AfterReset(a: Account): (r: Account)
    ensures r == a.(loginAttempts := 0, lockUntil := None)
  {
    a.(loginAttempts := 0, lockUntil := None)
  }

  /** Failures at the instants `times`, in order. */
  function AfterFailures(a: Account, times: seq<int>): Account
    decreases |times|
  {
    if |times| == 0 then a
    else AfterFailedAttempt(AfterFailures(a, times[..|times| - 1]), times[|times| - 1])
  }

  /** While the account is locked, a failure still counts but leaves the lock where it is. */
  lemma LockedFailureKeepsLock(a: Account, now: int)
    requires IsLocked(a, now)
    ensures AfterFailedAttempt(a, now).lockUntil == a.lockUntil
    ensures AfterFailedAttempt(a, now).loginAttempts == a.loginAttempts + 1
    ensures IsLocked(AfterFailedAttempt(a, now), now)
  {
  }

  /** At `lockUntil == now` the account is neither locked nor expired, so a failure takes the
      counting path and, from four earlier failures on, locks again for two hours. */
  lemma BoundaryRelocks(a: Account, now: int)
    requires a.lockUntil == Some(now) && a.loginAttempts + 1 >= MaxLoginAttempts
    ensures !IsLocked(a, now) && !LockExpired(a, now)
    ensures AfterFailedAttempt(a, now).lockUntil == Some(now + LockTime)
    ensures AfterFailedAttempt(a, now).loginAttempts == a.loginAttempts + 1
  {
  }

  /** Fewer than five failures on an account without a lock only count. */
  lemma {:induction false} FailuresBelowThreshold(a: Account, times: seq<int>)
    requires a.lockUntil.None? && a.loginAttempts + |times| < MaxLoginAttempts
    ensures AfterFailures(a, times) == a.(loginAttempts := a.loginAttempts + |times|)
    decreases |times|
  {
    if |times| > 0 {
      FailuresBelowThreshold(a, times[..|times| - 1]);
    }
  }

  /** Five failures on a clean account lock it for two hours from the fifth one. */
  lemma FiveFailuresLock(a: Account, times: seq<int>)
    requires a.lockUntil.None? && a.loginAttempts == 0 && |times| == MaxLoginAttempts
    ensures AfterFailures(a, times).loginAttempts == MaxLoginAttempts
    ensures AfterFailures(a, times).lockUntil == Some(times[4] + LockTime)
    ensures forall t :: t < times[4] + LockTime ==> IsLocked(AfterFailures(a, times), t)
  {
    FailuresBelowThreshold(a, times[..4]);
  }

  /** After a reset no instant finds the account locked, and the next failure counts from 1. */
  lemma ResetUnlocks(a: Account, now: int)
    ensures !IsLocked(AfterReset(a), now)
    ensures AfterFailedAttempt(AfterReset(a), now).loginAttempts == 1
    ensures AfterFailedAttempt(AfterReset(a), now).lockUntil.None?
  {
  }

  // ---------------------------------------------------------------------------------------
  // The accounts collection
  // ---------------------------------------------------------------------------------------

  /** `findById(id)` over a snapshot of the collection: the first account with that id. */
  function FindIn(accounts: seq<Account>, id: AdminId): (r: Fetch<Account>)
    ensures !r.Failed?
    ensures r.Found? <==> exists i :: 0 <= i < |accounts| && accounts[i].id == id
    ensures r.Found? ==> r.record in accounts && r.record.id == id
  {
    match FirstIndex(accounts, (a: Account) => a.id == id)
    case Some(i) => Found(accounts[i])
    case None => Missing
  }

  /** `findOne({ email })`, and with `other` the query `{ email, _id: { $ne: other } }`. */
  function FindByEmailIn(accounts: seq<Account>, email: string, other: Option<AdminId>)
    : (r: Fetch<Account>)
    ensures !r.Failed?
    ensures r.Found? <==> (exists i :: 0 <= i < |accounts| && accounts[i].email == email
                                         && (other.None? || accounts[i].id != other.value))
    ensures r.Found? ==> (r.record in accounts && r.record.email == email
                          && (other.None? || r.record.id != other.value))
  {
    match FirstIndex(accounts, (a: Account) => a.email == email && (other.None? || a.id != other.value))
    case Some(i) => Found(accounts[i])
    case None => Missing
  }

  /** The lookup the unique index on `username` performs when a document is written. */
  function FindByUsernameIn(accounts: seq<Account>, username: string, other: AdminId)
    : (r: Fetch<Account>)
    ensures !r.Failed?
    ensures r.Found? <==> (exists i :: 0 <= i < |accounts| && accounts[i].username == username
                                         && accounts[i].id != other)
  {
    match FirstIndex(accounts, (a: Account) => a.username == username && a.id != other)
    case Some(i) => Found(accounts[i])
    case None => Missing
  }

  lemma FindInCons(b: Account, s: seq<Account>, id: AdminId)
    ensures FindIn([b] + s, id) == if b.id == id then Found(b) else FindIn(s, id)
  {
    assert ([b] + s)[1..] == s;
  }

  /** Writes `a` under its id: the record with that id is replaced, or `a` is added. */
  function Put(accounts: seq<Account>, a: Account): (r: seq<Account>)
    ensures FindIn(r, a.id) == Found(a)
    ensures forall id :: id != a.id ==> FindIn(r, id) == FindIn(accounts, id)
    decreases |accounts|
  {
    if |accounts| == 0 then
      FindInCons(a, [], a.id);
      assert forall id :: id != a.id ==> FindIn([a], id) == FindIn([], id) by {
        forall id | id != a.id ensures FindIn([a], id) == Missing {
          FindInCons(a, [], id);
        }
      }
      [a]
    else if accounts[0].id == a.id then
      var r := [a] + accounts[1..];
      FindInCons(a, accounts[1..], a.id);
      forall id | id != a.id ensures FindIn(r, id) == FindIn(accounts, id) {
        FindInCons(a, accounts[1..], id);
        FindInCons(accounts[0], accounts[1..], id);
        assert [accounts[0]] + accounts[1..] == accounts;
      }
      r
    else
      var rest := Put(accounts[1..], a);
      var r := [accounts[0]] + rest;
      FindInCons(accounts[0], rest, a.id);
      forall id | id != a.id ensures FindIn(r, id) == FindIn(accounts, id) {
        FindInCons(accounts[0], rest, id);
        FindInCons(accounts[0], accounts[1..], id);
        assert [accounts[0]] + accounts[1..] == accounts;
      }
      r
  }

  /** The unique indexes on `_id`, `username` and `email`. */
  predicate UniqueKeys(accounts: seq<Account>) {
    forall i, j :: 0 <= i < j < |accounts| ==> DistinctKeys(accounts[i], accounts[j])
  }

  predicate DistinctKeys(a: Account, b: Account) {
    a.id != b.id && a.username != b.username && a.email != b.email
  }

  lemma {:induction false} PutMembers(accounts: seq<Account>, a: Account)
    ensures forall b :: b in Put(accounts, a) ==> b == a || b in accounts
    decreases |accounts|
  {
    if |accounts| > 0 && accounts[0].id != a.id {
      PutMembers(accounts[1..], a);
    }
  }

  /** No account other than the one with the id of `a` holds the username or the email of `a`. */
  predicate KeysFreeFor(accounts: seq<Account>, a: Account) {
    forall j :: 0 <= j < |accounts| && accounts[j].id != a.id ==>
      accounts[j].username != a.username && accounts[j].email != a.email
  }

  lemma UniqueKeysTail(accounts: seq<Account>)
    requires |accounts| > 0 && UniqueKeys(accounts)
    ensures UniqueKeys(accounts[1..])
  {
    var t := accounts[1..];
    forall i, j | 0 <= i < j < |t| ensures DistinctKeys(t[i], t[j]) {
      assert t[i] == accounts[i + 1] && t[j] == accounts[j + 1];
    }
  }

  lemma UniqueKeysCons(b: Account, t: seq<Account>)
    requires UniqueKeys(t)
    requires forall j :: 0 <= j < |t| ==> DistinctKeys(b, t[j])
    ensures UniqueKeys([b] + t)
  {
    var r := [b] + t;
    forall i, j | 0 <= i < j < |r| ensures DistinctKeys(r[i], r[j]) {
      assert r[j] == t[j - 1];
      if i > 0 {
        assert r[i] == t[i - 1];
      }
    }
  }

  /** Writing a record whose username and email no other account holds keeps the indexes
      unique. */
  lemma {:induction false} PutKeepsKeysUnique(accounts: seq<Account>, a: Account)
    requires UniqueKeys(accounts) && KeysFreeFor(accounts, a)
    ensures UniqueKeys(Put(accounts, a))
    decreases |accounts|
  {
    if |accounts| > 0 {
      var t := accounts[1..];
      UniqueKeysTail(accounts);
      if accounts[0].id == a.id {
        forall j | 0 <= j < |t| ensures DistinctKeys(a, t[j]) {
          assert t[j] == accounts[j + 1];
        }
        UniqueKeysCons(a, t);
      } else {
        assert KeysFreeFor(t, a) by {
          forall j | 0 <= j < |t| && t[j].id != a.id
            ensures t[j].username != a.username && t[j].email != a.email
          {
            assert t[j] == accounts[j + 1];
          }
        }
        PutKeepsKeysUnique(t, a);
        var rest := Put(t, a);
        PutMembers(t, a);
        forall j | 0 <= j < |rest| ensures DistinctKeys(accounts[0], rest[j]) {
          assert rest[j] in rest;
          if rest[j] != a {
            var k :| 0 <= k < |t| && t[k] == rest[j];
            assert accounts[k + 1] == rest[j];
          }
        }
        UniqueKeysCons(accounts[0], rest);
      }
    }
  }

  /** What `save()` reports. */
  datatype SaveResult = Saved(record: Account) | Invalid(messages: seq<string>) | DuplicateKey

  /** `save()` of the document `a`: validation first, then the pre-save hook, then the write,
      which the unique indexes refuse when another account holds the username or the email. */
  function SaveOutcome(accounts: seq<Account>, a: Account, passwordModified: bool,
                       hash: (string, int) -> string, rounds: int): (r: SaveResult)
    ensures r.Invalid? <==> !WellFormed(a)
    ensures r.Invalid? ==> r.messages == ValidationMessages(a) && r.messages != []
    ensures r.DuplicateKey? <==> WellFormed(a) && !KeysFreeFor(accounts, a)
    ensures r.Saved? ==> r.record == PreSave(Strict(a), passwordModified, hash, rounds)
    ensures r.Saved? ==> KeysFreeFor(accounts, r.record) && Declared(r.record)
  {
    var msgs := ValidationMessages(a);
    if msgs != [] then Invalid(msgs)
    else if Taken(accounts, a) then DuplicateKey
    else Saved(PreSave(Strict(a), passwordModified, hash, rounds))
  }

  /** The index lookups of a write: another account holds the username or the email. */
  function Taken(accounts: seq<Account>, a: Account): (b: bool)
    ensures b <==> !KeysFreeFor(accounts, a)
  {
    FindByUsernameIn(accounts, a.username, a.id).Found?
      || FindByEmailIn(accounts, a.email, Some(a.id)).Found?
  }

  /** Every account of the collection, read through the strict schema, shows only declared
      fields. */
  predicate AllDeclared(accounts: seq<Account>) {
    forall i :: 0 <= i < |accounts| ==> Declared(accounts[i])
  }

  lemma PutKeepsDeclared(accounts: seq<Account>, a: Account)
    requires AllDeclared(accounts) && Declared(a)
    ensures AllDeclared(Put(accounts, a))
  {
    PutMembers(accounts, a);
    var r := Put(accounts, a);
    forall i | 0 <= i < |r| ensures Declared(r[i]) {
      assert r[i] in r;
    }
  }

  /** Writing back the record that is stored under its id changes nothing. */
  lemma {:induction false} PutStored(accounts: seq<Account>, a: Account)
    requires FindIn(accounts, a.id) == Found(a)
    ensures Put(accounts, a) == accounts
    decreases |accounts|
  {
    FindInCons(accounts[0], accounts[1..], a.id);
    assert [accounts[0]] + accounts[1..] == accounts;
    if accounts[0].id != a.id {
      PutStored(accounts[1..], a);
    }
  }

  /** A record of a collection with unique keys, changed in neither key nor id, may be
      written back. */
  lemma StoredKeysFree(accounts: seq<Account>, i: nat, b: Account)
    requires UniqueKeys(accounts) && i < |accounts|
    requires b.id == accounts[i].id && b.username == accounts[i].username && b.email == accounts[i].email
    ensures KeysFreeFor(accounts, b)
  {
    forall j | 0 <= j < |accounts| && accounts[j].id != b.id
      ensures accounts[j].username != b.username && accounts[j].email != b.email
    {
      if j < i {
        assert DistinctKeys(accounts[j], accounts[i]);
      } else {
        assert DistinctKeys(accounts[i], accounts[j]);
      }
    }
  }

  /** The `admins` collection. */
  class AdminStore {
    var accounts: seq<Account>

    ghost predicate Valid()
      reads this
    {
      UniqueKeys(accounts) && AllDeclared(accounts)
    }

    constructor (initial: seq<Account>)
      requires UniqueKeys(initial) && AllDeclared(initial)
      ensures Valid() && accounts == initial
    {
      accounts := initial;
    }

    function FindById(id: AdminId): (r: Fetch<Account>)
      reads this
      ensures r == FindIn(accounts, id)
    {
      FindIn(accounts, id)
    }

    /** `admin.save()`. */
    method Save(a: Account, passwordModified: bool, hash: (string, int) -> string, rounds: int)
      returns (r: SaveResult)
      requires Valid()
      modifies this
      ensures Valid()
      ensures r == SaveOutcome(old(accounts), a, passwordModified, hash, rounds)
      ensures accounts == if r.Saved? then Put(old(accounts), r.record) else old(accounts)
    {
      var msgs := ValidationMessages(a);
      if msgs != [] {
        return Invalid(msgs);
      }
      if Taken(accounts, a) {
        return DuplicateKey;
      }
      var stored := PreSave(Strict(a), passwordModified, hash, rounds);
      PutKeepsKeysUnique(accounts, stored);
      PutKeepsDeclared(accounts, stored);
      accounts := Put(accounts, stored);
      r := Saved(stored);
    }

    /** `admin.incLoginAttempts()` for the account `id`, if it is still stored. */
    method IncLoginAttempts(id: AdminId, now: int)
      requires Valid()
      modifies this
      ensures Valid()
      ensures FindIn(old(accounts), id).Missing? ==> accounts == old(accounts)
      ensures FindIn(old(accounts), id).Found? ==>
        accounts == Put(old(accounts), AfterFailedAttempt(FindIn(old(accounts), id).record, now))
    {
      match FindIn(accounts, id)
      case Found(a) =>
        var b := AfterFailedAttempt(a, now);
        var i :| 0 <= i < |accounts| && accounts[i] == a;
        StoredKeysFree(accounts, i, b);
        PutKeepsKeysUnique(accounts, b);
        PutKeepsDeclared(accounts, b);
        accounts := Put(accounts, b);
      case _ =>
    }

    /** `admin.resetLoginAttempts()` for the account `id`, if it is still stored. */
    method ResetLoginAttempts(id: AdminId)
      requires Valid()
      modifies this
      ensures Valid()
      ensures FindIn(old(accounts), id).Missing? ==> accounts == old(accounts)
      ensures FindIn(old(accounts), id).Found? ==>
        accounts == Put(old(accounts), AfterReset(FindIn(old(accounts), id).record))
    {
      match FindIn(accounts, id)
      case Found(a) =>
        var b := AfterReset(a);
        var i :| 0 <= i < |accounts| && accounts[i] == a;
        StoredKeysFree(accounts, i, b);
        PutKeepsKeysUnique(accounts, b);
        PutKeepsDeclared(accounts, b);
        accounts := Put(accounts, b);
      case _ =>
    }
  }
}
