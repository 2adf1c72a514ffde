/** The bearer-token middleware of the API: the `Authorization` header must carry a
    `Bearer` credential (section 2.1 of RFC 6750), the token must verify as a JSON Web Token
    (RFC 7519), and the account it names must still exist and be active.

    `jwt.verify` is the parameter `verify`; nothing is proved about signatures. `lookup` is
    `Admin.findById`. */
module AuthMiddleware {
  import opened Wrappers
  import opened Strings
  import opened Http
  import opened AdminModel

  /** The `admin` claim the login route signs: `{ id, email, role }`. */
  datatype Claims = Claims(id: AdminId, email: string, role: string)

  /** What `jwt.verify` does with a token: returns the payload (whose `admin` claim may be
      absent), or throws an error with `name` `JsonWebTokenError` (malformed token, bad
      signature), `TokenExpiredError`, or `NotBeforeError`. */
  datatype Verification =
    | Verified(admin: Option<Claims>)
    | Malformed
    | TokenExpired
    | NotYetValid

  const BearerPrefix := "Bearer "

  const NoToken := Response(401, "No token, authorization denied")
  const AccountNotFound := Response(401, "Token is not valid - admin not found")
  const AccountDeactivated := Response(401, "Account is deactivated")
  const InvalidToken := Response(401, "Token is not valid")
  const ExpiredToken := Response(401, "Token has expired")
  const AuthServerError := Response(500, "Server error in authentication")

  /** `token.split(' ')[1]`; a header with the `Bearer ` prefix always has a second field. */
  function ExtractToken(header: string): (t: string)
    requires StartsWith(header, BearerPrefix)
    ensures ' ' !in t
  {
    var fields := Split(header, ' ');
    SplitHasSecondField(header);
    SplitPiecesExcludeSeparator(header, ' ');
    assert fields[1] in fields;
    fields[1]
  }

  lemma SplitHasSecondField(header: string)
    requires StartsWith(header, BearerPrefix)
    ensures |Split(header, ' ')| >= 2
  {
    assert header == "Bearer" + [' '] + header[7..];
    SplitAfterWord("Bearer", header[7..]);
  }

  /** Splitting `w + " " + rest` on spaces, for a word `w` without a space, gives `w` followed
      by the pieces of `rest`. */
  lemma {:induction false} SplitAfterWord(w: string, rest: string)
    requires ' ' !in w
    ensures Split(w + [' '] + rest, ' ') == [w] + Split(rest, ' ')
    decreases |w|
  {
    if |w| == 0 {
      assert [' '] + rest == w + [' '] + rest;
      assert ([' '] + rest)[1..] == rest;
    } else {
      var s := w + [' '] + rest;
      assert s[1..] == w[1..] + [' '] + rest;
      assert ' ' !in w[1..] by {
        forall c | c in w[1..] ensures c in w { }
      }
      SplitAfterWord(w[1..], rest);
      assert [w[0]] + w[1..] == w;
    }
  }

  /** The token of a well-formed `Bearer <token>` header is `<token>` itself. */
  lemma BearerTokenRoundTrip(token: string)
    requires ' ' !in token
    ensures StartsWith(BearerPrefix + token, BearerPrefix)
    ensures ExtractToken(BearerPrefix + token) == token
  {
    var h := BearerPrefix + token;
    assert h[..7] == BearerPrefix;
    assert h == "Bearer" + [' '] + token;
    SplitAfterWord("Bearer", token);
    SplitJoin([token], ' ');
    assert Join([token], [' ']) == token;
  }

  /** The middleware: `Pass(claims)` is `req.admin = decoded.admin; next()`. */
  function Authenticate(header: Option<string>, verify: string -> Verification,
                        lookup: AdminId -> Fetch<Account>): (o: Outcome<Claims>)
    ensures o.Pass? <==>
      (&& header.Some? && StartsWith(header.value, BearerPrefix)
       && verify(ExtractToken(header.value)).Verified?
       && verify(ExtractToken(header.value)).admin.Some?
       && var c := verify(ExtractToken(header.value)).admin.value;
          lookup(c.id).Found? && lookup(c.id).record.isActive)
    ensures o.Pass? ==> o.value == verify(ExtractToken(header.value)).admin.value
    ensures o.Stop? ==> o.response in {NoToken, AccountNotFound, AccountDeactivated,
                                       InvalidToken, ExpiredToken, AuthServerError}
    ensures o == Stop(AuthServerError) <==>
      (&& header.Some? && StartsWith(header.value, BearerPrefix)
       && var v := verify(ExtractToken(header.value));
          || v.NotYetValid?
          || v == Verified(None)
          || (v.Verified? && v.admin.Some? && lookup(v.admin.value.id).Failed?))
  {
    if header.None? || header.value == "" || !StartsWith(header.value, BearerPrefix) then
      Stop(NoToken)
    else
      match verify(ExtractToken(header.value))
      case Malformed => Stop(InvalidToken)
      case TokenExpired => Stop(ExpiredToken)
      case NotYetValid => Stop(AuthServerError)
      case Verified(None) => Stop(AuthServerError)
      case Verified(Some(claims)) =>
        match lookup(claims.id)
        case Failed => Stop(AuthServerError)
        case Missing => Stop(AccountNotFound)
        case Found(admin) =>
          if !admin.isActive then Stop(AccountDeactivated) else Pass(claims)
  }

  /** A missing header, or one without the `Bearer ` prefix, is refused with a 401 before any
      verification or lookup: the answer does not depend on either. */
  lemma HeaderCheckedFirst(header: Option<string>, v1: string -> Verification,
                           v2: string -> Verification,
                           l1: AdminId -> Fetch<Account>, l2: AdminId -> Fetch<Account>)
    requires header.None? || !StartsWith(header.value, BearerPrefix)
    ensures Authenticate(header, v1, l1) == Authenticate(header, v2, l2) == Stop(NoToken)
  {
  }

  /** A token that fails verification is answered without a lookup, and the two JWT error
      kinds get their two distinct 401 messages. */
  lemma VerificationBeforeLookup(header: string, verify: string -> Verification,
                                 l1: AdminId -> Fetch<Account>, l2: AdminId -> Fetch<Account>)
    requires StartsWith(header, BearerPrefix)
    requires !verify(ExtractToken(header)).Verified?
    ensures Authenticate(Some(header), verify, l1) == Authenticate(Some(header), verify, l2)
    ensures verify(ExtractToken(header)).Malformed? ==>
      Authenticate(Some(header), verify, l1) == Stop(InvalidToken)
    ensures verify(ExtractToken(header)).TokenExpired? ==>
      Authenticate(Some(header), verify, l1) == Stop(ExpiredToken)
    ensures verify(ExtractToken(header)).NotYetValid? ==>
      Authenticate(Some(header), verify, l1) == Stop(AuthServerError)
  {
  }

  /** A verified token for an account that is gone, or deactivated, is refused with a 401. */
  lemma AccountCheckedAfterVerification(token: string, claims: Claims,
                                        verify: string -> Verification,
                                        lookup: AdminId -> Fetch<Account>)
    requires ' ' !in token && verify(token) == Verified(Some(claims))
    ensures lookup(claims.id).Missing? ==>
      Authenticate(Some(BearerPrefix + token), verify, lookup) == Stop(AccountNotFound)
    ensures lookup(claims.id).Found? && !lookup(claims.id).record.isActive ==>
      Authenticate(Some(BearerPrefix + token), verify, lookup) == Stop(AccountDeactivated)
    ensures lookup(claims.id).Found? && lookup(claims.id).record.isActive ==>
      Authenticate(Some(BearerPrefix + token), verify, lookup) == Pass(claims)
    ensures lookup(claims.id).Failed? ==>
      Authenticate(Some(BearerPrefix + token), verify, lookup) == Stop(AuthServerError)
  {
    BearerTokenRoundTrip(token);
  }

  /** A payload without the `admin` claim makes `decoded.admin.id` throw, which the catch
      answers with the 500, before any lookup. */
  lemma AdminlessPayloadIsServerError(token: string, verify: string -> Verification,
                                      lookup: AdminId -> Fetch<Account>)
    requires ' ' !in token && verify(token) == Verified(None)
    ensures Authenticate(Some(BearerPrefix + token), verify, lookup) == Stop(AuthServerError)
  {
    BearerTokenRoundTrip(token);
  }
}
