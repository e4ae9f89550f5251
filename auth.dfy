/** The token-based login routes (routes/auth.js): the Google callback,
    which exchanges the authorization code, resolves the user with a single
    `$or` lookup and redirects to the frontend with a token; `generateToken`;
    `/verify`; `/logout`. The code exchange and the id-token check are done
    by Google's client library and appear here only as their outcome; a
    signed token is a value holding its claims, its timestamps and the secret
    it was signed with. */
module AuthRoutes {
  import opened Common
  import opened JsString
  import opened Users

  /** The id-token payload fields the callback reads. */
  datatype Claims = Claims(sub: string, email: string, name: Option<string>, picture: Option<string>)

  /** The outcome of `client.getToken(code)` and `client.verifyIdToken(...)`. */
  datatype Exchange = ExchangeFailed | Verified(claims: Claims)

  /** The claims `generateToken` signs. */
  datatype TokenClaims = TokenClaims(id: Id, email: string, name: Option<string>)

  /** A signed token: its claims, `iat` and `exp` in seconds, and its key. */
  datatype Token = Token(claims: TokenClaims, issuedAt: int, expiresAt: int, secret: string)

  /** `expiresIn: '7d'`, in seconds. */
  const TokenLifetime: int := 7 * 24 * 60 * 60

  /** `process.env.JWT_SECRET` and `process.env.FRONTEND_URL`. */
  datatype Env = Env(jwtSecret: Option<string>, frontendUrl: Option<string>)

  function FrontendUrl(env: Env): (url: string)
    ensures Truthy(env.frontendUrl) ==> url == env.frontendUrl.value
    ensures !Truthy(env.frontendUrl) ==> url == "http://localhost:3000"
  {
    if Truthy(env.frontendUrl) then env.frontendUrl.value else "http://localhost:3000"
  }

  /** `generateToken(user)` signed at time `now`: exactly the claims
      `{id, email, name}` of the user, valid for seven days. */
  function GenerateToken(u: User, secret: string, now: int): (t: Token)
    ensures t.claims == TokenClaims(u.id, u.email, u.name)
    ensures t.issuedAt == now && t.expiresAt == now + TokenLifetime
    ensures t.secret == secret
  {
    Token(TokenClaims(u.id, u.email, u.name), now, now + TokenLifetime, secret)
  }

  /** What `/google/callback` answers. */
  datatype CallbackReply =
    | CodeMissing                                        // 400 {error: 'Authorization code missing'}
    | SuccessRedirect(url: string, token: Token, userId: Id)  // to <frontend>/auth/success?token=..&userId=..
    | ErrorRedirect(url: string)                         // to <frontend>/auth/error?message=Authentication failed

  function Status(r: CallbackReply): int
  {
    if r.CodeMissing? then 400 else 302
  }

  /** The record created for a Google account seen for the first time. */
  function NewUserFromClaims(id: Id, c: Claims): (u: User)
    ensures u.id == id && u.googleId == Some(c.sub) && u.email == c.email
    ensures u.name == c.name && u.avatar == c.picture && u.authMethod == "google"
    ensures u.role.None? && u.password.None?
  {
    User(id, Some(c.sub), c.name, c.email, c.picture, "google", None, None)
  }

  /** A matched record without a Google id, linked: only `googleId` and
      `avatar` change. */
  function LinkClaims(u: User, c: Claims): (r: User)
    ensures r.googleId == Some(c.sub) && r.avatar == c.picture
    ensures r.(googleId := u.googleId, avatar := u.avatar) == u
  {
    u.(googleId := Some(c.sub), avatar := c.picture)
  }

  /** The three ways the callback can resolve claims `c` to user `u`,
      taking the collection from `before` to `after`. */
  ghost predicate Resolution(before: map<Id, User>, after: map<Id, User>, c: Claims, u: User)
  {
    var q := ByGoogleIdOrEmail(c.sub, c.email);
    // found, and already linked to some Google account: left as it is
    || (u.id in before && Matches(before[u.id], q) && Truthy(before[u.id].googleId)
        && u == before[u.id] && after == before)
    // found without a Google id: linked
    || (u.id in before && Matches(before[u.id], q) && !Truthy(before[u.id].googleId)
        && u == LinkClaims(before[u.id], c) && after == before[u.id := u])
    // not found: exactly one record is created
    || (u.id !in before && !AnyMatch(before, q)
        && u == NewUserFromClaims(u.id, c) && after == before[u.id := u])
  }

  const ErrorPath: string := "/auth/error?message=Authentication failed"
  const SuccessPath: string := "/auth/success"

  /** The `/google/callback` handler. `resolved` is the user the handler
      resolved the claims to, if it got that far. */
  method GoogleCallback(store: UserStore, code: Option<string>, exchange: Exchange, env: Env,
                        lookupFails: bool, saveFails: bool, now: int)
      returns (reply: CallbackReply, ghost resolved: Option<User>)
    requires store.Valid()
    modifies store
    ensures store.Valid()
    // Without a code: 400, and no lookup, no write, no token.
    ensures !Truthy(code) <==> reply == CodeMissing
    ensures !Truthy(code) ==> store.log == old(store.log) && store.users == old(store.users)
    // A failed exchange redirects to the error page and touches nothing.
    ensures Truthy(code) && exchange.ExchangeFailed? ==>
              reply == ErrorRedirect(FrontendUrl(env) + ErrorPath) && store.log == old(store.log)
    // With verified claims, exactly one lookup, by Google id or email.
    ensures Truthy(code) && exchange.Verified? ==>
              |store.log| > |old(store.log)|
              && store.log[..|old(store.log)| + 1]
                 == old(store.log) + [Find(ByGoogleIdOrEmail(exchange.claims.sub, exchange.claims.email))]
              && forall i :: |old(store.log)| < i < |store.log| ==> store.log[i].Write?
    ensures resolved.None? ==> store.users == old(store.users)
    ensures resolved.Some? ==>
              && Truthy(code) && exchange.Verified?
              && Resolution(old(store.users), store.users, exchange.claims, resolved.value)
    // With verified claims and a working database, the claims are resolved.
    ensures Truthy(code) && exchange.Verified? && !lookupFails && !saveFails ==> resolved.Some?
    // A rejected lookup ends on the error page with nothing written.
    ensures Truthy(code) && exchange.Verified? && lookupFails ==>
              reply == ErrorRedirect(FrontendUrl(env) + ErrorPath)
              && resolved.None? && store.users == old(store.users)
    // A rejected save writes nothing; the only user that can still be
    // resolved is one already linked, taken as stored.
    ensures saveFails ==>
              store.users == old(store.users)
              && (resolved.Some? ==> resolved.value.id in old(store.users)
                                     && old(store.users)[resolved.value.id] == resolved.value)
    // Success: a token for the resolved user; every other outcome after the
    // code check is a redirect to the error page.
    ensures reply.SuccessRedirect? <==> resolved.Some? && Truthy(env.jwtSecret)
    ensures reply.SuccessRedirect? ==>
              && reply.url == FrontendUrl(env) + SuccessPath
              && reply.userId == resolved.value.id
              && reply.token == GenerateToken(resolved.value, env.jwtSecret.value, now)
    ensures reply.ErrorRedirect? ==> reply.url == FrontendUrl(env) + ErrorPath
  {
    resolved := None;
    if !Truthy(code) {
      return CodeMissing, None;
    }
    var failure := ErrorRedirect(FrontendUrl(env) + ErrorPath);
    if exchange.ExchangeFailed? {
      return failure, None;
    }
    var c := exchange.claims;
    var found := store.FindOne(ByGoogleIdOrEmail(c.sub, c.email), lookupFails);
    if found.LookupFailed? {
      return failure, None;
    }
    var u: User;
    if found.Missing? {
      var id := store.NewId();
      u := NewUserFromClaims(id, c);
      var saved := store.Save(u, saveFails);
      if !saved {
        return failure, None;
      }
    } else if !Truthy(found.user.googleId) {
      u := LinkClaims(found.user, c);
      var saved := store.Save(u, saveFails);
      if !saved {
        return failure, None;
      }
    } else {
      u := found.user;
    }
    resolved := Some(u);
    if !Truthy(env.jwtSecret) {
      // `jwt.sign` throws without a secret, after the record was written
      return failure, resolved;
    }
    reply := SuccessRedirect(FrontendUrl(env) + SuccessPath, GenerateToken(u, env.jwtSecret.value, now), u.id);
  }

  /** Two records holding the claims' Google id and email address
      separately: the `$or` lookup may return either. */
  ghost predicate SplitIdentity(users: map<Id, User>, c: Claims)
  {
    exists a, b :: a in users && b in users && a != b
      && users[a].googleId == Some(c.sub) && users[b].email == c.email
  }

  /** Unlike the strategy in config/passport.js, the callback keeps Google
      ids and email addresses unique only when the claims do not name two
      different records: otherwise it may link the email-matched record to a
      Google id another record already holds. */
  lemma ResolutionKeepsUnique(before: map<Id, User>, after: map<Id, User>, c: Claims, u: User)
    requires Resolution(before, after, c, u)
    requires UniqueIdentities(before) && !SplitIdentity(before, c)
    ensures UniqueIdentities(after)
  {
    var q := ByGoogleIdOrEmail(c.sub, c.email);
    if u.id in before && !Truthy(before[u.id].googleId) && after == before[u.id := u] {
      if before[u.id].googleId != Some(c.sub) {
        // The linked record matched by email; no other record holds the Google id.
        assert before[u.id].email == c.email;
      }
    } else if u.id !in before {
      forall k | k in before
        ensures before[k].googleId != Some(c.sub) && before[k].email != c.email
      {
        assert !Matches(before[k], q);
      }
    }
  }

  /** After the callback, the record it resolved the claims to is the only
      one the same `$or` lookup can find, and it holds a Google id. */
  lemma ResolvedIsOnlyMatch(before: map<Id, User>, after: map<Id, User>, c: Claims, u: User)
    requires Resolution(before, after, c, u) && c.sub != ""
    requires UniqueIdentities(before) && !SplitIdentity(before, c)
    ensures u.id in after && after[u.id] == u && Truthy(u.googleId)
    ensures forall k :: k in after && Matches(after[k], ByGoogleIdOrEmail(c.sub, c.email)) ==> k == u.id
  {
    var q := ByGoogleIdOrEmail(c.sub, c.email);
    forall k | k in after && k != u.id
      ensures !Matches(after[k], q)
    {
      assert k in before && after[k] == before[k];
      if u.id in before && before[u.id].googleId == Some(c.sub) {
        // u holds the Google id, so no other record does, nor the email
        assert before[k].googleId != Some(c.sub);
        assert before[k].email == c.email ==> SplitIdentity(before, c);
      } else if u.id in before {
        // u was found by its email, so no other record has it nor the Google id
        assert before[u.id].email == c.email;
        assert before[k].googleId == Some(c.sub) ==> SplitIdentity(before, c);
      }
    }
  }

  /** Two callbacks with the same verified claims and a working database:
      the second answers with the same user and writes nothing.
      `usersBetween` is the collection between the two. */
  method CallbackTwice(store: UserStore, code: string, c: Claims, env: Env, now: int, later: int)
      returns (first: CallbackReply, second: CallbackReply, ghost usersBetween: map<Id, User>)
    requires store.Valid() && code != "" && c.sub != "" && Truthy(env.jwtSecret)
    requires UniqueIdentities(store.users) && !SplitIdentity(store.users, c)
    modifies store
    ensures first.SuccessRedirect? && second.SuccessRedirect?
    ensures second.userId == first.userId
    ensures store.users == usersBetween
  {
    ghost var resolved: Option<User>;
    first, resolved := GoogleCallback(store, Some(code), Verified(c), env, false, false, now);
    usersBetween := store.users;
    ghost var before := old(store.users);
    ResolvedIsOnlyMatch(before, usersBetween, c, resolved.value);
    ghost var again: Option<User>;
    second, again := GoogleCallback(store, Some(code), Verified(c), env, false, false, later);
    assert again.value.id == resolved.value.id;
  }

  /** The result of `GET /verify`. */
  datatype VerifyReply =
    | NoToken          // 401 {error: 'No token provided'}
    | UserNotFound     // 404 {error: 'User not found'}
    | InvalidToken     // 401 {error: 'Invalid token'}
    | VerifiedUser(user: User, token: string)  // 200 {user, token}

  function VerifyStatus(r: VerifyReply): int
  {
    match r
    case NoToken => 401
    case UserNotFound => 404
    case InvalidToken => 401
    case VerifiedUser(_, _) => 200
  }

  /** `jwt.verify(token, secret)` at time `now` (seconds): it needs a secret,
      a well-formed token signed with that secret, and `now` before `exp`. */
  function JwtAccepts(decoded: Option<Token>, secret: Option<string>, now: int): (ok: bool)
    ensures ok ==> decoded.Some? && now < decoded.value.expiresAt
    ensures ok ==> secret.Some? && secret.value != "" && decoded.value.secret == secret.value
  {
    Truthy(secret) && decoded.Some? && decoded.value.secret == secret.value
    && now < decoded.value.expiresAt
  }

  /** `findById(id).select('-password')`. */
  function WithoutPassword(u: User): User
  {
    u.(password := None)
  }

  /** `GET /verify`. `header` is the Authorization header; `decoded` is what
      the text left after removing `Bearer ` decodes to (`None` when it is
      not a well-formed token). */
  function Verify(header: Option<string>, decoded: Option<Token>, secret: Option<string>, now: int,
                  users: map<Id, User>, lookupFails: bool): (r: VerifyReply)
    ensures r == NoToken <==> header.None? || ReplaceFirst(header.value, "Bearer ", "") == ""
    ensures r.VerifiedUser? <==>
              && header.Some? && ReplaceFirst(header.value, "Bearer ", "") != ""
              && JwtAccepts(decoded, secret, now) && !lookupFails
              && decoded.value.claims.id in users
    ensures r.VerifiedUser? ==> (
              && header.Some? && r.token == ReplaceFirst(header.value, "Bearer ", "")
              && JwtAccepts(decoded, secret, now) && !lookupFails
              && decoded.value.claims.id in users
              && r.user == WithoutPassword(users[decoded.value.claims.id])
              && r.user.password.None?)
    ensures r == UserNotFound <==>
              && header.Some? && ReplaceFirst(header.value, "Bearer ", "") != ""
              && JwtAccepts(decoded, secret, now) && !lookupFails
              && decoded.value.claims.id !in users
    ensures r == InvalidToken <==>
              && header.Some? && ReplaceFirst(header.value, "Bearer ", "") != ""
              && (!JwtAccepts(decoded, secret, now) || lookupFails)
  {
    if header.None? then NoToken
    else
      var token := ReplaceFirst(header.value, "Bearer ", "");
      if token == "" then NoToken
      else if !JwtAccepts(decoded, secret, now) || lookupFails then InvalidToken
      else if decoded.value.claims.id !in users then UserNotFound
      else VerifiedUser(WithoutPassword(users[decoded.value.claims.id]), token)
  }

  /** `Bearer <token>` yields `<token>`. */
  lemma StripBearer(token: string)
    ensures ReplaceFirst("Bearer " + token, "Bearer ", "") == token
  {
    var h := "Bearer " + token;
    assert OccursAt(h, "Bearer ", 0);
    assert IndexOf(h, "Bearer ") == Some(0);
  }

  /** A token issued for a stored user verifies, as that user, strictly
      before it expires, and is rejected from its expiry on. */
  lemma IssuedTokenVerifies(users: map<Id, User>, u: User, secret: string, issuedAt: int, now: int, text: string)
    requires u.id in users && secret != "" && text != ""
    ensures var r := Verify(Some("Bearer " + text), Some(GenerateToken(u, secret, issuedAt)), Some(secret), now, users, false);
            && (now < issuedAt + TokenLifetime ==> r == VerifiedUser(WithoutPassword(users[u.id]), text))
            && (now >= issuedAt + TokenLifetime ==> r == InvalidToken)
  {
    StripBearer(text);
  }

  /** `POST /logout`: always 200 with the message below; nothing is revoked. */
  datatype LogoutReply = LogoutReply(status: int, message: string)

  function Logout(): (r: LogoutReply)
    ensures r.status == 200 && r.message == "Logged out successfully"
  {
    LogoutReply(200, "Logged out successfully")
  }
}
