/**
 * The request guards of backend/src/middleware/auth.middleware.ts: take the
 * bearer token from the `Authorization` header, verify it, and (for
 * `authorizeDoctor`) re-read the caller's role from the user table.
 * Token verification is a foreign library and appears as a parameter.
 */
module AuthMiddleware {
  import opened Wrappers
  import opened Seqs
  import opened Text
  import opened Records
  import opened AuthService

  /** `jwt.verify(token, secret)`: the decoded claims, or the error it throws. */
  datatype VerifyResult = Verified(payload: TokenPayload) | VerifyFailed(message: string)

  /** Verification depends on the token and on the current time (expiry). */
  datatype TokenVerifier = TokenVerifier(verify: (string, Instant) -> VerifyResult)

  /** The JSON bodies the guards send: `{ error }` or `{ message }`. */
  datatype Body = ErrorBody(error: string) | MessageBody(message: string)

  datatype Response = Response(status: nat, body: Body)

  /**
   * What a guard decides: call `next` with `req.user` set, or send one
   * response, `req.user` having been set to `setUser` first when it was.
   */
  datatype Verdict = Proceed(user: TokenPayload) | Deny(setUser: Option<TokenPayload>, response: Response)

  const AccessDenied := Response(401, ErrorBody("Access denied"))
  const InvalidToken := Response(403, MessageBody("Invalid token"))
  const DoctorsOnly := Response(403, ErrorBody("Forbidden:Only doctors can perfom this action"))

  /**
   * `authorization?.split(" ")[1]`, kept only when it is a non-empty string:
   * the second space-separated piece of the header.
   */
  function BearerToken(header: Option<string>): (r: Option<string>)
    ensures header.None? ==> r.None?
    ensures r.Some? ==> r.value != "" && ' ' !in r.value
  {
    match header
    case None => None
    case Some(h) =>
      var pieces := Split(h, ' ');
      if |pieces| >= 2 && pieces[1] != "" then Some(pieces[1]) else None
  }

  /** "Bearer <token>", with anything after a further space, yields <token>. */
  lemma {:induction false} BearerTokenIsSecondPiece(scheme: string, token: string, rest: string)
    requires ' ' !in scheme && ' ' !in token && token != ""
    requires rest == "" || rest[0] == ' '
    ensures BearerToken(Some(scheme + " " + token + rest)) == Some(token)
  {
    var h := scheme + " " + token + rest;
    assert h == scheme + [' '] + (token + rest);
    SplitAfterPiece(scheme, token + rest, ' ');
    if rest == "" {
      assert token + rest == token;
      SplitWithoutSeparator(token, ' ');
    } else {
      assert token + rest == token + [' '] + rest[1..];
      SplitAfterPiece(token, rest[1..], ' ');
    }
  }

  /**
   * "Bearer " followed by nothing or by a further space carries no token: the
   * second piece is empty, hence falsy.
   */
  lemma {:induction false} EmptySecondPieceNoToken(scheme: string, rest: string)
    requires ' ' !in scheme
    requires rest == "" || rest[0] == ' '
    ensures BearerToken(Some(scheme + " " + rest)) == None
  {
    assert scheme + " " + rest == scheme + [' '] + rest;
    SplitAfterPiece(scheme, rest, ' ');
    if rest == "" {
      SplitWithoutSeparator(rest, ' ');
    } else {
      assert rest == [] + [' '] + rest[1..];
      SplitAfterPiece([], rest[1..], ' ');
    }
  }

  /** A header without a space carries no token. */
  lemma {:induction false} NoSpaceNoToken(h: string)
    requires ' ' !in h
    ensures BearerToken(Some(h)) == None
  {
    SplitWithoutSeparator(h, ' ');
  }

  /** `authenticateToken`: 401 without a token, 403 when it does not verify, else `next`. */
  function Authenticate(header: Option<string>, verifier: TokenVerifier, now: Instant): (v: Verdict)
    ensures BearerToken(header).None? ==> v == Deny(None, AccessDenied)
    ensures BearerToken(header).Some? ==>
      match verifier.verify(BearerToken(header).value, now)
      case Verified(p) => v == Proceed(p)
      case VerifyFailed(_) => v == Deny(None, InvalidToken)
  {
    match BearerToken(header)
    case None => Deny(None, AccessDenied)
    case Some(token) =>
      match verifier.verify(token, now)
      case VerifyFailed(_) => Deny(None, InvalidToken)
      case Verified(decoded) => Proceed(decoded)
  }

  /**
   * `authorizeDoctor`: 401 without a token, 401 carrying the error's message
   * when verification throws; otherwise `req.user` is set and the role
   * stored for the token's id, not the role claimed in the token, decides.
   */
  function AuthorizeDoctor(header: Option<string>, verifier: TokenVerifier, now: Instant, users: seq<User>)
    : (v: Verdict)
    ensures BearerToken(header).None? ==> v == Deny(None, AccessDenied)
    ensures v.Proceed? <==>
      && BearerToken(header).Some?
      && verifier.verify(BearerToken(header).value, now).Verified?
      && var stored := FindUserById(users, verifier.verify(BearerToken(header).value, now).payload.id);
         stored.Some? && stored.value.role == Doctor
    ensures v.Proceed? ==> v.user == verifier.verify(BearerToken(header).value, now).payload
    ensures v.Deny? && BearerToken(header).Some? ==>
      match verifier.verify(BearerToken(header).value, now)
      case VerifyFailed(m) => v == Deny(None, Response(401, MessageBody(m)))
      case Verified(p) => v == Deny(Some(p), DoctorsOnly)
  {
    match BearerToken(header)
    case None => Deny(None, AccessDenied)
    case Some(token) =>
      match verifier.verify(token, now)
      case VerifyFailed(message) => Deny(None, Response(401, MessageBody(message)))
      case Verified(decoded) =>
        var stored := FindUserById(users, decoded.id);
        if stored.Some? && stored.value.role == Doctor then Proceed(decoded)
        else Deny(Some(decoded), DoctorsOnly)
  }

  /**
   * The role claimed in the token plays no part: two tokens that decode to the
   * same id and email get the same verdict, whatever roles they claim.
   */
  lemma RoleClaimIgnored(header: Option<string>, v1: TokenVerifier, v2: TokenVerifier, now: Instant, users: seq<User>)
    requires BearerToken(header).Some?
    requires v1.verify(BearerToken(header).value, now).Verified?
    requires v2.verify(BearerToken(header).value, now).Verified?
    requires var p1 := v1.verify(BearerToken(header).value, now).payload;
             var p2 := v2.verify(BearerToken(header).value, now).payload;
             p1.id == p2.id && p1.email == p2.email
    ensures AuthorizeDoctor(header, v1, now, users).Proceed? == AuthorizeDoctor(header, v2, now, users).Proceed?
    ensures AuthorizeDoctor(header, v1, now, users).Deny? ==>
      AuthorizeDoctor(header, v1, now, users).response == AuthorizeDoctor(header, v2, now, users).response
  {
  }

  /**
   * A token issued while the user was a doctor is refused with 403 once the
   * stored role is ADMIN.
   */
  lemma StaleDoctorTokenRefused(header: Option<string>, verifier: TokenVerifier, now: Instant, users: seq<User>, u: User)
    requires BearerToken(header).Some?
    requires verifier.verify(BearerToken(header).value, now) == Verified(TokenPayload(u.email, u.id, Doctor))
    requires UniqueBy(users, UserId) && u in users && u.role == Admin
    ensures AuthorizeDoctor(header, verifier, now, users) == Deny(Some(TokenPayload(u.email, u.id, Doctor)), DoctorsOnly)
  {
    var found := FindUserById(users, u.id);
    var i :| 0 <= i < |users| && users[i] == u;
    var j :| 0 <= j < |users| && users[j] == found.value;
    UniqueKeyPosition(users, UserId, i, j);
  }

  /** The request/response pair a guard works on, with the effects it can have. */
  class Exchange {
    /** `req.user`. */
    var user: Option<TokenPayload>
    /** Every response sent, in order. */
    var responses: seq<Response>
    /** How many times `next` was called. */
    var nextCalls: nat

    constructor ()
      ensures user == None && responses == [] && nextCalls == 0
    {
      user := None;
      responses := [];
      nextCalls := 0;
    }

    /** Apply a verdict: assign `req.user`, then call `next` or send the response. */
    method Carry(v: Verdict)
      modifies this
      ensures v.Proceed? ==> user == Some(v.user) && nextCalls == old(nextCalls) + 1 && responses == old(responses)
      ensures v.Deny? ==> nextCalls == old(nextCalls) && responses == old(responses) + [v.response]
      ensures v.Deny? ==> user == (if v.setUser.Some? then v.setUser else old(user))
    {
      match v
      case Proceed(decoded) =>
        user := Some(decoded);
        nextCalls := nextCalls + 1;
      case Deny(setUser, response) =>
        if setUser.Some? {
          user := setUser;
        }
        responses := responses + [response];
    }

    /** The `authenticateToken` middleware: exactly one of `next` or a response. */
    method AuthenticateToken(header: Option<string>, verifier: TokenVerifier, now: Instant)
      modifies this
      ensures (nextCalls == old(nextCalls) + 1 && responses == old(responses))
           || (nextCalls == old(nextCalls) && |responses| == |old(responses)| + 1)
      ensures var v := Authenticate(header, verifier, now);
        && (v.Proceed? ==> user == Some(v.user) && nextCalls == old(nextCalls) + 1)
        && (v.Deny? ==> user == old(user) && responses == old(responses) + [v.response])
    {
      Carry(Authenticate(header, verifier, now));
    }

    /** The `authorizeDoctor` middleware: exactly one of `next` or a response. */
    method AuthorizeDoctorGuard(header: Option<string>, verifier: TokenVerifier, now: Instant, users: seq<User>)
      modifies this
      ensures (nextCalls == old(nextCalls) + 1 && responses == old(responses))
           || (nextCalls == old(nextCalls) && |responses| == |old(responses)| + 1)
      ensures var v := AuthorizeDoctor(header, verifier, now, users);
        && (v.Proceed? ==> user == Some(v.user) && nextCalls == old(nextCalls) + 1)
        && (v.Deny? ==> responses == old(responses) + [v.response])
        && (v.Deny? && v.setUser.Some? ==> user == v.setUser)
        && (v.Deny? && v.setUser.None? ==> user == old(user))
    {
      Carry(AuthorizeDoctor(header, verifier, now, users));
    }
  }
}
