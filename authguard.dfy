/** `FirebaseAuthGuard` (src/firebase/guards/firebase-auth.guard.ts): a
    route marked public passes; otherwise the `Authorization` header must
    be `Bearer <token>` with a non-empty token, the token is verified by
    Firebase Admin, and the decoded token is stored on the request. The
    `Public` decorator metadata of the handler and of its class, and the outcome
    of `verifyIdToken`, are inputs. */
module AuthGuard {
  import opened Wrappers
  import opened Text

  const Unauthorized: nat := 401

  /** An `HttpException`: its message and status. */
  datatype HttpError = HttpError(message: string, status: nat)

  /** What `verifyIdToken` resolves to: the token's uid and claims. */
  datatype DecodedToken = DecodedToken(uid: string, claims: map<string, string>)

  // ------------------------------------------------------------- metadata

  /** `getAllAndOverride(IS_PUBLIC_KEY, [handler, class])`: the first of the
      two that carries the metadata decides; neither carrying it is
      `undefined`, which is falsy. */
  function IsPublic(handler: Option<bool>, cls: Option<bool>): (p: bool)
    ensures handler.Some? ==> p == handler.value
    ensures handler.None? ==> p == (cls.Some? && cls.value)
  {
    match handler
    case Some(h) => h
    case None => if cls.Some? then cls.value else false
  }

  /** A handler marked `false` overrides a public class, and a public class
      makes every handler without its own mark public. */
  lemma HandlerOverridesClass(cls: Option<bool>)
    ensures !IsPublic(Some(false), cls)
    ensures IsPublic(None, Some(true))
    ensures !IsPublic(None, None)
  {
  }

  // -------------------------------------------------------------- header

  /** `extractTokenFromHeader`: an absent or empty header gives `null`;
      otherwise the header split on single spaces must have exactly two
      parts, the first being `Bearer`. */
  function ExtractToken(header: Option<string>): (t: Option<string>)
    ensures t.Some? ==> Truthy(header) && ' ' !in t.value
  {
    if !Truthy(header) then None
    else
      var parts := Split(header.value, ' ');
      if |parts| == 2 && parts[0] == "Bearer" then Some(parts[1]) else None
  }

  /** A token comes out exactly when the header is `Bearer`, one space and
      a token without spaces; the token is what follows the space. */
  lemma {:induction false} ExtractTokenExactly(h: string, t: string)
    ensures ExtractToken(Some(h)) == Some(t) <==> h == "Bearer " + t && ' ' !in t
  {
    if ExtractToken(Some(h)) == Some(t) {
      var parts := Split(h, ' ');
      JoinSplit(h, ' ');
      assert parts == ["Bearer", t];
      assert Join(parts, ' ') == "Bearer" + [' '] + t;
    }
    if h == "Bearer " + t && ' ' !in t {
      var parts := ["Bearer", t];
      assert ' ' !in parts[0];
      SplitJoin(parts, ' ');
      assert Join(parts, ' ') == h;
    }
  }

  /** A token, when there is one, is all that follows the header's first
      seven characters, which are `Bearer `. */
  lemma TokenShape(h: string)
    ensures ExtractToken(Some(h)).Some? ==>
      |h| >= 7 && h[..7] == "Bearer " && ExtractToken(Some(h)).value == h[7..]
  {
    if ExtractToken(Some(h)).Some? {
      ExtractTokenExactly(h, ExtractToken(Some(h)).value);
    }
  }

  /** The scheme is matched case-sensitively, and a second space between
      the scheme and the token yields no token. */
  lemma SchemeIsExact(t: string)
    ensures ExtractToken(Some("bearer " + t)) == None
    ensures ExtractToken(Some("Bearer  " + t)) == None
  {
    var lower := "bearer " + t;
    TokenShape(lower);
    assert lower[..7][0] == 'b';
    var doubled := "Bearer  " + t;
    TokenShape(doubled);
    assert doubled[7..][0] == ' ';
  }

  /** `Bearer ` with nothing after it yields the empty token. */
  lemma EmptyBearerToken()
    ensures ExtractToken(Some("Bearer ")) == Some("")
  {
    ExtractTokenExactly("Bearer ", "");
  }

  // ------------------------------------------------------------ decision

  /** How `canActivate` ends: it lets the request through, having stored
      the decoded token on it or not, or it throws. */
  datatype Outcome = Allow(user: Option<DecodedToken>) | Deny(error: HttpError)

  /** The decision `canActivate` takes for a route's metadata, the request's
      header and the verifier. */
  function Decide(handler: Option<bool>, cls: Option<bool>, header: Option<string>,
                  verify: string -> Result<DecodedToken, string>): (o: Outcome)
    ensures o.Allow? && o.user.None? <==> IsPublic(handler, cls)
    ensures o.Allow? && o.user.Some? ==>
      Truthy(ExtractToken(header)) && verify(ExtractToken(header).value) == Success(o.user.value)
  {
    if IsPublic(handler, cls) then Allow(None)
    else
      var token := ExtractToken(header);
      if !Truthy(token) then Deny(HttpError("Token not provided", Unauthorized))
      else
        match verify(token.value)
        case Success(decoded) => Allow(Some(decoded))
        case Failure(_) => Deny(HttpError("Invalid token", Unauthorized))
  }

  /** A public route passes whatever the header holds, without verifying
      anything. */
  lemma PublicIgnoresHeader(handler: Option<bool>, cls: Option<bool>, h1: Option<string>, h2: Option<string>,
                            v1: string -> Result<DecodedToken, string>, v2: string -> Result<DecodedToken, string>)
    requires IsPublic(handler, cls)
    ensures Decide(handler, cls, h1, v1) == Decide(handler, cls, h2, v2) == Allow(None)
  {
  }

  /** On a protected route, a missing header, one that is not
      `Bearer <token>`, and `Bearer ` with an empty token are all refused
      with 401 `Token not provided`. */
  lemma MissingToken(handler: Option<bool>, cls: Option<bool>, header: Option<string>,
                     verify: string -> Result<DecodedToken, string>)
    requires !IsPublic(handler, cls)
    ensures (!Truthy(header) || header == Some("Bearer ")
             || !(exists t :: header == Some("Bearer " + t) && ' ' !in t)) ==>
      Decide(handler, cls, header, verify) == Deny(HttpError("Token not provided", 401))
  {
    EmptyBearerToken();
    if Truthy(header) && ExtractToken(header).Some? {
      ExtractTokenExactly(header.value, ExtractToken(header).value);
    }
  }

  /** On a protected route with `Bearer <token>`, a token the verifier
      rejects gives 401 `Invalid token`, and one it accepts lets the
      request through carrying the decoded token. */
  lemma VerifiedToken(handler: Option<bool>, cls: Option<bool>, t: string,
                      verify: string -> Result<DecodedToken, string>)
    requires !IsPublic(handler, cls) && t != "" && ' ' !in t
    ensures verify(t).Failure? ==>
      Decide(handler, cls, Some("Bearer " + t), verify) == Deny(HttpError("Invalid token", 401))
    ensures verify(t).Success? ==>
      Decide(handler, cls, Some("Bearer " + t), verify) == Allow(Some(verify(t).value))
  {
    ExtractTokenExactly("Bearer " + t, t);
  }

  // ------------------------------------------------------------- request

  /** The request as the guard sees it: its `Authorization` header and the
      `user` field the guard sets. */
  class Request {
    const authorization: Option<string>
    var user: Option<DecodedToken>

    constructor(authorization: Option<string>)
      ensures this.authorization == authorization && user == None
    {
      this.authorization := authorization;
      user := None;
    }
  }

  /** `canActivate`: true, or the exception it throws; on success with a
      verified token, `request.user` is the decoded token, and otherwise
      the request is left as it was. */
  method CanActivate(handler: Option<bool>, cls: Option<bool>, request: Request,
                     verify: string -> Result<DecodedToken, string>)
    returns (r: Result<bool, HttpError>)
    modifies request`user
    ensures var o := Decide(handler, cls, request.authorization, verify);
      && (o.Allow? ==> r == Success(true))
      && (o.Deny? ==> r == Failure(o.error))
      && (o.Allow? && o.user.Some? ==> request.user == o.user)
      && (!(o.Allow? && o.user.Some?) ==> request.user == old(request.user))
  {
    if IsPublic(handler, cls) {
      return Success(true);
    }
    var token := ExtractToken(request.authorization);
    if !Truthy(token) {
      return Failure(HttpError("Token not provided", Unauthorized));
    }
    var verified := verify(token.value);
    if verified.Failure? {
      return Failure(HttpError("Invalid token", Unauthorized));
    }
    request.user := Some(verified.value);
    r := Success(true);
  }
}
