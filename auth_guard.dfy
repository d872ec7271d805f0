/**
 * The authentication guard: takes the bearer token from the Authorization
 * header, has the identity provider resolve it, and on success records the
 * user on the request. The provider's reply is an input.
 */
module AuthGuard {
  import opened Wrappers
  import opened Strings
  import opened Exceptions

  const BEARER := "Bearer "

  /** `authorization?.split("Bearer ")[1]`: the text after the first "Bearer ", up to the next one. */
  function ExtractToken(authorization: Option<string>): (t: Option<string>)
    ensures t.Some? <==> authorization.Some? && IndexFrom(authorization.value, BEARER, 0).Some?
    ensures t.Some? ==> !Contains(t.value, BEARER)
  {
    match authorization
    case None => None
    case Some(header) =>
      var parts := Split(header, BEARER);
      SplitPiecesAreFree(header, BEARER);
      if |parts| > 1 then Some(parts[1]) else None
  }

  /** A token exists exactly when the header contains "Bearer ". */
  lemma {:induction false} TokenPresentIffBearer(header: string)
    ensures ExtractToken(Some(header)).Some? <==> Contains(header, BEARER)
  {
    match IndexFrom(header, BEARER, 0)
    case None =>
      assert Split(header, BEARER) == [header];
    case Some(i) =>
      assert |Split(header, BEARER)| > 1;
  }

  /**
   * The token is the segment between the first "Bearer " and the next "Bearer "
   * (or the end of the header), and it never contains "Bearer " itself.
   */
  lemma {:induction false} TokenIsSecondSegment(header: string, i: nat)
    requires IndexFrom(header, BEARER, 0) == Some(i)
    ensures var t := ExtractToken(Some(header));
      && t.Some?
      && !Contains(t.value, BEARER)
      && i + |BEARER| + |t.value| <= |header|
      && header[i + |BEARER|..i + |BEARER| + |t.value|] == t.value
      && (i + |BEARER| + |t.value| == |header| || OccursAt(header, BEARER, i + |BEARER| + |t.value|))
  {
    var start := i + |BEARER|;
    var rest := header[start..];
    var t := Split(rest, BEARER)[0];
    assert ExtractToken(Some(header)) == Some(t);
    SplitPiecesAreFree(rest, BEARER);
    FirstPiece(rest, BEARER);
    assert header[start..start + |t|] == rest[..|t|];
    if |t| < |rest| {
      OccursInSuffix(header, BEARER, start, |t|);
    }
  }

  /** "Bearer " followed by a token free of "Bearer " yields exactly that token. */
  lemma BearerRoundTrip(token: string)
    requires !Contains(token, BEARER)
    ensures ExtractToken(Some(BEARER + token)) == Some(token)
  {
    var header := BEARER + token;
    assert OccursAt(header, BEARER, 0);
    assert IndexFrom(header, BEARER, 0) == Some(0);
    var rest := header[|BEARER|..];
    assert rest == token;
    assert Split(header, BEARER) == [header[..0]] + Split(rest, BEARER);
    match IndexFrom(rest, BEARER, 0)
    case None =>
      assert Split(rest, BEARER) == [rest];
    case Some(j) =>
      assert false;
  }

  /** What the identity provider answers: `{data: {user}, error}`, or a rejection. */
  datatype User = User(id: string, email: string)
  datatype ProviderReply = Resolved(user: Option<User>, error: Option<string>) | ProviderThrew

  /** How the guard ends: the request may proceed with a user, or is rejected. */
  datatype Decision = Grant(user: User) | Reject(error: HttpError)

  /**
   * What `getClient()` evaluates to where the guard reads `.auth` from it: the
   * client, once awaited, or the pending Promise of one, which is what the
   * guard reads as written, since `getClient` is `async` and is not awaited.
   */
  datatype ClientValue = AwaitedClient | PendingPromise

  /**
   * The body of the `try`: `getClient().auth.getUser(token)`, then the reply
   * check. A Promise has no `auth`, so calling `getUser` on it throws a
   * TypeError before the provider is reached; with the client, a provider
   * error or a missing user throws.
   */
  function GetUser(client: ClientValue, reply: ProviderReply): Step<User>
  {
    match client
    case PendingPromise => Throw(Fault("TypeError: cannot read properties of undefined (reading 'getUser')"))
    case AwaitedClient =>
      match reply
      case ProviderThrew => Throw(Fault("identity provider rejected"))
      case Resolved(user, error) =>
        if error.Some? || user.None? then Throw(Raised(UnauthorizedException("Invalid token")))
        else Return(user.value)
  }

  /**
   * `canActivate`: no usable token is "No token provided", raised before the
   * `try`; anything the `try` throws becomes "Invalid token".
   */
  function Decide(client: ClientValue, authorization: Option<string>, reply: ProviderReply): (d: Decision)
    ensures d.Reject? ==> d.error.status == 401
    ensures d == Reject(UnauthorizedException("No token provided")) <==> !Truthy(ExtractToken(authorization))
    ensures d.Reject? && Truthy(ExtractToken(authorization)) ==> d == Reject(UnauthorizedException("Invalid token"))
    ensures d.Grant? <==>
              client.AwaitedClient? && Truthy(ExtractToken(authorization))
              && reply.Resolved? && reply.error.None? && reply.user.Some?
    ensures d.Grant? ==> d.user == reply.user.value
  {
    var token := ExtractToken(authorization);
    if !Truthy(token) then Reject(UnauthorizedException("No token provided"))
    else
      match GetUser(client, reply)
      case Return(user) => Grant(user)
      case Throw(_) => Reject(UnauthorizedException("Invalid token"))
  }

  /** The tokens the provider is asked to resolve: the extracted one, only when there is one and the client was awaited. */
  function ProviderCalls(client: ClientValue, authorization: Option<string>): (calls: seq<string>)
    ensures |calls| <= 1
    ensures calls != [] <==> client.AwaitedClient? && Truthy(ExtractToken(authorization))
    ensures calls != [] ==> calls[0] == ExtractToken(authorization).value
  {
    var token := ExtractToken(authorization);
    if client.AwaitedClient? && Truthy(token) then [token.value] else []
  }

  /**
   * The guard as written reads `.auth` off the Promise: no request is ever
   * granted, the provider is never asked, and every token is "Invalid token".
   */
  lemma UnawaitedClientNeverGrants(authorization: Option<string>, reply: ProviderReply)
    ensures Decide(PendingPromise, authorization, reply).Reject?
    ensures ProviderCalls(PendingPromise, authorization) == []
    ensures Truthy(ExtractToken(authorization)) ==>
              Decide(PendingPromise, authorization, reply) == Reject(UnauthorizedException("Invalid token"))
  {
  }

  /**
   * The guard's own test case: "Bearer valid-token" with a resolved user is
   * granted once the client is awaited, and rejected as the guard is written.
   */
  lemma ValidTokenRejectedAsWritten()
    ensures var u := User("1", "test@example.com");
      && Decide(AwaitedClient, Some("Bearer valid-token"), Resolved(Some(u), None)) == Grant(u)
      && Decide(PendingPromise, Some("Bearer valid-token"), Resolved(Some(u), None))
         == Reject(UnauthorizedException("Invalid token"))
  {
    ValidTokenExample();
  }

  /** The example of the guard's own test: "Bearer valid-token" carries the token "valid-token". */
  lemma ValidTokenExample()
    ensures ExtractToken(Some("Bearer valid-token")) == Some("valid-token")
  {
    var token := "valid-token";
    assert !Contains(token, BEARER) by {
      forall j: nat | j + |BEARER| <= |token| ensures !OccursAt(token, BEARER, j) {
        assert token[j..j + |BEARER|][0] == token[j] != 'B';
      }
    }
    BearerRoundTrip(token);
    assert BEARER + token == "Bearer valid-token";
  }

  /** The HTTP request as the guard sees it. */
  class Request {
    const authorization: Option<string>
    var user: Option<User>

    constructor (authorization: Option<string>)
      ensures this.authorization == authorization && user == None
    {
      this.authorization := authorization;
      user := None;
    }
  }

  class Guard {
    /** The tokens sent to the identity provider so far. */
    ghost var resolved: seq<string>

    constructor ()
      ensures resolved == []
    {
      resolved := [];
    }

    /** Resolves `true` or rejects; only a granted request gets its `user` set. */
    method CanActivate(request: Request, client: ClientValue, reply: ProviderReply) returns (r: Outcome<bool>)
      modifies this, request
      ensures var d := Decide(client, request.authorization, reply);
        && (r == if d.Grant? then Ok(true) else Err(d.error))
        && request.user == (if d.Grant? then Some(d.user) else old(request.user))
      ensures resolved == old(resolved) + ProviderCalls(client, request.authorization)
    {
      var token := ExtractToken(request.authorization);
      if !Truthy(token) {
        return Err(UnauthorizedException("No token provided"));
      }
      if client.PendingPromise? {
        // `getUser` is called on `undefined`: the TypeError lands in the catch.
        return Err(UnauthorizedException("Invalid token"));
      }
      resolved := resolved + [token.value];
      match reply {
        case ProviderThrew =>
          r := Err(UnauthorizedException("Invalid token"));
        case Resolved(user, error) =>
          if error.Some? || user.None? {
            r := Err(UnauthorizedException("Invalid token"));
          } else {
            request.user := user;
            r := Ok(true);
          }
      }
    }
  }
}
