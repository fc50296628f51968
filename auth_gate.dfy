/**
 * The `protect` middleware in front of the authenticated routes: it reads a
 * bearer token from the `Authorization` header, has it verified, looks up
 * the user it names, and either attaches that user to the request and passes
 * the request on, or answers 401. Token verification (with the server's
 * secret) and the user lookup are oracles.
 */
module AuthGate {
  import opened Options
  import opened Strings

  /** A user record as the lookup returns it, without its password. */
  datatype User = User(id: int, name: string, email: string)

  /** What verifying a token gives: its decoded user id, or an exception. */
  datatype Verification = Decoded(id: int) | Rejected

  /** What looking a user up by id gives: the user, no user (`null`), or an exception. */
  datatype Lookup = Found(user: User) | NoUser | LookupError

  /** The JSON body of a refusal: `{success: false, error}`. */
  datatype ErrorBody = ErrorBody(success: bool, error: string)

  /** What the middleware decides: pass the request on with a user, or refuse with a message. */
  datatype Decision = Admit(user: User) | Deny(message: string)

  const BearerScheme := "Bearer"
  const NotAuthorized := "Not authorized"
  const UserNotFound := "User not found"

  // ---------------------------------------------------------------------------
  // Token extraction
  // ---------------------------------------------------------------------------

  /**
   * The token of an `Authorization` header: the header must be present and
   * start with "Bearer"; the token is its second space-separated field, and
   * an empty or missing second field is no token.
   */
  function TokenOf(header: Option<string>): (r: Option<string>)
    ensures r.Some? ==> header.Some? && StartsWith(header.value, BearerScheme)
    ensures r.Some? ==> r.value != "" && ' ' !in r.value
  {
    match header
    case None => None
    case Some(h) =>
      if h == "" || !StartsWith(h, BearerScheme) then None
      else
        var fields := Split(h, ' ');
        if |fields| >= 2 && fields[1] != "" then Some(fields[1]) else None
  }

  /**
   * The token sits right after the header's first space and runs to the end
   * of the header or to the next space.
   */
  lemma TokenIsSecondField(h: string, t: string)
    requires TokenOf(Some(h)) == Some(t)
    ensures ' ' in h
    ensures StartsWithAt(h, IndexOf(h, ' ') + 1, t)
    ensures IndexOf(h, ' ') + 1 + |t| == |h| || h[IndexOf(h, ' ') + 1 + |t|] == ' '
  {
    assert |Split(h, ' ')| >= 2 && t == Split(h, ' ')[1];
    assert ' ' in h;
    SecondField(h, ' ', IndexOf(h, ' '), t);
  }

  /** A header without a space has no second field, hence no token. */
  lemma NoSpaceNoToken(h: string)
    requires ' ' !in h
    ensures TokenOf(Some(h)) == None
  {
    assert |Split(h, ' ')| == 1;
  }

  /** A header whose first space ends it or is followed by another space has an empty second field, hence no token. */
  lemma EmptySecondFieldNoToken(first: string, rest: string)
    requires ' ' !in first
    requires rest == "" || rest[0] == ' '
    ensures TokenOf(Some(first + " " + rest)) == None
  {
    assert first + " " + rest == first + [' '] + rest;
    SplitAfterFirst(first, ' ', rest);
    if rest != "" {
      assert rest == [] + [' '] + rest[1..];
      SplitAfterFirst([], ' ', rest[1..]);
    }
    assert Split(rest, ' ')[0] == "";
  }

  /** A header "<first> <token>" whose first field starts with "Bearer" carries `token`. */
  lemma TokenOfBearerHeader(first: string, token: string)
    requires StartsWith(first, BearerScheme) && ' ' !in first
    requires token != "" && ' ' !in token
    ensures TokenOf(Some(first + " " + token)) == Some(token)
  {
    var h := first + [' '] + token;
    StartsWithExtended(first, [' '] + token, BearerScheme);
    assert h == first + ([' '] + token);
    SplitAfterFirst(first, ' ', token);
    assert Split(token, ' ') == [token];
    TokenOfFields(h, [first, token]);
    assert first + " " + token == h;
  }

  /** Further fields after the token do not matter: "<first> <token> <rest>" carries `token`. */
  lemma TokenOfLongerHeader(first: string, token: string, rest: string)
    requires StartsWith(first, BearerScheme) && ' ' !in first
    requires token != "" && ' ' !in token
    ensures TokenOf(Some(first + " " + token + " " + rest)) == Some(token)
  {
    var more := token + [' '] + rest;
    var h := first + [' '] + more;
    StartsWithExtended(first, [' '] + more, BearerScheme);
    assert h == first + ([' '] + more);
    SplitAfterFirst(first, ' ', more);
    SplitAfterFirst(token, ' ', rest);
    TokenOfFields(h, [first] + ([token] + Split(rest, ' ')));
    Regroup(first, token, rest);
  }

  lemma Regroup(a: string, b: string, c: string)
    ensures a + " " + b + " " + c == a + [' '] + (b + [' '] + c)
  {
    assert a + " " + b + " " + c == (a + [' ']) + ((b + [' ']) + c);
  }

  /** A "Bearer" header whose fields are known carries its second field when that is not empty. */
  lemma TokenOfFields(h: string, fields: seq<string>)
    requires StartsWith(h, BearerScheme) && Split(h, ' ') == fields
    requires |fields| >= 2 && fields[1] != ""
    ensures TokenOf(Some(h)) == Some(fields[1])
  {
  }

  /** The token of "Bearer abc" is "abc". */
  lemma BearerTokenExample()
    ensures TokenOf(Some("Bearer abc")) == Some("abc")
  {
    assert StartsWith(BearerScheme, BearerScheme);
    TokenOfBearerHeader(BearerScheme, "abc");
    assert BearerScheme + " " + "abc" == "Bearer abc";
  }

  /** "Bearer" and "Bearerabc" have no second field. */
  lemma SchemeOnlyExamples()
    ensures TokenOf(Some("Bearer")) == None
    ensures TokenOf(Some("Bearerabc")) == None
  {
    NoSpaceNoToken("Bearer");
    NoSpaceNoToken("Bearerabc");
  }

  /** "Bearer  abc" has an empty second field. */
  lemma DoubleSpaceExample()
    ensures TokenOf(Some("Bearer  abc")) == None
  {
    EmptySecondFieldNoToken("Bearer", " abc");
    assert "Bearer" + " " + " abc" == "Bearer  abc";
  }

  /** Another scheme, or no header at all, carries no token. */
  lemma OtherSchemeExamples()
    ensures TokenOf(Some("Basic abc")) == None
    ensures TokenOf(None) == None
  {
    assert "Basic abc"[..6][1] != BearerScheme[1];
  }

  // ---------------------------------------------------------------------------
  // The decision
  // ---------------------------------------------------------------------------

  /** What `protect` decides for a header, given the verifier and the lookup. */
  function Gate(header: Option<string>, verify: string -> Verification, lookup: int -> Lookup): (d: Decision)
    ensures d.Admit? <==>
      && TokenOf(header).Some?
      && verify(TokenOf(header).value).Decoded?
      && lookup(verify(TokenOf(header).value).id).Found?
    ensures d.Admit? ==> d.user == lookup(verify(TokenOf(header).value).id).user
    ensures d == Deny(UserNotFound) <==>
      && TokenOf(header).Some?
      && verify(TokenOf(header).value).Decoded?
      && lookup(verify(TokenOf(header).value).id) == NoUser
    ensures d.Deny? && d != Deny(UserNotFound) ==> d == Deny(NotAuthorized)
  {
    match TokenOf(header)
    case None => Deny(NotAuthorized)
    case Some(token) =>
      match verify(token)
      case Rejected => Deny(NotAuthorized)
      case Decoded(id) =>
        match lookup(id)
        case Found(u) => Admit(u)
        case NoUser => Deny(UserNotFound)
        case LookupError => Deny(NotAuthorized)
  }

  /** Without a usable token the request is refused as not authorised, whatever the oracles say. */
  lemma {:induction false} NoTokenDenied(header: Option<string>, verify: string -> Verification, lookup: int -> Lookup)
    requires header.None? || !StartsWith(header.value, BearerScheme)
    ensures Gate(header, verify, lookup) == Deny(NotAuthorized)
  {
    assert TokenOf(header).None?;
  }

  /** The request is passed on exactly when some user is found for the verified token. */
  lemma AdmittedUserIsFound(header: Option<string>, verify: string -> Verification, lookup: int -> Lookup, u: User)
    ensures Gate(header, verify, lookup) == Admit(u) <==>
      exists t, id :: TokenOf(header) == Some(t) && verify(t) == Decoded(id) && lookup(id) == Found(u)
  {
    if Gate(header, verify, lookup) == Admit(u) {
      var t := TokenOf(header).value;
      var id := verify(t).id;
      assert TokenOf(header) == Some(t) && verify(t) == Decoded(id) && lookup(id) == Found(u);
    }
  }

  // ---------------------------------------------------------------------------
  // Request, response and the middleware
  // ---------------------------------------------------------------------------

  /** The request as the middleware sees it: its `Authorization` header and the `user` slot. */
  class Request {
    const authorization: Option<string>
    var user: Option<User>

    constructor(authorization: Option<string>, user: Option<User>)
      ensures this.authorization == authorization && this.user == user
    {
      this.authorization := authorization;
      this.user := user;
    }
  }

  /** The response: nothing written yet, or a status with a JSON body. */
  class Response {
    var status: Option<int>
    var body: Option<ErrorBody>

    constructor()
      ensures status == None && body == None
    {
      status := None;
      body := None;
    }

    /** `res.status(401).json({success: false, error: message})`. */
    method Unauthorized(message: string)
      modifies this
      ensures status == Some(401) && body == Some(ErrorBody(false, message))
    {
      status := Some(401);
      body := Some(ErrorBody(false, message));
    }
  }

  /**
   * `protect`: returns whether `next` was called. On admission the request
   * carries the user found and the response is untouched; on refusal the
   * response is 401 with the decision's message. `req.user` is written only
   * when the lookup returned (the user, or `null` for no user).
   */
  method Protect(req: Request, res: Response, verify: string -> Verification, lookup: int -> Lookup)
    returns (nextCalled: bool)
    modifies req, res
    ensures nextCalled == Gate(req.authorization, verify, lookup).Admit?
    ensures nextCalled ==> (
      && req.user == Some(Gate(req.authorization, verify, lookup).user)
      && res.status == old(res.status) && res.body == old(res.body))
    ensures !nextCalled ==> (
      && res.status == Some(401)
      && res.body == Some(ErrorBody(false, Gate(req.authorization, verify, lookup).message)))
    ensures Gate(req.authorization, verify, lookup) == Deny(UserNotFound) ==> req.user == None
    ensures Gate(req.authorization, verify, lookup) == Deny(NotAuthorized) ==> req.user == old(req.user)
  {
    var token := TokenOf(req.authorization);
    if token.None? {
      res.Unauthorized(NotAuthorized);
      return false;
    }
    var decoded := verify(token.value);
    if decoded.Rejected? {
      res.Unauthorized(NotAuthorized);
      return false;
    }
    var found := lookup(decoded.id);
    if found.LookupError? {
      res.Unauthorized(NotAuthorized);
      return false;
    }
    req.user := if found.Found? then Some(found.user) else None;
    if req.user.None? {
      res.Unauthorized(UserNotFound);
      return false;
    }
    return true;
  }
}
