/** The authentication middleware: `authenticate`, `authorize(roles)` and
    `optionalAuth`. Each one either lets the request through, possibly with
    `req.user` set, or answers with an error status. Verifying a JSON Web
    Token is a parameter `verify`: it yields the token's claims, or nothing
    when the token is malformed, forged or expired (where `jwt.verify`
    throws). */
module Auth {
  import opened Types
  import opened Http

  /** JavaScript `s.split(" ")`: the pieces between single spaces, an empty
      piece wherever two spaces meet or the string starts or ends with one. */
  function Split(s: string): (r: seq<string>)
    ensures |r| >= 1
    ensures forall i :: 0 <= i < |r| ==> ' ' !in r[i]
  {
    if s == [] then [""]
    else
      var rest := Split(s[1..]);
      if s[0] == ' ' then [""] + rest
      else [[s[0]] + rest[0]] + rest[1..]
  }

  /** JavaScript `parts.join(" ")`. */
  function Join(parts: seq<string>): string {
    if |parts| == 0 then ""
    else if |parts| == 1 then parts[0]
    else parts[0] + " " + Join(parts[1..])
  }

  /** Joining the pieces gives back the string that was split. */
  lemma {:induction false} JoinSplit(s: string)
    ensures Join(Split(s)) == s
  {
    if s != [] {
      var rest := Split(s[1..]);
      JoinSplit(s[1..]);
      if s[0] == ' ' {
        assert ([""] + rest)[1..] == rest;
      } else if |rest| > 1 {
        var r := Split(s);
        assert r[1..] == rest[1..];
        assert Join(rest) == rest[0] + " " + Join(rest[1..]);
      }
    }
  }

  /** Splitting pieces that hold no space, joined by spaces, gives the
      pieces back. */
  lemma {:induction false} SplitJoin(parts: seq<string>)
    requires |parts| >= 1
    requires forall i :: 0 <= i < |parts| ==> ' ' !in parts[i]
    ensures Split(Join(parts)) == parts
  {
    if |parts| == 1 {
      SplitWord(parts[0], []);
      assert Split([]) == [""];
      assert parts[0] + [] == parts[0];
      assert Split(parts[0]) == [parts[0]];
      assert parts == [parts[0]];
      assert Join(parts) == parts[0];
    } else {
      SplitJoin(parts[1..]);
      SplitWord(parts[0], " " + Join(parts[1..]));
      assert Join(parts) == parts[0] + (" " + Join(parts[1..]));
      assert Split(" " + Join(parts[1..])) == [""] + parts[1..] by {
        assert (" " + Join(parts[1..]))[1..] == Join(parts[1..]);
      }
      var t := Split(" " + Join(parts[1..]));
      assert t[0] == "" && t[1..] == parts[1..];
      assert parts[0] + t[0] == parts[0];
      assert parts == [parts[0]] + parts[1..];
    }
  }

  /** A word without spaces glues onto the first piece of what follows it. */
  lemma {:induction false} SplitWord(w: string, tail: string)
    requires ' ' !in w
    ensures Split(w + tail) == [w + Split(tail)[0]] + Split(tail)[1..]
  {
    var t := Split(tail);
    if w == [] {
      assert w + tail == tail;
      assert w + t[0] == t[0];
      assert t == [t[0]] + t[1..];
    } else {
      SplitWord(w[1..], tail);
      assert (w + tail)[1..] == w[1..] + tail;
      var rest := Split(w[1..] + tail);
      assert rest == [w[1..] + t[0]] + t[1..];
      assert [w[0]] + (w[1..] + t[0]) == w + t[0];
    }
  }

  /** `req.headers.authorization?.split(" ")[1]`, read as a truth value: the
      second space-separated piece of the header, or nothing when the header
      is missing, has no space, or that piece is empty. The first piece (the
      scheme, normally `Bearer`) is never looked at. */
  function BearerToken(header: Option<string>): (r: Option<string>)
    ensures r.Some? ==> r.value != "" && ' ' !in r.value
    ensures r.Some? ==> header.Some? && |Split(header.value)| >= 2 && r.value == Split(header.value)[1]
  {
    if header.None? then None
    else
      var parts := Split(header.value);
      if |parts| >= 2 && parts[1] != "" then Some(parts[1]) else None
  }

  /** Whatever the scheme word, a header made of space-free words yields its
      second word as the token. */
  lemma BearerTokenOfWords(parts: seq<string>)
    requires |parts| >= 2 && parts[1] != ""
    requires forall i :: 0 <= i < |parts| ==> ' ' !in parts[i]
    ensures BearerToken(Some(Join(parts))) == Some(parts[1])
  {
    SplitJoin(parts);
  }

  /** A header without a space carries no token. */
  lemma NoSpaceNoToken(h: string)
    requires ' ' !in h
    ensures BearerToken(Some(h)) == None
  {
    SplitJoin([h]);
  }

  /** What a middleware does with a request: call `next()` with the request
      as it now stands, or end the exchange with a status and an error. */
  datatype Step = Next(req: Request) | Halt(status: nat, error: string)

  const NoTokenError := "No token provided, authorization required"
  const BadTokenError := "Invalid or expired token"
  const NotAuthenticatedError := "User not authenticated"
  const AccessDeniedError := "Access denied. Admin role required"

  /** `authenticate`: 401 without a token, 401 when the token does not
      verify, and otherwise `req.user` becomes the token's claims. */
  function Authenticate(req: Request, verify: string -> Option<Claims>): (r: Step)
    ensures r.Halt? ==> r.status == 401
    ensures BearerToken(req.authorization).None? ==> r == Halt(401, NoTokenError)
    ensures r.Next? <==> BearerToken(req.authorization).Some? && verify(BearerToken(req.authorization).value).Some?
    ensures r.Next? ==> r.req.user.Some? && r.req.user == verify(BearerToken(req.authorization).value)
    ensures r.Next? ==> r.req.authorization == req.authorization && r.req.body == req.body
  {
    match BearerToken(req.authorization)
    case None => Halt(401, NoTokenError)
    case Some(token) =>
      match verify(token)
      case None => Halt(401, BadTokenError)
      case Some(claims) => Next(req.(user := Some(claims)))
  }

  /** `authorize(roles)`: 401 when nobody is authenticated (checked first),
      403 when the user's role is not listed, and otherwise the request
      passes unchanged. */
  function Authorize(roles: seq<Role>, req: Request): (r: Step)
    ensures r.Next? <==> req.user.Some? && req.user.value.role in roles
    ensures r.Next? ==> r.req == req
    ensures r.Halt? ==> (r.status == 401 <==> req.user.None?)
    ensures r.Halt? ==> (r.status == 403 <==> req.user.Some?)
  {
    if req.user.None? then Halt(401, NotAuthenticatedError)
    else if req.user.value.role !in roles then Halt(403, AccessDeniedError)
    else Next(req)
  }

  /** `optionalAuth`: never refuses. A present token that verifies sets
      `req.user`; a missing or failing token leaves the request as it was. */
  function OptionalAuth(req: Request, verify: string -> Option<Claims>): (r: Step)
    ensures r.Next?
    ensures r.req.authorization == req.authorization && r.req.body == req.body
    ensures r.req.user != req.user ==>
      BearerToken(req.authorization).Some? && r.req.user == verify(BearerToken(req.authorization).value) && r.req.user.Some?
  {
    match BearerToken(req.authorization)
    case None => Next(req)
    case Some(token) =>
      match verify(token)
      case None => Next(req)
      case Some(claims) => Next(req.(user := Some(claims)))
  }

  /** `authenticate` and `optionalAuth` agree whenever `authenticate` lets
      the request through. */
  lemma OptionalAuthExtendsAuthenticate(req: Request, verify: string -> Option<Claims>)
    requires Authenticate(req, verify).Next?
    ensures OptionalAuth(req, verify) == Authenticate(req, verify)
  {
  }
}
