/** `authenticateJWT` and `requireRole` of backend/src/middleware/auth.js.
    Token verification is the `verify` parameter: it yields the claims of a
    token that checks out and `None` for any other. */
module AuthMiddleware {
  import opened Common

  /** What a middleware does with a request: pass it on, or answer it. */
  datatype Gate = Next | Halt(code: int, message: string)

  /** The parts of `parts` joined with single spaces. */
  function JoinWithSpace(parts: seq<string>): string
    requires |parts| >= 1
  {
    if |parts| == 1 then parts[0] else parts[0] + " " + JoinWithSpace(parts[1..])
  }

  /** `s.split(' ')`: cut at every space, so two spaces in a row give an
      empty part and the result is never empty. */
  function SplitOnSpace(s: string): (parts: seq<string>)
    ensures |parts| >= 1
    ensures forall i :: 0 <= i < |parts| ==> ' ' !in parts[i]
    ensures JoinWithSpace(parts) == s
  {
    if s == [] then [""]
    else
      var rest := SplitOnSpace(s[1..]);
      if s[0] == ' ' then [""] + rest
      else
        var first := [s[0]] + rest[0];
        assert ' ' !in first;
        assert s == [s[0]] + s[1..];
        [first] + rest[1..]
  }

  /** `authHeader.split(' ')[1]`: the second part, if there is one. */
  function TokenOf(header: string): (token: Option<string>)
    ensures token.Some? <==> ' ' in header
    ensures token.Some? ==> ' ' !in token.value
  {
    var parts := SplitOnSpace(header);
    SingleSpaceFreePart(header);
    if |parts| >= 2 then Some(parts[1]) else None
  }

  /** A header splits into one part exactly when it holds no space. */
  lemma {:induction false} SingleSpaceFreePart(s: string)
    ensures |SplitOnSpace(s)| == 1 <==> ' ' !in s
  {
    if s != [] {
      SingleSpaceFreePart(s[1..]);
      assert s == [s[0]] + s[1..];
    }
  }

  /** A word with no space splits into itself alone. */
  lemma {:induction false} SplitWord(w: string)
    requires ' ' !in w
    ensures SplitOnSpace(w) == [w]
  {
    if w != [] {
      SplitWord(w[1..]);
      assert w == [w[0]] + w[1..];
    }
  }

  /** Splitting after a leading character other than a space: it joins
      the first part. */
  lemma SplitAfterChar(c: char, t: string)
    requires c != ' '
    ensures var tail := SplitOnSpace(t);
            SplitOnSpace([c] + t) == [[c] + tail[0]] + tail[1..]
  {
    assert ([c] + t)[1..] == t;
  }

  /** Splitting after a leading space: an empty part comes first. */
  lemma SplitAfterSpace(t: string)
    ensures SplitOnSpace([' '] + t) == [""] + SplitOnSpace(t)
  {
    assert ([' '] + t)[1..] == t;
  }

  /** A word followed by a space and more splits into that word and the
      split of the rest. */
  lemma {:induction false} SplitAfterWord(w: string, rest: string)
    requires ' ' !in w
    ensures SplitOnSpace(w + " " + rest) == [w] + SplitOnSpace(rest)
  {
    if w == [] {
      assert w + " " + rest == [' '] + rest;
      SplitAfterSpace(rest);
    } else {
      SplitAfterWord(w[1..], rest);
      assert w + " " + rest == [w[0]] + (w[1..] + " " + rest);
      SplitAfterChar(w[0], w[1..] + " " + rest);
      assert [w[0]] + w[1..] == w;
    }
  }

  /** For "Bearer <token>" with no space in either word, the token is
      what follows the space. */
  lemma BearerToken(scheme: string, token: string)
    requires ' ' !in scheme && ' ' !in token
    ensures TokenOf(scheme + " " + token) == Some(token)
  {
    SplitAfterWord(scheme, token);
    SplitWord(token);
  }

  /** The claims `authenticateJWT` would put on the request for this
      header, or `None` when it answers the request itself. A missing or
      empty token is refused before `verify` is asked, as `jwt.verify`
      refuses one whatever the secret. */
  function Authenticated(header: Option<string>, verify: string -> Option<Claims>): Option<Claims>
  {
    if !Truthy(header) then None
    else
      var token := TokenOf(header.value);
      if token.None? || token.value == "" then None else verify(token.value)
  }

  /** A header that is a scheme and a space with nothing after it is
      refused whatever `verify` would say. */
  lemma EmptyTokenRefused(scheme: string, verify: string -> Option<Claims>)
    requires ' ' !in scheme
    ensures Authenticated(Some(scheme + " "), verify) == None
  {
    BearerToken(scheme, "");
    assert scheme + " " + "" == scheme + " ";
  }

  /** The part of a request the middleware reads and writes. */
  class Request {
    /** The Authorization header, if sent. */
    const authorization: Option<string>
    /** `req.user`, set by `authenticateJWT`. */
    var user: Option<Claims>

    constructor (authorization: Option<string>)
      ensures this.authorization == authorization && user == None
    {
      this.authorization := authorization;
      user := None;
    }
  }

  /** `authenticateJWT`: no header is 401; a header whose second part is
      missing or does not verify is 403; in both cases `req.user` is left
      alone and the handler is not reached. Otherwise `req.user` becomes
      the verified claims and the request goes on. */
  method AuthenticateJwt(req: Request, verify: string -> Option<Claims>) returns (g: Gate)
    modifies req
    ensures !Truthy(req.authorization) ==>
      g == Halt(401, "No token provided") && req.user == old(req.user)
    ensures Truthy(req.authorization) && Authenticated(req.authorization, verify).None? ==>
      g == Halt(403, "Invalid token") && req.user == old(req.user)
    ensures Authenticated(req.authorization, verify).Some? ==>
      g == Next && req.user == Authenticated(req.authorization, verify)
  {
    var authHeader := req.authorization;
    if !Truthy(authHeader) {
      return Halt(401, "No token provided");
    }
    var parts := SplitOnSpace(authHeader.value);
    // An absent or empty second part verifies as nothing.
    var user := if |parts| >= 2 && parts[1] != "" then verify(parts[1]) else None;
    if user.None? {
      return Halt(403, "Invalid token");
    }
    req.user := user;
    g := Next;
  }

  /** `requireRole(role)`: passes exactly when `req.user.role` is the
      same string as `role`; otherwise 403. */
  function RequireRole(role: string, user: Claims): (g: Gate)
    ensures g == Next <==> user.role == role
    ensures g != Next ==> g == Halt(403, "Forbidden: Insufficient role")
  {
    if user.role != role then Halt(403, "Forbidden: Insufficient role") else Next
  }
}
