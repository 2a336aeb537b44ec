/** middleware/auth.middleware.js of the Stationery shop: bearer-token
    extraction with the token check as an oracle, and the role gate. */
module Auth {
  import opened Common

  /** The decoded token payload that becomes `req.user`. */
  datatype Claims = Claims(id: int, role: Option<string>)

  /** What a middleware does with a request: pass it on, or answer with a status. */
  datatype Response = Next | Reject(status: int)

  const Unauthorized: int := 401
  const Forbidden: int := 403
  const Admin: string := "admin"

  /** The role is present and not the empty string (JavaScript truthiness). */
  predicate HasRole(u: Claims)
  {
    u.role.Some? && u.role.value != ""
  }

  predicate IsAdmin(u: Claims)
  {
    u.role == Some(Admin)
  }

  /** `s.split(' ')`: the fields between single spaces, empty ones included. */
  function Fields(s: string): (r: seq<string>)
    ensures |r| >= 1
    decreases |s|
  {
    if s == [] then [[]]
    else
      var rest := Fields(s[1..]);
      if s[0] == ' ' then [[]] + rest
      else [[s[0]] + rest[0]] + rest[1..]
  }

  /** `fields.join(' ')`. */
  function Join(fs: seq<string>): (s: string)
    decreases |fs|
  {
    if fs == [] then []
    else if |fs| == 1 then fs[0]
    else fs[0] + " " + Join(fs[1..])
  }

  /** No field contains the separator. */
  lemma {:induction false} FieldsHaveNoSpace(s: string)
    ensures forall i, k :: 0 <= i < |Fields(s)| && 0 <= k < |Fields(s)[i]| ==> Fields(s)[i][k] != ' '
    decreases |s|
  {
    if s != [] {
      FieldsHaveNoSpace(s[1..]);
    }
  }

  /** Splitting and joining again gives back the original string. */
  lemma {:induction false} JoinFields(s: string)
    ensures Join(Fields(s)) == s
    decreases |s|
  {
    if s != [] {
      var rest := Fields(s[1..]);
      JoinFields(s[1..]);
      if s[0] == ' ' {
        assert Fields(s) == [[]] + rest;
        assert Join(Fields(s)) == [] + " " + Join(rest);
      } else if |rest| == 1 {
        assert Join(Fields(s)) == [s[0]] + rest[0];
      } else {
        assert Fields(s)[1..] == rest[1..];
        assert Join(rest) == rest[0] + " " + Join(rest[1..]);
      }
    }
  }

  /** The longest prefix of `s` without a space. */
  function UpToSpace(s: string): (w: string)
    ensures |w| <= |s| && w == s[..|w|]
    ensures forall k :: 0 <= k < |w| ==> w[k] != ' '
    ensures |w| == |s| || s[|w|] == ' '
    decreases |s|
  {
    if s == [] || s[0] == ' ' then [] else [s[0]] + UpToSpace(s[1..])
  }

  /** The first field of a split is the text before the first space. */
  lemma {:induction false} FirstField(s: string)
    ensures Fields(s)[0] == UpToSpace(s)
    decreases |s|
  {
    if s != [] && s[0] != ' ' {
      FirstField(s[1..]);
    }
  }

  /** A space-free word followed by a space splits off as one field. */
  lemma {:induction false} FieldsAfterWord(w: string, t: string)
    requires forall k :: 0 <= k < |w| ==> w[k] != ' '
    ensures Fields(w + " " + t) == [w] + Fields(t)
    decreases |w|
  {
    if w == [] {
      assert (w + " " + t)[1..] == t;
    } else {
      var s := w + " " + t;
      assert s[0] == w[0] && s[0] != ' ';
      assert s[1..] == w[1..] + " " + t;
      FieldsAfterWord(w[1..], t);
      assert Fields(s[1..]) == [w[1..]] + Fields(t);
      assert [w[0]] + w[1..] == w;
    }
  }

  const Bearer: string := "Bearer "

  /** `authHeader.startsWith('Bearer ')`. */
  predicate StartsWithBearer(h: string)
  {
    |Bearer| <= |h| && h[..|Bearer|] == Bearer
  }

  /** The token of a bearer header: `authHeader.split(' ')[1]`, or nothing
      when the header is missing or does not start with "Bearer ". */
  function BearerToken(header: Option<string>): (t: Option<string>)
    ensures t.Some? <==> header.Some? && StartsWithBearer(header.value)
    ensures t.Some? ==> |Fields(header.value)| >= 2 && t.value == Fields(header.value)[1]
    // the token is what follows "Bearer " up to the next space
    ensures t.Some? ==> t.value == UpToSpace(header.value[|Bearer|..])
  {
    if header.None? || !StartsWithBearer(header.value) then None
    else
      var h := header.value;
      assert h == "Bearer" + " " + h[|Bearer|..];
      FieldsAfterWord("Bearer", h[|Bearer|..]);
      FirstField(h[|Bearer|..]);
      Some(Fields(h)[1])
  }

  /** `authenticateToken` as a decision: 401 without a bearer header, 403
      when `verify` (the token check, an oracle) rejects the token, else
      the decoded payload. */
  function Authenticate(header: Option<string>, verify: string -> Option<Claims>): (r: AuthResult)
    ensures BearerToken(header).None? ==> r == Denied(Unauthorized)
    ensures BearerToken(header).Some? && verify(BearerToken(header).value).None? ==> r == Denied(Forbidden)
    ensures r.Authenticated? <==>
      BearerToken(header).Some? && verify(BearerToken(header).value).Some?
    ensures r.Authenticated? ==> r.user == verify(BearerToken(header).value).value
  {
    match BearerToken(header)
    case None => Denied(Unauthorized)
    case Some(token) =>
      match verify(token)
      case None => Denied(Forbidden)
      case Some(user) => Authenticated(user)
  }

  datatype AuthResult = Authenticated(user: Claims) | Denied(status: int)

  /** The part of a request the middleware reads and writes. */
  class Request {
    const authorization: Option<string>
    var user: Option<Claims>

    constructor (authorization: Option<string>)
      ensures this.authorization == authorization && user == None
    {
      this.authorization := authorization;
      user := None;
    }
  }

  /** `authenticateToken(req, res, next)`: sets `req.user` and calls `next`
      exactly when the bearer token verifies. */
  method AuthenticateToken(req: Request, verify: string -> Option<Claims>) returns (r: Response)
    modifies req`user
    ensures r == Next <==> Authenticate(req.authorization, verify).Authenticated?
    ensures r == Next ==> req.user == Some(Authenticate(req.authorization, verify).user)
    ensures r != Next ==> r == Reject(Authenticate(req.authorization, verify).status) && req.user == old(req.user)
  {
    var h := req.authorization;
    if h.None? || !StartsWithBearer(h.value) {
      return Reject(Unauthorized);
    }
    assert |Fields(h.value)| >= 2 by { assert BearerToken(h).Some?; }
    var token := Fields(h.value)[1];
    var decoded := verify(token);
    if decoded.None? {
      return Reject(Forbidden);
    }
    req.user := decoded;
    r := Next;
  }

  /** `authorizeRoles(...allowedRoles)` applied to `req.user`. */
  function AuthorizeRoles(allowedRoles: seq<string>, user: Option<Claims>): (r: Response)
    ensures user.None? || !HasRole(user.value) ==> r == Reject(Forbidden)
    ensures r == Next <==> user.Some? && HasRole(user.value) && user.value.role.value in allowedRoles
    ensures r != Next ==> r == Reject(Forbidden)
  {
    if user.None? || !HasRole(user.value) then Reject(Forbidden)
    else if user.value.role.value !in allowedRoles then Reject(Forbidden)
    else Next
  }

  /** The admin-only routes pass exactly the users whose role is "admin". */
  lemma AdminGate(user: Option<Claims>)
    ensures AuthorizeRoles([Admin], user) == Next <==> user.Some? && IsAdmin(user.value)
  {
  }
}
