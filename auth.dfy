/** The request gate of middleware/authMiddleware.js: `protect` finds a
    token (cookie first, then a "Bearer" Authorization header), checks it
    and loads the user; `authorize` admits the listed roles only. Token
    verification is an abstract partial function from token to user id,
    and the user collection is a map from id to user. */
module Auth {
  import opened Common
  import opened Text
  import opened Domain

  /** The parts of a request the gate reads: the `token` cookie and the
      Authorization header, each possibly absent. */
  datatype AuthRequest = AuthRequest(cookieToken: Option<string>, authorization: Option<string>)

  /** Either `next()` is called with `req.user` set, or the gate answers
      with a status and a message. */
  datatype GateResult = Next(user: User) | Deny(status: int, message: string)

  const NoToken := "Not authorized, no token"
  const UserNotFound := "Not authorized, user not found"
  const InvalidToken := "Not authorized, invalid token"

  /** `header.split(" ")[1]`: undefined exactly when the header holds no
      space; otherwise the text between the first and the second space
      (or the end), which holds no space. */
  function SecondPiece(header: string): (t: Option<string>)
    ensures t.None? <==> ' ' !in header
    ensures t.Some? ==> ' ' !in t.value
  {
    var parts := Split(header, ' ');
    if |parts| >= 2 then
      JoinHasSeparator(parts, ' ');
      Some(parts[1])
    else None
  }

  /** Joining two or more pieces puts the separator right after the
      first piece. */
  lemma JoinHasSeparator(parts: seq<string>, sep: char)
    requires |parts| >= 2
    ensures |parts[0]| < |Join(parts, sep)| && Join(parts, sep)[|parts[0]|] == sep
  {
  }

  /** Joining pieces starts with the first piece. */
  lemma JoinStartsWithFirst(parts: seq<string>, sep: char, prefix: string)
    requires |parts| >= 1 && StartsWith(parts[0], prefix)
    ensures StartsWith(Join(parts, sep), prefix)
  {
    if |parts| >= 2 {
      var s := Join(parts, sep);
      assert s[..|parts[0]|] == parts[0];
      assert s[..|prefix|] == parts[0][..|prefix|];
    }
  }

  /** The token `protect` ends up with: a truthy cookie wins; otherwise a
      truthy header starting with "Bearer" gives its second
      space-separated piece; otherwise there is none. */
  function ExtractToken(req: AuthRequest): (token: Option<string>)
    ensures TruthyStr(req.cookieToken) ==> token == req.cookieToken
    ensures !TruthyStr(req.cookieToken) && !(TruthyStr(req.authorization) && StartsWith(req.authorization.value, "Bearer"))
      ==> token == None
    ensures token.Some? && !TruthyStr(req.cookieToken) ==> ' ' !in token.value
  {
    if TruthyStr(req.cookieToken) then req.cookieToken
    else if TruthyStr(req.authorization) && StartsWith(req.authorization.value, "Bearer") then
      SecondPiece(req.authorization.value)
    else None
  }

  /** A string without spaces does not split. */
  lemma SplitNoSeparator(s: string)
    requires ' ' !in s
    ensures Split(s, ' ') == [s]
  {
    SplitJoin([s], ' ');
  }

  /** Without a truthy cookie, the header "Bearer <t>" yields exactly
      `t` when `t` holds no space. */
  lemma BearerHeaderToken(cookie: Option<string>, t: string)
    requires !TruthyStr(cookie) && ' ' !in t
    ensures ExtractToken(AuthRequest(cookie, Some("Bearer " + t))) == Some(t)
  {
    var parts := ["Bearer", t];
    assert Join(parts, ' ') == "Bearer " + t by {
      assert parts[1..] == [t];
    }
    SplitJoin(parts, ' ');
    assert StartsWith("Bearer " + t, "Bearer");
  }

  /** Without a truthy cookie, any header whose first space-separated
      piece starts with "Bearer" and that has a second piece yields that
      second piece: "Bearer a b" yields "a", "BearerX t" yields "t". */
  lemma HeaderSecondPiece(cookie: Option<string>, parts: seq<string>)
    requires !TruthyStr(cookie) && |parts| >= 2
    requires forall i :: 0 <= i < |parts| ==> ' ' !in parts[i]
    requires StartsWith(parts[0], "Bearer")
    ensures ExtractToken(AuthRequest(cookie, Some(Join(parts, ' ')))) == Some(parts[1])
  {
    SplitJoin(parts, ' ');
    JoinStartsWithFirst(parts, ' ', "Bearer");
  }

  /** A bare "Bearer" header carries no token, so the gate answers 401. */
  lemma BareBearerHasNoToken(cookie: Option<string>)
    requires !TruthyStr(cookie)
    ensures ExtractToken(AuthRequest(cookie, Some("Bearer"))) == None
  {
    SplitNoSeparator("Bearer");
  }

  /** protect. */
  method Protect(req: AuthRequest, verify: string -> Option<UserId>, users: map<UserId, User>)
    returns (g: GateResult)
    ensures var token := ExtractToken(req);
      && (!TruthyStr(token) ==> g == Deny(401, NoToken))
      && (TruthyStr(token) && verify(token.value).None? ==> g == Deny(401, InvalidToken))
      && (TruthyStr(token) && verify(token.value).Some? && verify(token.value).value !in users ==>
            g == Deny(401, UserNotFound))
      && (g.Next? <==> TruthyStr(token) && verify(token.value).Some? && verify(token.value).value in users)
      && (g.Next? ==> g.user == users[verify(token.value).value])
  {
    var token: Option<string> := None;
    if TruthyStr(req.cookieToken) {
      token := req.cookieToken;
    } else if TruthyStr(req.authorization) && StartsWith(req.authorization.value, "Bearer") {
      token := SecondPiece(req.authorization.value);
    }

    if !TruthyStr(token) {
      return Deny(401, NoToken);
    }

    var decoded := verify(token.value);
    if decoded.None? {
      return Deny(401, InvalidToken);
    }
    if decoded.value !in users {
      return Deny(401, UserNotFound);
    }
    g := Next(users[decoded.value]);
  }

  function RoleMessage(role: string): string {
    "User role " + role + " is not authorized to access this route"
  }

  /** authorize(...roles): `next()` exactly when the user's role is one of
      the roles; otherwise 403 with a message that names the role. */
  function Authorize(roles: seq<string>, user: User): (g: GateResult)
    ensures g.Next? <==> user.role in roles
    ensures g.Next? ==> g.user == user
    ensures g.Deny? ==> g.status == 403 && Occurs(g.message, user.role)
  {
    if user.role !in roles then
      var message := RoleMessage(user.role);
      assert OccursAt(message, user.role, 10);
      Deny(403, message)
    else Next(user)
  }
}
