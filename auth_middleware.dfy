/** The authentication middleware (server/middlewares/auth.js): read the
    bearer token, verify it, and resolve the stored user. Token
    verification is the function parameter `verify`. */
module AuthMiddleware {
  import opened Common
  import opened Text
  import opened UserModel

  const Bearer: string := "Bearer "

  /** `header.startsWith('Bearer ') ? header.split(' ')[1] : null`, with an
      absent header read as "" and an empty piece, being falsy, as no token. */
  function ExtractToken(header: Option<string>): Option<string>
  {
    var h := if header.Some? then header.value else "";
    if StartsWith(h, Bearer) then
      var pieces := Split(h, ' ');
      if |pieces| > 1 && pieces[1] != "" then Some(pieces[1]) else None
    else None
  }

  /** The first piece of a split is everything before the first separator. */
  lemma SplitFirst(s: string, sep: char)
    ensures Split(s, sep)[0] == s[..IndexOf(s, sep)]
  {
  }

  /** The second piece of a header that starts with "Bearer " is what follows
      it up to the next space. */
  lemma BearerPieces(h: string)
    requires StartsWith(h, Bearer)
    ensures var rest := h[|Bearer|..];
      |Split(h, ' ')| > 1 && Split(h, ' ')[1] == rest[..IndexOf(rest, ' ')]
  {
    var rest := h[|Bearer|..];
    assert h == "Bearer" + [' '] + rest;
    IndexOfAfter("Bearer", ' ', rest);
    assert h[IndexOf(h, ' ') + 1..] == rest;
    SplitFirst(rest, ' ');
  }

  /** A token is found exactly when the header starts with "Bearer " followed
      by a character other than a space; it is then the text from there up
      to the next space or the end. */
  lemma ExtractTokenShape(header: Option<string>)
    ensures var h := if header.Some? then header.value else "";
      && (ExtractToken(header).Some? <==> StartsWith(h, Bearer) && |h| > |Bearer| && h[|Bearer|] != ' ')
      && (ExtractToken(header).Some? ==>
            var t := ExtractToken(header).value;
            && |Bearer| + |t| <= |h| && t == h[|Bearer|..|Bearer| + |t|]
            && t != [] && ' ' !in t
            && (|Bearer| + |t| == |h| || h[|Bearer| + |t|] == ' '))
  {
    var h := if header.Some? then header.value else "";
    if StartsWith(h, Bearer) {
      BearerPieces(h);
      var rest := h[|Bearer|..];
      var j := IndexOf(rest, ' ');
      assert rest[..j] == h[|Bearer|..|Bearer| + j];
      assert j > 0 <==> rest != [] && rest[0] != ' ';
    }
  }

  /** "Bearer " + token, followed by nothing or by a space, gives the token back. */
  lemma ExtractTokenOf(t: string, rest: string)
    requires t != [] && ' ' !in t
    requires rest == [] || rest[0] == ' '
    ensures ExtractToken(Some(Bearer + t + rest)) == Some(t)
  {
    var h := Bearer + t + rest;
    assert h[..|Bearer|] == Bearer;
    BearerPieces(h);
    assert h[|Bearer|..] == t + rest;
    WordEnd(t, rest);
    assert (t + rest)[..|t|] == t;
  }

  /** A space-free word followed by nothing or a space ends at its length. */
  lemma WordEnd(t: string, rest: string)
    requires ' ' !in t
    requires rest == [] || rest[0] == ' '
    ensures IndexOf(t + rest, ' ') == |t|
  {
    if rest == [] {
      assert t + rest == t;
      IndexOfAbsent(t, ' ');
    } else {
      assert t + rest == t + [' '] + rest[1..];
      IndexOfAfter(t, ' ', rest[1..]);
    }
  }

  /** What `jwt.verify` ends in: the id it carries, or the error it throws. */
  datatype Verification = Verified(id: Id) | Expired | Invalid

  /** What the middleware decides: go on as the stored user, or answer 401. */
  datatype Outcome = Pass(userId: Id, role: Role, user: UserView) | Reject(code: nat, message: string)

  function Authenticate(header: Option<string>, verify: string -> Verification, users: map<Id, User>): (o: Outcome)
    ensures o.Reject? ==> o.code == 401
    ensures ExtractToken(header).None? ==> o == Reject(401, "Not authorized, no token provided")
    ensures ExtractToken(header).Some? && verify(ExtractToken(header).value) == Expired
            ==> o == Reject(401, "Token has expired")
    ensures ExtractToken(header).Some? && verify(ExtractToken(header).value) == Invalid
            ==> o == Reject(401, "Not authorized, invalid token")
    ensures o.Pass? <==> ExtractToken(header).Some? && verify(ExtractToken(header).value).Verified?
                         && verify(ExtractToken(header).value).id in users
                         && users[verify(ExtractToken(header).value).id].isActive
    ensures o.Pass? ==> o.userId == verify(ExtractToken(header).value).id
                        && o.role == users[o.userId].role && o.user == View(users[o.userId])
  {
    var token := ExtractToken(header);
    if token.None? then Reject(401, "Not authorized, no token provided")
    else
      match verify(token.value)
      case Expired => Reject(401, "Token has expired")
      case Invalid => Reject(401, "Not authorized, invalid token")
      case Verified(id) =>
        if id !in users then Reject(401, "User not found")
        else if !users[id].isActive then Reject(401, "User account is inactive")
        else Pass(id, users[id].role, View(users[id]))
  }

  /** A verified token whose user is gone, or is inactive, is refused with
      401, unlike login's 403 for an inactive account. */
  lemma UnknownOrInactiveRejected(header: Option<string>, verify: string -> Verification, users: map<Id, User>)
    requires ExtractToken(header).Some? && verify(ExtractToken(header).value).Verified?
    ensures var id := verify(ExtractToken(header).value).id;
      && (id !in users ==> Authenticate(header, verify, users) == Reject(401, "User not found"))
      && (id in users && !users[id].isActive ==> Authenticate(header, verify, users) == Reject(401, "User account is inactive"))
  {
  }

  /** The fields the middleware sets on `req` for the handlers after it. */
  class RequestContext {
    var user: Option<UserView>
    var userId: Option<Id>
    var userRole: Option<Role>

    constructor()
      ensures user.None? && userId.None? && userRole.None?
    {
      user, userId, userRole := None, None, None;
    }
  }

  /** Runs the middleware on `req`: on success it records the stored user and
      answers nothing (`next()`); otherwise it answers and leaves `req` alone. */
  method Run(req: RequestContext, header: Option<string>, verify: string -> Verification, users: map<Id, User>)
    returns (reply: Option<Reply<UserView>>)
    modifies req
    ensures var o := Authenticate(header, verify, users);
      && (o.Pass? ==> reply.None? && req.user == Some(o.user) && req.userId == Some(o.userId) && req.userRole == Some(o.role))
      && (o.Reject? ==> reply == Some(Reply(o.code, o.message, None))
                        && req.user == old(req.user) && req.userId == old(req.userId) && req.userRole == old(req.userRole))
  {
    var o := Authenticate(header, verify, users);
    if o.Reject? {
      return Some(Reply(o.code, o.message, None));
    }
    req.user := Some(o.user);
    req.userId := Some(o.userId);
    req.userRole := Some(o.role);
    return None;
  }
}
