/** The client's login screen: `parseJwt` and the navigation decision in
    `handleSubmit`. `atob`, `decodeURIComponent` and `JSON.parse` together
    are the parameter `decode` (a `Decoder`), which gives `None` when any of
    them throws. */
module Login {
  import opened Js
  import Server

  type Decoder = string -> Option<Server.Claims>

  // ---------------------------------------------------------------------
  // parseJwt

  /** `.replace(/-/g, '+').replace(/_/g, '/')` on one character. */
  function FromUrlChar(c: char): char {
    if c == '-' then '+' else if c == '_' then '/' else c
  }

  /** The base64url alphabet back to the base64 one: `-` becomes `+`, `_`
      becomes `/`, every other character and the length stay. */
  function Base64UrlToBase64(s: string): (r: string)
    ensures |r| == |s|
    ensures '-' !in r && '_' !in r
    ensures forall i :: 0 <= i < |s| && s[i] == '-' ==> r[i] == '+'
    ensures forall i :: 0 <= i < |s| && s[i] == '_' ==> r[i] == '/'
    ensures forall i :: 0 <= i < |s| && s[i] != '-' && s[i] != '_' ==> r[i] == s[i]
  {
    seq(|s|, i requires 0 <= i < |s| => FromUrlChar(s[i]))
  }

  /** The mapping a token issuer applies to turn base64 into base64url. */
  function Base64ToBase64Url(s: string): string {
    seq(|s|, i requires 0 <= i < |s| => if s[i] == '+' then '-' else if s[i] == '/' then '_' else s[i])
  }

  /** For text in the base64url alphabet (no `+`, no `/`), the mapping is
      undone by the issuer's one: no two payloads are confused. */
  lemma Base64UrlRoundTrip(s: string)
    requires '+' !in s && '/' !in s
    ensures Base64ToBase64Url(Base64UrlToBase64(s)) == s
  {
  }

  /** `token.split('.')[1]` decoded; a token without a second segment makes
      `.replace` throw, and the result is `null`. */
  function ParseJwt(token: string, decode: Decoder): Option<Server.Claims> {
    var parts := Split(token, '.');
    if |parts| < 2 then None else decode(Base64UrlToBase64(parts[1]))
  }

  /** Of a `header.payload.signature` token only the payload is decoded. */
  lemma ParseJwtPayload(header: string, payload: string, signature: string, decode: Decoder)
    requires '.' !in header && '.' !in payload && '.' !in signature
    ensures ParseJwt(header + "." + payload + "." + signature, decode) == decode(Base64UrlToBase64(payload))
  {
    var parts := [header, payload, signature];
    SplitJoin(parts, '.');
    assert Join(parts, ".") == header + "." + payload + "." + signature by {
      assert Join(parts[2..], ".") == signature;
      assert Join(parts[1..], ".") == payload + "." + signature;
    }
  }

  /** A token without a dot never decodes. */
  lemma ParseJwtNoDot(token: string, decode: Decoder)
    requires '.' !in token
    ensures ParseJwt(token, decode).None?
  {
    SplitJoin([token], '.');
    assert Join([token], ".") == token;
  }

  /** The user name the test screens take from the stored token (their
      `decodeToken`, the same code as `parseJwt`): empty when there is no
      token or it does not decode. */
  function TokenName(token: Option<string>, decode: Decoder): string {
    if token.None? then ""
    else
      var claims := ParseJwt(token.value, decode);
      if claims.None? then "" else claims.value.name
  }

  // ---------------------------------------------------------------------
  // handleSubmit

  /** `result.data` of the login request: a JSON text, or an object that
      may carry `token` and `message`. */
  datatype LoginData = JsonText(text: string) | JsonObject(token: Option<string>, message: Option<string>)

  /** What the handler does, in order. */
  datatype Effect = StoreToken(token: string) | Navigate(path: string) | Alert(message: string)

  const NotRegistered := "You are not registered to this service"
  const LoginFailed := "An error occurred during login."

  predicate IsAdminRole(claims: Option<Server.Claims>) {
    claims.Some? && (claims.value.role == "admin" || claims.value.role == "superadmin")
  }

  /** `reply` is `None` when the request itself fails. */
  function HandleSubmit(reply: Option<LoginData>, decode: Decoder): (effects: seq<Effect>)
    ensures |effects| >= 1
    ensures reply.None? ==> effects == [Alert(LoginFailed)]
    ensures reply.Some? ==> |effects| == 2 && (effects[0].Navigate? || effects[1].Navigate?)
    ensures effects[0].StoreToken?
            <==> reply.Some? && reply.value.JsonObject? && reply.value.token.Some? && reply.value.token.value != ""
    ensures forall k :: 1 <= k < |effects| ==> !effects[k].StoreToken?
  {
    if reply.None? then [Alert(LoginFailed)]
    else match reply.value
      case JsonText(_) => [Navigate("/register"), Alert(NotRegistered)]
      case JsonObject(token, message) =>
        if token.Some? && token.value != "" then
          [StoreToken(token.value),
           Navigate(if IsAdminRole(ParseJwt(token.value, decode)) then "/admin-dashboard" else "/home")]
        else
          [Navigate("/register"),
           Alert(if message.Some? && message.value != "" then message.value else NotRegistered)]
  }

  /** A reply with a token stores it first and then navigates: to
      `/admin-dashboard` exactly when the decoded role is `admin` or
      `superadmin`, to `/home` for any other role or an undecodable token. */
  lemma TokenReplyNavigation(token: string, message: Option<string>, decode: Decoder)
    requires token != ""
    ensures var effects := HandleSubmit(Some(JsonObject(Some(token), message)), decode);
            |effects| == 2 && effects[0] == StoreToken(token) && effects[1].Navigate?
            && (effects[1].path == "/admin-dashboard" <==> IsAdminRole(ParseJwt(token, decode)))
            && (effects[1].path != "/admin-dashboard" ==> effects[1].path == "/home")
  {
  }

  /** Without a token the user is sent to `/register` and nothing is
      stored. */
  lemma NoTokenGoesToRegister(data: LoginData, decode: Decoder)
    requires data.JsonText? || data.token.None? || data.token.value == ""
    ensures HandleSubmit(Some(data), decode)[0] == Navigate("/register")
    ensures forall e :: e in HandleSubmit(Some(data), decode) ==> !e.StoreToken?
  {
  }

  /** What the client receives for a server reply: `{ token }`, or the bare
      JSON string. */
  function Received(reply: Server.LoginReply): LoginData {
    match reply
    case TokenReply(t) => JsonObject(Some(t), None)
    case TextReply(s) => JsonText(s)
  }

  /** Both refusals of the server (a wrong password, an unknown email) send
      the user to `/register` with the fallback alert, since a string reply
      has no `message`. */
  lemma RefusedLoginGoesToRegister(users: seq<Server.Employee>, email: string, password: string,
                                   sign: Server.Claims -> string, decode: Decoder)
    requires Server.Login(users, email, password, sign).TextReply?
    ensures HandleSubmit(Some(Received(Server.Login(users, email, password, sign))), decode)
            == [Navigate("/register"), Alert(NotRegistered)]
  {
  }

  /** When the tokens the server signs decode back to their claims, an
      admin who logs in with the right password reaches the dashboard. */
  lemma AdminLoginReachesDashboard(users: seq<Server.Employee>, i: nat, sign: Server.Claims -> string, decode: Decoder)
    requires Server.EmailsUnique(users)
    requires i < |users| && users[i].role == "admin"
    requires forall c :: sign(c) != "" && ParseJwt(sign(c), decode) == Some(c)
    ensures HandleSubmit(Some(Received(Server.Login(users, users[i].email, users[i].password, sign))), decode)
            == [StoreToken(sign(Server.ClaimsOf(users[i]))), Navigate("/admin-dashboard")]
  {
    Server.LoginDecision(users, users[i].email, users[i].password, sign);
    assert users[i] in users;
  }
}
