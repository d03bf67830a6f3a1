/** The Express server's decision rules: the role gate, the login and
    register handlers and the two token middlewares. The database is a
    sequence of employees; `jwt.sign`/`jwt.verify` are the parameters `sign`
    and `verify`. */
module Server {
  import opened Js

  /** An `Employee` document. */
  datatype Employee = Employee(id: string, name: string, email: string, password: string, role: string)

  /** The payload of a signed token: `{ id, name, role }`. */
  datatype Claims = Claims(id: string, name: string, role: string)

  // ---------------------------------------------------------------------
  // checkUserRole

  const AccessDenied := "Access denied. Insufficient permissions."

  datatype Gate = Next | Forbidden(status: int, message: string)

  /** `checkUserRole(requiredRoles)`: the request goes on exactly when a user
      is attached to it and that user's role is one of the required roles;
      otherwise the reply is 403. */
  function CheckUserRole(requiredRoles: seq<string>, user: Option<Employee>): (g: Gate)
    ensures g.Next? <==> user.Some? && user.value.role in requiredRoles
    ensures g.Forbidden? ==> g == Forbidden(403, AccessDenied)
  {
    if user.Some? && user.value.role in requiredRoles then Next
    else Forbidden(403, AccessDenied)
  }

  /** The roles `/admin-dashboard` admits. */
  const AdminRoles: seq<string> := ["admin", "superadmin"]

  lemma AdminDashboardGate(user: Option<Employee>)
    ensures CheckUserRole(AdminRoles, user).Next?
            <==> user.Some? && (user.value.role == "admin" || user.value.role == "superadmin")
  {
  }

  // ---------------------------------------------------------------------
  // POST /login

  const WrongPassword := "The password is incorrect"
  const NoRecord := "No record existed"

  /** `res.json({ token })` or `res.json("<text>")`. */
  datatype LoginReply = TokenReply(token: string) | TextReply(text: string)

  /** `EmployeeModel.findOne({ email })`: the position of the first
      employee, in stored order, with this email, looking from `from` on. */
  function FindByEmail(users: seq<Employee>, email: string, from: nat := 0): (r: Option<nat>)
    requires from <= |users|
    ensures r.Some? ==> from <= r.value < |users| && users[r.value].email == email
    ensures r.Some? ==> forall j :: from <= j < r.value ==> users[j].email != email
    ensures r.None? ==> forall j :: from <= j < |users| ==> users[j].email != email
    decreases |users| - from
  {
    if from == |users| then None
    else if users[from].email == email then Some(from)
    else FindByEmail(users, email, from + 1)
  }

  function ClaimsOf(u: Employee): Claims {
    Claims(u.id, u.name, u.role)
  }

  function Login(users: seq<Employee>, email: string, password: string, sign: Claims -> string): (r: LoginReply)
    ensures r.TokenReply? || r == TextReply(NoRecord) || r == TextReply(WrongPassword)
    ensures r.TokenReply? ==>
              exists u :: u in users && u.email == email && u.password == password && r.token == sign(ClaimsOf(u))
    ensures r == TextReply(NoRecord) <==> forall u :: u in users ==> u.email != email
  {
    match FindByEmail(users, email)
    case None => TextReply(NoRecord)
    case Some(i) =>
      var u := users[i];
      if u.password == password then TokenReply(sign(ClaimsOf(u))) else TextReply(WrongPassword)
  }

  /** No two employees share an email. */
  predicate EmailsUnique(users: seq<Employee>) {
    forall i, j :: 0 <= i < j < |users| ==> users[i].email != users[j].email
  }

  /** With unique emails, login issues a token carrying the employee's id,
      name and role exactly when an employee has this email and this
      password; a known email with another password gets "The password is
      incorrect", an unknown email "No record existed". */
  lemma LoginDecision(users: seq<Employee>, email: string, password: string, sign: Claims -> string)
    requires EmailsUnique(users)
    ensures (exists u :: u in users && u.email == email && u.password == password)
            <==> Login(users, email, password, sign).TokenReply?
    ensures forall u :: (u in users && u.email == email && u.password == password
                         ==> Login(users, email, password, sign) == TokenReply(sign(ClaimsOf(u))))
    ensures (forall u :: u in users ==> u.email != email)
            ==> Login(users, email, password, sign) == TextReply(NoRecord)
    ensures (exists u :: u in users && u.email == email) && !(exists u :: u in users && u.email == email && u.password == password)
            ==> Login(users, email, password, sign) == TextReply(WrongPassword)
  {
    var r := FindByEmail(users, email);
    if r.Some? {
      var i := r.value;
      forall u | u in users && u.email == email ensures u == users[i] {
        var k :| 0 <= k < |users| && users[k] == u;
        assert k == i;
      }
    } else {
      forall u | u in users ensures u.email != email {
        var k :| 0 <= k < |users| && users[k] == u;
      }
    }
  }

  // ---------------------------------------------------------------------
  // POST /register

  /** The body of a register request; `role` is `None` when absent. */
  datatype RegisterBody = RegisterBody(name: string, email: string, password: string, role: Option<string>)

  /** `const { name, email, password, role = "user" } = req.body`: the
      destructuring default applies only when `role` is absent. `id` is the
      identifier the database assigns. */
  function Register(body: RegisterBody, id: string): (e: Employee)
    ensures e.name == body.name && e.email == body.email && e.password == body.password && e.id == id
    ensures body.role.None? ==> e.role == "user"
    ensures body.role.Some? ==> e.role == body.role.value
  {
    Employee(id, body.name, body.email, body.password, if body.role.Some? then body.role.value else "user")
  }

  /** Somebody who registers without a role cannot open the admin
      dashboard. */
  lemma RegisteredWithoutRoleIsNotAdmin(body: RegisterBody, id: string)
    requires body.role.None?
    ensures CheckUserRole(AdminRoles, Some(Register(body, id))) == Forbidden(403, AccessDenied)
  {
  }

  // ---------------------------------------------------------------------
  // authenticateToken and authMiddleware

  datatype AuthOutcome = Proceed(user: Claims) | Reject(status: int, message: string)

  /** `authenticateToken`: the token is the second space-separated part of
      the Authorization header; no header, no second part or an empty one
      gives 401, a token that does not verify gives 403. */
  function AuthenticateToken(header: Option<string>, verify: string -> Option<Claims>): (r: AuthOutcome)
    ensures r.Reject? ==> r == Reject(401, "Unauthorized") || r == Reject(403, "Forbidden")
    ensures r.Proceed? || r == Reject(403, "Forbidden") ==>
              header.Some? && |Split(header.value, ' ')| >= 2 && Split(header.value, ' ')[1] != ""
    ensures r.Proceed? ==> verify(Split(header.value, ' ')[1]) == Some(r.user)
    ensures r == Reject(403, "Forbidden") ==> verify(Split(header.value, ' ')[1]).None?
  {
    if header.None? || header.value == "" then Reject(401, "Unauthorized")
    else
      var parts := Split(header.value, ' ');
      if |parts| < 2 || parts[1] == "" then Reject(401, "Unauthorized")
      else if verify(parts[1]).None? then Reject(403, "Forbidden")
      else Proceed(verify(parts[1]).value)
  }

  /** A well-formed `Bearer <token>` header is judged by the token alone. */
  lemma AuthenticateBearer(token: string, verify: string -> Option<Claims>)
    requires token != "" && ' ' !in token
    ensures AuthenticateToken(Some("Bearer " + token), verify)
            == if verify(token).Some? then Proceed(verify(token).value) else Reject(403, "Forbidden")
  {
    SplitJoin(["Bearer", token], ' ');
    assert Join(["Bearer", token], [' ']) == "Bearer " + token;
  }

  /** A header without a space, such as a bare token, is refused with 401. */
  lemma AuthenticateWithoutScheme(header: string, verify: string -> Option<Claims>)
    requires ' ' !in header
    ensures AuthenticateToken(Some(header), verify) == Reject(401, "Unauthorized")
  {
    SplitJoin([header], ' ');
    assert Join([header], [' ']) == header;
  }

  const TokenRequired := "Authentication token required"
  const InvalidToken := "Invalid token"

  /** `authMiddleware`: the first occurrence of `"Bearer "` is removed from
      the header. A missing header throws, which Express answers with 500;
      an empty token gives 401 "Authentication token required" and a token
      that does not verify 401 "Invalid token". */
  function AuthMiddleware(header: Option<string>, verify: string -> Option<Claims>): (r: AuthOutcome)
    ensures r == Reject(500, "Internal Server Error") <==> header.None?
    ensures r.Reject? && header.Some? ==> r == Reject(401, TokenRequired) || r == Reject(401, InvalidToken)
    ensures r.Proceed? ==> header.Some? && verify(ReplaceFirst(header.value, "Bearer ", "")) == Some(r.user)
  {
    if header.None? then Reject(500, "Internal Server Error")
    else
      var token := ReplaceFirst(header.value, "Bearer ", "");
      if token == "" then Reject(401, TokenRequired)
      else if verify(token).None? then Reject(401, InvalidToken)
      else Proceed(verify(token).value)
  }

  lemma AuthMiddlewareBearer(token: string, verify: string -> Option<Claims>)
    ensures AuthMiddleware(Some("Bearer " + token), verify)
            == if token == "" then Reject(401, TokenRequired)
               else if verify(token).None? then Reject(401, InvalidToken)
               else Proceed(verify(token).value)
  {
    ReplaceFirstAtStart("Bearer ", token);
  }

  /** A header that does not contain `"Bearer "` is taken whole as the
      token. */
  lemma AuthMiddlewareRawToken(header: string, verify: string -> Option<Claims>)
    requires forall k :: !OccursAt(header, "Bearer ", k)
    requires header != ""
    ensures AuthMiddleware(Some(header), verify)
            == if verify(header).None? then Reject(401, InvalidToken) else Proceed(verify(header).value)
  {
  }
}
