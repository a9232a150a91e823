/** The account handlers (server/controllers/authController.js) over an
    in-memory user store. Password hashing and token signing are the
    function parameters `hash` and `sign`; `compare(p, h)` is `hash(p) == h`. */
module Auth {
  import opened Common
  import opened UserModel
  import Validators

  const AdminCode: string := "ADMIN123"

  /** The fields of `req.body` that register reads. */
  datatype RegisterRequest = RegisterRequest(
    name: Option<string>,
    email: Option<string>,
    phone: Option<string>,
    password: Option<string>,
    role: Option<string>,
    adminCode: Option<string>)

  /** `role === 'admin' || !role`: the requests that must carry the admin code. */
  predicate NeedsAdminCode(role: Option<string>)
  {
    role == Some("admin") || !Truthy(role)
  }

  /** `role || 'admin'` checked against the role enum at save time. */
  function RequestedRole(role: Option<string>): (r: Option<Role>)
    ensures !Truthy(role) ==> r == Some(Admin)
    ensures Truthy(role) ==> r == ParseRole(role.value)
  {
    if Truthy(role) then ParseRole(role.value) else Some(Admin)
  }

  /** Every request that ends up with the admin role is one that must carry the code. */
  lemma AdminRoleNeedsCode(role: Option<string>)
    requires RequestedRole(role) == Some(Admin)
    ensures NeedsAdminCode(role)
  {
  }

  function Data(req: RegisterRequest): Validators.UserData
  {
    Validators.UserData(req.name, req.email, req.phone, req.password)
  }

  /** The user a form creates; the stored password is the hash. */
  function Account(d: Validators.UserData, role: Role, hash: string -> string): (u: User)
    requires d.name.Some? && d.email.Some? && d.phone.Some? && d.password.Some?
    ensures u.password == hash(d.password.value) && u.role == role && u.isActive
    ensures u.email == d.email.value && u.name == d.name.value && u.phone == d.phone.value
  {
    NewUser(d.name.value, d.email.value, d.phone.value, hash(d.password.value), role)
  }

  /** Is `email` already the e-mail of a stored user? */
  predicate Taken(users: map<Id, User>, email: string)
  {
    exists id :: id in users && users[id].email == email
  }

  /** The fields of `req.body` that updateProfile writes; `None` is an absent key. */
  datatype ProfilePatch = ProfilePatch(
    name: Option<string>,
    phone: Option<string>,
    company: Option<string>,
    address: Option<string>,
    specialization: Option<string>,
    profilePic: Option<string>)

  /** updateProfile's update: the six profile fields, never role, e-mail,
      password or activity. */
  function ApplyProfile(u: User, p: ProfilePatch): (r: User)
    ensures r.role == u.role && r.email == u.email && r.password == u.password && r.isActive == u.isActive
    ensures p.name.Some? ==> r.name == p.name.value
    ensures p.name.None? ==> r.name == u.name
    ensures p.phone.Some? ==> r.phone == p.phone.value
    ensures p.phone.None? ==> r.phone == u.phone
    ensures p.company.Some? ==> r.company == p.company
    ensures p.company.None? ==> r.company == u.company
    ensures p.address.Some? ==> r.address == p.address
    ensures p.address.None? ==> r.address == u.address
    ensures p.specialization.Some? ==> r.specialization == p.specialization
    ensures p.specialization.None? ==> r.specialization == u.specialization
    ensures p.profilePic.Some? ==> r.profilePic == p.profilePic
    ensures p.profilePic.None? ==> r.profilePic == u.profilePic
    ensures (p.name.None? && p.phone.None? && p.company.None? && p.address.None?
             && p.specialization.None? && p.profilePic.None?) ==> r == u
  {
    u.(name := if p.name.Some? then p.name.value else u.name,
       phone := if p.phone.Some? then p.phone.value else u.phone,
       company := if p.company.Some? then p.company else u.company,
       address := if p.address.Some? then p.address else u.address,
       specialization := if p.specialization.Some? then p.specialization else u.specialization,
       profilePic := if p.profilePic.Some? then p.profilePic else u.profilePic)
  }

  /** A reply of the account handlers: the validator's errors on a 400, the
      stored user without its password and the token where the handler gives them. */
  datatype AuthReply = AuthReply(code: nat, message: string, errors: seq<string>, user: Option<UserView>, token: Option<string>)

  function Fail(code: nat, message: string): AuthReply
  {
    AuthReply(code, message, [], None, None)
  }

  class AuthController {
    var users: map<Id, User>
    const hash: string -> string
    const sign: Id -> string

    /** The unique index on `email`. */
    ghost predicate Valid()
      reads this
    {
      EmailsUnique(users)
    }

    constructor(hash: string -> string, sign: Id -> string)
      ensures users == map[] && this.hash == hash && this.sign == sign && Valid()
    {
      users := map[];
      this.hash := hash;
      this.sign := sign;
    }

    /** The steps register, addArchitect and addClient share: 400 with the
        validator's errors, 409 for a taken e-mail, 500 when the role is not a
        role, otherwise the new account under `newId`. */
    method Admit(d: Validators.UserData, role: Option<Role>, newId: Id, created: string, failed: string)
      returns (r: AuthReply)
      requires Valid() && newId !in users
      modifies this
      ensures Valid()
      ensures !Validators.AcceptsUser(d)
              ==> r == AuthReply(400, "Validation error", Validators.Failures(Validators.UserChecks(d)), None, None)
      ensures Validators.AcceptsUser(d) && Taken(old(users), d.email.value)
              ==> r == Fail(409, "User with this email already exists")
      ensures Validators.AcceptsUser(d) && !Taken(old(users), d.email.value) && role.None?
              ==> r == Fail(500, failed)
      ensures r.code == 201 <==> Validators.AcceptsUser(d) && !Taken(old(users), d.email.value) && role.Some?
      ensures r.code == 201 ==> users == old(users)[newId := Account(d, role.value, hash)]
                                && r.user == Some(View(users[newId])) && r.message == created && r.token.None?
      ensures r.code != 201 ==> users == old(users)
    {
      var validation := Validators.ValidateUserRegistration(d);
      Validators.UserRegistrationErrors(d);
      if !validation.isValid {
        return AuthReply(400, "Validation error", validation.errors, None, None);
      }
      var email := d.email.value;
      if exists id :: id in users && users[id].email == email {
        return Fail(409, "User with this email already exists");
      }
      if role.None? {
        return Fail(500, failed);
      }
      var u := Account(d, role.value, hash);
      AddKeepsEmailsUnique(users, newId, u);
      users := users[newId := u];
      return AuthReply(201, created, [], Some(View(u)), None);
    }

    /** register: the admin-code gate comes before anything else; a new
        account also gets a token. */
    method Register(req: RegisterRequest, newId: Id) returns (r: AuthReply)
      requires Valid() && newId !in users
      modifies this
      ensures Valid()
      ensures NeedsAdminCode(req.role) && !Truthy(req.adminCode)
              ==> r == Fail(400, "Admin code is required") && users == old(users)
      ensures NeedsAdminCode(req.role) && Truthy(req.adminCode) && req.adminCode.value != AdminCode
              ==> r == Fail(400, "Invalid admin code") && users == old(users)
      ensures r.code == 201 ==> (NeedsAdminCode(req.role) ==> req.adminCode == Some(AdminCode))
      ensures r.code == 201 ==> RequestedRole(req.role).Some? && Validators.AcceptsUser(Data(req))
                                && users == old(users)[newId := Account(Data(req), RequestedRole(req.role).value, hash)]
                                && r.token == Some(sign(newId)) && r.user == Some(View(users[newId]))
      ensures r.code == 201 && users[newId].role == Admin ==> req.adminCode == Some(AdminCode)
      ensures r.code != 201 ==> users == old(users) && r.token.None?
      ensures !NeedsAdminCode(req.role) || req.adminCode == Some(AdminCode) ==>
                var d := Data(req);
                && (!Validators.AcceptsUser(d) ==> r.code == 400 && r.errors == Validators.Failures(Validators.UserChecks(d)))
                && (Validators.AcceptsUser(d) && Taken(old(users), d.email.value) ==> r.code == 409)
                && (Validators.AcceptsUser(d) && !Taken(old(users), d.email.value) ==>
                      && (r.code == 201 <==> RequestedRole(req.role).Some?)
                      && (RequestedRole(req.role).None? ==> r == Fail(500, "Registration failed")))
    {
      if req.role == Some("admin") || !Truthy(req.role) {
        if !Truthy(req.adminCode) {
          return Fail(400, "Admin code is required");
        }
        if req.adminCode.value != AdminCode {
          return Fail(400, "Invalid admin code");
        }
      }
      var role := if Truthy(req.role) then ParseRole(req.role.value) else Some(Admin);
      r := Admit(Data(req), role, newId, "User registered successfully", "Registration failed");
      if r.code == 201 {
        r := r.(token := Some(sign(newId)));
        if users[newId].role == Admin {
          AdminRoleNeedsCode(req.role);
        }
      }
    }

    /** login: 400 without both fields; the same 401 for an unknown e-mail and a
        wrong password; an inactive account is refused (403) before the
        password is looked at; a token only on success. */
    method Login(email: Option<string>, password: Option<string>) returns (r: AuthReply)
      requires Valid()
      ensures !Truthy(email) || !Truthy(password) ==> r == Fail(400, "Email and password are required")
      ensures Truthy(email) && Truthy(password) && !Taken(users, email.value)
              ==> r == Fail(401, "Invalid email or password")
      ensures Truthy(email) && Truthy(password) ==> forall id :: id in users && users[id].email == email.value ==>
                && (!users[id].isActive ==> r == Fail(403, "Account is inactive"))
                && (users[id].isActive && users[id].password != hash(password.value) ==> r == Fail(401, "Invalid email or password"))
                && (users[id].isActive && users[id].password == hash(password.value) ==>
                      r == AuthReply(200, "Login successful", [], Some(View(users[id])), Some(sign(id))))
      ensures r.token.Some? <==> r.code == 200
    {
      if !Truthy(email) || !Truthy(password) {
        return Fail(400, "Email and password are required");
      }
      if !exists id :: id in users && users[id].email == email.value {
        return Fail(401, "Invalid email or password");
      }
      var id :| id in users && users[id].email == email.value;
      var u := users[id];
      if !u.isActive {
        return Fail(403, "Account is inactive");
      }
      if hash(password.value) != u.password {
        return Fail(401, "Invalid email or password");
      }
      return AuthReply(200, "Login successful", [], Some(View(u)), Some(sign(id)));
    }

    /** getProfile: the caller's stored user without the password. */
    method GetProfile(callerId: Id) returns (r: Reply<UserView>)
      ensures callerId !in users ==> r == Reply(404, "User not found", None)
      ensures callerId in users ==> r.code == 200 && r.data == Some(View(users[callerId]))
    {
      if callerId !in users {
        return Reply(404, "User not found", None);
      }
      return Reply(200, "", Some(View(users[callerId])));
    }

    /** updateProfile: only the six profile fields of the caller change. */
    method UpdateProfile(callerId: Id, p: ProfilePatch) returns (r: Reply<UserView>)
      requires Valid()
      modifies this
      ensures Valid()
      ensures callerId !in old(users) ==> r == Reply(404, "User not found", None) && users == old(users)
      ensures callerId in old(users) ==>
                (r.code == 200 && r.message == "Profile updated successfully"
                 && users == old(users)[callerId := ApplyProfile(old(users)[callerId], p)]
                 && r.data == Some(View(users[callerId])))
    {
      if callerId !in users {
        return Reply(404, "User not found", None);
      }
      var u := ApplyProfile(users[callerId], p);
      ReplaceKeepsEmailsUnique(users, callerId, u);
      users := users[callerId := u];
      return Reply(200, "Profile updated successfully", Some(View(u)));
    }

    /** changePassword: the three form checks come before the current password
        is checked; success replaces only the stored hash. A caller id with no
        stored user makes the handler throw, which answers 500. */
    method ChangePassword(callerId: Id, current: Option<string>, next: Option<string>, confirm: Option<string>)
      returns (r: Reply<UserView>)
      requires Valid()
      modifies this
      ensures Valid()
      ensures !Truthy(current) || !Truthy(next) || !Truthy(confirm) ==> r == Reply(400, "All password fields are required", None)
      ensures Truthy(current) && Truthy(next) && Truthy(confirm) && next != confirm
              ==> r == Reply(400, "New password and confirm password do not match", None)
      ensures Truthy(current) && Truthy(next) && next == confirm && |next.value| < 6
              ==> r == Reply(400, "Password must be at least 6 characters", None)
      ensures r.code == 400 <==> !Truthy(current) || !Truthy(next) || !Truthy(confirm) || next != confirm || |next.value| < 6
      ensures r.code != 400 && callerId !in old(users) ==> r == Reply(500, "Failed to change password", None)
      ensures r.code != 400 && callerId in old(users) && hash(current.value) != old(users)[callerId].password
              ==> r == Reply(401, "Current password is incorrect", None)
      ensures r.code == 200 <==> r.code != 400 && callerId in old(users) && hash(current.value) == old(users)[callerId].password
      ensures r.code == 200 ==>
                (r.message == "Password changed successfully"
                 && users == old(users)[callerId := old(users)[callerId].(password := hash(next.value))])
      ensures r.code != 200 ==> users == old(users)
    {
      if !Truthy(current) || !Truthy(next) || !Truthy(confirm) {
        return Reply(400, "All password fields are required", None);
      }
      if next.value != confirm.value {
        return Reply(400, "New password and confirm password do not match", None);
      }
      if |next.value| < 6 {
        return Reply(400, "Password must be at least 6 characters", None);
      }
      if callerId !in users {
        return Reply(500, "Failed to change password", None);
      }
      var u := users[callerId];
      if hash(current.value) != u.password {
        return Reply(401, "Current password is incorrect", None);
      }
      var changed := u.(password := hash(next.value));
      ReplaceKeepsEmailsUnique(users, callerId, changed);
      users := users[callerId := changed];
      return Reply(200, "Password changed successfully", None);
    }

    /** logout: the server keeps no session, so it only answers. */
    method Logout() returns (r: Reply<UserView>)
      ensures r == Reply(200, "Logout successful", None)
    {
      return Reply(200, "Logout successful", None);
    }

    /** addArchitect: a caller who is not an admin is refused before any
        validation; the new account is an architect whatever the body says. */
    method AddArchitect(callerRole: Role, d: Validators.UserData, newId: Id) returns (r: AuthReply)
      requires Valid() && newId !in users
      modifies this
      ensures Valid()
      ensures callerRole != Admin ==> r == Fail(403, "Only admins can create architect accounts") && users == old(users)
      ensures r.code == 201 ==> callerRole == Admin && Validators.AcceptsUser(d) && users == old(users)[newId := Account(d, Architect, hash)]
      ensures r.code == 201 ==> users[newId].role == Architect && r.token.None?
      ensures callerRole == Admin ==>
                && (!Validators.AcceptsUser(d) ==> r.code == 400)
                && (Validators.AcceptsUser(d) ==> (r.code == 201 <==> !Taken(old(users), d.email.value)))
      ensures r.code != 201 ==> users == old(users)
    {
      if callerRole != Admin {
        return Fail(403, "Only admins can create architect accounts");
      }
      r := Admit(d, Some(Architect), newId, "Architect account created successfully", "Failed to create architect account");
    }

    /** getArchitects: admins only; every stored architect. */
    method GetArchitects(callerRole: Role) returns (r: Reply<set<Id>>)
      ensures callerRole != Admin ==> r == Reply(403, "Only admins can view architects", None)
      ensures callerRole == Admin ==>
                (r.code == 200 && r.data == Some(set id | id in users && users[id].role == Architect))
    {
      if callerRole != Admin {
        return Reply(403, "Only admins can view architects", None);
      }
      return Reply(200, "", Some(set id | id in users && users[id].role == Architect));
    }

    /** addClient: architects only, so an admin is refused too; the new
        account is a client. */
    method AddClient(callerRole: Role, d: Validators.UserData, newId: Id) returns (r: AuthReply)
      requires Valid() && newId !in users
      modifies this
      ensures Valid()
      ensures callerRole != Architect ==> r == Fail(403, "Only architects can create client accounts") && users == old(users)
      ensures r.code == 201 ==> callerRole == Architect && Validators.AcceptsUser(d) && users == old(users)[newId := Account(d, Client, hash)]
      ensures r.code == 201 ==> users[newId].role == Client && r.token.None?
      ensures callerRole == Architect ==>
                && (!Validators.AcceptsUser(d) ==> r.code == 400)
                && (Validators.AcceptsUser(d) ==> (r.code == 201 <==> !Taken(old(users), d.email.value)))
      ensures r.code != 201 ==> users == old(users)
    {
      if callerRole != Architect {
        return Fail(403, "Only architects can create client accounts");
      }
      r := Admit(d, Some(Client), newId, "Client account created successfully", "Failed to create client account");
    }
  }

  /** Login succeeds for at most one account: the e-mails are unique. */
  lemma LoginAccountUnique(users: map<Id, User>, email: string, a: Id, b: Id)
    requires EmailsUnique(users)
    requires a in users && b in users && users[a].email == email && users[b].email == email
    ensures a == b
  {
  }
}
