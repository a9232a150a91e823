/** The user schema (server/models/User.js): roles, defaults and field rules. */
module UserModel {
  import opened Common
  import opened Text

  datatype Role = Admin | Architect | Client

  function RoleName(r: Role): string
  {
    match r
    case Admin => "admin"
    case Architect => "architect"
    case Client => "client"
  }

  /** The enum check of the `role` path: the role a string names, if any. */
  function ParseRole(s: string): (r: Option<Role>)
    ensures r.Some? ==> RoleName(r.value) == s
    ensures r.None? ==> forall x: Role :: RoleName(x) != s
  {
    if s == "admin" then Some(Admin)
    else if s == "architect" then Some(Architect)
    else if s == "client" then Some(Client)
    else None
  }

  lemma ParseRoleName(r: Role)
    ensures ParseRole(RoleName(r)) == Some(r)
  {
  }

  /** A stored user. `password` holds the hash, never the plain text. */
  datatype User = User(
    name: string,
    email: string,
    phone: string,
    password: string,
    role: Role,
    profilePic: Option<string>,
    company: Option<string>,
    address: Option<string>,
    specialization: Option<string>,
    isActive: bool)

  const DefaultRole: Role := Client

  /** `new User({...})`: the schema defaults fill what the caller leaves out. */
  function NewUser(name: string, email: string, phone: string, password: string, role: Role := DefaultRole): (u: User)
    ensures u.name == name && u.email == email && u.phone == phone && u.password == password
    ensures u.role == role
    ensures u.isActive && u.profilePic.None?
    ensures u.company.None? && u.address.None? && u.specialization.None?
  {
    User(name, email, phone, password, role, None, None, None, None, true)
  }

  /** What reads see by default: `password` has `select: false`. */
  datatype UserView = UserView(
    name: string,
    email: string,
    phone: string,
    role: Role,
    profilePic: Option<string>,
    company: Option<string>,
    address: Option<string>,
    specialization: Option<string>,
    isActive: bool)

  function View(u: User): (v: UserView)
    ensures v.name == u.name && v.email == u.email && v.phone == u.phone && v.role == u.role
    ensures v.isActive == u.isActive && v.profilePic == u.profilePic
    ensures v.company == u.company && v.address == u.address && v.specialization == u.specialization
  {
    UserView(u.name, u.email, u.phone, u.role, u.profilePic, u.company, u.address, u.specialization, u.isActive)
  }

  /** A character of `/^[\d\s\-\+\(\)]+$/`. */
  predicate PhoneChar(c: char)
  {
    '0' <= c <= '9' || IsSpace(c) || c == '-' || c == '+' || c == '(' || c == ')'
  }

  predicate TrimmedOpt(o: Option<string>)
  {
    o.None? || Trimmed(o.value)
  }

  /** The schema's rules for one user. The e-mail pattern of the schema is
      taken as the parameter `emailPattern`. */
  predicate Valid(u: User, emailPattern: string -> bool)
  {
    && Trimmed(u.name) && 3 <= |u.name| <= 50
    && u.email != [] && Lower(u.email) == u.email && emailPattern(u.email)
    && u.phone != [] && (forall k :: 0 <= k < |u.phone| ==> PhoneChar(u.phone[k]))
    && |u.password| >= 6
    && TrimmedOpt(u.company) && TrimmedOpt(u.address) && TrimmedOpt(u.specialization)
  }

  /** The unique index on `email`. */
  ghost predicate EmailsUnique(users: map<Id, User>)
  {
    forall a, b :: a in users && b in users && users[a].email == users[b].email ==> a == b
  }

  /** Adding a user whose e-mail is not yet taken keeps the e-mails unique. */
  lemma {:induction false} AddKeepsEmailsUnique(users: map<Id, User>, id: Id, u: User)
    requires EmailsUnique(users)
    requires id !in users
    requires forall x :: x in users ==> users[x].email != u.email
    ensures EmailsUnique(users[id := u])
  {
    var m := users[id := u];
    forall a, b | a in m && b in m && m[a].email == m[b].email
      ensures a == b
    {
      if a != id && b != id {
        assert users[a].email == users[b].email;
      }
    }
  }

  /** Replacing a user by one with the same e-mail keeps the e-mails unique. */
  lemma {:induction false} ReplaceKeepsEmailsUnique(users: map<Id, User>, id: Id, u: User)
    requires EmailsUnique(users)
    requires id in users && users[id].email == u.email
    ensures EmailsUnique(users[id := u])
  {
    var m := users[id := u];
    forall a, b | a in m && b in m && m[a].email == m[b].email
      ensures a == b
    {
      assert users[a].email == users[b].email;
    }
  }
}
