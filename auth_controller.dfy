/** The account handlers: registration, login, profile and password changes,
    and the administrator's role and status updates, over a table of
    accounts. Password hashing and comparison are the parameter `check`
    (`check(stored, candidate)` is what `comparePassword` answers); a signed
    token is represented by the user id and role it carries; ids and the
    clock are parameters. */
module AuthController {
  import opened Js
  import opened Http

  datatype Account = Account(
    id: string,
    username: string,
    email: string,
    password: string,
    role: string,
    isActive: bool,
    lastLogin: Option<int>,
    updatedAt: int)

  /** What a reply shows of an account (never the password). */
  datatype Profile = Profile(id: string, username: string, email: string, role: string, isActive: bool)

  /** The claims a signed token carries. */
  datatype Token = Token(userId: string, role: string)

  datatype Session = Session(user: Profile, token: Token)

  function ProfileOf(a: Account): (p: Profile)
    ensures p.id == a.id && p.email == a.email && p.role == a.role
  {
    Profile(a.id, a.username, a.email, a.role, a.isActive)
  }

  function SessionOf(a: Account): (s: Session)
    ensures s.token.userId == s.user.id == a.id && s.token.role == s.user.role == a.role
  {
    Session(ProfileOf(a), Token(a.id, a.role))
  }

  /** The index of the account with id `id`, if any. */
  function IndexOfId(accounts: seq<Account>, id: string): (r: Option<nat>)
    ensures r.Some? ==> r.value < |accounts| && accounts[r.value].id == id
    ensures r.None? ==> forall i | 0 <= i < |accounts| :: accounts[i].id != id
  {
    FindIndex(accounts, (a: Account) => a.id == id)
  }

  /** `User.findByEmail(email)`: the first account stored under the
      lower-cased e-mail. */
  function IndexOfEmail(accounts: seq<Account>, email: string): (r: Option<nat>)
    ensures r.Some? ==> r.value < |accounts| && accounts[r.value].email == Lower(email)
    ensures r.None? ==> forall i | 0 <= i < |accounts| :: accounts[i].email != Lower(email)
  {
    FindIndex(accounts, (a: Account) => a.email == Lower(email))
  }

  /** `User.findOne({$or: [{email}, {username}]})`: the first account that
      has the e-mail key or the user name. */
  function FirstConflict(accounts: seq<Account>, username: string, key: string): (r: Option<Account>)
    ensures r.None? <==> forall i | 0 <= i < |accounts| :: accounts[i].email != key && accounts[i].username != username
    ensures r.Some? ==> exists i | 0 <= i < |accounts| ::
              accounts[i] == r.value && (r.value.email == key || r.value.username == username)
              && forall j | 0 <= j < i :: accounts[j].email != key && accounts[j].username != username
  {
    match FindIndex(accounts, (a: Account) => a.email == key || a.username == username)
    case None => None
    case Some(k) => Some(accounts[k])
  }

  /** The refusal message names the e-mail when the account found holds it,
      and the user name otherwise. */
  function ConflictMessage(existing: Account, key: string): (m: string)
    ensures m == "Email already registered" <==> existing.email == key
    ensures m != "Email already registered" ==> m == "Username already taken"
  {
    if existing.email == key then "Email already registered" else "Username already taken"
  }

  /** Only the first matching account decides the message: a request whose
      user name belongs to one account and whose e-mail belongs to a later
      one is told only that the user name is taken. */
  lemma ConflictReportsFirstMatchOnly(first: Account, second: Account, username: string, key: string)
    requires first.username == username && first.email != key && second.email == key
    ensures FirstConflict([first, second], username, key) == Some(first)
    ensures ConflictMessage(FirstConflict([first, second], username, key).value, key) == "Username already taken"
  {
    assert [first, second][0] == first;
  }

  /** The outcome of the three login checks, in their order. */
  datatype LoginVerdict = UnknownEmail | Deactivated | WrongPassword | Granted

  function LoginCheck(found: Option<Account>, password: string, check: (string, string) -> bool): (v: LoginVerdict)
    ensures v == Granted <==> found.Some? && found.value.isActive && check(found.value.password, password)
    ensures v == UnknownEmail <==> found.None?
    ensures v == Deactivated <==> found.Some? && !found.value.isActive
  {
    if found.None? then UnknownEmail
    else if !found.value.isActive then Deactivated
    else if !check(found.value.password, password) then WrongPassword
    else Granted
  }

  /** The refusal a verdict gives. */
  function LoginRefusal(v: LoginVerdict): string
    requires v != Granted
  {
    if v == Deactivated then "Account is deactivated" else "Invalid email or password"
  }

  /** A deactivated account is refused before its password is looked at:
      every password gets the same answer. */
  lemma DeactivatedIgnoresPassword(a: Account, p1: string, p2: string, check: (string, string) -> bool)
    requires !a.isActive
    ensures LoginCheck(Some(a), p1, check) == LoginCheck(Some(a), p2, check) == Deactivated
  {
  }

  /** An unknown e-mail and a wrong password are refused with the same
      message, so the reply does not tell which it was. */
  lemma LoginRefusalsAlike(a: Account, password: string, check: (string, string) -> bool)
    requires a.isActive && !check(a.password, password)
    ensures LoginRefusal(LoginCheck(Some(a), password, check)) == LoginRefusal(LoginCheck(None, password, check))
  {
  }

  /** `['user', 'admin'].includes(role)`. */
  predicate IsRole(role: Value)
    ensures IsRole(role) ==> role.Str? && role.s != ""
  {
    role == Str("user") || role == Str("admin")
  }

  /** The accounts other than `userId` that hold e-mail `key`. */
  predicate EmailTakenByOther(accounts: seq<Account>, userId: string, key: string)
  {
    exists i | 0 <= i < |accounts| :: accounts[i].email == key && accounts[i].id != userId
  }

  predicate UsernameTakenByOther(accounts: seq<Account>, userId: string, username: string)
  {
    exists i | 0 <= i < |accounts| :: accounts[i].username == username && accounts[i].id != userId
  }

  /** The account after a profile update: only the fields supplied change,
      and the e-mail is stored lower-cased. */
  function UpdatedProfile(a: Account, username: Option<string>, email: Option<string>, now: int): (b: Account)
    ensures b.username == (if Given(username) then username.value else a.username)
    ensures b.email == (if Given(email) then Lower(email.value) else a.email)
    ensures b.updatedAt == now
    ensures b.(username := a.username, email := a.email, updatedAt := a.updatedAt) == a
  {
    a.(username := if Given(username) then username.value else a.username,
       email := if Given(email) then Lower(email.value) else a.email,
       updatedAt := now)
  }

  /** The user collection. */
  class UserTable {
    var accounts: seq<Account>

    /** Ids, e-mails and user names are unique, and e-mails are stored in
        lower case. */
    ghost predicate Valid()
      reads this
    {
      && (forall i, j | 0 <= i < j < |accounts| ::
            accounts[i].id != accounts[j].id && accounts[i].email != accounts[j].email
            && accounts[i].username != accounts[j].username)
      && (forall i | 0 <= i < |accounts| :: Lower(accounts[i].email) == accounts[i].email)
    }

    constructor ()
      ensures Valid() && accounts == []
    {
      accounts := [];
    }

    /** register. An absent e-mail cannot be lower-cased and fails; an
        account holding the e-mail or the user name refuses the request;
        otherwise the account is added with the e-mail lower-cased and the
        role defaulting to 'user'. `newId` is the id the store assigns. */
    method Register(username: string, email: Option<string>, password: string, role: Option<string>,
                    newId: string, now: int)
      returns (r: Reply<Session>)
      requires Valid()
      requires forall i | 0 <= i < |accounts| :: accounts[i].id != newId
      modifies this
      ensures Valid()
      ensures email.None? ==> r == Err(500, "Registration failed") && accounts == old(accounts)
      ensures email.Some? ==>
                var key := Lower(email.value);
                match FirstConflict(old(accounts), username, key)
                case Some(existing) =>
                  r == Err(400, ConflictMessage(existing, key)) && accounts == old(accounts)
                case None =>
                  var created := Account(newId, username, key, password,
                                         if Given(role) then role.value else "user", true, None, now);
                  && accounts == old(accounts) + [created]
                  && r == Ok(201, "User registered successfully", SessionOf(created))
    {
      if email.None? {
        return Err(500, "Registration failed");
      }
      var key := Lower(email.value);
      var existing := FirstConflict(accounts, username, key);
      if existing.Some? {
        return Err(400, ConflictMessage(existing.value, key));
      }
      var created := Account(newId, username, key, password,
                             if Given(role) then role.value else "user", true, None, now);
      LowerIdempotent(email.value);
      accounts := accounts + [created];
      r := Ok(201, "User registered successfully", SessionOf(created));
    }

    /** login: unknown e-mail, deactivated account and wrong password are
        refused in that order; only a granted login records `lastLogin`. */
    method Login(email: string, password: string, now: int, check: (string, string) -> bool)
      returns (r: Reply<Session>)
      requires Valid()
      modifies this
      ensures Valid()
      ensures var k := IndexOfEmail(old(accounts), email);
              var v := LoginCheck(if k.Some? then Some(old(accounts)[k.value]) else None, password, check);
              if v == Granted then
                var signedIn := old(accounts)[k.value].(lastLogin := Some(now));
                && accounts == old(accounts)[k.value := signedIn]
                && r == Ok(200, "Login successful", SessionOf(signedIn))
              else
                accounts == old(accounts) && r == Err(401, LoginRefusal(v))
    {
      var k := IndexOfEmail(accounts, email);
      if k.None? {
        return Err(401, "Invalid email or password");
      }
      var a := accounts[k.value];
      if !a.isActive {
        return Err(401, "Account is deactivated");
      }
      if !check(a.password, password) {
        return Err(401, "Invalid email or password");
      }
      var signedIn := a.(lastLogin := Some(now));
      accounts := accounts[k.value := signedIn];
      r := Ok(200, "Login successful", SessionOf(signedIn));
    }

    /** updateProfile: an e-mail held by another account is refused before a
        user name held by another account; a missing account fails when its
        profile is read; otherwise only the supplied fields change. */
    method UpdateProfile(userId: string, username: Option<string>, email: Option<string>, now: int)
      returns (r: Reply<Profile>)
      requires Valid()
      modifies this
      ensures Valid()
      ensures Given(email) && EmailTakenByOther(old(accounts), userId, Lower(email.value))
              ==> r == Err(400, "Email already registered")
      ensures !(Given(email) && EmailTakenByOther(old(accounts), userId, Lower(email.value))) ==>
                if Given(username) && UsernameTakenByOther(old(accounts), userId, username.value) then
                  r == Err(400, "Username already taken")
                else
                  match IndexOfId(old(accounts), userId)
                  case None => r == Err(500, "Failed to update profile")
                  case Some(k) =>
                    var b := UpdatedProfile(old(accounts)[k], username, email, now);
                    accounts == old(accounts)[k := b] && r == Ok(200, "Profile updated successfully", ProfileOf(b))
      ensures r.Err? ==> accounts == old(accounts)
    {
      if Given(email) && EmailTakenByOther(accounts, userId, Lower(email.value)) {
        return Err(400, "Email already registered");
      }
      if Given(username) && UsernameTakenByOther(accounts, userId, username.value) {
        return Err(400, "Username already taken");
      }
      var k := IndexOfId(accounts, userId);
      if k.None? {
        return Err(500, "Failed to update profile");
      }
      var b := UpdatedProfile(accounts[k.value], username, email, now);
      if Given(email) {
        LowerIdempotent(email.value);
      }
      accounts := accounts[k.value := b];
      r := Ok(200, "Profile updated successfully", ProfileOf(b));
    }

    /** changePassword: the stored password changes only when the current
        one checks out. */
    method ChangePassword(userId: string, currentPassword: string, newPassword: string,
                          check: (string, string) -> bool)
      returns (r: Reply<()>)
      requires Valid()
      modifies this
      ensures Valid()
      ensures match IndexOfId(old(accounts), userId)
              case None => r == Err(404, "User not found") && accounts == old(accounts)
              case Some(k) =>
                if !check(old(accounts)[k].password, currentPassword) then
                  r == Err(400, "Current password is incorrect") && accounts == old(accounts)
                else
                  r == Ok(200, "Password changed successfully", ())
                  && accounts == old(accounts)[k := old(accounts)[k].(password := newPassword)]
    {
      var k := IndexOfId(accounts, userId);
      if k.None? {
        return Err(404, "User not found");
      }
      if !check(accounts[k.value].password, currentPassword) {
        return Err(400, "Current password is incorrect");
      }
      accounts := accounts[k.value := accounts[k.value].(password := newPassword)];
      r := Ok(200, "Password changed successfully", ());
    }

    /** updateUserRole: the role is validated before the account is looked
        up. */
    method UpdateUserRole(userId: string, role: Value, now: int) returns (r: Reply<Profile>)
      requires Valid()
      modifies this
      ensures Valid()
      ensures !IsRole(role) ==> r == Err(400, "Invalid role. Must be \"user\" or \"admin\"") && accounts == old(accounts)
      ensures IsRole(role) ==>
                match IndexOfId(old(accounts), userId)
                case None => r == Err(404, "User not found") && accounts == old(accounts)
                case Some(k) =>
                  var b := old(accounts)[k].(role := role.s, updatedAt := now);
                  accounts == old(accounts)[k := b] && r == Ok(200, "User role updated successfully", ProfileOf(b))
    {
      if !IsRole(role) {
        return Err(400, "Invalid role. Must be \"user\" or \"admin\"");
      }
      var k := IndexOfId(accounts, userId);
      if k.None? {
        return Err(404, "User not found");
      }
      var b := accounts[k.value].(role := role.s, updatedAt := now);
      accounts := accounts[k.value := b];
      r := Ok(200, "User role updated successfully", ProfileOf(b));
    }

    /** toggleUserStatus. */
    method ToggleUserStatus(userId: string, isActive: bool, now: int) returns (r: Reply<Profile>)
      requires Valid()
      modifies this
      ensures Valid()
      ensures match IndexOfId(old(accounts), userId)
              case None => r == Err(404, "User not found") && accounts == old(accounts)
              case Some(k) =>
                var b := old(accounts)[k].(isActive := isActive, updatedAt := now);
                && accounts == old(accounts)[k := b]
                && r == Ok(200, if isActive then "User activated successfully" else "User deactivated successfully",
                           ProfileOf(b))
    {
      var k := IndexOfId(accounts, userId);
      if k.None? {
        return Err(404, "User not found");
      }
      var b := accounts[k.value].(isActive := isActive, updatedAt := now);
      accounts := accounts[k.value := b];
      r := Ok(200, if isActive then "User activated successfully" else "User deactivated successfully",
              ProfileOf(b));
    }
  }

  /** After a registration of a fresh e-mail and user name, logging in with
      that e-mail in any letter case (`typed`, and the all-capitals spelling
      in particular) finds the new account. */
  lemma RegisteredCanBeFound(accounts: seq<Account>, created: Account, email: string, typed: string)
    requires created.email == Lower(email)
    requires forall i | 0 <= i < |accounts| :: accounts[i].email != Lower(email)
    requires Lower(typed) == Lower(email)
    ensures IndexOfEmail(accounts + [created], typed) == Some(|accounts|)
    ensures IndexOfEmail(accounts + [created], Upper(email)) == Some(|accounts|)
  {
    assert Lower(Upper(email)) == Lower(email) by {
      forall i | 0 <= i < |email| ensures LowerChar(UpperChar(email[i])) == LowerChar(email[i]) {
      }
    }
    assert (accounts + [created])[|accounts|] == created;
  }
}
