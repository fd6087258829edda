/** Accounts in controllers/authController.js: registration (with the
    worker's skills, service area and rates), login and its redirect, and
    the two token flows (password reset, email verification). Passwords
    are compared as stored; hashing is not modelled. */
module AuthController {
  import opened Common
  import opened Constants
  import opened UserModel
  import opened Store
  import opened Guards
  import opened Seqs
  import Text
  import Validation
  import WorkerController

  /** The first user in natural order satisfying a filter: `User.findOne`. */
  function FindUser(users: map<Id, User>, order: seq<Id>, p: User -> bool): (r: Option<Id>)
    requires forall i :: 0 <= i < |order| ==> order[i] in users
    ensures r.Some? ==> r.value in users && p(users[r.value])
    ensures r.Some? ==> exists k :: 0 <= k < |order| && order[k] == r.value && FirstAt(users, order, p, k)
    ensures r.None? ==> forall i :: 0 <= i < |order| ==> !p(users[order[i]])
  {
    if order == [] then None
    else if p(users[order[0]]) then Some(order[0])
    else
      var r := FindUser(users, order[1..], p);
      if r.Some? then
        var k :| 0 <= k < |order[1..]| && order[1..][k] == r.value && FirstAt(users, order[1..], p, k);
        assert order[k + 1] == r.value;
        assert FirstAt(users, order, p, k + 1) by {
          forall j | 0 <= j < k + 1
            ensures !p(users[order[j]])
          {
            if j > 0 {
              assert order[j] == order[1..][j - 1];
            }
          }
        }
        r
      else r
  }

  /** No user before position k of the order satisfies the filter. */
  predicate FirstAt(users: map<Id, User>, order: seq<Id>, p: User -> bool, k: nat)
    requires forall i :: 0 <= i < |order| ==> order[i] in users
    requires k <= |order|
  {
    forall j :: 0 <= j < k ==> !p(users[order[j]])
  }

  /** In a valid store, a lookup that finds nothing means no user at all qualifies. */
  lemma FindUserNoneMeansNobody(s: State, p: User -> bool, id: Id)
    requires ValidState(s) && id in s.users
    requires FindUser(s.users, s.userOrder, p).None?
    ensures !p(s.users[id])
  {
    var k :| 0 <= k < |s.userOrder| && s.userOrder[k] == id;
  }

  /** What a successful login or registration stores in the session. */
  function SessionFor(u: User): (su: SessionUser)
    ensures su.id == u.id && su.email == u.email && su.role == u.role
  {
    SessionUser(u.id, u.email, u.firstName, u.lastName, u.role)
  }

  // ---------------------------------------------------------------- register

  /** The fields of the registration form, already parsed where they are
      numbers. `None`: absent. `email`, `firstName` and `lastName` are the
      values after the route's sanitisers (`normalizeEmail`, `trim`), which
      rewrite the request body before the handler reads it. */
  datatype RegistrationForm = RegistrationForm(
    email: string,
    password: string,
    confirmPassword: string,
    firstName: string,
    lastName: string,
    phone: Option<string>,
    role: Option<string>,
    address: Address,
    primarySkill: Option<string>,
    experience: Option<string>,
    secondarySkills: Option<string>,
    serviceCity: Option<string>,
    serviceRadius: Option<string>,
    rates: Option<Rates>)

  /** The verification token lives for 24 hours. */
  const VerificationWindow: int := 24 * 60 * 60 * 1000

  predicate HasErrors(validationErrors: Option<seq<Validation.FieldError>>)
  {
    validationErrors.Some? && |validationErrors.value| > 0
  }

  predicate EmailTaken(users: map<Id, User>, email: string)
  {
    exists id :: id in users && users[id].email == NormalizeEmail(email)
  }

  /** `role || 'client'`. */
  function RoleField(f: RegistrationForm): (name: string)
    ensures !Truthy(f.role) ==> name == "client"
  {
    if Truthy(f.role) then f.role.value else "client"
  }

  /** The worker branch is taken on the raw field, `role === 'worker'`. */
  predicate RegistersWorker(f: RegistrationForm)
  {
    f.role == Some("worker")
  }

  /** `secondarySkills.split(',').map(trim).filter(Boolean)`, or none. */
  function SecondarySkillNames(secondary: Option<string>): (names: seq<string>)
    ensures forall i :: 0 <= i < |names| ==>
      names[i] != "" && !Text.IsSpace(names[i][0]) && !Text.IsSpace(names[i][|names[i]| - 1])
  {
    if Truthy(secondary) then
      Filter(Map(Text.Split(secondary.value, ','), Text.Trim), (name: string) => name != "")
    else []
  }

  function SecondarySkill(name: string): Skill
  {
    Skill(name, None, 0)
  }

  /** `[{ category: primarySkill, experience: parseInt(experience) || 0 }]`, or none. */
  function PrimarySkills(primary: Option<string>, experience: Option<string>): (r: seq<Skill>)
    ensures Truthy(primary) ==> r == [Skill(primary.value, None, Text.ParseIntOrZero(experience))]
    ensures !Truthy(primary) ==> r == []
  {
    if Truthy(primary) then [Skill(primary.value, None, Text.ParseIntOrZero(experience))] else []
  }

  /** The skills a registering worker starts with: the primary skill (if
      any) first, then one skill per secondary name, with 0 years. */
  function WorkerSkills(primary: Option<string>, experience: Option<string>, secondary: Option<string>): seq<Skill>
  {
    PrimarySkills(primary, experience) + Map(SecondarySkillNames(secondary), SecondarySkill)
  }

  /** The primary skill comes first, with its parsed experience; each
      secondary name follows, in the order written, with 0 years. */
  lemma WorkerSkillsLayout(primary: Option<string>, experience: Option<string>, secondary: Option<string>)
    ensures var skills := WorkerSkills(primary, experience, secondary);
      var names := SecondarySkillNames(secondary);
      var first := |PrimarySkills(primary, experience)|;
      && |skills| == first + |names|
      && (Truthy(primary) ==> first == 1 && skills[0] == Skill(primary.value, None, Text.ParseIntOrZero(experience)))
      && (!Truthy(primary) ==> first == 0)
      && forall i :: first <= i < |skills| ==> skills[i] == Skill(names[i - first], None, 0)
  {
    var skills := WorkerSkills(primary, experience, secondary);
    var names := SecondarySkillNames(secondary);
    var head := PrimarySkills(primary, experience);
    var tail := Map(names, SecondarySkill);
    assert skills == head + tail;
    forall i | |head| <= i < |skills|
      ensures skills[i] == Skill(names[i - |head|], None, 0)
    {
      assert skills[i] == tail[i - |head|];
    }
  }

  /** The handler's construction of the list: push the primary skill, then
      push each secondary skill in a `forEach`. */
  method BuildWorkerSkills(primary: Option<string>, experience: Option<string>, secondary: Option<string>)
    returns (skills: seq<Skill>)
    ensures skills == WorkerSkills(primary, experience, secondary)
  {
    var head: seq<Skill> := [];
    if Truthy(primary) {
      head := head + [Skill(primary.value, None, Text.ParseIntOrZero(experience))];
    }
    assert head == PrimarySkills(primary, experience);
    var names := SecondarySkillNames(secondary);
    skills := PushSecondarySkills(head, names);
  }

  method PushSecondarySkills(head: seq<Skill>, names: seq<string>) returns (skills: seq<Skill>)
    ensures skills == head + Map(names, SecondarySkill)
  {
    skills := head;
    var i := 0;
    while i < |names|
      invariant 0 <= i <= |names|
      invariant skills == head + Map(names[..i], SecondarySkill)
    {
      MapPrefixStep(names, i, SecondarySkill);
      skills := skills + [SecondarySkill(names[i])];
      i := i + 1;
    }
    assert names[..i] == names;
  }

  /** Registration does not keep categories unique: a primary skill named
      again among the secondary skills is listed twice. */
  lemma RegistrationMayDuplicateCategories(primary: Option<string>, experience: Option<string>, secondary: Option<string>)
    requires Truthy(primary) && primary.value in SecondarySkillNames(secondary)
    ensures !WorkerController.UniqueCategories(WorkerSkills(primary, experience, secondary))
  {
    var names := SecondarySkillNames(secondary);
    var first := Skill(primary.value, None, Text.ParseIntOrZero(experience));
    assert WorkerSkills(primary, experience, secondary) == [first] + Map(names, SecondarySkill);
    var k :| 0 <= k < |names| && names[k] == primary.value;
    FirstRepeated(first, names, k);
  }

  lemma FirstRepeated(first: Skill, names: seq<string>, k: nat)
    requires k < |names| && names[k] == first.category
    ensures !WorkerController.UniqueCategories([first] + Map(names, SecondarySkill))
  {
    var skills := [first] + Map(names, SecondarySkill);
    assert skills[k + 1] == SecondarySkill(names[k]);
    assert skills[0].category == skills[k + 1].category;
  }

  /** `[{ city: serviceCity, radius: parseInt(serviceRadius) || 10 }]`, or none. */
  function ServiceAreasOf(city: Option<string>, radius: Option<string>): (areas: seq<ServiceArea>)
    ensures Truthy(city) ==> areas == [ServiceArea(city.value, ServiceRadius(radius))]
    ensures !Truthy(city) ==> areas == []
  {
    if Truthy(city) then [ServiceArea(city.value, ServiceRadius(radius))] else []
  }

  /** A worker's address is geocoded only when street, city and state are all given. */
  predicate CanGeocode(a: Address)
  {
    Truthy(a.street) && Truthy(a.city) && Truthy(a.state)
  }

  /** The worker-only fields of `userData`: skills, service area and
      rates from the form, and the address with the coordinates the map
      service answered (None: no answer, or an error, which is swallowed).
      Other roles get none of them and their address as given. */
  function RegisteredFields(f: RegistrationForm, geocoded: Option<(real, real)>)
    : (r: (seq<Skill>, seq<ServiceArea>, Rates, Address))
    ensures !RegistersWorker(f) ==> r == ([], [], NoRates, f.address)
    ensures RegistersWorker(f) ==>
      && r.0 == WorkerSkills(f.primarySkill, f.experience, f.secondarySkills)
      && r.1 == ServiceAreasOf(f.serviceCity, f.serviceRadius)
      && r.2 == (if f.rates.Some? then f.rates.value else NoRates)
    ensures RegistersWorker(f) && CanGeocode(f.address) && geocoded.Some? ==>
      r.3 == f.address.(latitude := Some(geocoded.value.0), longitude := Some(geocoded.value.1))
    ensures !(CanGeocode(f.address) && geocoded.Some?) ==> r.3 == f.address
  {
    if !RegistersWorker(f) then ([], [], NoRates, f.address)
    else
      var address := if CanGeocode(f.address) && geocoded.Some?
                     then f.address.(latitude := Some(geocoded.value.0), longitude := Some(geocoded.value.1))
                     else f.address;
      (WorkerSkills(f.primarySkill, f.experience, f.secondarySkills),
       ServiceAreasOf(f.serviceCity, f.serviceRadius),
       if f.rates.Some? then f.rates.value else NoRates,
       address)
  }

  /** The handler's `if (role === 'worker')` block. */
  method WorkerFields(f: RegistrationForm, geocoded: Option<(real, real)>)
    returns (skills: seq<Skill>, areas: seq<ServiceArea>, rates: Rates, address: Address)
    ensures (skills, areas, rates, address) == RegisteredFields(f, geocoded)
  {
    skills, areas, rates, address := [], [], NoRates, f.address;
    if f.role == Some("worker") {
      skills := BuildWorkerSkills(f.primarySkill, f.experience, f.secondarySkills);
      areas := ServiceAreasOf(f.serviceCity, f.serviceRadius);
      rates := if f.rates.Some? then f.rates.value else NoRates;
      if CanGeocode(f.address) && geocoded.Some? {
        address := address.(latitude := Some(geocoded.value.0), longitude := Some(geocoded.value.1));
      }
    }
  }

  /** The record `new User(userData)` builds. */
  function RegisteredUser(id: Id, f: RegistrationForm, role: Role, token: string, now: Time,
                          geocoded: Option<(real, real)>): (u: User)
    ensures u.id == id && u.role == role && u.email == NormalizeEmail(f.email)
    ensures u.averageRating == 0 && u.totalEarnings == 0 && u.isActive && !u.isVerified
    ensures u.emailVerificationToken == Some(token) && u.emailVerificationExpires == Some(now + VerificationWindow)
    ensures (u.skills, u.serviceAreas, u.rates, u.address) == RegisteredFields(f, geocoded)
  {
    var r := RegisteredFields(f, geocoded);
    NewUser(id, f.email, f.password, role, f.firstName, f.lastName, f.phone, r.3, r.0, r.1, r.2,
            token, now + VerificationWindow)
  }

  /** The schema validators `save` runs on the new record: a role from the
      enumeration, a password of at least 8 characters, and a non-empty
      email and names once trimmed. */
  predicate Storable(f: RegistrationForm)
  {
    && RoleOf(RoleField(f)).Some?
    && PasswordLongEnough(f.password)
    && NormalizeEmail(f.email) != ""
    && Text.Trim(f.firstName) != ""
    && Text.Trim(f.lastName) != ""
  }

  /** The answer `register` gives without creating anything, in the order
      of its checks: validation errors, a mismatched confirmation, an email
      already registered (`findOne`), then the schema validators of `save`.
      None: the user is created. */
  function RegisterRejection(users: map<Id, User>, validationErrors: Option<seq<Validation.FieldError>>,
                             f: RegistrationForm): (r: Option<Response>)
    ensures r.None? <==>
      !HasErrors(validationErrors) && f.password == f.confirmPassword && !EmailTaken(users, f.email) && Storable(f)
    ensures HasErrors(validationErrors) || f.password != f.confirmPassword || EmailTaken(users, f.email) ==>
      r == Some(BadRequest)
    ensures r.Some? ==> r.value == BadRequest || r.value == ServerError
  {
    if HasErrors(validationErrors) then Some(BadRequest)
    else if f.password != f.confirmPassword then Some(BadRequest)
    else if EmailTaken(users, f.email) then Some(BadRequest)
    else if !Storable(f) then Some(ServerError)
    else None
  }

  /** The record `register` builds before saving it: the worker block,
      then the constructor call with a token valid for 24 hours. */
  method BuildUser(id: Id, f: RegistrationForm, role: Role, token: string, now: Time,
                   geocoded: Option<(real, real)>) returns (user: User)
    ensures user == RegisteredUser(id, f, role, token, now, geocoded)
  {
    var skills, areas, rates, address := WorkerFields(f, geocoded);
    user := NewUser(id, f.email, f.password, role, f.firstName, f.lastName, f.phone, address,
                    skills, areas, rates, token, now + VerificationWindow);
  }

  /** The end of `register`: the new record is saved and its owner logged in. */
  method SaveAndLogIn(db: Database, session: Session, user: User)
    requires db.Valid() && user.id == db.nextId && user.averageRating == 0
    requires forall id :: id in db.users ==> db.users[id].email != user.email
    modifies db, session
    ensures db.Valid() && db.Snapshot() == WithUser(old(db.Snapshot()), user)
    ensures session.user == Some(SessionFor(user)) && session.returnTo == old(session.returnTo)
  {
    db.InsertUser(user);
    session.user := Some(SessionFor(user));
  }

  /** `register`. On success the new user gets the next id, joins the end
      of the collection, and is logged in. */
  method Register(db: Database, session: Session, validationErrors: Option<seq<Validation.FieldError>>,
                  f: RegistrationForm, token: string, now: Time, geocoded: Option<(real, real)>)
    returns (resp: Response)
    requires db.Valid()
    modifies db, session
    ensures db.Valid()
    ensures RegisterRejection(old(db.users), validationErrors, f).Some? ==>
      && resp == RegisterRejection(old(db.users), validationErrors, f).value
      && db.Snapshot() == old(db.Snapshot())
      && session.user == old(session.user) && session.returnTo == old(session.returnTo)
    ensures RegisterRejection(old(db.users), validationErrors, f).None? ==>
      var u := RegisteredUser(old(db.nextId), f, RoleOf(RoleField(f)).value, token, now, geocoded);
      && resp == Ok
      && db.Snapshot() == WithUser(old(db.Snapshot()), u)
      && session.user == Some(SessionFor(u)) && session.returnTo == old(session.returnTo)
  {
    var rejection := RegisterRejection(db.users, validationErrors, f);
    if rejection.Some? {
      return rejection.value;
    }
    var user := BuildUser(db.nextId, f, RoleOf(RoleField(f)).value, token, now, geocoded);
    assert !EmailTaken(db.users, f.email);
    SaveAndLogIn(db, session, user);
    return Ok;
  }

  /** A form without a role registers a client. */
  lemma RoleDefaultsToClient(f: RegistrationForm, id: Id, token: string, now: Time, geocoded: Option<(real, real)>)
    requires !Truthy(f.role)
    ensures RoleOf(RoleField(f)) == Some(Client)
    ensures !RegistersWorker(f)
  {
  }

  /** Nothing in `register` stops a visitor from choosing the admin role. */
  lemma RegisterAcceptsAdminRole(users: map<Id, User>, f: RegistrationForm)
    requires f.role == Some("admin")
    requires f.password == f.confirmPassword && !EmailTaken(users, f.email)
    requires PasswordLongEnough(f.password) && NormalizeEmail(f.email) != ""
    requires Text.Trim(f.firstName) != "" && Text.Trim(f.lastName) != ""
    ensures RegisterRejection(users, None, f).None?
    ensures RoleOf(RoleField(f)) == Some(Admin)
  {
    assert RoleField(f) == "admin";
    assert RoleOf("admin") == Some(Admin);
    assert Storable(f);
  }

  // ------------------------------------------------------------------- login

  predicate ActiveWithEmail(u: User, email: string)
  {
    u.email == NormalizeEmail(email) && u.isActive
  }

  /** Where a successful login redirects. The handler first takes
      `session.returnTo || '/'`, then per role `returnTo || dashboard`. */
  function LoginTarget(returnTo: Option<string>, role: Role): string
  {
    var target := if Truthy(returnTo) then returnTo.value else "/";
    match role
    case Client => if target != "" then target else "/client/dashboard"
    case Worker => if target != "" then target else "/worker/dashboard"
    case Admin => if target != "" then target else "/admin/dashboard"
  }

  /** The per-role dashboards are never chosen: the target is the stored
      return address, or the home page. */
  lemma LoginTargetIgnoresRole(returnTo: Option<string>, role: Role)
    ensures LoginTarget(returnTo, role) == (if Truthy(returnTo) then returnTo.value else "/")
    ensures LoginTarget(returnTo, role) == "/worker/dashboard" ==> returnTo == Some("/worker/dashboard")
  {
  }

  /** `login`: 400 on validation errors; 401 unless an active user has the
      email and the password matches; otherwise the session holds the user,
      the stored return address is consumed and the visitor redirected.
      `email` is the value after the route's `normalizeEmail` sanitiser. */
  method Login(db: Database, session: Session, validationErrors: Option<seq<Validation.FieldError>>,
               email: string, password: string) returns (resp: Response, redirect: Option<string>)
    requires db.Valid()
    modifies session
    ensures HasErrors(validationErrors) ==> resp == BadRequest
    ensures resp == Ok <==>
      !HasErrors(validationErrors) &&
      exists id :: id in db.users && ActiveWithEmail(db.users[id], email) && db.users[id].password == password
    ensures resp != Ok ==> redirect.None? && session.user == old(session.user) && session.returnTo == old(session.returnTo)
    ensures resp == Ok ==>
      && session.user.Some? && session.user.value.id in db.users
      && var u := db.users[session.user.value.id];
      && ActiveWithEmail(u, email) && u.password == password
      && session.user == Some(SessionFor(u))
      && redirect == Some(LoginTarget(old(session.returnTo), u.role))
      && session.returnTo.None?
    ensures resp != Ok ==> resp == BadRequest || resp == Unauthorized
  {
    if validationErrors.Some? && |validationErrors.value| > 0 {
      return BadRequest, None;
    }
    var found := FindUser(db.users, db.userOrder, (u: User) => ActiveWithEmail(u, email));
    if found.None? {
      forall id | id in db.users
        ensures !ActiveWithEmail(db.users[id], email)
      {
        FindUserNoneMeansNobody(db.Snapshot(), (u: User) => ActiveWithEmail(u, email), id);
      }
      return Unauthorized, None;
    }
    var user := db.users[found.value];
    if user.password != password {
      forall id | id in db.users && ActiveWithEmail(db.users[id], email)
        ensures id == found.value
      {
      }
      return Unauthorized, None;
    }
    session.user := Some(SessionFor(user));
    var target := LoginTarget(session.returnTo, user.role);
    session.returnTo := None;
    return Ok, Some(target);
  }

  // ------------------------------------------------------------ token flows

  /** The reset token's lifetime: one hour. */
  const ResetWindow: int := 60 * 60 * 1000

  /** `forgotPassword`: the same answer whether or not the email is known;
      for a known one, a fresh reset token valid for an hour is stored,
      unless the save's validation refuses the stored availability (500).
      The route runs no sanitiser, so `email` is the raw field. */
  method ForgotPassword(db: Database, email: string, token: string, now: Time) returns (resp: Response)
    requires db.Valid()
    modifies db
    ensures db.Valid()
    ensures var found := FindUser(old(db.users), old(db.userOrder), (u: User) => u.email == NormalizeEmail(email));
      if found.None? then resp == Ok && db.Snapshot() == old(db.Snapshot())
      else if !AvailabilityValid(old(db.users)[found.value]) then resp == ServerError && db.Snapshot() == old(db.Snapshot())
      else resp == Ok && db.Snapshot() == old(db.Snapshot()).(users := old(db.users)[found.value :=
             old(db.users)[found.value].(passwordResetToken := Some(token), passwordResetExpires := Some(now + ResetWindow))])
  {
    var found := FindUser(db.users, db.userOrder, (u: User) => u.email == NormalizeEmail(email));
    if found.None? {
      return Ok;
    }
    var user := db.users[found.value];
    if !AvailabilityValid(user) {
      return ServerError;
    }
    db.SaveUser(user.(passwordResetToken := Some(token), passwordResetExpires := Some(now + ResetWindow)));
    return Ok;
  }

  /** A reset token that matches and has not yet expired. */
  predicate ResetTokenValid(u: User, token: string, now: Time)
  {
    u.passwordResetToken == Some(token) && u.passwordResetExpires.Some? && u.passwordResetExpires.value > now
  }

  /** A user whose password was reset: new password, both token fields cleared. */
  function AfterReset(u: User, password: string): (v: User)
    ensures v.password == password && v.passwordResetToken.None? && v.passwordResetExpires.None?
    ensures v.(password := u.password, passwordResetToken := u.passwordResetToken,
               passwordResetExpires := u.passwordResetExpires) == u
  {
    u.(password := password, passwordResetToken := None, passwordResetExpires := None)
  }

  /** `resetPassword`: no user with a live matching token renders the error
      page and changes nothing; a new password shorter than 8 characters,
      or a stored availability outside the enumeration, fails the save;
      otherwise the password is replaced and the token cleared. */
  method ResetPassword(db: Database, token: string, password: string, now: Time)
    returns (resp: Response, accepted: bool)
    requires db.Valid()
    modifies db
    ensures db.Valid()
    ensures var found := FindUser(old(db.users), old(db.userOrder), (u: User) => ResetTokenValid(u, token, now));
      if found.None? then resp == Ok && !accepted && db.Snapshot() == old(db.Snapshot())
      else if !PasswordLongEnough(password) || !AvailabilityValid(old(db.users)[found.value]) then resp == ServerError && !accepted && db.Snapshot() == old(db.Snapshot())
      else (resp == Ok && accepted &&
        db.Snapshot() == old(db.Snapshot()).(users := old(db.users)[found.value := AfterReset(old(db.users)[found.value], password)]))
  {
    var found := FindUser(db.users, db.userOrder, (u: User) => ResetTokenValid(u, token, now));
    if found.None? {
      return Ok, false;
    }
    var user := db.users[found.value];
    if !PasswordLongEnough(password) || !AvailabilityValid(user) {
      return ServerError, false;
    }
    db.SaveUser(AfterReset(user, password));
    return Ok, true;
  }

  /** A reset token works once for its user: after the reset the reset user
      no longer holds it, so a later lookup of the same token never finds
      them again. Tokens are not unique, so another user may still hold an
      equal string. */
  lemma ResetTokenSingleUse(s: State, id: Id, token: string, password: string, later: Time)
    requires ValidState(s) && id in s.users
    ensures var users := s.users[id := AfterReset(s.users[id], password)];
      && !ResetTokenValid(users[id], token, later)
      && FindUser(users, s.userOrder, (u: User) => ResetTokenValid(u, token, later)) != Some(id)
  {
  }

  /** A token that matches and has not yet expired. */
  predicate VerificationTokenValid(u: User, token: string, now: Time)
  {
    u.emailVerificationToken == Some(token) && u.emailVerificationExpires.Some? && u.emailVerificationExpires.value > now
  }

  function AfterVerification(u: User): (v: User)
    ensures v.isVerified && v.emailVerificationToken.None? && v.emailVerificationExpires.None?
    ensures v.(isVerified := u.isVerified, emailVerificationToken := u.emailVerificationToken,
               emailVerificationExpires := u.emailVerificationExpires) == u
  {
    u.(isVerified := true, emailVerificationToken := None, emailVerificationExpires := None)
  }

  /** `verifyEmail`: with a live matching token the user is verified and
      the token cleared, unless the save's validation refuses the stored
      availability (500); otherwise the error page, and nothing changes. */
  method VerifyEmail(db: Database, token: string, now: Time) returns (resp: Response, verified: bool)
    requires db.Valid()
    modifies db
    ensures db.Valid()
    ensures var found := FindUser(old(db.users), old(db.userOrder), (u: User) => VerificationTokenValid(u, token, now));
      if found.None? then resp == Ok && !verified && db.Snapshot() == old(db.Snapshot())
      else if !AvailabilityValid(old(db.users)[found.value]) then resp == ServerError && !verified && db.Snapshot() == old(db.Snapshot())
      else (resp == Ok && verified &&
        db.Snapshot() == old(db.Snapshot()).(users := old(db.users)[found.value := AfterVerification(old(db.users)[found.value])]))
  {
    var found := FindUser(db.users, db.userOrder, (u: User) => VerificationTokenValid(u, token, now));
    if found.None? {
      return Ok, false;
    }
    var user := db.users[found.value];
    if !AvailabilityValid(user) {
      return ServerError, false;
    }
    db.SaveUser(AfterVerification(user));
    return Ok, true;
  }

  /** A freshly registered user's token verifies their email until it
      expires 24 hours later, and not after. */
  lemma RegistrationTokenLifetime(id: Id, f: RegistrationForm, role: Role, token: string, now: Time,
                                  geocoded: Option<(real, real)>, at: Time)
    ensures VerificationTokenValid(RegisteredUser(id, f, role, token, now, geocoded), token, at)
            <==> at < now + VerificationWindow
  {
  }
}
