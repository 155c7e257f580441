/**
 * The five modelled routes as pure transitions of the tables: each takes
 * the tables before the request and gives the tables after it together
 * with the response. The `Server` class runs the same steps in place.
 */
module Handlers {
  import opened Wrappers
  import opened Crypto
  import opened Auth
  import opened Tables

  /** The JSON body of `POST /api/register`. */
  datatype RegisterForm = RegisterForm(name: string, email: string, password: string, role: string, phone: string)

  /** The JSON body of `POST /api/opportunities`; `kind` is the `type` field. */
  datatype OpportunityForm = OpportunityForm(
    title: string, description: string, kind: string, location: string,
    date: string, duration: string, volunteersNeeded: string)

  /** The `user` object of a register or login response: every column but the password hash. */
  datatype PublicUser = PublicUser(id: int, name: string, email: string, role: string, phone: string)

  /** The body of a successful register or login: `{ token, user }`. */
  datatype Session = Session(token: string, user: PublicUser)

  /** The tables after a request and the response to it. */
  datatype Step<T> = Step(tables: Db, response: Result<T>)

  /** The body of a successful `POST /api/opportunities`: `{ id, message }`. */
  datatype Created = Created(id: int, message: string)

  const Applied := "Application submitted successfully"
  const CreatedMessage := "Opportunity created successfully"

  function Public(u: User): PublicUser
  {
    PublicUser(u.id, u.name, u.email, u.role, u.phone)
  }

  function ClaimsOf(u: User): Claims
  {
    Claims(u.id, u.email, u.role)
  }

  /** The response register and login give for a stored row. */
  function SessionFor(k: Primitives, u: User): Session
  {
    Session(k.sign(ClaimsOf(u)), Public(u))
  }

  ghost predicate EmailTaken(users: seq<User>, email: string)
  {
    exists i :: 0 <= i < |users| && users[i].email == email
  }

  ghost predicate HasApplied(applications: seq<Application>, userId: int, opportunityId: int)
  {
    exists i :: 0 <= i < |applications| &&
      applications[i].userId == userId && applications[i].opportunityId == opportunityId
  }

  /**
   * `POST /api/register`. A taken email is refused and nothing changes;
   * otherwise exactly one users row is appended, plus one organizations
   * row exactly when the role is `organization`.
   */
  function Register(t: Db, k: Primitives, form: RegisterForm, salt: nat): (s: Step<Session>)
    ensures s.response.Err? <==> EmailTaken(t.users, form.email)
    ensures s.response.Err? ==> s.response.failure == UserExists && s.tables == t
    ensures s.response.Ok? ==>
      && |s.tables.users| == |t.users| + 1
      && s.tables.users[..|t.users|] == t.users
      && var u := s.tables.users[|t.users|];
      && u.id == t.nextUserId && s.tables.nextUserId == t.nextUserId + 1
      && u.name == form.name && u.email == form.email && u.role == form.role && u.phone == form.phone
      && u.password == k.hash(form.password, salt)
      && s.response.value == SessionFor(k, u)
      && s.tables.opportunities == t.opportunities && s.tables.applications == t.applications
      && s.tables.nextOpportunityId == t.nextOpportunityId
      && s.tables.nextApplicationId == t.nextApplicationId
      && (form.role == OrganizationRole <==> |s.tables.organizations| == |t.organizations| + 1)
      && (form.role == OrganizationRole ==>
            && s.tables.organizations == t.organizations + [Organization(t.nextOrganizationId, u.id, form.name)]
            && s.tables.nextOrganizationId == t.nextOrganizationId + 1)
      && (form.role != OrganizationRole ==>
            s.tables.organizations == t.organizations && s.tables.nextOrganizationId == t.nextOrganizationId)
  {
    match UserWithEmail(t.users, form.email)
    case Some(_) => Step(t, Err(UserExists))
    case None =>
      var u := User(t.nextUserId, form.name, form.email, k.hash(form.password, salt), form.role, form.phone);
      var withUser := t.(users := t.users + [u], nextUserId := t.nextUserId + 1);
      var after :=
        if form.role == OrganizationRole then
          withUser.(organizations := t.organizations + [Organization(t.nextOrganizationId, u.id, form.name)],
                    nextOrganizationId := t.nextOrganizationId + 1)
        else withUser;
      Step(after, Ok(SessionFor(k, u)))
  }

  /**
   * `POST /api/login`. Every failure is the same 400 "Invalid credentials",
   * and a success is the session of a row whose email matches and whose
   * hash accepts the password. Login never changes the tables.
   */
  function Login(t: Db, k: Primitives, email: string, password: string): (r: Result<Session>)
    ensures r.Err? ==> r.failure == InvalidCredentials
    ensures r.Ok? ==> exists i ::
              && 0 <= i < |t.users| && t.users[i].email == email
              && k.compare(password, t.users[i].password) && r.value == SessionFor(k, t.users[i])
    ensures !EmailTaken(t.users, email) ==> r.Err?
  {
    match UserWithEmail(t.users, email)
    case None => Err(InvalidCredentials)
    case Some(i) =>
      var u := t.users[i];
      if k.compare(password, u.password) then Ok(SessionFor(k, u)) else Err(InvalidCredentials)
  }

  /**
   * `GET /api/me`: the authentication failure, or the public columns of
   * the row whose id is the token's, or 404 when there is none.
   */
  function Me(t: Db, k: Primitives, header: Option<string>): (r: Result<PublicUser>)
    ensures Authenticate(k, header).Err? ==> r == Err(Authenticate(k, header).failure)
    ensures Authenticate(k, header).Ok? ==>
      var c := Authenticate(k, header).value;
      && (r.Ok? ==> exists i :: 0 <= i < |t.users| && t.users[i].id == c.id && r.value == Public(t.users[i]))
      && (r.Err? <==> forall i :: 0 <= i < |t.users| ==> t.users[i].id != c.id)
      && (r.Err? ==> r.failure == UserNotFound)
  {
    match Authenticate(k, header)
    case Err(f) => Err(f)
    case Ok(c) =>
      match UserWithId(t.users, c.id)
      case None => Err(UserNotFound)
      case Some(i) => Ok(Public(t.users[i]))
  }

  /**
   * `POST /api/opportunities`. Refused for a failed authentication and
   * for any role but `organization`, leaving the tables as they were;
   * otherwise exactly one row is appended, owned by the caller's id from
   * the token, and its new id is returned with the success message.
   */
  function CreateOpportunity(t: Db, k: Primitives, header: Option<string>, form: OpportunityForm): (s: Step<Created>)
    ensures Authenticate(k, header).Err? ==> s == Step(t, Err(Authenticate(k, header).failure))
    ensures Authenticate(k, header).Ok? && Authenticate(k, header).value.role != OrganizationRole ==>
      s == Step(t, Err(OrganizationsOnly))
    ensures s.response.Ok? <==> Authenticate(k, header).Ok? && Authenticate(k, header).value.role == OrganizationRole
    ensures s.response.Ok? ==>
      && |s.tables.opportunities| == |t.opportunities| + 1
      && s.tables.opportunities[..|t.opportunities|] == t.opportunities
      && var o := s.tables.opportunities[|t.opportunities|];
      && s.response.value == Created(o.id, CreatedMessage)
      && o.id == t.nextOpportunityId
      && o.orgId == Authenticate(k, header).value.id
      && o.title == form.title && o.description == form.description && o.kind == form.kind
      && o.location == form.location && o.date == form.date && o.duration == form.duration
      && o.volunteersNeeded == form.volunteersNeeded
      && s.tables == t.(opportunities := s.tables.opportunities, nextOpportunityId := t.nextOpportunityId + 1)
  {
    match Authenticate(k, header)
    case Err(f) => Step(t, Err(f))
    case Ok(c) =>
      if c.role != OrganizationRole then Step(t, Err(OrganizationsOnly))
      else
        var o := Opportunity(t.nextOpportunityId, c.id, form.title, form.description, form.kind,
                             form.location, form.date, form.duration, form.volunteersNeeded);
        Step(t.(opportunities := t.opportunities + [o], nextOpportunityId := t.nextOpportunityId + 1),
             Ok(Created(o.id, CreatedMessage)))
  }

  /**
   * The guards of `POST /api/applications`, in the order the handler
   * runs them: the role, then the opportunity, then an earlier application.
   */
  function ApplyCheck(t: Db, c: Claims, opportunityId: int): (f: Option<Failure>)
    ensures c.role != VolunteerRole ==> f == Some(VolunteersOnly)
    ensures c.role == VolunteerRole && !HasOpportunity(t.opportunities, opportunityId) ==>
      f == Some(OpportunityNotFound)
    ensures (&& c.role == VolunteerRole && HasOpportunity(t.opportunities, opportunityId)
             && HasApplied(t.applications, c.id, opportunityId)) ==> f == Some(AlreadyApplied)
    ensures f.None? <==> (&& c.role == VolunteerRole && HasOpportunity(t.opportunities, opportunityId)
                          && !HasApplied(t.applications, c.id, opportunityId))
  {
    if c.role != VolunteerRole then Some(VolunteersOnly)
    else if OpportunityWithId(t.opportunities, opportunityId).None? then Some(OpportunityNotFound)
    else if ApplicationOf(t.applications, c.id, opportunityId).Some? then Some(AlreadyApplied)
    else None
  }

  /**
   * `POST /api/applications`. Only a request that passes authentication
   * and every guard changes the tables, by appending exactly one pending
   * application of the caller to the opportunity.
   */
  function Apply(t: Db, k: Primitives, header: Option<string>, opportunityId: int): (s: Step<string>)
    ensures Authenticate(k, header).Err? ==> s == Step(t, Err(Authenticate(k, header).failure))
    ensures Authenticate(k, header).Ok? && ApplyCheck(t, Authenticate(k, header).value, opportunityId).Some? ==>
      s == Step(t, Err(ApplyCheck(t, Authenticate(k, header).value, opportunityId).value))
    ensures s.response.Ok? <==>
      Authenticate(k, header).Ok? && ApplyCheck(t, Authenticate(k, header).value, opportunityId).None?
    ensures s.response.Ok? ==>
      && s.response.value == Applied
      && s.tables == t.(applications := t.applications + [Application(t.nextApplicationId,
                          Authenticate(k, header).value.id, opportunityId, Pending)],
                        nextApplicationId := t.nextApplicationId + 1)
  {
    match Authenticate(k, header)
    case Err(f) => Step(t, Err(f))
    case Ok(c) =>
      match ApplyCheck(t, c, opportunityId)
      case Some(f) => Step(t, Err(f))
      case None =>
        var a := Application(t.nextApplicationId, c.id, opportunityId, Pending);
        Step(t.(applications := t.applications + [a], nextApplicationId := t.nextApplicationId + 1), Ok(Applied))
  }
}
