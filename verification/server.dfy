/**
 * The server's in-memory store: the four tables as sequence fields and
 * one auto-increment counter per table. Each request handler checks its
 * guards, then appends rows and advances counters in place, and is
 * proved to follow the transition of the same name in `Handlers`.
 */
module Server {
  import opened Wrappers
  import opened Crypto
  import opened Tables
  import Auth
  import Handlers
  import Properties

  class Store {
    /** bcrypt and jsonwebtoken, closed over the server's fixed secret. */
    const crypto: Primitives

    var users: seq<User>
    var organizations: seq<Organization>
    var opportunities: seq<Opportunity>
    var applications: seq<Application>
    var nextUserId: int
    var nextOrganizationId: int
    var nextOpportunityId: int
    var nextApplicationId: int

    /** The tables as a value. */
    function State(): Db
      reads this
    {
      Db(users, organizations, opportunities, applications,
             nextUserId, nextOrganizationId, nextOpportunityId, nextApplicationId)
    }

    ghost predicate Valid()
      reads this
    {
      Consistent(State())
    }

    constructor (k: Primitives)
      ensures Valid() && State() == Empty && crypto == k
    {
      crypto := k;
      users, organizations, opportunities, applications := [], [], [], [];
      nextUserId, nextOrganizationId, nextOpportunityId, nextApplicationId := 1, 1, 1, 1;
      EmptyConsistent();
    }

    /** `POST /api/register`; `salt` stands for the random salt bcrypt draws. */
    method Register(form: Handlers.RegisterForm, salt: nat) returns (r: Result<Handlers.Session>)
      requires Valid()
      modifies this
      ensures Valid()
      ensures Handlers.Step(State(), r) == Handlers.Register(old(State()), crypto, form, salt)
    {
      ghost var before := State();
      var existing := UserWithEmail(users, form.email);
      if existing.Some? {
        return Err(UserExists);
      }
      var hashed := crypto.hash(form.password, salt);
      var id := nextUserId;
      users := users + [User(id, form.name, form.email, hashed, form.role, form.phone)];
      nextUserId := nextUserId + 1;
      if form.role == OrganizationRole {
        organizations := organizations + [Organization(nextOrganizationId, id, form.name)];
        nextOrganizationId := nextOrganizationId + 1;
      }
      var token := crypto.sign(Claims(id, form.email, form.role));
      r := Ok(Handlers.Session(token, Handlers.PublicUser(id, form.name, form.email, form.role, form.phone)));
      Properties.RegisterPreservesConsistency(before, crypto, form, salt);
    }

    /** `POST /api/login`: reads the users table only. */
    method Login(email: string, password: string) returns (r: Result<Handlers.Session>)
      ensures r == Handlers.Login(State(), crypto, email, password)
    {
      var found := UserWithEmail(users, email);
      if found.None? {
        return Err(InvalidCredentials);
      }
      var u := users[found.value];
      var valid := crypto.compare(password, u.password);
      if !valid {
        return Err(InvalidCredentials);
      }
      var token := crypto.sign(Claims(u.id, u.email, u.role));
      r := Ok(Handlers.Session(token, Handlers.PublicUser(u.id, u.name, u.email, u.role, u.phone)));
    }

    /** `GET /api/me`, behind `authenticateToken`. */
    method Me(header: Option<string>) returns (r: Result<Handlers.PublicUser>)
      ensures r == Handlers.Me(State(), crypto, header)
    {
      var auth := Auth.Authenticate(crypto, header);
      if auth.Err? {
        return Err(auth.failure);
      }
      var found := UserWithId(users, auth.value.id);
      if found.None? {
        return Err(UserNotFound);
      }
      r := Ok(Handlers.Public(users[found.value]));
    }

    /** `POST /api/opportunities`, behind `authenticateToken`. */
    method CreateOpportunity(header: Option<string>, form: Handlers.OpportunityForm) returns (r: Result<Handlers.Created>)
      requires Valid()
      modifies this
      ensures Valid()
      ensures Handlers.Step(State(), r) == Handlers.CreateOpportunity(old(State()), crypto, header, form)
    {
      ghost var before := State();
      var auth := Auth.Authenticate(crypto, header);
      if auth.Err? {
        return Err(auth.failure);
      }
      var caller := auth.value;
      if caller.role != OrganizationRole {
        return Err(OrganizationsOnly);
      }
      var id := nextOpportunityId;
      opportunities := opportunities + [Opportunity(id, caller.id, form.title, form.description, form.kind,
                                                    form.location, form.date, form.duration, form.volunteersNeeded)];
      nextOpportunityId := nextOpportunityId + 1;
      r := Ok(Handlers.Created(id, Handlers.CreatedMessage));
      Properties.CreateOpportunityPreservesConsistency(before, crypto, header, form);
    }

    /** `POST /api/applications`, behind `authenticateToken`. */
    method Apply(header: Option<string>, opportunityId: int) returns (r: Result<string>)
      requires Valid()
      modifies this
      ensures Valid()
      ensures Handlers.Step(State(), r) == Handlers.Apply(old(State()), crypto, header, opportunityId)
    {
      ghost var before := State();
      var auth := Auth.Authenticate(crypto, header);
      if auth.Err? {
        return Err(auth.failure);
      }
      var caller := auth.value;
      if caller.role != VolunteerRole {
        return Err(VolunteersOnly);
      }
      var opportunity := OpportunityWithId(opportunities, opportunityId);
      if opportunity.None? {
        return Err(OpportunityNotFound);
      }
      var existing := ApplicationOf(applications, caller.id, opportunityId);
      if existing.Some? {
        return Err(AlreadyApplied);
      }
      applications := applications + [Application(nextApplicationId, caller.id, opportunityId, Pending)];
      nextApplicationId := nextApplicationId + 1;
      r := Ok(Handlers.Applied);
      Properties.ApplyPreservesConsistency(before, crypto, header, opportunityId);
    }
  }

  /** A volunteer, Ann, registers on a fresh store and gets back a working bearer header. */
  method RegisterAnn(k: Primitives) returns (store: Store, ann: string)
    requires Sound(k)
    ensures fresh(store) && store.Valid() && store.crypto == k
    ensures store.users == [User(1, "Ann", "ann@x.com", k.hash("pw123", 0), VolunteerRole, "")]
    ensures store.opportunities == [] && store.applications == []
    ensures store.nextUserId == 2 && store.nextOpportunityId == 1 && store.nextApplicationId == 1
    ensures Auth.Authenticate(k, Some(ann)) == Ok(Claims(1, "ann@x.com", VolunteerRole))
  {
    store := new Store(k);
    var a := store.Register(Handlers.RegisterForm("Ann", "ann@x.com", "pw123", VolunteerRole, ""), 0);
    assert a.Ok?;
    ann := "Bearer " + a.value.token;
    Auth.SignedTokenAuthenticates(k, "Bearer", Claims(1, "ann@x.com", VolunteerRole));
    assert ann == "Bearer" + " " + k.sign(Claims(1, "ann@x.com", VolunteerRole));
  }

  /**
   * After Ann, an organization, Helpers, registers; each gets back a
   * bearer header that authenticates as itself.
   */
  method RegisterAnnAndHelpers(k: Primitives) returns (store: Store, ann: string, helpers: string)
    requires Sound(k)
    ensures fresh(store) && store.Valid() && store.crypto == k
    ensures store.opportunities == [] && store.applications == []
    ensures store.nextOpportunityId == 1 && store.nextApplicationId == 1
    ensures Auth.Authenticate(k, Some(ann)) == Ok(Claims(1, "ann@x.com", VolunteerRole))
    ensures Auth.Authenticate(k, Some(helpers)) == Ok(Claims(2, "helpers@x.com", OrganizationRole))
  {
    store, ann := RegisterAnn(k);
    var h := store.Register(Handlers.RegisterForm("Helpers", "helpers@x.com", "pw456", OrganizationRole, ""), 1);
    assert h.Ok?;
    helpers := "Bearer " + h.value.token;
    Auth.SignedTokenAuthenticates(k, "Bearer", Claims(2, "helpers@x.com", OrganizationRole));
    assert helpers == "Bearer" + " " + k.sign(Claims(2, "helpers@x.com", OrganizationRole));
  }

  /**
   * Helpers posts "Park Cleanup", Ann applies to it, and Ann applying a
   * second time is refused as a duplicate.
   */
  method VolunteerScenario(k: Primitives) returns (posted: Result<Handlers.Created>, first: Result<string>, second: Result<string>)
    requires Sound(k)
    ensures posted == Ok(Handlers.Created(1, Handlers.CreatedMessage))
    ensures first == Ok(Handlers.Applied)
    ensures second == Err(AlreadyApplied)
  {
    var store, ann, helpers := RegisterAnnAndHelpers(k);
    posted := store.CreateOpportunity(Some(helpers),
      Handlers.OpportunityForm("Park Cleanup", "...", "", "Park", "", "", ""));
    assert posted.Ok? && store.opportunities[0].id == 1;
    assert store.applications == [] && store.nextApplicationId == 1;
    first := store.Apply(Some(ann), 1);
    assert store.applications == [Application(1, 1, 1, Pending)];
    second := store.Apply(Some(ann), 1);
  }
}
