/**
 * Properties of the routes that relate several requests or hold for the
 * tables as a whole: the invariants each route preserves, and what a
 * client observes across a sequence of calls.
 */
module Properties {
  import opened Wrappers
  import opened Crypto
  import opened Auth
  import opened Tables
  import opened Handlers

  lemma RegisterPreservesConsistency(t: Db, k: Primitives, form: RegisterForm, salt: nat)
    requires Consistent(t)
    ensures Consistent(Register(t, k, form, salt).tables)
  {
    var s := Register(t, k, form, salt);
    if s.response.Ok? {
      var t' := s.tables;
      var u := t'.users[|t.users|];
      assert Ids(t'.users, UserId) == Ids(t.users, UserId) + [u.id];
      AutoIncrementInsert(Ids(t.users, UserId), t.nextUserId);
      if form.role == OrganizationRole {
        var o := Organization(t.nextOrganizationId, u.id, form.name);
        assert Ids(t'.organizations, OrganizationId) == Ids(t.organizations, OrganizationId) + [o.id];
        AutoIncrementInsert(Ids(t.organizations, OrganizationId), t.nextOrganizationId);
        assert t'.organizations[|t.organizations|] == o;
      }
      forall i | 0 <= i < |t'.users| && t'.users[i].role == OrganizationRole
        ensures HasOrganization(t'.organizations, t'.users[i].id)
      {
        if i < |t.users| {
          assert t'.users[i] == t.users[i];
          var j :| 0 <= j < |t.organizations| && t.organizations[j].userId == t.users[i].id;
          assert t'.organizations[j] == t.organizations[j];
        } else {
          assert t'.organizations[|t.organizations|].userId == u.id;
        }
      }
      forall j | 0 <= j < |t'.organizations|
        ensures IsOrganizationUser(t'.users, t'.organizations[j].userId)
      {
        if j < |t.organizations| {
          assert t'.organizations[j] == t.organizations[j];
          var i :| 0 <= i < |t.users| && t.users[i].id == t.organizations[j].userId &&
                   t.users[i].role == OrganizationRole;
          assert t'.users[i] == t.users[i];
        } else {
          assert t'.users[|t.users|] == u;
        }
      }
      forall i, j | 0 <= i < j < |t'.users|
        ensures t'.users[i].email != t'.users[j].email
      {
        if j == |t.users| {
          assert t'.users[i] == t.users[i];
        } else {
          assert t'.users[i] == t.users[i] && t'.users[j] == t.users[j];
        }
      }
    }
  }

  lemma CreateOpportunityPreservesConsistency(t: Db, k: Primitives, header: Option<string>, form: OpportunityForm)
    requires Consistent(t)
    ensures Consistent(CreateOpportunity(t, k, header, form).tables)
  {
  }

  lemma ApplyPreservesConsistency(t: Db, k: Primitives, header: Option<string>, opportunityId: int)
    requires Consistent(t)
    ensures Consistent(Apply(t, k, header, opportunityId).tables)
  {
  }

  /**
   * With unique emails, login succeeds exactly when a row has the email
   * and its hash accepts the password; any other input gets the one
   * "Invalid credentials" answer.
   */
  lemma LoginSucceedsIff(t: Db, k: Primitives, email: string, password: string)
    requires EmailsUnique(t.users)
    ensures Login(t, k, email, password).Ok? <==>
      exists i :: 0 <= i < |t.users| && t.users[i].email == email && k.compare(password, t.users[i].password)
    ensures Login(t, k, email, password).Err? ==> Login(t, k, email, password) == Err(InvalidCredentials)
  {
  }

  /** After any register with an email, a second register with that email is refused. */
  lemma RegisterTwiceRefused(t: Db, k: Primitives, first: RegisterForm, second: RegisterForm, salt1: nat, salt2: nat)
    requires first.email == second.email
    ensures Register(Register(t, k, first, salt1).tables, k, second, salt2) ==
            Step(Register(t, k, first, salt1).tables, Err(UserExists))
  {
  }

  /** Logging in with the credentials just registered returns exactly the register response. */
  lemma RegisterThenLogin(t: Db, k: Primitives, form: RegisterForm, salt: nat)
    requires Sound(k)
    requires Register(t, k, form, salt).response.Ok?
    ensures Login(Register(t, k, form, salt).tables, k, form.email, form.password) ==
            Register(t, k, form, salt).response
  {
  }

  /** The token a register returns, sent back as `Bearer <token>`, fetches the registered user. */
  lemma RegisterThenMe(t: Db, k: Primitives, form: RegisterForm, salt: nat)
    requires Sound(k) && Consistent(t)
    requires Register(t, k, form, salt).response.Ok?
    ensures Me(Register(t, k, form, salt).tables, k, Some("Bearer " + Register(t, k, form, salt).response.value.token)) ==
            Ok(Register(t, k, form, salt).response.value.user)
  {
    var s := Register(t, k, form, salt);
    var u := s.tables.users[|t.users|];
    SignedTokenAuthenticates(k, "Bearer", ClaimsOf(u));
    assert "Bearer " + k.sign(ClaimsOf(u)) == "Bearer" + " " + k.sign(ClaimsOf(u));
    RegisterPreservesConsistency(t, k, form, salt);
    assert Ids(s.tables.users, UserId)[|t.users|] == u.id;
    var m := UserWithId(s.tables.users, u.id);
    assert m.Some? && m.value == |t.users|;
  }

  /** Repeating an application that succeeded is refused with 400 and changes nothing. */
  lemma ApplyTwiceRefused(t: Db, k: Primitives, header: Option<string>, opportunityId: int)
    requires Apply(t, k, header, opportunityId).response.Ok?
    ensures Apply(Apply(t, k, header, opportunityId).tables, k, header, opportunityId) ==
            Step(Apply(t, k, header, opportunityId).tables, Err(AlreadyApplied))
  {
    var t' := Apply(t, k, header, opportunityId).tables;
    var c := Authenticate(k, header).value;
    assert t'.applications[|t.applications|].userId == c.id;
    assert HasApplied(t'.applications, c.id, opportunityId);
  }

  /**
   * An opportunity just created is open to every volunteer: no one has
   * applied to its fresh id, so the first application to it succeeds.
   */
  lemma NewOpportunityAcceptsApplication(t: Db, k: Primitives, poster: Option<string>, form: OpportunityForm,
                                         volunteer: Option<string>)
    requires Consistent(t)
    requires CreateOpportunity(t, k, poster, form).response.Ok?
    requires Authenticate(k, volunteer).Ok? && Authenticate(k, volunteer).value.role == VolunteerRole
    ensures Apply(CreateOpportunity(t, k, poster, form).tables, k, volunteer,
                  CreateOpportunity(t, k, poster, form).response.value.id).response.Ok?
  {
  }
}
