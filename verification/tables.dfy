/**
 * The four tables the modelled routes touch, as rows in insertion order,
 * with one auto-increment counter per table, and the invariants the
 * route handlers keep.
 */
module Tables {
  import opened Wrappers

  /** A `users` row; `password` holds the bcrypt hash, never the password. */
  datatype User = User(id: int, name: string, email: string, password: string, role: string, phone: string)

  /** An `organizations` row, created alongside an organization-role user. */
  datatype Organization = Organization(id: int, userId: int, orgName: string)

  /** An `opportunities` row; `orgId` is the id of the posting user. */
  datatype Opportunity = Opportunity(
    id: int, orgId: int, title: string, description: string, kind: string,
    location: string, date: string, duration: string, volunteersNeeded: string)

  /** An `applications` row; `status` takes the column default on insert. */
  datatype Application = Application(id: int, userId: int, opportunityId: int, status: string)

  const OrganizationRole := "organization"
  const VolunteerRole := "volunteer"
  const Pending := "pending"

  datatype Db = Db(
    users: seq<User>,
    organizations: seq<Organization>,
    opportunities: seq<Opportunity>,
    applications: seq<Application>,
    nextUserId: int,
    nextOrganizationId: int,
    nextOpportunityId: int,
    nextApplicationId: int)

  /** A fresh database: empty tables, every auto-increment counter at 1. */
  const Empty := Db([], [], [], [], 1, 1, 1, 1)

  /**
   * The index of the first row satisfying `p`: what a `SELECT ... WHERE`
   * followed by `rows[0]` (or by `rows.length > 0`) observes.
   */
  function FirstMatch<T>(rows: seq<T>, p: T -> bool): (r: Option<nat>)
    ensures r.Some? ==> r.value < |rows| && p(rows[r.value])
    ensures r.Some? ==> forall j :: 0 <= j < r.value ==> !p(rows[j])
    ensures r.None? ==> forall j :: 0 <= j < |rows| ==> !p(rows[j])
  {
    if rows == [] then None
    else if p(rows[0]) then Some(0)
    else
      match FirstMatch(rows[1..], p)
      case None => None
      case Some(i) => Some(i + 1)
  }

  function UserWithEmail(users: seq<User>, email: string): (i: Option<nat>)
  {
    FirstMatch(users, (u: User) => u.email == email)
  }

  function UserWithId(users: seq<User>, id: int): (i: Option<nat>)
  {
    FirstMatch(users, (u: User) => u.id == id)
  }

  function OpportunityWithId(opportunities: seq<Opportunity>, id: int): (i: Option<nat>)
  {
    FirstMatch(opportunities, (o: Opportunity) => o.id == id)
  }

  function ApplicationOf(applications: seq<Application>, userId: int, opportunityId: int): (i: Option<nat>)
  {
    FirstMatch(applications, (a: Application) => a.userId == userId && a.opportunityId == opportunityId)
  }

  /** The id column of a table, given how to read a row's id. */
  function Ids<T>(rows: seq<T>, id: T -> int): (ids: seq<int>)
    ensures |ids| == |rows| && forall i :: 0 <= i < |rows| ==> ids[i] == id(rows[i])
  {
    seq(|rows|, i requires 0 <= i < |rows| => id(rows[i]))
  }

  function UserId(u: User): int { u.id }
  function OrganizationId(o: Organization): int { o.id }
  function OpportunityId(o: Opportunity): int { o.id }
  function ApplicationId(a: Application): int { a.id }

  /**
   * An auto-increment id column: positive, strictly increasing in
   * insertion order (so distinct), and below the next id to hand out.
   */
  ghost predicate AutoIncrement(ids: seq<int>, next: int)
  {
    && 1 <= next
    && (forall i :: 0 <= i < |ids| ==> 1 <= ids[i] < next)
    && (forall i, j :: 0 <= i < j < |ids| ==> ids[i] < ids[j])
  }

  /** Inserting with the counter's value and advancing it keeps the column well formed. */
  lemma AutoIncrementInsert(ids: seq<int>, next: int)
    requires AutoIncrement(ids, next)
    ensures AutoIncrement(ids + [next], next + 1)
  {
  }

  ghost predicate EmailsUnique(users: seq<User>)
  {
    forall i, j :: 0 <= i < j < |users| ==> users[i].email != users[j].email
  }

  ghost predicate HasOrganization(organizations: seq<Organization>, userId: int)
  {
    exists j :: 0 <= j < |organizations| && organizations[j].userId == userId
  }

  ghost predicate IsOrganizationUser(users: seq<User>, userId: int)
  {
    exists i :: 0 <= i < |users| && users[i].id == userId && users[i].role == OrganizationRole
  }

  /** Every organization-role user has an organizations row, and every such row belongs to one. */
  ghost predicate OrganizationsMatchUsers(t: Db)
  {
    && (forall i :: 0 <= i < |t.users| && t.users[i].role == OrganizationRole ==>
          HasOrganization(t.organizations, t.users[i].id))
    && (forall j :: 0 <= j < |t.organizations| ==> IsOrganizationUser(t.users, t.organizations[j].userId))
  }

  /** At most one application per (user_id, opportunity_id) pair. */
  ghost predicate ApplicationsUnique(applications: seq<Application>)
  {
    forall i, j :: 0 <= i < j < |applications| ==>
      !(applications[i].userId == applications[j].userId &&
        applications[i].opportunityId == applications[j].opportunityId)
  }

  ghost predicate HasOpportunity(opportunities: seq<Opportunity>, id: int)
  {
    exists j :: 0 <= j < |opportunities| && opportunities[j].id == id
  }

  /** Every application names an opportunity that exists. */
  ghost predicate ApplicationsReferenceOpportunities(t: Db)
  {
    forall i :: 0 <= i < |t.applications| ==> HasOpportunity(t.opportunities, t.applications[i].opportunityId)
  }

  /** The table invariants every modelled route preserves. */
  ghost predicate Consistent(t: Db)
  {
    && AutoIncrement(Ids(t.users, UserId), t.nextUserId)
    && AutoIncrement(Ids(t.organizations, OrganizationId), t.nextOrganizationId)
    && AutoIncrement(Ids(t.opportunities, OpportunityId), t.nextOpportunityId)
    && AutoIncrement(Ids(t.applications, ApplicationId), t.nextApplicationId)
    && EmailsUnique(t.users)
    && OrganizationsMatchUsers(t)
    && ApplicationsUnique(t.applications)
    && ApplicationsReferenceOpportunities(t)
  }

  lemma EmptyConsistent()
    ensures Consistent(Empty)
  {
  }
}
