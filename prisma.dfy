/**
 * The part of the database the service uses: the `user` table, whose `id`
 * and `email` columns are unique, and the `universityUser` table of
 * memberships. A query of a kind the database currently refuses (it is
 * down, or that query times out) fails and changes nothing.
 */
module Prisma {
  import opened AuthTypes
  import opened Scopes

  datatype User = User(
    id: UserId, email: string, firstName: string, lastName: string,
    fatherInitial: string, password: string, avatar: Option<string>)

  /** The `data` of `user.create`. */
  datatype UserCreateData = UserCreateData(
    email: string, firstName: string, lastName: string, fatherInitial: string, password: string)

  /** A `universityUser` row: whose membership it is, and the part the scope query selects. */
  datatype UniversityUserRow = UniversityUserRow(userId: UserId, membership: UniversityUser)

  /** The kinds of query the service sends. */
  datatype Query = CreateUser | UpdateUser | FindUser | FindMemberships

  /** The two tables, and the kinds of query that fail at present. */
  datatype StoreState = StoreState(users: seq<User>, universityUsers: seq<UniversityUserRow>, failing: set<Query>)

  const UniqueConstraintViolation := "P2002"
  const RecordNotFound := "P2025"
  /** What a refused query throws. */
  const Unreachable := Thrown(Some("P1001"), "Can't reach database server", [])

  function UniqueViolation(field: string): Thrown
  {
    Thrown(Some(UniqueConstraintViolation), "Unique constraint failed on the fields: (`" + field + "`)", [field])
  }

  predicate IdTaken(users: seq<User>, id: UserId)
  {
    exists u | u in users :: u.id == id
  }

  predicate EmailTaken(users: seq<User>, email: string)
  {
    exists u | u in users :: u.email == email
  }

  /** The table's constraints: no two rows share an id or an email. */
  ghost predicate UniqueUsers(users: seq<User>)
  {
    forall i, j :: 0 <= i < j < |users| ==> users[i].id != users[j].id && users[i].email != users[j].email
  }

  /**
   * `user.create`: a new row with no avatar, or a unique-constraint error
   * naming the column that clashes (the id is checked before the email).
   */
  function Create(st: StoreState, data: UserCreateData, id: UserId): Try<User>
  {
    if CreateUser in st.failing then Threw(Unreachable)
    else if IdTaken(st.users, id) then Threw(UniqueViolation("id"))
    else if EmailTaken(st.users, data.email) then Threw(UniqueViolation("email"))
    else Ok(User(id, data.email, data.firstName, data.lastName, data.fatherInitial, data.password, None))
  }

  /**
   * `user.create` succeeds exactly when the database is up and neither the
   * id nor the email is taken, and then stores the data as given under the
   * new id, with no avatar.
   */
  lemma CreateOutcome(st: StoreState, data: UserCreateData, id: UserId)
    ensures Create(st, data, id).Ok? <==>
            CreateUser !in st.failing && !IdTaken(st.users, id) && !EmailTaken(st.users, data.email)
    ensures Create(st, data, id).Ok? ==>
            Create(st, data, id).value == User(id, data.email, data.firstName, data.lastName, data.fatherInitial, data.password, None)
  {
  }

  /** The rows with the avatar of user `id` set to `path`. */
  function WithAvatar(users: seq<User>, id: UserId, path: string): seq<User>
  {
    seq(|users|, i requires 0 <= i < |users| => if users[i].id == id then users[i].(avatar := Some(path)) else users[i])
  }

  /** `user.update` of the avatar: the updated row, or a not-found error. */
  function UpdateAvatar(st: StoreState, id: UserId, path: string): Try<User>
  {
    if UpdateUser in st.failing then Threw(Unreachable)
    else if !IdTaken(st.users, id) then Threw(Thrown(Some(RecordNotFound), "Record to update not found.", []))
    else Ok(FindById(st.users, id).value.(avatar := Some(path)))
  }

  /** The first row with this id. */
  function FindById(users: seq<User>, id: UserId): (r: Option<User>)
    ensures r.Some? <==> IdTaken(users, id)
    ensures r.Some? ==> r.value in users && r.value.id == id
  {
    if users == [] then None
    else if users[0].id == id then Some(users[0])
    else FindById(users[1..], id)
  }

  /** `user.findUnique({where: {email}})` when the query succeeds: the row with that email, if any. */
  function FindByEmail(users: seq<User>, email: string): (r: Option<User>)
    ensures r.Some? <==> EmailTaken(users, email)
    ensures r.Some? ==> r.value in users && r.value.email == email
  {
    if users == [] then None
    else if users[0].email == email then Some(users[0])
    else FindByEmail(users[1..], email)
  }

  /** With unique emails, the row found by email is the only row with that email. */
  lemma FindByEmailOnlyRow(users: seq<User>, email: string, i: int)
    requires UniqueUsers(users)
    requires 0 <= i < |users| && users[i].email == email
    ensures FindByEmail(users, email) == Some(users[i])
  {
    var found := FindByEmail(users, email).value;
    var j :| 0 <= j < |users| && users[j] == found;
    if j != i {
      assert users[i].email == users[j].email;
    }
  }

  /** Some row gives `userId` the membership `m`. */
  predicate HasMembership(rows: seq<UniversityUserRow>, userId: UserId, m: UniversityUser)
  {
    exists i :: 0 <= i < |rows| && rows[i] == UniversityUserRow(userId, m)
  }

  /**
   * `universityUser.findMany({where: {userId}})` when the query succeeds:
   * the memberships of `userId`, in row order.
   */
  function MembershipsOf(rows: seq<UniversityUserRow>, userId: UserId): (r: seq<UniversityUser>)
    ensures forall m :: m in r <==> HasMembership(rows, userId, m)
  {
    if rows == [] then []
    else
      var rest := MembershipsOf(rows[1..], userId);
      assert forall m :: HasMembership(rows, userId, m) <==> rows[0] == UniversityUserRow(userId, m) || HasMembership(rows[1..], userId, m) by {
        forall m ensures HasMembership(rows, userId, m) ==> rows[0] == UniversityUserRow(userId, m) || HasMembership(rows[1..], userId, m) {
          if HasMembership(rows, userId, m) && rows[0] != UniversityUserRow(userId, m) {
            var i :| 0 <= i < |rows| && rows[i] == UniversityUserRow(userId, m);
            assert rows[1..][i - 1] == rows[i];
          }
        }
        forall m | HasMembership(rows[1..], userId, m) ensures HasMembership(rows, userId, m) {
          var i :| 0 <= i < |rows[1..]| && rows[1..][i] == UniversityUserRow(userId, m);
          assert rows[i + 1] == rows[1..][i];
        }
      }
      if rows[0].userId == userId then [rows[0].membership] + rest else rest
  }

  /** The universities in which `userId` holds a membership. */
  function MemberUniversityIds(rows: seq<UniversityUserRow>, userId: UserId): set<string>
  {
    set i | 0 <= i < |rows| && rows[i].userId == userId :: rows[i].membership.universityId
  }

  /** The scope query picks out exactly the universities the user is a member of. */
  lemma MembershipsOfUniversities(rows: seq<UniversityUserRow>, userId: UserId)
    ensures UniversityIds(MembershipsOf(rows, userId)) == MemberUniversityIds(rows, userId)
  {
    var ms := MembershipsOf(rows, userId);
    forall id | id in UniversityIds(ms) ensures id in MemberUniversityIds(rows, userId) {
      var k :| 0 <= k < |ms| && ms[k].universityId == id;
      assert ms[k] in ms;
      var i :| 0 <= i < |rows| && rows[i] == UniversityUserRow(userId, ms[k]);
    }
    forall id | id in MemberUniversityIds(rows, userId) ensures id in UniversityIds(ms) {
      var i :| 0 <= i < |rows| && rows[i].userId == userId && rows[i].membership.universityId == id;
      assert HasMembership(rows, userId, rows[i].membership);
      var k :| 0 <= k < |ms| && ms[k] == rows[i].membership;
    }
  }

  /** A successful create keeps the table's constraints. */
  lemma CreateKeepsUnique(st: StoreState, data: UserCreateData, id: UserId)
    requires UniqueUsers(st.users) && Create(st, data, id).Ok?
    ensures UniqueUsers(st.users + [Create(st, data, id).value])
  {
    var users := st.users + [Create(st, data, id).value];
    forall i, j | 0 <= i < j < |users| ensures users[i].id != users[j].id && users[i].email != users[j].email {
      if j == |users| - 1 {
        assert users[i] in st.users;
      }
    }
  }

  /** Setting an avatar changes no id and no email, so it keeps the table's constraints. */
  lemma WithAvatarKeepsUnique(users: seq<User>, id: UserId, path: string)
    requires UniqueUsers(users)
    ensures UniqueUsers(WithAvatar(users, id, path))
  {
  }

  /** The database: the two tables and the kinds of query that fail at present. */
  class Store {
    var users: seq<User>
    var universityUsers: seq<UniversityUserRow>
    var failing: set<Query>

    function State(): StoreState
      reads this
    {
      StoreState(users, universityUsers, failing)
    }

    ghost predicate Valid()
      reads this
    {
      UniqueUsers(users)
    }

    constructor (users: seq<User>, universityUsers: seq<UniversityUserRow>, failing: set<Query>)
      requires UniqueUsers(users)
      ensures Valid() && State() == StoreState(users, universityUsers, failing)
    {
      this.users := users;
      this.universityUsers := universityUsers;
      this.failing := failing;
    }

    /** `prisma.user.create`: appends the new row, or fails and changes nothing. */
    method UserCreate(data: UserCreateData, id: UserId) returns (r: Try<User>)
      requires Valid()
      modifies this
      ensures Valid()
      ensures r == Create(old(State()), data, id)
      ensures users == (if r.Ok? then old(users) + [r.value] else old(users))
      ensures universityUsers == old(universityUsers) && failing == old(failing)
    {
      r := Create(State(), data, id);
      if r.Ok? {
        CreateKeepsUnique(State(), data, id);
        users := users + [r.value];
      }
    }

    /** `prisma.user.update` of the avatar column: updates the row, or fails and changes nothing. */
    method UserUpdateAvatar(id: UserId, path: string) returns (r: Try<User>)
      requires Valid()
      modifies this
      ensures Valid()
      ensures r == UpdateAvatar(old(State()), id, path)
      ensures users == (if r.Ok? then WithAvatar(old(users), id, path) else old(users))
      ensures universityUsers == old(universityUsers) && failing == old(failing)
    {
      r := UpdateAvatar(State(), id, path);
      if r.Ok? {
        WithAvatarKeepsUnique(users, id, path);
        users := WithAvatar(users, id, path);
      }
    }

    /** `prisma.user.findUnique({where: {email}})`. */
    method UserFindUniqueByEmail(email: string) returns (r: Try<Option<User>>)
      ensures FindUser !in failing ==> r == Ok(FindByEmail(users, email))
      ensures FindUser in failing ==> r == Threw(Unreachable)
    {
      if FindUser in failing {
        return Threw(Unreachable);
      }
      r := Ok(FindByEmail(users, email));
    }

    /** `prisma.universityUser.findMany({where: {userId}})`. */
    method UniversityUserFindMany(userId: UserId) returns (r: Try<seq<UniversityUser>>)
      ensures FindMemberships !in failing ==> r == Ok(MembershipsOf(universityUsers, userId))
      ensures FindMemberships in failing ==> r == Threw(Unreachable)
    {
      if FindMemberships in failing {
        return Threw(Unreachable);
      }
      r := Ok(MembershipsOf(universityUsers, userId));
    }
  }
}
