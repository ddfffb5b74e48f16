/** The user table: a sorted linked list of users that answers as a finite map from names. */
module Users {
  import opened Bytes
  import opened Lists
  import opened Nodes

  datatype Role = Admin | Default

  datatype Status = USER_OK | USER_ALREADYEXISTS | USER_WRONGPASSWORD | USER_CREDTOOLONG | USER_BADUSERNAME

  const USERS_MAX_USERNAME_LENGTH := 255
  const USERS_MAX_PASSWORD_LENGTH := 255

  datatype User = User(username: CString, password: CString, role: Role)

  /** "admin", the name and the password of the user the table starts with. */
  const ADMIN: CString := [97, 100, 109, 105, 110]

  function UserCmp(a: User, b: User): int {
    Strcmp(a.username, b.username)
  }

  lemma UserCmpIsOrder()
    ensures Order(UserCmp)
  {
    forall a: User, b: User ensures UserCmp(a, b) < 0 <==> UserCmp(b, a) > 0 {
      StrcmpAntisymmetric(a.username, b.username);
    }
    forall a: User, b: User, c: User | UserCmp(a, b) < 0 && UserCmp(b, c) < 0 ensures UserCmp(a, c) < 0 {
      StrcmpTransitive(a.username, b.username, c.username);
    }
  }

  // ----- operations, on the list and on a finite map -----

  datatype Op =
    | Create(username: CString, password: CString, role: Role)
    | Delete(username: CString)
    | ChangeRole(username: CString, role: Role)
    | Authenticate(username: CString, password: CString)

  function TooLong(username: CString, password: CString): bool {
    |username| >= USERS_MAX_USERNAME_LENGTH || |password| >= USERS_MAX_PASSWORD_LENGTH
  }

  /** The position of a name, or the length of the list. */
  function Find(c: seq<User>, name: CString): (k: nat)
    ensures IsAt(c, name, k)
  {
    if c == [] || c[0].username == name then 0 else 1 + Find(c[1..], name)
  }

  ghost predicate IsAt(c: seq<User>, name: CString, k: nat) {
    && k <= |c|
    && (forall i :: 0 <= i < k ==> c[i].username != name)
    && (k < |c| ==> c[k].username == name)
  }

  lemma FindIsUnique(c: seq<User>, name: CString, k: nat)
    requires IsAt(c, name, k)
    ensures k == Find(c, name)
  {
    assert IsAt(c, name, Find(c, name));
  }

  function WithRole(c: seq<User>, k: nat, role: Role): seq<User>
    requires k < |c|
  {
    c[k := c[k].(role := role)]
  }

  function ListStep(c: seq<User>, op: Op): (seq<User>, Status) {
    var k := Find(c, op.username);
    match op
    case Create(u, p, role) =>
      if TooLong(u, p) then (c, USER_CREDTOOLONG)
      else if k < |c| then (c, USER_ALREADYEXISTS)
      else (Inserted(UserCmp, c, User(u, p, role)), USER_OK)
    case Delete(_) =>
      if k < |c| then (Removed(UserCmp, c, c[k]), USER_OK) else (c, USER_BADUSERNAME)
    case ChangeRole(_, role) =>
      if k < |c| then (WithRole(c, k, role), USER_OK) else (c, USER_BADUSERNAME)
    case Authenticate(_, p) =>
      (c, ListStatus(c, op.username, p))
  }

  function ListStatus(c: seq<User>, username: CString, password: CString): Status {
    var k := Find(c, username);
    if k == |c| then USER_BADUSERNAME
    else if c[k].password == password then USER_OK
    else USER_WRONGPASSWORD
  }

  datatype Account = Account(password: CString, role: Role)

  type Table = map<CString, Account>

  function MapStep(m: Table, op: Op): (Table, Status) {
    match op
    case Create(u, p, role) =>
      if TooLong(u, p) then (m, USER_CREDTOOLONG)
      else if u in m then (m, USER_ALREADYEXISTS)
      else (m[u := Account(p, role)], USER_OK)
    case Delete(u) =>
      if u in m then (m - {u}, USER_OK) else (m, USER_BADUSERNAME)
    case ChangeRole(u, role) =>
      if u in m then (m[u := m[u].(role := role)], USER_OK) else (m, USER_BADUSERNAME)
    case Authenticate(u, p) =>
      (m, AuthStatus(m, u, p))
  }

  function AuthStatus(m: Table, username: CString, password: CString): Status {
    if username !in m then USER_BADUSERNAME
    else if m[username].password == password then USER_OK
    else USER_WRONGPASSWORD
  }

  function ListRun(c: seq<User>, ops: seq<Op>): (seq<User>, seq<Status>)
    decreases ops
  {
    if ops == [] then (c, [])
    else
      var (d, st) := ListStep(c, ops[0]);
      var (e, sts) := ListRun(d, ops[1..]);
      (e, [st] + sts)
  }

  function MapRun(m: Table, ops: seq<Op>): (Table, seq<Status>)
    decreases ops
  {
    if ops == [] then (m, [])
    else
      var (d, st) := MapStep(m, ops[0]);
      var (e, sts) := MapRun(d, ops[1..]);
      (e, [st] + sts)
  }

  // ----- the list refines the map -----

  /** `m` is the map the list stands for: every element is in it, nothing else is, and no name occurs twice. */
  ghost predicate Stands(c: seq<User>, m: Table) {
    && (forall i, j :: 0 <= i < j < |c| ==> c[i].username != c[j].username)
    && (forall i :: 0 <= i < |c| ==> Holds(m, c[i]))
    && (forall n :: n in m ==> IsIn(c, n))
  }

  ghost predicate Holds(m: Table, u: User) {
    u.username in m && m[u.username] == Account(u.password, u.role)
  }

  ghost predicate IsIn(c: seq<User>, n: CString) {
    exists i :: 0 <= i < |c| && c[i].username == n
  }

  lemma FindMeansIn(c: seq<User>, m: Table, name: CString)
    requires Stands(c, m)
    ensures Find(c, name) < |c| <==> name in m
    ensures Find(c, name) < |c| ==> Holds(m, c[Find(c, name)])
  {
    if name in m {
      assert IsIn(c, name);
    }
  }

  lemma SplicedStands(c: seq<User>, m: Table, k: nat, u: User)
    requires Stands(c, m) && k <= |c| && u.username !in m
    ensures Stands(Spliced(c, k, u), m[u.username := Account(u.password, u.role)])
  {
    var d, m' := Spliced(c, k, u), m[u.username := Account(u.password, u.role)];
    forall i | 0 <= i < |c| ensures c[i].username != u.username && Holds(m', c[i]) {
      assert Holds(m, c[i]);
    }
    forall i, j | 0 <= i < j < |d| ensures d[i].username != d[j].username && Holds(m', d[i]) && Holds(m', d[j]) {
      assert if i < k then d[i] == c[i] else if i == k then d[i] == u else d[i] == c[i - 1];
      assert if j < k then d[j] == c[j] else if j == k then d[j] == u else d[j] == c[j - 1];
    }
    assert |d| == 1 ==> d[0] == u;
    SplicedCovers(c, k, u);
    forall n | n in m' ensures IsIn(d, n) {
      assert n != u.username ==> IsIn(c, n);
    }
  }

  lemma SplicedCovers(c: seq<User>, k: nat, u: User)
    requires k <= |c|
    ensures IsIn(Spliced(c, k, u), u.username)
    ensures forall n | IsIn(c, n) :: IsIn(Spliced(c, k, u), n)
  {
    var d := Spliced(c, k, u);
    assert d[k] == u;
    forall n | IsIn(c, n) ensures IsIn(d, n) {
      var i :| 0 <= i < |c| && c[i].username == n;
      assert d[if i < k then i else i + 1] == c[i];
    }
  }

  lemma WithoutStands(c: seq<User>, m: Table, k: nat)
    requires Stands(c, m) && k < |c|
    ensures Stands(Without(c, k), m - {c[k].username})
  {
    var d, m' := Without(c, k), m - {c[k].username};
    assert forall i :: 0 <= i < k ==> d[i] == c[i];
    assert forall i :: k <= i < |d| ==> d[i] == c[i + 1];
    forall n | n in m' ensures IsIn(d, n) {
      assert IsIn(c, n);
      var i :| 0 <= i < |c| && c[i].username == n;
      assert d[if i < k then i else i - 1] == c[i];
    }
  }

  lemma WithRoleStands(c: seq<User>, m: Table, k: nat, role: Role)
    requires Stands(c, m) && k < |c|
    ensures c[k].username in m
    ensures var u := c[k].username; Stands(WithRole(c, k, role), m[u := m[u].(role := role)])
  {
    var u := c[k].username;
    assert Holds(m, c[k]);
    var d, m' := WithRole(c, k, role), m[u := m[u].(role := role)];
    forall n | n in m' ensures IsIn(d, n) {
      assert IsIn(c, n);
      var i :| 0 <= i < |c| && c[i].username == n;
      assert d[i].username == n;
    }
  }

  /** The element under a name is the only one that compares equal to it. */
  lemma PositionOfElement(c: seq<User>, k: nat)
    requires Sorted(UserCmp, c) && k < |c|
    ensures Position(UserCmp, c, c[k]) == k
  {
    forall i | 0 <= i < k ensures UserCmp(c[i], c[k]) != 0 {
    }
    StrcmpIsEquality(c[k].username, c[k].username);
    PositionIsUnique(UserCmp, c, c[k], k);
  }

  /** One operation on the list does what it does on the map, with the same status, and keeps the list sorted. */
  lemma StepRefines(c: seq<User>, m: Table, op: Op)
    requires Sorted(UserCmp, c) && Stands(c, m)
    ensures Sorted(UserCmp, ListStep(c, op).0)
    ensures Stands(ListStep(c, op).0, MapStep(m, op).0)
    ensures ListStep(c, op).1 == MapStep(m, op).1
  {
    var k := Find(c, op.username);
    FindMeansIn(c, m, op.username);
    match op {
      case Create(u, p, role) =>
        if !TooLong(u, p) && k == |c| {
          CreateRefines(c, m, User(u, p, role));
        }
      case Delete(_) =>
        if k < |c| {
          PositionOfElement(c, k);
          WithoutIsSorted(UserCmp, c, k);
          WithoutStands(c, m, k);
        }
      case ChangeRole(_, role) =>
        if k < |c| {
          WithRoleIsSorted(c, k, role);
          WithRoleStands(c, m, k, role);
        }
      case Authenticate(_, _) =>
    }
  }

  lemma CreateRefines(c: seq<User>, m: Table, u: User)
    requires Sorted(UserCmp, c) && Stands(c, m) && u.username !in m
    ensures Sorted(UserCmp, Inserted(UserCmp, c, u))
    ensures Stands(Inserted(UserCmp, c, u), m[u.username := Account(u.password, u.role)])
  {
    var k := Rank(UserCmp, c, u);
    if k < |c| {
      assert Holds(m, c[k]);
      StrcmpIsEquality(c[k].username, u.username);
    }
    UserCmpIsOrder();
    InsertedIsSorted(UserCmp, c, u);
    SplicedStands(c, m, k, u);
  }

  lemma WithRoleIsSorted(c: seq<User>, k: nat, role: Role)
    requires Sorted(UserCmp, c) && k < |c|
    ensures Sorted(UserCmp, WithRole(c, k, role))
  {
    var d := WithRole(c, k, role);
    forall i, j | 0 <= i < j < |d| ensures UserCmp(d[i], d[j]) < 0 {
      assert UserCmp(c[i], c[j]) < 0;
    }
  }

  /** Over any sequence of operations the list stays strictly sorted and answers exactly as a finite map does. */
  lemma {:induction false} RunRefinesMap(c: seq<User>, m: Table, ops: seq<Op>)
    requires Sorted(UserCmp, c) && Stands(c, m)
    ensures Sorted(UserCmp, ListRun(c, ops).0)
    ensures Stands(ListRun(c, ops).0, MapRun(m, ops).0)
    ensures ListRun(c, ops).1 == MapRun(m, ops).1
    decreases ops
  {
    if ops != [] {
      StepRefines(c, m, ops[0]);
      RunRefinesMap(ListStep(c, ops[0]).0, MapStep(m, ops[0]).0, ops[1..]);
    }
  }

  /** The list determines the map it stands for. */
  lemma StandsIsFunctional(c: seq<User>, m: Table, m': Table)
    requires Stands(c, m) && Stands(c, m')
    ensures m == m'
  {
    forall n | n in m || n in m' ensures n in m && n in m' && m[n] == m'[n] {
      assert IsIn(c, n);
      var i :| 0 <= i < |c| && c[i].username == n;
      assert Holds(m, c[i]) && Holds(m', c[i]);
    }
  }

  /** The table as the server starts it: only the administrator. */
  lemma StartRefinesMap(ops: seq<Op>)
    ensures var start, m := [User(ADMIN, ADMIN, Admin)], map[ADMIN := Account(ADMIN, Admin)];
            && Sorted(UserCmp, ListRun(start, ops).0)
            && Stands(ListRun(start, ops).0, MapRun(m, ops).0)
            && ListRun(start, ops).1 == MapRun(m, ops).1
  {
    var start, m := [User(ADMIN, ADMIN, Admin)], map[ADMIN := Account(ADMIN, Admin)];
    assert start[0].username == ADMIN;
    assert IsIn(start, ADMIN);
    RunRefinesMap(start, m, ops);
  }

  // ----- the table -----

  class UserTable {
    const users: List<User>
    var totalAdmins: int

    ghost predicate Valid()
      reads this, users, users.spine
    {
      users.Valid() && users.cmp == UserCmp
    }

    constructor ()
      ensures Valid() && fresh(users) && forall n <- users.spine :: fresh(n)
      ensures totalAdmins == 1 && users.contents == [User(ADMIN, ADMIN, Admin)]
    {
      users := new List(UserCmp);
      totalAdmins := 1;
      new;
      users.Add(User(ADMIN, ADMIN, Admin));
    }

    method GetIfExists(username: CString) returns (user: Node?<User>)
      requires Valid()
      modifies users`iter
      ensures Valid()
      ensures user == Nth(users.spine, Find(users.contents, username))
    {
      users.BeginIter();
      ghost var k := 0;
      while users.iter != null
        invariant Valid()
        invariant k <= |users.spine| && users.iter == Nth(users.spine, k)
        invariant forall i :: 0 <= i < k ==> users.contents[i].username != username
        decreases |users.spine| - k
      {
        var n := users.GetNext();
        assert n == users.spine[k] && n.data == users.contents[k];
        StrcmpIsEquality(n.data.username, username);
        if 0 == Strcmp(n.data.username, username) {
          FindIsUnique(users.contents, username, k);
          return n;
        }
        k := k + 1;
      }
      FindIsUnique(users.contents, username, k);
      user := null;
    }

    method CreateUser(username: CString, password: CString, role: Role) returns (st: Status)
      requires Valid()
      modifies this, users, users.spine
      ensures Valid()
      ensures (users.contents, st) == ListStep(old(users.contents), Create(username, password, role))
      ensures totalAdmins == old(totalAdmins) + if st == USER_OK && role == Admin then 1 else 0
    {
      if |username| >= USERS_MAX_USERNAME_LENGTH {
        return USER_CREDTOOLONG;
      }
      if |password| >= USERS_MAX_PASSWORD_LENGTH {
        return USER_CREDTOOLONG;
      }
      var user := GetIfExists(username);
      if user == null {
        if role == Admin {
          totalAdmins := totalAdmins + 1;
        }
        users.Add(User(username, password, role));
        return USER_OK;
      }
      st := USER_ALREADYEXISTS;
    }

    method RemoveUser(username: CString) returns (st: Status)
      requires Valid()
      modifies users, users.spine
      ensures Valid()
      ensures (users.contents, st) == ListStep(old(users.contents), Delete(username))
    {
      var user := GetIfExists(username);
      if user != null {
        users.Remove(user.data);
        return USER_OK;
      }
      st := USER_BADUSERNAME;
    }

    /** The write through the pointer that the lookup returned. */
    method SetRole(user: Node<User>, ghost k: nat, role: Role)
      requires Valid() && k < |users.spine| && user == users.spine[k]
      modifies users`contents, user
      ensures Valid() && users.contents == WithRole(old(users.contents), k, role)
    {
      user.data := user.data.(role := role);
      users.contents := WithRole(users.contents, k, role);
    }

    method ChangeUserRole(username: CString, role: Role) returns (st: Status)
      requires Valid()
      modifies users, users.spine
      ensures Valid()
      ensures (users.contents, st) == ListStep(old(users.contents), ChangeRole(username, role))
    {
      var user := GetIfExists(username);
      if user != null {
        SetRole(user, Find(users.contents, username), role);
        return USER_OK;
      }
      st := USER_BADUSERNAME;
    }

    method AuthenticateUser(username: CString, password: CString) returns (st: Status)
      requires Valid()
      modifies users`iter
      ensures Valid()
      ensures st == ListStatus(users.contents, username, password)
    {
      var user := GetIfExists(username);
      if user == null {
        return USER_BADUSERNAME;
      }
      StrcmpIsEquality(user.data.password, password);
      if 0 != Strcmp(user.data.password, password) {
        return USER_WRONGPASSWORD;
      }
      st := USER_OK;
    }
  }
}
