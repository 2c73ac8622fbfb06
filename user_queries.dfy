/**
 * The read side of the user controller (server/controllers/user.js): the
 * records of the User and Lead collections, the queries the controllers send
 * to the store, and the decisions they take on what comes back. The store is
 * an in-memory table in store order; `findOne` is "the first matching record".
 */
module UserQueries {
  import opened Wrappers

  type UserId = nat

  /** A stored User document. `email` is None when the document has no email field. */
  datatype User = User(
    id: UserId,
    firstName: string,
    lastName: string,
    username: string,
    password: string,
    phone: string,
    email: Option<string>,
    role: string)

  /**
   * A creation request body. An absent role takes the schema default of the
   * store; a client-supplied `_id` is kept by the store when given.
   */
  datatype NewUser = NewUser(
    id: Option<UserId>,
    firstName: string,
    lastName: string,
    username: string,
    password: string,
    phone: string,
    email: Option<string>,
    role: Option<string>)

  /** An update request body: every field optional, including a client-supplied `_id`. */
  datatype Patch = Patch(
    id: Option<UserId>,
    firstName: Option<string>,
    lastName: Option<string>,
    username: Option<string>,
    password: Option<string>,
    phone: Option<string>,
    email: Option<string>,
    role: Option<string>)

  /** A Lead document, as far as the employee-scoped client query reads it. */
  datatype Lead = Lead(clientPhone: string, allocatedTo: seq<UserId>, isArchived: bool)

  /** Why a creation is refused. */
  datatype Reason = UsernameTaken | PhoneTaken | EmailTaken

  /** An error passed to the error handler: HTTP status and message. */
  datatype Error = Error(status: int, message: string)

  const UserNotExist := "User not exist"

  function NotFound(status: int): Error
  {
    Error(status, UserNotExist)
  }

  function ConflictError(reason: Reason): (e: Error)
    ensures e.status == 400
  {
    match reason
    case UsernameTaken => Error(400, "Username already exists.")
    case PhoneTaken => Error(400, "Phone number already exists.")
    case EmailTaken => Error(400, "Email already exists.")
  }

  /** The three conflict reasons are reported with three different messages. */
  lemma ConflictMessagesDistinct(a: Reason, b: Reason)
    requires a != b
    ensures ConflictError(a).message != ConflictError(b).message
  {
    assert |ConflictError(a).message| != |ConflictError(b).message|;
  }

  // ---------------------------------------------------------------------------
  // Generic helpers: filtering in store order

  /** `a` can be obtained from `b` by deleting elements (order is kept). */
  ghost predicate IsSubsequence<T>(a: seq<T>, b: seq<T>)
    decreases |b|
  {
    if a == [] then true
    else if b == [] then false
    else if a[0] == b[0] then IsSubsequence(a[1..], b[1..])
    else IsSubsequence(a, b[1..])
  }

  /** The elements of `s` that satisfy `p`, in their order in `s`. */
  function Filter<T(!new)>(s: seq<T>, p: T -> bool): (r: seq<T>)
    ensures forall x :: x in r <==> x in s && p(x)
    ensures forall x :: multiset(r)[x] == if p(x) then multiset(s)[x] else 0
    ensures IsSubsequence(r, s)
    decreases |s|
  {
    if s == [] then []
    else
      assert s == [s[0]] + s[1..];
      if p(s[0]) then [s[0]] + Filter(s[1..], p)
      else Filter(s[1..], p)
  }

  lemma {:induction false} FilterAppend<T(!new)>(a: seq<T>, b: seq<T>, p: T -> bool)
    ensures Filter(a + b, p) == Filter(a, p) + Filter(b, p)
    decreases |a|
  {
    if a == [] {
      assert a + b == b;
    } else {
      assert (a + b)[0] == a[0];
      assert (a + b)[1..] == a[1..] + b;
      FilterAppend(a[1..], b, p);
    }
  }

  // ---------------------------------------------------------------------------
  // Lookup by id (findById)

  predicate DistinctIds(users: seq<User>)
  {
    forall i, j :: 0 <= i < j < |users| ==> users[i].id != users[j].id
  }

  /** The position of the record with identifier `id`, if any. */
  function FindById(users: seq<User>, id: UserId): (r: Option<nat>)
    ensures r.None? <==> forall i :: 0 <= i < |users| ==> users[i].id != id
    ensures r.Some? ==> r.value < |users| && users[r.value].id == id
    ensures r.Some? ==> forall j :: 0 <= j < r.value ==> users[j].id != id
    decreases |users|
  {
    if users == [] then None
    else if users[0].id == id then Some(0)
    else match FindById(users[1..], id)
      case None => None
      case Some(i) => Some(i + 1)
  }

  /** The table without the record at position `k`, in store order. */
  function RemoveAt(users: seq<User>, k: nat): (rest: seq<User>)
    requires k < |users|
    ensures |rest| == |users| - 1
    ensures forall i :: 0 <= i < k ==> rest[i] == users[i]
    ensures forall i :: k <= i < |rest| ==> rest[i] == users[i + 1]
  {
    users[..k] + users[k + 1..]
  }

  /**
   * Removing position `k` from a table with distinct identifiers removes the
   * record with that identifier and nothing else.
   */
  lemma RemoveAtKeepsOthers(users: seq<User>, k: nat)
    requires DistinctIds(users) && k < |users|
    ensures DistinctIds(RemoveAt(users, k))
    ensures forall u :: u in RemoveAt(users, k) ==> u in users && u.id != users[k].id
    ensures forall u :: u in users && u.id != users[k].id ==> u in RemoveAt(users, k)
  {
  }

  /** getUser: the record with identifier `id`, or 401 "User not exist". */
  function GetUser(users: seq<User>, id: UserId): (r: Result<User, Error>)
    ensures r.Failure? <==> forall u :: u in users ==> u.id != id
    ensures r.Failure? ==> r.error == Error(401, "User not exist")
    ensures r.Success? ==> r.value in users && r.value.id == id
  {
    match FindById(users, id)
    case None => Failure(NotFound(401))
    case Some(i) => Success(users[i])
  }

  // ---------------------------------------------------------------------------
  // The duplicate lookup of createClient and createEmployee

  /** An email takes part in the lookup only when it is truthy: present and non-empty. */
  predicate Present(email: Option<string>)
  {
    email.Some? && email.value != ""
  }

  /** One alternative of the `$or` query. */
  datatype Clause = UsernameIs(username: string) | PhoneIs(phone: string) | EmailIs(email: string)

  predicate Satisfies(u: User, c: Clause)
  {
    match c
    case UsernameIs(n) => u.username == n
    case PhoneIs(p) => u.phone == p
    case EmailIs(e) => u.email == Some(e)
  }

  predicate MatchesAny(u: User, query: seq<Clause>)
  {
    exists c :: c in query && Satisfies(u, c)
  }

  /** What the lookup asks of an existing record, stated directly. */
  predicate Collides(u: User, username: string, phone: string, email: Option<string>)
  {
    u.username == username || u.phone == phone || (Present(email) && u.email == email)
  }

  /** The `$or` list: username and phone, and the email only when it is present. */
  function OrQuery(username: string, phone: string, email: Option<string>): (q: seq<Clause>)
    ensures forall u :: MatchesAny(u, q) <==> Collides(u, username, phone, email)
    ensures (exists c :: c in q && c.EmailIs?) <==> Present(email)
    ensures |q| == if Present(email) then 3 else 2
  {
    var q := [UsernameIs(username), PhoneIs(phone)];
    var q' := if Present(email) then q + [EmailIs(email.value)] else q;
    assert q'[0] == UsernameIs(username) && q'[1] == PhoneIs(phone);
    assert Present(email) ==> q'[2] == EmailIs(email.value);
    assert forall u :: MatchesAny(u, q') <==> Collides(u, username, phone, email) by {
      forall u
        ensures MatchesAny(u, q') <==> Collides(u, username, phone, email)
      {
        if u.username == username {
          assert Satisfies(u, q'[0]);
        } else if u.phone == phone {
          assert Satisfies(u, q'[1]);
        } else if Present(email) && u.email == email {
          assert Satisfies(u, q'[2]);
        }
      }
    }
    q'
  }

  /** findOne: the position of the first record, in store order, that matches the query. */
  function FindOne(users: seq<User>, query: seq<Clause>): (r: Option<nat>)
    ensures r.None? <==> forall i :: 0 <= i < |users| ==> !MatchesAny(users[i], query)
    ensures r.Some? ==> r.value < |users| && MatchesAny(users[r.value], query)
    ensures r.Some? ==> forall j :: 0 <= j < r.value ==> !MatchesAny(users[j], query)
    decreases |users|
  {
    if users == [] then None
    else if MatchesAny(users[0], query) then Some(0)
    else match FindOne(users[1..], query)
      case None => None
      case Some(i) => Some(i + 1)
  }

  /**
   * The reason reported for a matched record: username first, then phone,
   * then (only for a present email) email; None when no test fires, in which
   * case the controller goes on to create the record.
   */
  function Classify(existing: User, username: string, phone: string, email: Option<string>): (r: Option<Reason>)
    ensures r.Some? <==> Collides(existing, username, phone, email)
    ensures r == Some(UsernameTaken) <==> existing.username == username
    ensures r == Some(PhoneTaken) <==> existing.username != username && existing.phone == phone
    ensures r == Some(EmailTaken) ==> Present(email) && existing.email == email
    ensures r == Some(EmailTaken) ==> existing.username != username && existing.phone != phone
  {
    if existing.username == username then Some(UsernameTaken)
    else if existing.phone == phone then Some(PhoneTaken)
    else if Present(email) && existing.email == email then Some(EmailTaken)
    else None
  }

  /** Record `i` is the first record, in store order, that the lookup matches. */
  ghost predicate IsFirstCollider(users: seq<User>, i: int, username: string, phone: string, email: Option<string>)
  {
    && 0 <= i < |users|
    && Collides(users[i], username, phone, email)
    && forall j :: 0 <= j < i ==> !Collides(users[j], username, phone, email)
  }

  lemma FirstColliderUnique(users: seq<User>, i: int, k: int, username: string, phone: string, email: Option<string>)
    requires IsFirstCollider(users, i, username, phone, email)
    requires IsFirstCollider(users, k, username, phone, email)
    ensures i == k
  {
  }

  /** The whole uniqueness check of a creation: None lets the creation proceed. */
  function DuplicateReason(users: seq<User>, username: string, phone: string, email: Option<string>): (r: Option<Reason>)
    ensures r.None? <==> forall i :: 0 <= i < |users| ==> !Collides(users[i], username, phone, email)
    ensures r == Some(UsernameTaken) <==>
      exists i :: IsFirstCollider(users, i, username, phone, email) && users[i].username == username
    ensures r == Some(PhoneTaken) <==>
      exists i :: IsFirstCollider(users, i, username, phone, email) && users[i].username != username && users[i].phone == phone
    ensures r == Some(EmailTaken) <==>
      exists i :: IsFirstCollider(users, i, username, phone, email) && users[i].username != username && users[i].phone != phone
    ensures r == Some(EmailTaken) ==> Present(email)
  {
    var query := OrQuery(username, phone, email);
    match FindOne(users, query)
    case None => None
    case Some(k) =>
      assert IsFirstCollider(users, k, username, phone, email);
      forall i | IsFirstCollider(users, i, username, phone, email)
        ensures i == k
      {
        FirstColliderUnique(users, i, k, username, phone, email);
      }
      Classify(users[k], username, phone, email)
  }

  /** No username, no phone and no present email is shared by two records. */
  ghost predicate Unique(users: seq<User>)
  {
    forall i, j :: 0 <= i < j < |users| ==>
      && users[i].username != users[j].username
      && users[i].phone != users[j].phone
      && (Present(users[i].email) ==> users[i].email != users[j].email)
  }

  /** A record that passed the uniqueness check keeps the table free of duplicates. */
  lemma {:induction false} CreateKeepsUnique(users: seq<User>, rec: User)
    requires Unique(users)
    requires DuplicateReason(users, rec.username, rec.phone, rec.email).None?
    ensures Unique(users + [rec])
  {
  }

  /** An absent email and the empty email take part in no lookup: both check only username and phone. */
  lemma EmailOnlyCountsWhenPresent(users: seq<User>, username: string, phone: string, email: Option<string>)
    requires !Present(email)
    ensures DuplicateReason(users, username, phone, email) == DuplicateReason(users, username, phone, None)
    ensures DuplicateReason(users, username, phone, email) != Some(EmailTaken)
  {
  }

  /**
   * The reason belongs to the first matched record, not to the whole table:
   * with a record sharing only the phone stored before the record sharing the
   * username, the phone reason is reported.
   */
  lemma ReasonFollowsStoreOrder()
    ensures
      var ann := User(0, "Ann", "Lee", "ann", "h1", "5551234567", None, "client");
      var bob := User(1, "Bob", "Ray", "bob", "h2", "5559876543", None, "client");
      DuplicateReason([ann, bob], "bob", "5551234567", None) == Some(PhoneTaken)
  {
  }

  // ---------------------------------------------------------------------------
  // Stored records

  /** The message of the store's duplicate-key error on `_id`. */
  const DuplicateKey := "E11000 duplicate key error"

  /**
   * The identifier `create` stores a body under: the body's own `_id` when it
   * sends one, otherwise a generated one. An `_id` already in the table is a
   * duplicate-key error, which the controllers pass on as a 500.
   */
  function AssignId(users: seq<User>, generated: UserId, requested: Option<UserId>): (r: Result<UserId, Error>)
    ensures r.Failure? <==> requested.Some? && exists u :: u in users && u.id == requested.value
    ensures r.Failure? ==> r.error == Error(500, DuplicateKey)
    ensures r.Success? ==> r.value == requested.GetOr(generated)
  {
    match requested
    case None => Success(generated)
    case Some(id) =>
      if FindById(users, id).Some? then Failure(Error(500, DuplicateKey)) else Success(id)
  }

  /**
   * With every stored identifier below `generated`, an identifier `AssignId`
   * hands out is in use by no record, so the table keeps distinct identifiers.
   */
  lemma AssignedIdIsFree(users: seq<User>, generated: UserId, requested: Option<UserId>, rec: User)
    requires DistinctIds(users)
    requires forall u :: u in users ==> u.id < generated
    requires AssignId(users, generated, requested).Success?
    requires rec.id == AssignId(users, generated, requested).value
    ensures forall u :: u in users ==> u.id != rec.id
    ensures DistinctIds(users + [rec])
  {
    var all := users + [rec];
    forall i, j | 0 <= i < j < |all|
      ensures all[i].id != all[j].id
    {
      if j == |users| {
        assert all[i] in users;
      }
    }
  }

  /** The fields a creation stores exactly as the body sends them. */
  predicate KeepsBody(r: User, body: NewUser)
  {
    && r.firstName == body.firstName
    && r.lastName == body.lastName
    && r.username == body.username
    && r.phone == body.phone
    && r.email == body.email
  }

  /** createClient stores the request body as given: plaintext password, role as sent or the default. */
  function ClientRecord(id: UserId, body: NewUser, defaultRole: string): (r: User)
    ensures r.id == id && KeepsBody(r, body)
    ensures r.password == body.password
    ensures body.role.Some? ==> r.role == body.role.value
    ensures body.role.None? ==> r.role == defaultRole
  {
    User(id, body.firstName, body.lastName, body.username, body.password, body.phone, body.email,
         body.role.GetOr(defaultRole))
  }

  /**
   * createEmployee stores `{ ...body, password: hashed, role: "employee" }`: the
   * client record of that body with the two fields overridden, whatever role
   * the body sends.
   */
  function EmployeeRecord(id: UserId, body: NewUser, hash: string -> string): (r: User)
    ensures r.id == id && KeepsBody(r, body)
    ensures r.password == hash(body.password) && r.role == "employee"
    ensures forall defaultRole: string ::
      r == ClientRecord(id, body.(password := hash(body.password), role := Some("employee")), defaultRole)
  {
    User(id, body.firstName, body.lastName, body.username, hash(body.password), body.phone, body.email,
         "employee")
  }

  // ---------------------------------------------------------------------------
  // Role listings and the employee-scoped client list

  /** find({ role }): the records with that role, in store order. */
  function WithRole(users: seq<User>, role: string): (r: seq<User>)
    ensures forall u :: u in r <==> u in users && u.role == role
    ensures forall u :: multiset(r)[u] == if u.role == role then multiset(users)[u] else 0
    ensures IsSubsequence(r, users)
  {
    Filter(users, (u: User) => u.role == role)
  }

  /** getClients */
  function GetClients(users: seq<User>): (r: seq<User>)
    ensures forall u :: u in r <==> u in users && u.role == "client"
    ensures forall u :: multiset(r)[u] == if u.role == "client" then multiset(users)[u] else 0
    ensures IsSubsequence(r, users)
  {
    WithRole(users, "client")
  }

  /** getEmployees */
  function GetEmployees(users: seq<User>): (r: seq<User>)
    ensures forall u :: u in r <==> u in users && u.role == "employee"
    ensures forall u :: multiset(r)[u] == if u.role == "employee" then multiset(users)[u] else 0
    ensures IsSubsequence(r, users)
  {
    WithRole(users, "employee")
  }

  /** Lead.find({ allocatedTo: { $in: employee }, isArchived: false }) */
  function EmployeeLeads(leads: seq<Lead>, employee: UserId): (r: seq<Lead>)
    ensures forall l :: l in r <==> l in leads && employee in l.allocatedTo && !l.isArchived
  {
    Filter(leads, (l: Lead) => employee in l.allocatedTo && !l.isArchived)
  }

  /** Array.prototype.findIndex over the leads by client phone: -1 when none matches. */
  function FindLeadIndex(leads: seq<Lead>, phone: string): (r: int)
    ensures -1 <= r < |leads|
    ensures r == -1 <==> forall l :: l in leads ==> l.clientPhone != phone
    ensures r != -1 ==> leads[r].clientPhone == phone
    ensures r != -1 ==> forall j :: 0 <= j < r ==> leads[j].clientPhone != phone
    decreases |leads|
  {
    if leads == [] then -1
    else if leads[0].clientPhone == phone then 0
    else
      var k := FindLeadIndex(leads[1..], phone);
      assert forall l :: l in leads[1..] ==> l in leads;
      if k == -1 then -1 else k + 1
  }

  /** Some non-archived lead allocated to `employee` has this client phone. */
  ghost predicate HasActiveLead(leads: seq<Lead>, employee: UserId, phone: string)
  {
    exists l :: l in leads && !l.isArchived && employee in l.allocatedTo && l.clientPhone == phone
  }

  /** getEmployeeClients: the clients whose phone is the client phone of one of the employee's active leads. */
  function GetEmployeeClients(users: seq<User>, leads: seq<Lead>, employee: UserId): (r: seq<User>)
    ensures forall u :: u in r <==> u in users && u.role == "client" && HasActiveLead(leads, employee, u.phone)
    ensures forall u ::
      multiset(r)[u] == (if u.role == "client" && HasActiveLead(leads, employee, u.phone) then multiset(users)[u] else 0)
    ensures IsSubsequence(r, GetClients(users))
  {
    var employeeLeads := EmployeeLeads(leads, employee);
    Filter(GetClients(users), (c: User) => FindLeadIndex(employeeLeads, c.phone) != -1)
  }

  /** An archived lead never adds a client to an employee's list. */
  lemma {:induction false} ArchivedLeadsNeverContribute(users: seq<User>, leads: seq<Lead>, archived: Lead, employee: UserId)
    requires archived.isArchived
    ensures GetEmployeeClients(users, leads + [archived], employee) == GetEmployeeClients(users, leads, employee)
  {
    var p := (l: Lead) => employee in l.allocatedTo && !l.isArchived;
    FilterAppend(leads, [archived], p);
    assert Filter([archived], p) == [];
    assert EmployeeLeads(leads + [archived], employee) == EmployeeLeads(leads, employee);
  }

  // ---------------------------------------------------------------------------
  // Partial update

  /**
   * updateUser's `$set`: the fields present in the patch replace the stored
   * ones. The identifier is never touched: `_id` is taken out of the body
   * before the update.
   */
  function Merge(u: User, patch: Patch): (r: User)
    ensures r.id == u.id
    ensures patch.firstName.Some? ==> r.firstName == patch.firstName.value
    ensures patch.firstName.None? ==> r.firstName == u.firstName
    ensures patch.lastName.Some? ==> r.lastName == patch.lastName.value
    ensures patch.lastName.None? ==> r.lastName == u.lastName
    ensures patch.username.Some? ==> r.username == patch.username.value
    ensures patch.username.None? ==> r.username == u.username
    ensures patch.password.Some? ==> r.password == patch.password.value
    ensures patch.password.None? ==> r.password == u.password
    ensures patch.phone.Some? ==> r.phone == patch.phone.value
    ensures patch.phone.None? ==> r.phone == u.phone
    ensures patch.email.Some? ==> r.email == patch.email
    ensures patch.email.None? ==> r.email == u.email
    ensures patch.role.Some? ==> r.role == patch.role.value
    ensures patch.role.None? ==> r.role == u.role
  {
    User(u.id,
         patch.firstName.GetOr(u.firstName),
         patch.lastName.GetOr(u.lastName),
         patch.username.GetOr(u.username),
         patch.password.GetOr(u.password),
         patch.phone.GetOr(u.phone),
         if patch.email.Some? then patch.email else u.email,
         patch.role.GetOr(u.role))
  }

  /**
   * A password in the patch is stored as sent: unlike createEmployee, the
   * update path does not hash it.
   */
  lemma MergeStoresPlainPassword(u: User, patch: Patch, hash: string -> string, password: string)
    requires patch.password == Some(password)
    requires hash(password) != password
    ensures Merge(u, patch).password != hash(password)
  {
  }

  /** A client-supplied `_id` has no effect on the update. */
  lemma MergeIgnoresId(u: User, patch: Patch, otherId: Option<UserId>)
    ensures Merge(u, patch.(id := otherId)) == Merge(u, patch)
  {
  }

  /** Applying the same patch twice is the same as applying it once. */
  lemma MergeIdempotent(u: User, patch: Patch)
    ensures Merge(Merge(u, patch), patch) == Merge(u, patch)
  {
  }

  /** A patch with no fields leaves the record as it was. */
  lemma MergeEmptyPatch(u: User, otherId: Option<UserId>)
    ensures Merge(u, Patch(otherId, None, None, None, None, None, None, None)) == u
  {
  }
}
