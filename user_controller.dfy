/**
 * The controllers of server/controllers/user.js that change the User
 * collection, as methods of an in-memory directory. The collection is the
 * `users` field, in store order; each method states the whole new state.
 */
module UserController {
  import opened Wrappers
  import opened UserQueries

  class UserDirectory {
    /** The User collection, in store order. */
    var users: seq<User>
    /** Identifiers are drawn from this counter; it stands in for the store's id generation. */
    var nextId: UserId
    /** The role the User schema gives a record created without one. */
    const defaultRole: string

    /** The counter after storing a record under `id`: past every identifier in use. */
    static function Advance(nextId: UserId, id: UserId): (next: UserId)
      ensures nextId <= next && id < next
      ensures id < nextId ==> next == nextId
    {
      if id < nextId then nextId else id + 1
    }

    ghost predicate Valid()
      reads this
    {
      && (forall i :: 0 <= i < |users| ==> users[i].id < nextId)
      && DistinctIds(users)
    }

    constructor (defaultRole: string)
      ensures Valid()
      ensures users == [] && nextId == 0 && this.defaultRole == defaultRole
    {
      users := [];
      nextId := 0;
      this.defaultRole := defaultRole;
    }

    /**
     * The duplicate lookup shared by both creations: builds the `$or` list,
     * pushing the email only when it is present, and takes the first match.
     */
    method FindExisting(username: string, phone: string, email: Option<string>) returns (existing: Option<nat>)
      ensures existing == FindOne(users, OrQuery(username, phone, email))
      ensures existing.Some? ==> existing.value < |users| && Collides(users[existing.value], username, phone, email)
      ensures existing.None? ==> forall i :: 0 <= i < |users| ==> !Collides(users[i], username, phone, email)
    {
      var orQuery := [UsernameIs(username), PhoneIs(phone)];
      if Present(email) {
        orQuery := orQuery + [EmailIs(email.value)];
      }
      assert orQuery == OrQuery(username, phone, email);
      existing := FindOne(users, orQuery);
    }

    /** Adds a record under an identifier no record has; the counter moves past it. */
    method Insert(rec: User)
      requires Valid()
      requires forall u :: u in users ==> u.id != rec.id
      modifies this
      ensures Valid()
      ensures users == old(users) + [rec] && nextId == Advance(old(nextId), rec.id)
    {
      users := users + [rec];
      nextId := Advance(nextId, rec.id);
      assert forall i :: 0 <= i < |old(users)| ==> users[i] == old(users)[i];
    }

    /** createClient: the uniqueness check, then the body is stored as given, under its own `_id` if it sends one. */
    method CreateClient(body: NewUser) returns (r: Result<User, Error>)
      requires Valid()
      modifies this
      ensures Valid()
      ensures match DuplicateReason(old(users), body.username, body.phone, body.email)
        case Some(reason) =>
          r == Failure(ConflictError(reason)) && users == old(users) && nextId == old(nextId)
        case None =>
          match AssignId(old(users), old(nextId), body.id)
          case Failure(e) =>
            r == Failure(e) && users == old(users) && nextId == old(nextId)
          case Success(id) =>
            && r == Success(ClientRecord(id, body, defaultRole))
            && users == old(users) + [r.value] && nextId == Advance(old(nextId), id)
      ensures r.Success? ==> r.value.password == body.password && r.value.role == body.role.GetOr(defaultRole)
      ensures old(Unique(users)) ==> Unique(users)
    {
      var existing := FindExisting(body.username, body.phone, body.email);
      if existing.Some? {
        var reason := Classify(users[existing.value], body.username, body.phone, body.email);
        if reason.Some? {
          r := Failure(ConflictError(reason.value));
          return;
        }
      }
      var idResult := AssignId(users, nextId, body.id);
      if idResult.Failure? {
        r := Failure(idResult.error);
        return;
      }
      var rec := ClientRecord(idResult.value, body, defaultRole);
      AssignedIdIsFree(users, nextId, body.id, rec);
      if Unique(users) {
        CreateKeepsUnique(users, rec);
      }
      Insert(rec);
      r := Success(rec);
    }

    /** createEmployee: the uniqueness check, then the body with a hashed password and role "employee", under its own `_id` if it sends one. */
    method CreateEmployee(body: NewUser, hash: string -> string) returns (r: Result<User, Error>)
      requires Valid()
      modifies this
      ensures Valid()
      ensures match DuplicateReason(old(users), body.username, body.phone, body.email)
        case Some(reason) =>
          r == Failure(ConflictError(reason)) && users == old(users) && nextId == old(nextId)
        case None =>
          match AssignId(old(users), old(nextId), body.id)
          case Failure(e) =>
            r == Failure(e) && users == old(users) && nextId == old(nextId)
          case Success(id) =>
            && r == Success(EmployeeRecord(id, body, hash))
            && users == old(users) + [r.value] && nextId == Advance(old(nextId), id)
      ensures r.Success? ==> r.value.role == "employee" && r.value.password == hash(body.password)
      ensures old(Unique(users)) ==> Unique(users)
    {
      var existing := FindExisting(body.username, body.phone, body.email);
      if existing.Some? {
        var reason := Classify(users[existing.value], body.username, body.phone, body.email);
        if reason.Some? {
          r := Failure(ConflictError(reason.value));
          return;
        }
      }
      var hashedPassword := hash(body.password);
      var idResult := AssignId(users, nextId, body.id);
      if idResult.Failure? {
        r := Failure(idResult.error);
        return;
      }
      var rec := EmployeeRecord(idResult.value, body, hash);
      assert rec.password == hashedPassword;
      AssignedIdIsFree(users, nextId, body.id, rec);
      if Unique(users) {
        CreateKeepsUnique(users, rec);
      }
      Insert(rec);
      r := Success(rec);
    }

    /** updateRole: 401 for an unknown id; otherwise only the role of that record changes. */
    method UpdateRole(id: UserId, role: string) returns (r: Result<User, Error>)
      requires Valid()
      modifies this
      ensures Valid() && nextId == old(nextId)
      ensures match FindById(old(users), id)
        case None =>
          r == Failure(Error(401, "User not exist")) && users == old(users)
        case Some(k) =>
          && users == old(users)[k := old(users)[k].(role := role)]
          && r == Success(users[k])
    {
      var found := FindById(users, id);
      if found.None? {
        r := Failure(NotFound(401));
        return;
      }
      var k := found.value;
      users := users[k := users[k].(role := role)];
      r := Success(users[k]);
    }

    /** updateUser: 400 for an unknown id; otherwise the patch, without its `_id`, is merged into that record. */
    method UpdateUser(id: UserId, patch: Patch) returns (r: Result<User, Error>)
      requires Valid()
      modifies this
      ensures Valid() && nextId == old(nextId)
      ensures match FindById(old(users), id)
        case None =>
          r == Failure(Error(400, "User not exist")) && users == old(users)
        case Some(k) =>
          && users == old(users)[k := Merge(old(users)[k], patch)]
          && r == Success(users[k]) && r.value.id == id
    {
      var found := FindById(users, id);
      if found.None? {
        r := Failure(NotFound(400));
        return;
      }
      var k := found.value;
      var body := patch.(id := None);
      MergeIgnoresId(users[k], patch, None);
      users := users[k := Merge(users[k], body)];
      r := Success(users[k]);
    }

    /** deleteUser: 400 for an unknown id; otherwise exactly that record is removed and returned. */
    method DeleteUser(id: UserId) returns (r: Result<User, Error>)
      requires Valid()
      modifies this
      ensures Valid() && nextId == old(nextId)
      ensures match FindById(old(users), id)
        case None =>
          r == Failure(Error(400, "User not exist")) && users == old(users)
        case Some(k) =>
          && r == Success(old(users)[k])
          && users == RemoveAt(old(users), k)
      ensures forall u :: u in users ==> u.id != id
      ensures forall u :: u in old(users) && u.id != id ==> u in users
    {
      var found := FindById(users, id);
      if found.None? {
        r := Failure(NotFound(400));
        return;
      }
      var k := found.value;
      r := Success(users[k]);
      RemoveAtKeepsOthers(users, k);
      users := RemoveAt(users, k);
    }

    /** deleteWholeCollection: every record is removed; the summary is the number removed. */
    method DeleteWholeCollection() returns (deletedCount: nat)
      requires Valid()
      modifies this
      ensures Valid() && nextId == old(nextId)
      ensures users == [] && deletedCount == |old(users)|
    {
      deletedCount := |users|;
      users := [];
    }
  }
}
