# User directory and create-user form, modelled in Dafny

This project models the user-management core of a lead-management web
application:

- the Express controllers of `server/controllers/user.js`, which create, look up,
  list, update and delete records of the `User` collection and cross-reference
  the `Lead` collection;
- the create-user form `client/src/Pages/Users/CreateEmployee.jsx`, whose zod
  schema validates the fields and whose submit handler dispatches the create
  action for the form's role.

The database is an in-memory table kept in store order. `findOne` is "the
first matching record in store order", and `findById` is "the record with
that identifier".

Files:

- `wrappers.dfy` (module `Wrappers`): `Option` for absent JavaScript fields,
  and `Result` for a controller's outcome.
- `user_queries.dfy` (module `UserQueries`): the records, the duplicate lookup
  and how its conflict reason is chosen, the role and employee-scope listings,
  `getUser` and the update merge. All of these are pure functions with lemmas.
- `user_controller.dfy` (module `UserController`): class `UserDirectory`. Its
  `users: seq<User>` field is the collection. Its methods are the controllers
  that change it. Each one states the whole new state, and `Valid()` (distinct
  identifiers below the id counter) is kept by all of them.
- `create_user_form.dfy` (module `CreateUserForm`): the schema's field rules,
  the two regular expressions written as predicates over strings, and the
  role dispatch of `onSubmit`.

Abstractions:

- bcrypt is the function parameter `hash` of `CreateEmployee`.
- zod's `.email()` format check is the function parameter `isEmail`.
- The User schema's default role is the directory's `defaultRole` constant.
  `server/models/user.js` is not part of this model.
- Generated ObjectIds are drawn from the counter `nextId`. The counter moves past
  any identifier a client supplies.

One might expect an existing username to be reported whenever any record has
it. The code reports the reason of the record `findOne` returns, so that
holds only when the record that shares the username is the first match. If an
earlier record shares only the phone, the code reports the phone, even though
another record has the username. `DuplicateReason` states the rule for the
first matched record, and `ReasonFollowsStoreOrder` shows a concrete store
where this happens.

A creation body may carry its own `_id`. `User.create` stores the record under
that identifier, and an identifier already in use is a duplicate-key error,
which the controllers turn into a 500. `AssignId` models this choice.

## Model

| member | source | states |
|---|---|---|
| `UserQueries.GetUser` | server/controllers/user.js:19-33 | fails exactly when no record has the id, with status 401 and "User not exist"; otherwise returns a stored record that has that id |
| `UserQueries.FindById` | server/controllers/user.js:200-201 | `findById`: None exactly when no record has the id; otherwise the position of the first record with it |
| `UserQueries.RemoveAtKeepsOthers` | server/controllers/user.js:246 | with distinct ids, removing a position removes that record's id from the table, keeps every other record, and keeps ids distinct |
| `UserQueries.OrQuery` | server/controllers/user.js:127-130 | a record matches the `$or` list exactly when it shares the username or the phone, or shares a present email; the email clause is there exactly when the email is present (non-empty) |
| `UserQueries.FindOne` | server/controllers/user.js:132 | `findOne`: None exactly when no record matches; otherwise a matching position with no match before it |
| `UserQueries.Classify` | server/controllers/user.js:134-144 | a matched record always gets a reason (the fall-through to create cannot happen after a match); the username reason exactly when the username is shared; the phone reason exactly when the username differs and the phone is shared; the email reason only for a present, equal email with different username and phone |
| `UserQueries.FirstColliderUnique` | server/controllers/user.js:132 | there is at most one first matching record |
| `UserQueries.DuplicateReason` | server/controllers/user.js:126-144 | no reason exactly when no record collides; the reason is username, phone or email exactly as the first colliding record in store order shares the username, else the phone, else neither; the email reason needs a present email |
| `UserQueries.CreateKeepsUnique` | server/controllers/user.js:134-146 | a record that passes the check, appended to a table with no shared username, phone or present email, leaves it with none |
| `UserQueries.EmailOnlyCountsWhenPresent` | server/controllers/user.js:127-143 | an empty or absent email gives the same outcome as no email at all, and never gives the email reason |
| `UserQueries.ReasonFollowsStoreOrder` | server/controllers/user.js:132-143 | with a phone-only match stored before the username match, the phone reason is reported |
| `UserQueries.AssignId` | server/controllers/user.js:146 | `create` uses the body's `_id` when it sends one and a generated id otherwise; it fails, with status 500, exactly when the body's `_id` is already in use |
| `UserQueries.AssignedIdIsFree` | server/controllers/user.js:146 | with every stored id below the generated one, an id `AssignId` hands out is in use by no record, so the table keeps distinct ids |
| `UserQueries.ClientRecord` | server/controllers/user.js:146 | the stored client record has the assigned id, the names, username, phone and email as sent, the plaintext password as sent, and the payload role or else the default role |
| `UserQueries.EmployeeRecord` | server/controllers/user.js:178-184 | the stored employee record keeps the names, username, phone and email as sent, with `hash(password)` and role "employee"; it is the client record of the body with those two fields overridden, whatever role the body sends |
| `UserQueries.ConflictError` | server/controllers/user.js:136-142 | every conflict is reported with status 400 |
| `UserQueries.ConflictMessagesDistinct` | server/controllers/user.js:136-142 | the three conflict reasons are reported with three different messages |
| `UserQueries.Filter` | server/controllers/user.js:91-97 | keeps exactly the elements that satisfy the predicate, each as often as in the input, as a subsequence in their original order |
| `UserQueries.FilterAppend` | server/controllers/user.js:91-97 | filtering a concatenation is the concatenation of the filtered parts |
| `UserQueries.WithRole` | server/controllers/user.js:71 | `find({ role })` returns exactly the records with that role, each as often as stored, in store order |
| `UserQueries.GetClients` | server/controllers/user.js:69-80 | exactly the records with role "client", each as often as stored, in store order |
| `UserQueries.GetEmployees` | server/controllers/user.js:109-120 | exactly the records with role "employee", each as often as stored, in store order |
| `UserQueries.EmployeeLeads` | server/controllers/user.js:85-88 | exactly the leads allocated to the employee that are not archived |
| `UserQueries.FindLeadIndex` | server/controllers/user.js:93-95 | `findIndex` is -1 exactly when no lead has the phone; otherwise the first lead with that phone |
| `UserQueries.GetEmployeeClients` | server/controllers/user.js:82-107 | exactly the client-role records whose phone is the client phone of a non-archived lead allocated to the employee, each as often as stored, as a subsequence of the client list |
| `UserQueries.ArchivedLeadsNeverContribute` | server/controllers/user.js:85-97 | adding an archived lead never changes an employee's client list |
| `UserQueries.Merge` | server/controllers/user.js:224-229 | `$set: body`: the merged record keeps the stored identifier; each field present in the patch replaces the stored value, and each absent field keeps it |
| `UserQueries.MergeStoresPlainPassword` | server/controllers/user.js:224-229 | a password in the patch is stored as sent, not hashed as createEmployee does |
| `UserQueries.MergeIgnoresId` | server/controllers/user.js:224 | a client-supplied `_id` in the patch has no effect on the result |
| `UserQueries.MergeIdempotent` | server/controllers/user.js:225-229 | applying the same patch twice equals applying it once |
| `UserQueries.MergeEmptyPatch` | server/controllers/user.js:225-229 | a patch with no fields leaves the record unchanged |
| `UserController.UserDirectory.FindExisting` | server/controllers/user.js:127-132 | builds the `$or` list, adding the email only when present, and returns the first colliding record, or None when none collides |
| `UserController.UserDirectory.Insert` | server/controllers/user.js:146 | appends a record whose id is not in use, moves the counter past that id, and keeps ids distinct |
| `UserController.UserDirectory.CreateClient` | server/controllers/user.js:122-153 | on a conflict, fails with that reason's 400 error and leaves the store unchanged; otherwise, when the body's `_id` is in use, fails with the 500 duplicate-key error and leaves the store unchanged; otherwise appends the body as given under the assigned id (plaintext password, payload role or the schema default) and changes nothing else; keeps the store free of duplicates |
| `UserController.UserDirectory.CreateEmployee` | server/controllers/user.js:155-193 | the same check and the same effect on conflict, and the same 500 for a body `_id` in use; otherwise appends the body under the assigned id with `hash(password)` and role "employee", whatever role the payload carries, and keeps the store free of duplicates |
| `UserController.UserDirectory.UpdateRole` | server/controllers/user.js:195-216 | 401 "User not exist" and no change for an unknown id; otherwise only that record's role changes, and the updated record is returned |
| `UserController.UserDirectory.UpdateUser` | server/controllers/user.js:218-238 | 400 "User not exist" and no change for an unknown id; otherwise only that record changes, it becomes the merge of the patch, its id is the requested id, and it is returned |
| `UserController.UserDirectory.DeleteUser` | server/controllers/user.js:240-255 | 400 "User not exist" and no change for an unknown id; otherwise exactly that record is removed and returned, and every other record stays, in order |
| `UserController.UserDirectory.DeleteWholeCollection` | server/controllers/user.js:257-268 | the store is empty, and the count removed is the old size |
| `CreateUserForm.Utf16Length` | client/src/Pages/Users/CreateEmployee.jsx:20-22 | the JavaScript length lies between the number of characters and twice that number |
| `CreateUserForm.Utf16LengthOfBmp` | client/src/Pages/Users/CreateEmployee.jsx:20-22 | for text without characters above U+FFFF, the JavaScript length is the number of characters |
| `CreateUserForm.NameLengthExamples` | client/src/Pages/Users/CreateEmployee.jsx:20-22 | "Al" passes `.min(2)` and "A" fails it; a single character above U+FFFF passes |
| `CreateUserForm.RepeatsIff` | client/src/Pages/Users/CreateEmployee.jsx:27 | an anchored `[class]{lo,hi}` accepts exactly the strings of an allowed length made only of that class |
| `CreateUserForm.LookaheadInAlphabet` | client/src/Pages/Users/CreateEmployee.jsx:27 | on password-alphabet text, a lookahead `(?=.*[k])` succeeds exactly when some character is in class k |
| `CreateUserForm.PasswordPatternIff` | client/src/Pages/Users/CreateEmployee.jsx:26-29 | the password pattern accepts exactly the strings of at least 8 characters, all in `[A-Za-z0-9@$!%*?&]`, with at least one lowercase letter, one uppercase letter, one digit and one of `@$!%*?&` |
| `CreateUserForm.PasswordMinLengthRedundant` | client/src/Pages/Users/CreateEmployee.jsx:25-27 | a string the pattern accepts is at least 8 long, so `.min(8)` never rejects it |
| `CreateUserForm.PasswordAccepted` | client/src/Pages/Users/CreateEmployee.jsx:27 | "Passw0rd!" matches the pattern |
| `CreateUserForm.PasswordsRejected` | client/src/Pages/Users/CreateEmployee.jsx:27 | "Passw0rd#" (`#`), "Pass w0rd!" (space) and "Pa0!" (too short) do not match |
| `CreateUserForm.PhonePatternIff` | client/src/Pages/Users/CreateEmployee.jsx:30 | the phone pattern accepts exactly the strings of 10 or 11 characters, all ASCII digits |
| `CreateUserForm.PhoneAccepted` | client/src/Pages/Users/CreateEmployee.jsx:30 | "5551234567" matches |
| `CreateUserForm.PhonesRejected` | client/src/Pages/Users/CreateEmployee.jsx:30 | a leading `+` or `-` separators make the phone fail |
| `CreateUserForm.MessagesDistinct` | client/src/Pages/Users/CreateEmployee.jsx:20-31 | `Message` gives each failing check of the schema its own message: two different issues never share a message |
| `CreateUserForm.NameIssues` | client/src/Pages/Users/CreateEmployee.jsx:20-22 | each name issue is raised exactly when that field is shorter than 2, and no other issue is raised |
| `CreateUserForm.PasswordIssues` | client/src/Pages/Users/CreateEmployee.jsx:23-29 | the too-short issue exactly when the password is shorter than 8, the pattern issue exactly when the pattern fails, and no other issue |
| `CreateUserForm.ContactIssues` | client/src/Pages/Users/CreateEmployee.jsx:30-31 | the phone issue exactly when the phone pattern fails, the email issue exactly when the email is neither absent, empty nor a valid address, and no other issue |
| `CreateUserForm.Issues` | client/src/Pages/Users/CreateEmployee.jsx:19-32 | each field's issue is raised exactly when that field fails its check: names and username shorter than 2, password shorter than 8, password breaking the rule in words, phone not 10 or 11 digits, email not absent, empty or valid; the too-short issue never appears without the pattern issue |
| `CreateUserForm.FormAcceptedIff` | client/src/Pages/Users/CreateEmployee.jsx:19-32 | the schema accepts exactly when both names and the username are at least 2 long, the password meets the rule in words, the phone is 10 or 11 digits, and the email is absent, empty or passes the format check |
| `CreateUserForm.OptionalEmail` | client/src/Pages/Users/CreateEmployee.jsx:31 | an absent and an empty email both pass, whatever the format check says |
| `CreateUserForm.OnSubmit` | client/src/Pages/Users/CreateEmployee.jsx:60-70 | the form is always reset; with no role (the default "employee") or "employee", only `createEmployee` is dispatched; with "client", only `createClient`; with any other role, nothing |
| `CreateUserForm.HandleSubmit` | client/src/Pages/Users/CreateEmployee.jsx:95 | values with an issue dispatch nothing and do not reset; values without one are handed to `onSubmit`, with its dispatch and reset; every dispatched action carries the submitted values, which pass the schema |

## Left out

- `filterUser` (server/controllers/user.js:35-67) is not modelled. As written, it answers 200 only when neither date is truthy and `find` returns no record; the answer is then an empty result. Every other call ends in the 500 path: a truthy date calls `isValidDate`, which is not defined, and a non-empty result calls `.populate` on an array, which has no such method.
- `getUsers` (server/controllers/user.js:6-17) returns the whole collection. It is the `users` field itself, so it needs no member.
- Store and infrastructure failures are not modelled: a malformed id or `_id`, a missing password reaching bcrypt, or a lost connection. Each ends in a 500 error. So is the Express response envelope, including the `reuslt` key at line 209.
- The Mongoose schema (`server/models/user.js`) is not part of this model. Its validation, any unique indexes and its timestamps (`createdAt`) are left out. Only the default role is kept, as `defaultRole`.
- `UpdateUser` and `UpdateRole` do not check uniqueness, because the code does not. A patch can give a record another record's username or phone.
- `findById` followed by `findByIdAndUpdate` / `findByIdAndDelete` runs as one atomic step. The race between the duplicate lookup and `create` is left out as well, since it is a concurrency concern.
- `allocatedTo: { $in: id }` is modelled as membership of the employee in the lead's `allocatedTo` list. Phones are compared as strings, which is what `toString()` produces.
- `CreateEmployee` applies `hash` as a plain function. bcrypt's salt and cost factor 12 are not modelled, and neither is any cryptographic property.
- `HandleSubmit` covers only zod's verdict. React rendering, the dialog, `react-hook-form` state, `reset()` itself and the Redux actions' network calls are UI and are not modelled.
- `Message` holds the messages written in the schema. For a failed email, what zod reports for the `.or` union is decided by zod and is not modelled.
- `AssignId` reports the duplicate-key error with the fixed message `E11000 duplicate key error`. The store's full message also names the collection, the index and the key, and is not modelled.
- `Merge`: a JSON `null` in the patch (`$set: { email: null }`) clears or nulls the field in the store. Patch fields are `Option<string>`, which has no null, so this case is not modelled.
