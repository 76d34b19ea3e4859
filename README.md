# Authorization engine of the YWStore backend, in Dafny

This project models the part of the YWStore backend that decides whether a
protected operation may run:

- the **permission checker**. There are two versions of it. The first
  (src/permissions/checker.py) hands its validators a dictionary of object
  keys. The later one (src/permissions/service.py) hands them a single
  `object_pk`. Both run a role gate first. Then they run the configured
  validators in order, and the first validator that raises decides.
- **context extraction** and the `permissions` decorator
  (src/permissions/utils.py). They find the acting user and the target
  primary key among a call's keyword arguments. The checker runs before
  the wrapped function.
- the **superuser bypass wrappers** `allow_superuser` (src/core/utils.py
  and src/core/auth/access.py).
- the **ownership and admin guards**: src/core/auth/access.py,
  src/apps/company/validators.py and src/apps/roles/access.py.
- the helpers `is_member` and `to_json`.
- the **existence and uniqueness checks of `CompanyService`**
  (src/apps/company/service.py). They run over the company table.

A Python call that returns or raises is a `Call<T>`: `Returned(value)` or
`Raised(error)`. The errors are `RoleNotExists`, `AdminRequiredError` and
`IsOwnerError` (all 403), `NotFoundError` (404) and `UniqueConstraintError`
(400). Two Python runtime errors that the code can reach are modelled too:
reading an attribute of `None`, and iterating over `None`. The web
framework answers both with a 500 response.

Modules, one per source file: `Domain` (the shared data model), `Checker`,
`Service`, `PermissionsUtils`, `AuthAccess`, `CompanyValidators`,
`CoreUtils`, `RolesAccess`, `Mixins` and `CompanyStore`.

Keyword arguments are an ordered list of `Kwarg(name, value)`, which keeps
the order in which Python dicts are iterated. The values that matter are
`User` objects and integers. Every other value is an opaque object. A
validator is a function from the arguments it is called with to a `Call`.
Each run of the validators also returns the list of arguments that each
invoked validator received. This makes the order and the short-circuit
visible in the contracts.

## Behaviour as written that is easy to miss

- **An absent user passes the role gate.** The guard is
  `if self.user and not self.user.is_superuser` (src/permissions/checker.py:31,
  src/permissions/service.py:35). With no user, the validators alone decide.
  See `PermissionsUtils.AbsentUserSkipsRoleGate`.
- **The checker does not skip validators for superusers.** Only the role
  gate lets a superuser through. A validator skips a superuser only when it
  is wrapped by `allow_superuser`, and `is_company_admin` is. See
  `Checker.SuperuserStillRunsValidators`.
- **`get_object_pk` returns only the first matching argument**, not all
  matches.
- **A validator list of `None` is not skipped.** When the role gate passes,
  `for validator in None` raises `TypeError`.
- `update` runs its uniqueness check against every row, including the row
  being updated. So a full update that keeps the company's own name is
  refused with 400 (`CompanyStore.KeepingOwnNameIsRefused`).
- src/apps/company/validators.py:7 imports `allow_superuser` and `is_member`
  from src/permissions/utils.py, which does not define them. The model uses
  the definitions in src/core/utils.py.
- src/permissions/utils.py:6 imports `PermissionService`, but the class is
  named `PermissionChecker`. The model uses that class.

## Model

| member | source | states |
|---|---|---|
| Domain.RolesSet | src/permissions/checker.py:32 | `user.roles_set`: a name is in it iff some role of the user has that name |
| Domain.Error.StatusCode | src/permissions/checker.py:33-36 | the HTTP status each raise carries: 403 exactly for the role, admin and ownership errors, 404 exactly for a missing company, 400 exactly for a duplicate name |
| Domain.FirstSuperuser | src/core/utils.py:47-50 | finds a superuser exactly when some keyword argument is a superuser `User`; what it finds is the first such argument |
| CoreUtils.RoleNames | src/core/utils.py:41 | the list of role names, one per role, in order |
| CoreUtils.IsMember | src/core/utils.py:40-41 | true iff some role of the user has that name |
| CoreUtils.IsMemberIffInRolesSet | src/core/utils.py:40-41 | the list test agrees with membership in `roles_set`, in both directions |
| CoreUtils.IsMemberIgnoresOrderAndRepeats | src/core/utils.py:41 | the answer does not depend on the order or repetition of the user's roles |
| CoreUtils.AllowSuperuser | src/core/utils.py:44-53 | if any keyword argument is a superuser `User`, returns `None` without calling the function; otherwise returns the function's outcome on the same arguments |
| Mixins.ToJson | src/core/mixins.py:2-7 | the output keys are exactly the input keys that do not start with `_`, and each kept key keeps its value |
| Mixins.ToJsonShrinks | src/core/mixins.py:3-7 | no output key starts with `_`, and the output is never larger than the input |
| Mixins.ToJsonIdempotent | src/core/mixins.py:4-7 | filtering twice gives the same result as filtering once |
| Mixins.ToJsonIgnoresPrivate | src/core/mixins.py:6 | instances that agree on their public attributes give the same output |
| Checker.RoleGate | src/permissions/checker.py:29-36 | raises `RoleNotExists` 403 iff the user is present, not a superuser, and shares no role with `allowed_roles`; a superuser or an absent user passes; with no allowed roles, every present non-superuser is refused |
| Checker.RunAllPassesIffAllPass | src/permissions/checker.py:38-46 | the validators pass iff each one passes, and then all of them were invoked |
| Checker.RunAllStopsAtFirstRaise | src/permissions/checker.py:40-46 | a failed run ends at the first validator that raises; its error is the result, every earlier validator passed, and no later one was invoked |
| Checker.RunAllAppend | src/permissions/checker.py:40-46 | running two lists in a row reaches the second list only if the first passes, and nothing after a raise is invoked |
| Checker.ExecuteSpec | src/permissions/checker.py:48-51 | the role gate decides first; validators run only if it passes, and a `None` list then raises `TypeError` |
| Checker.ExecuteInvoked | src/permissions/checker.py:48-51 | no validator is invoked when the role gate raises |
| Checker.PermissionChecker.constructor | src/permissions/checker.py:12-27 | stores the user, allowed roles, validators, object keys and extra kwargs |
| Checker.PermissionChecker.CheckUserRoles | src/permissions/checker.py:29-36 | raises `RoleNotExists` with 403 iff the user is present, not a superuser and holds none of the allowed roles; otherwise returns `None` |
| Checker.PermissionChecker.RunValidators | src/permissions/checker.py:38-46 | the loop's outcome is the first raise or `None`; it invokes the validators in list order up to the first raise, each with the same `user`, `objects_pk` and kwargs |
| Checker.PermissionChecker.Execute | src/permissions/checker.py:48-51 | the outcome and invocations are those of the role gate followed by the validators; no field is changed |
| Checker.SuperuserStillRunsValidators | src/permissions/checker.py:48-51 | for a superuser the decision and the number of validators invoked are exactly those of running every validator; there is no checker-level bypass |
| Checker.ExecuteTwice | src/permissions/checker.py:48-51 | two calls of `execute` on one checker give the same outcome |
| Service.ValidatorKwargs | src/permissions/service.py:45-50 | each validator gets `user`, then `object_pk`, then the opaque `session`, then the extra kwargs, and nothing else |
| Service.PermissionChecker.constructor | src/permissions/service.py:12-27 | stores the user, allowed roles, validators, `object_pk` and extra kwargs |
| Service.PermissionChecker.UserRolesSet | src/permissions/service.py:29-31 | exactly the names of the user's roles, regardless of order and duplicates |
| Service.PermissionChecker.CheckUserRoles | src/permissions/service.py:33-40 | decides exactly as the role gate of the first version |
| Service.PermissionChecker.RunValidators | src/permissions/service.py:42-50 | runs the validators in order, each with the single `object_pk`, stopping at the first raise |
| Service.PermissionChecker.Execute | src/permissions/service.py:52-55 | the role gate runs strictly before the validators, which stop at the first raise |
| PermissionsUtils.GetUserFromKwargs | src/permissions/utils.py:13-16 | the first keyword argument that is a `User`, or `None` iff there is none |
| PermissionsUtils.GetObjectPk | src/permissions/utils.py:19-22 | the value of the first argument whose name starts with `pk` or ends with `pk` or `id`, or `None` iff no name matches |
| PermissionsUtils.GetObjectPkIsFirstMatch | src/permissions/utils.py:19-22 | the result is the first element of the list of matching arguments, so non-matching names are never returned |
| PermissionsUtils.GetObjectPkIgnoresOtherNames | src/permissions/utils.py:21 | arguments with non-matching names (`session`, `service`) do not change the extracted key |
| PermissionsUtils.Permissions | src/permissions/utils.py:25-48 | the checker gets the decorator's roles and validators plus the extracted user and key; the wrapped function runs iff `execute` returns, gets the arguments unchanged, and its outcome is returned unchanged |
| PermissionsUtils.CompanyRouteContext | src/permissions/utils.py:33-34 | from `company_pk=` and `user=` the decorator extracts that user and that key |
| PermissionsUtils.AdminScenarios | src/apps/company/validators.py:13-24 | with roles `[ADMIN]` and validators `[is_company_admin]`, an ADMIN employed at company 5 may act on company 5 and gets `IsOwnerError` on company 7 |
| PermissionsUtils.RoleGateScenarios | src/permissions/service.py:33-40 | a moderator is refused at the role gate; a superuser with no roles passes |
| PermissionsUtils.AbsentUserSkipsRoleGate | src/permissions/service.py:35 | with no `User` argument, the validators alone decide |
| AuthAccess.AllowSuperuser | src/core/auth/access.py:16-24 | the first superuser argument is returned without calling the function; with none, the function's outcome on the same arguments is returned |
| AuthAccess.GetCompanyAdmin | src/core/auth/access.py:27-42 | a superuser is returned; otherwise a non-member of `company_pk` gets `IsOwnerError`, never `AdminRequiredError`; a member holding ADMIN is returned; a member without ADMIN gets `AdminRequiredError` |
| AuthAccess.GetCompanyAdminPostQuery | src/core/auth/access.py:45-63 | decides exactly as `get_company_admin`, using the body's `company_id` |
| AuthAccess.GetCurrentEmployee | src/core/auth/access.py:66-82 | a superuser is returned; otherwise a different `user_pk` gets `IsOwnerError` before any company check; then a non-member of `company_pk` gets `IsOwnerError`; otherwise the user is returned |
| AuthAccess.GetCurrentEmployeeAsWritten | src/core/auth/access.py:66-82 | as written, a non-superuser gets the unguarded body, which reads `employee.company_id` |
| AuthAccess.CurrentEmployeeWithoutEmployment | src/core/auth/access.py:77-81 | a user with no employment acting on their own record gets an `AttributeError` as written and `IsOwnerError` as intended; the two versions agree in every other case |
| AuthAccess.OnlySelfPassesCurrentEmployee | src/core/auth/access.py:72-82 | an employee of the company passes exactly for their own `user_pk` |
| AuthAccess.CompanyAdminGuardsAgree | src/core/auth/access.py:32-42 | `get_company_admin` and `is_company_admin` admit the same non-superusers; for a user who is neither a member nor an ADMIN they raise different errors |
| CompanyValidators.IsCompanyAdminCheck | src/apps/company/validators.py:14-24 | intended body: without ADMIN it raises `AdminRequiredError`, before any ownership check; an ADMIN not employed at `object_pk` gets `IsOwnerError`; it passes iff the user is an ADMIN employed there |
| CompanyValidators.IsCompanyAdminCheckAsWritten | src/apps/company/validators.py:15-24 | as written it never raises `AdminRequiredError`; a present user passes, returning `None`, iff employed at `object_pk`, and otherwise gets `IsOwnerError` |
| CompanyValidators.IsCompanyAdmin | src/apps/company/validators.py:13-24 | if any keyword argument is a superuser, the call passes unchecked; otherwise the intended body decides |
| CompanyValidators.IsCompanyAdminAsWritten | src/apps/company/validators.py:13-24 | the wrapped validator as written never raises `AdminRequiredError`; any superuser argument passes, and otherwise the as-written body decides |
| CompanyValidators.UnawaitedMemberCheckAdmitsNonAdmin | src/apps/company/validators.py:15 | a non-ADMIN employee of company 5 passes as written and is refused as intended |
| CompanyValidators.AdminOfOtherCompanyRefused | src/apps/company/validators.py:20-24 | an ADMIN of another company, or of none, gets `IsOwnerError`; an ADMIN of the target company passes |
| RolesAccess.GetCompanyAdmin | src/apps/roles/access.py:10-16 | returns the same user iff ADMIN is in `roles_set`, and raises `AdminRequiredError` iff it is not |
| RolesAccess.DecisionIgnoresSuperuserAndEmployment | src/apps/roles/access.py:10-16 | neither the superuser flag nor the employment changes the decision, so there is no superuser bypass |
| CompanyStore.NewCompany | src/apps/company/repository.py:23-27 | a created row copies all five fields of the request and is neither hidden nor verified |
| CompanyStore.Patch | src/apps/company/service.py:61-65 | each of the five fields the request carries replaces the stored one, each field it leaves out keeps its stored value, and the flags are kept |
| CompanyStore.AtMostOneRowPerName | src/apps/company/repository.py:35-39 | with unique names, a lookup by name finds at most one row |
| CompanyStore.KeepingOwnNameIsRefused | src/apps/company/service.py:59-60 | a full update that keeps the company's own name fails the uniqueness check |
| CompanyStore.CompanyService.CheckNameIsUnique | src/apps/company/service.py:67-73 | raises `UniqueConstraintError` 400 iff some stored company has that name; a missing name never clashes |
| CompanyStore.CompanyService.GetCompanyOr404 | src/apps/company/service.py:24-30 | returns the stored company for a known key, and raises `NotFoundError` 404 for an unknown one |
| CompanyStore.CompanyService.Create | src/apps/company/service.py:20-22 | a used name gives 400 and no change; otherwise exactly one row is added under a new key; names stay unique |
| CompanyStore.CompanyService.Delete | src/apps/company/service.py:32-33 | the table is emptied |
| CompanyStore.CompanyService.DeleteByPk | src/apps/company/service.py:35-37 | an unknown key gives 404 and no deletion; otherwise only that row is removed |
| CompanyStore.CompanyService.UpdateIsVerified | src/apps/company/service.py:39-44 | an unknown key gives 404 before any change; otherwise only that row's `is_verified` changes |
| CompanyStore.CompanyService.UpdateIsHidden | src/apps/company/service.py:46-51 | an unknown key gives 404 before any change; otherwise only that row's `is_hidden` changes |
| CompanyStore.CompanyService.Update | src/apps/company/service.py:53-65 | existence (404) is checked before the name (400); a name used by any row, its own included, gives 400; otherwise only that row is patched; names stay unique |

## Findings

| source | as written | input that shows it | evidently intended | confidence | as-written member | corrected member |
|---|---|---|---|---|---|---|
| src/apps/company/validators.py:15 | `is_member` is a coroutine function called without `await`. Its result is always truthy, so the ADMIN check never raises | a non-superuser with role Moderator, employed at company 5, with `object_pk=5`: the call passes | refuse users without ADMIN with `AdminRequiredError` | high, not executed | CompanyValidators.IsCompanyAdminAsWritten | CompanyValidators.IsCompanyAdmin |
| src/core/auth/access.py:77 | `current_user.employee.company_id` is read without checking that `employee` exists | a non-superuser with id 3 and no employment calls with `user_pk=3, company_pk=5`: `AttributeError`, which gives a 500 response | `IsOwnerError` 403, as the other guards in the file give for a missing employment | medium, not executed | AuthAccess.GetCurrentEmployeeAsWritten | AuthAccess.GetCurrentEmployee |

## Left out

- The database session passed to validators and repositories is an
  external handle, and no validator in this code uses it. For
  src/permissions/service.py it is an opaque `session` keyword argument
  (`Service.ValidatorKwargs`). When the checker is built by the
  `permissions` decorator, that value is the unevaluated default
  `Depends(get_session)` (src/permissions/utils.py:28, 37), not a session.
  No decision depends on it. `Checker.CheckerArgs` leaves out the
  `session=` argument that src/permissions/checker.py:44 passes.
- `async`/`await` is modelled as ordinary sequential calls. One exception
  is the missing `await` listed under Findings.
- The SQLAlchemy repository is modelled as a map from primary key to
  company row. The update methods that `CompanyService` calls (`update`,
  `update_is_verified`, `update_is_hidden`) do not exist in
  src/apps/company/repository.py. The model takes them to overwrite the
  named fields.
- CompanyStore.CompanyService.GetCompanyOr404 and
  CompanyStore.CompanyService.DeleteByPk assume a working lookup and delete
  by key. As written, both would fail before any 404:
  - src/apps/company/service.py:25 calls `get_by_pk(company_pk=...)` and
    service.py:37 calls `delete_by_pk(company_pk=...)`, but both
    repository methods take `pk` (src/apps/company/repository.py:29, 45).
    Python raises `TypeError` for the unexpected keyword.
  - `CompanyRepository` does not implement the abstract `update` of
    `IRepository` (src/core/interfaces.py:16-18), so it cannot be
    instantiated at all.
- The model gives a user at most one employment (`User.employee` is an
  `Option`), and every guard reads `employee.company_id` as a single
  record. The source declares `User.employee` only through
  `backref="employee"` on the employee's many-to-one `user` relationship
  (src/apps/employee/models.py:38-43). `uselist=False` is set on the
  forward side only. The composite key `(company_id, user_id)` allows
  several employee rows per user. Read that way, `user.employee` is a
  list, and the `.company_id` reads at src/core/auth/access.py:32, 52 and
  77 and at src/apps/company/validators.py:20 would raise `AttributeError`
  for every employed user. The model assumes the single-record reading the
  guards are written for.
- CompanyStore.CompanyService.Update: the `partial` flag is not modelled.
  The request body is the set of fields it carries: all fields for a full
  update, the given ones for a partial update.
- CompanyStore.CompanyService.Create: returns the new row's primary key,
  not the ORM object. The row is `companies[key]`.
- `CompanyService.get` (list every company) is a plain read and has no
  guard. It is not modelled.
- The float `rating` and the timestamps are not modelled. Neither are the
  schema fields that no decision reads. The `EmployeeIn` body keeps only
  `company_id` and `user_id`.
- The `detail` message texts of errors are not modelled. `IsOwnerError`
  records instead whether identity or company membership failed.
- `to_json` is modelled on a map, so the order of the output dictionary
  is not modelled.
- FastAPI routing, dependency injection, JWT handling, the ORM models,
  pydantic schemas and `optional`, configuration and tests are outside
  the authorization engine.
