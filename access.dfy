/** src/core/auth/access.py: request dependencies that admit a company's
    administrator or the employee acting on their own record, each wrapped
    by this file's `allow_superuser`, which returns the superuser. */
module AuthAccess {
  import opened Domain
  import CoreUtils
  import Service
  import CompanyValidators

  /** `allow_superuser` of this file: the first superuser among the keyword
      arguments is returned without calling `func`; otherwise `func` is
      called with the same arguments and its outcome is returned. */
  function AllowSuperuser(func: (seq<Value>, seq<Kwarg>) -> Call<Value>,
                          args: seq<Value>, kwargs: seq<Kwarg>): (r: Call<Value>)
    ensures (forall i :: 0 <= i < |kwargs| ==> !IsSuperuserArg(kwargs[i])) ==> r == func(args, kwargs)
    ensures forall i :: 0 <= i < |kwargs| && IsSuperuserArg(kwargs[i]) &&
                        (forall j :: 0 <= j < i ==> !IsSuperuserArg(kwargs[j])) ==>
                        r == Returned(kwargs[i].value)
  {
    match FirstSuperuser(kwargs)
    case Some(u) => Returned(UserValue(u))
    case None => func(args, kwargs)
  }

  /** Body of `get_company_admin`: membership of the company first, then
      the ADMIN role. */
  function CompanyAdminCheck(companyPk: int, currentUser: User): Call<Value>
  {
    if currentUser.employee.None? || currentUser.employee.value.companyId != companyPk then
      Raised(IsOwner(NotCompanyMember))
    else if Admin in RolesSet(currentUser) then Returned(UserValue(currentUser))
    else Raised(AdminRequired)
  }

  /** `get_company_admin(company_pk, current_user)`. */
  function GetCompanyAdmin(companyPk: int, currentUser: User): (r: Call<Value>)
    ensures currentUser.isSuperuser ==> r == Returned(UserValue(currentUser))
    ensures !currentUser.isSuperuser && !EmployedAt(currentUser, IntValue(companyPk)) ==>
      r == Raised(IsOwner(NotCompanyMember))
    ensures !currentUser.isSuperuser && EmployedAt(currentUser, IntValue(companyPk)) ==>
      r == (if Admin in RolesSet(currentUser) then Returned(UserValue(currentUser)) else Raised(AdminRequired))
    ensures r.Returned? ==> r.value == UserValue(currentUser)
    ensures r.Raised? ==> r.error.StatusCode() == 403
  {
    var kwargs := [Kwarg("company_pk", IntValue(companyPk)), Kwarg("current_user", UserValue(currentUser))];
    assert !IsSuperuserArg(kwargs[0]) && (IsSuperuserArg(kwargs[1]) <==> currentUser.isSuperuser);
    AllowSuperuser((_, _) => CompanyAdminCheck(companyPk, currentUser), [], kwargs)
  }

  /** The request body of an employee creation: only `company_id` is read. */
  datatype EmployeeIn = EmployeeIn(companyId: int, userId: int)

  /** Body of `get_company_admin_post_query`. */
  function CompanyAdminPostQueryCheck(employee: EmployeeIn, currentUser: User): Call<Value>
  {
    if currentUser.employee.None? || currentUser.employee.value.companyId != employee.companyId then
      Raised(IsOwner(NotCompanyMember))
    else if Admin in RolesSet(currentUser) then Returned(UserValue(currentUser))
    else Raised(AdminRequired)
  }

  /** `get_company_admin_post_query(employee, current_user)`: the body's
      `company_id` plays the part of the path's `company_pk`. */
  function GetCompanyAdminPostQuery(employee: EmployeeIn, currentUser: User): (r: Call<Value>)
    ensures r == GetCompanyAdmin(employee.companyId, currentUser)
  {
    var kwargs := [Kwarg("employee", Opaque("EmployeeIn")), Kwarg("current_user", UserValue(currentUser))];
    assert !IsSuperuserArg(kwargs[0]);
    AllowSuperuser((_, _) => CompanyAdminPostQueryCheck(employee, currentUser), [], kwargs)
  }

  /** Body of `get_current_employee` as written: `employee.company_id` is
      read without checking that the user has an employment. */
  function CurrentEmployeeCheckAsWritten(userPk: int, companyPk: int, currentUser: User): Call<Value>
  {
    if currentUser.id != userPk then Raised(IsOwner(NotSelf))
    else if currentUser.employee.None? then Raised(AttributeOfNone)
    else if currentUser.employee.value.companyId != companyPk then Raised(IsOwner(NotCompanyMember))
    else Returned(UserValue(currentUser))
  }

  /** Body of `get_current_employee` as intended: a user with no employment
      is not a member of the company. */
  function CurrentEmployeeCheck(userPk: int, companyPk: int, currentUser: User): Call<Value>
  {
    if currentUser.id != userPk then Raised(IsOwner(NotSelf))
    else if currentUser.employee.None? || currentUser.employee.value.companyId != companyPk then
      Raised(IsOwner(NotCompanyMember))
    else Returned(UserValue(currentUser))
  }

  function CurrentEmployeeKwargs(userPk: int, companyPk: int, currentUser: User): (kwargs: seq<Kwarg>)
    ensures (forall i :: 0 <= i < |kwargs| ==> !IsSuperuserArg(kwargs[i])) <==> !currentUser.isSuperuser
    ensures currentUser.isSuperuser ==> FirstSuperuser(kwargs) == Some(currentUser)
  {
    var kwargs := [Kwarg("user_pk", IntValue(userPk)), Kwarg("company_pk", IntValue(companyPk)),
                   Kwarg("current_user", UserValue(currentUser))];
    assert IsSuperuserArg(kwargs[2]) <==> currentUser.isSuperuser;
    kwargs
  }

  /** `get_current_employee(user_pk, company_pk, current_user)`, with the
      employment check as intended. Identity is checked before the company. */
  function GetCurrentEmployee(userPk: int, companyPk: int, currentUser: User): (r: Call<Value>)
    ensures currentUser.isSuperuser ==> r == Returned(UserValue(currentUser))
    ensures !currentUser.isSuperuser && currentUser.id != userPk ==> r == Raised(IsOwner(NotSelf))
    ensures !currentUser.isSuperuser && currentUser.id == userPk ==>
      r == (if EmployedAt(currentUser, IntValue(companyPk)) then Returned(UserValue(currentUser))
            else Raised(IsOwner(NotCompanyMember)))
    ensures r.Raised? ==> r.error.StatusCode() == 403
  {
    AllowSuperuser((_, _) => CurrentEmployeeCheck(userPk, companyPk, currentUser), [],
                   CurrentEmployeeKwargs(userPk, companyPk, currentUser))
  }

  /** `get_current_employee` with the body as written. */
  function GetCurrentEmployeeAsWritten(userPk: int, companyPk: int, currentUser: User): (r: Call<Value>)
    ensures currentUser.isSuperuser ==> r == Returned(UserValue(currentUser))
    ensures !currentUser.isSuperuser ==> r == CurrentEmployeeCheckAsWritten(userPk, companyPk, currentUser)
  {
    AllowSuperuser((_, _) => CurrentEmployeeCheckAsWritten(userPk, companyPk, currentUser), [],
                   CurrentEmployeeKwargs(userPk, companyPk, currentUser))
  }

  /** The discrepancy: a user acting on their own record with no employment
      makes the code as written fail with `AttributeError` (a 500 response)
      instead of the 403 the other guards give. Elsewhere the two agree. */
  lemma CurrentEmployeeWithoutEmployment(userPk: int, companyPk: int, currentUser: User)
    ensures var u := User(3, false, [], None);
      && GetCurrentEmployeeAsWritten(3, 5, u) == Raised(AttributeOfNone)
      && GetCurrentEmployee(3, 5, u) == Raised(IsOwner(NotCompanyMember))
    ensures currentUser.isSuperuser || currentUser.id != userPk || currentUser.employee.Some? ==>
      GetCurrentEmployeeAsWritten(userPk, companyPk, currentUser) ==
      GetCurrentEmployee(userPk, companyPk, currentUser)
  {
  }

  /** Self-service: an employee of the company may act on exactly their own
      record. */
  lemma OnlySelfPassesCurrentEmployee(userPk: int, companyPk: int, currentUser: User)
    requires !currentUser.isSuperuser && EmployedAt(currentUser, IntValue(companyPk))
    ensures GetCurrentEmployee(userPk, companyPk, currentUser).Returned? <==> currentUser.id == userPk
  {
  }

  /** `get_company_admin` and the validator `is_company_admin` admit the
      same non-superusers, but check in opposite orders: a user who is
      neither a member nor an ADMIN gets `IsOwnerError` from the first and
      `AdminRequiredError` from the second. */
  lemma CompanyAdminGuardsAgree(companyPk: int, u: User)
    requires !u.isSuperuser
    ensures var v := CompanyValidators.IsCompanyAdmin(Service.ServiceArgs(Some(u), IntValue(companyPk), []));
      && (GetCompanyAdmin(companyPk, u).Returned? <==> v.Returned?)
      && (!EmployedAt(u, IntValue(companyPk)) && Admin !in RolesSet(u) ==>
            GetCompanyAdmin(companyPk, u) == Raised(IsOwner(NotCompanyMember)) && v == Raised(AdminRequired))
  {
    var args := Service.ServiceArgs(Some(u), IntValue(companyPk), []);
    var kwargs := Service.ValidatorKwargs(args);
    assert forall i :: 0 <= i < |kwargs| ==> !IsSuperuserArg(kwargs[i]);
    CoreUtils.IsMemberIffInRolesSet(u, Admin);
  }
}
