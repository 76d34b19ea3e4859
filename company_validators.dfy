/** src/apps/company/validators.py: `is_company_admin`, a validator for the
    checker of src/permissions/service.py, wrapped by `allow_superuser` of
    src/core/utils.py. */
module CompanyValidators {
  import opened Domain
  import CoreUtils
  import Service

  /** The body of `is_company_admin` as intended: the admin role first,
      then employment at the target company. With no user, reading
      `user.roles` raises. */
  function IsCompanyAdminCheck(user: Option<User>, objectPk: Value): (r: Call<Value>)
    ensures user.None? ==> r == Raised(AttributeOfNone)
    ensures user.Some? && !CoreUtils.IsMember(user.value, Admin) ==> r == Raised(AdminRequired)
    ensures user.Some? && CoreUtils.IsMember(user.value, Admin) && !EmployedAt(user.value, objectPk) ==>
      r == Raised(IsOwner(NotCompanyMember))
    ensures r.Returned? <==>
      user.Some? && CoreUtils.IsMember(user.value, Admin) && EmployedAt(user.value, objectPk)
    ensures r.Returned? ==> r.value == NoneValue
  {
    if user.None? then Raised(AttributeOfNone)
    else if !CoreUtils.IsMember(user.value, Admin) then Raised(AdminRequired)
    else if !EmployedAt(user.value, objectPk) then
      Raised(IsOwner(NotCompanyMember))
    else Returned(NoneValue)
  }

  /** The body of `is_company_admin` as written: `is_member` is a coroutine
      function called without `await`, so its result is a coroutine object,
      which is always truthy, and the admin branch never raises. */
  function IsCompanyAdminCheckAsWritten(user: Option<User>, objectPk: Value): (r: Call<Value>)
    ensures r != Raised(AdminRequired)
    ensures user.None? ==> r == Raised(AttributeOfNone)
    ensures user.Some? ==> (r.Returned? <==> EmployedAt(user.value, objectPk))
    ensures user.Some? && !EmployedAt(user.value, objectPk) ==> r == Raised(IsOwner(NotCompanyMember))
    ensures r.Returned? ==> r.value == NoneValue
  {
    // `not is_member(...)` is `not <coroutine>`, always false: no ADMIN branch.
    if user.None? then Raised(AttributeOfNone)
    else if !EmployedAt(user.value, objectPk) then
      Raised(IsOwner(NotCompanyMember))
    else Returned(NoneValue)
  }

  /** `is_company_admin` as the checker calls it: a superuser among the
      keyword arguments (normally the `user=` one) passes with no check. */
  function IsCompanyAdmin(args: Service.ServiceArgs): (r: Call<Value>)
    ensures FirstSuperuser(Service.ValidatorKwargs(args)).Some? ==> r == Returned(NoneValue)
    ensures args.user.Some? && args.user.value.isSuperuser ==> r == Returned(NoneValue)
    ensures FirstSuperuser(Service.ValidatorKwargs(args)).None? ==>
      r == IsCompanyAdminCheck(args.user, args.objectPk)
  {
    var kwargs := Service.ValidatorKwargs(args);
    assert args.user.Some? && args.user.value.isSuperuser ==> IsSuperuserArg(kwargs[0]);
    CoreUtils.AllowSuperuser((_, _) => IsCompanyAdminCheck(args.user, args.objectPk), [], kwargs)
  }

  /** The same validator over the body as written. */
  function IsCompanyAdminAsWritten(args: Service.ServiceArgs): (r: Call<Value>)
    ensures r != Raised(AdminRequired)
    ensures FirstSuperuser(Service.ValidatorKwargs(args)).Some? ==> r == Returned(NoneValue)
    ensures args.user.Some? && args.user.value.isSuperuser ==> r == Returned(NoneValue)
    ensures FirstSuperuser(Service.ValidatorKwargs(args)).None? ==>
      r == IsCompanyAdminCheckAsWritten(args.user, args.objectPk)
  {
    var kwargs := Service.ValidatorKwargs(args);
    assert args.user.Some? && args.user.value.isSuperuser ==> IsSuperuserArg(kwargs[0]);
    CoreUtils.AllowSuperuser((_, _) => IsCompanyAdminCheckAsWritten(args.user, args.objectPk), [], kwargs)
  }

  /** The discrepancy: an employee of company 5 who holds no ADMIN role,
      acting on company 5, passes the validator as written, while the
      intended validator refuses with `AdminRequiredError`. */
  lemma UnawaitedMemberCheckAdmitsNonAdmin()
    ensures var u := User(7, false, [Role(Moderator)], Some(Employment(5)));
      var args := Service.ServiceArgs(Some(u), IntValue(5), []);
      && IsCompanyAdminAsWritten(args) == Returned(NoneValue)
      && IsCompanyAdmin(args) == Raised(AdminRequired)
  {
    var u := User(7, false, [Role(Moderator)], Some(Employment(5)));
    var args := Service.ServiceArgs(Some(u), IntValue(5), []);
    assert Moderator != Admin;
    assert !CoreUtils.IsMember(u, Admin);
    assert FirstSuperuser(Service.ValidatorKwargs(args)).None?;
  }

  /** An ADMIN of another company is refused with `IsOwnerError`, and an
      ADMIN employed at the target company passes. */
  lemma AdminOfOtherCompanyRefused(u: User, objectPk: int, extra: seq<Kwarg>)
    requires !u.isSuperuser && Admin in RolesSet(u)
    requires forall i :: 0 <= i < |extra| ==> !IsSuperuserArg(extra[i])
    ensures var r := IsCompanyAdmin(Service.ServiceArgs(Some(u), IntValue(objectPk), extra));
      && (u.employee.Some? && u.employee.value.companyId == objectPk ==> r == Returned(NoneValue))
      && (u.employee.None? || u.employee.value.companyId != objectPk ==> r == Raised(IsOwner(NotCompanyMember)))
  {
    var args := Service.ServiceArgs(Some(u), IntValue(objectPk), extra);
    var kwargs := Service.ValidatorKwargs(args);
    CoreUtils.IsMemberIffInRolesSet(u, Admin);
    forall i | 0 <= i < |kwargs|
      ensures !IsSuperuserArg(kwargs[i])
    {
      if i >= 3 {
        assert kwargs[i] == extra[i - 3];
      }
    }
  }
}
