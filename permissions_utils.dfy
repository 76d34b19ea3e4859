/** src/permissions/utils.py: context extraction from the keyword arguments
    of a guarded call, and the `permissions` decorator, which runs the
    checker of src/permissions/service.py before the guarded function. */
module PermissionsUtils {
  import opened Domain
  import Checker
  import Service
  import CoreUtils
  import CompanyValidators

  /** `get_user_from_kwargs`: the first keyword argument that is a `User`. */
  function GetUserFromKwargs(kwargs: seq<Kwarg>): (r: Option<User>)
    ensures r.None? <==> forall i :: 0 <= i < |kwargs| ==> !kwargs[i].value.UserValue?
    ensures r.Some? ==>
      exists i :: 0 <= i < |kwargs| && kwargs[i].value == UserValue(r.value) &&
                  forall j :: 0 <= j < i ==> !kwargs[j].value.UserValue?
  {
    if kwargs == [] then None
    else if kwargs[0].value.UserValue? then Some(kwargs[0].value.user)
    else
      var rest := GetUserFromKwargs(kwargs[1..]);
      assert forall i :: 1 <= i < |kwargs| ==> kwargs[i] == kwargs[1..][i - 1];
      if rest.Some? then
        var i :| 0 <= i < |kwargs[1..]| && kwargs[1..][i].value == UserValue(rest.value) &&
          forall j :: 0 <= j < i ==> !kwargs[1..][j].value.UserValue?;
        assert kwargs[i + 1].value == UserValue(rest.value);
        rest
      else rest
  }

  predicate StartsWith(s: string, prefix: string)
  {
    |prefix| <= |s| && s[..|prefix|] == prefix
  }

  predicate EndsWith(s: string, suffix: string)
  {
    |suffix| <= |s| && s[|s| - |suffix|..] == suffix
  }

  /** The naming convention for object identifiers: the argument name
      starts with `pk`, or ends with `pk` or `id`. */
  predicate IsPkKey(name: string)
  {
    StartsWith(name, "pk") || EndsWith(name, "pk") || EndsWith(name, "id")
  }

  /** `get_object_pk`: the value of the first keyword argument whose name
      follows the convention; later matches are ignored. */
  function GetObjectPk(kwargs: seq<Kwarg>): (r: Option<Value>)
    ensures r.None? <==> forall i :: 0 <= i < |kwargs| ==> !IsPkKey(kwargs[i].name)
    ensures r.Some? ==>
      exists i :: 0 <= i < |kwargs| && IsPkKey(kwargs[i].name) && kwargs[i].value == r.value &&
                  forall j :: 0 <= j < i ==> !IsPkKey(kwargs[j].name)
  {
    if kwargs == [] then None
    else if IsPkKey(kwargs[0].name) then Some(kwargs[0].value)
    else
      var rest := GetObjectPk(kwargs[1..]);
      assert forall i :: 1 <= i < |kwargs| ==> kwargs[i] == kwargs[1..][i - 1];
      if rest.Some? then
        var i :| 0 <= i < |kwargs[1..]| && IsPkKey(kwargs[1..][i].name) && kwargs[1..][i].value == rest.value &&
          forall j :: 0 <= j < i ==> !IsPkKey(kwargs[1..][j].name);
        assert kwargs[i + 1] == kwargs[1..][i];
        rest
      else rest
  }

  /** The keyword arguments whose names follow the convention, in order. */
  function PkKwargs(kwargs: seq<Kwarg>): (r: seq<Kwarg>)
    ensures forall k :: k in r ==> IsPkKey(k.name)
  {
    if kwargs == [] then []
    else if IsPkKey(kwargs[0].name) then [kwargs[0]] + PkKwargs(kwargs[1..])
    else PkKwargs(kwargs[1..])
  }

  /** `get_object_pk` is "the first of the matching arguments": arguments
      with other names (`session`, `service`, ...) never influence it. */
  lemma {:induction false} GetObjectPkIsFirstMatch(kwargs: seq<Kwarg>)
    ensures GetObjectPk(kwargs) == if PkKwargs(kwargs) == [] then None else Some(PkKwargs(kwargs)[0].value)
  {
    if kwargs != [] && !IsPkKey(kwargs[0].name) {
      GetObjectPkIsFirstMatch(kwargs[1..]);
    }
  }

  /** Adding or removing arguments with non-matching names leaves the
      extracted primary key unchanged. */
  lemma GetObjectPkIgnoresOtherNames(a: seq<Kwarg>, b: seq<Kwarg>)
    requires PkKwargs(a) == PkKwargs(b)
    ensures GetObjectPk(a) == GetObjectPk(b)
  {
    GetObjectPkIsFirstMatch(a);
    GetObjectPkIsFirstMatch(b);
  }

  /** The arguments every validator receives when the decorator builds the
      checker for this call. */
  function ContextOf(kwargs: seq<Kwarg>): Service.ServiceArgs
  {
    Service.ServiceArgs(GetUserFromKwargs(kwargs), Or(GetObjectPk(kwargs), NoneValue), [])
  }

  /** What the checker decides for a call with these keyword arguments. */
  function GuardDecision(allowedRoles: seq<string>, validators: Option<seq<Service.ServiceValidator>>,
                         kwargs: seq<Kwarg>): Call<Value>
  {
    Checker.ExecuteSpec(GetUserFromKwargs(kwargs), allowedRoles, validators, ContextOf(kwargs))
  }

  /** `permissions(allowed_roles, validators)(func)(*args, **kwargs)`: the
      checker is built from the decorator's static `allowed_roles` and
      `validators` and the user and primary key found in `kwargs`; `func`
      runs only if `execute` returns, and then gets the call's arguments
      unchanged and its outcome is passed through unchanged. */
  method Permissions(allowedRoles: seq<string>, validators: Option<seq<Service.ServiceValidator>>,
                     func: (seq<Value>, seq<Kwarg>) -> Call<Value>, args: seq<Value>, kwargs: seq<Kwarg>)
    returns (r: Call<Value>, funcCalled: bool, calls: seq<Service.ServiceArgs>)
    ensures var decision := GuardDecision(allowedRoles, validators, kwargs);
      && (funcCalled <==> decision.Returned?)
      && r == (if decision.Raised? then decision else func(args, kwargs))
    ensures |calls| == Checker.ExecuteInvoked(GetUserFromKwargs(kwargs), allowedRoles, validators, ContextOf(kwargs))
    ensures forall i :: 0 <= i < |calls| ==> calls[i] == ContextOf(kwargs)
  {
    var user := GetUserFromKwargs(kwargs);
    var objectPk := GetObjectPk(kwargs);
    var service := new Service.PermissionChecker(user, allowedRoles, validators, Or(objectPk, NoneValue), []);
    var decision;
    decision, calls := service.Execute();
    if decision.Raised? {
      return decision, false, calls;
    }
    r := func(args, kwargs);
    funcCalled := true;
  }

  /** The context the decorator extracts from `company_pk=..., user=...`. */
  lemma CompanyRouteContext(companyPk: int, u: User)
    ensures var kwargs := [Kwarg("company_pk", IntValue(companyPk)), Kwarg("user", UserValue(u))];
      ContextOf(kwargs) == Service.ServiceArgs(Some(u), IntValue(companyPk), [])
  {
    var kwargs := [Kwarg("company_pk", IntValue(companyPk)), Kwarg("user", UserValue(u))];
    assert "company_pk"[|"company_pk"| - 2..] == "pk";
    assert IsPkKey(kwargs[0].name);
    assert GetUserFromKwargs(kwargs[1..]) == Some(u);
  }

  /** The company-ownership scenarios for a route guarded with
      `allowed_roles=[ADMIN]` and `validators=[is_company_admin]`: an ADMIN
      employed at company 5 may act on company 5 but not on company 7. */
  lemma AdminScenarios()
    ensures var admin := User(1, false, [Role(Admin)], Some(Employment(5)));
      var vs := Some([CompanyValidators.IsCompanyAdmin]);
      && GuardDecision([Admin], vs, [Kwarg("company_pk", IntValue(5)), Kwarg("user", UserValue(admin))])
           == Returned(NoneValue)
      && GuardDecision([Admin], vs, [Kwarg("company_pk", IntValue(7)), Kwarg("user", UserValue(admin))])
           == Raised(IsOwner(NotCompanyMember))
  {
    var admin := User(1, false, [Role(Admin)], Some(Employment(5)));
    assert RolesSet(admin) == {Admin};
    assert Checker.RoleGate(Some(admin), [Admin]) == Returned(NoneValue);
    assert CoreUtils.IsMember(admin, Admin) by { assert admin.roles[0].name == Admin; }
    AdminScenario(admin, 5);
    AdminScenario(admin, 7);
  }

  lemma AdminScenario(admin: User, pk: int)
    requires !admin.isSuperuser && CoreUtils.IsMember(admin, Admin)
    requires Checker.RoleGate(Some(admin), [Admin]) == Returned(NoneValue)
    ensures var vs := Some([CompanyValidators.IsCompanyAdmin]);
      GuardDecision([Admin], vs, [Kwarg("company_pk", IntValue(pk)), Kwarg("user", UserValue(admin))])
        == CompanyValidators.IsCompanyAdminCheck(Some(admin), IntValue(pk))
  {
    var kwargs := [Kwarg("company_pk", IntValue(pk)), Kwarg("user", UserValue(admin))];
    CompanyRouteContext(pk, admin);
    var a := Service.ServiceArgs(Some(admin), IntValue(pk), []);
    var kw := Service.ValidatorKwargs(a);
    assert forall i :: 0 <= i < |kw| ==> !IsSuperuserArg(kw[i]);
    var vs: seq<Service.ServiceValidator> := [CompanyValidators.IsCompanyAdmin];
    assert vs[0](a) == CompanyValidators.IsCompanyAdmin(a);
    assert Checker.RunAll(vs, a) == CompanyValidators.IsCompanyAdmin(a);
  }

  /** A moderator is refused at the role gate, and a superuser with no
      roles passes. */
  lemma RoleGateScenarios()
    ensures var moderator := User(2, false, [Role(Moderator)], Some(Employment(5)));
      GuardDecision([Admin], Some([CompanyValidators.IsCompanyAdmin]),
                    [Kwarg("company_pk", IntValue(5)), Kwarg("user", UserValue(moderator))])
        == Raised(RoleNotExists([Admin]))
    ensures var root := User(3, true, [], None);
      GuardDecision([Admin], Some([CompanyValidators.IsCompanyAdmin]),
                    [Kwarg("company_pk", IntValue(5)), Kwarg("user", UserValue(root))])
        == Returned(NoneValue)
  {
    var moderator := User(2, false, [Role(Moderator)], Some(Employment(5)));
    CompanyRouteContext(5, moderator);
    assert RolesSet(moderator) == {Moderator};
    var root := User(3, true, [], None);
    CompanyRouteContext(5, root);
    var a := Service.ServiceArgs(Some(root), IntValue(5), []);
    var vs: seq<Service.ServiceValidator> := [CompanyValidators.IsCompanyAdmin];
    assert vs[0](a) == Returned(NoneValue);
    assert Checker.RunAll(vs, a) == Returned(NoneValue);
  }

  /** With no `User` among the arguments the checker as written lets the
      call through the role gate, and the validators alone decide. */
  lemma {:induction false} AbsentUserSkipsRoleGate(allowedRoles: seq<string>, vs: seq<Service.ServiceValidator>,
                                                   kwargs: seq<Kwarg>)
    requires forall i :: 0 <= i < |kwargs| ==> !kwargs[i].value.UserValue?
    ensures GuardDecision(allowedRoles, Some(vs), kwargs) == Checker.RunAll(vs, ContextOf(kwargs))
  {
    assert GetUserFromKwargs(kwargs).None?;
  }
}
