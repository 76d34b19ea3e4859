/** src/permissions/service.py: the later permission checker, whose
    validators receive a single `object_pk`. It is proved against the
    specification functions of module Checker. */
module Service {
  import opened Domain
  import Checker

  /** What every validator of this checker is called with:
      `user=`, `object_pk=`, and the extra keyword arguments. */
  datatype ServiceArgs = ServiceArgs(user: Option<User>, objectPk: Value, kwargs: seq<Kwarg>)

  type ServiceValidator = ServiceArgs -> Call<Value>

  /** The keyword arguments of one validator call, in the order the checker
      passes them; the database session is an opaque object. */
  function ValidatorKwargs(args: ServiceArgs): (kwargs: seq<Kwarg>)
    ensures |kwargs| == 3 + |args.kwargs|
    ensures kwargs[0] == Kwarg("user", UserOrNone(args.user))
    ensures kwargs[1] == Kwarg("object_pk", args.objectPk)
    ensures kwargs[2] == Kwarg("session", Opaque("session"))
    ensures kwargs[3..] == args.kwargs
  {
    [Kwarg("user", UserOrNone(args.user)), Kwarg("object_pk", args.objectPk),
     Kwarg("session", Opaque("session"))] + args.kwargs
  }

  class PermissionChecker {
    var allowedRoles: seq<string>
    var validators: Option<seq<ServiceValidator>>
    var objectPk: Value
    var user: Option<User>
    var kwargs: seq<Kwarg>

    constructor (user: Option<User>, allowedRoles: seq<string>,
                 validators: Option<seq<ServiceValidator>>, objectPk: Value, kwargs: seq<Kwarg>)
      ensures this.user == user && this.allowedRoles == allowedRoles
      ensures this.validators == validators && this.objectPk == objectPk
      ensures this.kwargs == kwargs
    {
      this.allowedRoles := allowedRoles;
      this.validators := validators;
      this.objectPk := objectPk;
      this.user := user;
      this.kwargs := kwargs;
    }

    function Args(): ServiceArgs
      reads this
    {
      ServiceArgs(user, objectPk, kwargs)
    }

    /** `user_roles_set`: `{role.name for role in self.user.roles}`. */
    function UserRolesSet(): (names: set<string>)
      reads this
      requires user.Some?
      ensures forall n :: n in names <==> exists i :: 0 <= i < |user.value.roles| && user.value.roles[i].name == n
      ensures names == RolesSet(user.value)
    {
      set r | r in user.value.roles :: r.name
    }

    /** `_check_user_roles`, written over `user_roles_set`; it decides
        exactly as the role gate of src/permissions/checker.py. */
    function CheckUserRoles(): (r: Call<Value>)
      reads this
      ensures r == Checker.RoleGate(user, allowedRoles)
    {
      if user.Some? && !user.value.isSuperuser then
        var shared := UserRolesSet() * (set a | a in allowedRoles);
        assert forall a :: a in allowedRoles && a in RolesSet(user.value) ==> a in shared;
        if shared == {} then Raised(RoleNotExists(allowedRoles))
        else
          assert exists a :: a in shared;
          Returned(NoneValue)
      else Returned(NoneValue)
    }

    /** `_run_validators`: `calls` lists the arguments of each validator
        invocation, in order. */
    method RunValidators() returns (r: Call<Value>, calls: seq<ServiceArgs>)
      ensures validators.None? ==> r == Raised(NotIterable) && calls == []
      ensures validators.Some? ==> r == Checker.RunAll(validators.value, Args())
      ensures validators.Some? ==> |calls| == Checker.Invoked(validators.value, Args())
      ensures forall i :: 0 <= i < |calls| ==> calls[i] == Args()
    {
      calls := [];
      if validators.None? {
        return Raised(NotIterable), calls;
      }
      var vs := validators.value;
      var i := 0;
      while i < |vs|
        invariant 0 <= i <= |vs|
        invariant Checker.RunAll(vs[..i], Args()) == Returned(NoneValue)
        invariant Checker.Invoked(vs[..i], Args()) == i
        invariant |calls| == i
        invariant forall j :: 0 <= j < |calls| ==> calls[j] == Args()
      {
        var outcome := vs[i](Args());
        calls := calls + [Args()];
        Checker.RunAllAppend(vs[..i], vs[i..], Args());
        assert vs[..i] + vs[i..] == vs;
        if outcome.Raised? {
          assert vs[i..][0] == vs[i];
          return Raised(outcome.error), calls;
        }
        Checker.RunAllAppend(vs[..i], [vs[i]], Args());
        assert vs[..i] + [vs[i]] == vs[..i + 1];
        i := i + 1;
      }
      assert vs[..i] == vs;
      r := Returned(NoneValue);
    }

    /** `execute`: the role gate strictly before the validators, which stop
        at the first raise. No field changes. */
    method Execute() returns (r: Call<Value>, calls: seq<ServiceArgs>)
      ensures r == Checker.ExecuteSpec(user, allowedRoles, validators, Args())
      ensures |calls| == Checker.ExecuteInvoked(user, allowedRoles, validators, Args())
      ensures forall i :: 0 <= i < |calls| ==> calls[i] == Args()
    {
      r := CheckUserRoles();
      if r.Raised? {
        return r, [];
      }
      r, calls := RunValidators();
    }
  }
}
