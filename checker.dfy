/** src/permissions/checker.py: the permission checker whose validators
    receive a dictionary of object primary keys. The role gate and the
    meaning of "run the validators in order, first raise wins" are stated
    here once, as functions, and the later iteration in
    src/permissions/service.py is proved against the same functions. */
module Checker {
  import opened Domain

  /** `_check_user_roles`: a present user who is not a superuser and shares
      no role with `allowed` is refused; an absent user passes. */
  function RoleGate(user: Option<User>, allowed: seq<string>): (r: Call<Value>)
    ensures r.Raised? <==>
      user.Some? && !user.value.isSuperuser && forall a :: a in allowed ==> a !in RolesSet(user.value)
    ensures r.Raised? ==> r.error == RoleNotExists(allowed) && r.error.StatusCode() == 403
    ensures r.Returned? ==> r.value == NoneValue
    ensures user.Some? && user.value.isSuperuser ==> r.Returned?
    ensures user.None? ==> r.Returned?
    ensures allowed == [] ==> (r.Raised? <==> user.Some? && !user.value.isSuperuser)
  {
    if user.Some? && !user.value.isSuperuser then
      var shared := RolesSet(user.value) * (set a | a in allowed);
      assert forall a :: a in allowed && a in RolesSet(user.value) ==> a in shared;
      if shared == {} then
        Raised(RoleNotExists(allowed))
      else
        assert exists a :: a in shared;
        Returned(NoneValue)
    else
      Returned(NoneValue)
  }

  /** Running `validators` one after the other on the same arguments: the
      first one that raises decides; if none raises the result is `None`. */
  function RunAll<A>(validators: seq<A -> Call<Value>>, args: A): Call<Value>
  {
    if validators == [] then Returned(NoneValue)
    else
      var first := validators[0](args);
      if first.Raised? then Raised(first.error) else RunAll(validators[1..], args)
  }

  /** How many validators `RunAll` invokes before it stops. */
  function Invoked<A>(validators: seq<A -> Call<Value>>, args: A): nat
  {
    if validators == [] then 0
    else if validators[0](args).Raised? then 1
    else 1 + Invoked(validators[1..], args)
  }

  /** The run passes exactly when every validator passes, and then every
      validator is invoked. */
  lemma {:induction false} RunAllPassesIffAllPass<A>(validators: seq<A -> Call<Value>>, args: A)
    ensures RunAll(validators, args).Returned? <==>
      forall i :: 0 <= i < |validators| ==> validators[i](args).Returned?
    ensures RunAll(validators, args).Returned? ==>
      RunAll(validators, args).value == NoneValue && Invoked(validators, args) == |validators|
  {
    if validators != [] {
      RunAllPassesIffAllPass(validators[1..], args);
      assert forall i :: 1 <= i < |validators| ==> validators[i] == validators[1..][i - 1];
    }
  }

  /** A failing run stops at the first validator that raises: its error is
      the result, every earlier validator passed, and no later one was
      invoked. */
  lemma {:induction false} RunAllStopsAtFirstRaise<A>(validators: seq<A -> Call<Value>>, args: A)
    requires RunAll(validators, args).Raised?
    ensures Invoked(validators, args) >= 1
    ensures var k := Invoked(validators, args) - 1;
      && k < |validators|
      && validators[k](args) == Raised(RunAll(validators, args).error)
      && forall j :: 0 <= j < k ==> validators[j](args).Returned?
  {
    if !validators[0](args).Raised? {
      RunAllStopsAtFirstRaise(validators[1..], args);
      assert forall i :: 1 <= i < |validators| ==> validators[i] == validators[1..][i - 1];
    }
  }

  /** Running two lists back to back: the second list is reached only when
      the first passes, and validators after a raise are never invoked. */
  lemma {:induction false} RunAllAppend<A>(p: seq<A -> Call<Value>>, q: seq<A -> Call<Value>>, args: A)
    ensures RunAll(p + q, args) == if RunAll(p, args).Raised? then RunAll(p, args) else RunAll(q, args)
    ensures Invoked(p + q, args) ==
      if RunAll(p, args).Raised? then Invoked(p, args) else |p| + Invoked(q, args)
  {
    if p != [] {
      assert (p + q)[0] == p[0];
      assert (p + q)[1..] == p[1..] + q;
      RunAllAppend(p[1..], q, args);
    } else {
      assert p + q == q;
    }
  }

  /** `execute`: the role gate, then the validators. `None` in place of a
      validator list is iterated over and raises `TypeError`. */
  function ExecuteSpec<A>(user: Option<User>, allowed: seq<string>,
                          validators: Option<seq<A -> Call<Value>>>, args: A): (r: Call<Value>)
    ensures RoleGate(user, allowed).Raised? ==> r == RoleGate(user, allowed)
    ensures RoleGate(user, allowed).Returned? && validators.None? ==> r == Raised(NotIterable)
    ensures RoleGate(user, allowed).Returned? && validators.Some? ==> r == RunAll(validators.value, args)
  {
    var gate := RoleGate(user, allowed);
    if gate.Raised? then gate
    else if validators.None? then Raised(NotIterable)
    else RunAll(validators.value, args)
  }

  /** How many validators `execute` invokes: none when the role gate raises. */
  function ExecuteInvoked<A>(user: Option<User>, allowed: seq<string>,
                             validators: Option<seq<A -> Call<Value>>>, args: A): (n: nat)
    ensures RoleGate(user, allowed).Raised? || validators.None? ==> n == 0
  {
    if RoleGate(user, allowed).Raised? || validators.None? then 0
    else Invoked(validators.value, args)
  }

  /** The checker has no superuser shortcut of its own: for a superuser the
      role gate passes and every validator still runs, so a validator skips
      a superuser only if it checks for one itself. */
  lemma SuperuserStillRunsValidators<A>(u: User, allowed: seq<string>,
                                        validators: seq<A -> Call<Value>>, args: A)
    requires u.isSuperuser
    ensures ExecuteSpec(Some(u), allowed, Some(validators), args) == RunAll(validators, args)
    ensures ExecuteInvoked(Some(u), allowed, Some(validators), args) == Invoked(validators, args)
  {
  }

  /** What every validator of this checker is called with:
      `user=`, `objects_pk=`, and the extra keyword arguments. The
      `session=` handle it also passes is not part of the model. */
  datatype CheckerArgs = CheckerArgs(user: Option<User>, objectsPk: Option<map<string, Value>>, kwargs: seq<Kwarg>)

  type CheckerValidator = CheckerArgs -> Call<Value>

  class PermissionChecker {
    var allowedRoles: seq<string>
    var validators: Option<seq<CheckerValidator>>
    var objectsPk: Option<map<string, Value>>
    var user: Option<User>
    var kwargs: seq<Kwarg>

    constructor (user: Option<User>, allowedRoles: seq<string>,
                 validators: Option<seq<CheckerValidator>>,
                 objectsPk: Option<map<string, Value>>, kwargs: seq<Kwarg>)
      ensures this.user == user && this.allowedRoles == allowedRoles
      ensures this.validators == validators && this.objectsPk == objectsPk
      ensures this.kwargs == kwargs
    {
      this.allowedRoles := allowedRoles;
      this.validators := validators;
      this.objectsPk := objectsPk;
      this.user := user;
      this.kwargs := kwargs;
    }

    function Args(): CheckerArgs
      reads this
    {
      CheckerArgs(user, objectsPk, kwargs)
    }

    /** `_check_user_roles`. */
    function CheckUserRoles(): (r: Call<Value>)
      reads this
      ensures r.Raised? <==>
        user.Some? && !user.value.isSuperuser && forall a :: a in allowedRoles ==> a !in RolesSet(user.value)
      ensures r.Raised? ==> r.error == RoleNotExists(allowedRoles) && r.error.StatusCode() == 403
      ensures r.Returned? ==> r.value == NoneValue
    {
      RoleGate(user, allowedRoles)
    }

    /** `_run_validators`: `calls` lists the arguments of each validator
        invocation, in order. */
    method RunValidators() returns (r: Call<Value>, calls: seq<CheckerArgs>)
      ensures validators.None? ==> r == Raised(NotIterable) && calls == []
      ensures validators.Some? ==> r == RunAll(validators.value, Args())
      ensures validators.Some? ==> |calls| == Invoked(validators.value, Args())
      ensures forall i :: 0 <= i < |calls| ==> calls[i] == Args()
    {
      calls := [];
      if validators.None? {
        return Raised(NotIterable), calls;
      }
      var vs := validators.value;
      var i := 0;
      while i < |vs|
        invariant 0 <= i <= |vs|
        invariant RunAll(vs[..i], Args()) == Returned(NoneValue)
        invariant Invoked(vs[..i], Args()) == i
        invariant |calls| == i
        invariant forall j :: 0 <= j < |calls| ==> calls[j] == Args()
      {
        var outcome := vs[i](Args());
        calls := calls + [Args()];
        RunAllAppend(vs[..i], vs[i..], Args());
        assert vs[..i] + vs[i..] == vs;
        if outcome.Raised? {
          assert vs[i..][0] == vs[i];
          return Raised(outcome.error), calls;
        }
        RunAllAppend(vs[..i], [vs[i]], Args());
        assert vs[..i] + [vs[i]] == vs[..i + 1];
        i := i + 1;
      }
      assert vs[..i] == vs;
      r := Returned(NoneValue);
    }

    /** `execute`: the role gate strictly before the validators. The checker
        changes none of its fields, so calling it again gives the same
        outcome. */
    method Execute() returns (r: Call<Value>, calls: seq<CheckerArgs>)
      ensures r == ExecuteSpec(user, allowedRoles, validators, Args())
      ensures |calls| == ExecuteInvoked(user, allowedRoles, validators, Args())
      ensures forall i :: 0 <= i < |calls| ==> calls[i] == Args()
    {
      r := CheckUserRoles();
      if r.Raised? {
        return r, [];
      }
      r, calls := RunValidators();
    }
  }

  /** Two calls of `execute` on one checker decide the same way and invoke
      the same validators. */
  method ExecuteTwice(checker: PermissionChecker) returns (first: Call<Value>, second: Call<Value>)
    ensures first == second
  {
    var calls1, calls2;
    first, calls1 := checker.Execute();
    second, calls2 := checker.Execute();
  }
}
