/** src/core/utils.py: role-name membership and the `allow_superuser`
    wrapper that returns `None` for a superuser. */
module CoreUtils {
  import opened Domain

  /** `[role.name for role in user.roles]`, in order and with repeats. */
  function RoleNames(roles: seq<Role>): (names: seq<string>)
    ensures |names| == |roles|
    ensures forall i :: 0 <= i < |roles| ==> names[i] == roles[i].name
  {
    if roles == [] then [] else [roles[0].name] + RoleNames(roles[1..])
  }

  /** `is_member(user, role)`: the role name is in the list of the user's
      role names. */
  function IsMember(user: User, role: string): (b: bool)
    ensures b <==> exists i :: 0 <= i < |user.roles| && user.roles[i].name == role
  {
    var names := RoleNames(user.roles);
    assert forall i :: 0 <= i < |names| ==> names[i] == user.roles[i].name;
    role in names
  }

  /** The list test agrees with the set `roles_set` used elsewhere. */
  lemma IsMemberIffInRolesSet(user: User, role: string)
    ensures IsMember(user, role) <==> role in RolesSet(user)
  {
    if role in RolesSet(user) {
      var r :| r in user.roles && r.name == role;
      var i :| 0 <= i < |user.roles| && user.roles[i] == r;
    }
  }

  /** Reordering or repeating the user's roles does not change the answer. */
  lemma IsMemberIgnoresOrderAndRepeats(u: User, v: User, role: string)
    requires forall r :: r in u.roles <==> r in v.roles
    ensures IsMember(u, role) == IsMember(v, role)
  {
    IsMemberIffInRolesSet(u, role);
    IsMemberIffInRolesSet(v, role);
    assert RolesSet(u) == RolesSet(v);
  }

  /** `allow_superuser` of this file: if some keyword argument is a
      superuser the wrapper returns `None` without calling `func`;
      otherwise it calls `func` with the same arguments and returns what
      `func` returns or raises. */
  function AllowSuperuser(func: (seq<Value>, seq<Kwarg>) -> Call<Value>,
                          args: seq<Value>, kwargs: seq<Kwarg>): (r: Call<Value>)
    ensures (exists i :: 0 <= i < |kwargs| && IsSuperuserArg(kwargs[i])) ==> r == Returned(NoneValue)
    ensures (forall i :: 0 <= i < |kwargs| ==> !IsSuperuserArg(kwargs[i])) ==> r == func(args, kwargs)
  {
    if FirstSuperuser(kwargs).Some? then Returned(NoneValue) else func(args, kwargs)
  }
}
