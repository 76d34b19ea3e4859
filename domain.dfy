/** The data the authorization engine reads: users with their roles and
    employment, keyword arguments of a guarded call, and the errors a
    guard can raise. A Python call that either returns or raises is a
    `Call<T>`. */
module Domain {

  datatype Option<+T> = None | Some(value: T)

  /** A role row; only its name takes part in any decision. */
  datatype Role = Role(name: string)

  /** The employment record that ties a user to one company. */
  datatype Employment = Employment(companyId: int)

  datatype User = User(id: int, isSuperuser: bool, roles: seq<Role>, employee: Option<Employment>)

  /** `CompanyRoles.ADMIN` and the other members of the role enumeration. */
  const Admin: string := "Администратор"
  const ProductManager: string := "Продуктовый менеджер"
  const TechSupport: string := "Техническая поддержка"
  const Moderator: string := "Модератор"

  /** The value bound to a keyword argument. Only `User` instances and
      integers are told apart; any other object is `Opaque`. */
  datatype Value = NoneValue | IntValue(i: int) | UserValue(user: User) | Opaque(kind: string)

  datatype Kwarg = Kwarg(name: string, value: Value)

  /** Why an `IsOwnerError` was raised: the acting user is not the target
      user, or is not employed at the target company. */
  datatype OwnerReason = NotSelf | NotCompanyMember

  /** Every way a guard or the company service can stop a call. The last
      two are Python runtime errors, which the web framework turns into a
      500 response. */
  datatype Error =
    | RoleNotExists(allowed: seq<string>)
    | AdminRequired
    | IsOwner(reason: OwnerReason)
    | NotFound(pk: int)
    | UniqueConstraint(name: string)
    | AttributeOfNone
    | NotIterable
  {
    function StatusCode(): (code: int)
      ensures code == 403 <==> (RoleNotExists? || AdminRequired? || IsOwner?)
      ensures code == 404 <==> NotFound?
      ensures code == 400 <==> UniqueConstraint?
    {
      match this
      case RoleNotExists(_) => 403
      case AdminRequired => 403
      case IsOwner(_) => 403
      case NotFound(_) => 404
      case UniqueConstraint(_) => 400
      case AttributeOfNone => 500
      case NotIterable => 500
    }
  }

  /** The outcome of a Python call: it returned a value or raised. */
  datatype Call<+T> = Returned(value: T) | Raised(error: Error)

  /** `None` when there is no user, otherwise the user object. */
  function UserOrNone(user: Option<User>): Value
  {
    if user.Some? then UserValue(user.value) else NoneValue
  }

  /** `user.roles_set`: the names of the user's roles. */
  function RolesSet(u: User): (names: set<string>)
    ensures forall n :: n in names <==> exists i :: 0 <= i < |u.roles| && u.roles[i].name == n
  {
    set r | r in u.roles :: r.name
  }

  /** The user is employed at the company whose primary key is `companyPk`.
      A missing or non-integer key never equals a company id. */
  predicate EmployedAt(u: User, companyPk: Value)
  {
    u.employee.Some? && companyPk == IntValue(u.employee.value.companyId)
  }

  /** The value held, or `default` when there is none. */
  function Or<T>(v: Option<T>, default: T): T
  {
    match v
    case None => default
    case Some(x) => x
  }

  predicate IsSuperuserArg(k: Kwarg)
  {
    k.value.UserValue? && k.value.user.isSuperuser
  }

  /** The scan both `allow_superuser` wrappers perform: the first keyword
      argument that is a `User` with `is_superuser` set. */
  function FirstSuperuser(kwargs: seq<Kwarg>): (r: Option<User>)
    ensures r.None? <==> forall i :: 0 <= i < |kwargs| ==> !IsSuperuserArg(kwargs[i])
    ensures r.Some? ==> r.value.isSuperuser
    ensures r.Some? ==>
      exists i :: 0 <= i < |kwargs| && kwargs[i].value == UserValue(r.value) &&
                  forall j :: 0 <= j < i ==> !IsSuperuserArg(kwargs[j])
  {
    if kwargs == [] then None
    else if IsSuperuserArg(kwargs[0]) then Some(kwargs[0].value.user)
    else
      var rest := FirstSuperuser(kwargs[1..]);
      assert forall i :: 1 <= i < |kwargs| ==> kwargs[i] == kwargs[1..][i - 1];
      if rest.Some? then
        var i :| 0 <= i < |kwargs[1..]| && kwargs[1..][i].value == UserValue(rest.value) &&
          forall j :: 0 <= j < i ==> !IsSuperuserArg(kwargs[1..][j]);
        assert kwargs[i + 1].value == UserValue(rest.value);
        rest
      else rest
  }
}
