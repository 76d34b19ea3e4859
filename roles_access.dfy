/** src/apps/roles/access.py: the role-only `get_company_admin` dependency.
    It has no superuser bypass and never looks at the user's employment. */
module RolesAccess {
  import opened Domain

  function GetCompanyAdmin(currentUser: User): (r: Call<Value>)
    ensures r == Returned(UserValue(currentUser)) <==> Admin in RolesSet(currentUser)
    ensures r == Raised(AdminRequired) <==> Admin !in RolesSet(currentUser)
  {
    if Admin in RolesSet(currentUser) then Returned(UserValue(currentUser))
    else Raised(AdminRequired)
  }

  /** Neither the superuser flag nor the employment changes the decision:
      a superuser without the ADMIN role is refused. */
  lemma DecisionIgnoresSuperuserAndEmployment(u: User, isSuperuser: bool, employee: Option<Employment>)
    ensures var v := u.(isSuperuser := isSuperuser, employee := employee);
      GetCompanyAdmin(v).Returned? == GetCompanyAdmin(u).Returned?
  {
    var v := u.(isSuperuser := isSuperuser, employee := employee);
    assert RolesSet(v) == RolesSet(u);
  }
}
