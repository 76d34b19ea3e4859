/** src/apps/company/service.py: `CompanyService`, which guards every change
    to the company table with an existence check (404) and a name
    uniqueness check (400). The table behind the repository is a map from
    primary key to company row; `nextPk` is the database's id sequence. */
module CompanyStore {
  import opened Domain

  /** The body of a create or full-update request. */
  datatype CompanyIn = CompanyIn(name: string, directorFullname: string, companyType: int,
                                 jurAddress: string, factAddress: string)

  /** The body of a partial update: fields left out are `None`. */
  datatype CompanyOptional = CompanyOptional(name: Option<string>, directorFullname: Option<string>,
                                             companyType: Option<int>, jurAddress: Option<string>,
                                             factAddress: Option<string>)

  datatype Company = Company(name: string, directorFullname: string, companyType: int,
                             jurAddress: string, factAddress: string, isHidden: bool, isVerified: bool)

  /** A freshly created row: neither hidden nor verified. */
  function NewCompany(data: CompanyIn): (c: Company)
    ensures !c.isHidden && !c.isVerified && c.name == data.name
    ensures c.directorFullname == data.directorFullname && c.companyType == data.companyType
    ensures c.jurAddress == data.jurAddress && c.factAddress == data.factAddress
  {
    Company(data.name, data.directorFullname, data.companyType, data.jurAddress, data.factAddress, false, false)
  }

  /** A full update sends every field. */
  function AllFields(data: CompanyIn): CompanyOptional
  {
    CompanyOptional(Some(data.name), Some(data.directorFullname), Some(data.companyType),
                    Some(data.jurAddress), Some(data.factAddress))
  }

  /** The fields the request carries replace the stored ones; the flags
      are not part of an update request. */
  function Patch(c: Company, data: CompanyOptional): (p: Company)
    ensures p.isHidden == c.isHidden && p.isVerified == c.isVerified
    ensures data.name.Some? ==> p.name == data.name.value
    ensures data.name.None? ==> p.name == c.name
    ensures data.directorFullname.Some? ==> p.directorFullname == data.directorFullname.value
    ensures data.directorFullname.None? ==> p.directorFullname == c.directorFullname
    ensures data.companyType.Some? ==> p.companyType == data.companyType.value
    ensures data.companyType.None? ==> p.companyType == c.companyType
    ensures data.jurAddress.Some? ==> p.jurAddress == data.jurAddress.value
    ensures data.jurAddress.None? ==> p.jurAddress == c.jurAddress
    ensures data.factAddress.Some? ==> p.factAddress == data.factAddress.value
    ensures data.factAddress.None? ==> p.factAddress == c.factAddress
  {
    Company(Or(data.name, c.name), Or(data.directorFullname, c.directorFullname),
            Or(data.companyType, c.companyType), Or(data.jurAddress, c.jurAddress),
            Or(data.factAddress, c.factAddress), c.isHidden, c.isVerified)
  }

  /** `get_by_name(name)` finds a row. Looking up `None` compares with
      NULL, and the name column is never NULL. */
  predicate NameTaken(companies: map<int, Company>, name: Option<string>)
  {
    name.Some? && exists pk :: pk in companies && companies[pk].name == name.value
  }

  /** The unique constraint on the name column. */
  ghost predicate NamesUnique(companies: map<int, Company>)
  {
    forall p, q :: p in companies && q in companies && companies[p].name == companies[q].name ==> p == q
  }

  /** With unique names `get_by_name` finds at most one row, so its
      `scalar_one_or_none` never meets two. */
  lemma AtMostOneRowPerName(companies: map<int, Company>, name: string)
    requires NamesUnique(companies)
    ensures |set pk | pk in companies && companies[pk].name == name| <= 1
  {
    var rows := set pk | pk in companies && companies[pk].name == name;
    if p :| p in companies && companies[p].name == name {
      assert forall q :: q in rows <==> q == p;
      assert rows == {p};
    } else {
      assert forall q :: q !in rows;
      assert rows == {};
    }
  }

  /** A full update that keeps the company's own name is refused: the
      uniqueness check also finds the row being updated. */
  lemma {:induction false} KeepingOwnNameIsRefused(companies: map<int, Company>, pk: int, data: CompanyIn)
    requires pk in companies && data.name == companies[pk].name
    ensures NameTaken(companies, AllFields(data).name)
  {
    assert companies[pk].name == AllFields(data).name.value;
  }

  class CompanyService {
    var companies: map<int, Company>
    var nextPk: int

    ghost predicate Valid()
      reads this
    {
      && (forall pk :: pk in companies ==> pk < nextPk)
      && NamesUnique(companies)
    }

    constructor ()
      ensures Valid() && companies == map[]
    {
      companies := map[];
      nextPk := 1;
    }

    /** `_check_name_is_unique`. */
    method CheckNameIsUnique(name: Option<string>) returns (r: Call<()>)
      ensures r.Raised? <==> NameTaken(companies, name)
      ensures r.Raised? ==> r.error == UniqueConstraint(name.value) && r.error.StatusCode() == 400
    {
      if name.Some? && exists pk :: pk in companies && companies[pk].name == name.value {
        return Raised(UniqueConstraint(name.value));
      }
      return Returned(());
    }

    /** `get_company_or_404`. */
    method GetCompanyOr404(companyPk: int) returns (r: Call<Company>)
      ensures companyPk in companies ==> r == Returned(companies[companyPk])
      ensures companyPk !in companies ==> r == Raised(NotFound(companyPk)) && r.error.StatusCode() == 404
    {
      if companyPk in companies {
        return Returned(companies[companyPk]);
      }
      return Raised(NotFound(companyPk));
    }

    /** `create`: refused when the name is in use; otherwise exactly one row
        is added, under a new primary key, which is returned. */
    method Create(data: CompanyIn) returns (r: Call<int>)
      requires Valid()
      modifies this
      ensures Valid()
      ensures NameTaken(old(companies), Some(data.name)) ==>
        r == Raised(UniqueConstraint(data.name)) && companies == old(companies)
      ensures !NameTaken(old(companies), Some(data.name)) ==>
        && r.Returned? && r.value !in old(companies)
        && companies == old(companies)[r.value := NewCompany(data)]
    {
      var unique := CheckNameIsUnique(Some(data.name));
      if unique.Raised? {
        return Raised(unique.error);
      }
      var pk := nextPk;
      companies := companies[pk := NewCompany(data)];
      nextPk := nextPk + 1;
      r := Returned(pk);
    }

    /** `delete`: every row goes. */
    method Delete()
      requires Valid()
      modifies this
      ensures Valid() && companies == map[]
    {
      companies := map[];
    }

    /** `delete_by_pk`: 404 and nothing deleted for an unknown key;
        otherwise only that row goes. */
    method DeleteByPk(companyPk: int) returns (r: Call<()>)
      requires Valid()
      modifies this
      ensures Valid()
      ensures companyPk !in old(companies) ==> r == Raised(NotFound(companyPk)) && companies == old(companies)
      ensures companyPk in old(companies) ==> r == Returned(()) && companies == old(companies) - {companyPk}
    {
      var found := GetCompanyOr404(companyPk);
      if found.Raised? {
        return Raised(found.error);
      }
      companies := companies - {companyPk};
      r := Returned(());
    }

    /** `update_is_verified`: 404 before any change. */
    method UpdateIsVerified(companyPk: int, isVerified: bool) returns (r: Call<Company>)
      requires Valid()
      modifies this
      ensures Valid()
      ensures companyPk !in old(companies) ==> r == Raised(NotFound(companyPk)) && companies == old(companies)
      ensures companyPk in old(companies) ==>
        && companies == old(companies)[companyPk := old(companies)[companyPk].(isVerified := isVerified)]
        && r == Returned(companies[companyPk])
    {
      var found := GetCompanyOr404(companyPk);
      if found.Raised? {
        return Raised(found.error);
      }
      var updated := found.value.(isVerified := isVerified);
      companies := companies[companyPk := updated];
      r := Returned(updated);
    }

    /** `update_is_hidden`: 404 before any change. */
    method UpdateIsHidden(companyPk: int, isHidden: bool) returns (r: Call<Company>)
      requires Valid()
      modifies this
      ensures Valid()
      ensures companyPk !in old(companies) ==> r == Raised(NotFound(companyPk)) && companies == old(companies)
      ensures companyPk in old(companies) ==>
        && companies == old(companies)[companyPk := old(companies)[companyPk].(isHidden := isHidden)]
        && r == Returned(companies[companyPk])
    {
      var found := GetCompanyOr404(companyPk);
      if found.Raised? {
        return Raised(found.error);
      }
      var updated := found.value.(isHidden := isHidden);
      companies := companies[companyPk := updated];
      r := Returned(updated);
    }

    /** `update` (full when every field is present, partial otherwise):
        existence (404) is checked before the name (400), and the name is
        checked against every row, the updated one included. */
    method Update(companyPk: int, data: CompanyOptional) returns (r: Call<Company>)
      requires Valid()
      modifies this
      ensures Valid()
      ensures companyPk !in old(companies) ==> r == Raised(NotFound(companyPk)) && companies == old(companies)
      ensures companyPk in old(companies) && NameTaken(old(companies), data.name) ==>
        r == Raised(UniqueConstraint(data.name.value)) && companies == old(companies)
      ensures companyPk in old(companies) && !NameTaken(old(companies), data.name) ==>
        && companies == old(companies)[companyPk := Patch(old(companies)[companyPk], data)]
        && r == Returned(companies[companyPk])
    {
      var found := GetCompanyOr404(companyPk);
      if found.Raised? {
        return Raised(found.error);
      }
      var unique := CheckNameIsUnique(data.name);
      if unique.Raised? {
        return Raised(unique.error);
      }
      var updated := Patch(found.value, data);
      companies := companies[companyPk := updated];
      r := Returned(updated);
    }
  }
}
