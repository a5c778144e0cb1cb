/** The object-level permission rules of the REST API. Both grant every
    safe (read-only) request; a write needs the right kind of user, and that
    user must own the object. */
module Permissions {
  import opened Common

  /** `IsTalentOrReadOnly.has_object_permission` for an object whose
      `talent` is the Talent with primary key `owner`. */
  function IsTalentOrReadOnly(httpMethod: HttpMethod, user: User, owner: int): (granted: bool)
    ensures IsSafe(httpMethod) ==> granted
    ensures !IsSafe(httpMethod) && !user.TalentUser? ==> !granted
    ensures !IsSafe(httpMethod) && user.TalentUser? ==> (granted <==> user.talentId == owner)
  {
    if IsSafe(httpMethod) then true
    else if !user.TalentUser? then false
    else user == TalentUser(owner)
  }

  /** `IsCompanyOrReadOnly.has_object_permission` for an object whose
      `company` is the Company with primary key `owner`. */
  function IsCompanyOrReadOnly(httpMethod: HttpMethod, user: User, owner: int): (granted: bool)
    ensures IsSafe(httpMethod) ==> granted
    ensures !IsSafe(httpMethod) && !user.CompanyUser? ==> !granted
    ensures !IsSafe(httpMethod) && user.CompanyUser? ==> (granted <==> user.companyId == owner)
  {
    if IsSafe(httpMethod) then true
    else if !user.CompanyUser? then false
    else user == CompanyUser(owner)
  }

  /** Put together: a write is granted to exactly the owner, a read to
      anyone, and the two rules never both grant a write. */
  lemma WriteNeedsOwner(httpMethod: HttpMethod, user: User, owner: int)
    requires !IsSafe(httpMethod)
    ensures IsTalentOrReadOnly(httpMethod, user, owner) <==> user == TalentUser(owner)
    ensures IsCompanyOrReadOnly(httpMethod, user, owner) <==> user == CompanyUser(owner)
    ensures !(IsTalentOrReadOnly(httpMethod, user, owner) && IsCompanyOrReadOnly(httpMethod, user, owner))
  {
  }
}
