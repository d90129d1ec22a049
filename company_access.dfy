/** `checkCompanyAccess` / `validateCompanyAccess`: the tenant test a service runs on a
    looked-up entity before it returns, updates or deletes it. */
module CompanyAccess {
  import opened Wrappers
  import opened Tables

  const AccessDenied: string := "Access denied: You can only access data from your own company"

  /** The entity's tenant column is set and names another company. */
  predicate Foreign(companyId: Option<Id>, userCompanyId: Id) {
    Truthy(companyId) && companyId.value != userCompanyId
  }

  /** `companyOf` reads the entity's optional `companyId`. */
  function CheckCompanyAccess<T>(entity: Option<T>, companyOf: T -> Option<Id>, userCompanyId: Id,
                                 entityName: string := "Entity"): (r: Result<T, Error>)
    ensures entity.None? ==> r == Failure(NotFound(entityName + " not found"))
    ensures entity.Some? && Foreign(companyOf(entity.value), userCompanyId) ==> r == Failure(Forbidden(AccessDenied))
    ensures entity.Some? && !Foreign(companyOf(entity.value), userCompanyId) ==> r == Success(entity.value)
  {
    if entity.None? then
      Failure(NotFound(entityName + " not found"))
    else if Truthy(companyOf(entity.value)) && companyOf(entity.value).value != userCompanyId then
      Failure(Forbidden(AccessDenied))
    else
      Success(entity.value)
  }

  /** `findEntity` is the lookup the caller passes in, already applied to the store. */
  function ValidateCompanyAccess<T>(findEntity: () -> Option<T>, companyOf: T -> Option<Id>, userCompanyId: Id,
                                    entityName: string := "Entity"): (r: Result<T, Error>)
    ensures r == CheckCompanyAccess(findEntity(), companyOf, userCompanyId, entityName)
  {
    var entity := findEntity();
    CheckCompanyAccess(entity, companyOf, userCompanyId, entityName)
  }

  /** A successful check returns the entity it was given, and only one the caller's
      company may see: its tenant column is unset, empty or the caller's. */
  lemma AccessGranted<T>(entity: Option<T>, companyOf: T -> Option<Id>, userCompanyId: Id, entityName: string)
    ensures CheckCompanyAccess(entity, companyOf, userCompanyId, entityName).Success?
            <==> entity.Some? && (companyOf(entity.value).None? || companyOf(entity.value).value in {"", userCompanyId})
    ensures CheckCompanyAccess(entity, companyOf, userCompanyId, entityName).Success?
            ==> CheckCompanyAccess(entity, companyOf, userCompanyId, entityName).value == entity.value
  {
  }
}
