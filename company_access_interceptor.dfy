/** `CompanyAccessInterceptor.intercept`: the request filter that rejects a request whose
    payload names another tenant than the authenticated user's. */
module CompanyAccessInterceptor {
  import opened Wrappers

  datatype AuthenticatedUser = AuthenticatedUser(companyId: Option<string>)
  datatype RequestBody = RequestBody(companyId: Option<string>)

  /** The parts of an HTTP request the filter reads; `user` is what the JWT strategy
      attached, `queryCompanyId` the `companyId` query parameter. */
  datatype Request = Request(httpMethod: string, user: Option<AuthenticatedUser>, body: Option<RequestBody>,
                             queryCompanyId: Option<string>)

  const WriteDenied: string := "Access denied: You can only create/update data for your own company"
  const ReadDenied: string := "Access denied: You can only access data from your own company"

  /** Pass means the request is handed on to the route handler. */
  function Intercept(req: Request): (r: Outcome<Error>)
    ensures (req.user.None? || !Truthy(req.user.value.companyId)) ==> r == Pass
    ensures r.Fail? && req.httpMethod in ["POST", "PUT"] ==> r == Fail(Forbidden(WriteDenied))
    ensures r.Fail? && req.httpMethod !in ["POST", "PUT"] ==> r == Fail(Forbidden(ReadDenied))
    ensures req.httpMethod !in ["POST", "PUT", "GET"] ==> r == Pass
  {
    if req.user.None? || !Truthy(req.user.value.companyId) then Pass
    else
      var userCompanyId := req.user.value.companyId.value;
      if req.httpMethod in ["POST", "PUT"]
         && req.body.Some? && Truthy(req.body.value.companyId) && req.body.value.companyId.value != userCompanyId
      then Fail(Forbidden(WriteDenied))
      else if req.httpMethod == "GET" && Truthy(req.queryCompanyId) && req.queryCompanyId.value != userCompanyId
      then Fail(Forbidden(ReadDenied))
      else Pass
  }

  /** The user carries a tenant and `companyId` is set to another one. */
  predicate NamesOtherTenant(req: Request, companyId: Option<string>) {
    req.user.Some? && Truthy(req.user.value.companyId) && Truthy(companyId) && companyId.value != req.user.value.companyId.value
  }

  /** The field a method's payload names its tenant in, if the filter inspects one. */
  function InspectedCompanyId(req: Request): Option<string> {
    if req.httpMethod in ["POST", "PUT"] then (if req.body.Some? then req.body.value.companyId else None)
    else if req.httpMethod == "GET" then req.queryCompanyId
    else None
  }

  /** A request is rejected exactly when the field its method inspects (the body on POST
      and PUT, the query on GET) names a tenant other than the user's. */
  lemma InterceptRejectsIff(req: Request)
    ensures Intercept(req).Fail? <==> NamesOtherTenant(req, InspectedCompanyId(req))
  {
  }

  /** The filter reads only the field its method inspects: on POST/PUT the query, on GET
      the body, and on every other method both, may change without changing the verdict. */
  lemma InterceptIgnoresUninspected(req: Request, body: Option<RequestBody>, query: Option<string>)
    ensures req.httpMethod in ["POST", "PUT"] ==> Intercept(req.(queryCompanyId := query)) == Intercept(req)
    ensures req.httpMethod == "GET" ==> Intercept(req.(body := body)) == Intercept(req)
    ensures req.httpMethod !in ["POST", "PUT", "GET"] ==> Intercept(req.(body := body, queryCompanyId := query)) == Pass
  {
  }
}
