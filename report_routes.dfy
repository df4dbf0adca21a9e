/** The status route of backend/src/routes/reports.js:
    `PUT /:id/status` runs `authenticateJWT`, then `requireRole('Yonetici')`,
    then `updateReportStatus`. The role check lives only here; the handler
    itself checks none. */
module ReportRoutes {
  import opened Common
  import opened ReportModel
  import opened ReportController
  import opened AuthMiddleware

  /** The role the status route demands. */
  const StatusRole: string := "Yonetici"

  /** The whole status route: a request without a header gets 401, one
      whose token is missing, empty or does not verify gets 403, and one
      whose claims' role is not exactly "Yonetici" gets the role gate's
      403; all three leave the table alone. A request that authenticates
      carries its claims in `req.user` from then on. Any other request
      gets `updateReportStatus`'s outcome. */
  method PutReportStatus(req: Request, verify: string -> Option<Claims>, store: ReportStore,
                         id: nat, status: Option<string>) returns (resp: Response<Report>)
    requires store.Valid()
    modifies req, store
    ensures store.Valid() && store.nextId == old(store.nextId) && store.uploads == old(store.uploads)
    ensures old(store.NoneRejected()) ==> store.NoneRejected()
    ensures var c := Authenticated(req.authorization, verify);
            req.user == (if c.Some? then c else old(req.user))
    ensures !Truthy(req.authorization) ==>
      resp == Failure(401, "No token provided") && store.reports == old(store.reports)
    ensures var c := Authenticated(req.authorization, verify);
            Truthy(req.authorization) && c.None? ==>
              resp == Failure(403, "Invalid token") && store.reports == old(store.reports)
    ensures var c := Authenticated(req.authorization, verify);
            c.Some? && c.value.role != StatusRole ==>
              resp == Failure(403, "Forbidden: Insufficient role") && store.reports == old(store.reports)
    ensures var c := Authenticated(req.authorization, verify);
            c.Some? && c.value.role == StatusRole ==>
              && (NewStatus(status).None? ==>
                    resp == Failure(400, "Invalid status provided.") && store.reports == old(store.reports))
              && (NewStatus(status).Some? && id !in old(store.reports) ==>
                    resp == Failure(404, "Report not found.") && store.reports == old(store.reports))
              && (NewStatus(status).Some? && id in old(store.reports) ==>
                    var r := old(store.reports)[id].(status := NewStatus(status).value);
                    store.reports == old(store.reports)[id := r] && resp == Success(200, r))
  {
    var g := AuthenticateJwt(req, verify);
    if g.Halt? {
      return Failure(g.code, g.message);
    }
    g := RequireRole(StatusRole, req.user.value);
    if g.Halt? {
      return Failure(g.code, g.message);
    }
    resp := store.UpdateReportStatus(id, status);
  }

  /** Neither role this code gives out reaches the status handler through
      the route: the role registration issues and the role the report
      handlers treat as elevated both fail the "Yonetici" check. */
  lemma IssuedRolesFailStatusGate(c: Claims)
    requires c.role == "Calisan" || c.role == ManagerRole
    ensures RequireRole(StatusRole, c) == Halt(403, "Forbidden: Insufficient role")
  {
  }
}
