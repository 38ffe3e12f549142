/** `DispatchDocumentResolverPlugin.get`: the documents routing recommends for an incident. */
module DocumentResolver {
  import opened Routing

  /**
   * Routes a request carrying the description, `[incidentPriority]`, `[incidentType]` and no
   * terms, and returns only the recommendation's documents.
   */
  function Get(incidentType: string, incidentPriority: string, description: string,
               route: RouteService<string>): (docs: seq<DocumentRef>)
    ensures docs == route(RouteRequest(description, RouteContext([incidentPriority], [incidentType], []))).documents
  {
    route(BuildRequest(description, incidentType, incidentPriority)).documents
  }

  /** Nothing but the documents routing recommends for that one request affects the answer. */
  lemma GetDependsOnlyOnDocuments(incidentType: string, incidentPriority: string, description: string,
                                  route1: RouteService<string>, route2: RouteService<string>)
    requires var req := BuildRequest(description, incidentType, incidentPriority);
             route1(req).documents == route2(req).documents
    ensures Get(incidentType, incidentPriority, description, route1)
         == Get(incidentType, incidentPriority, description, route2)
  {
  }
}
