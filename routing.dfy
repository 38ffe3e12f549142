/**
 * The routing request the resolver plugins build from an incident, and the
 * recommendation the routing service answers with. The routing service itself
 * (`route_service.get`) is outside the model: a resolver is given it as a function.
 */
module Routing {
  import opened Individuals

  /** The incident context of a request; `T` is what each priority and type is given as. */
  datatype RouteContext<T> = RouteContext(incidentPriorities: seq<T>, incidentTypes: seq<T>, terms: seq<string>)

  datatype RouteRequest<T> = RouteRequest(text: string, context: RouteContext<T>)

  type DocumentRef = string
  type TeamRef = string

  /** An identity addressable through the plugin whose slug is `kind` (`s.type` in the source). */
  datatype ServiceContact = ServiceContact(kind: string, externalId: string)

  datatype RecommendationData = RecommendationData(
    documents: seq<DocumentRef>,
    serviceContacts: seq<ServiceContact>,
    individualContacts: seq<Individual>,
    teamContacts: seq<TeamRef>)

  /** A routing service: what it recommends for a request. */
  type RouteService<!T> = RouteRequest<T> -> RecommendationData

  /**
   * The request both resolvers build: the description as text, the one priority and the
   * one type as singleton lists, and no search terms.
   */
  function BuildRequest<T>(description: string, incidentType: T, incidentPriority: T): (req: RouteRequest<T>)
    ensures req.text == description
    ensures req.context.incidentPriorities == [incidentPriority]
    ensures req.context.incidentTypes == [incidentType]
    ensures req.context.terms == []
  {
    RouteRequest(description, RouteContext([incidentPriority], [incidentType], []))
  }

  /** The recommendation object the routing service returns, which the participant resolver extends in place. */
  class Recommendation {
    var documents: seq<DocumentRef>
    var serviceContacts: seq<ServiceContact>
    var individualContacts: seq<Individual>
    var teamContacts: seq<TeamRef>

    constructor (data: RecommendationData)
      ensures documents == data.documents && serviceContacts == data.serviceContacts
      ensures individualContacts == data.individualContacts && teamContacts == data.teamContacts
    {
      documents := data.documents;
      serviceContacts := data.serviceContacts;
      individualContacts := data.individualContacts;
      teamContacts := data.teamContacts;
    }
  }
}
