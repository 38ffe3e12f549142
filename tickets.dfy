/**
 * `DispatchTicketPlugin`: the internal ticket is named after the incident, and
 * updating it is a no-op.
 */
module Tickets {
  import opened Wrappers
  import opened Text

  const ResourcePrefix: string := "dispatch-"
  const IncidentsPath: string := "/incidents/"
  const ResourceType: string := "dispatch-internal-ticket"

  datatype Ticket = Ticket(resourceId: string, weblink: string, resourceType: string)

  /** The incident id a ticket resource id names, if it is one. */
  function ParseResourceId(resourceId: string): (id: Option<int>)
  {
    if |resourceId| >= |ResourcePrefix| && resourceId[..|ResourcePrefix|] == ResourcePrefix
    then ParseInt(resourceId[|ResourcePrefix|..])
    else None
  }

  /**
   * `create`: the resource id is "dispatch-" and the incident id in decimal, the web link
   * is that id under the UI's incidents path, and the type is the internal ticket type.
   * The UI base URL is configuration, passed in; the other arguments are not used.
   */
  function Create(incidentId: int, title: string, incidentType: string, incidentPriority: string,
                  commander: string, reporter: string, uiUrl: string): (t: Ticket)
    ensures t.resourceId == ResourcePrefix + IntToString(incidentId)
    ensures ParseResourceId(t.resourceId) == Some(incidentId)
    ensures t.weblink == uiUrl + IncidentsPath + t.resourceId
    ensures t.resourceType == ResourceType
  {
    var resourceId := ResourcePrefix + IntToString(incidentId);
    assert resourceId[|ResourcePrefix|..] == IntToString(incidentId);
    ParseIntToString(incidentId);
    Ticket(resourceId, uiUrl + IncidentsPath + resourceId, ResourceType)
  }

  /** Tickets of different incidents have different resource ids and web links. */
  lemma CreateSeparatesIncidents(a: int, b: int, title: string, incidentType: string, incidentPriority: string,
                                 commander: string, reporter: string, uiUrl: string)
    requires a != b
    ensures Create(a, title, incidentType, incidentPriority, commander, reporter, uiUrl).resourceId
         != Create(b, title, incidentType, incidentPriority, commander, reporter, uiUrl).resourceId
    ensures Create(a, title, incidentType, incidentPriority, commander, reporter, uiUrl).weblink
         != Create(b, title, incidentType, incidentPriority, commander, reporter, uiUrl).weblink
  {
    var ta := Create(a, title, incidentType, incidentPriority, commander, reporter, uiUrl);
    var tb := Create(b, title, incidentType, incidentPriority, commander, reporter, uiUrl);
    var prefix := uiUrl + IncidentsPath;
    assert ta.weblink == prefix + ta.resourceId && tb.weblink == prefix + tb.resourceId;
    assert ta.weblink[|prefix|..] == ta.resourceId && tb.weblink[|prefix|..] == tb.resourceId;
  }

  /** The optional fields `update` accepts. */
  datatype TicketChanges = TicketChanges(
    title: Option<string>, description: Option<string>, incidentType: Option<string>,
    priority: Option<string>, status: Option<string>, commanderEmail: Option<string>,
    reporterEmail: Option<string>, conversationWeblink: Option<string>,
    conferenceWeblink: Option<string>, documentWeblink: Option<string>,
    storageWeblink: Option<string>, labels: Option<seq<string>>, cost: Option<string>)

  /** `update`: returns nothing and, having no state, changes nothing. */
  function Update(ticketId: string, changes: TicketChanges): ()
  {
    ()
  }
}
