/**
 * The changeset wire format: a payload is a list of changes, each an action
 * on one entity keyed by the entity's lower-camel kind name, with the issue
 * ids the change claims to resolve.
 */
module Payloads {
  import opened Wrappers

  datatype Action = CreateUpdate | Destroy

  /** One identified_by entry: an entity id inside a feed. */
  datatype Identifier = Identifier(feedOnestopId: string, entityId: string)

  /** The fields a change carries; geometries are not part of this model. */
  datatype ChangeBody =
    | OperatorBody(onestopId: string, name: string, identifiedBy: seq<Identifier>,
                   importedFromFeedOnestopId: string, tags: map<string, string>,
                   timezone: Option<string>, website: Option<string>)
    | StopBody(onestopId: string, name: string, identifiedBy: seq<Identifier>,
               importedFromFeedOnestopId: string, tags: map<string, string>,
               timezone: Option<string>)
    | RouteBody(onestopId: string, name: string, identifiedBy: seq<Identifier>,
                importedFromFeedOnestopId: string, operatedBy: string,
                serves: seq<string>, tags: map<string, string>)
    | ScheduleStopPairBody(fields: map<string, string>)
    | EntityBody(fields: map<string, string>)

  datatype Change = Change(action: Action, entityType: string, body: ChangeBody, issuesResolved: seq<nat>)

  datatype ChangePayload = ChangePayload(changes: seq<Change>)

  /** A createUpdate change of one entity, claiming to resolve nothing. */
  function CreateUpdateChange(entityType: string, body: ChangeBody): (c: Change)
    ensures c.action == CreateUpdate && c.entityType == entityType && c.body == body
    ensures c.issuesResolved == []
  {
    Change(CreateUpdate, entityType, body, [])
  }
}
