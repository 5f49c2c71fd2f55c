# Transitland changesets, data-quality issues and the GTFS import graph, in Dafny

This project models the core of the Transitland datastore. It covers four
pieces:

- **Changesets** (`changesets.dfy`, module `Changesets`). A changeset is a
  batch of change payloads, applied all-or-nothing. `apply!` runs the
  payloads in order and marks the changeset applied. It then records which
  feed version the touched entities came from, in bulk inserts of 1000
  rows. Next the quality check runs. The apply commits when the check finds
  no issue equivalent to one the payloads claimed to resolve. The commit
  closes the claimed issues and saves the found ones. Otherwise the apply
  rolls everything back. `trial_succeeds?` is the dry run. `revert!` always
  raises. `create_change_payloads` slices tracked entities into payloads.
  The database tables are a `Datastore` object and an `IssueStore` object.
  The pure function `ApplySpec` is the specification that `Changeset.Apply`
  is proved against.
- **Issues** (`issues.dfy`, module `Issues`). These are the issue semantics
  that `spec/models/issue_spec.rb` pins down:
  - `equivalent?` compares the issue type and the set of (entity, attribute)
    rows;
  - `find_by_equivalent`, `with_type` and `issues_of_entity`;
  - deprecation, which spares issues attached to a feed version;
  - destruction of an issue together with its `entities_with_issues` rows;
  - the issue table as a class with `save!`, resolution and destruction.
- **Schedule stop pairs** (`schedule_stop_pairs.dfy`, module
  `ScheduleStopPairs`). This is the service calendar of a timetable edge:
  - `service_on_date?`;
  - the de-duplicating date setters;
  - the `set_service_range` hook;
  - the presence, range and exception-date validations.
- **The GTFS graph** (`gtfs_graph.dfy`, module `GtfsGraphs`):
  - GTFS stops are merged into stations;
  - stations, routes and agencies are matched with Transitland stops,
    routes and operators;
  - the `make_change_*` bodies are built;
  - `create_changeset` gates payloads by import level, slices them by 1000
    and applies the changeset.

Supporting modules:

- `wrappers.dfy`: `Option` for Ruby's nil, and `Result` for raised
  exceptions.
- `payloads.dfy`: the change wire format.
- `seqs.dfy`: the Ruby core methods the code leans on (`select`, `uniq`,
  `Set#|`, `each_slice`, `flatten`, `split`, `join`, `to_s`).

Modelling choices:

- **Dates** are Julian day numbers, so the ISO weekday is `d % 7 + 1`.
- **Nil** is `None`, and a Ruby exception is a `Failure` value.
- **Transitland objects in the GTFS graph** live in handle heaps, one
  `seq` per kind:
  - a record found in the database is a new object, so it gets a fresh
    handle, and it carries its row id (`dbId`); an object built from GTFS
    has none;
  - the `@gtfs_tl` and `@tl_by_onestop_id` hashes map to handles.
- **Set membership of Transitland objects.** ActiveRecord's `==` and
  `hash` compare two saved records by class and row id, so a Ruby `Set`
  (`to_set`, `Set#|`, `reduce(Set.new, :+)`) holds one element per stored
  row, however many objects load it. Unsaved objects compare by identity.
  The model gives each handle an `Identity`: `Row(id)` for a loaded record,
  `Object(handle)` otherwise. Its sets are `DedupBy` and `UnionBy` on that
  identity, keeping the first element, as Ruby's insertion-ordered sets do.
  Row ids never change during an import, so identities stay put.
- **Collaborators outside this code are parameters:**
  - the GTFS reader's output is a `GtfsSource` value;
  - the `from_gtfs` constructors, the similarity search and `find_by` form
    a `Lookups` value;
  - each payload's own `apply!` and the quality check form an `Engine`
    value;
  - `make_ssp`/`make_change_ssp` is a function from an edge to a change
    body;
  - the clock is an `int`.

Where the code and the design description of the system disagree, the model
follows the code:

- **Deprecation.** The design description closes a deprecated issue
  (`open = false`). The tests expect a deprecated issue to be gone:
  `Issue.find` raises (issue_spec.rb:135 and 164). The model therefore
  deletes deprecated issues.
- **Order of resolution and deprecation.** In a commit the claimed issues
  are closed first (changeset.rb:196). Deprecation takes effect as the
  found issues are saved (changeset.rb:197). The log the tests expect
  shows issue 8 deprecated while already closed by changeset 2
  (issue_spec.rb:102). So deprecation does not skip closed issues, and a
  claimed issue whose attribute changed is resolved and then removed. The
  model does the same: a commit resolves, then deprecates, then saves.
- **Unresolved issues.** The description has the apply fail with an error
  naming the unresolved issue. `apply!` builds one sentence per unresolved
  pair and joins them (changeset.rb:199). The model does the same.
- **Saving found issues.** The description deduplicates found issues with
  `find_by_equivalent` before saving them. `apply!` saves every found issue
  with `save!` (changeset.rb:197). The model does the same.

## Model

| member | source | states |
|---|---|---|
| Issues.EquivalentIsEquivalence | spec/models/issue_spec.rb:232-236 | equivalent? is reflexive, symmetric and transitive; it depends only on the type and the set of (entity, attribute) rows |
| Issues.PartialSignatureNotEquivalent | spec/models/issue_spec.rb:238-241 | an issue carrying only part of another's entity rows is equivalent to it in neither direction |
| Issues.FindByEquivalent | spec/models/issue_spec.rb:243-259 | None exactly when no open stored issue is equivalent to the candidate; otherwise the first such issue in table order |
| Issues.WithType | spec/models/issue_spec.rb:26-33 | an issue is returned iff it is stored and its type is one of the comma-separated names |
| Issues.WithTypeUnion | spec/models/issue_spec.rb:31 | listing "a,b" selects exactly the issues "a" or "b" selects |
| Issues.WithTypeIgnoresUnknown | spec/models/issue_spec.rb:30 | a listed type that no stored issue has does not change the result |
| Issues.IssuesOfEntityByAttribute | spec/models/issue_spec.rb:185-188 | with attribute names, an issue is returned iff it is stored and has a row for the entity on one of those attributes |
| Issues.IssuesOfEntityAll | spec/models/issue_spec.rb:189 | with no attribute names, every stored issue with a row for the entity is returned, and every narrower result is included |
| Issues.DestroyRemovesLinks | spec/models/issue_spec.rb:219-224 | destroying an issue removes exactly its entities_with_issues rows |
| Issues.DeprecationRemovesTracked | spec/models/issue_spec.rb:139-167 | an issue tracking a changed attribute of the entity, open or already closed, is gone after deprecation unless it is attached to a feed version |
| Issues.DeprecationSparesFeedVersionIssues | spec/models/issue_spec.rb:169-178 | an issue attached to a feed version survives every deprecation |
| Issues.DeprecationSparesOtherAttributes | spec/models/issue_spec.rb:192-215 | an issue whose rows for the entity name only unchanged attributes survives |
| Issues.Find | spec/models/issue_spec.rb:134-136 | Issue.find finds a stored issue with that id, or reports that none has it |
| Issues.Resolved | app/models/changeset.rb:196 | the resolved issue is closed, attributed to the resolving changeset, with id, type and entities kept |
| Issues.ResolvedIn | app/models/changeset.rb:196 | resolution rewrites only rows with that id; the table keeps its length and its ids |
| Issues.IssueStore.Save | app/models/changeset.rb:197 | save! appends the issue under the next id and advances it; the table stays in id order below the next id |
| Issues.IssueStore.Resolve | app/models/changeset.rb:196 | the table after update!(open: false, resolved_by_changeset: c), with the id order kept |
| Issues.IssueStore.Destroy | spec/models/issue_spec.rb:219-224 | destroy removes the issue and exactly its link rows, and keeps the table in id order |
| Issues.IssueStore.DeprecateChanged | spec/models/issue_spec.rb:139-178 | the table after deprecation for one attribute change, with the id order kept |
| Changesets.CreatedOrUpdatedOfKinds | app/models/changeset.rb:84-92 | an entity row is walked iff the changeset created or updated it and it is of one of the walked kinds |
| Changesets.ImportBatches | app/models/changeset.rb:180-190 | the bulk inserts concatenate back to the rows; each holds at most 1000, all but the last exactly 1000; there are rows/1000 + 1 of them |
| Changesets.ProvenanceRows | app/models/changeset.rb:179-191 | a provenance row is written iff the changeset has a feed and a feed version and an entity of a walked kind carries it; without both, nothing is written; batches hold at most 1000 |
| Changesets.NoProvenanceForScheduleStopPairs | app/models/changeset.rb:84-92 | schedule stop pairs never get provenance rows |
| Changesets.Datastore.ImportFromFeed | app/models/changeset.rb:180-190 | the buffer-and-flush loop performs exactly the inserts ImportBatches describes and leaves the entity rows alone |
| Changesets.Datastore.AddRow | app/models/changeset.rb:182-188 | adding one row and flushing at 1000 keeps the pending inserts in step with ImportBatches |
| Changesets.ApplyPayloadsSplit | app/models/changeset.rb:173-176 | applying payloads a + b is applying a, then b from a's result, with a's claimed issues first; a failure in a aborts |
| Changesets.IssuesUnresolved | app/models/changeset.rb:157-159 | a claimed issue is unresolved iff some found issue is equivalent to it |
| Changesets.IssuesUnresolvedEmpty | app/models/changeset.rb:194-195 | nothing is unresolved exactly when no found issue is equivalent to any claimed one |
| Changesets.NotResolvedMessageNamesEach | app/models/changeset.rb:199 | the error message contains the sentence of every unresolved issue |
| Changesets.NotResolvedSentenceInjective | app/models/changeset.rb:199 | two issues with the same sentence have the same id |
| Changesets.DeprecateAll | spec/models/issue_spec.rb:139-178 | an issue survives the attribute changes iff it was stored and none of them deprecates it; feed-version issues always survive |
| Changesets.DeprecateAllIsFilter | spec/models/issue_spec.rb:130-137 | deprecating change after change keeps exactly the issues no change deprecates, in order, so the table shrinks by the number of deprecated issues |
| Changesets.ClosedKeepsDeprecation | spec/models/issue_spec.rb:102 | resolving an issue does not change whether a change deprecates it |
| Changesets.ResolveAll | app/models/changeset.rb:196 | after resolving each claimed issue, a row is closed by this changeset iff its id was claimed; the other rows are untouched |
| Changesets.FailedApplyChangesNothing | app/models/changeset.rb:171-207 | when apply! raises, the changeset and every table are as they were |
| Changesets.ApplyIsOnceOnly | app/models/changeset.rb:169 | after a successful apply, applying again raises "has already been applied." and changes nothing |
| Changesets.ApplySucceedsIff | app/models/changeset.rb:168-207 | apply succeeds iff the changeset is not applied, every payload applies, and the check reproduces no claimed issue |
| Changesets.CommittedIssues | app/models/changeset.rb:195-197 | after a commit the table holds every stored issue no change deprecates, closed by the changeset when claimed, then the saved issues, and nothing else; its size is stored minus deprecated plus saved |
| Changesets.CommittedCount | app/models/changeset.rb:195-197 | a commit's table has the stored issues less the deprecated ones plus the saved ones, the saved ones last |
| Changesets.CommitOutcome | app/models/changeset.rb:193-197 | when nothing claimed is reproduced, apply! succeeds with the saved issues, marks the changeset applied and commits the resolved-then-deprecated table with the saved issues appended |
| Changesets.SuccessfulApply | app/models/changeset.rb:177-202 | a commit: applied at now; the payloads' entities; deprecated issues gone, every other stored issue kept and closed by this changeset when claimed; found issues saved at the end under consecutive new ids and returned |
| Changesets.DeprecatedIdGone | spec/models/issue_spec.rb:134-135 | with unique ids, no row with a deprecated issue's id remains after the commit, so Issue.find of it raises |
| Changesets.ReimportReplacesIssues | spec/models/issue_spec.rb:130-137 | when the changes deprecate as many stored issues as the check finds, the table keeps its size, no deprecated id is left and the found issues take the next ids with their creating changeset |
| Changesets.ReplacedTable | spec/models/issue_spec.rb:130-137 | at the table level: as many deprecated as saved keeps the size, leaves no deprecated id, and the saved issues take the next ids with their creating changeset |
| Changesets.ApplyKeepsTableValid | app/models/changeset.rb:193-202 | any apply keeps the issue table in id order below the next id |
| Changesets.CommitKeepsTableValid | app/models/changeset.rb:196-197 | closing issues keeps ids, deprecation only removes rows, and the saved issues continue the id order |
| Changesets.Revert | app/models/changeset.rb:228-235 | revert! always raises; the message says "doesn't exist yet" iff the changeset was applied |
| Changesets.TrialMatchesApply | app/models/changeset.rb:113-127 | the trial reports true iff apply would succeed; on success its issues are exactly the tail apply appends to the table and advance the next id by their number; on failure no issues and no change |
| Changesets.ResolvingIssueEightCommits | spec/models/issue_spec.rb:85-105 | a changeset claiming issue 8 commits when the check no longer reproduces it; issue 8 is then closed by this changeset, or, when the changed attributes deprecate it as at issue_spec.rb:102, no row with id 8 remains |
| Changesets.ResolvingIssueEightRejected | spec/models/issue_spec.rb:107-127 | when the check still reproduces issue 8, apply raises "Issue 8 was not resolved." and nothing changes |
| Changesets.IssueEightMessage | app/models/changeset.rb:199 | the error for an unresolved issue 8 reads "Issue 8 was not resolved." |
| Changesets.LowerCamel | app/models/changeset.rb:135 | camelize(:lower) keeps the length and the tail, lowers a leading capital and leaves other names alone |
| Changesets.LowerCamelIdempotent | app/models/changeset.rb:135 | lower-camelizing twice is lower-camelizing once |
| Changesets.Compact | app/models/changeset.rb:135 | compact keeps exactly the non-nil attributes, with their values |
| Changesets.ChangesFor | app/models/changeset.rb:132-137 | one change per entity, in order, each a createUpdate of that entity |
| Changesets.SlicePayloads | app/models/changeset.rb:130-149 | one payload per slice, holding that slice's changes |
| Changesets.BuildChanges | app/models/changeset.rb:131-137 | the loop builds exactly the slice's changes |
| Changesets.PayloadsCoverEntities | app/models/changeset.rb:129-150 | the payloads' changes are every entity's change, in order, over ceil(n / max) non-empty payloads of at most max changes |
| Changesets.Changeset.constructor | app/models/changeset.rb:247-251 | a new changeset is not applied and has no payloads |
| Changesets.Changeset.AddPayload | app/models/changeset.rb:139 | the payload is appended and nothing else changes |
| Changesets.Changeset.CreateChangePayloads | app/models/changeset.rb:129-150 | a slice size that is not positive raises and adds nothing; otherwise PayloadsFor is appended to the changeset and nothing is returned |
| Changesets.Changeset.ApplyChangePayloads | app/models/changeset.rb:173-176 | the payload loop yields ApplyPayloads' claimed issues and entities, or its error with the entities restored |
| Changesets.Changeset.Apply | app/models/changeset.rb:168-226 | result, changeset state and tables are those of ApplySpec; the issue table stays valid |
| Changesets.Changeset.Conclude | app/models/changeset.rb:177-207 | provenance, check, then commit or rollback, as Settle describes |
| Changesets.Changeset.Commit | app/models/changeset.rb:195-197 | the claimed issues are resolved, then the deprecated ones removed, then the found ones saved under consecutive new ids |
| Changesets.Changeset.Rollback | app/models/changeset.rb:203-207 | every table and the changeset's applied fields are back to the snapshot |
| Changesets.Changeset.TrialSucceeds | app/models/changeset.rb:113-127 | the dry run returns TrialOutcome of ApplySpec; the changeset and every table are as before, except that the issue id sequence stays advanced by the issues the trial saved |
| Changesets.DeprecateEach | spec/models/issue_spec.rb:139-178 | deprecation for each attribute change in turn gives DeprecateAll, keeping the table valid |
| Changesets.ResolveEach | app/models/changeset.rb:196 | resolving each claimed issue in turn gives ResolveAll |
| Changesets.SaveEach | app/models/changeset.rb:197 | saving each found issue appends them under consecutive new ids |
| ScheduleStopPairs.Cwday | app/models/schedule_stop_pair.rb:114-115 | the ISO weekday is between 1 and 7 |
| ScheduleStopPairs.Between | app/models/schedule_stop_pair.rb:115 | between? is true iff both bounds are present and enclose the date; it raises iff the start is nil, or the date reaches a nil end |
| ScheduleStopPairs.InService | app/models/schedule_stop_pair.rb:112-116 | in service iff within the range, on a flagged weekday or an added date, and not an except date; raises exactly when between? does |
| ScheduleStopPairs.ExceptDateNotInService | app/models/schedule_stop_pair.rb:115 | an except date is never in service |
| ScheduleStopPairs.MinOf | app/models/schedule_stop_pair.rb:143 | min is nil iff the list is empty, else a member no greater than any |
| ScheduleStopPairs.MaxOf | app/models/schedule_stop_pair.rb:144 | max is nil iff the list is empty, else a member no smaller than any |
| ScheduleStopPairs.WithServiceRange | app/models/schedule_stop_pair.rb:142-146 | present bounds are kept; a missing start/end becomes the least/greatest except or added date; a bound stays nil iff it was nil and there are no dates |
| ScheduleStopPairs.RangeErrors | app/models/schedule_stop_pair.rb:149-155 | no range error iff both bounds are present and start <= end |
| ScheduleStopPairs.OutsideRange | app/models/schedule_stop_pair.rb:159 | reject raises iff some date reaches a nil bound; otherwise it keeps exactly the dates outside the range |
| ScheduleStopPairs.OutsideRangeEmpty | app/models/schedule_stop_pair.rb:159 | reject leaves nothing iff every date is within the range |
| ScheduleStopPairs.ExceptionErrorsNone | app/models/schedule_stop_pair.rb:158-165 | no exception-date error iff every added and except date is within a present range |
| ScheduleStopPairs.ExceptionErrorsRaise | app/models/schedule_stop_pair.rb:158-165 | the validation raises iff some added or except date reaches a nil bound |
| ScheduleStopPairs.DerivedRangeValidates | app/models/schedule_stop_pair.rb:72-74 | with no preset range and some except or added date, the derived range passes both date validations |
| ScheduleStopPairs.ScheduleStopPair.SetServiceExceptDates | app/models/schedule_stop_pair.rb:119-121 | the stored except dates are the given ones, without repeats, first occurrences kept; nothing else changes |
| ScheduleStopPairs.ScheduleStopPair.SetServiceAddedDates | app/models/schedule_stop_pair.rb:123-125 | the stored added dates are the given ones, without repeats, first occurrences kept; nothing else changes |
| ScheduleStopPairs.ScheduleStopPair.SetServiceRange | app/models/schedule_stop_pair.rb:142-146 | the calendar becomes WithServiceRange of the old one; the relations are untouched |
| ScheduleStopPairs.ScheduleStopPair.PresenceErrors | app/models/schedule_stop_pair.rb:66-69 | no presence error iff origin, destination and route are set and trip is not blank: nil, empty or only Unicode White_Space characters, as `[[:space:]]` matches them |
| ScheduleStopPairs.ScheduleStopPair.Validate | app/models/schedule_stop_pair.rb:72-74 | the hook runs first, then every validation |
| ScheduleStopPairs.MissingRelationInvalid | app/models/schedule_stop_pair.rb:66-69 | a pair missing a relation or trip has an error whenever validation does not raise |
| ScheduleStopPairs.DerivedRangePairValid | app/models/schedule_stop_pair.rb:66-74 | a complete pair whose range was derived from at least one date is valid |
| Seqs.Dedup | app/models/schedule_stop_pair.rb:120 | uniq keeps each element once, loses none and adds none |
| Seqs.DedupKeepsUnique | app/models/schedule_stop_pair.rb:120 | uniq leaves a repeat-free list as it is |
| Seqs.DedupIdempotent | lib/gtfsgraph.rb:240 | uniq is idempotent |
| Seqs.DedupBy | lib/gtfsgraph.rb:67-68 | to_set on elements compared by a key: no two results share a key, each result is an input, every input's key is kept, first occurrence wins |
| Seqs.DedupByKeepsDistinct | lib/gtfsgraph.rb:67-68 | to_set leaves a list whose keys are already distinct as it is |
| Seqs.DedupByPrefix | lib/gtfsgraph.rb:90 | the set of a list is a prefix of the set of any extension of it |
| Seqs.DedupByInjective | lib/gtfsgraph.rb:67-68 | when the key tells elements apart exactly, to_set by key is plain uniq |
| Seqs.UnionBy | lib/gtfsgraph.rb:90 | Set#| by key: distinct keys, only elements of either side, every key of either side present, and a set on the left stays in front unchanged |
| Seqs.Chunks | lib/gtfsgraph.rb:198 | each_slice concatenates back to the list, in non-empty slices of at most n, all but the last exactly n |
| Seqs.ChunksCount | app/models/changeset.rb:130 | each_slice yields ceil(len / n) slices |
| Seqs.ParseNatToString | app/models/changeset.rb:199 | the decimal rendering of an id parses back to the id |
| GtfsGraphs.StopById | lib/gtfsgraph.rb:31 | the stop found has the id; None only when no stop has it |
| GtfsGraphs.AgencyById | lib/gtfsgraph.rb:104-106 | the agency found has the id; None only when no agency has it |
| GtfsGraphs.RoutesOfAgency | lib/gtfsgraph.rb:109 | exactly the routes of the agency |
| GtfsGraphs.StationOf | lib/gtfsgraph.rb:31 | the group key is the stop itself or its parent station, and the stop itself when it has no parent |
| GtfsGraphs.StationInFeed | lib/gtfsgraph.rb:31 | the group key of a feed stop is a feed stop: itself or its resolved parent |
| GtfsGraphs.StationMembersContains | lib/gtfsgraph.rb:29-32 | a stop is in a group iff it is a feed stop whose key is the group's |
| GtfsGraphs.GroupStations | lib/gtfsgraph.rb:29-32 | the stations hash: distinct keys, each used by some stop, every stop's key present, each group holding exactly its stops in order |
| GtfsGraphs.AddToGroup | lib/gtfsgraph.rb:31 | one step of the grouping loop keeps the hash in step with the stops seen |
| GtfsGraphs.GroupingPartitions | lib/gtfsgraph.rb:29-32 | every stop is in exactly one group, its station's |
| GtfsGraphs.StationsMappedStep | lib/gtfsgraph.rb:35-56 | loading one more station maps its whole group to one handle and keeps the earlier groups mapped |
| GtfsGraphs.StationsMappedAll | lib/gtfsgraph.rb:26-57 | after all stations, every stop is mapped, to its station's stop when stations are one level deep |
| GtfsGraphs.WithIdentifiers | lib/gtfsgraph.rb:45-48 | add_identifier leaves the Onestop ID and timezone alone |
| GtfsGraphs.AddIdentifiers | lib/gtfsgraph.rb:45-48 | the loop adds one identifier per group entity, in order, and maps each entity to the chosen stop |
| GtfsGraphs.Choose | lib/gtfsgraph.rb:43 | a stored record is a new object (carrying its row id); a cached handle gives the cached object; otherwise the candidate is allocated |
| GtfsGraphs.SameRowCountsOnce | lib/gtfsgraph.rb:109-112 | two handles loaded from the same row are one set element: to_set and Set#| keep only the first |
| GtfsGraphs.DistinctRowsCountByHandle | lib/gtfsgraph.rb:67-68 | when no two handles share a row, a set of handles is plain uniq |
| GtfsGraphs.AgenciesFoundStep | lib/gtfsgraph.rb:103-137 | after one more operator in feed, every agency seen so far still maps to an operator whose identity is found |
| GtfsGraphs.FillTimezonesAt | lib/gtfsgraph.rb:126 | a served stop without a timezone gets the operator's; a stop with one, or not served, is unchanged |
| GtfsGraphs.FillStopTimezones | lib/gtfsgraph.rb:126 | the timezone-filling loop computes FillTimezones |
| GtfsGraphs.AssignOperator | lib/gtfsgraph.rb:128 | the `route.operator =` loop computes SetOperator |
| GtfsGraphs.ServesOf | lib/gtfsgraph.rb:148-149 | an element is in the combined serves lists iff one of the given objects serves it |
| GtfsGraphs.PutRouteValid | lib/gtfsgraph.rb:89-94 | writing a valid route keeps every route and operator handle valid |
| GtfsGraphs.AssignOperatorValid | lib/gtfsgraph.rb:126-134 | assigning an operator to its routes and serving them keeps every handle valid |
| GtfsGraphs.MakeChangeOperator | lib/gtfsgraph.rb:236-247 | the body copies the fields, with identifiers uniq'd and tags defaulting to {} |
| GtfsGraphs.MakeChangeStop | lib/gtfsgraph.rb:249-259 | the body copies the fields, with identifiers uniq'd and tags defaulting to {} |
| GtfsGraphs.MakeChangeRoute | lib/gtfsgraph.rb:261-272 | the body copies the fields, with identifiers uniq'd, tags defaulting to {}, and the operator and stops by Onestop ID |
| GtfsGraphs.MakeChangeStopStable | lib/gtfsgraph.rb:253 | rebuilding a stop body from its own identifiers gives the same body |
| GtfsGraphs.TypedChanges | lib/gtfsgraph.rb:200-205 | one createUpdate change per body, keyed by the entity type |
| GtfsGraphs.TypedPayloadsShape | lib/gtfsgraph.rb:195-213 | ceil(n / 1000) payloads of 1 to 1000 changes, holding every body in order |
| GtfsGraphs.OneSlice | lib/gtfsgraph.rb:182-186 | at most 1000 bodies make exactly one payload |
| GtfsGraphs.Zip | lib/gtfsgraph.rb:173 | the i-th edge joins the i-th origin and destination |
| GtfsGraphs.TripEdges | lib/gtfsgraph.rb:173 | consecutive stop times make the edges; an empty trip raises TypeError "wrong argument type NilClass (must respond to :each)" |
| GtfsGraphs.MapEdges | lib/gtfsgraph.rb:173-175 | one body per edge, in order |
| GtfsGraphs.ChunkBodies | lib/gtfsgraph.rb:168-180 | a trip chunk fails iff it has a trip without stop times |
| GtfsGraphs.SspPayloadsShape | lib/gtfsgraph.rb:161-188 | every schedule stop pair payload holds 1 to 1000 createUpdate changes of that type resolving nothing |
| GtfsGraphs.TypedPayloadsAllowed | lib/gtfsgraph.rb:195-213 | the payloads of an allowed type are well sized and only create |
| GtfsGraphs.ImportLevelGating | lib/gtfsgraph.rb:151-188 | operators come first; level 0 writes only them; stops and routes need level 1; pairs need level 2; all well sized and createUpdate |
| GtfsGraphs.GtfsGraph.constructor | lib/gtfsgraph.rb:6-15 | a new graph has empty hashes and no objects |
| GtfsGraphs.GtfsGraph.LoadTlStation | lib/gtfsgraph.rb:35-56 | the chosen stop gains the station's and platforms' identifiers; they all map to its handle, which is cached; routes and operators are untouched |
| GtfsGraphs.GtfsGraph.LoadTlStops | lib/gtfsgraph.rb:26-57 | every GTFS stop is mapped, a platform to its station's stop when stations are one level deep |
| GtfsGraphs.GtfsGraph.RouteStops | lib/gtfsgraph.rb:64-68 | the Transitland stops of the GTFS stops the route's trips visit, one per stored row or unsaved object: every mapped stop's identity is present |
| GtfsGraphs.GtfsGraph.RouteStopsEmpty | lib/gtfsgraph.rb:69 | the route's stop set is empty iff none of the GTFS stops its trips visit is mapped |
| GtfsGraphs.WriteRouteValid | lib/gtfsgraph.rb:89-94 | writing a valid route at its handle and mapping the GTFS route and Onestop ID to it keeps the graph valid |
| GtfsGraphs.GtfsGraph.UpdatedRouteValid | lib/gtfsgraph.rb:83-94 | the chosen route with the stops joined by identity and the identifier added keeps the graph valid |
| GtfsGraphs.GtfsGraph.RouteChoiceValid | lib/gtfsgraph.rb:83-85 | the chosen route is valid and is the object at its handle when that handle is taken |
| GtfsGraphs.GtfsGraph.LoadTlRoute | lib/gtfsgraph.rb:62-96 | a route visiting no mapped stop is skipped; otherwise the chosen route's serves becomes its old serves Set#| the route's stops (by identity), it gains an identifier, and is mapped and cached |
| GtfsGraphs.GtfsGraph.LoadTlRoutes | lib/gtfsgraph.rb:59-97 | a GTFS route is mapped iff it was already or it visits a mapped stop |
| GtfsGraphs.GtfsGraph.AgencyRoutes | lib/gtfsgraph.rb:109-112 | the agency's mapped routes, one per identity |
| GtfsGraphs.GtfsGraph.AgencyRoutesMembers | lib/gtfsgraph.rb:108-112 | every route in the set is one an agency GTFS route maps to, and every such route's identity is in the set |
| GtfsGraphs.GtfsGraph.OperatorChoiceValid | lib/gtfsgraph.rb:118-122 | the chosen operator is valid and is the object at its handle when that handle is taken |
| GtfsGraphs.GtfsGraph.LoadTlOperator | lib/gtfsgraph.rb:103-137 | an agency missing from the feed is skipped; otherwise stops get missing timezones, routes get the operator, whose serves becomes its old serves Set#| the routes (by identity); it gains an identifier and is mapped and cached; row ids are kept |
| GtfsGraphs.GtfsGraph.AgencyOperatorValid | lib/gtfsgraph.rb:124-134 | the objects and hashes after one operator are all valid handles |
| GtfsGraphs.GtfsGraph.LoadAgencyOperator | lib/gtfsgraph.rb:109-134 | the per-agency part of LoadTlOperator, with the same effect, serves joined by identity |
| GtfsGraphs.GtfsGraph.LoadTlOperators | lib/gtfsgraph.rb:99-141 | the found operators are valid, one per stored row or unsaved object; every operator in feed whose agency the GTFS feed has maps to an operator whose identity is found; none is found iff the GTFS feed has none of those agencies |
| GtfsGraphs.GtfsGraph.AddFeedOperator | lib/gtfsgraph.rb:103-138 | one operator in feed: a known agency's operator is added to the set unless an operator of the same identity is already there, and the agency maps to it; an unknown agency changes nothing found; earlier agencies keep a found identity |
| GtfsGraphs.GtfsGraph.LoadTl | lib/gtfsgraph.rb:17-24 | every GTFS stop is mapped; every route visiting a mapped stop is mapped; the operators found are one per identity, every known agency of the feed maps to one whose identity is found, and none is found iff no agency of the feed is in the GTFS feed |
| GtfsGraphs.GtfsGraph.OperatorRoutes | lib/gtfsgraph.rb:148 | the routes the operators serve, one per identity, each with an operator, every served route's identity present |
| GtfsGraphs.GtfsGraph.ServedStops | lib/gtfsgraph.rb:149 | the stops the routes serve, one per identity |
| GtfsGraphs.GtfsGraph.ServedStopsMembers | lib/gtfsgraph.rb:149 | every stop in the set is served by one of the routes, and every served stop's identity is in it |
| GtfsGraphs.GtfsGraph.OperatorBodies | lib/gtfsgraph.rb:153 | one make_change_operator body per operator, in order |
| GtfsGraphs.GtfsGraph.StopBodies | lib/gtfsgraph.rb:157 | one make_change_stop body per stop, in order |
| GtfsGraphs.GtfsGraph.RouteBodies | lib/gtfsgraph.rb:159 | one make_change_route body per route, in order |
| GtfsGraphs.GtfsGraph.CreateChangePayloads | lib/gtfsgraph.rb:195-213 | exactly TypedPayloads is appended to the changeset |
| GtfsGraphs.GtfsGraph.TripSsps | lib/gtfsgraph.rb:172-175 | one schedule stop pair body per edge, in order |
| GtfsGraphs.GtfsGraph.ChunkSsps | lib/gtfsgraph.rb:167-180 | the chunk loop computes ChunkBodies, failing at the first trip without stop times |
| GtfsGraphs.GtfsGraph.AddSspSlices | lib/gtfsgraph.rb:182-186 | each slice of 1000 becomes one payload; together they are TypedPayloads of the chunk |
| GtfsGraphs.GtfsGraph.AddSspPayloads | lib/gtfsgraph.rb:161-188 | on success exactly SspPayloads is appended; on failure the TypeError is returned |
| GtfsGraphs.GtfsGraph.AddImportPayloads | lib/gtfsgraph.rb:151-188 | the level-gated payloads of ChangesetPayloads are appended, or its error returned |
| GtfsGraphs.GtfsGraph.CreateChangeset | lib/gtfsgraph.rb:143-193 | no operators, or a level outside 0..2, raises ArgumentError before anything is created; otherwise the new changeset gets the gated payloads, and the changeset and tables end as ApplySpec says; the method reports only whether apply! raised, and what (Reported) |
| GtfsGraphs.Reported | lib/gtfsgraph.rb:190-192 | create_changeset succeeds iff apply! did, with apply!'s error when it raised; apply!'s own value is not passed on |
| GtfsGraphs.GtfsGraph.ImportAndApply | lib/gtfsgraph.rb:150-192 | payloads are added, then the changeset is applied and its tables end as ApplySpec says, the result reported as Reported; a TypeError stops it before the apply, with the tables unchanged |

## Left out

- After-commit work of `apply!` and `after_create` (changeset.rb:209-224, 253-259): mail, OSM conflation and feed fetching are background jobs, which the model does not enqueue. For a plain `apply!` they run after the transaction commits. Inside `trial_succeeds?` (changeset.rb:116-124) they run within the trial's transaction, so a dry run enqueues them for a changeset that is then rolled back; the model does not capture that either.
- `ChangePayload#apply!`, the geometry quality check and its deprecation decisions: the `Engine` parameter. Its output is taken as given; the check reports found issues and the attribute changes whose issues it deprecates.
- Versioned upsert of entities (current/old tables): a payload's effect is the `Engine`'s new entity rows.
- Geometry, convex hulls and route shapes (gtfsgraph.rb:71-80, 87, 124): no floating point or spatial model.
- `Date.parse` in the setters and `service_on_date?`: dates are already day numbers.
- The SQL scopes of schedule stop pairs (schedule_stop_pair.rb:81-110) and the `*_onestop_id=` setters: database queries.
- `ScheduleStopPair.interpolate` (gtfsgraph.rb:177): it lives in another file.
- The GTFS reader, `Stop.find_by_similarity`, the `from_gtfs` constructors and `find_by(onestop_id:)`: the `GtfsSource` value and the `Lookups` parameter.
- `make_ssp` and `make_change_ssp` (gtfsgraph.rb:274-341): they need the reader's service periods, so together they are the `body` parameter from an edge to a change body.
- `trip_chunks(STOP_TIMES_MAX_LOAD)` (gtfsgraph.rb:164): the trip chunks are an input. The chunk size of 100000 trips is the reader's concern.
- Logging and `import_log` (gtfsgraph.rb:215-232), and the script entry point (gtfsgraph.rb:344-353).
- `ChangePayload.create!` failing, and the `Changeset::Error` it is wrapped in (changeset.rb:138-147): a payload is always created.
- The in-memory `applied` attribute after a failed `apply!`: Rails does not reset it. The model's changeset state is the stored row, which the transaction rolls back.
- `String#camelize` acronym rules: only the leading capital is lowered.
- The single `@tl_by_onestop_id` hash is three hashes, one per kind. Onestop ID prefixes (`s-`, `r-`, `o-`) keep the kinds apart.
- `Route#stops` used by `make_change_route` (gtfsgraph.rb:268) is modelled as the route's `serves`.
- `add_identifier` is modelled as appending to `identified_by`. `make_change_*` removes repeats with `uniq`.
- GtfsGraphs.GtfsGraph.RouteStops: a GTFS stop with no Transitland stop is dropped. Ruby would put nil into the set (gtfsgraph.rb:67), which never happens after `load_tl_stops` maps every stop.
- GtfsGraphs.GtfsGraph.AddSspPayloads: on a TypeError it does not state which payloads were already added, only that the changeset is otherwise unchanged.
- GtfsGraphs.GtfsGraph.CreateChangeset: on a TypeError it does not state which payloads the unapplied changeset holds.
- GtfsGraphs.GtfsGraph.LoadTlOperators: states which agencies map to found operators and when none is found, not the final heaps. Each step's full effect is stated by LoadTlOperator.
- GtfsGraphs.GtfsGraph.LoadTlRoutes: states which GTFS routes are mapped, not the final route objects. Each step's full effect is stated by LoadTlRoute.
- GtfsGraphs.GtfsGraph.LoadTlStops: states the stop mapping, not the final stop objects. Each step's full effect is stated by LoadTlStation.
- Issues.IssuesOfEntity: its own contract bounds only the length. Its contents are stated by IssuesOfEntityByAttribute and IssuesOfEntityAll.
- `Issue.from_feed` (issue_spec.rb:35-74): it needs the feed/changeset joins, and `issue.rb` is not part of this model.
- `CHANGE_PAYLOAD_MAX_ENTITIES` from the environment (changeset.rb:38): modelled as `ChangePayloadMaxEntities`, with the slice size passed to `CreateChangePayloads`.
