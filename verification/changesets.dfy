/**
 * Changesets: batches of change payloads applied all-or-nothing.
 *
 * Applying a changeset runs its payloads in order, marks it applied, records
 * which feed version the touched entities were imported from, runs the quality
 * check, and then either commits (closing the issues the payloads claimed to
 * resolve and saving the issues the check found) or, when the check still
 * finds an issue equivalent to one claimed as resolved, rolls everything back.
 *
 * The payload engine and the quality check are outside this model; they are
 * parameters (an Engine).
 */
module Changesets {
  import opened Wrappers
  import opened Seqs
  import opened Issues
  import opened Payloads

  /** Changeset::Error, and the ArgumentError and TypeError Ruby raises itself. */
  datatype Error = ChangesetError(message: string) | ArgumentError(message: string) | TypeError(message: string)

  /** Provenance rows are bulk-inserted in batches of this many. */
  const IMPORT_BATCH_SIZE: nat := 1000

  /**
   * CHANGE_PAYLOAD_MAX_ENTITIES: the configured value converted with to_i,
   * or 1000 when the setting is absent.
   */
  function ChangePayloadMaxEntities(configured: Option<int>): int {
    configured.GetOr(1000)
  }

  // ---------------------------------------------------------------------------
  // Entities and provenance

  /** A current entity row, with the changeset that last created or updated it. */
  datatype EntityRow = EntityRow(entity: EntityRef, onestopId: string, changesetId: nat)

  /** One entities_imported_from_feed row. */
  datatype FeedImportRow = FeedImportRow(entity: EntityRef, feedId: nat, feedVersionId: nat)

  /** The kinds entities_created_or_updated walks, in the order it walks them. */
  const ProvenanceKinds: seq<EntityKind> := [Feed, OperatorInFeed, Stop, Operator, Route, RouteStopPattern]

  function CreatedOrUpdatedOfKinds(rows: seq<EntityRow>, changesetId: nat, kinds: seq<EntityKind>): (r: seq<EntityRow>)
    ensures forall x :: x in r <==> x in rows && x.changesetId == changesetId && x.entity.kind in kinds
  {
    if kinds == [] then []
    else
      Filter(rows, (x: EntityRow) => x.entity.kind == kinds[0] && x.changesetId == changesetId)
      + CreatedOrUpdatedOfKinds(rows, changesetId, kinds[1..])
  }

  /** entities_created_or_updated: feeds, operators in feed, stops, operators, routes, route stop patterns. */
  function EntitiesCreatedOrUpdated(rows: seq<EntityRow>, changesetId: nat): seq<EntityRow> {
    CreatedOrUpdatedOfKinds(rows, changesetId, ProvenanceKinds)
  }

  function ImportRows(rows: seq<EntityRow>, feedId: nat, feedVersionId: nat): seq<FeedImportRow> {
    seq(|rows|, k requires 0 <= k < |rows| => FeedImportRow(rows[k].entity, feedId, feedVersionId))
  }

  /**
   * The bulk inserts of the provenance loop: a batch is flushed as soon as it
   * holds n rows, and whatever is left, possibly nothing, is flushed at the end.
   */
  function ImportBatches(rows: seq<FeedImportRow>, n: nat): (r: seq<seq<FeedImportRow>>)
    requires n > 0
    ensures Flatten(r) == rows
    ensures forall k :: 0 <= k < |r| ==> |r[k]| <= n
    ensures forall k :: 0 <= k < |r| - 1 ==> |r[k]| == n
    ensures |r| == |rows| / n + 1
    decreases |rows|
  {
    if |rows| < n then
      assert Flatten([rows]) == rows + Flatten([rows][1..]);
      [rows]
    else
      var rest := ImportBatches(rows[n..], n);
      assert ([rows[..n]] + rest)[1..] == rest;
      assert rows[..n] + rows[n..] == rows;
      DivShift(|rows| - n, n);
      [rows[..n]] + rest
  }

  lemma BatchStep(batch: seq<FeedImportRow>, row: FeedImportRow, rest: seq<FeedImportRow>, n: nat)
    requires n > 0 && |batch| + 1 == n
    ensures ImportBatches(batch + [row] + rest, n) == [batch + [row]] + ImportBatches(rest, n)
  {
    var s := batch + [row] + rest;
    assert s[..n] == batch + [row];
    assert s[n..] == rest;
  }

  /** The provenance rows a changeset records when it is applied. */
  function Provenance(cs: ChangesetState, entities: seq<EntityRow>): seq<seq<FeedImportRow>> {
    if cs.feed.Some? && cs.feedVersion.Some? then
      ImportBatches(ImportRows(EntitiesCreatedOrUpdated(entities, cs.id), cs.feed.value, cs.feedVersion.value),
                    IMPORT_BATCH_SIZE)
    else []
  }

  /**
   * A changeset imported from a feed version records one row per entity of a
   * provenance kind it created or updated, in batches of at most 1000; one
   * without both a feed and a feed version records nothing.
   */
  lemma ProvenanceRows(cs: ChangesetState, entities: seq<EntityRow>, x: FeedImportRow)
    ensures cs.feed.None? || cs.feedVersion.None? ==> Provenance(cs, entities) == []
    ensures forall k :: 0 <= k < |Provenance(cs, entities)| ==> |Provenance(cs, entities)[k]| <= IMPORT_BATCH_SIZE
    ensures x in Flatten(Provenance(cs, entities)) <==>
              cs.feed.Some? && cs.feedVersion.Some?
              && x.feedId == cs.feed.value && x.feedVersionId == cs.feedVersion.value
              && exists e :: e in entities && e.changesetId == cs.id && e.entity.kind in ProvenanceKinds
                             && e.entity == x.entity
  {
    if cs.feed.Some? && cs.feedVersion.Some? {
      var touched := EntitiesCreatedOrUpdated(entities, cs.id);
      var rows := ImportRows(touched, cs.feed.value, cs.feedVersion.value);
      if x in rows {
        var k :| 0 <= k < |rows| && rows[k] == x;
        assert touched[k] in touched;
      }
      if x.feedId == cs.feed.value && x.feedVersionId == cs.feedVersion.value
         && exists e :: e in entities && e.changesetId == cs.id && e.entity.kind in ProvenanceKinds && e.entity == x.entity {
        var e :| e in entities && e.changesetId == cs.id && e.entity.kind in ProvenanceKinds && e.entity == x.entity;
        var k :| 0 <= k < |touched| && touched[k] == e;
        assert rows[k] == x;
      }
    }
  }

  /** Schedule stop pairs are never given provenance rows. */
  lemma NoProvenanceForScheduleStopPairs(cs: ChangesetState, entities: seq<EntityRow>, x: FeedImportRow)
    requires x.entity.kind == ScheduleStopPair
    ensures x !in Flatten(Provenance(cs, entities))
  {
    ProvenanceRows(cs, entities, x);
  }

  class Datastore {
    var entities: seq<EntityRow>
    /** The bulk inserts into entities_imported_from_feed, one element per insert. */
    var feedImports: seq<seq<FeedImportRow>>

    constructor (entities: seq<EntityRow>)
      ensures this.entities == entities && feedImports == []
    {
      this.entities := entities;
      feedImports := [];
    }

    /** The provenance loop of apply!: buffer rows, flush every 1000, flush the rest. */
    method ImportFromFeed(touched: seq<EntityRow>, feedId: nat, feedVersionId: nat)
      modifies this
      ensures entities == old(entities)
      ensures feedImports == old(feedImports) + ImportBatches(ImportRows(touched, feedId, feedVersionId), IMPORT_BATCH_SIZE)
    {
      var batch: seq<FeedImportRow> := [];
      var i := 0;
      assert touched[i..] == touched;
      assert batch + ImportRows(touched, feedId, feedVersionId) == ImportRows(touched, feedId, feedVersionId);
      while i < |touched|
        invariant 0 <= i <= |touched|
        invariant |batch| < IMPORT_BATCH_SIZE
        invariant entities == old(entities)
        invariant feedImports + ImportBatches(batch + ImportRows(touched[i..], feedId, feedVersionId), IMPORT_BATCH_SIZE)
                  == old(feedImports) + ImportBatches(ImportRows(touched, feedId, feedVersionId), IMPORT_BATCH_SIZE)
      {
        var row := FeedImportRow(touched[i].entity, feedId, feedVersionId);
        ghost var rest := ImportRows(touched[i + 1..], feedId, feedVersionId);
        assert ImportRows(touched[i..], feedId, feedVersionId) == [row] + rest;
        AppendAssoc(batch, [row], rest);
        batch := AddRow(batch, row, rest);
        i := i + 1;
      }
      assert ImportRows(touched[i..], feedId, feedVersionId) == [];
      assert batch + [] == batch;
      feedImports := feedImports + [batch];
    }

    /** One row of the provenance loop: it joins the batch, which is flushed once it holds 1000 rows. */
    method AddRow(batch: seq<FeedImportRow>, row: FeedImportRow, ghost rest: seq<FeedImportRow>) returns (next: seq<FeedImportRow>)
      requires |batch| < IMPORT_BATCH_SIZE
      modifies this
      ensures |next| < IMPORT_BATCH_SIZE && entities == old(entities)
      ensures feedImports + ImportBatches(next + rest, IMPORT_BATCH_SIZE)
              == old(feedImports) + ImportBatches((batch + [row]) + rest, IMPORT_BATCH_SIZE)
    {
      if |batch| + 1 >= IMPORT_BATCH_SIZE {
        BatchStep(batch, row, rest, IMPORT_BATCH_SIZE);
        AppendAssoc(feedImports, [batch + [row]], ImportBatches(rest, IMPORT_BATCH_SIZE));
        feedImports := feedImports + [batch + [row]];
        next := [];
        assert next + rest == rest;
      } else {
        next := batch + [row];
      }
    }
  }

  // ---------------------------------------------------------------------------
  // Collaborators

  /** An attribute change that deprecates the issues tracking it. */
  datatype AttrChange = AttrChange(entity: EntityRef, attributes: seq<string>)

  /** What a change payload's apply! did: the new entity rows and the issues it claims to resolve. */
  datatype PayloadResult = PayloadResult(entities: seq<EntityRow>, resolved: seq<Issue>)

  /** What the quality check found, and the attribute changes whose issues it deprecates. */
  datatype CheckResult = CheckResult(found: seq<Issue>, deprecations: seq<AttrChange>)

  datatype Engine = Engine(
    applyPayload: (seq<EntityRow>, seq<Issue>, ChangePayload, nat) -> Result<PayloadResult, string>,
    check: (seq<EntityRow>, seq<Issue>, nat) -> CheckResult)

  /** The change payloads, applied in order; the first failure aborts. */
  function ApplyPayloads(eng: Engine, entities: seq<EntityRow>, issues: seq<Issue>,
                         payloads: seq<ChangePayload>, changesetId: nat): Result<PayloadResult, string>
    decreases payloads
  {
    if payloads == [] then Success(PayloadResult(entities, []))
    else match eng.applyPayload(entities, issues, payloads[0], changesetId)
      case Failure(e) => Failure(e)
      case Success(step) => Prefixed(step.resolved, ApplyPayloads(eng, step.entities, issues, payloads[1..], changesetId))
  }

  function Prefixed(resolved: seq<Issue>, r: Result<PayloadResult, string>): Result<PayloadResult, string> {
    match r
    case Failure(e) => Failure(e)
    case Success(p) => Success(PayloadResult(p.entities, resolved + p.resolved))
  }

  /**
   * Applying a + b is applying a and then b from where a left off, the claimed
   * issues of a coming first.
   */
  lemma {:induction false} ApplyPayloadsSplit(eng: Engine, entities: seq<EntityRow>, issues: seq<Issue>,
                                              a: seq<ChangePayload>, b: seq<ChangePayload>, changesetId: nat)
    ensures ApplyPayloads(eng, entities, issues, a + b, changesetId) ==
            match ApplyPayloads(eng, entities, issues, a, changesetId)
            case Failure(e) => Failure(e)
            case Success(p) => Prefixed(p.resolved, ApplyPayloads(eng, p.entities, issues, b, changesetId))
    decreases a
  {
    if a == [] {
      assert a + b == b;
      match ApplyPayloads(eng, entities, issues, b, changesetId)
      case Failure(_) =>
      case Success(p) => assert [] + p.resolved == p.resolved;
    } else {
      assert (a + b)[0] == a[0];
      assert (a + b)[1..] == a[1..] + b;
      match eng.applyPayload(entities, issues, a[0], changesetId)
      case Failure(_) =>
      case Success(step) =>
        ApplyPayloadsSplit(eng, step.entities, issues, a[1..], b, changesetId);
        match ApplyPayloads(eng, step.entities, issues, a[1..], changesetId)
        case Failure(_) =>
        case Success(q) =>
          match ApplyPayloads(eng, q.entities, issues, b, changesetId)
          case Failure(_) =>
          case Success(x) =>
            assert step.resolved + (q.resolved + x.resolved) == (step.resolved + q.resolved) + x.resolved;
    }
  }

  // ---------------------------------------------------------------------------
  // Reconciliation of claimed and found issues

  /**
   * issues_unresolved: for each found issue in turn, the claimed issues
   * equivalent to it.
   */
  function IssuesUnresolved(resolving: seq<Issue>, found: seq<Issue>): (r: seq<Issue>)
    ensures forall x :: x in r <==> x in resolving && exists c :: c in found && Equivalent(c, x)
  {
    if found == [] then []
    else Filter(resolving, (x: Issue) => Equivalent(found[0], x)) + IssuesUnresolved(resolving, found[1..])
  }

  predicate NoneReproduced(resolving: seq<Issue>, found: seq<Issue>) {
    forall r, c :: r in resolving && c in found ==> !Equivalent(c, r)
  }

  /** Nothing is unresolved exactly when the check reproduces none of the claimed issues. */
  lemma IssuesUnresolvedEmpty(resolving: seq<Issue>, found: seq<Issue>)
    ensures IssuesUnresolved(resolving, found) == [] <==> NoneReproduced(resolving, found)
  {
    var u := IssuesUnresolved(resolving, found);
    if u != [] {
      assert u[0] in u;
    }
  }

  function NotResolvedSentence(issue: Issue): string {
    "Issue " + NatToString(issue.id) + " was not resolved."
  }

  /** The message of the error raised for unresolved issues: one sentence per issue. */
  function NotResolvedMessage(unresolved: seq<Issue>): string {
    Join(seq(|unresolved|, k requires 0 <= k < |unresolved| => NotResolvedSentence(unresolved[k])), " ")
  }

  lemma NotResolvedMessageNamesEach(unresolved: seq<Issue>, k: nat)
    requires k < |unresolved|
    ensures IsInfix(NotResolvedSentence(unresolved[k]), NotResolvedMessage(unresolved))
  {
    var sentences := seq(|unresolved|, j requires 0 <= j < |unresolved| => NotResolvedSentence(unresolved[j]));
    JoinHasEachPart(sentences, " ", k);
  }

  /** Distinct ids give distinct sentences. */
  lemma NotResolvedSentenceInjective(a: Issue, b: Issue)
    ensures NotResolvedSentence(a) == NotResolvedSentence(b) ==> a.id == b.id
  {
    var sa, sb := NatToString(a.id), NatToString(b.id);
    if NotResolvedSentence(a) == NotResolvedSentence(b) {
      var x, y := NotResolvedSentence(a), NotResolvedSentence(b);
      assert |sa| == |sb|;
      assert sa == x[6..6 + |sa|];
      assert sb == y[6..6 + |sb|];
      NatToStringInjective(a.id, b.id);
    }
  }

  // ---------------------------------------------------------------------------
  // The issue table after an apply

  /** Some of the attribute changes deprecates the issue. */
  predicate DeprecatedByAny(i: Issue, changes: seq<AttrChange>) {
    exists c :: c in changes && DeprecatedBy(i, c.entity, c.attributes)
  }

  /** The stored issues the attribute changes deprecate. */
  function Deprecated(rows: seq<Issue>, changes: seq<AttrChange>): seq<Issue> {
    Filter(rows, (i: Issue) => DeprecatedByAny(i, changes))
  }

  /** Deprecation for each attribute change in turn. */
  function DeprecateAll(rows: seq<Issue>, changes: seq<AttrChange>): (r: seq<Issue>)
    ensures forall x :: x in r <==> x in rows && !DeprecatedByAny(x, changes)
    ensures forall x :: x in rows && AttachedToFeedVersion(x) ==> x in r
    decreases changes
  {
    if changes == [] then rows
    else
      var r := DeprecateAll(AfterDeprecation(rows, changes[0].entity, changes[0].attributes), changes[1..]);
      assert forall c :: c in changes <==> c == changes[0] || c in changes[1..];
      r
  }

  /**
   * Deprecating change after change removes exactly the issues some change
   * deprecates, keeping the others in order.
   */
  lemma {:induction false} DeprecateAllIsFilter(rows: seq<Issue>, changes: seq<AttrChange>)
    ensures DeprecateAll(rows, changes) == Filter(rows, (i: Issue) => !DeprecatedByAny(i, changes))
    ensures |DeprecateAll(rows, changes)| + |Deprecated(rows, changes)| == |rows|
    decreases changes
  {
    if changes == [] {
      FilterKeepsAll(rows, (i: Issue) => !DeprecatedByAny(i, changes));
    } else {
      DeprecateAllIsFilter(AfterDeprecation(rows, changes[0].entity, changes[0].attributes), changes[1..]);
      assert forall c :: c in changes <==> c == changes[0] || c in changes[1..];
      FilterFilter(rows, (i: Issue) => !DeprecatedBy(i, changes[0].entity, changes[0].attributes),
                   (i: Issue) => !DeprecatedByAny(i, changes[1..]), (i: Issue) => !DeprecatedByAny(i, changes));
    }
    FilterPartition(rows, (i: Issue) => DeprecatedByAny(i, changes), (i: Issue) => !DeprecatedByAny(i, changes));
  }

  ghost function IdsOf(issues: seq<Issue>): set<nat> {
    set x | x in issues :: x.id
  }

  /** A stored issue after the claimed issues are resolved: closed by the changeset exactly when claimed. */
  ghost function ClosedBy(x: Issue, resolving: seq<Issue>, changesetId: nat): Issue {
    if x.id in IdsOf(resolving) then Resolved(x, changesetId) else x
  }

  /** Resolution does not change which attribute changes deprecate an issue. */
  lemma {:induction false} ClosedKeepsDeprecation(x: Issue, resolving: seq<Issue>, changesetId: nat, changes: seq<AttrChange>)
    ensures DeprecatedByAny(ClosedBy(x, resolving, changesetId), changes) == DeprecatedByAny(x, changes)
  {
    var y := ClosedBy(x, resolving, changesetId);
    assert y.entities == x.entities;
    forall c | c in changes
      ensures DeprecatedBy(y, c.entity, c.attributes) == DeprecatedBy(x, c.entity, c.attributes)
    {
      assert Tracks(y, c.entity, c.attributes) == Tracks(x, c.entity, c.attributes);
      assert AttachedToFeedVersion(y) == AttachedToFeedVersion(x);
    }
  }

  /** Resolution of each claimed issue in turn. */
  function ResolveAll(rows: seq<Issue>, resolving: seq<Issue>, changesetId: nat): (r: seq<Issue>)
    ensures |r| == |rows|
    ensures forall k :: 0 <= k < |r| ==> r[k] == ClosedBy(rows[k], resolving, changesetId)
    decreases resolving
  {
    if resolving == [] then rows
    else
      var rest := ResolveAll(ResolvedIn(rows, resolving[0].id, changesetId), resolving[1..], changesetId);
      assert forall x :: x in resolving <==> x == resolving[0] || x in resolving[1..];
      rest
  }

  /** The found issues as save! stores them: consecutive new ids from nextId on. */
  function Numbered(found: seq<Issue>, nextId: nat): seq<Issue> {
    seq(|found|, k requires 0 <= k < |found| => found[k].(id := nextId + k))
  }

  ghost predicate TableValid(rows: seq<Issue>, nextId: nat) {
    IdsAscending(rows) && forall k :: 0 <= k < |rows| ==> rows[k].id < nextId
  }

  // ---------------------------------------------------------------------------
  // Applying a changeset

  datatype ChangesetState = ChangesetState(
    id: nat,
    applied: bool,
    appliedAt: Option<int>,
    payloads: seq<ChangePayload>,
    feed: Option<nat>,
    feedVersion: Option<nat>)

  /** The persistent state an apply reads and writes. */
  datatype World = World(
    entities: seq<EntityRow>,
    issues: seq<Issue>,
    nextIssueId: nat,
    feedImports: seq<seq<FeedImportRow>>)

  const AlreadyApplied := "has already been applied."

  datatype Outcome = Outcome(result: Result<(bool, seq<Issue>), Error>, changeset: ChangesetState, world: World)

  /** apply!, as a function of the changeset, the stored state, the engine and the clock. */
  function ApplySpec(cs: ChangesetState, w: World, eng: Engine, now: int): Outcome {
    if cs.applied then Outcome(Failure(ChangesetError(AlreadyApplied)), cs, w)
    else match ApplyPayloads(eng, w.entities, w.issues, cs.payloads, cs.id)
      case Failure(msg) => Outcome(Failure(ChangesetError(msg)), cs, w)
      case Success(pr) => Settle(cs, w, eng, now, pr)
  }

  /**
   * The rest of apply! once every payload has applied: provenance, the
   * quality check, and commit or rollback. The commit closes the claimed
   * issues first; the deprecations take effect as the found issues are saved,
   * so a claimed issue whose attribute changed is resolved and then removed.
   */
  function Settle(cs: ChangesetState, w: World, eng: Engine, now: int, pr: PayloadResult): Outcome {
    var checked := eng.check(pr.entities, w.issues, cs.id);
    var unresolved := IssuesUnresolved(pr.resolved, checked.found);
    if unresolved != [] then
      Outcome(Failure(ChangesetError(NotResolvedMessage(unresolved))), cs, w)
    else
      var kept := DeprecateAll(ResolveAll(w.issues, pr.resolved, cs.id), checked.deprecations);
      var saved := Numbered(checked.found, w.nextIssueId);
      Outcome(Success((true, saved)),
              cs.(applied := true, appliedAt := Some(now)),
              World(pr.entities,
                    kept + saved,
                    w.nextIssueId + |checked.found|,
                    w.feedImports + Provenance(cs, pr.entities)))
  }

  /** A failed apply leaves the changeset and every table as they were. */
  lemma FailedApplyChangesNothing(cs: ChangesetState, w: World, eng: Engine, now: int)
    ensures var o := ApplySpec(cs, w, eng, now);
            o.result.Failure? ==> o.changeset == cs && o.world == w
  {
  }

  /** A changeset is applied at most once: applying it again is rejected and changes nothing. */
  lemma ApplyIsOnceOnly(cs: ChangesetState, w: World, eng: Engine, now: int, later: int)
    requires ApplySpec(cs, w, eng, now).result.Success?
    ensures var o := ApplySpec(cs, w, eng, now);
            ApplySpec(o.changeset, o.world, eng, later)
              == Outcome(Failure(ChangesetError(AlreadyApplied)), o.changeset, o.world)
  {
  }

  /**
   * An apply succeeds exactly when the changeset was not applied yet, every
   * payload applies, and the check reproduces none of the claimed issues.
   */
  lemma ApplySucceedsIff(cs: ChangesetState, w: World, eng: Engine, now: int)
    ensures ApplySpec(cs, w, eng, now).result.Success? <==>
              !cs.applied
              && ApplyPayloads(eng, w.entities, w.issues, cs.payloads, cs.id).Success?
              && var pr := ApplyPayloads(eng, w.entities, w.issues, cs.payloads, cs.id).value;
                 NoneReproduced(pr.resolved, eng.check(pr.entities, w.issues, cs.id).found)
  {
    if !cs.applied && ApplyPayloads(eng, w.entities, w.issues, cs.payloads, cs.id).Success? {
      var pr := ApplyPayloads(eng, w.entities, w.issues, cs.payloads, cs.id).value;
      IssuesUnresolvedEmpty(pr.resolved, eng.check(pr.entities, w.issues, cs.id).found);
    }
  }

  /**
   * The issue table a commit leaves: every stored issue no change deprecates,
   * closed by the changeset when it was claimed, and after them the saved
   * issues; nothing else.
   */
  lemma {:induction false} CommittedIssues(rows: seq<Issue>, resolving: seq<Issue>, changesetId: nat, changes: seq<AttrChange>,
                        saved: seq<Issue>)
    ensures var all := DeprecateAll(ResolveAll(rows, resolving, changesetId), changes) + saved;
            && |all| == |rows| - |Deprecated(rows, changes)| + |saved|
            && all[|all| - |saved|..] == saved
            && (forall k :: 0 <= k < |rows| && !DeprecatedByAny(rows[k], changes) ==>
                  ClosedBy(rows[k], resolving, changesetId) in all)
            && (forall y :: y in all ==>
                  (y in saved || exists k :: 0 <= k < |rows| && !DeprecatedByAny(rows[k], changes)
                                             && y == ClosedBy(rows[k], resolving, changesetId)))
  {
    var closed := ResolveAll(rows, resolving, changesetId);
    var kept := DeprecateAll(closed, changes);
    var all := kept + saved;
    CommittedCount(rows, resolving, changesetId, changes, saved);
    forall k | 0 <= k < |rows| && !DeprecatedByAny(rows[k], changes)
      ensures ClosedBy(rows[k], resolving, changesetId) in all
    {
      assert closed[k] in closed;
    }
    forall y | y in all && y !in saved
      ensures exists k :: 0 <= k < |rows| && !DeprecatedByAny(rows[k], changes)
                          && y == ClosedBy(rows[k], resolving, changesetId)
    {
      assert y in kept;
      var k :| 0 <= k < |closed| && closed[k] == y;
    }
  }

  /** A commit's table: the deprecated issues leave, the saved ones come last. */
  lemma {:induction false} CommittedCount(rows: seq<Issue>, resolving: seq<Issue>, changesetId: nat, changes: seq<AttrChange>,
                       saved: seq<Issue>)
    ensures var all := DeprecateAll(ResolveAll(rows, resolving, changesetId), changes) + saved;
            |all| == |rows| - |Deprecated(rows, changes)| + |saved| && all[|all| - |saved|..] == saved
  {
    var closed := ResolveAll(rows, resolving, changesetId);
    var all := DeprecateAll(closed, changes) + saved;
    forall k | 0 <= k < |rows|
      ensures DeprecatedByAny(closed[k], changes) == DeprecatedByAny(rows[k], changes)
    {
      ClosedKeepsDeprecation(rows[k], resolving, changesetId, changes);
    }
    DeprecateAllIsFilter(closed, changes);
    FilterSameCount(closed, rows, (i: Issue) => DeprecatedByAny(i, changes), (i: Issue) => DeprecatedByAny(i, changes));
    assert all[|all| - |saved|..] == saved;
  }

  /** When nothing claimed is reproduced, apply! commits the table CommittedIssues describes. */
  lemma {:induction false} CommitOutcome(cs: ChangesetState, w: World, eng: Engine, now: int, pr: PayloadResult)
    requires !cs.applied
    requires ApplyPayloads(eng, w.entities, w.issues, cs.payloads, cs.id) == Success(pr)
    requires NoneReproduced(pr.resolved, eng.check(pr.entities, w.issues, cs.id).found)
    ensures var checked := eng.check(pr.entities, w.issues, cs.id);
            var saved := Numbered(checked.found, w.nextIssueId);
            ApplySpec(cs, w, eng, now)
              == Outcome(Success((true, saved)), cs.(applied := true, appliedAt := Some(now)),
                         World(pr.entities,
                               DeprecateAll(ResolveAll(w.issues, pr.resolved, cs.id), checked.deprecations) + saved,
                               w.nextIssueId + |checked.found|,
                               w.feedImports + Provenance(cs, pr.entities)))
  {
    IssuesUnresolvedEmpty(pr.resolved, eng.check(pr.entities, w.issues, cs.id).found);
    assert ApplySpec(cs, w, eng, now) == Settle(cs, w, eng, now, pr);
  }

  /**
   * What a successful apply commits: the changeset is applied at the given
   * time; the payloads' entities; the deprecated issues gone, every other
   * stored issue kept, closed by this changeset when claimed; the found
   * issues saved under fresh consecutive ids and returned.
   */
  lemma {:induction false} SuccessfulApply(cs: ChangesetState, w: World, eng: Engine, now: int, pr: PayloadResult)
    requires !cs.applied
    requires ApplyPayloads(eng, w.entities, w.issues, cs.payloads, cs.id) == Success(pr)
    requires NoneReproduced(pr.resolved, eng.check(pr.entities, w.issues, cs.id).found)
    ensures var o := ApplySpec(cs, w, eng, now);
            var checked := eng.check(pr.entities, w.issues, cs.id);
            var saved := Numbered(checked.found, w.nextIssueId);
            && o.result == Success((true, saved))
            && o.changeset == cs.(applied := true, appliedAt := Some(now))
            && o.world.entities == pr.entities
            && |o.world.issues| == |w.issues| - |Deprecated(w.issues, checked.deprecations)| + |checked.found|
            && (forall k :: 0 <= k < |w.issues| && !DeprecatedByAny(w.issues[k], checked.deprecations) ==>
                  ClosedBy(w.issues[k], pr.resolved, cs.id) in o.world.issues)
            && (forall y :: y in o.world.issues ==>
                  (y in saved || exists k :: 0 <= k < |w.issues| && !DeprecatedByAny(w.issues[k], checked.deprecations)
                                             && y == ClosedBy(w.issues[k], pr.resolved, cs.id)))
            && o.world.issues[|o.world.issues| - |saved|..] == saved
            && (forall k :: 0 <= k < |checked.found| ==>
                  saved[k].id == w.nextIssueId + k && Equivalent(saved[k], checked.found[k]))
            && o.world.nextIssueId == w.nextIssueId + |checked.found|
  {
    var checked := eng.check(pr.entities, w.issues, cs.id);
    var saved := Numbered(checked.found, w.nextIssueId);
    var all := DeprecateAll(ResolveAll(w.issues, pr.resolved, cs.id), checked.deprecations) + saved;
    CommitOutcome(cs, w, eng, now, pr);
    assert ApplySpec(cs, w, eng, now).world.issues == all;
    CommittedIssues(w.issues, pr.resolved, cs.id, checked.deprecations, saved);
  }

  /**
   * Under unique ids, an issue the changes deprecate leaves no row with its
   * id behind: the other stored issues keep their own ids and the saved ones
   * take newer ids.
   */
  lemma {:induction false} DeprecatedIdGone(rows: seq<Issue>, resolving: seq<Issue>, changesetId: nat, changes: seq<AttrChange>,
                         found: seq<Issue>, nextId: nat, x: Issue)
    requires TableValid(rows, nextId)
    requires x in rows && DeprecatedByAny(x, changes)
    ensures forall y :: y in DeprecateAll(ResolveAll(rows, resolving, changesetId), changes) + Numbered(found, nextId)
                        ==> y.id != x.id
  {
    var closed := ResolveAll(rows, resolving, changesetId);
    var saved := Numbered(found, nextId);
    var m :| 0 <= m < |rows| && rows[m] == x;
    forall y | y in DeprecateAll(closed, changes) + saved
      ensures y.id != x.id
    {
      if y in saved {
        var j :| 0 <= j < |saved| && saved[j] == y;
        assert y.id == nextId + j && x.id < nextId;
      } else {
        assert y in closed && !DeprecatedByAny(y, changes);
        var k :| 0 <= k < |closed| && closed[k] == y;
        ClosedKeepsDeprecation(rows[k], resolving, changesetId, changes);
        assert k != m && y.id == rows[k].id;
        if k < m {
          assert rows[k].id < rows[m].id;
        } else {
          assert rows[m].id < rows[k].id;
        }
      }
    }
  }


  /**
   * Re-importing a feed version replaces its issues: when the changes
   * deprecate as many stored issues as the check finds, the table keeps its
   * size, no deprecated issue's id is left, and the found issues take the
   * next ids with the changeset that created them.
   */
  lemma {:induction false} ReimportReplacesIssues(cs: ChangesetState, w: World, eng: Engine, now: int, pr: PayloadResult)
    requires TableValid(w.issues, w.nextIssueId)
    requires !cs.applied
    requires ApplyPayloads(eng, w.entities, w.issues, cs.payloads, cs.id) == Success(pr)
    requires NoneReproduced(pr.resolved, eng.check(pr.entities, w.issues, cs.id).found)
    requires var checked := eng.check(pr.entities, w.issues, cs.id);
             |Deprecated(w.issues, checked.deprecations)| == |checked.found|
    ensures var o := ApplySpec(cs, w, eng, now);
            var checked := eng.check(pr.entities, w.issues, cs.id);
            && o.result.Success?
            && |o.world.issues| == |w.issues|
            && (forall x, y :: x in w.issues && DeprecatedByAny(x, checked.deprecations) && y in o.world.issues
                               ==> y.id != x.id)
            && (forall j :: 0 <= j < |checked.found| ==>
                  var n := o.world.issues[|w.issues| - |checked.found| + j];
                  n.id == w.nextIssueId + j && n.createdBy == checked.found[j].createdBy)
  {
    var checked := eng.check(pr.entities, w.issues, cs.id);
    CommitOutcome(cs, w, eng, now, pr);
    ReplacedTable(w.issues, pr.resolved, cs.id, checked.deprecations, checked.found, w.nextIssueId);
  }

  /** The table-level half of ReimportReplacesIssues. */
  lemma {:induction false} ReplacedTable(rows: seq<Issue>, resolving: seq<Issue>, changesetId: nat,
                                         changes: seq<AttrChange>, found: seq<Issue>, nextId: nat)
    requires TableValid(rows, nextId)
    requires |Deprecated(rows, changes)| == |found|
    ensures var all := DeprecateAll(ResolveAll(rows, resolving, changesetId), changes) + Numbered(found, nextId);
            && |all| == |rows|
            && (forall x, y :: x in rows && DeprecatedByAny(x, changes) && y in all ==> y.id != x.id)
            && (forall j :: 0 <= j < |found| ==>
                  all[|rows| - |found| + j].id == nextId + j && all[|rows| - |found| + j].createdBy == found[j].createdBy)
  {
    var saved := Numbered(found, nextId);
    var all := DeprecateAll(ResolveAll(rows, resolving, changesetId), changes) + saved;
    CommittedCount(rows, resolving, changesetId, changes, saved);
    forall x | x in rows && DeprecatedByAny(x, changes)
      ensures forall y :: y in all ==> y.id != x.id
    {
      DeprecatedIdGone(rows, resolving, changesetId, changes, found, nextId, x);
    }
    assert |all| == |rows|;
    forall j | 0 <= j < |found|
      ensures all[|rows| - |found| + j] == saved[j]
    {
      assert all[|all| - |saved|..][j] == saved[j];
    }
  }



  /** A successful apply keeps the issue table in id order, below the next id. */
  lemma {:induction false} ApplyKeepsTableValid(cs: ChangesetState, w: World, eng: Engine, now: int)
    requires TableValid(w.issues, w.nextIssueId)
    ensures var o := ApplySpec(cs, w, eng, now);
            TableValid(o.world.issues, o.world.nextIssueId)
  {
    var o := ApplySpec(cs, w, eng, now);
    if o.result.Success? {
      var pr := ApplyPayloads(eng, w.entities, w.issues, cs.payloads, cs.id).value;
      var checked := eng.check(pr.entities, w.issues, cs.id);
      CommitKeepsTableValid(w.issues, pr.resolved, cs.id, checked.deprecations, checked.found, w.nextIssueId);
    }
  }

  /**
   * Closing issues keeps their ids, deprecation only removes rows, and the
   * saved issues take the next ids in order.
   */
  lemma CommitKeepsTableValid(rows: seq<Issue>, resolving: seq<Issue>, changesetId: nat, changes: seq<AttrChange>,
                              found: seq<Issue>, nextId: nat)
    requires TableValid(rows, nextId)
    ensures TableValid(DeprecateAll(ResolveAll(rows, resolving, changesetId), changes) + Numbered(found, nextId),
                       nextId + |found|)
  {
    var closed := ResolveAll(rows, resolving, changesetId);
    assert TableValid(closed, nextId) by {
      assert forall k :: 0 <= k < |closed| ==> closed[k].id == rows[k].id;
    }
    DeprecateAllKeepsValid(closed, changes, nextId);
    var kept := DeprecateAll(closed, changes);
    var saved := Numbered(found, nextId);
    var all := kept + saved;
    forall k | 0 <= k < |all|
      ensures all[k].id == if k < |kept| then kept[k].id else nextId + (k - |kept|)
    {
      if k < |kept| {
        assert all[k] == kept[k];
      } else {
        assert all[k] == saved[k - |kept|];
      }
    }
  }

  lemma {:induction false} DeprecateAllKeepsValid(rows: seq<Issue>, changes: seq<AttrChange>, nextId: nat)
    requires TableValid(rows, nextId)
    ensures TableValid(DeprecateAll(rows, changes), nextId)
    decreases changes
  {
    if changes != [] {
      SubsequenceStaysValid(rows, (i: Issue) => !DeprecatedBy(i, changes[0].entity, changes[0].attributes), nextId);
      DeprecateAllKeepsValid(AfterDeprecation(rows, changes[0].entity, changes[0].attributes), changes[1..], nextId);
    }
  }

  const RevertNotWritten := "cannot revert. This functionality doesn't exist yet."
  const RevertNotApplied := "cannot revert. This changeset has not been applied yet."

  /**
   * revert!: not written yet, so it always raises; the message says whether
   * the changeset had been applied.
   */
  function Revert(cs: ChangesetState): (r: Result<ChangesetState, Error>)
    ensures r.Failure? && r.error.ChangesetError?
    ensures r.error.message == RevertNotWritten <==> cs.applied
  {
    Failure(ChangesetError(if cs.applied then RevertNotWritten else RevertNotApplied))
  }

  /** trial_succeeds?: apply's verdict and issues, or false and none when apply raised. */
  function TrialOutcome(o: Outcome): (bool, seq<Issue>) {
    if o.result.Success? then o.result.value else (false, [])
  }

  /**
   * A trial succeeds exactly when the apply would; on success it reports
   * exactly the issues the commit appends to the table, which advance the
   * next id by their number, and on failure it reports none.
   */
  lemma {:induction false} TrialMatchesApply(cs: ChangesetState, w: World, eng: Engine, now: int)
    ensures var o := ApplySpec(cs, w, eng, now);
            TrialOutcome(o).0 <==> o.result.Success?
    ensures var o := ApplySpec(cs, w, eng, now);
            var t := TrialOutcome(o);
            o.result.Success? ==>
              |t.1| <= |o.world.issues| && o.world.issues[|o.world.issues| - |t.1|..] == t.1
              && o.world.nextIssueId == w.nextIssueId + |t.1|
    ensures var o := ApplySpec(cs, w, eng, now);
            o.result.Failure? ==> TrialOutcome(o) == (false, []) && o.world == w
  {
    var o := ApplySpec(cs, w, eng, now);
    if o.result.Success? {
      var pr := ApplyPayloads(eng, w.entities, w.issues, cs.payloads, cs.id).value;
      var checked := eng.check(pr.entities, w.issues, cs.id);
      var kept := DeprecateAll(ResolveAll(w.issues, pr.resolved, cs.id), checked.deprecations);
      var saved := Numbered(checked.found, w.nextIssueId);
      assert (kept + saved)[|kept + saved| - |saved|..] == saved;
    }
  }

  /**
   * The scenario of issue 8, first half: a changeset claiming to resolve it
   * commits when the check no longer finds an equivalent issue. Issue 8 is
   * then closed by this changeset, unless the changed attributes deprecate
   * it, in which case it is resolved and then removed, leaving no row with
   * id 8.
   */
  lemma {:induction false} ResolvingIssueEightCommits(cs: ChangesetState, w: World, eng: Engine, now: int, issue8: Issue, pr: PayloadResult)
    requires issue8.id == 8 && issue8 in w.issues && TableValid(w.issues, w.nextIssueId)
    requires !cs.applied
    requires ApplyPayloads(eng, w.entities, w.issues, cs.payloads, cs.id) == Success(pr)
    requires pr.resolved == [issue8]
    requires forall c :: c in eng.check(pr.entities, w.issues, cs.id).found ==> !Equivalent(c, issue8)
    ensures ApplySpec(cs, w, eng, now).result.Success?
    ensures var changes := eng.check(pr.entities, w.issues, cs.id).deprecations;
            !DeprecatedByAny(issue8, changes) ==>
              issue8.(open := false, resolvedBy := Some(cs.id)) in ApplySpec(cs, w, eng, now).world.issues
    ensures var changes := eng.check(pr.entities, w.issues, cs.id).deprecations;
            DeprecatedByAny(issue8, changes) ==> forall x :: x in ApplySpec(cs, w, eng, now).world.issues ==> x.id != 8
  {
    var checked := eng.check(pr.entities, w.issues, cs.id);
    IssuesUnresolvedEmpty(pr.resolved, checked.found);
    CommitOutcome(cs, w, eng, now, pr);
    assert IdsOf(pr.resolved) == {8};
    CommittedIssues(w.issues, pr.resolved, cs.id, checked.deprecations, Numbered(checked.found, w.nextIssueId));
    var m :| 0 <= m < |w.issues| && w.issues[m] == issue8;
    assert ClosedBy(w.issues[m], pr.resolved, cs.id) == issue8.(open := false, resolvedBy := Some(cs.id));
    if DeprecatedByAny(issue8, checked.deprecations) {
      DeprecatedIdGone(w.issues, pr.resolved, cs.id, checked.deprecations, checked.found, w.nextIssueId, issue8);
    }
  }

  /**
   * The scenario of issue 8, second half: when the check still finds an
   * issue equivalent to it, the apply is rejected with "Issue 8 was not
   * resolved." and nothing changes.
   */
  lemma {:induction false} ResolvingIssueEightRejected(cs: ChangesetState, w: World, eng: Engine, now: int, issue8: Issue, pr: PayloadResult)
    requires issue8.id == 8
    requires !cs.applied
    requires ApplyPayloads(eng, w.entities, w.issues, cs.payloads, cs.id) == Success(pr)
    requires pr.resolved == [issue8]
    requires eng.check(pr.entities, w.issues, cs.id).found == [issue8.(id := 0)]
    ensures ApplySpec(cs, w, eng, now) == Outcome(Failure(ChangesetError("Issue 8 was not resolved.")), cs, w)
  {
    var found := eng.check(pr.entities, w.issues, cs.id).found;
    assert found[1..] == [];
    var f := Filter(pr.resolved, (x: Issue) => Equivalent(found[0], x));
    assert issue8 in f;
    var u := IssuesUnresolved(pr.resolved, found);
    assert u == f + IssuesUnresolved(pr.resolved, found[1..]);
    assert u == [issue8];
    IssueEightMessage(issue8);
    assert ApplySpec(cs, w, eng, now) == Settle(cs, w, eng, now, pr);
  }

  lemma {:induction false} IssueEightMessage(issue8: Issue)
    requires issue8.id == 8
    ensures NotResolvedMessage([issue8]) == "Issue 8 was not resolved."
  {
    assert NatToString(8) == "8";
    assert NotResolvedSentence(issue8) == "Issue 8 was not resolved.";
    var sentences := seq(1, k requires 0 <= k < 1 => NotResolvedSentence([issue8][k]));
    assert sentences == [NotResolvedSentence(issue8)];
  }

  // ---------------------------------------------------------------------------
  // Change payloads of tracked entities

  /** An entity as create_change_payloads sees it: its class name and its as_change attributes. */
  datatype TrackedEntity = TrackedEntity(className: string, asChange: map<string, Option<string>>)

  /** camelize(:lower) on a class name: the leading capital becomes lower case. */
  function LowerCamel(name: string): (r: string)
    ensures |r| == |name|
    ensures |r| > 0 ==> r[1..] == name[1..] && !('A' <= r[0] <= 'Z')
    ensures |r| > 0 && !('A' <= name[0] <= 'Z') ==> r == name
  {
    if name != [] && 'A' <= name[0] <= 'Z' then [(name[0] as int + 32) as char] + name[1..] else name
  }

  lemma LowerCamelIdempotent(name: string)
    ensures LowerCamel(LowerCamel(name)) == LowerCamel(name)
  {
  }

  /** Hash#compact: the attributes whose value is not nil. */
  function Compact(m: map<string, Option<string>>): (r: map<string, string>)
    ensures forall k :: k in r <==> k in m && m[k].Some?
    ensures forall k :: k in r ==> m[k] == Some(r[k])
  {
    map k | k in m && m[k].Some? :: m[k].value
  }

  function ChangeFor(e: TrackedEntity): Change {
    CreateUpdateChange(LowerCamel(e.className), EntityBody(Compact(e.asChange)))
  }

  function ChangesFor(entities: seq<TrackedEntity>): (r: seq<Change>)
    ensures |r| == |entities|
    ensures forall k :: 0 <= k < |entities| ==> r[k] == ChangeFor(entities[k])
  {
    MapSeq(ChangeFor, entities)
  }

  /** One payload per slice, holding that slice's changes. */
  function SlicePayloads(slices: seq<seq<TrackedEntity>>): (r: seq<ChangePayload>)
    ensures |r| == |slices|
    ensures forall k :: 0 <= k < |slices| ==> r[k] == ChangePayload(ChangesFor(slices[k]))
  {
    seq(|slices|, k requires 0 <= k < |slices| => ChangePayload(ChangesFor(slices[k])))
  }

  /** The payloads create_change_payloads builds: one per slice of at most n entities. */
  function PayloadsFor(entities: seq<TrackedEntity>, n: nat): seq<ChangePayload>
    requires n > 0
  {
    SlicePayloads(Chunks(entities, n))
  }

  function AllChanges(payloads: seq<ChangePayload>): seq<Change> {
    if payloads == [] then [] else payloads[0].changes + AllChanges(payloads[1..])
  }

  lemma ChangesForAppend(a: seq<TrackedEntity>, b: seq<TrackedEntity>)
    ensures ChangesFor(a + b) == ChangesFor(a) + ChangesFor(b)
  {
    MapSeqAppend(ChangeFor, a, b);
  }

  /** The changes of one slice, built one entity at a time. */
  method BuildChanges(slice: seq<TrackedEntity>) returns (changes: seq<Change>)
    ensures changes == ChangesFor(slice)
  {
    changes := [];
    var j := 0;
    while j < |slice|
      invariant 0 <= j <= |slice|
      invariant changes == ChangesFor(slice[..j])
    {
      TakeOneMore(slice, j);
      ChangesForAppend(slice[..j], [slice[j]]);
      changes := changes + [ChangeFor(slice[j])];
      j := j + 1;
    }
    assert slice[..j] == slice;
  }

  lemma {:induction false} ChangesForFlatten(slices: seq<seq<TrackedEntity>>)
    ensures AllChanges(SlicePayloads(slices)) == ChangesFor(Flatten(slices))
  {
    if slices != [] {
      var ps := SlicePayloads(slices);
      assert ps[1..] == SlicePayloads(slices[1..]);
      ChangesForFlatten(slices[1..]);
      ChangesForAppend(slices[0], Flatten(slices[1..]));
    }
  }

  /**
   * Every entity becomes exactly one createUpdate change, in order, and the
   * changes are spread over ceil(|entities| / n) payloads of at most n each.
   */
  lemma PayloadsCoverEntities(entities: seq<TrackedEntity>, n: nat)
    requires n > 0
    ensures AllChanges(PayloadsFor(entities, n)) == ChangesFor(entities)
    ensures |PayloadsFor(entities, n)| == (|entities| + n - 1) / n
    ensures forall k :: 0 <= k < |PayloadsFor(entities, n)| ==> 0 < |PayloadsFor(entities, n)[k].changes| <= n
  {
    ChangesForFlatten(Chunks(entities, n));
    ChunksCount(entities, n);
  }

  // ---------------------------------------------------------------------------
  // The changeset record

  class Changeset {
    const id: nat
    var applied: bool
    var appliedAt: Option<int>
    var payloads: seq<ChangePayload>
    var importedFromFeed: Option<nat>
    var importedFromFeedVersion: Option<nat>

    function State(): ChangesetState
      reads this
    {
      ChangesetState(id, applied, appliedAt, payloads, importedFromFeed, importedFromFeedVersion)
    }

    /** A new changeset is not applied (set_default_values). */
    constructor (id: nat, feed: Option<nat>, feedVersion: Option<nat>)
      ensures State() == ChangesetState(id, false, None, [], feed, feedVersion)
    {
      this.id := id;
      applied := false;
      appliedAt := None;
      payloads := [];
      importedFromFeed := feed;
      importedFromFeedVersion := feedVersion;
    }

    /** Appends a payload to the changeset's payloads. */
    method AddPayload(p: ChangePayload)
      modifies this
      ensures State() == old(State()).(payloads := old(payloads) + [p])
    {
      payloads := payloads + [p];
    }

    /**
     * create_change_payloads: one payload per slice of maxEntities entities;
     * a slice size that is not positive raises before anything is created.
     * Its value is that of each_slice with a block, which is not the
     * payloads, so only the raised error is returned.
     */
    method CreateChangePayloads(entities: seq<TrackedEntity>, maxEntities: int) returns (r: Result<(), Error>)
      modifies this
      ensures maxEntities <= 0 ==> r == Failure(ArgumentError("invalid slice size")) && State() == old(State())
      ensures maxEntities > 0 ==>
                r == Success(())
                && State() == old(State()).(payloads := old(payloads) + PayloadsFor(entities, maxEntities))
    {
      if maxEntities <= 0 {
        return Failure(ArgumentError("invalid slice size"));
      }
      var slices := Chunks(entities, maxEntities);
      ghost var head := payloads;
      var created: seq<ChangePayload> := [];
      var i := 0;
      while i < |slices|
        invariant 0 <= i <= |slices|
        invariant |created| == i
        invariant forall j :: 0 <= j < i ==> created[j] == ChangePayload(ChangesFor(slices[j]))
        invariant State() == old(State()).(payloads := head + created)
      {
        var changes := BuildChanges(slices[i]);
        AddPayload(ChangePayload(changes));
        AppendAssoc(head, created, [ChangePayload(changes)]);
        created := created + [ChangePayload(changes)];
        i := i + 1;
      }
      assert created == PayloadsFor(entities, maxEntities);
      r := Success(());
    }

    /**
     * The payload loop of apply!: each payload in order, collecting the issues
     * they claim to resolve; on a failure the entities are put back.
     */
    method ApplyChangePayloads(db: Datastore, issues: seq<Issue>, eng: Engine) returns (r: Result<seq<Issue>, string>)
      modifies db
      ensures db.feedImports == old(db.feedImports)
      ensures match ApplyPayloads(eng, old(db.entities), issues, payloads, id)
              case Failure(e) => r == Failure(e) && db.entities == old(db.entities)
              case Success(pr) => r == Success(pr.resolved) && db.entities == pr.entities
    {
      var entities0 := db.entities;
      var resolving: seq<Issue> := [];
      var i := 0;
      assert payloads[i..] == payloads;
      match ApplyPayloads(eng, entities0, issues, payloads, id) {
        case Failure(_) =>
        case Success(p) => assert [] + p.resolved == p.resolved;
      }
      while i < |payloads|
        invariant 0 <= i <= |payloads|
        invariant db.feedImports == old(db.feedImports)
        invariant ApplyPayloads(eng, entities0, issues, payloads, id)
                  == Prefixed(resolving, ApplyPayloads(eng, db.entities, issues, payloads[i..], id))
      {
        var step := eng.applyPayload(db.entities, issues, payloads[i], id);
        assert payloads[i..][0] == payloads[i];
        assert payloads[i..][1..] == payloads[i + 1..];
        if step.Failure? {
          db.entities := entities0;
          return Failure(step.error);
        }
        var rest := ApplyPayloads(eng, step.value.entities, issues, payloads[i + 1..], id);
        assert rest.Success? ==> resolving + (step.value.resolved + rest.value.resolved)
                                 == (resolving + step.value.resolved) + rest.value.resolved;
        db.entities := step.value.entities;
        resolving := resolving + step.value.resolved;
        i := i + 1;
      }
      assert payloads[i..] == [];
      assert resolving + [] == resolving;
      r := Success(resolving);
    }

    /** apply!, proved against ApplySpec. */
    method Apply(db: Datastore, store: IssueStore, eng: Engine, now: int) returns (r: Result<(bool, seq<Issue>), Error>)
      requires store.Valid()
      modifies this, db, store
      ensures store.Valid()
      ensures var o := ApplySpec(old(State()), old(WorldOf(db, store)), eng, now);
              r == o.result && State() == o.changeset && WorldOf(db, store) == o.world
    {
      if applied {
        return Failure(ChangesetError(AlreadyApplied));
      }
      // The transaction starts here; a rollback restores this snapshot.
      var w0 := WorldOf(db, store);
      var payloadResult := ApplyChangePayloads(db, w0.issues, eng);
      if payloadResult.Failure? {
        return Failure(ChangesetError(payloadResult.error));
      }
      ghost var pr := ApplyPayloads(eng, w0.entities, w0.issues, payloads, id).value;
      r := Conclude(db, store, eng, now, w0, pr, payloadResult.value);
    }

    /** The part of apply! after the payloads: provenance, check_quality, commit or rollback. */
    method Conclude(db: Datastore, store: IssueStore, eng: Engine, now: int, w0: World, ghost pr: PayloadResult,
                    resolving: seq<Issue>) returns (r: Result<(bool, seq<Issue>), Error>)
      requires store.Valid() && !applied
      requires resolving == pr.resolved
      requires WorldOf(db, store) == w0.(entities := pr.entities)
      modifies this, db, store
      ensures store.Valid()
      ensures var o := Settle(old(State()), w0, eng, now, pr);
              r == o.result && State() == o.changeset && WorldOf(db, store) == o.world
    {
      ghost var cs0 := State();
      var appliedAt0 := appliedAt;
      applied, appliedAt := true, Some(now);
      if importedFromFeed.Some? && importedFromFeedVersion.Some? {
        db.ImportFromFeed(EntitiesCreatedOrUpdated(db.entities, id), importedFromFeed.value, importedFromFeedVersion.value);
      }
      assert db.feedImports == w0.feedImports + Provenance(cs0, pr.entities);

      var checked := eng.check(db.entities, w0.issues, id);
      var unresolved := IssuesUnresolved(resolving, checked.found);
      if unresolved == [] {
        var saved := Commit(store, resolving, checked.deprecations, checked.found);
        r := Success((true, saved));
      } else {
        Rollback(db, store, w0, appliedAt0);
        r := Failure(ChangesetError(NotResolvedMessage(unresolved)));
      }
    }

    /**
     * The commit of apply!: the claimed issues are closed, then the found
     * ones are saved, saving deprecating the issues whose attributes changed.
     */
    method Commit(store: IssueStore, resolving: seq<Issue>, changes: seq<AttrChange>, found: seq<Issue>)
      returns (saved: seq<Issue>)
      requires store.Valid()
      modifies store
      ensures store.Valid()
      ensures saved == Numbered(found, old(store.nextId))
      ensures store.rows == DeprecateAll(ResolveAll(old(store.rows), resolving, id), changes) + saved
      ensures store.nextId == old(store.nextId) + |found|
    {
      ResolveEach(store, resolving, id);
      DeprecateEach(store, changes);
      saved := SaveEach(store, found);
    }

    /** The rollback of apply!: every table and the changeset's own fields as they were. */
    method Rollback(db: Datastore, store: IssueStore, w0: World, appliedAt0: Option<int>)
      requires TableValid(w0.issues, w0.nextIssueId)
      modifies this, db, store
      ensures store.Valid() && WorldOf(db, store) == w0
      ensures State() == old(State()).(applied := false, appliedAt := appliedAt0)
    {
      db.entities, db.feedImports := w0.entities, w0.feedImports;
      store.rows, store.nextId := w0.issues, w0.nextIssueId;
      applied, appliedAt := false, appliedAt0;
    }

    /**
     * trial_succeeds?: apply inside a transaction that is always rolled back,
     * then reload. The rollback restores every row, but not the issue id
     * sequence: the ids the trial's saves drew stay used.
     */
    method TrialSucceeds(db: Datastore, store: IssueStore, eng: Engine, now: int) returns (succeeds: bool, issues: seq<Issue>)
      requires store.Valid()
      modifies this, db, store
      ensures store.Valid()
      ensures State() == old(State())
      ensures WorldOf(db, store) == old(WorldOf(db, store)).(nextIssueId := old(store.nextId) + |issues|)
      ensures (succeeds, issues) == TrialOutcome(ApplySpec(old(State()), old(WorldOf(db, store)), eng, now))
    {
      ghost var cs0, w0 := State(), WorldOf(db, store);
      var applied0, appliedAt0 := applied, appliedAt;
      var entities0, imports0 := db.entities, db.feedImports;
      var rows0 := store.rows;
      succeeds, issues := false, [];
      var r := Apply(db, store, eng, now);
      if r.Success? {
        succeeds, issues := r.value.0, r.value.1;
      }
      TrialMatchesApply(cs0, w0, eng, now);
      db.entities, db.feedImports := entities0, imports0;
      store.rows := rows0;
      applied, appliedAt := applied0, appliedAt0;
    }
  }

  /** Deprecation for each attribute change the quality check reports, in order. */
  method DeprecateEach(store: IssueStore, changes: seq<AttrChange>)
    requires store.Valid()
    modifies store
    ensures store.Valid()
    ensures store.rows == DeprecateAll(old(store.rows), changes) && store.nextId == old(store.nextId)
  {
    var d := 0;
    assert changes[d..] == changes;
    while d < |changes|
      invariant 0 <= d <= |changes|
      invariant store.Valid() && store.nextId == old(store.nextId)
      invariant DeprecateAll(store.rows, changes[d..]) == DeprecateAll(old(store.rows), changes)
    {
      assert changes[d..][1..] == changes[d + 1..];
      store.DeprecateChanged(changes[d].entity, changes[d].attributes);
      d := d + 1;
    }
    assert changes[d..] == [];
  }

  /** resolving_issues.each { |issue| issue.update!(open: false, resolved_by_changeset: self) } */
  method ResolveEach(store: IssueStore, resolving: seq<Issue>, changesetId: nat)
    requires store.Valid()
    modifies store
    ensures store.Valid()
    ensures store.rows == ResolveAll(old(store.rows), resolving, changesetId) && store.nextId == old(store.nextId)
  {
    var k := 0;
    assert resolving[k..] == resolving;
    while k < |resolving|
      invariant 0 <= k <= |resolving|
      invariant store.Valid() && store.nextId == old(store.nextId)
      invariant ResolveAll(store.rows, resolving[k..], changesetId) == ResolveAll(old(store.rows), resolving, changesetId)
    {
      assert resolving[k..][1..] == resolving[k + 1..];
      store.Resolve(resolving[k].id, changesetId);
      k := k + 1;
    }
    assert resolving[k..] == [];
  }

  /** changeset_issues.each(&:save!) */
  method SaveEach(store: IssueStore, found: seq<Issue>) returns (saved: seq<Issue>)
    requires store.Valid()
    modifies store
    ensures store.Valid()
    ensures saved == Numbered(found, old(store.nextId))
    ensures store.rows == old(store.rows) + saved && store.nextId == old(store.nextId) + |found|
  {
    saved := [];
    var k := 0;
    while k < |found|
      invariant 0 <= k <= |found|
      invariant store.Valid() && store.nextId == old(store.nextId) + k
      invariant saved == Numbered(found[..k], old(store.nextId))
      invariant store.rows == old(store.rows) + saved
    {
      var s := store.Save(found[k]);
      assert found[..k + 1] == found[..k] + [found[k]];
      saved := saved + [s];
      k := k + 1;
    }
    assert found[..k] == found;
  }

  function WorldOf(db: Datastore, store: IssueStore): World
    reads db, store
  {
    World(db.entities, store.rows, store.nextId, db.feedImports)
  }
}
