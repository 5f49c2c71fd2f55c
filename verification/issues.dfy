/**
 * Data-quality issues and the issue table.
 *
 * An issue has a type and a set of entities_with_issues rows, each naming an
 * entity (type and id) and, optionally, the attribute of that entity the issue
 * is about. The type together with that set is the issue's signature:
 * equivalence, lookup and deprecation are all decided on it.
 */
module Issues {
  import opened Wrappers
  import opened Seqs

  datatype EntityKind =
    | Feed | FeedVersion | Operator | OperatorInFeed | Stop | Route
    | RouteStopPattern | ScheduleStopPair | OperatorServingStop | RouteServingStop

  datatype EntityRef = EntityRef(kind: EntityKind, id: nat)

  /** One entities_with_issues row, less its issue id. */
  datatype EntityAttr = EntityAttr(entity: EntityRef, attribute: Option<string>)

  datatype Issue = Issue(
    id: nat,
    issueType: string,
    details: string,
    entities: set<EntityAttr>,
    open: bool,
    createdBy: Option<nat>,
    resolvedBy: Option<nat>)

  /** An entities_with_issues row with its issue id. */
  datatype Link = Link(issueId: nat, target: EntityAttr)

  // ---------------------------------------------------------------------------
  // Equivalence and lookup

  /** equivalent?: the same type and the same set of (entity type, id, attribute) triples. */
  predicate Equivalent(a: Issue, b: Issue) {
    a.issueType == b.issueType && a.entities == b.entities
  }

  lemma EquivalentIsEquivalence(a: Issue, b: Issue, c: Issue)
    ensures Equivalent(a, a)
    ensures Equivalent(a, b) ==> Equivalent(b, a)
    ensures Equivalent(a, b) && Equivalent(b, c) ==> Equivalent(a, c)
  {
  }

  /** An issue carrying only part of another's entities is not equivalent to it. */
  lemma PartialSignatureNotEquivalent(a: Issue, b: Issue)
    requires a.entities < b.entities
    ensures !Equivalent(a, b) && !Equivalent(b, a)
  {
  }

  predicate MatchesCandidate(row: Issue, candidate: Issue) {
    row.open && Equivalent(row, candidate)
  }

  /**
   * find_by_equivalent: the first open stored issue, in id order, whose
   * signature equals the candidate's; None when there is none.
   */
  function FindByEquivalent(rows: seq<Issue>, candidate: Issue): (r: Option<Issue>)
    ensures r.None? <==> forall k :: 0 <= k < |rows| ==> !MatchesCandidate(rows[k], candidate)
    ensures r.Some? ==> exists k :: 0 <= k < |rows| && rows[k] == r.value
                                  && MatchesCandidate(rows[k], candidate)
                                  && forall j :: 0 <= j < k ==> !MatchesCandidate(rows[j], candidate)
  {
    if rows == [] then None
    else if MatchesCandidate(rows[0], candidate) then
      Some(rows[0])
    else
      var r := FindByEquivalent(rows[1..], candidate);
      assert forall k :: 1 <= k < |rows| ==> rows[k] == rows[1..][k - 1];
      if r.Some? then
        var k :| 0 <= k < |rows[1..]| && rows[1..][k] == r.value
                 && MatchesCandidate(rows[1..][k], candidate)
                 && forall j :: 0 <= j < k ==> !MatchesCandidate(rows[1..][j], candidate);
        assert rows[k + 1] == r.value;
        r
      else r
  }

  // ---------------------------------------------------------------------------
  // Queries

  predicate HasTypeIn(i: Issue, types: string) {
    i.issueType in RubySplit(types, ',')
  }

  /** with_type: the issues whose type is one of a comma-separated list. */
  function WithType(rows: seq<Issue>, types: string): (r: seq<Issue>)
    ensures forall i :: i in r <==> i in rows && i.issueType in RubySplit(types, ',')
  {
    Filter(rows, (i: Issue) => HasTypeIn(i, types))
  }

  lemma {:induction false} FilterCongruent<T(!new)>(s: seq<T>, p: T -> bool, q: T -> bool)
    requires forall x :: x in s ==> p(x) == q(x)
    ensures Filter(s, p) == Filter(s, q)
  {
    if s != [] {
      assert forall x :: x in s[1..] ==> x in s;
      FilterCongruent(s[1..], p, q);
    }
  }

  lemma {:induction false} SplitFieldsSingle(t: string)
    requires ',' !in t
    ensures SplitFields(t, ',') == [t]
  {
    if t != [] {
      SplitFieldsSingle(t[1..]);
      assert [t[0]] + t[1..] == t;
    }
  }

  /** Listing two groups of types selects the issues of either group. */
  lemma WithTypeUnion(rows: seq<Issue>, a: string, b: string, i: Issue)
    requires i.issueType != ""
    ensures i in WithType(rows, a + "," + b) <==> i in WithType(rows, a) || i in WithType(rows, b)
  {
    SplitFieldsConcat(a, b, ',');
    assert a + "," + b == a + [','] + b;
  }

  /** A type name that no stored issue has contributes nothing. */
  lemma WithTypeIgnoresUnknown(rows: seq<Issue>, a: string, unknown: string)
    requires unknown != "" && ',' !in unknown
    requires forall i :: i in rows ==> i.issueType != "" && i.issueType != unknown
    ensures WithType(rows, a + "," + unknown) == WithType(rows, a)
  {
    SplitFieldsConcat(a, unknown, ',');
    assert a + "," + unknown == a + [','] + unknown;
    SplitFieldsSingle(unknown);
    forall i | i in rows
      ensures HasTypeIn(i, a + "," + unknown) == HasTypeIn(i, a)
    {
    }
    FilterCongruent(rows, (i: Issue) => HasTypeIn(i, a + "," + unknown), (i: Issue) => HasTypeIn(i, a));
  }

  /**
   * The issue tracks entity e, on one of attrs, or on any attribute when
   * attrs is empty.
   */
  predicate Tracks(i: Issue, e: EntityRef, attrs: seq<string>) {
    exists l :: l in i.entities && l.entity == e
                && (attrs == [] || (l.attribute.Some? && l.attribute.value in attrs))
  }

  /** issues_of_entity(entity, entity_attributes: attrs). */
  function IssuesOfEntity(rows: seq<Issue>, e: EntityRef, attrs: seq<string>): (r: seq<Issue>)
    ensures |r| <= |rows|
  {
    Filter(rows, (i: Issue) => Tracks(i, e, attrs))
  }

  /** With attribute names, only issues tied to one of those attributes of e are returned. */
  lemma IssuesOfEntityByAttribute(rows: seq<Issue>, e: EntityRef, attrs: seq<string>, i: Issue)
    requires attrs != []
    ensures i in IssuesOfEntity(rows, e, attrs) <==>
              i in rows && exists a :: a in attrs && EntityAttr(e, Some(a)) in i.entities
  {
    if i in rows && (exists a :: a in attrs && EntityAttr(e, Some(a)) in i.entities) {
      var a :| a in attrs && EntityAttr(e, Some(a)) in i.entities;
      assert Tracks(i, e, attrs) by {
        var l := EntityAttr(e, Some(a));
        assert l in i.entities && l.entity == e;
      }
    }
  }

  /** With no attribute names, every issue of e is returned, and the narrower query is contained in it. */
  lemma IssuesOfEntityAll(rows: seq<Issue>, e: EntityRef, attrs: seq<string>, i: Issue)
    ensures i in IssuesOfEntity(rows, e, []) <==>
              i in rows && exists l :: l in i.entities && l.entity == e
    ensures i in IssuesOfEntity(rows, e, attrs) ==> i in IssuesOfEntity(rows, e, [])
  {
  }

  // ---------------------------------------------------------------------------
  // Deprecation and destruction

  predicate AttachedToFeedVersion(i: Issue) {
    exists l :: l in i.entities && l.entity.kind == FeedVersion
  }

  /**
   * A change to attrs of e deprecates the issues tracking them, open or
   * already closed, except FeedVersion issues.
   */
  predicate DeprecatedBy(i: Issue, e: EntityRef, attrs: seq<string>) {
    Tracks(i, e, attrs) && !AttachedToFeedVersion(i)
  }

  function AfterDeprecation(rows: seq<Issue>, e: EntityRef, attrs: seq<string>): seq<Issue> {
    Filter(rows, (i: Issue) => !DeprecatedBy(i, e, attrs))
  }

  function WithoutId(rows: seq<Issue>, id: nat): seq<Issue> {
    Filter(rows, (i: Issue) => i.id != id)
  }

  /** The entities_with_issues table, as seen through the issues that own its rows. */
  ghost function LinkRows(rows: seq<Issue>): set<Link> {
    set i, l | i in rows && l in i.entities :: Link(i.id, l)
  }

  /** Destroying an issue removes its entities_with_issues rows and no others. */
  lemma DestroyRemovesLinks(rows: seq<Issue>, id: nat)
    ensures LinkRows(WithoutId(rows, id)) == set x | x in LinkRows(rows) && x.issueId != id
  {
    var after := WithoutId(rows, id);
    forall x | x in LinkRows(rows) && x.issueId != id
      ensures x in LinkRows(after)
    {
      var i, l :| i in rows && l in i.entities && x == Link(i.id, l);
      assert i in after;
    }
  }

  /** Issues tracking a changed attribute are gone after deprecation, whether open or closed. */
  lemma DeprecationRemovesTracked(rows: seq<Issue>, e: EntityRef, attrs: seq<string>, i: Issue)
    requires Tracks(i, e, attrs) && !AttachedToFeedVersion(i)
    ensures i !in AfterDeprecation(rows, e, attrs)
  {
  }

  /** Issues attached to a FeedVersion survive every deprecation. */
  lemma DeprecationSparesFeedVersionIssues(rows: seq<Issue>, e: EntityRef, attrs: seq<string>, i: Issue)
    requires i in rows && AttachedToFeedVersion(i)
    ensures i in AfterDeprecation(rows, e, attrs)
  {
  }

  /** Issues of the same entity on attributes that did not change survive. */
  lemma DeprecationSparesOtherAttributes(rows: seq<Issue>, e: EntityRef, attrs: seq<string>, i: Issue)
    requires attrs != [] && i in rows
    requires forall l :: l in i.entities && l.entity == e ==> l.attribute.None? || l.attribute.value !in attrs
    ensures i in AfterDeprecation(rows, e, attrs)
  {
  }

  lemma {:induction false} FilterPartition<T(!new)>(s: seq<T>, p: T -> bool, q: T -> bool)
    requires forall x :: q(x) == !p(x)
    ensures |Filter(s, p)| + |Filter(s, q)| == |s|
  {
    if s != [] {
      FilterPartition(s[1..], p, q);
    }
  }

  // ---------------------------------------------------------------------------
  // The issue table

  function Find(rows: seq<Issue>, id: nat): (r: Option<Issue>)
    ensures r.Some? ==> r.value in rows && r.value.id == id
    ensures r.None? ==> forall i :: i in rows ==> i.id != id
  {
    if rows == [] then None
    else if rows[0].id == id then Some(rows[0])
    else Find(rows[1..], id)
  }

  /**
   * update!(open: false, resolved_by_changeset: c) writes only the two changed
   * columns, to every stored row with the issue's id.
   */
  function ResolvedIn(rows: seq<Issue>, id: nat, changesetId: nat): (r: seq<Issue>)
    ensures |r| == |rows|
    ensures forall k :: 0 <= k < |r| ==> r[k].id == rows[k].id
  {
    seq(|rows|, k requires 0 <= k < |rows| => if rows[k].id == id then Resolved(rows[k], changesetId) else rows[k])
  }

  /** The value resolution writes: closed, and attributed to the resolving changeset. */
  function Resolved(issue: Issue, changesetId: nat): (r: Issue)
    ensures r.id == issue.id && !r.open && r.resolvedBy == Some(changesetId)
    ensures r.issueType == issue.issueType && r.entities == issue.entities
  {
    issue.(open := false, resolvedBy := Some(changesetId))
  }

  ghost predicate IdsAscending(rows: seq<Issue>) {
    forall j, k :: 0 <= j < k < |rows| ==> rows[j].id < rows[k].id
  }

  class IssueStore {
    var rows: seq<Issue>
    var nextId: nat

    /** Rows are kept in primary-key order, below the next key to hand out. */
    ghost predicate Valid()
      reads this
    {
      IdsAscending(rows) && forall k :: 0 <= k < |rows| ==> rows[k].id < nextId
    }

    constructor ()
      ensures Valid() && rows == [] && nextId == 1
    {
      rows := [];
      nextId := 1;
    }

    /** save! of a new issue: it takes the next id and is appended. */
    method Save(candidate: Issue) returns (saved: Issue)
      requires Valid()
      modifies this
      ensures Valid()
      ensures saved == candidate.(id := old(nextId))
      ensures rows == old(rows) + [saved] && nextId == old(nextId) + 1
    {
      saved := candidate.(id := nextId);
      rows := rows + [saved];
      nextId := nextId + 1;
    }

    /** Resolution of the stored issue with the given id by a changeset. */
    method Resolve(id: nat, changesetId: nat)
      requires Valid()
      modifies this
      ensures Valid()
      ensures rows == ResolvedIn(old(rows), id, changesetId) && nextId == old(nextId)
    {
      rows := ResolvedIn(rows, id, changesetId);
    }

    /** destroy: the issue and, with it, its entities_with_issues rows. */
    method Destroy(id: nat)
      requires Valid()
      modifies this
      ensures Valid()
      ensures rows == WithoutId(old(rows), id) && nextId == old(nextId)
      ensures LinkRows(rows) == set x | x in LinkRows(old(rows)) && x.issueId != id
    {
      SubsequenceStaysValid(rows, (i: Issue) => i.id != id, nextId);
      DestroyRemovesLinks(rows, id);
      rows := WithoutId(rows, id);
    }

    /** Deprecation after attrs of entity e changed: the deprecated issues are destroyed. */
    method DeprecateChanged(e: EntityRef, attrs: seq<string>)
      requires Valid()
      modifies this
      ensures Valid()
      ensures rows == AfterDeprecation(old(rows), e, attrs) && nextId == old(nextId)
    {
      SubsequenceStaysValid(rows, (i: Issue) => !DeprecatedBy(i, e, attrs), nextId);
      rows := AfterDeprecation(rows, e, attrs);
    }
  }

  lemma {:induction false} SubsequenceStaysValid(rows: seq<Issue>, p: Issue -> bool, nextId: nat)
    requires IdsAscending(rows) && forall k :: 0 <= k < |rows| ==> rows[k].id < nextId
    ensures IdsAscending(Filter(rows, p))
    ensures forall k :: 0 <= k < |Filter(rows, p)| ==> Filter(rows, p)[k].id < nextId
  {
    if rows != [] {
      var rest := rows[1..];
      SubsequenceStaysValid(rest, p, nextId);
      var tail := Filter(rest, p);
      if p(rows[0]) {
        var f := [rows[0]] + tail;
        assert Filter(rows, p) == f;
        forall j, k | 0 <= j < k < |f|
          ensures f[j].id < f[k].id
        {
          if j == 0 {
            assert f[k] == tail[k - 1] && tail[k - 1] in rest;
            var m :| 0 <= m < |rest| && rest[m] == tail[k - 1];
            assert rows[m + 1] == f[k];
          } else {
            assert f[j] == tail[j - 1] && f[k] == tail[k - 1];
          }
        }
      } else {
        assert Filter(rows, p) == tail;
      }
    }
  }
}
