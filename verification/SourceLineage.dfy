/** The bounded walk over a source's dependencies, and the lineage it collects
    (`_published_source` of backend/fund_kb/capability_sources.py). */
module SourceLineage {
  import opened Wrappers

  type VersionId = string

  // A link to another resource: not a dependency, pinned to a version of that resource, or left to the
  // resource's active release, if it has one.
  datatype Edge = Navigation | Pinned(version: VersionId) | ToRelease(release: Option<VersionId>)
  datatype Target = Target(readable: bool, space: string, suspended: bool)

  datatype Entry = Entry(version: VersionId, revision: nat, accessEpoch: nat, contentHash: string,
                         blobHash: Option<string>)

  datatype Version = Version(
    readable: bool, space: string, usableKind: bool, released: bool, originalClean: bool, idle: bool,
    hashMatches: bool, hasBlocks: bool, blocksMatch: bool,
    targets: seq<Target>, cited: set<VersionId>, edges: seq<Edge>,
    revision: nat, accessEpoch: nat, contentHash: string, blobHash: Option<string>)

  type Catalog = map<VersionId, Version>

  datatype SourceError = DependencyCycle | NotReadable | SpaceMismatch | Unavailable | Unpublished | NotClean
                       | WorkInProgress | SourceChanged | SourceEmpty

  const MAX_DEPTH := 8

  // ----- one version by itself

  function TargetError(targets: seq<Target>, space: string): Option<SourceError> {
    if targets == [] then None
    else if !targets[0].readable then Some(NotReadable)
    else if targets[0].space != space then Some(SpaceMismatch)
    else if targets[0].suspended then Some(Unavailable)
    else TargetError(targets[1..], space)
  }

  predicate Resolvable(edges: seq<Edge>) {
    forall i | 0 <= i < |edges| :: edges[i] != ToRelease(None)
  }

  /** The first check a version fails; `space` is the space it must lie in, if one is prescribed. */
  function LocalError(cat: Catalog, v: VersionId, space: Option<string>): Option<SourceError> {
    if v !in cat || !cat[v].readable then Some(NotReadable)
    else if space.Some? && cat[v].space != space.value then Some(SpaceMismatch)
    else if !cat[v].usableKind then Some(Unavailable)
    else if !cat[v].released then Some(Unpublished)
    else if !cat[v].originalClean then Some(NotClean)
    else if !cat[v].idle then Some(WorkInProgress)
    else if !cat[v].hashMatches then Some(SourceChanged)
    else if !cat[v].hasBlocks then Some(SourceEmpty)
    else if !cat[v].blocksMatch then Some(SourceChanged)
    else if TargetError(cat[v].targets, cat[v].space).Some? then TargetError(cat[v].targets, cat[v].space)
    else if !Resolvable(cat[v].edges) then Some(Unpublished)
    else None
  }

  function EdgeTargets(e: Edge): set<VersionId> {
    match e
    case Navigation => {}
    case Pinned(v) => {v}
    case ToRelease(r) => if r.Some? then {r.value} else {}
  }

  function EdgeVersions(edges: seq<Edge>): set<VersionId> {
    if edges == [] then {} else EdgeVersions(edges[..|edges| - 1]) + EdgeTargets(edges[|edges| - 1])
  }

  /** The versions a version depends on: cited, pinned, or currently released. */
  function Dependencies(x: Version): set<VersionId> {
    x.cited + EdgeVersions(x.edges)
  }

  function EntryOf(cat: Catalog, v: VersionId): Entry
    requires v in cat
  {
    Entry(v, cat[v].revision, cat[v].accessEpoch, cat[v].contentHash, cat[v].blobHash)
  }

  // ----- dependency paths

  /** Each version of the path depends on the next one. */
  ghost predicate IsPath(cat: Catalog, p: seq<VersionId>) {
    p != [] && forall i | 0 <= i < |p| - 1 :: p[i] in cat && p[i + 1] in Dependencies(cat[p[i]])
  }

  ghost predicate PathFrom(cat: Catalog, v: VersionId, p: seq<VersionId>) {
    IsPath(cat, p) && p[0] == v
  }

  /** The space the last version of a path must lie in. */
  function SpaceAtEnd(cat: Catalog, p: seq<VersionId>, space: Option<string>): Option<string>
    requires p != [] && (|p| > 1 ==> p[|p| - 2] in cat)
  {
    if |p| == 1 then space else Some(cat[p[|p| - 2]].space)
  }

  /** With `depth` versions before it, the path is not too long and ends in a version that passes its checks. */
  ghost predicate GoodPath(cat: Catalog, p: seq<VersionId>, space: Option<string>, depth: nat)
    requires IsPath(cat, p)
  {
    depth + |p| <= MAX_DEPTH && LocalError(cat, p[|p| - 1], SpaceAtEnd(cat, p, space)) == None
  }

  ghost predicate AllPathsGood(cat: Catalog, v: VersionId, space: Option<string>, depth: nat) {
    forall p | PathFrom(cat, v, p) :: GoodPath(cat, p, space, depth)
  }

  ghost predicate Reaches(cat: Catalog, v: VersionId, u: VersionId) {
    exists p :: PathFrom(cat, v, p) && p[|p| - 1] == u
  }

  /** Why the walk fails: a path too long for the bound, or a version on some path that fails a check. */
  ghost predicate Explained(cat: Catalog, v: VersionId, space: Option<string>, depth: nat, e: SourceError) {
    exists p :: PathFrom(cat, v, p) && Faulty(cat, p, space, depth, e)
  }

  ghost predicate Faulty(cat: Catalog, p: seq<VersionId>, space: Option<string>, depth: nat, e: SourceError)
    requires IsPath(cat, p)
  {
    if e == DependencyCycle then depth + |p| > MAX_DEPTH
    else LocalError(cat, p[|p| - 1], SpaceAtEnd(cat, p, space)) == Some(e)
  }

  lemma {:induction false} PrependPath(cat: Catalog, v: VersionId, d: VersionId, p: seq<VersionId>)
    requires v in cat && d in Dependencies(cat[v]) && PathFrom(cat, d, p)
    ensures PathFrom(cat, v, [v] + p)
    ensures SpaceAtEnd(cat, [v] + p, None) == SpaceAtEnd(cat, p, Some(cat[v].space))
  {
  }

  lemma {:induction false} FaultAbove(cat: Catalog, v: VersionId, d: VersionId, space: Option<string>,
                                      depth: nat, e: SourceError)
    requires v in cat && d in Dependencies(cat[v]) && Explained(cat, d, Some(cat[v].space), depth + 1, e)
    ensures Explained(cat, v, space, depth, e)
  {
    var p :| PathFrom(cat, d, p) && Faulty(cat, p, Some(cat[v].space), depth + 1, e);
    PrependPath(cat, v, d, p);
    assert ([v] + p)[|p|] == p[|p| - 1];
    assert Faulty(cat, [v] + p, space, depth, e);
  }

  lemma {:induction false} ExplainedIsBad(cat: Catalog, v: VersionId, space: Option<string>, depth: nat, e: SourceError)
    requires Explained(cat, v, space, depth, e)
    ensures !AllPathsGood(cat, v, space, depth)
  {
    var p :| PathFrom(cat, v, p) && Faulty(cat, p, space, depth, e);
    assert !GoodPath(cat, p, space, depth);
  }

  /** A version on a cycle starts paths of every length. */
  lemma {:induction false} CyclesUnroll(cat: Catalog, c: seq<VersionId>, n: nat) returns (p: seq<VersionId>)
    requires IsPath(cat, c) && |c| > 1 && c[0] == c[|c| - 1]
    ensures PathFrom(cat, c[0], p) && |p| > n
  {
    if n == 0 {
      p := c;
    } else {
      var rest := CyclesUnroll(cat, c, n - 1);
      p := c[..|c| - 1] + rest;
      forall i | 0 <= i < |p| - 1 ensures p[i] in cat && p[i + 1] in Dependencies(cat[p[i]]) {
        if i < |c| - 1 {
          assert p[i] == c[i] && p[i + 1] == c[i + 1];
        } else {
          assert p[i] == rest[i - (|c| - 1)] && p[i + 1] == rest[i - (|c| - 1) + 1];
        }
      }
    }
  }

  /** Coming back to a version of the path means a cycle, hence paths beyond any bound. */
  lemma {:induction false} RepeatIsTooLong(cat: Catalog, path: seq<VersionId>, v: VersionId, space: Option<string>)
    requires IsPath(cat, path + [v]) && v in path
    ensures Explained(cat, v, space, |path|, DependencyCycle)
  {
    var i :| 0 <= i < |path| && path[i] == v;
    var c := (path + [v])[i..];
    assert forall k | 0 <= k < |c| :: c[k] == (path + [v])[i + k];
    var p := CyclesUnroll(cat, c, MAX_DEPTH);
    assert Faulty(cat, p, space, |path|, DependencyCycle);
  }

  /** A longer path from v starts with a dependency of v. */
  lemma {:induction false} PathsGoThroughDependencies(cat: Catalog, v: VersionId, space: Option<string>, depth: nat)
    requires LocalError(cat, v, space) == None && depth < MAX_DEPTH
    requires forall d | d in Dependencies(cat[v]) :: AllPathsGood(cat, d, Some(cat[v].space), depth + 1)
    ensures AllPathsGood(cat, v, space, depth)
  {
    forall p | PathFrom(cat, v, p) ensures GoodPath(cat, p, space, depth) {
      if |p| > 1 {
        var rest := p[1..];
        assert p[1] in Dependencies(cat[p[0]]);
        assert PathFrom(cat, p[1], rest) && rest[|rest| - 1] == p[|p| - 1];
        assert GoodPath(cat, rest, Some(cat[v].space), depth + 1);
        assert |rest| > 1 ==> rest[|rest| - 2] == p[|p| - 2];
      }
    }
  }

  lemma {:induction false} ReachesThroughDependencies(cat: Catalog, v: VersionId, u: VersionId)
    requires v in cat
    ensures Reaches(cat, v, u) <==> u == v || exists d :: d in Dependencies(cat[v]) && Reaches(cat, d, u)
  {
    if Reaches(cat, v, u) && u != v {
      var p :| PathFrom(cat, v, p) && p[|p| - 1] == u;
      assert p[1] in Dependencies(cat[p[0]]) && PathFrom(cat, p[1], p[1..]);
      assert p[1..][|p[1..]| - 1] == u;
    }
    if u == v {
      assert PathFrom(cat, v, [v]);
    } else if d :| d in Dependencies(cat[v]) && Reaches(cat, d, u) {
      var p :| PathFrom(cat, d, p) && p[|p| - 1] == u;
      PrependPath(cat, v, d, p);
      assert ([v] + p)[|p|] == u;
    }
  }

  // ----- the walk

  method ResolveDependencies(x: Version) returns (r: Result<set<VersionId>, SourceError>)
    ensures r == if Resolvable(x.edges) then Success(Dependencies(x)) else Failure(Unpublished)
  {
    var dependencies := x.cited;
    for n := 0 to |x.edges|
      invariant Resolvable(x.edges[..n])
      invariant dependencies == x.cited + EdgeVersions(x.edges[..n])
    {
      assert x.edges[..n + 1][..n] == x.edges[..n];
      match x.edges[n]
      case Navigation =>
      case Pinned(v) => dependencies := dependencies + {v};
      case ToRelease(release) =>
        if release.None? {
          return Failure(Unpublished);
        }
        dependencies := dependencies + {release.value};
    }
    assert x.edges[..|x.edges|] == x.edges;
    return Success(dependencies);
  }

  ghost predicate LineageOf(cat: Catalog, v: VersionId, lineage: seq<Entry>) {
    && (forall u | Reaches(cat, v, u) :: u in cat && EntryOf(cat, u) in lineage)
    && (forall e | e in lineage :: Reaches(cat, v, e.version) && e.version in cat && e == EntryOf(cat, e.version))
  }

  /** Succeeds exactly if every dependency path is within the bound and every version on one passes its checks,
      whatever the graph, cyclic or not; then the lineage lists exactly the versions that are reached. */
  method PublishedSource(cat: Catalog, v: VersionId, space: Option<string>, path: seq<VersionId>)
    returns (r: Result<seq<Entry>, SourceError>)
    requires IsPath(cat, path + [v]) && |path| <= MAX_DEPTH
    ensures r.Success? <==> AllPathsGood(cat, v, space, |path|)
    ensures r.Success? ==> LineageOf(cat, v, r.value)
    ensures r.Failure? ==> Explained(cat, v, space, |path|, r.error)
    decreases MAX_DEPTH - |path|
  {
    if v in path || |path| >= MAX_DEPTH {
      if v in path {
        RepeatIsTooLong(cat, path, v, space);
      } else {
        assert PathFrom(cat, v, [v]) && Faulty(cat, [v], space, |path|, DependencyCycle);
      }
      ExplainedIsBad(cat, v, space, |path|, DependencyCycle);
      return Failure(DependencyCycle);
    }
    var local := LocalError(cat, v, space);
    if local.Some? {
      LocalIsNotCycle(cat, v, space);
      assert PathFrom(cat, v, [v]) && Faulty(cat, [v], space, |path|, local.value);
      ExplainedIsBad(cat, v, space, |path|, local.value);
      return Failure(local.value);
    }
    var dependencies := ResolveDependencies(cat[v]);
    var lineage := [EntryOf(cat, v)];
    var remaining := dependencies.value;
    while remaining != {}
      invariant remaining <= Dependencies(cat[v])
      invariant forall d | d in Dependencies(cat[v]) && d !in remaining ::
          AllPathsGood(cat, d, Some(cat[v].space), |path| + 1) && Collected(cat, d, lineage)
      invariant EntryOf(cat, v) in lineage
      invariant forall e | e in lineage ::
                  Reaches(cat, v, e.version) && e.version in cat && e == EntryOf(cat, e.version)
      decreases remaining
    {
      var d :| d in remaining;
      remaining := remaining - {d};
      ExtendPath(cat, path, v, d);
      var child := PublishedSource(cat, d, Some(cat[v].space), path + [v]);
      if child.Failure? {
        FaultAbove(cat, v, d, space, |path|, child.error);
        ExplainedIsBad(cat, v, space, |path|, child.error);
        return child;
      }
      forall e | e in child.value ensures Reaches(cat, v, e.version) {
        ReachesThroughDependencies(cat, v, e.version);
      }
      ghost var before := lineage;
      lineage := lineage + child.value;
      assert forall e :: e in before || e in child.value ==> e in lineage;
      forall x | x in Dependencies(cat[v]) && x !in remaining ensures Collected(cat, x, lineage) {
        if x != d { assert Collected(cat, x, before); }
      }
    }
    PathsGoThroughDependencies(cat, v, space, |path|);
    forall u | Reaches(cat, v, u) ensures u in cat && EntryOf(cat, u) in lineage {
      ReachesThroughDependencies(cat, v, u);
    }
    return Success(lineage);
  }

  ghost predicate Collected(cat: Catalog, d: VersionId, lineage: seq<Entry>) {
    forall u | Reaches(cat, d, u) :: u in cat && EntryOf(cat, u) in lineage
  }

  lemma {:induction false} ExtendPath(cat: Catalog, path: seq<VersionId>, v: VersionId, d: VersionId)
    requires IsPath(cat, path + [v]) && v in cat && d in Dependencies(cat[v])
    ensures IsPath(cat, path + [v] + [d])
  {
    var p, q := path + [v], path + [v] + [d];
    forall i | 0 <= i < |q| - 1 ensures q[i] in cat && q[i + 1] in Dependencies(cat[q[i]]) {
      if i < |p| - 1 { assert q[i] == p[i] && q[i + 1] == p[i + 1]; }
    }
  }

  lemma {:induction false} LocalIsNotCycle(cat: Catalog, v: VersionId, space: Option<string>)
    ensures LocalError(cat, v, space) != Some(DependencyCycle)
  {
    if v in cat { TargetIsNotCycle(cat[v].targets, cat[v].space); }
  }

  lemma {:induction false} TargetIsNotCycle(targets: seq<Target>, space: string)
    ensures TargetError(targets, space) != Some(DependencyCycle)
  {
    if targets != [] { TargetIsNotCycle(targets[1..], space); }
  }

  /** A source that is part of a dependency cycle is always refused. */
  lemma {:induction false} CyclesAreRefused(cat: Catalog, v: VersionId, space: Option<string>, p: seq<VersionId>)
    requires PathFrom(cat, v, p) && |p| > 1 && p[|p| - 1] == v
    ensures !AllPathsGood(cat, v, space, 0)
  {
    var q := CyclesUnroll(cat, p, MAX_DEPTH);
    assert !GoodPath(cat, q, space, 0);
  }

  /** All the versions a source depends on, directly or not, lie in its own space. */
  lemma {:induction false} LineageStaysInSpace(cat: Catalog, v: VersionId, space: Option<string>, p: seq<VersionId>)
    requires AllPathsGood(cat, v, space, 0) && PathFrom(cat, v, p)
    ensures v in cat && p[|p| - 1] in cat && cat[p[|p| - 1]].space == cat[v].space
    decreases |p|
  {
    assert PathFrom(cat, v, [v]) && GoodPath(cat, [v], space, 0);
    assert GoodPath(cat, p, space, 0);
    if |p| > 1 {
      LineageStaysInSpace(cat, v, space, p[..|p| - 1]);
    }
  }
}
