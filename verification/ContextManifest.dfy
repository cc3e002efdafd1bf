/** What the selected evidence covers, recomputed after every pruning, and the loop that prunes it to a request
    budget (`context_manifest` of backend/fund_kb/answer_retrieval.py, `generate_answer` of backend/fund_kb/ai.py). */
module ContextManifest {
  import opened Wrappers

  // group: the number in the row's context group; groupBlocks: the blocks that group was selected with
  datatype Row = Row(versionId: string, blockId: string, group: Option<nat>, groupBlocks: Option<set<string>>,
                     groupComplete: bool, facets: set<string>, dimensions: set<string>)

  datatype Gid = Numbered(n: nat) | Single(versionId: string, blockId: string)

  datatype Plan = Plan(requirements: map<string, set<string>>, dimensions: seq<string>,
                       primaryVersion: Option<string>, detailGap: bool)

  const METHOD_FACETS: set<string> := {"valuation_method", "trading_procedure"}

  // ----- groups

  function GidOf(r: Row): Gid {
    if r.group.Some? then Numbered(r.group.value) else Single(r.versionId, r.blockId)
  }

  function BlocksOf(r: Row): set<string> {
    if r.groupBlocks.Some? then r.groupBlocks.value else {r.blockId}
  }

  predicate InGroup(evidence: seq<Row>, g: Gid, r: Row) {
    r in evidence && GidOf(r) == g
  }

  /** Every block the group was selected with is still there, and no row says otherwise. */
  predicate Complete(evidence: seq<Row>, g: Gid) {
    && (forall r | r in evidence && GidOf(r) == g :: r.groupComplete)
    && (forall r | r in evidence && GidOf(r) == g :: forall b | b in BlocksOf(r) :: Retained(evidence, g, b))
  }

  predicate Retained(evidence: seq<Row>, g: Gid, b: string) {
    exists r | r in evidence :: GidOf(r) == g && r.blockId == b
  }

  // ----- coverage

  /** Facets of complete groups only. */
  function Facets(evidence: seq<Row>): set<string> {
    set r, f | r in evidence && Complete(evidence, GidOf(r)) && f in r.facets :: f
  }

  function GroupDimensions(evidence: seq<Row>): set<string> {
    set r, d | r in evidence && Complete(evidence, GidOf(r)) && d in r.dimensions :: d
  }

  function Covered(evidence: seq<Row>, plan: Plan): set<string> {
    if plan.requirements != map[] then set d | d in plan.requirements && plan.requirements[d] <= Facets(evidence)
    else GroupDimensions(evidence)
  }

  predicate PrimaryPresent(evidence: seq<Row>, plan: Plan) {
    plan.primaryVersion.Some? && exists r | r in evidence :: r.versionId == plan.primaryVersion.value
  }

  /** Enough for a qualified explanation. */
  predicate Ready(evidence: seq<Row>, plan: Plan) {
    && (if plan.requirements != map[] then METHOD_FACETS * Facets(evidence) != {} else Covered(evidence, plan) != {})
    && PrimaryPresent(evidence, plan)
  }

  /** Nothing required is missing. */
  predicate Whole(evidence: seq<Row>, plan: Plan) {
    && Covered(evidence, plan) != {}
    && (forall d | d in plan.dimensions :: d in Covered(evidence, plan))
    && (forall r | r in evidence :: Complete(evidence, GidOf(r)))
    && !plan.detailGap
    && PrimaryPresent(evidence, plan)
  }

  // ----- the computation

  method ComputeFacets(evidence: seq<Row>) returns (facets: set<string>, dimensions: set<string>, incomplete: set<Gid>)
    ensures facets == Facets(evidence) && dimensions == GroupDimensions(evidence)
    ensures incomplete == set r | r in evidence && !Complete(evidence, GidOf(r)) :: GidOf(r)
  {
    facets, dimensions, incomplete := {}, {}, {};
    for n := 0 to |evidence|
      invariant facets == set r, f | r in evidence[..n] && Complete(evidence, GidOf(r)) && f in r.facets :: f
      invariant dimensions == set r, d | r in evidence[..n] && Complete(evidence, GidOf(r)) && d in r.dimensions :: d
      invariant incomplete == set r | r in evidence[..n] && !Complete(evidence, GidOf(r)) :: GidOf(r)
    {
      var r := evidence[n];
      assert forall x :: x in evidence[..n + 1] <==> x in evidence[..n] || x == r;
      if Complete(evidence, GidOf(r)) {
        facets := facets + r.facets;
        dimensions := dimensions + r.dimensions;
      } else {
        incomplete := incomplete + {GidOf(r)};
      }
    }
    assert evidence[..|evidence|] == evidence;
  }

  method Summarize(evidence: seq<Row>, plan: Plan) returns (covered: set<string>, ready: bool, whole: bool)
    ensures covered == Covered(evidence, plan)
    ensures ready == Ready(evidence, plan) && whole == Whole(evidence, plan)
  {
    var facets, dimensions, incomplete := ComputeFacets(evidence);
    covered := dimensions;
    if plan.requirements != map[] {
      covered := set d | d in plan.requirements && plan.requirements[d] <= facets;
    }
    var present := PrimaryPresent(evidence, plan);
    ready := if plan.requirements != map[] then METHOD_FACETS * facets != {} else covered != {};
    ready := ready && present;
    assert incomplete == {} <==> forall r | r in evidence :: Complete(evidence, GidOf(r)) by {
      forall r | r in evidence && !Complete(evidence, GidOf(r)) ensures GidOf(r) in incomplete {}
    }
    whole := covered != {} && (forall d | d in plan.dimensions :: d in covered) && incomplete == {}
             && !plan.detailGap && present;
  }

  // ----- pruning

  ghost predicate Pruned(before: seq<Row>, after: seq<Row>) {
    forall r | r in after :: r in before
  }

  /** No group that is incomplete becomes complete. */
  ghost predicate Honest(before: seq<Row>, after: seq<Row>) {
    forall r | r in after && Complete(after, GidOf(r)) :: Complete(before, GidOf(r))
  }

  /** As long as no group becomes complete by losing rows, pruning covers nothing new and makes nothing ready. */
  lemma {:induction false} HonestPruningAddsNothing(before: seq<Row>, after: seq<Row>, plan: Plan)
    requires Pruned(before, after) && Honest(before, after)
    ensures Facets(after) <= Facets(before)
    ensures Covered(after, plan) <= Covered(before, plan)
    ensures Ready(after, plan) ==> Ready(before, plan)
  {
    assert GroupDimensions(after) <= GroupDimensions(before);
  }

  /** All rows of the group name the same blocks. */
  ghost predicate SameList(evidence: seq<Row>, g: Gid, list: set<string>) {
    forall r | r in evidence && GidOf(r) == g :: BlocksOf(r) == list
  }

  /** The rows of the group that call it complete would carry the whole list by themselves. */
  predicate FlaggedAlone(evidence: seq<Row>, g: Gid, list: set<string>) {
    && (exists r | r in evidence :: GidOf(r) == g && r.groupComplete)
    && forall b | b in list :: FlaggedRow(evidence, g, b)
  }

  predicate FlaggedRow(evidence: seq<Row>, g: Gid, b: string) {
    exists r | r in evidence :: GidOf(r) == g && r.blockId == b && r.groupComplete
  }

  function Flagged(evidence: seq<Row>): seq<Row> {
    if evidence == [] then []
    else
      var n := |evidence| - 1;
      Flagged(evidence[..n]) + if evidence[n].groupComplete then [evidence[n]] else []
  }

  lemma {:induction false} FlaggedContents(evidence: seq<Row>)
    ensures forall r :: r in Flagged(evidence) <==> r in evidence && r.groupComplete
  {
    if evidence != [] {
      FlaggedContents(evidence[..|evidence| - 1]);
    }
  }

  /** Some pruning that keeps a row of the group makes an incomplete group complete. */
  ghost predicate CanBeFaked(evidence: seq<Row>, g: Gid) {
    exists after :: Fakes(evidence, g, after)
  }

  ghost predicate Fakes(evidence: seq<Row>, g: Gid, after: seq<Row>) {
    Pruned(evidence, after) && (exists r :: InGroup(after, g, r)) && Complete(after, g) && !Complete(evidence, g)
  }

  /** A group whose rows name the same blocks can be made to look complete exactly when it is incomplete
      and the rows that call it complete carry the whole list alone. */
  lemma {:induction false} FakedIffFlaggedAlone(evidence: seq<Row>, g: Gid, list: set<string>)
    requires SameList(evidence, g, list)
    ensures CanBeFaked(evidence, g) <==> !Complete(evidence, g) && FlaggedAlone(evidence, g, list)
  {
    if CanBeFaked(evidence, g) {
      var after :| Fakes(evidence, g, after);
      FakeIsFlagged(evidence, g, list, after);
    }
    if !Complete(evidence, g) && FlaggedAlone(evidence, g, list) {
      var after := Flagged(evidence);
      FlaggedContents(evidence);
      var r :| r in evidence && GidOf(r) == g && r.groupComplete;
      assert InGroup(after, g, r);
      forall b | b in list ensures Retained(after, g, b) {
        assert FlaggedRow(evidence, g, b);
      }
      assert Fakes(evidence, g, after);
    }
  }

  lemma {:induction false} FakeIsFlagged(evidence: seq<Row>, g: Gid, list: set<string>, after: seq<Row>)
    requires SameList(evidence, g, list) && Fakes(evidence, g, after)
    ensures FlaggedAlone(evidence, g, list)
  {
    var r :| InGroup(after, g, r);
    assert r in evidence && r.groupComplete;
    forall b | b in list ensures FlaggedRow(evidence, g, b) {
      assert b in BlocksOf(r) && Retained(after, g, b);
    }
  }

  /** Rows of one group agree on the blocks and on the flag, as every selected group's rows do. */
  ghost predicate Uniform(evidence: seq<Row>) {
    forall a, b | a in evidence && b in evidence && GidOf(a) == GidOf(b) ::
      BlocksOf(a) == BlocksOf(b) && a.groupComplete == b.groupComplete
  }

  lemma {:induction false} UniformGroupsAreHonest(before: seq<Row>, after: seq<Row>)
    requires Uniform(before) && Pruned(before, after)
    ensures Honest(before, after)
  {
    forall r | r in after && Complete(after, GidOf(r)) ensures Complete(before, GidOf(r)) {
      var g := GidOf(r);
      forall x, b | x in before && GidOf(x) == g && b in BlocksOf(x) ensures Retained(before, g, b) {
        assert b in BlocksOf(r) && Retained(after, g, b);
      }
    }
  }

  /** For uniform evidence, no pruning whatever adds a covered dimension or turns readiness on. */
  lemma {:induction false} CoverageIsMonotone(before: seq<Row>, after: seq<Row>, plan: Plan)
    requires Uniform(before) && Pruned(before, after)
    ensures Covered(after, plan) <= Covered(before, plan)
    ensures Ready(after, plan) ==> Ready(before, plan)
  {
    UniformGroupsAreHonest(before, after);
    HonestPruningAddsNothing(before, after, plan);
  }

  /** The same list in every row is not enough: here one row calls its group incomplete, and dropping it covers more. */
  lemma {:induction false} SameListIsNotEnough()
    ensures var good := Row("v", "a", Some(1), Some({"a"}), true, {"scope"}, {});
            var bad := good.(blockId := "b", groupComplete := false);
            var plan := Plan(map["applicability" := {"scope"}], [], None, false);
            && SameList([good, bad], Numbered(1), {"a"})
            && "applicability" !in Covered([good, bad], plan) && "applicability" in Covered([good], plan)
  {
    var good := Row("v", "a", Some(1), Some({"a"}), true, {"scope"}, {});
    var bad := good.(blockId := "b", groupComplete := false);
    var plan := Plan(map["applicability" := {"scope"}], [], None, false);
    assert bad in [good, bad] && !Complete([good, bad], Numbered(1));
    assert Facets([good, bad]) == {};
    assert good in [good] && Retained([good], Numbered(1), "a");
    assert Complete([good], GidOf(good));
    assert "scope" in Facets([good]);
  }

  // ----- pruning whole groups

  /** Every group is kept whole or dropped whole. */
  ghost predicate WholeGroups(before: seq<Row>, after: seq<Row>) {
    Pruned(before, after) && forall r, x | r in after && x in before && GidOf(r) == GidOf(x) :: x in after
  }

  lemma {:induction false} WholeGroupsStayAsTheyWere(before: seq<Row>, after: seq<Row>, r: Row)
    requires WholeGroups(before, after) && r in after
    ensures Complete(after, GidOf(r)) <==> Complete(before, GidOf(r))
  {
    forall b ensures Retained(after, GidOf(r), b) <==> Retained(before, GidOf(r), b) {
      if Retained(before, GidOf(r), b) {
        var x :| x in before && GidOf(x) == GidOf(r) && x.blockId == b;
        assert x in after;
      }
    }
  }

  lemma {:induction false} WholeGroupsAddNothing(before: seq<Row>, after: seq<Row>, plan: Plan)
    requires WholeGroups(before, after)
    ensures Covered(after, plan) <= Covered(before, plan)
    ensures Ready(after, plan) ==> Ready(before, plan)
  {
    forall r | r in after && Complete(after, GidOf(r)) ensures Complete(before, GidOf(r)) {
      WholeGroupsStayAsTheyWere(before, after, r);
    }
    HonestPruningAddsNothing(before, after, plan);
  }

  // ----- the shrinking loop

  datatype Shrunk = Sent(evidence: seq<Row>) | Baseline(evidence: seq<Row>) | BudgetExceeded

  /** Without the rows of one numbered group. */
  function Without(evidence: seq<Row>, n: nat): (rest: seq<Row>)
    ensures |rest| <= |evidence|
    ensures forall r :: r in rest <==> r in evidence && r.group != Some(n)
  {
    if evidence == [] then []
    else
      var last := evidence[|evidence| - 1];
      Without(evidence[..|evidence| - 1], n) + if last.group != Some(n) then [last] else []
  }

  lemma {:induction false} WithoutDrops(evidence: seq<Row>, n: nat)
    requires evidence != [] && evidence[|evidence| - 1].group == Some(n)
    ensures |Without(evidence, n)| < |evidence|
  {
  }

  /** Rows outside numbered groups are told apart by version and block. */
  ghost predicate UngroupedDistinct(evidence: seq<Row>) {
    forall i, j | 0 <= i < j < |evidence| && evidence[i].group.None? && evidence[j].group.None? ::
      GidOf(evidence[i]) != GidOf(evidence[j])
  }

  /** One round of pruning: the group of the last row, or the last row alone when it has none. */
  function DropLast(evidence: seq<Row>): (rest: seq<Row>)
    requires evidence != []
    ensures |rest| < |evidence|
  {
    var last := evidence[|evidence| - 1];
    if last.group.Some? then
      WithoutDrops(evidence, last.group.value);
      Without(evidence, last.group.value)
    else evidence[..|evidence| - 1]
  }

  lemma {:induction false} WithoutKeepsDistinct(evidence: seq<Row>, n: nat)
    requires UngroupedDistinct(evidence)
    ensures UngroupedDistinct(Without(evidence, n))
  {
    if evidence != [] {
      var front, last := evidence[..|evidence| - 1], evidence[|evidence| - 1];
      WithoutKeepsDistinct(front, n);
      var rest := Without(front, n);
      forall i | 0 <= i < |rest| && rest[i].group.None? && last.group.None? ensures GidOf(rest[i]) != GidOf(last) {
        assert rest[i] in front;
        var k :| 0 <= k < |front| && front[k] == rest[i];
        assert evidence[k] == rest[i];
      }
    }
  }

  lemma {:induction false} DropLastIsWhole(evidence: seq<Row>)
    requires evidence != [] && UngroupedDistinct(evidence)
    ensures WholeGroups(evidence, DropLast(evidence)) && UngroupedDistinct(DropLast(evidence))
  {
    var n := |evidence| - 1;
    var last := evidence[n];
    if last.group.Some? {
      WithoutKeepsDistinct(evidence, last.group.value);
    } else {
      forall k | 0 <= k < n ensures GidOf(evidence[k]) != GidOf(last) {
        assert evidence[k].group.None? ==> GidOf(evidence[k]) != GidOf(evidence[n]);
      }
      forall r, x | r in evidence[..n] && x in evidence && GidOf(r) == GidOf(x) ensures x in evidence[..n] {
        var m :| 0 <= m <= n && evidence[m] == x;
        assert m < n && evidence[..n][m] == x;
      }
    }
  }

  lemma {:induction false} WholeGroupsCompose(a: seq<Row>, b: seq<Row>, c: seq<Row>)
    requires WholeGroups(a, b) && WholeGroups(b, c)
    ensures WholeGroups(a, c)
  {
  }

  lemma {:induction false} PruneOnce(evidence: seq<Row>, kept: seq<Row>)
    requires kept != [] && WholeGroups(evidence, kept) && UngroupedDistinct(kept)
    ensures WholeGroups(evidence, DropLast(kept)) && UngroupedDistinct(DropLast(kept)) && |DropLast(kept)| < |kept|
  {
    DropLastIsWhole(kept);
    WholeGroupsCompose(evidence, kept, DropLast(kept));
  }

  /** The evidence after some rounds of pruning. */
  function Dropped(evidence: seq<Row>, rounds: nat): seq<Row> {
    if rounds == 0 then evidence
    else
      var before := Dropped(evidence, rounds - 1);
      if before == [] then [] else DropLast(before)
  }

  /** Prunes until the request fits. `fits` is the budget test, `settled` says that the rebuilt baseline needs no model.
      The result is the first evidence of the pruning sequence that fits or is settled. The loop always ends inside:
      its `else` branch, taken after as many rounds as there are rows, cannot be reached. */
  method ShrinkToBudget(evidence: seq<Row>, fits: seq<Row> -> bool, settled: seq<Row> -> bool)
    returns (r: Shrunk, rounds: nat)
    requires evidence != [] && UngroupedDistinct(evidence)
    ensures rounds < |evidence|
    ensures forall k | 0 <= k < rounds :: !fits(Dropped(evidence, k)) && (k > 0 ==> !settled(Dropped(evidence, k)))
    ensures r.Sent? ==> r.evidence == Dropped(evidence, rounds) != [] && fits(r.evidence)
    ensures r.Baseline? ==> r.evidence == Dropped(evidence, rounds + 1) != [] && settled(r.evidence)
    ensures r.BudgetExceeded? ==> Dropped(evidence, rounds + 1) == [] && !fits(Dropped(evidence, rounds))
    ensures !r.BudgetExceeded? ==> WholeGroups(evidence, r.evidence)
  {
    var kept, attempts := evidence, |evidence|;
    rounds := 0;
    while rounds < attempts
      invariant kept == Dropped(evidence, rounds) != [] && |kept| <= attempts - rounds && rounds <= attempts
      invariant WholeGroups(evidence, kept) && UngroupedDistinct(kept)
      invariant forall k | 0 <= k < rounds :: !fits(Dropped(evidence, k))
      invariant forall k | 0 < k <= rounds :: !settled(Dropped(evidence, k))
    {
      if fits(kept) {
        return Sent(kept), rounds;
      }
      if |kept| <= 1 {
        return BudgetExceeded, rounds;
      }
      PruneOnce(evidence, kept);
      var reduced := DropLast(kept);
      if reduced == [] {
        return BudgetExceeded, rounds;
      }
      kept := reduced;
      if settled(kept) {
        return Baseline(kept), rounds;
      }
      rounds := rounds + 1;
    }
    return BudgetExceeded, rounds;
  }
}
