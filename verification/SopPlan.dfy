/** The extractive plan built from one SOP version, and the independent check every delivered plan must pass
    (`_extractive_solution`, `_sop_coverage` and `validate_answer` of backend/fund_kb/ai.py). */
module SopPlan {
  import opened Wrappers
  import opened Evidence
  import opened Applicability
  import opened SopOrder
  import opened StableSort

  datatype Status = Answered | NeedsClarification | Conflicting | Insufficient
  datatype Citation = Citation(id: nat, resourceId: string, versionId: string, blockId: string, title: string,
                               excerpt: string, locator: Locator, contentHash: string)
  datatype Claim = Claim(id: nat, text: string, refs: seq<nat>)
  datatype PlanStep = PlanStep(id: nat, data: StepData, refs: seq<nat>, dependsOn: set<nat>)
  datatype Plan = Plan(status: Status, citations: seq<Citation>, claims: seq<Claim>, steps: Option<seq<PlanStep>>)

  const PLAN_LIMIT := 12
  const EXCERPT_LIMIT := 1600
  const UNTITLED := "untitled"

  // ----- the records both sides look at

  predicate SameBlock(a: Record, b: Record) {
    a.versionId == b.versionId && a.blockId == b.blockId
  }

  /** The usable records; of several for one block, the first. */
  function UsableRecords(evidence: seq<Record>): seq<Record> {
    if evidence == [] then []
    else
      var n := |evidence| - 1;
      var front := UsableRecords(evidence[..n]);
      if evidence[n].usable && forall r | r in front :: !SameBlock(r, evidence[n]) then front + [evidence[n]] else front
  }

  ghost predicate OnePerBlock(records: seq<Record>) {
    forall a, b | a in records && b in records && SameBlock(a, b) :: a == b
  }

  lemma {:induction false} UsableOnePerBlock(evidence: seq<Record>)
    ensures OnePerBlock(UsableRecords(evidence))
  {
    if evidence != [] {
      UsableOnePerBlock(evidence[..|evidence| - 1]);
    }
  }

  function Lookup(records: seq<Record>, versionId: string, blockId: string): (r: Option<Record>)
    ensures r.Some? ==> r.value in records && r.value.versionId == versionId && r.value.blockId == blockId
    ensures r.None? ==> forall x | x in records :: x.versionId != versionId || x.blockId != blockId
  {
    if records == [] then None
    else if records[0].versionId == versionId && records[0].blockId == blockId then Some(records[0])
    else Lookup(records[1..], versionId, blockId)
  }

  predicate OccursAt(text: string, part: string, i: int) {
    0 <= i <= |text| - |part| && text[i..i + |part|] == part
  }

  predicate Contains(text: string, part: string) {
    exists i | 0 <= i <= |text| :: OccursAt(text, part, i)
  }

  function TitleOf(r: Record): string {
    if r.title == "" then UNTITLED else r.title
  }

  predicate Registered(r: Record) {
    r.isSop && r.isStep && r.data.Some? && r.renderedText == r.text
  }

  function Select(records: seq<Record>, keep: Record -> bool): seq<Record> {
    if records == [] then []
    else Select(records[..|records| - 1], keep) + if keep(records[|records| - 1]) then [records[|records| - 1]] else []
  }

  lemma {:induction false} SelectContents(records: seq<Record>, keep: Record -> bool)
    ensures forall x :: x in Select(records, keep) <==> x in records && keep(x)
  {
    if records != [] {
      SelectContents(records[..|records| - 1], keep);
    }
  }

  // ----- coverage of the manifest

  predicate GoodManifest(m: Manifest) {
    m.Ordinals? && m.list != [] && (forall n | n in m.list :: n >= 0) && |set n | n in m.list| == |m.list|
  }

  function Expected(m: Manifest): set<int> {
    if m.Ordinals? then set n | n in m.list else {}
  }

  function OrdinalsOf(steps: seq<Record>): set<int> {
    set s | s in steps && s.ordinal.Some? :: s.ordinal.value
  }

  function Manifests(records: seq<Record>): set<Manifest> {
    set r | r in records && r.manifest.Some? :: r.manifest.value
  }

  /** There is a manifest, each one is well formed, and all list the same ordinals. */
  predicate Agreed(ms: set<Manifest>) {
    && ms != {}
    && (forall m | m in ms :: GoodManifest(m))
    && forall m, n | m in ms && n in ms :: Expected(m) == Expected(n)
  }

  function Listed(ms: set<Manifest>): set<int> {
    set m, n | m in ms && n in Expected(m) :: n
  }

  lemma {:induction false} ListedByEach(ms: set<Manifest>, m: Manifest)
    requires Agreed(ms) && m in ms
    ensures Listed(ms) == Expected(m)
  {
    forall n ensures n in Listed(ms) <==> n in Expected(m) {
      if n in Listed(ms) {
        var x :| x in ms && n in Expected(x);
        assert Expected(x) == Expected(m);
      }
    }
  }

  /** How many of the manifest's steps are absent; None when that cannot be established. */
  function Coverage(records: seq<Record>, used: seq<Record>): Option<nat> {
    if !Agreed(Manifests(records)) || !AllOrdinals(used) || |OrdinalsOf(used)| != |used|
       || !(OrdinalsOf(used) <= Listed(Manifests(records)))
    then None
    else Some(|Listed(Manifests(records)) - OrdinalsOf(used)|)
  }

  // ----- the producer

  predicate InGroup(r: Record, resourceId: string, versionId: string) {
    r.isSop && r.resourceId == resourceId && r.versionId == versionId
  }

  function Group(evidence: seq<Record>, resourceId: string, versionId: string): seq<Record> {
    Select(UsableRecords(evidence), r => InGroup(r, resourceId, versionId))
  }

  function CitationOf(r: Record, id: nat): Citation {
    Citation(id, r.resourceId, r.versionId, r.blockId, TitleOf(r),
             if |r.text| <= EXCERPT_LIMIT then r.text else r.text[..EXCERPT_LIMIT], r.locator, r.contentHash)
  }

  function DataOf(r: Record): StepData {
    if r.data.Some? then r.data.value else StepData("", "", "", "")
  }

  function CitationsOf(used: seq<Record>): (citations: seq<Citation>)
    ensures |citations| == |used| && forall i | 0 <= i < |used| :: citations[i] == CitationOf(used[i], i + 1)
  {
    seq(|used|, i requires 0 <= i < |used| => CitationOf(used[i], i + 1))
  }

  function PlanFrom(used: seq<Record>, status: Status): Plan
    requires used != []
  {
    Plan(status,
         CitationsOf(used),
         [Claim(1, DataOf(used[0]).action, [1])],
         Some(seq(|used|, i requires 0 <= i < |used| => PlanStep(i + 1, DataOf(used[i]), [i + 1], {}))))
  }

  function Bare(status: Status): Plan {
    Plan(status, [], [], None)
  }

  function ValidSteps(records: seq<Record>): seq<Record> {
    Select(records, r => Registered(r))
  }

  function Used(records: seq<Record>): seq<Record>
    requires OrderSteps(ValidSteps(records)).Some?
  {
    var ordered := OrderSteps(ValidSteps(records)).value;
    if |ordered| <= PLAN_LIMIT then ordered else ordered[..PLAN_LIMIT]
  }

  /** The records of the selected version that apply in the context. */
  function Chosen(evidence: seq<Record>, context: Context, resourceId: string, versionId: string): seq<Record> {
    Applicable(Group(evidence, resourceId, versionId), context)
  }

  /** The plan for applicable records of one version. */
  function SolutionFrom(records: seq<Record>): Plan {
    if exists r | r in records :: r.conflict then Bare(Conflicting)
    else if ValidSteps(records) == [] || OrderSteps(ValidSteps(records)).None? then Bare(Insufficient)
    else PlanFrom(Used(records), if Coverage(records, Used(records)) == Some(0) then Answered else Insufficient)
  }

  /** The plan for the selected version; which version is selected is a matter of ranking. */
  function ExtractiveSolution(evidence: seq<Record>, context: Context, resourceId: string, versionId: string): Plan {
    if Missing(Group(evidence, resourceId, versionId), context) != {} then Bare(NeedsClarification)
    else SolutionFrom(Chosen(evidence, context, resourceId, versionId))
  }

  // ----- the validator

  predicate CitationValid(c: Citation, records: seq<Record>) {
    var r := Lookup(records, c.versionId, c.blockId);
    && r.Some? && c.resourceId == r.value.resourceId && c.contentHash == r.value.contentHash
    && Contains(r.value.text, c.excerpt) && c.title == TitleOf(r.value) && c.locator == r.value.locator
  }

  predicate CitationOk(citations: seq<Citation>, records: seq<Record>, n: nat)
    requires n < |citations|
  {
    CitationValid(citations[n], records) && forall i | 0 <= i < n :: citations[i].id != citations[n].id
  }

  /** Every citation is valid and no id is used twice. */
  predicate CitationsValid(citations: seq<Citation>, records: seq<Record>) {
    forall n | 0 <= n < |citations| :: CitationOk(citations, records, n)
  }

  /** The record behind a citation id. */
  function Cited(citations: seq<Citation>, records: seq<Record>, id: nat): Option<Record> {
    CitedBelow(citations, records, id, |citations|)
  }

  function CitedBelow(citations: seq<Citation>, records: seq<Record>, id: nat, n: nat): Option<Record>
    requires n <= |citations|
  {
    if n == 0 then None
    else
      var c := citations[n - 1];
      if c.id == id then Lookup(records, c.versionId, c.blockId) else CitedBelow(citations, records, id, n - 1)
  }

  predicate ClaimValid(c: Claim, p: Plan, records: seq<Record>) {
    && (forall ref | ref in c.refs :: Cited(p.citations, records, ref).Some?)
    && exists ref | ref in c.refs :: Contains(Cited(p.citations, records, ref).value.text, c.text)
  }

  /** The registered steps among a step's citations that say exactly what the step says. */
  function Matched(s: PlanStep, p: Plan, records: seq<Record>): set<Record> {
    set ref | ref in s.refs && Cited(p.citations, records, ref).Some?
              && Registered(Cited(p.citations, records, ref).value)
              && Cited(p.citations, records, ref).value.data == Some(s.data) :: Cited(p.citations, records, ref).value
  }

  function BlockKeys(rs: set<Record>): set<(string, string)> {
    set r | r in rs :: (r.versionId, r.blockId)
  }

  predicate StepValid(i: nat, steps: seq<PlanStep>, p: Plan, records: seq<Record>)
    requires i < |steps|
  {
    && steps[i].dependsOn <= (set j | 0 <= j < i :: steps[j].id)
    && (forall ref | ref in steps[i].refs :: Cited(p.citations, records, ref).Some?)
    && |BlockKeys(Matched(steps[i], p, records))| == 1
  }

  /** `sources` are the records the steps come from: of one version, in its order, complete when that is claimed. */
  predicate SourcesValid(sources: seq<Record>, status: Status) {
    && |set s | s in sources :: (s.resourceId, s.versionId)| == 1
    && OrderSteps(sources).Some?
    && |OrderSteps(sources).value| == |sources|
    && (forall i | 0 <= i < |sources| :: OrderSteps(sources).value[i].blockId == sources[i].blockId)
    && (status == Answered ==> Coverage(sources, sources) == Some(0))
  }

  predicate DistinctClaims(claims: seq<Claim>) {
    forall i, j | 0 <= i < j < |claims| :: claims[i].id != claims[j].id
  }

  predicate DistinctSteps(steps: seq<PlanStep>) {
    forall i, j | 0 <= i < j < |steps| :: steps[i].id != steps[j].id
  }

  predicate AllStepsValid(steps: seq<PlanStep>, p: Plan, records: seq<Record>) {
    forall i | 0 <= i < |steps| :: StepValid(i, steps, p, records)
  }

  predicate AllClaimsValid(p: Plan, records: seq<Record>) {
    forall i | 0 <= i < |p.claims| :: ClaimValid(p.claims[i], p, records)
  }

  ghost predicate StepsAccepted(steps: seq<PlanStep>, p: Plan, records: seq<Record>) {
    && DistinctSteps(steps)
    && AllStepsValid(steps, p, records)
    && exists sources: seq<Record> :: Sources(steps, p, records, sources) && SourcesValid(sources, p.status)
  }

  /** What `validate_answer` demands of an extractive plan. */
  ghost predicate Accepted(p: Plan, evidence: seq<Record>) {
    var records := UsableRecords(evidence);
    && CitationsValid(p.citations, records)
    && DistinctClaims(p.claims)
    && AllClaimsValid(p, records)
    && (p.steps.Some? ==> StepsAccepted(p.steps.value, p, records))
  }

  ghost predicate Sources(steps: seq<PlanStep>, p: Plan, records: seq<Record>, sources: seq<Record>) {
    |sources| == |steps| && forall i | 0 <= i < |steps| :: sources[i] in Matched(steps[i], p, records)
  }

  // ----- the check as a computation

  lemma {:induction false} MatchedIsSingle(s: PlanStep, p: Plan, records: seq<Record>, a: Record, b: Record)
    requires OnePerBlock(records) && |BlockKeys(Matched(s, p, records))| == 1
    requires a in Matched(s, p, records) && b in Matched(s, p, records)
    ensures a == b
  {
    var keys := BlockKeys(Matched(s, p, records));
    var ka, kb := (a.versionId, a.blockId), (b.versionId, b.blockId);
    assert ka in keys && kb in keys;
    if ka != kb {
      assert {ka, kb} <= keys;
      SubsetSize({ka, kb}, keys);
    }
    MatchedAreRecords(s, p, records);
  }

  lemma {:induction false} SubsetSize<T>(a: set<T>, b: set<T>)
    requires a <= b
    ensures |a| <= |b|
  {
    if a != {} {
      var x :| x in a;
      SubsetSize(a - {x}, b - {x});
    }
  }

  lemma {:induction false} MatchedAreRecords(s: PlanStep, p: Plan, records: seq<Record>)
    ensures forall r | r in Matched(s, p, records) :: r in records
  {
    forall ref | ref in s.refs && Cited(p.citations, records, ref).Some?
      ensures Cited(p.citations, records, ref).value in records
    {
      CitedIsRecord(p.citations, records, ref, |p.citations|);
    }
  }

  lemma {:induction false} CitedIsRecord(citations: seq<Citation>, records: seq<Record>, id: nat, n: nat)
    requires n <= |citations|
    ensures CitedBelow(citations, records, id, n).Some? ==> CitedBelow(citations, records, id, n).value in records
  {
    if n > 0 {
      CitedIsRecord(citations, records, id, n - 1);
    }
  }

  lemma {:induction false} CitedIffUsed(citations: seq<Citation>, records: seq<Record>, id: nat, n: nat)
    requires n <= |citations| && forall i | 0 <= i < n :: CitationOk(citations, records, i)
    ensures CitedBelow(citations, records, id, n).Some? <==> exists i :: 0 <= i < n && citations[i].id == id
  {
    if n > 0 && citations[n - 1].id != id {
      CitedIffUsed(citations, records, id, n - 1);
    }
    if n > 0 {
      assert CitationOk(citations, records, n - 1);
    }
  }

  method CheckCitations(citations: seq<Citation>, records: seq<Record>) returns (ok: bool, cited: map<nat, Record>)
    ensures ok <==> CitationsValid(citations, records)
    ensures ok ==> forall id: nat :: Cited(citations, records, id) == if id in cited then Some(cited[id]) else None
  {
    cited := map[];
    for n := 0 to |citations|
      invariant forall i | 0 <= i < n :: CitationOk(citations, records, i)
      invariant forall id: nat :: CitedBelow(citations, records, id, n) == if id in cited then Some(cited[id]) else None
    {
      var c := citations[n];
      CitedIffUsed(citations, records, c.id, n);
      if c.id in cited || !CitationValid(c, records) {
        assert !CitationOk(citations, records, n);
        return false, map[];
      }
      cited := cited[c.id := Lookup(records, c.versionId, c.blockId).value];
    }
    return true, cited;
  }

  method CheckClaims(p: Plan, records: seq<Record>, cited: map<nat, Record>) returns (ok: bool)
    requires forall id: nat :: Cited(p.citations, records, id) == if id in cited then Some(cited[id]) else None
    ensures ok <==> DistinctClaims(p.claims) && AllClaimsValid(p, records)
  {
    var seen: set<nat> := {};
    for n := 0 to |p.claims|
      invariant seen == set i | 0 <= i < n :: p.claims[i].id
      invariant forall i, j | 0 <= i < j < n :: p.claims[i].id != p.claims[j].id
      invariant forall i | 0 <= i < n :: ClaimValid(p.claims[i], p, records)
    {
      var c := p.claims[n];
      if c.id in seen {
        var i :| 0 <= i < n && p.claims[i].id == c.id;
        return false;
      }
      seen := seen + {c.id};
      if !ClaimValid(c, p, records) {
        return false;
      }
    }
    return true;
  }

  /** The step loop: ids, dependencies and sources, in one pass. */
  method CheckSteps(steps: seq<PlanStep>, p: Plan, records: seq<Record>) returns (ok: bool, sources: seq<Record>)
    ensures ok <==> AllStepsValid(steps, p, records)
    ensures ok ==> Sources(steps, p, records, sources)
  {
    var previous: set<nat> := {};
    sources := [];
    for n := 0 to |steps|
      invariant previous == set j | 0 <= j < n :: steps[j].id
      invariant |sources| == n && forall i | 0 <= i < n :: sources[i] in Matched(steps[i], p, records)
      invariant forall i | 0 <= i < n :: StepValid(i, steps, p, records)
    {
      var s := steps[n];
      var matched := Matched(s, p, records);
      if !(s.dependsOn <= previous) || (exists ref | ref in s.refs :: Cited(p.citations, records, ref).None?)
         || |BlockKeys(matched)| != 1 {
        assert !StepValid(n, steps, p, records);
        return false, [];
      }
      previous := previous + {s.id};
      assert matched != {};
      var first :| first in matched;
      sources := sources + [first];
    }
    return true, sources;
  }

  lemma {:induction false} SourcesAreUnique(steps: seq<PlanStep>, p: Plan, records: seq<Record>,
                                            a: seq<Record>, b: seq<Record>)
    requires OnePerBlock(records) && AllStepsValid(steps, p, records)
    requires Sources(steps, p, records, a) && Sources(steps, p, records, b)
    ensures a == b
  {
    forall i | 0 <= i < |a| ensures a[i] == b[i] {
      assert StepValid(i, steps, p, records);
      MatchedIsSingle(steps[i], p, records, a[i], b[i]);
    }
  }

  method ValidateAnswer(p: Plan, evidence: seq<Record>) returns (ok: bool)
    ensures ok <==> Accepted(p, evidence)
  {
    var records := UsableRecords(evidence);
    UsableOnePerBlock(evidence);
    var citationsOk, cited := CheckCitations(p.citations, records);
    if !citationsOk {
      return false;
    }
    var claimsOk := CheckClaims(p, records, cited);
    if !claimsOk {
      return false;
    }
    if p.steps.None? {
      return true;
    }
    var steps := p.steps.value;
    if !DistinctSteps(steps) {
      return false;
    }
    var stepsOk, sources := CheckSteps(steps, p, records);
    if !stepsOk {
      return false;
    }
    ok := SourcesValid(sources, p.status);
    if !ok {
      forall other: seq<Record> | Sources(steps, p, records, other) ensures !SourcesValid(other, p.status) {
        SourcesAreUnique(steps, p, records, sources, other);
      }
    }
  }

  // ----- what the producer delivers passes the check

  /** The text of a step shows its action. */
  predicate ShowsAction(r: Record) {
    r.data.Some? ==> Contains(r.text, r.data.value.action)
  }

  /** Steps fit for a plan: registered usable records of one version. */
  predicate PlanSteps(used: seq<Record>, evidence: seq<Record>) {
    && used != []
    && (forall i | 0 <= i < |used| :: used[i] in UsableRecords(evidence) && Registered(used[i]))
    && forall i | 0 <= i < |used| :: used[i].resourceId == used[0].resourceId && used[i].versionId == used[0].versionId
  }

  lemma {:induction false} LookupFinds(records: seq<Record>, r: Record)
    requires OnePerBlock(records) && r in records
    ensures Lookup(records, r.versionId, r.blockId) == Some(r)
  {
    var found := Lookup(records, r.versionId, r.blockId);
    assert found.Some? && SameBlock(found.value, r);
  }

  lemma {:induction false} OwnLookup(r: Record, id: nat, records: seq<Record>)
    requires OnePerBlock(records) && r in records
    ensures Lookup(records, CitationOf(r, id).versionId, CitationOf(r, id).blockId) == Some(r)
    ensures CitationOf(r, id).id == id
  {
    LookupFinds(records, r);
  }

  lemma {:induction false} CitedIsUsed(used: seq<Record>, records: seq<Record>, id: nat, n: nat)
    requires OnePerBlock(records) && (forall i | 0 <= i < |used| :: used[i] in records) && n <= |used|
    ensures CitedBelow(CitationsOf(used), records, id, n) == if 1 <= id <= n then Some(used[id - 1]) else None
  {
    if n > 0 {
      CitedIsUsed(used, records, id, n - 1);
      assert CitationsOf(used)[n - 1] == CitationOf(used[n - 1], n);
      OwnLookup(used[n - 1], n, records);
    }
  }

  lemma {:induction false} OwnCitationValid(r: Record, id: nat, records: seq<Record>)
    requires OnePerBlock(records) && r in records
    ensures CitationValid(CitationOf(r, id), records)
  {
    LookupFinds(records, r);
    assert OccursAt(r.text, CitationOf(r, id).excerpt, 0);
  }

  lemma {:induction false} OwnCitationsValid(used: seq<Record>, records: seq<Record>)
    requires OnePerBlock(records) && forall i | 0 <= i < |used| :: used[i] in records
    ensures CitationsValid(CitationsOf(used), records)
  {
    forall n | 0 <= n < |used| ensures CitationOk(CitationsOf(used), records, n) {
      OwnCitationValid(used[n], n + 1, records);
    }
  }

  lemma {:induction false} MatchedByOneRef(s: PlanStep, p: Plan, records: seq<Record>, ref: nat, r: Record)
    requires s.refs == [ref] && Cited(p.citations, records, ref) == Some(r) && Registered(r) && r.data == Some(s.data)
    ensures Matched(s, p, records) == {r}
    ensures |BlockKeys(Matched(s, p, records))| == 1
  {
    assert ref in s.refs;
    assert forall x | x in s.refs :: x == ref;
    assert Matched(s, p, records) == {r};
    assert BlockKeys({r}) == {(r.versionId, r.blockId)};
  }

  lemma {:induction false} PlanStepValid(used: seq<Record>, status: Status, evidence: seq<Record>, i: nat)
    requires PlanSteps(used, evidence) && i < |used|
    ensures var p := PlanFrom(used, status);
            && StepValid(i, p.steps.value, p, UsableRecords(evidence))
            && Matched(p.steps.value[i], p, UsableRecords(evidence)) == {used[i]}
  {
    var p, records := PlanFrom(used, status), UsableRecords(evidence);
    UsableOnePerBlock(evidence);
    CitedIsUsed(used, records, i + 1, |used|);
    MatchedByOneRef(p.steps.value[i], p, records, i + 1, used[i]);
  }

  lemma {:induction false} PlanSourcesAreUsed(used: seq<Record>, status: Status, evidence: seq<Record>,
                                              sources: seq<Record>)
    requires PlanSteps(used, evidence)
    ensures var p := PlanFrom(used, status);
            Sources(p.steps.value, p, UsableRecords(evidence), sources) <==> sources == used
  {
    forall i | 0 <= i < |used| ensures var p := PlanFrom(used, status);
        Matched(p.steps.value[i], p, UsableRecords(evidence)) == {used[i]} {
      PlanStepValid(used, status, evidence, i);
    }
  }

  lemma {:induction false} PlanClaimValid(used: seq<Record>, status: Status, evidence: seq<Record>)
    requires PlanSteps(used, evidence) && ShowsAction(used[0])
    ensures var p := PlanFrom(used, status);
            |p.claims| == 1 && ClaimValid(p.claims[0], p, UsableRecords(evidence))
  {
    var p, records := PlanFrom(used, status), UsableRecords(evidence);
    UsableOnePerBlock(evidence);
    CitedIsUsed(used, records, 1, |used|);
    assert 1 in p.claims[0].refs;
  }

  lemma {:induction false} PlanStepsAccepted(used: seq<Record>, status: Status, evidence: seq<Record>)
    requires PlanSteps(used, evidence)
    ensures var p := PlanFrom(used, status);
            StepsAccepted(p.steps.value, p, UsableRecords(evidence)) <==> SourcesValid(used, status)
  {
    var p, records := PlanFrom(used, status), UsableRecords(evidence);
    var steps := p.steps.value;
    forall i | 0 <= i < |used| ensures StepValid(i, steps, p, records) {
      PlanStepValid(used, status, evidence, i);
    }
    PlanSourcesAreUsed(used, status, evidence, used);
    forall sources: seq<Record> | Sources(steps, p, records, sources) ensures sources == used {
      PlanSourcesAreUsed(used, status, evidence, sources);
    }
  }

  /** A plan built from fit steps is accepted exactly when its steps are in recoverable order
      and, if it claims to answer, the steps themselves carry and fill the manifest. */
  lemma {:induction false} PlanAccepted(used: seq<Record>, status: Status, evidence: seq<Record>)
    requires PlanSteps(used, evidence) && ShowsAction(used[0])
    ensures Accepted(PlanFrom(used, status), evidence) <==> SourcesValid(used, status)
  {
    var p := PlanFrom(used, status);
    UsableOnePerBlock(evidence);
    OwnCitationsValid(used, UsableRecords(evidence));
    PlanClaimValid(used, status, evidence);
    PlanStepsAccepted(used, status, evidence);
  }

  /** None is cut off, or those that stay are ordered by the same kind of position as all of them. */
  predicate OrderSurvivesCut(records: seq<Record>)
    requires OrderSteps(ValidSteps(records)).Some?
  {
    |ValidSteps(records)| <= PLAN_LIMIT || Choose(Used(records)) == Choose(ValidSteps(records))
  }

  lemma {:induction false} UsedIsOrdered(records: seq<Record>)
    ensures OrderSteps(ValidSteps(records)).Some? && OrderSurvivesCut(records) ==>
              OrderSteps(Used(records)) == Some(Used(records))
  {
    var steps := ValidSteps(records);
    if |steps| > 1 && OrderSteps(steps).Some? && OrderSurvivesCut(records) {
      var ordered, used := OrderSteps(steps).value, Used(records);
      OrderIsASortedPermutation(steps);
      if |steps| <= PLAN_LIMIT {
        ChooseIgnoresOrder(steps, ordered);
      }
      SortedIsFixed(used, By(Choose(steps).value));
    }
  }

  /** Steps that all carry ordinals keep their order when some are cut off. */
  lemma {:induction false} OrdinalsSurviveCut(records: seq<Record>)
    requires AllOrdinals(ValidSteps(records)) && OrderSteps(ValidSteps(records)).Some?
    ensures OrderSurvivesCut(records)
  {
    var steps := ValidSteps(records);
    if |steps| > PLAN_LIMIT {
      var ordered := OrderSteps(steps).value;
      OrderIsASortedPermutation(steps);
      SameMembers(steps, ordered);
      PrefixIsChosenByOrdinal(ordered, PLAN_LIMIT);
    }
  }

  lemma {:induction false} PrefixIsChosenByOrdinal(ordered: seq<Record>, n: nat)
    requires n <= |ordered| && AllOrdinals(ordered) && StrictlySorted(ordered, By(ByOrdinal))
    ensures Choose(ordered[..n]) == Some(ByOrdinal)
  {
    var used := ordered[..n];
    assert forall r | r in used :: r in ordered;
    forall i, j | 0 <= i < j < |used| ensures By(ByOrdinal)(used[i]) != By(ByOrdinal)(used[j]) {
      KeyLinear(By(ByOrdinal)(used[i]), By(ByOrdinal)(used[j]));
    }
    DistinctKeysDiffer(used, By(ByOrdinal));
  }

  lemma {:induction false} ChosenAreUsable(evidence: seq<Record>, context: Context,
                                           resourceId: string, versionId: string)
    ensures forall r | r in Chosen(evidence, context, resourceId, versionId) ::
              r in UsableRecords(evidence) && InGroup(r, resourceId, versionId)
  {
    forall r | r in Chosen(evidence, context, resourceId, versionId)
      ensures r in UsableRecords(evidence) && InGroup(r, resourceId, versionId)
    {
      ApplicableContents(Group(evidence, resourceId, versionId), context, r);
      SelectContents(UsableRecords(evidence), x => InGroup(x, resourceId, versionId));
    }
  }

  lemma {:induction false} UsedAreValidSteps(records: seq<Record>)
    requires ValidSteps(records) != [] && OrderSteps(ValidSteps(records)).Some?
    ensures Used(records) != [] && forall r | r in Used(records) :: r in records && Registered(r)
  {
    var steps := ValidSteps(records);
    if |steps| > 1 { OrderIsASortedPermutation(steps); }
    SameMembers(steps, OrderSteps(steps).value);
    SelectContents(records, x => Registered(x));
    forall r | r in Used(records) ensures r in records && Registered(r) {
      assert r in OrderSteps(steps).value;
    }
  }

  lemma {:induction false} UsedArePlanSteps(evidence: seq<Record>, context: Context,
                                            resourceId: string, versionId: string)
    ensures var records := Chosen(evidence, context, resourceId, versionId);
            SolutionFrom(records).steps.Some? ==>
              && OrderSteps(ValidSteps(records)).Some?
              && PlanSteps(Used(records), evidence)
              && (forall r | r in Used(records) :: r in records)
  {
    if SolutionFrom(Chosen(evidence, context, resourceId, versionId)).steps.None? {
      return;
    }
    var used := Used(Chosen(evidence, context, resourceId, versionId));
    ChosenAreUsable(evidence, context, resourceId, versionId);
    UsedAreValidSteps(Chosen(evidence, context, resourceId, versionId));
    forall i | 0 <= i < |used|
      ensures used[i] in UsableRecords(evidence) && Registered(used[i])
              && used[i].resourceId == resourceId && used[i].versionId == versionId
    {
      assert used[i] in used;
    }
  }

  /** Some step of the plan carries the version's manifest. */
  predicate CarriesManifest(used: seq<Record>) {
    exists r | r in used :: r.manifest.Some?
  }

  lemma {:induction false} CoverageOfUsed(records: seq<Record>, used: seq<Record>)
    requires Coverage(records, used) == Some(0) && forall r | r in used :: r in records
    ensures Coverage(used, used) == Some(0) <==> CarriesManifest(used)
  {
    assert Manifests(used) <= Manifests(records);
    if CarriesManifest(used) {
      var r :| r in used && r.manifest.Some?;
      assert r.manifest.value in Manifests(used);
      ListedByEach(Manifests(used), r.manifest.value);
      ListedByEach(Manifests(records), r.manifest.value);
    } else {
      assert Manifests(used) == {};
    }
  }

  /** The validator recovers the order the plan lists its steps in. */
  predicate RecoversOrder(used: seq<Record>) {
    && OrderSteps(used).Some?
    && forall i | 0 <= i < |used| :: OrderSteps(used).value[i].blockId == used[i].blockId
  }

  /** Some kind of position orders the steps among themselves, and they stand sorted by the first that does. */
  ghost predicate InOwnOrder(used: seq<Record>) {
    |used| <= 1 || (Choose(used).Some? && Sorted(used, By(Choose(used).value)))
  }

  predicate DistinctBlocks(records: seq<Record>) {
    forall i, j | 0 <= i < j < |records| :: records[i].blockId != records[j].blockId
  }

  /** Steps of distinct blocks recover their order only if it is the recovered one. */
  lemma {:induction false} BlocksTellTheOrder(steps: seq<Record>)
    requires |steps| > 1 && RecoversOrder(steps)
    requires forall i, j | 0 <= i < |steps| && 0 <= j < |steps| && steps[i].blockId == steps[j].blockId :: i == j
    ensures OrderSteps(steps) == Some(steps)
  {
    var ordered := OrderSteps(steps).value;
    OrderIsASortedPermutation(steps);
    SameMembers(steps, ordered);
    forall i | 0 <= i < |steps| ensures ordered[i] == steps[i] {
      assert ordered[i] in ordered;
      var j :| 0 <= j < |steps| && steps[j] == ordered[i];
      assert steps[j].blockId == steps[i].blockId;
    }
    assert ordered == steps;
  }

  lemma {:induction false} RecoversIffSorted(used: seq<Record>)
    requires DistinctBlocks(used)
    ensures RecoversOrder(used) <==> InOwnOrder(used)
  {
    if |used| > 1 && Choose(used).Some? {
      if Sorted(used, By(Choose(used).value)) {
        SortedIsFixed(used, By(Choose(used).value));
      }
      if RecoversOrder(used) {
        BlocksTellTheOrder(used);
        OrderIsASortedPermutation(used);
      }
    }
  }

  // ----- no block occurs twice among the steps of a plan

  predicate OneEach(records: seq<Record>) {
    forall r | r in records :: multiset(records)[r] == 1
  }

  lemma {:induction false} UsableOneEach(evidence: seq<Record>)
    ensures OneEach(UsableRecords(evidence))
  {
    if evidence != [] {
      var n := |evidence| - 1;
      UsableOneEach(evidence[..n]);
      var front := UsableRecords(evidence[..n]);
      if UsableRecords(evidence) != front {
        assert evidence[n] !in front;
        OneMoreEach(front, evidence[n]);
      }
    }
  }

  lemma {:induction false} OneMoreEach(front: seq<Record>, r: Record)
    requires OneEach(front) && r !in front
    ensures OneEach(front + [r])
  {
    assert multiset(front + [r]) == multiset(front) + multiset{r};
  }

  lemma {:induction false} FewerOneEach(s: seq<Record>, t: seq<Record>)
    requires OneEach(s) && multiset(t) <= multiset(s)
    ensures OneEach(t)
  {
    forall r | r in t ensures multiset(t)[r] == 1 {
      assert r in multiset(t) && r in multiset(s);
    }
  }

  lemma {:induction false} SelectIsFewer(records: seq<Record>, keep: Record -> bool)
    ensures multiset(Select(records, keep)) <= multiset(records)
  {
    if records != [] {
      var n := |records| - 1;
      SelectIsFewer(records[..n], keep);
      assert records == records[..n] + [records[n]];
    }
  }

  lemma {:induction false} ApplicableIsFewer(records: seq<Record>, context: Context)
    ensures multiset(Applicable(records, context)) <= multiset(records)
  {
    if records != [] {
      var n := |records| - 1;
      ApplicableIsFewer(records[..n], context);
      assert records == records[..n] + [records[n]];
    }
  }

  lemma {:induction false} UsedIsFewer(records: seq<Record>)
    requires OrderSteps(ValidSteps(records)).Some?
    ensures multiset(Used(records)) <= multiset(records)
  {
    var steps := ValidSteps(records);
    SelectIsFewer(records, r => Registered(r));
    if |steps| > 1 { OrderIsASortedPermutation(steps); }
    if |steps| > PLAN_LIMIT {
      PrefixIsFewer(OrderSteps(steps).value, PLAN_LIMIT);
    }
  }

  lemma {:induction false} PrefixIsFewer(s: seq<Record>, n: nat)
    requires n <= |s|
    ensures multiset(s[..n]) <= multiset(s)
  {
    assert s == s[..n] + s[n..];
  }

  lemma {:induction false} OneEachAreDistinct(used: seq<Record>, records: seq<Record>)
    requires OneEach(used) && OnePerBlock(records) && forall r | r in used :: r in records
    requires forall i | 0 <= i < |used| :: used[i].versionId == used[0].versionId
    ensures DistinctBlocks(used)
  {
    forall i, j | 0 <= i < j < |used| ensures used[i].blockId != used[j].blockId {
      if used[i].blockId == used[j].blockId {
        assert used[i] in used && used[j] in used && SameBlock(used[i], used[j]);
        CountedTwice(used, i, j);
      }
    }
  }

  lemma {:induction false} CountedTwice(s: seq<Record>, i: nat, j: nat)
    requires i < j < |s| && s[i] == s[j]
    ensures multiset(s)[s[i]] >= 2
  {
    assert s == s[..j] + [s[j]] + s[j + 1..];
    assert s[..j][i] == s[i];
  }

  lemma {:induction false} UsedBlocksAreDistinct(evidence: seq<Record>, context: Context,
                                                 resourceId: string, versionId: string)
    ensures var records := Chosen(evidence, context, resourceId, versionId);
            SolutionFrom(records).steps.Some? ==> DistinctBlocks(Used(records))
  {
    var records := Chosen(evidence, context, resourceId, versionId);
    if SolutionFrom(records).steps.Some? {
      UsedArePlanSteps(evidence, context, resourceId, versionId);
      UsableOneEach(evidence);
      UsableOnePerBlock(evidence);
      SelectIsFewer(UsableRecords(evidence), r => InGroup(r, resourceId, versionId));
      ApplicableIsFewer(Group(evidence, resourceId, versionId), context);
      UsedIsFewer(records);
      FewerOneEach(UsableRecords(evidence), Used(records));
      OneEachAreDistinct(Used(records), UsableRecords(evidence));
    }
  }

  lemma {:induction false} UsedSourcesValid(records: seq<Record>, used: seq<Record>, status: Status)
    requires used != [] && forall r | r in used :: r in records
    requires forall i | 0 <= i < |used| ::
               used[i].resourceId == used[0].resourceId && used[i].versionId == used[0].versionId
    requires status == Answered ==> Coverage(records, used) == Some(0)
    ensures SourcesValid(used, status) <==> RecoversOrder(used) && (status == Answered ==> CarriesManifest(used))
  {
    OneVersion(used);
    if status == Answered {
      CoverageOfUsed(records, used);
    }
  }

  lemma {:induction false} SolutionAccepted(evidence: seq<Record>, records: seq<Record>)
    requires SolutionFrom(records).steps.Some? && OrderSteps(ValidSteps(records)).Some?
    requires PlanSteps(Used(records), evidence) && forall r | r in Used(records) :: r in records
    requires ShowsAction(Used(records)[0])
    ensures Accepted(SolutionFrom(records), evidence) <==>
            RecoversOrder(Used(records))
            && (SolutionFrom(records).status == Answered ==> CarriesManifest(Used(records)))
  {
    PlanAccepted(Used(records), SolutionFrom(records).status, evidence);
    UsedSourcesValid(records, Used(records), SolutionFrom(records).status);
  }

  lemma {:induction false} UsableAreGiven(evidence: seq<Record>)
    ensures forall r | r in UsableRecords(evidence) :: r in evidence
  {
    if evidence != [] {
      UsableAreGiven(evidence[..|evidence| - 1]);
    }
  }

  lemma {:induction false} OneVersion(used: seq<Record>)
    requires used != []
    requires forall i | 0 <= i < |used| ::
               used[i].resourceId == used[0].resourceId && used[i].versionId == used[0].versionId
    ensures |set s | s in used :: (s.resourceId, s.versionId)| == 1
  {
    assert (set s | s in used :: (s.resourceId, s.versionId)) == {(used[0].resourceId, used[0].versionId)};
  }

  /** A plan the producer builds passes the check exactly if its steps stand sorted by the kind of position that they
      choose among themselves, whatever the steps cut off would have chosen, and, when it claims to answer, one of its
      own steps, not just some record, carries the manifest. */
  lemma {:induction false} ProducedPlansAreAccepted(evidence: seq<Record>, context: Context,
                                                    resourceId: string, versionId: string)
    requires forall r | r in evidence :: ShowsAction(r)
    ensures var p := ExtractiveSolution(evidence, context, resourceId, versionId);
            var records := Chosen(evidence, context, resourceId, versionId);
            Accepted(p, evidence) <==>
            (p.steps.Some? ==> InOwnOrder(Used(records)) && (p.status == Answered ==> CarriesManifest(Used(records))))
  {
    var p := ExtractiveSolution(evidence, context, resourceId, versionId);
    var records := Chosen(evidence, context, resourceId, versionId);
    if p.steps.Some? {
      UsedArePlanSteps(evidence, context, resourceId, versionId);
      UsableAreGiven(evidence);
      assert Used(records)[0] in UsableRecords(evidence);
      SolutionAccepted(evidence, records);
      UsedBlocksAreDistinct(evidence, context, resourceId, versionId);
      RecoversIffSorted(Used(records));
    }
  }

  /** With every step carrying its ordinal and the manifest, or with no more than twelve of them,
      whatever is produced passes. */
  lemma {:induction false} WellKeptVersionsPass(evidence: seq<Record>, context: Context,
                                                resourceId: string, versionId: string)
    requires forall r | r in evidence :: ShowsAction(r)
    requires forall r | r in evidence && Registered(r) :: r.manifest.Some?
    requires var steps := ValidSteps(Chosen(evidence, context, resourceId, versionId));
             |steps| <= PLAN_LIMIT || AllOrdinals(steps)
    ensures Accepted(ExtractiveSolution(evidence, context, resourceId, versionId), evidence)
  {
    ProducedPlansAreAccepted(evidence, context, resourceId, versionId);
    var p := ExtractiveSolution(evidence, context, resourceId, versionId);
    var records := Chosen(evidence, context, resourceId, versionId);
    if p.steps.Some? {
      if AllOrdinals(ValidSteps(records)) {
        OrdinalsSurviveCut(records);
      }
      UsedIsOrdered(records);
      UsedArePlanSteps(evidence, context, resourceId, versionId);
      UsedBlocksAreDistinct(evidence, context, resourceId, versionId);
      RecoversIffSorted(Used(records));
      UsableAreGiven(evidence);
      assert Used(records)[0] in UsableRecords(evidence) && Used(records)[0] in Used(records);
    }
  }

  function OrdinalOf(r: Record): int {
    if r.ordinal.Some? then r.ordinal.value else -1
  }

  predicate Ascending(steps: seq<Record>) {
    forall i, j | 0 <= i < j < |steps| :: OrdinalOf(steps[i]) < OrdinalOf(steps[j])
  }

  lemma {:induction false} OrdinalsAscend(used: seq<Record>)
    requires OrderSteps(used) == Some(used) && AllOrdinals(used)
    ensures Ascending(used)
  {
    if |used| > 1 {
      OrderIsASortedPermutation(used);
      assert Choose(used) == Some(ByOrdinal);
      forall i, j | 0 <= i < j < |used| ensures OrdinalOf(used[i]) < OrdinalOf(used[j]) {
        assert used[i] in used && used[j] in used;
        assert KeyLess(By(ByOrdinal)(used[i]), By(ByOrdinal)(used[j]));
      }
    }
  }

  predicate OrdinalsDiffer(steps: seq<Record>) {
    forall i, j | 0 <= i < j < |steps| :: OrdinalOf(steps[i]) != OrdinalOf(steps[j])
  }

  lemma {:induction false} OrdinalsLast(front: seq<Record>, last: Record)
    requires AllOrdinals(front + [last])
    ensures AllOrdinals(front) && HasOrdinal(last)
    ensures OrdinalsOf(front + [last]) == OrdinalsOf(front) + {OrdinalOf(last)}
  {
    assert forall r :: r in front + [last] <==> r in front || r == last;
    assert last in front + [last];
  }

  lemma {:induction false} OrdinalsDifferLast(front: seq<Record>, last: Record)
    requires AllOrdinals(front)
    ensures OrdinalsDiffer(front + [last]) <==> OrdinalsDiffer(front) && OrdinalOf(last) !in OrdinalsOf(front)
  {
    var steps := front + [last];
    OrdinalSeen(front, OrdinalOf(last));
    if OrdinalsDiffer(steps) {
      forall i, j | 0 <= i < j < |front| ensures OrdinalOf(front[i]) != OrdinalOf(front[j]) {
        assert OrdinalOf(steps[i]) != OrdinalOf(steps[j]);
      }
      forall i | 0 <= i < |front| ensures OrdinalOf(front[i]) != OrdinalOf(last) {
        assert OrdinalOf(steps[i]) != OrdinalOf(steps[|front|]);
      }
    }
  }

  lemma {:induction false} OrdinalsCounted(steps: seq<Record>)
    requires AllOrdinals(steps)
    ensures |OrdinalsOf(steps)| <= |steps|
    ensures |OrdinalsOf(steps)| == |steps| <==> OrdinalsDiffer(steps)
  {
    if steps != [] {
      var front, last := steps[..|steps| - 1], steps[|steps| - 1];
      assert steps == front + [last];
      OrdinalsLast(front, last);
      OrdinalsCounted(front);
      OrdinalsDifferLast(front, last);
    }
  }

  lemma {:induction false} OrdinalSeen(steps: seq<Record>, n: int)
    requires AllOrdinals(steps)
    ensures n in OrdinalsOf(steps) <==> exists i :: 0 <= i < |steps| && OrdinalOf(steps[i]) == n
  {
    if n in OrdinalsOf(steps) {
      var r :| r in steps && r.ordinal == Some(n);
      var i :| 0 <= i < |steps| && steps[i] == r;
      assert OrdinalOf(steps[i]) == n;
    }
    if i :| 0 <= i < |steps| && OrdinalOf(steps[i]) == n {
      assert steps[i] in steps;
    }
  }

  /** Steps told apart by their ordinals are in their own order exactly when the ordinals increase. */
  lemma {:induction false} AscendingIsOwnOrder(steps: seq<Record>)
    requires AllOrdinals(steps) && OrdinalsDiffer(steps)
    ensures InOwnOrder(steps) <==> Ascending(steps)
  {
    var key := By(ByOrdinal);
    forall i, j | 0 <= i < j < |steps|
      ensures key(steps[i]) != key(steps[j])
      ensures KeyLess(key(steps[j]), key(steps[i])) <==> OrdinalOf(steps[j]) < OrdinalOf(steps[i])
    {
      assert steps[i] in steps && steps[j] in steps;
      OrdinalKeys(steps[i], steps[j]);
    }
    DistinctKeysDiffer(steps, key);
    assert Choose(steps) == Some(ByOrdinal);
    assert Sorted(steps, key) <==> forall i, j | 0 <= i < j < |steps| :: !KeyLess(key(steps[j]), key(steps[i]));
  }

  lemma {:induction false} OrdinalKeys(a: Record, b: Record)
    requires HasOrdinal(a) && HasOrdinal(b)
    ensures By(ByOrdinal)(a) == By(ByOrdinal)(b) <==> OrdinalOf(a) == OrdinalOf(b)
    ensures KeyLess(By(ByOrdinal)(b), By(ByOrdinal)(a)) <==> OrdinalOf(b) < OrdinalOf(a)
  {
    var x, y := By(ByOrdinal)(a), By(ByOrdinal)(b);
    assert x == [Number(OrdinalOf(a) as real)] && y == [Number(OrdinalOf(b) as real)];
    assert x[0] == y[0] <==> OrdinalOf(a) == OrdinalOf(b);
    KeyIrreflexive(x);
  }

  /** A plan that claims to answer lists exactly the manifest's steps, each once. */
  lemma {:induction false} AnsweredPlansFillTheManifest(records: seq<Record>, m: Manifest)
    requires SolutionFrom(records).status == Answered && m in Manifests(records)
    ensures var used := Used(records);
            AllOrdinals(used) && OrdinalsOf(used) == Expected(m) && |used| == |Expected(m)| && OrdinalsDiffer(used)
  {
    FullCoverage(records, Used(records));
    ListedByEach(Manifests(records), m);
    OrdinalsCounted(Used(records));
  }

  /** It lists them in increasing order exactly when the steps stand sorted by the kind of position that they choose
      among themselves; that is so unless steps were cut off some of which have no ordinal. */
  lemma {:induction false} AnsweredPlansAscend(records: seq<Record>)
    requires SolutionFrom(records).status == Answered
    ensures Ascending(Used(records)) <==> InOwnOrder(Used(records))
    ensures |ValidSteps(records)| <= PLAN_LIMIT || AllOrdinals(ValidSteps(records)) ==> Ascending(Used(records))
  {
    var m :| m in Manifests(records);
    AnsweredPlansFillTheManifest(records, m);
    AscendingIsOwnOrder(Used(records));
    if AllOrdinals(ValidSteps(records)) {
      OrdinalsSurviveCut(records);
    }
    if |ValidSteps(records)| <= PLAN_LIMIT || AllOrdinals(ValidSteps(records)) {
      UsedIsOrdered(records);
      OrdinalsAscend(Used(records));
    }
  }

  lemma {:induction false} FullCoverage(records: seq<Record>, used: seq<Record>)
    requires Coverage(records, used) == Some(0)
    ensures Agreed(Manifests(records)) && AllOrdinals(used)
    ensures OrdinalsOf(used) == Listed(Manifests(records)) && |OrdinalsOf(used)| == |used|
  {
    var listed, seen := Listed(Manifests(records)), OrdinalsOf(used);
    assert |listed - seen| == 0;
    assert listed <= seen + (listed - seen);
  }

  /** So a plan that claims to answer passes the check exactly when its ordinals increase and one of its steps carries
      the manifest. */
  lemma {:induction false} AnsweredPlansAreAccepted(evidence: seq<Record>, context: Context,
                                                    resourceId: string, versionId: string)
    requires forall r | r in evidence :: ShowsAction(r)
    requires ExtractiveSolution(evidence, context, resourceId, versionId).status == Answered
    ensures var used := Used(Chosen(evidence, context, resourceId, versionId));
            Accepted(ExtractiveSolution(evidence, context, resourceId, versionId), evidence) <==>
            Ascending(used) && CarriesManifest(used)
  {
    ProducedPlansAreAccepted(evidence, context, resourceId, versionId);
    AnsweredPlansAscend(Chosen(evidence, context, resourceId, versionId));
  }

  // ----- what the check guarantees, whoever wrote the plan

  /** The steps carry one manifest, fill it and list it in increasing order. */
  predicate Whole(sources: seq<Record>) {
    && Agreed(Manifests(sources)) && AllOrdinals(sources)
    && OrdinalsOf(sources) == Listed(Manifests(sources))
    && Ascending(sources)
  }

  predicate OfOneVersion(sources: seq<Record>) {
    sources != [] && forall i | 0 <= i < |sources| ::
      sources[i].resourceId == sources[0].resourceId && sources[i].versionId == sources[0].versionId
  }

  lemma {:induction false} VersionsCounted(sources: seq<Record>)
    ensures |set s | s in sources :: (s.resourceId, s.versionId)| == 1 <==> OfOneVersion(sources)
  {
    var versions := set s | s in sources :: (s.resourceId, s.versionId);
    if OfOneVersion(sources) {
      OneVersion(sources);
    } else if sources == [] {
      assert versions == {};
    } else {
      var i :| 0 <= i < |sources|
               && !(sources[i].resourceId == sources[0].resourceId && sources[i].versionId == sources[0].versionId);
      var a, b := (sources[0].resourceId, sources[0].versionId), (sources[i].resourceId, sources[i].versionId);
      assert sources[0] in sources && sources[i] in sources;
      assert {a, b} <= versions;
      SubsetSize({a, b}, versions);
    }
  }

  lemma {:induction false} FullIffWhole(sources: seq<Record>)
    requires Ascending(sources)
    ensures Coverage(sources, sources) == Some(0) <==> Whole(sources)
  {
    if Coverage(sources, sources) == Some(0) {
      FullCoverage(sources, sources);
    }
    if Whole(sources) {
      OrdinalsCounted(sources);
      assert Listed(Manifests(sources)) - OrdinalsOf(sources) == {};
    }
  }

  lemma {:induction false} OrdinalsTellBlocks(sources: seq<Record>, records: seq<Record>)
    requires OnePerBlock(records) && OfOneVersion(sources) && forall r | r in sources :: r in records
    requires OrdinalsDiffer(sources)
    ensures DistinctBlocks(sources)
  {
    forall i, j | 0 <= i < j < |sources| ensures sources[i].blockId != sources[j].blockId {
      if sources[i].blockId == sources[j].blockId {
        assert sources[i] in sources && sources[j] in sources && SameBlock(sources[i], sources[j]);
      }
    }
  }

  /** For a plan that claims to answer, the last part of the check comes to this: one version, and all of the manifest
      in increasing order. */
  lemma {:induction false} AnswersAreWhole(sources: seq<Record>, evidence: seq<Record>)
    requires forall r | r in sources :: r in UsableRecords(evidence)
    ensures SourcesValid(sources, Answered) <==> OfOneVersion(sources) && Whole(sources)
  {
    VersionsCounted(sources);
    if OfOneVersion(sources) && (SourcesValid(sources, Answered) || Whole(sources)) {
      if SourcesValid(sources, Answered) {
        FullCoverage(sources, sources);
      }
      OrdinalsCounted(sources);
      UsableOnePerBlock(evidence);
      OrdinalsTellBlocks(sources, UsableRecords(evidence));
      RecoversIffSorted(sources);
      AscendingIsOwnOrder(sources);
      if Ascending(sources) {
        FullIffWhole(sources);
      }
    }
  }

  /** Whatever model or producer wrote it: an accepted plan that claims to answer takes its steps from one version,
      and they are all of that version's manifest in increasing order. */
  lemma {:induction false} AcceptedAnswersAreWhole(p: Plan, evidence: seq<Record>, sources: seq<Record>)
    requires Accepted(p, evidence) && p.status == Answered && p.steps.Some?
    requires Sources(p.steps.value, p, UsableRecords(evidence), sources)
    ensures OfOneVersion(sources) && Whole(sources)
    ensures forall m | m in Manifests(sources) ::
              OrdinalsOf(sources) == Expected(m) && |p.steps.value| == |Expected(m)|
  {
    var records, steps := UsableRecords(evidence), p.steps.value;
    UsableOnePerBlock(evidence);
    var valid: seq<Record> :| Sources(steps, p, records, valid) && SourcesValid(valid, Answered);
    SourcesAreUnique(steps, p, records, valid, sources);
    forall i | 0 <= i < |sources| ensures sources[i] in records {
      MatchedAreRecords(steps[i], p, records);
    }
    AnswersAreWhole(sources, evidence);
    OrdinalsCounted(sources);
    forall m | m in Manifests(sources)
      ensures OrdinalsOf(sources) == Expected(m) && |steps| == |Expected(m)|
    {
      ListedByEach(Manifests(sources), m);
    }
  }

  // ----- two plans that claim to answer and do not pass

  const RESOURCE_ID := "3f0c2f4e-0a51-4a2e-9d3b-5c1e7a6b8d01"
  const VERSION_ID := "a94b7d10-52c6-4e8f-b1d7-60f3c9e2a845"
  const PLAIN := Rules(Some([]), Stated([], []), None, None)
  const STEP_TEXT := "check\nops\nreport\nsigned"
  const STEP_HASH := "9a1028727d758462f33fecdf254a311136318614ddb2fe52ba4e6c6a6bb98546"
  const NOTE_HASH := "5f161c9149882e0e10124bc5dd5c11f0fbe8ec452edd52bcec76b01e9252cb33"

  function BlockId(i: nat): string
    requires i < 100
  {
    "7b1d9c02-6e44-4f0a-8a1c-2d9e4c5f60" + ['0' + (i / 10) as char, '0' + (i % 10) as char]
  }

  lemma {:induction false} BlockIdsDiffer(i: nat, j: nat)
    requires i < j < 100
    ensures BlockId(i) != BlockId(j)
  {
    var a, b := BlockId(i), BlockId(j);
    assert i / 10 != j / 10 || i % 10 != j % 10;
    assert a[34] != b[34] || a[35] != b[35];
  }

  function StepRecord(i: nat, ordinal: Option<int>, positions: map<Field, int>, manifest: Option<Manifest>): Record
    requires i < 100
  {
    Record(RESOURCE_ID, VERSION_ID, BlockId(i), "Procedure", STEP_TEXT, STEP_HASH, true, true, true,
           Some(StepData("check", "ops", "report", "signed")), STEP_TEXT, ordinal,
           Locator(positions, None, None, None, None, None), manifest, false, PLAIN)
  }

  function NoteRecord(i: nat, manifest: Option<Manifest>): Record
    requires i < 100
  {
    Record(RESOURCE_ID, VERSION_ID, BlockId(i), "Procedure", "scope", NOTE_HASH, true, true, false,
           None, "scope", None, Locator(map[], None, None, None, None, None), manifest, false, PLAIN)
  }

  /** A usable record of the version that applies anywhere and asks for nothing. */
  predicate PlainRecord(r: Record) {
    r.usable && InGroup(r, RESOURCE_ID, VERSION_ID) && r.rules == PLAIN && !r.conflict && ShowsAction(r)
  }

  predicate PlainVersion(evidence: seq<Record>) {
    DistinctBlocks(evidence) && forall r | r in evidence :: PlainRecord(r)
  }

  lemma {:induction false} SelectAll(records: seq<Record>, keep: Record -> bool)
    requires forall r | r in records :: keep(r)
    ensures Select(records, keep) == records
  {
    if records != [] {
      SelectAll(records[..|records| - 1], keep);
    }
  }

  lemma {:induction false} LastBlockIsNew(evidence: seq<Record>)
    requires evidence != [] && DistinctBlocks(evidence)
    ensures var n := |evidence| - 1;
            DistinctBlocks(evidence[..n]) && forall r | r in evidence[..n] :: !SameBlock(r, evidence[n])
  {
    var n := |evidence| - 1;
    forall r | r in evidence[..n] ensures !SameBlock(r, evidence[n]) {
      var i :| 0 <= i < n && evidence[i] == r;
    }
  }

  lemma {:induction false} AllAreUsable(evidence: seq<Record>)
    requires (forall r | r in evidence :: r.usable) && DistinctBlocks(evidence)
    ensures UsableRecords(evidence) == evidence
  {
    if evidence != [] {
      var n := |evidence| - 1;
      LastBlockIsNew(evidence);
      AllAreUsable(evidence[..n]);
      assert evidence[n] in evidence;
    }
  }

  lemma {:induction false} PlainApplies()
    ensures Applies(PLAIN, map[]) && Needs(PLAIN, map[]) == {}
  {
    assert AllOf(PLAIN) == [] && NoneOf(PLAIN) == [];
  }

  lemma {:induction false} AllApply(records: seq<Record>)
    requires forall r | r in records :: r.rules == PLAIN
    ensures Applicable(records, map[]) == records && Required(records, map[]) == {}
  {
    PlainApplies();
    if records != [] {
      var n := |records| - 1;
      AllApply(records[..n]);
      assert records[n] in records;
    }
  }

  lemma {:induction false} PlainSolution(evidence: seq<Record>)
    requires PlainVersion(evidence)
    ensures Chosen(evidence, map[], RESOURCE_ID, VERSION_ID) == evidence
    ensures ExtractiveSolution(evidence, map[], RESOURCE_ID, VERSION_ID) == SolutionFrom(evidence)
  {
    AllAreUsable(evidence);
    SelectAll(evidence, r => InGroup(r, RESOURCE_ID, VERSION_ID));
    AllApply(evidence);
  }

  lemma {:induction false} PlainStatus(evidence: seq<Record>, used: seq<Record>)
    requires (forall r | r in evidence :: !r.conflict) && ValidSteps(evidence) != []
    requires OrderSteps(ValidSteps(evidence)).Some? && used == Used(evidence) && Coverage(evidence, used) == Some(0)
    ensures used != [] && SolutionFrom(evidence) == PlanFrom(used, Answered)
  {
    UsedAreValidSteps(evidence);
  }

  lemma {:induction false} PlainAnswer(evidence: seq<Record>, used: seq<Record>)
    requires PlainVersion(evidence) && ValidSteps(evidence) != []
    requires OrderSteps(ValidSteps(evidence)).Some? && used == Used(evidence) && Coverage(evidence, used) == Some(0)
    ensures used != []
    ensures var p := ExtractiveSolution(evidence, map[], RESOURCE_ID, VERSION_ID);
            && p == PlanFrom(used, Answered)
            && (Accepted(p, evidence) <==> Ascending(used) && CarriesManifest(used))
  {
    PlainStatus(evidence, used);
    PlainSolution(evidence);
    AnsweredPlansAreAccepted(evidence, map[], RESOURCE_ID, VERSION_ID);
  }

  // thirteen steps, numbered by the locator; the ordinals of the first twelve run the other way

  function UpTo(n: nat): seq<int> {
    if n == 0 then [] else UpTo(n - 1) + [n]
  }

  lemma {:induction false} UpToIsGood(n: nat)
    ensures forall k :: k in UpTo(n) <==> 1 <= k <= n
    ensures |UpTo(n)| == n && |Expected(Ordinals(UpTo(n)))| == n
  {
    if n > 0 {
      UpToIsGood(n - 1);
      assert Expected(Ordinals(UpTo(n))) == Expected(Ordinals(UpTo(n - 1))) + {n};
    }
  }

  function LongStep(i: nat): Record
    requires i < 100
  {
    StepRecord(i, if i < PLAN_LIMIT then Some(PLAN_LIMIT - i) else None, map[StepIndex := i],
               Some(Ordinals(UpTo(PLAN_LIMIT))))
  }

  function LongSteps(n: nat): seq<Record>
    requires n <= PLAN_LIMIT + 1
  {
    seq(n, i requires 0 <= i < n => LongStep(i))
  }

  lemma {:induction false} LongBlocksDiffer(n: nat)
    requires n <= PLAN_LIMIT + 1
    ensures DistinctBlocks(LongSteps(n))
  {
    forall i, j | 0 <= i < j < n ensures LongSteps(n)[i].blockId != LongSteps(n)[j].blockId {
      BlockIdsDiffer(i, j);
    }
  }

  lemma {:induction false} StepIsPlain(r: Record)
    requires exists i: nat, ordinal, positions, manifest :: i < 100 && r == StepRecord(i, ordinal, positions, manifest)
    ensures PlainRecord(r) && Registered(r)
  {
    assert OccursAt(STEP_TEXT, "check", 0);
  }

  lemma {:induction false} LongStepsArePlain(n: nat)
    requires n <= PLAN_LIMIT + 1
    ensures PlainVersion(LongSteps(n)) && ValidSteps(LongSteps(n)) == LongSteps(n)
  {
    LongBlocksDiffer(n);
    forall r | r in LongSteps(n) ensures PlainRecord(r) && Registered(r) {
      StepIsPlain(r);
    }
    SelectAll(LongSteps(n), r => Registered(r));
  }

  lemma {:induction false} LongStepsAscend(n: nat)
    requires n <= PLAN_LIMIT + 1
    ensures Differ(LongSteps(n), By(ByField(StepIndex))) && Sorted(LongSteps(n), By(ByField(StepIndex)))
  {
    var s, key := LongSteps(n), By(ByField(StepIndex));
    forall i, j | 0 <= i < j < |s| ensures key(s[i]) != key(s[j]) && !KeyLess(key(s[j]), key(s[i])) {
      assert key(s[i])[0] != key(s[j])[0];
    }
  }

  lemma {:induction false} LongStepsCarryIndex(n: nat)
    requires PLAN_LIMIT < n <= PLAN_LIMIT + 1
    ensures var s := LongSteps(n);
            !AllOrdinals(s) && !AllHave(s, OrdinalField) && AllHave(s, StepIndex)
  {
    var s := LongSteps(n);
    assert s[PLAN_LIMIT] in s && s[PLAN_LIMIT].ordinal == None;
    assert s[0] in s && OrdinalField !in s[0].locator.positions;
  }

  lemma {:induction false} IndexIsChosen(s: seq<Record>)
    requires !AllOrdinals(s) && !AllHave(s, OrdinalField) && AllHave(s, StepIndex)
    requires KeysDistinct(s, By(ByField(StepIndex)))
    ensures Choose(s) == Some(ByField(StepIndex))
  {
    assert FieldRule(s, 0) == FieldRule(s, 1) == Some(ByField(StepIndex));
  }

  lemma {:induction false} LongStepsByIndex(n: nat)
    requires PLAN_LIMIT < n <= PLAN_LIMIT + 1
    ensures OrderSteps(LongSteps(n)) == Some(LongSteps(n))
  {
    var s, key := LongSteps(n), By(ByField(StepIndex));
    LongStepsCarryIndex(n);
    LongStepsAscend(n);
    DistinctKeysDiffer(s, key);
    IndexIsChosen(s);
    SortedIsFixed(s, key);
  }

  lemma {:induction false} LongStepsDescend()
    ensures var kept := LongSteps(PLAN_LIMIT);
            && AllOrdinals(kept) && OrdinalsDiffer(kept) && !Ascending(kept) && CarriesManifest(kept)
            && forall i | 0 <= i < PLAN_LIMIT :: OrdinalOf(kept[i]) == PLAN_LIMIT - i
  {
    var kept := LongSteps(PLAN_LIMIT);
    assert OrdinalOf(kept[1]) < OrdinalOf(kept[0]);
    assert kept[0] in kept;
  }

  lemma {:induction false} LongManifests(n: nat)
    requires 0 < n <= PLAN_LIMIT + 1
    ensures Manifests(LongSteps(n)) == {Ordinals(UpTo(PLAN_LIMIT))}
  {
    assert LongSteps(n)[0] in LongSteps(n);
  }

  lemma {:induction false} LongOrdinals()
    ensures OrdinalsOf(LongSteps(PLAN_LIMIT)) == Expected(Ordinals(UpTo(PLAN_LIMIT)))
  {
    var kept := LongSteps(PLAN_LIMIT);
    LongStepsDescend();
    UpToIsGood(PLAN_LIMIT);
    forall k ensures k in OrdinalsOf(kept) <==> 1 <= k <= PLAN_LIMIT {
      OrdinalSeen(kept, k);
      assert 1 <= k <= PLAN_LIMIT ==> OrdinalOf(kept[PLAN_LIMIT - k]) == k;
    }
  }

  lemma {:induction false} FullyCovered(records: seq<Record>, used: seq<Record>, m: Manifest)
    requires Manifests(records) == {m} && GoodManifest(m)
    requires AllOrdinals(used) && OrdinalsDiffer(used) && OrdinalsOf(used) == Expected(m)
    ensures Coverage(records, used) == Some(0)
  {
    ListedByEach({m}, m);
    OrdinalsCounted(used);
    assert Expected(m) - OrdinalsOf(used) == {};
  }

  lemma {:induction false} LongStepsAreCovered()
    ensures Coverage(LongSteps(PLAN_LIMIT + 1), LongSteps(PLAN_LIMIT)) == Some(0)
  {
    LongManifests(PLAN_LIMIT + 1);
    UpToIsGood(PLAN_LIMIT);
    LongStepsDescend();
    LongOrdinals();
    FullyCovered(LongSteps(PLAN_LIMIT + 1), LongSteps(PLAN_LIMIT), Ordinals(UpTo(PLAN_LIMIT)));
  }

  lemma {:induction false} LongStepsAreCut()
    ensures var all := LongSteps(PLAN_LIMIT + 1);
            ValidSteps(all) == all && OrderSteps(all) == Some(all) && Used(all) == LongSteps(PLAN_LIMIT)
  {
    LongStepsArePlain(PLAN_LIMIT + 1);
    LongStepsByIndex(PLAN_LIMIT + 1);
    assert LongSteps(PLAN_LIMIT + 1)[..PLAN_LIMIT] == LongSteps(PLAN_LIMIT);
  }

  /** Thirteen steps in the order of their step numbers, the last one without an ordinal. The twelve that are kept all
      have ordinals, which fill the manifest and run the other way: the plan claims to answer and does not pass. */
  lemma {:induction false} CuttingMayLoseTheOrder()
    ensures var evidence, kept := LongSteps(PLAN_LIMIT + 1), LongSteps(PLAN_LIMIT);
            var p := ExtractiveSolution(evidence, map[], RESOURCE_ID, VERSION_ID);
            && p == PlanFrom(kept, Answered)
            && (forall i | 0 <= i < PLAN_LIMIT :: OrdinalOf(kept[i]) == PLAN_LIMIT - i)
            && CarriesManifest(kept)
            && !Accepted(p, evidence)
  {
    LongStepsArePlain(PLAN_LIMIT + 1);
    LongStepsAreCut();
    LongStepsAreCovered();
    LongStepsDescend();
    PlainAnswer(LongSteps(PLAN_LIMIT + 1), LongSteps(PLAN_LIMIT));
  }

  // one step, and a note that carries the manifest

  function StepAndNote(): seq<Record> {
    [StepRecord(0, Some(1), map[], None), NoteRecord(1, Some(Ordinals([1])))]
  }

  lemma {:induction false} OneStepIsValid(step: Record, note: Record)
    requires Registered(step) && !Registered(note)
    ensures ValidSteps([step, note]) == [step]
  {
    var s, keep := [step, note], (r: Record) => Registered(r);
    assert s[..1] == [step];
    SelectAll([step], keep);
    assert Select(s, keep) == Select(s[..1], keep) + [];
  }

  lemma {:induction false} StepAndNoteIsPlain()
    ensures PlainVersion(StepAndNote()) && ValidSteps(StepAndNote()) == [StepAndNote()[0]]
  {
    var step, note := StepAndNote()[0], StepAndNote()[1];
    BlockIdsDiffer(0, 1);
    StepIsPlain(step);
    assert PlainRecord(note);
    OneStepIsValid(step, note);
    assert StepAndNote() == [step, note];
  }

  lemma {:induction false} StepIsCovered()
    ensures Coverage(StepAndNote(), [StepAndNote()[0]]) == Some(0)
  {
    var s, m := StepAndNote(), Ordinals([1]);
    assert s[1] in s && Manifests(s) == {m};
    assert Expected(m) == {1};
    ListedByEach(Manifests(s), m);
    assert s[0] in [s[0]] && OrdinalsOf([s[0]]) == {1};
  }

  /** The only step is all of the manifest, but the manifest came with another block of the version: the plan claims to
      answer and does not pass, although its order is in order. */
  lemma {:induction false} ManifestMayStandElsewhere()
    ensures var p := ExtractiveSolution(StepAndNote(), map[], RESOURCE_ID, VERSION_ID);
            && p == PlanFrom([StepAndNote()[0]], Answered)
            && InOwnOrder([StepAndNote()[0]])
            && !Accepted(p, StepAndNote())
  {
    var s := StepAndNote();
    StepAndNoteIsPlain();
    StepIsCovered();
    PlainAnswer(s, [s[0]]);
    assert !CarriesManifest([s[0]]);
  }
}
