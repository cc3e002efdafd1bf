/** Greedy selection of whole source groups under a row budget and a byte budget
    (`_retrieve_focused` of backend/fund_kb/answer_retrieval.py). */
module FocusedSelection {
  import opened Wrappers
  import opened ContextManifest

  datatype Block = Block(versionId: string, blockId: string, bytes: nat)
  datatype Item = Item(versionId: string, rows: seq<Block>, facets: set<string>, dimensions: set<string>,
                       complete: bool, exclusion: bool, direct: bool, ordinal: int)
  // a knowledge page, with the blocks it cites
  datatype Linked = Linked(block: Block, cites: seq<(string, string)>)

  datatype Task = Task(required: set<string>, primary: Option<string>, limit: int, maxBytes: int)

  datatype Selection = Selection(chosen: seq<Item>, count: nat, bytes: nat, covered: set<string>, omitted: seq<Item>)

  const LINKED_LIMIT := 3

  // ----- one candidate

  function Bytes(rows: seq<Block>): nat {
    if rows == [] then 0 else Bytes(rows[..|rows| - 1]) + rows[|rows| - 1].bytes
  }

  function Gain(t: Task, covered: set<string>, x: Item): set<string> {
    (x.facets * t.required) - covered
  }

  predicate IsPrimary(t: Task, x: Item) {
    t.primary == Some(x.versionId)
  }

  predicate Fits(t: Task, s: Selection, x: Item) {
    s.count + |x.rows| <= t.limit && s.bytes + Bytes(x.rows) <= t.maxBytes
  }

  function Bit(b: bool): int {
    if b then 1 else 0
  }

  /** The rank of a candidate: new facets, primary source, exclusion, directness, then fewer rows, then earlier. */
  function Rank(t: Task, covered: set<string>, x: Item): seq<int> {
    [|Gain(t, covered, x)|, Bit(IsPrimary(t, x)), Bit(x.exclusion), Bit(x.direct), -|x.rows|, -x.ordinal]
  }

  predicate Below(a: seq<int>, b: seq<int>)
    requires |a| == |b|
  {
    |a| > 0 && (a[0] < b[0] || (a[0] == b[0] && Below(a[1..], b[1..])))
  }

  predicate SameLength(rs: seq<seq<int>>, n: nat) {
    forall i | 0 <= i < |rs| :: |rs[i]| == n
  }

  /** The first of the highest ranks. */
  function FirstMax(rs: seq<seq<int>>, n: nat): (best: nat)
    requires rs != [] && SameLength(rs, n)
    ensures best < |rs|
  {
    var last := |rs| - 1;
    if last == 0 then 0
    else
      var best := FirstMax(rs[..last], n);
      if Below(rs[best], rs[last]) then last else best
  }

  lemma {:induction false} BelowIsAnOrder(a: seq<int>, b: seq<int>, c: seq<int>)
    requires |a| == |b| == |c|
    ensures !Below(a, a)
    ensures Below(a, b) && Below(b, c) ==> Below(a, c)
    ensures Below(a, b) && !Below(c, b) ==> Below(a, c)
    ensures !Below(a, b) && Below(a, c) ==> Below(b, c)
  {
    if |a| > 0 {
      BelowIsAnOrder(a[1..], b[1..], c[1..]);
    }
  }

  lemma {:induction false} FirstMaxIsFirst(rs: seq<seq<int>>, n: nat, i: nat)
    requires SameLength(rs, n) && i < |rs|
    ensures !Below(rs[FirstMax(rs, n)], rs[i])
    ensures i < FirstMax(rs, n) ==> Below(rs[i], rs[FirstMax(rs, n)])
  {
    var last, best := |rs| - 1, FirstMax(rs, n);
    BelowIsAnOrder(rs[i], rs[i], rs[i]);
    if i < last {
      var before := FirstMax(rs[..last], n);
      FirstMaxIsFirst(rs[..last], n, i);
      assert rs[..last][before] == rs[before] && rs[..last][i] == rs[i];
      BelowIsAnOrder(rs[before], rs[i], rs[last]);
      BelowIsAnOrder(rs[last], rs[i], rs[before]);
      BelowIsAnOrder(rs[before], rs[last], rs[i]);
    }
  }

  function Ranks(t: Task, covered: set<string>, xs: seq<Item>): (rs: seq<seq<int>>)
    ensures |rs| == |xs| && SameLength(rs, 6)
    ensures forall i | 0 <= i < |xs| :: rs[i] == Rank(t, covered, xs[i])
  {
    seq(|xs|, i requires 0 <= i < |xs| => Rank(t, covered, xs[i]))
  }

  /** The first candidate of highest rank. */
  function Best(t: Task, covered: set<string>, xs: seq<Item>): (best: nat)
    requires xs != []
    ensures best < |xs|
  {
    FirstMax(Ranks(t, covered, xs), 6)
  }

  lemma {:induction false} BestGainsMost(t: Task, covered: set<string>, xs: seq<Item>, i: nat)
    requires i < |xs|
    ensures |Gain(t, covered, xs[i])| <= |Gain(t, covered, xs[Best(t, covered, xs)])|
  {
    var rs := Ranks(t, covered, xs);
    FirstMaxIsFirst(rs, 6, i);
    assert rs[i][0] <= rs[Best(t, covered, xs)][0];
  }

  function Remove(xs: seq<Item>, i: nat): (rest: seq<Item>)
    requires i < |xs|
    ensures |rest| == |xs| - 1
  {
    xs[..i] + xs[i + 1..]
  }

  lemma {:induction false} RemoveContents(xs: seq<Item>, i: nat, x: Item)
    requires i < |xs| && x in xs
    ensures x in Remove(xs, i) || x == xs[i]
  {
    assert xs == xs[..i] + [xs[i]] + xs[i + 1..];
  }

  /** The pick has the highest rank, and every candidate before it ranks strictly lower. */
  lemma {:induction false} BestIsFirstMaximum(t: Task, covered: set<string>, xs: seq<Item>, i: nat)
    requires i < |xs|
    ensures var best := Best(t, covered, xs);
            && !Below(Rank(t, covered, xs[best]), Rank(t, covered, xs[i]))
            && (i < best ==> Below(Rank(t, covered, xs[i]), Rank(t, covered, xs[best])))
  {
    FirstMaxIsFirst(Ranks(t, covered, xs), 6, i);
  }

  /** What becomes of one candidate: passed over, omitted for the budget, or chosen whole. */
  function Consider(t: Task, s: Selection, x: Item): Selection {
    if Gain(t, s.covered, x) == {} && !IsPrimary(t, x) then s
    else if !Fits(t, s, x) then s.(omitted := s.omitted + [x])
    else Selection(s.chosen + [x], s.count + |x.rows|, s.bytes + Bytes(x.rows),
                   s.covered + (x.facets * t.required), s.omitted)
  }

  function Greedy(t: Task, s: Selection, remaining: seq<Item>): Selection
    decreases |remaining|
  {
    if remaining == [] then s
    else
      var best := Best(t, s.covered, remaining);
      Greedy(t, Consider(t, s, remaining[best]), Remove(remaining, best))
  }

  const NOTHING := Selection([], 0, 0, {}, [])

  function CompleteItems(items: seq<Item>): seq<Item> {
    if items == [] then []
    else CompleteItems(items[..|items| - 1]) + if items[|items| - 1].complete then [items[|items| - 1]] else []
  }

  // ----- what holds of every selection

  function TotalRows(xs: seq<Item>): nat {
    if xs == [] then 0 else TotalRows(xs[..|xs| - 1]) + |xs[|xs| - 1].rows|
  }

  function TotalBytes(xs: seq<Item>): nat {
    if xs == [] then 0 else TotalBytes(xs[..|xs| - 1]) + Bytes(xs[|xs| - 1].rows)
  }

  /** The books agree with the chosen groups, and the budgets hold. */
  ghost predicate Kept(t: Task, s: Selection) {
    && s.count == TotalRows(s.chosen) && s.bytes == TotalBytes(s.chosen)
    && (s.chosen != [] ==> s.count <= t.limit && s.bytes <= t.maxBytes)
    && s.covered == set x, f | x in s.chosen && f in x.facets * t.required :: f
  }

  lemma {:induction false} ConsiderKeeps(t: Task, s: Selection, x: Item)
    requires Kept(t, s)
    ensures Kept(t, Consider(t, s, x))
  {
    var after := Consider(t, s, x);
    if after.chosen != s.chosen {
      assert after.chosen[..|s.chosen|] == s.chosen;
      assert forall y :: y in after.chosen <==> y in s.chosen || y == x;
    }
  }

  lemma {:induction false} GreedyKeeps(t: Task, s: Selection, remaining: seq<Item>)
    requires Kept(t, s)
    ensures Kept(t, Greedy(t, s, remaining))
    decreases |remaining|
  {
    if remaining != [] {
      var best := Best(t, s.covered, remaining);
      ConsiderKeeps(t, s, remaining[best]);
      GreedyKeeps(t, Consider(t, s, remaining[best]), Remove(remaining, best));
    }
  }

  /** A later stage of the same selection. */
  ghost predicate Later(s: Selection, after: Selection) {
    && s.chosen <= after.chosen && s.omitted <= after.omitted
    && s.count <= after.count && s.bytes <= after.bytes && s.covered <= after.covered
  }

  lemma {:induction false} GreedyIsLater(t: Task, s: Selection, remaining: seq<Item>)
    ensures Later(s, Greedy(t, s, remaining))
    decreases |remaining|
  {
    if remaining != [] {
      var best := Best(t, s.covered, remaining);
      GreedyIsLater(t, Consider(t, s, remaining[best]), Remove(remaining, best));
    }
  }

  /** Nothing a budget could still buy was left out: the candidate is chosen, or adds no required facet
      and is not from the primary source, or does not fit what is left of the budgets. */
  predicate Settled(t: Task, s: Selection, x: Item) {
    x in s.chosen || (Gain(t, s.covered, x) == {} && !IsPrimary(t, x)) || !Fits(t, s, x)
  }

  lemma {:induction false} SettledStays(t: Task, s: Selection, after: Selection, x: Item)
    requires Later(s, after) && Settled(t, s, x)
    ensures Settled(t, after, x)
  {
  }

  lemma {:induction false} GreedySettlesAll(t: Task, s: Selection, remaining: seq<Item>, x: Item)
    requires x in remaining
    ensures Settled(t, Greedy(t, s, remaining), x)
    decreases |remaining|
  {
    var best := Best(t, s.covered, remaining);
    var after, rest := Consider(t, s, remaining[best]), Remove(remaining, best);
    RemoveContents(remaining, best, x);
    if x in rest {
      GreedySettlesAll(t, after, rest, x);
    } else {
      GreedyIsLater(t, after, rest);
      SettledStays(t, after, Greedy(t, after, rest), x);
    }
  }

  lemma {:induction false} RemoveSplits(xs: seq<Item>, i: nat)
    requires i < |xs|
    ensures multiset(xs) == multiset(Remove(xs, i)) + multiset{xs[i]}
  {
    assert xs == xs[..i] + [xs[i]] + xs[i + 1..];
  }

  lemma {:induction false} ConsiderChooses(t: Task, s: Selection, x: Item)
    ensures multiset(Consider(t, s, x).chosen) <= multiset(s.chosen) + multiset{x}
  {
  }

  lemma {:induction false} ChosenAddUp(before: multiset<Item>, after: multiset<Item>, end: multiset<Item>,
                                       all: multiset<Item>, rest: multiset<Item>, x: Item)
    requires end <= after + rest && after <= before + multiset{x} && all == rest + multiset{x}
    ensures end <= before + all
  {
  }

  /** Every group chosen was a candidate, and was chosen at most as often as it was offered. */
  lemma {:induction false} GreedyChoosesCandidates(t: Task, s: Selection, remaining: seq<Item>)
    ensures multiset(Greedy(t, s, remaining).chosen) <= multiset(s.chosen) + multiset(remaining)
    decreases |remaining|
  {
    if remaining != [] {
      var best := Best(t, s.covered, remaining);
      var after, rest := Consider(t, s, remaining[best]), Remove(remaining, best);
      RemoveSplits(remaining, best);
      ConsiderChooses(t, s, remaining[best]);
      GreedyChoosesCandidates(t, after, rest);
      ChosenAddUp(multiset(s.chosen), multiset(after.chosen), multiset(Greedy(t, after, rest).chosen),
                  multiset(remaining), multiset(rest), remaining[best]);
    }
  }

  /** Facets first: once the best candidate adds no required facet, no later one does. */
  lemma {:induction false} NoGainForGood(t: Task, s: Selection, remaining: seq<Item>)
    requires remaining != [] && Gain(t, s.covered, remaining[Best(t, s.covered, remaining)]) == {}
    ensures Greedy(t, s, remaining).covered == s.covered
    decreases |remaining|
  {
    var best := Best(t, s.covered, remaining);
    var after, rest := Consider(t, s, remaining[best]), Remove(remaining, best);
    assert forall f | f in remaining[best].facets * t.required :: f !in Gain(t, s.covered, remaining[best]);
    assert after.covered == s.covered;
    forall i | 0 <= i < |rest| ensures Gain(t, s.covered, rest[i]) == {} {
      var k := if i < best then i else i + 1;
      BestGainsMost(t, s.covered, remaining, k);
      assert rest[i] == remaining[k] && |Gain(t, s.covered, remaining[k])| == 0;
    }
    if rest != [] {
      NoGainForGood(t, after, rest);
    }
  }

  /** A required facet that stays uncovered occurs only in complete groups too large for what is left. */
  lemma {:induction false} UncoveredFacetsDoNotFit(t: Task, items: seq<Item>, x: Item, f: string)
    requires x in CompleteItems(items) && f in x.facets * t.required
    requires f !in Greedy(t, NOTHING, CompleteItems(items)).covered
    ensures !Fits(t, Greedy(t, NOTHING, CompleteItems(items)), x)
  {
    var s := Greedy(t, NOTHING, CompleteItems(items));
    GreedySettlesAll(t, NOTHING, CompleteItems(items), x);
    GreedyKeeps(t, NOTHING, CompleteItems(items));
    assert f in Gain(t, s.covered, x);
  }

  // ----- knowledge pages that cite a chosen block

  function Cited(s: Selection): set<(string, string)> {
    set x, r | x in s.chosen && r in x.rows :: (r.versionId, r.blockId)
  }

  predicate CitesChosen(s: Selection, k: Linked) {
    exists c | c in k.cites :: c in Cited(s)
  }

  datatype Links = Links(pages: seq<Linked>, bytes: nat)

  predicate Room(t: Task, s: Selection, l: Links, k: Linked) {
    |l.pages| < LINKED_LIMIT && s.count + |l.pages| < t.limit && s.bytes + l.bytes + k.block.bytes <= t.maxBytes
  }

  function PageBytes(pages: seq<Linked>): nat {
    if pages == [] then 0 else PageBytes(pages[..|pages| - 1]) + pages[|pages| - 1].block.bytes
  }

  // ----- the evidence

  function RowsOf(x: Item, group: nat): (rows: seq<Row>)
    ensures |rows| == |x.rows|
  {
    seq(|x.rows|, i requires 0 <= i < |x.rows| =>
      Row(x.rows[i].versionId, x.rows[i].blockId, Some(group), Some(set r | r in x.rows :: r.blockId), true,
          x.facets, x.dimensions))
  }

  /** The rows of the chosen groups, each group numbered and whole. */
  function EvidenceOf(chosen: seq<Item>): seq<Row> {
    if chosen == [] then []
    else EvidenceOf(chosen[..|chosen| - 1]) + RowsOf(chosen[|chosen| - 1], |chosen|)
  }

  lemma {:induction false} EvidenceRows(chosen: seq<Item>, r: Row)
    requires r in EvidenceOf(chosen)
    ensures r.group.Some? && 1 <= r.group.value <= |chosen|
    ensures r in RowsOf(chosen[r.group.value - 1], r.group.value)
  {
    var n := |chosen| - 1;
    if r in EvidenceOf(chosen[..n]) {
      EvidenceRows(chosen[..n], r);
    }
  }

  lemma {:induction false} EvidenceHasGroup(chosen: seq<Item>, n: nat, i: nat)
    requires n < |chosen| && i < |chosen[n].rows|
    ensures RowsOf(chosen[n], n + 1)[i] in EvidenceOf(chosen)
  {
    if n == |chosen| - 1 {
      assert RowsOf(chosen[n], n + 1)[i] in RowsOf(chosen[n], n + 1);
    } else {
      EvidenceHasGroup(chosen[..|chosen| - 1], n, i);
    }
  }

  /** Selected evidence has complete, uniform groups, so that whatever is pruned from it later,
      its coverage never claims more than was selected. */
  lemma {:induction false} SelectedGroupsAreComplete(chosen: seq<Item>)
    ensures Uniform(EvidenceOf(chosen))
    ensures forall r | r in EvidenceOf(chosen) :: Complete(EvidenceOf(chosen), GidOf(r))
  {
    var e := EvidenceOf(chosen);
    forall a, b | a in e && b in e && GidOf(a) == GidOf(b)
      ensures BlocksOf(a) == BlocksOf(b) && a.groupComplete == b.groupComplete
    {
      EvidenceRows(chosen, a);
      EvidenceRows(chosen, b);
    }
    forall r, x, b | r in e && x in e && GidOf(x) == GidOf(r) && b in BlocksOf(x)
      ensures x.groupComplete && Retained(e, GidOf(r), b)
    {
      EvidenceRows(chosen, x);
      var n := x.group.value - 1;
      var i :| 0 <= i < |chosen[n].rows| && chosen[n].rows[i].blockId == b;
      EvidenceHasGroup(chosen, n, i);
    }
    forall r, x | r in e && x in e && GidOf(x) == GidOf(r) ensures x.groupComplete {
      EvidenceRows(chosen, x);
    }
  }

  /** The manifest of the selected evidence reports exactly the facets the selection covered. */
  lemma {:induction false} ManifestReportsSelection(t: Task, s: Selection)
    requires Kept(t, s) && forall x | x in s.chosen :: x.rows != []
    ensures Facets(EvidenceOf(s.chosen)) * t.required == s.covered
  {
    var e := EvidenceOf(s.chosen);
    SelectedGroupsAreComplete(s.chosen);
    forall f | f in s.covered ensures f in Facets(e) {
      var x :| x in s.chosen && f in x.facets * t.required;
      var n :| 0 <= n < |s.chosen| && s.chosen[n] == x;
      EvidenceHasGroup(s.chosen, n, 0);
      var r := RowsOf(s.chosen[n], n + 1)[0];
      assert r in e && Complete(e, GidOf(r)) && f in r.facets;
    }
    forall f | f in Facets(e) * t.required ensures f in s.covered {
      var r :| r in e && Complete(e, GidOf(r)) && f in r.facets;
      EvidenceRows(s.chosen, r);
      var x := s.chosen[r.group.value - 1];
      assert x in s.chosen && f in x.facets * t.required;
    }
  }

  // ----- the selection as it runs

  method ConsiderItem(t: Task, before: Selection, x: Item) returns (s: Selection)
    ensures s == Consider(t, before, x)
  {
    s := before;
    var newFacets := Gain(t, s.covered, x);
    if newFacets == {} && !IsPrimary(t, x) {
      return;
    }
    var size := Bytes(x.rows);
    if s.count + |x.rows| > t.limit || s.bytes + size > t.maxBytes {
      s := s.(omitted := s.omitted + [x]);
      return;
    }
    s := s.(chosen := s.chosen + [x], count := s.count + |x.rows|, bytes := s.bytes + size,
            covered := s.covered + (x.facets * t.required));
  }

  method SelectGroups(t: Task, items: seq<Item>) returns (s: Selection)
    ensures s == Greedy(t, NOTHING, CompleteItems(items))
  {
    var remaining := CompleteItems(items);
    s := NOTHING;
    while remaining != []
      invariant Greedy(t, s, remaining) == Greedy(t, NOTHING, CompleteItems(items))
      decreases |remaining|
    {
      var best := Best(t, s.covered, remaining);
      var x := remaining[best];
      remaining := Remove(remaining, best);
      s := ConsiderItem(t, s, x);
    }
  }

  /** The pages taken of the first n candidates: within the limits, and none passed over that there was room for. */
  predicate Linking(t: Task, s: Selection, candidates: seq<Linked>, l: Links, n: nat) {
    && |l.pages| <= LINKED_LIMIT && l.bytes == PageBytes(l.pages)
    && (l.pages != [] ==> s.count + |l.pages| <= t.limit && s.bytes + l.bytes <= t.maxBytes)
    && (forall k | k in l.pages :: k in candidates && CitesChosen(s, k))
    && n <= |candidates| && forall i | 0 <= i < n :: SettledPage(t, s, l, candidates[i])
  }

  predicate SettledPage(t: Task, s: Selection, l: Links, k: Linked) {
    CitesChosen(s, k) ==> k in l.pages || !Room(t, s, l, k)
  }

  function WithPage(l: Links, k: Linked): Links {
    Links(l.pages + [k], l.bytes + k.block.bytes)
  }

  lemma {:induction false} TakePage(t: Task, s: Selection, candidates: seq<Linked>, l: Links, n: nat)
    requires Linking(t, s, candidates, l, n) && n < |candidates|
    requires CitesChosen(s, candidates[n]) && Room(t, s, l, candidates[n])
    ensures Linking(t, s, candidates, WithPage(l, candidates[n]), n + 1)
  {
    var k, more := candidates[n], WithPage(l, candidates[n]);
    assert more.pages[..|l.pages|] == l.pages;
    forall i | 0 <= i < n + 1 ensures SettledPage(t, s, more, candidates[i]) {
      if i < n {
        assert SettledPage(t, s, l, candidates[i]);
      }
    }
  }

  /** Knowledge pages citing a chosen block, in their order, after the groups have had their share of the budgets. */
  method LinkPages(t: Task, s: Selection, candidates: seq<Linked>) returns (l: Links)
    ensures |l.pages| <= LINKED_LIMIT && l.bytes == PageBytes(l.pages)
    ensures l.pages != [] ==> s.count + |l.pages| <= t.limit && s.bytes + l.bytes <= t.maxBytes
    ensures forall k | k in l.pages :: k in candidates && CitesChosen(s, k)
    ensures forall i | 0 <= i < |candidates| :: SettledPage(t, s, l, candidates[i])
  {
    l := Links([], 0);
    for n := 0 to |candidates|
      invariant Linking(t, s, candidates, l, n)
    {
      if CitesChosen(s, candidates[n]) && Room(t, s, l, candidates[n]) {
        TakePage(t, s, candidates, l, n);
        l := WithPage(l, candidates[n]);
      }
    }
  }

  /** Budgets kept, groups whole, and no complete group left out that the final budgets could still take. */
  method RetrieveFocused(t: Task, items: seq<Item>, pages: seq<Linked>)
    returns (s: Selection, l: Links, evidence: seq<Row>)
    ensures evidence == EvidenceOf(s.chosen) && |evidence| == s.count
    ensures s.chosen != [] || l.pages != [] ==>
              s.count + |l.pages| <= t.limit && TotalBytes(s.chosen) + PageBytes(l.pages) <= t.maxBytes
    ensures multiset(s.chosen) <= multiset(CompleteItems(items))
    ensures s.covered == set x, f | x in s.chosen && f in x.facets * t.required :: f
    ensures forall x | x in CompleteItems(items) ::
              || x in s.chosen
              || (x.facets * t.required <= s.covered && !IsPrimary(t, x))
              || s.count + |l.pages| + |x.rows| > t.limit
              || TotalBytes(s.chosen) + PageBytes(l.pages) + Bytes(x.rows) > t.maxBytes
  {
    s := SelectGroups(t, items);
    l := LinkPages(t, s, pages);
    evidence := EvidenceOf(s.chosen);
    GreedyKeeps(t, NOTHING, CompleteItems(items));
    GreedyChoosesCandidates(t, NOTHING, CompleteItems(items));
    EvidenceSize(s.chosen);
    forall x | x in CompleteItems(items) ensures Settled(t, s, x) {
      GreedySettlesAll(t, NOTHING, CompleteItems(items), x);
    }
    forall x | x in CompleteItems(items) && Gain(t, s.covered, x) == {} ensures x.facets * t.required <= s.covered {
      assert forall f | f in x.facets * t.required :: f !in Gain(t, s.covered, x);
    }
  }

  lemma {:induction false} EvidenceSize(chosen: seq<Item>)
    ensures |EvidenceOf(chosen)| == TotalRows(chosen)
  {
    if chosen != [] {
      EvidenceSize(chosen[..|chosen| - 1]);
    }
  }
}
