/** Groups of rows taken first come, first served under two budgets (`add_group` inside `retrieve_answer_context` of
    backend/fund_kb/answer_retrieval.py), and which of them the manifest then reports as complete. */
module GroupBudget {
  import opened Wrappers
  import opened ContextManifest

  type Key = (string, string)
  // endsSentence: whether the row's text ends a sentence
  datatype Line = Line(versionId: string, blockId: string, bytes: nat, endsSentence: bool)
  datatype Offer = Offer(rows: seq<Line>, dimension: Option<string>)
  datatype Group = Group(rows: seq<Line>, offer: Offer)
  datatype Budget = Budget(limit: int, maxBytes: int)
  datatype Book = Book(groups: seq<Group>, seen: set<Key>, bytes: nat)

  const ACCOUNTING_ENTRIES := "accounting_entries"
  const BLANK := Book([], {}, 0)

  // ----- taking one group

  function KeyOf(l: Line): Key {
    (l.versionId, l.blockId)
  }

  function Keys(rows: seq<Line>): set<Key> {
    set l | l in rows :: KeyOf(l)
  }

  /** The rows not taken by an earlier group, in order. */
  function Unseen(rows: seq<Line>, seen: set<Key>, n: nat): seq<Line>
    requires n <= |rows|
  {
    if n == 0 then []
    else Unseen(rows, seen, n - 1) + if KeyOf(rows[n - 1]) in seen then [] else [rows[n - 1]]
  }

  function Bytes(rows: seq<Line>): nat {
    if rows == [] then 0 else Bytes(rows[..|rows| - 1]) + rows[|rows| - 1].bytes
  }

  function CountBelow(groups: seq<Group>, n: nat): nat
    requires n <= |groups|
  {
    if n == 0 then 0 else CountBelow(groups, n - 1) + |groups[n - 1].rows|
  }

  function BytesBelow(groups: seq<Group>, n: nat): nat
    requires n <= |groups|
  {
    if n == 0 then 0 else BytesBelow(groups, n - 1) + Bytes(groups[n - 1].rows)
  }

  function KeysBelow(groups: seq<Group>, n: nat): set<Key>
    requires n <= |groups|
  {
    if n == 0 then {} else KeysBelow(groups, n - 1) + Keys(groups[n - 1].rows)
  }

  function FreshOf(s: Book, o: Offer): seq<Line> {
    Unseen(o.rows, s.seen, |o.rows|)
  }

  predicate Affordable(b: Budget, s: Book, rows: seq<Line>) {
    CountBelow(s.groups, |s.groups|) + |rows| <= b.limit && s.bytes + Bytes(rows) <= b.maxBytes
  }

  function Add(b: Budget, s: Book, o: Offer): Book {
    var unseen := FreshOf(s, o);
    if unseen == [] || !Affordable(b, s, unseen) then s
    else Book(s.groups + [Group(unseen, o)], s.seen + Keys(unseen), s.bytes + Bytes(unseen))
  }

  function AddAll(b: Budget, offers: seq<Offer>, n: nat): Book
    requires n <= |offers|
  {
    if n == 0 then BLANK else Add(b, AddAll(b, offers, n - 1), offers[n - 1])
  }

  // ----- the invariant

  /** Group n holds, of what was offered, what no group before it holds. */
  predicate TookTheRest(groups: seq<Group>, n: nat)
    requires n < |groups|
  {
    var g := groups[n];
    g.rows != [] && g.rows == Unseen(g.offer.rows, KeysBelow(groups, n), |g.offer.rows|)
  }

  /** The books agree with the groups, and both budgets hold. */
  ghost predicate InBudget(b: Budget, s: Book) {
    var n := |s.groups|;
    && s.bytes == BytesBelow(s.groups, n) && s.seen == KeysBelow(s.groups, n)
    && (n > 0 ==> CountBelow(s.groups, n) <= b.limit && s.bytes <= b.maxBytes)
    && forall i | 0 <= i < n :: TookTheRest(s.groups, i)
  }

  lemma {:induction false} PrefixTotals(groups: seq<Group>, g: Group, n: nat)
    requires n <= |groups|
    ensures CountBelow(groups + [g], n) == CountBelow(groups, n)
    ensures BytesBelow(groups + [g], n) == BytesBelow(groups, n)
    ensures KeysBelow(groups + [g], n) == KeysBelow(groups, n)
  {
    if n > 0 {
      PrefixTotals(groups, g, n - 1);
    }
  }

  lemma {:induction false} AddStaysInBudget(b: Budget, s: Book, o: Offer)
    requires InBudget(b, s)
    ensures InBudget(b, Add(b, s, o))
    ensures s.groups <= Add(b, s, o).groups
  {
    var after := Add(b, s, o);
    if after != s {
      var n := |s.groups|;
      PrefixTotals(s.groups, after.groups[n], n);
      forall i | 0 <= i <= n ensures TookTheRest(after.groups, i) {
        PrefixTotals(s.groups, after.groups[n], i);
        if i < n {
          assert TookTheRest(s.groups, i);
        }
      }
    }
  }

  /** Whatever is offered in whatever order: within both budgets, and no group is given up for a later one. */
  lemma {:induction false} AllStayInBudget(b: Budget, offers: seq<Offer>, m: nat, n: nat)
    requires m <= n <= |offers|
    ensures InBudget(b, AddAll(b, offers, n))
    ensures AddAll(b, offers, m).groups <= AddAll(b, offers, n).groups
    decreases n
  {
    if n > 0 {
      AllStayInBudget(b, offers, if m < n then m else n - 1, n - 1);
      AddStaysInBudget(b, AddAll(b, offers, n - 1), offers[n - 1]);
    }
  }

  lemma {:induction false} UnseenContents(rows: seq<Line>, seen: set<Key>, n: nat, l: Line)
    requires n <= |rows|
    ensures l in Unseen(rows, seen, n) <==> l in rows[..n] && KeyOf(l) !in seen
  {
    if n > 0 {
      UnseenContents(rows, seen, n - 1, l);
      assert rows[..n] == rows[..n - 1] + [rows[n - 1]];
    }
  }

  lemma {:induction false} KeysOfEarlier(groups: seq<Group>, i: nat, n: nat)
    requires i < n <= |groups|
    ensures Keys(groups[i].rows) <= KeysBelow(groups, n)
  {
    if i < n - 1 {
      KeysOfEarlier(groups, i, n - 1);
    }
  }

  /** No block is in two groups. */
  lemma {:induction false} GroupsShareNoBlock(b: Budget, s: Book, i: nat, j: nat)
    requires InBudget(b, s) && i < j < |s.groups|
    ensures Keys(s.groups[i].rows) !! Keys(s.groups[j].rows)
  {
    KeysOfEarlier(s.groups, i, j);
    assert TookTheRest(s.groups, j);
    var g := s.groups[j];
    forall l | l in g.rows ensures KeyOf(l) !in KeysBelow(s.groups, j) {
      UnseenContents(g.offer.rows, KeysBelow(s.groups, j), |g.offer.rows|, l);
    }
  }

  // ----- what the manifest makes of it

  /** The group's own claim: its last offered row ends a sentence, or it is a journal of entries. */
  predicate Closed(o: Offer) {
    o.rows != [] && (o.rows[|o.rows| - 1].endsSentence || o.dimension == Some(ACCOUNTING_ENTRIES))
  }

  function Blocks(o: Offer): set<string> {
    set l | l in o.rows :: l.blockId
  }

  function RowOf(g: Group, id: nat, l: Line): Row {
    Row(l.versionId, l.blockId, Some(id), Some(Blocks(g.offer)), Closed(g.offer), {},
        if g.offer.dimension.Some? then {g.offer.dimension.value} else {})
  }

  function RowsOf(g: Group, id: nat): (rows: seq<Row>)
    ensures |rows| == |g.rows| && forall i | 0 <= i < |rows| :: rows[i] == RowOf(g, id, g.rows[i])
  {
    seq(|g.rows|, i requires 0 <= i < |g.rows| => RowOf(g, id, g.rows[i]))
  }

  function Evidence(groups: seq<Group>, n: nat): seq<Row>
    requires n <= |groups|
  {
    if n == 0 then [] else Evidence(groups, n - 1) + RowsOf(groups[n - 1], n)
  }

  /** The rows of one group in the evidence are the rows the group took. */
  lemma {:induction false} EvidenceOfGroup(groups: seq<Group>, n: nat, id: nat, r: Row)
    requires n <= |groups| && 1 <= id <= n
    ensures r in Evidence(groups, n) && GidOf(r) == Numbered(id) <==> r in RowsOf(groups[id - 1], id)
  {
    if id < n {
      EvidenceOfGroup(groups, n - 1, id, r);
    } else if r in Evidence(groups, n - 1) {
      EvidenceIds(groups, n - 1, r);
    }
  }

  lemma {:induction false} EvidenceIds(groups: seq<Group>, n: nat, r: Row)
    requires n <= |groups| && r in Evidence(groups, n)
    ensures r.group.Some? && 1 <= r.group.value <= n
  {
    if r in Evidence(groups, n - 1) {
      EvidenceIds(groups, n - 1, r);
    }
  }

  /** Rows of one group come from one source version. */
  predicate OneVersion(o: Offer) {
    forall i, j | 0 <= i < |o.rows| && 0 <= j < |o.rows| :: o.rows[i].versionId == o.rows[j].versionId
  }

  /** None of what was offered had been taken before. */
  predicate AllFresh(s: Book, i: nat)
    requires i < |s.groups|
  {
    forall l | l in s.groups[i].offer.rows :: KeyOf(l) !in KeysBelow(s.groups, i)
  }

  lemma {:induction false} TookAllIffFresh(b: Budget, s: Book, i: nat)
    requires InBudget(b, s) && i < |s.groups| && OneVersion(s.groups[i].offer)
    ensures Blocks(s.groups[i].offer) == (set l | l in s.groups[i].rows :: l.blockId) <==> AllFresh(s, i)
  {
    var g, seen := s.groups[i], KeysBelow(s.groups, i);
    assert TookTheRest(s.groups, i);
    forall l ensures l in g.rows <==> l in g.offer.rows && KeyOf(l) !in seen {
      UnseenContents(g.offer.rows, seen, |g.offer.rows|, l);
      assert g.offer.rows[..|g.offer.rows|] == g.offer.rows;
    }
    var taken := set l | l in g.rows :: l.blockId;
    if taken == Blocks(g.offer) {
      forall l | l in g.offer.rows ensures KeyOf(l) !in seen {
        assert l.blockId in taken;
        var x :| x in g.rows && x.blockId == l.blockId;
        assert KeyOf(x) == KeyOf(l);
      }
    }
    if AllFresh(s, i) {
      forall id | id in Blocks(g.offer) ensures id in taken {
        var l :| l in g.offer.rows && l.blockId == id;
        assert l in g.rows;
      }
    }
  }

  lemma {:induction false} CompleteIffAllTaken(b: Budget, s: Book, i: nat)
    requires InBudget(b, s) && i < |s.groups|
    ensures Complete(Evidence(s.groups, |s.groups|), Numbered(i + 1)) <==>
            Closed(s.groups[i].offer) && Blocks(s.groups[i].offer) <= (set l | l in s.groups[i].rows :: l.blockId)
  {
    var g, e, gid := s.groups[i], Evidence(s.groups, |s.groups|), Numbered(i + 1);
    assert TookTheRest(s.groups, i);
    forall r ensures r in e && GidOf(r) == gid <==> r in RowsOf(g, i + 1) {
      EvidenceOfGroup(s.groups, |s.groups|, i + 1, r);
    }
    var first := RowsOf(g, i + 1)[0];
    assert first in e && first.groupComplete == Closed(g.offer) && BlocksOf(first) == Blocks(g.offer);
    forall id | id in Blocks(g.offer) ensures Retained(e, gid, id) <==> id in set l | l in g.rows :: l.blockId {
      if id in set l | l in g.rows :: l.blockId {
        var k :| 0 <= k < |g.rows| && g.rows[k].blockId == id;
        assert RowsOf(g, i + 1)[k] in e;
      }
    }
  }

  /** The manifest reports a group as complete exactly when it closes and nothing of it was taken before.
      A group that overlaps an earlier one is cut, and its dimension goes uncovered, though every block
      it was offered is in the evidence. */
  lemma {:induction false} ReportedIffFresh(b: Budget, s: Book, i: nat)
    requires InBudget(b, s) && i < |s.groups| && OneVersion(s.groups[i].offer)
    ensures Complete(Evidence(s.groups, |s.groups|), Numbered(i + 1)) <==> Closed(s.groups[i].offer) && AllFresh(s, i)
  {
    CompleteIffAllTaken(b, s, i);
    TookAllIffFresh(b, s, i);
    var g := s.groups[i];
    assert TookTheRest(s.groups, i);
    forall l | l in g.rows ensures l.blockId in Blocks(g.offer) {
      UnseenContents(g.offer.rows, KeysBelow(s.groups, i), |g.offer.rows|, l);
    }
  }

  /** The dimensions the manifest covers are those of the complete groups. */
  lemma {:induction false} CoveredDimensions(b: Budget, s: Book, d: string)
    requires InBudget(b, s) && forall i | 0 <= i < |s.groups| :: OneVersion(s.groups[i].offer)
    ensures d in GroupDimensions(Evidence(s.groups, |s.groups|)) <==>
            exists i :: 0 <= i < |s.groups| && s.groups[i].offer.dimension == Some(d)
                        && Closed(s.groups[i].offer) && AllFresh(s, i)
  {
    var e := Evidence(s.groups, |s.groups|);
    if d in GroupDimensions(e) {
      var r :| r in e && Complete(e, GidOf(r)) && d in r.dimensions;
      EvidenceIds(s.groups, |s.groups|, r);
      var i := r.group.value - 1;
      EvidenceOfGroup(s.groups, |s.groups|, i + 1, r);
      ReportedIffFresh(b, s, i);
      assert s.groups[i].offer.dimension == Some(d);
    }
    forall i | 0 <= i < |s.groups| && s.groups[i].offer.dimension == Some(d)
               && Closed(s.groups[i].offer) && AllFresh(s, i)
      ensures d in GroupDimensions(e)
    {
      ReportedIffFresh(b, s, i);
      assert TookTheRest(s.groups, i);
      var r := RowsOf(s.groups[i], i + 1)[0];
      EvidenceOfGroup(s.groups, |s.groups|, i + 1, r);
      assert Complete(e, GidOf(r)) && d in r.dimensions;
    }
  }

  /** The rows of one group agree on its blocks and its flag, so whatever is pruned later, nothing is gained. */
  lemma {:induction false} PruningGroupsAddsNothing(groups: seq<Group>, after: seq<Row>, plan: Plan)
    requires Pruned(Evidence(groups, |groups|), after)
    ensures Covered(after, plan) <= Covered(Evidence(groups, |groups|), plan)
    ensures Ready(after, plan) ==> Ready(Evidence(groups, |groups|), plan)
  {
    var e := Evidence(groups, |groups|);
    forall x, y | x in e && y in e && GidOf(x) == GidOf(y)
      ensures BlocksOf(x) == BlocksOf(y) && x.groupComplete == y.groupComplete
    {
      EvidenceIds(groups, |groups|, x);
      EvidenceOfGroup(groups, |groups|, x.group.value, x);
      EvidenceOfGroup(groups, |groups|, x.group.value, y);
    }
    CoverageIsMonotone(e, after, plan);
  }

  // ----- the variables of the enclosing function, as add_group changes them

  class Collector {
    const budget: Budget
    var groups: seq<Group>
    var seen: set<Key>
    var usedBytes: nat

    constructor (budget: Budget)
      ensures View() == BLANK && this.budget == budget
    {
      this.budget := budget;
      groups, seen, usedBytes := [], {}, 0;
    }

    function View(): Book
      reads this
    {
      Book(groups, seen, usedBytes)
    }

    method AddGroup(o: Offer)
      modifies this
      ensures View() == Add(budget, old(View()), o)
    {
      var unseen := Unseen(o.rows, seen, |o.rows|);
      var size := Bytes(unseen);
      if unseen == [] || CountBelow(groups, |groups|) + |unseen| > budget.limit || usedBytes + size > budget.maxBytes {
        return;
      }
      for n := 0 to |unseen|
        invariant seen == old(seen) + Keys(unseen[..n]) && groups == old(groups) && usedBytes == old(usedBytes)
      {
        assert unseen[..n + 1] == unseen[..n] + [unseen[n]];
        seen := seen + {KeyOf(unseen[n])};
      }
      assert unseen[..|unseen|] == unseen;
      groups := groups + [Group(unseen, o)];
      usedBytes := usedBytes + size;
    }

    /** All the calls of one retrieval. */
    method Collect(offers: seq<Offer>)
      requires View() == BLANK
      modifies this
      ensures View() == AddAll(budget, offers, |offers|)
      ensures InBudget(budget, View())
    {
      for n := 0 to |offers|
        invariant View() == AddAll(budget, offers, n)
      {
        AddGroup(offers[n]);
      }
      AllStayInBudget(budget, offers, 0, |offers|);
    }
  }
}
