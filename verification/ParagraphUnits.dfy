/** Reassembling wrapped source lines into paragraphs before they are matched
    (`_semantic_groups` of backend/fund_kb/answer_retrieval.py). */
module ParagraphUnits {
  import opened Wrappers
  import opened SectionOutline

  /** What the patterns of the source say about a text. */
  datatype Lexicon = Lexicon(toc: string -> bool, digits: string -> bool, clause: string -> bool,
                             ends: string -> bool, colon: string -> bool, article: string -> bool,
                             han: string -> bool, branching: string -> bool)

  /** The blocks of a paragraph, as indices into the ordered blocks of the version. */
  datatype Unit = Unit(rows: seq<nat>, text: string, complete: bool, detailGap: bool)

  // ----- what the result must be

  /** A block that can be part of a paragraph. */
  predicate Content(row: Row, lex: Lexicon) {
    row.heading.None? && row.body != "" && !lex.toc(row.body)
  }

  function Anchors(section: seq<Entry>): seq<string> {
    seq(|section|, k requires 0 <= k < |section| => section[k].blockId)
  }

  function AnchorsAt(rows: seq<Row>, i: nat): seq<string>
    requires i < |rows|
  {
    Anchors(Section(rows, i))
  }

  function TextOf(rows: seq<Row>, ids: seq<nat>): string
    requires forall k | 0 <= k < |ids| :: ids[k] < |rows|
  {
    if ids == [] then "" else TextOf(rows, ids[..|ids| - 1]) + rows[ids[|ids| - 1]].body
  }

  /** Block y carries on where block x ends. */
  predicate Continues(rows: seq<Row>, x: nat, y: nat)
    requires x < |rows| && y < |rows|
  {
    x < y && rows[y].ordinal == rows[x].ordinal + 1 && AnchorsAt(rows, y) == AnchorsAt(rows, x)
  }

  /** The blocks of one paragraph: content, in order, without a missing ordinal, and all of one section. */
  predicate Coherent(rows: seq<Row>, lex: Lexicon, ids: seq<nat>) {
    && (forall k | 0 <= k < |ids| :: ids[k] < |rows| && Content(rows[ids[k]], lex))
    && (forall k | 0 < k < |ids| :: Continues(rows, ids[k - 1], ids[k]))
  }

  predicate GoodUnit(rows: seq<Row>, lex: Lexicon, u: Unit) {
    u.rows != [] && Coherent(rows, lex, u.rows) && u.text == TextOf(rows, u.rows)
  }

  function First(u: Unit): nat
    requires u.rows != []
  {
    u.rows[0]
  }

  function Last(u: Unit): nat
    requires u.rows != []
  {
    u.rows[|u.rows| - 1]
  }

  /** Disjoint paragraphs in document order. */
  predicate InOrder(rows: seq<Row>, lex: Lexicon, units: seq<Unit>) {
    && (forall i | 0 <= i < |units| :: GoodUnit(rows, lex, units[i]))
    && (forall i | 0 < i < |units| :: Last(units[i - 1]) < First(units[i]))
  }

  ghost predicate Covered(units: seq<Unit>, i: nat) {
    exists u :: 0 <= u < |units| && i in units[u].rows
  }

  /** A bare number that is the page number printed at the end of its page. */
  predicate PageFooter(rows: seq<Row>, i: nat, lex: Lexicon)
    requires i < |rows|
  {
    && lex.digits(rows[i].body) && i + 1 < |rows|
    && rows[i].page == Some(rows[i].body) && rows[i + 1].page.Some? && rows[i + 1].page != rows[i].page
  }

  /** Block i ends the paragraph it is in. */
  predicate Closes(row: Row, lex: Lexicon) {
    lex.ends(row.body) || row.blockType == Structured
  }

  /** Block i belongs to some paragraph; a bare number only when it carries on an open one. */
  predicate Kept(rows: seq<Row>, lex: Lexicon, i: nat)
    requires i < |rows|
    decreases i, 1
  {
    && Content(rows[i], lex) && !PageFooter(rows, i, lex)
    && (lex.digits(rows[i].body) ==> Joined(rows, lex, i))
  }

  /** Block i carries on the paragraph of the block before it. */
  predicate Joined(rows: seq<Row>, lex: Lexicon, i: nat)
    requires i < |rows|
    decreases i, 0
  {
    && i > 0 && !Gap(rows, i) && Kept(rows, lex, i - 1) && !Closes(rows[i - 1], lex)
    && Content(rows[i], lex) && !PageFooter(rows, i, lex)
    && !lex.clause(rows[i].body) && rows[i].blockType != Structured
  }

  /** The paragraph made of some blocks: complete if it ends a sentence, announces one, or is all table, list or
      formula. */
  function UnitOf(rows: seq<Row>, lex: Lexicon, ids: seq<nat>): Unit
    requires forall k | 0 <= k < |ids| :: ids[k] < |rows|
  {
    var text := TextOf(rows, ids);
    Unit(ids, text,
         lex.ends(text) || lex.colon(text) || (forall k | 0 <= k < |ids| :: rows[ids[k]].blockType == Structured),
         false)
  }

  /** A longest run of blocks of which each carries on the one before it. */
  predicate Run(rows: seq<Row>, lex: Lexicon, ids: seq<nat>) {
    && ids != []
    && (forall k | 0 <= k < |ids| :: ids[k] == ids[0] + k && ids[k] < |rows|)
    && (forall k | 0 <= k < |ids| :: Joined(rows, lex, ids[k]) <==> k > 0)
  }

  /** The paragraphs are the runs of joined blocks, and they hold exactly the blocks that are kept. */
  ghost predicate Assembled(rows: seq<Row>, lex: Lexicon, units: seq<Unit>) {
    && InOrder(rows, lex, units)
    && (forall i | 0 <= i < |units| :: Run(rows, lex, units[i].rows) && units[i] == UnitOf(rows, lex, units[i].rows))
    && forall i: nat :: Covered(units, i) <==> i < |rows| && Kept(rows, lex, i)
  }

  lemma {:induction false} CoherentIsSorted(rows: seq<Row>, lex: Lexicon, ids: seq<nat>, a: nat, b: nat)
    requires Coherent(rows, lex, ids) && a < b < |ids|
    ensures ids[a] < ids[b] && rows[ids[b]].ordinal == rows[ids[a]].ordinal + (b - a)
    ensures AnchorsAt(rows, ids[a]) == AnchorsAt(rows, ids[b])
    decreases b
  {
    if a < b - 1 {
      CoherentIsSorted(rows, lex, ids, a, b - 1);
    }
  }

  /** Paragraphs in order share no block. */
  lemma {:induction false} UnitsAreDisjoint(rows: seq<Row>, lex: Lexicon, units: seq<Unit>, i: nat, j: nat, x: nat)
    requires InOrder(rows, lex, units) && i < j < |units| && x in units[i].rows
    ensures x < First(units[j]) && x !in units[j].rows
    decreases j
  {
    var a :| 0 <= a < |units[i].rows| && units[i].rows[a] == x;
    if a < |units[i].rows| - 1 {
      CoherentIsSorted(rows, lex, units[i].rows, a, |units[i].rows| - 1);
    }
    if i < j - 1 {
      assert Last(units[i]) in units[i].rows;
      UnitsAreDisjoint(rows, lex, units, i, j - 1, x);
      if |units[j - 1].rows| > 1 {
        CoherentIsSorted(rows, lex, units[j - 1].rows, 0, |units[j - 1].rows| - 1);
      }
    }
    forall b | 0 <= b < |units[j].rows| ensures First(units[j]) <= units[j].rows[b] {
      if b > 0 { CoherentIsSorted(rows, lex, units[j].rows, 0, b); }
    }
  }

  // ----- first pass

  function Finish(rows: seq<Row>, lex: Lexicon, units: seq<Unit>, pending: seq<nat>): seq<Unit>
    requires forall k | 0 <= k < |pending| :: pending[k] < |rows|
  {
    if pending == [] then units else units + [UnitOf(rows, lex, pending)]
  }

  ghost predicate Runs(rows: seq<Row>, lex: Lexicon, units: seq<Unit>) {
    forall i | 0 <= i < |units| :: Run(rows, lex, units[i].rows) && units[i] == UnitOf(rows, lex, units[i].rows)
  }

  ghost predicate KeptSoFar(rows: seq<Row>, lex: Lexicon, units: seq<Unit>, pending: seq<nat>, n: nat)
    requires n <= |rows|
  {
    forall i: nat :: Covered(units, i) || i in pending <==> i < n && Kept(rows, lex, i)
  }

  /** The state before block n: paragraphs closed, and one still open that reaches up to block n - 1. */
  ghost predicate Building(rows: seq<Row>, lex: Lexicon, units: seq<Unit>, pending: seq<nat>, n: nat) {
    && n <= |rows|
    && InOrder(rows, lex, units) && Runs(rows, lex, units)
    && Coherent(rows, lex, pending)
    && (pending != [] ==> Run(rows, lex, pending) && pending[|pending| - 1] == n - 1)
    && (units != [] ==> Last(units[|units| - 1]) < if pending == [] then n else pending[0])
    && KeptSoFar(rows, lex, units, pending, n)
  }

  lemma {:induction false} CoveredAppend(units: seq<Unit>, u: Unit)
    ensures forall i: nat :: Covered(units + [u], i) <==> Covered(units, i) || i in u.rows
  {
    forall i: nat ensures Covered(units + [u], i) <==> Covered(units, i) || i in u.rows {
      if Covered(units, i) {
        var k :| 0 <= k < |units| && i in units[k].rows;
        assert (units + [u])[k] == units[k];
      }
      if i in u.rows {
        assert (units + [u])[|units|] == u;
      }
    }
  }

  lemma {:induction false} AppendInOrder(rows: seq<Row>, lex: Lexicon, units: seq<Unit>, u: Unit)
    requires InOrder(rows, lex, units) && GoodUnit(rows, lex, u)
    requires units != [] ==> Last(units[|units| - 1]) < First(u)
    ensures InOrder(rows, lex, units + [u])
  {
  }

  lemma {:induction false} AppendRuns(rows: seq<Row>, lex: Lexicon, units: seq<Unit>, ids: seq<nat>)
    requires Runs(rows, lex, units) && Run(rows, lex, ids)
    ensures Runs(rows, lex, units + [UnitOf(rows, lex, ids)])
  {
  }

  lemma {:induction false} FinishInOrder(rows: seq<Row>, lex: Lexicon, units: seq<Unit>, pending: seq<nat>)
    requires InOrder(rows, lex, units) && Runs(rows, lex, units) && Coherent(rows, lex, pending)
    requires pending != [] ==> Run(rows, lex, pending)
    requires units != [] && pending != [] ==> Last(units[|units| - 1]) < pending[0]
    ensures InOrder(rows, lex, Finish(rows, lex, units, pending)) && Runs(rows, lex, Finish(rows, lex, units, pending))
  {
    if pending != [] {
      AppendInOrder(rows, lex, units, UnitOf(rows, lex, pending));
      AppendRuns(rows, lex, units, pending);
    }
  }

  lemma {:induction false} FinishBuilds(rows: seq<Row>, lex: Lexicon, units: seq<Unit>, pending: seq<nat>, n: nat)
    requires Building(rows, lex, units, pending, n)
    ensures Building(rows, lex, Finish(rows, lex, units, pending), [], n)
  {
    FinishInOrder(rows, lex, units, pending);
    if pending != [] {
      CoveredAppend(units, UnitOf(rows, lex, pending));
      assert Finish(rows, lex, units, pending)[|units|].rows == pending;
    }
  }

  /** Block n is left out. */
  lemma {:induction false} SkipBuilds(rows: seq<Row>, lex: Lexicon, units: seq<Unit>, n: nat)
    requires Building(rows, lex, units, [], n) && n < |rows| && !Kept(rows, lex, n)
    ensures Building(rows, lex, units, [], n + 1)
  {
  }

  lemma {:induction false} ConcatCoherent(rows: seq<Row>, lex: Lexicon, a: seq<nat>, b: seq<nat>)
    requires Coherent(rows, lex, a) && Coherent(rows, lex, b)
    requires a != [] && b != [] ==> Continues(rows, a[|a| - 1], b[0])
    ensures Coherent(rows, lex, a + b)
  {
    var c := a + b;
    forall k | 0 < k < |c| ensures Continues(rows, c[k - 1], c[k]) {
      if k < |a| {
        assert c[k - 1] == a[k - 1] && c[k] == a[k];
      } else if k > |a| {
        assert c[k - 1] == b[k - |a| - 1] && c[k] == b[k - |a|];
      }
    }
  }

  lemma {:induction false} JoinCoherent(rows: seq<Row>, lex: Lexicon, pending: seq<nat>, n: nat)
    requires n < |rows| && Coherent(rows, lex, pending) && Content(rows[n], lex)
    requires pending != [] ==> pending[|pending| - 1] == n - 1 && !Gap(rows, n)
    ensures Coherent(rows, lex, pending + [n])
  {
    if pending != [] {
      SameSection(rows, n);
    }
    ConcatCoherent(rows, lex, pending, [n]);
  }

  /** Block n joins the open paragraph, or opens one. */
  lemma {:induction false} JoinBuilds(rows: seq<Row>, lex: Lexicon, units: seq<Unit>, pending: seq<nat>, n: nat)
    requires Building(rows, lex, units, pending, n) && n < |rows| && Kept(rows, lex, n)
    requires Joined(rows, lex, n) <==> pending != []
    ensures Building(rows, lex, units, pending + [n], n + 1)
  {
    JoinCoherent(rows, lex, pending, n);
    var more := pending + [n];
    forall k | 0 <= k < |more| ensures more[k] == more[0] + k && (Joined(rows, lex, more[k]) <==> k > 0) {
      if k < |pending| { assert more[k] == pending[k]; }
    }
    assert forall i: nat :: i in more <==> i in pending || i == n;
  }

  /** The open paragraph reaches up to the block before n exactly if that block is kept and does not close it. */
  ghost predicate OpenAt(rows: seq<Row>, lex: Lexicon, pending: seq<nat>, n: nat)
    requires n <= |rows|
  {
    pending != [] <==> n > 0 && Kept(rows, lex, n - 1) && !Closes(rows[n - 1], lex)
  }

  /** One round: block n closes the open paragraph or not, and then joins, opens one, or is left out. */
  method Take(rows: seq<Row>, lex: Lexicon, before: seq<Unit>, open: seq<nat>, n: nat)
    returns (units: seq<Unit>, pending: seq<nat>)
    requires n < |rows| && Building(rows, lex, before, open, n) && OpenAt(rows, lex, open, n)
    ensures Building(rows, lex, units, pending, n + 1) && OpenAt(rows, lex, pending, n + 1)
  {
    units, pending := before, open;
    var row := rows[n];
    if Gap(rows, n) || !Content(row, lex) || PageFooter(rows, n, lex)
       || (pending != [] && (lex.clause(row.body) || row.blockType == Structured)) {
      FinishBuilds(rows, lex, units, pending, n);
      units, pending := Finish(rows, lex, units, pending), [];
    }
    assert Content(row, lex) && !PageFooter(rows, n, lex) ==> (Joined(rows, lex, n) <==> pending != []);
    if !Content(row, lex) || PageFooter(rows, n, lex) || (pending == [] && lex.digits(row.body)) {
      SkipBuilds(rows, lex, units, n);
    } else {
      JoinBuilds(rows, lex, units, pending, n);
      pending := pending + [n];
      if Closes(row, lex) {
        FinishBuilds(rows, lex, units, pending, n + 1);
        units, pending := Finish(rows, lex, units, pending), [];
      }
    }
  }

  method Assemble(rows: seq<Row>, lex: Lexicon) returns (units: seq<Unit>)
    ensures Assembled(rows, lex, units)
  {
    var pending: seq<nat> := [];
    units := [];
    for n := 0 to |rows|
      invariant Building(rows, lex, units, pending, n) && OpenAt(rows, lex, pending, n)
    {
      units, pending := Take(rows, lex, units, pending, n);
    }
    FinishBuilds(rows, lex, units, pending, |rows|);
    units := Finish(rows, lex, units, pending);
  }

  // ----- second pass: an article and the unnumbered paragraphs that follow it

  predicate Mergeable(rows: seq<Row>, lex: Lexicon, previous: Unit, u: Unit) {
    && previous.rows != [] && u.rows != [] && Last(previous) < |rows| && First(u) < |rows|
    && lex.article(previous.text) && !lex.clause(u.text)
    && AnchorsAt(rows, First(u)) == AnchorsAt(rows, Last(previous))
    && rows[First(u)].ordinal == rows[Last(previous)].ordinal + 1
  }

  function Merge(a: Unit, b: Unit): Unit {
    Unit(a.rows + b.rows, a.text + b.text, a.complete && b.complete, false)
  }

  function Extend(rows: seq<Row>, lex: Lexicon, merged: seq<Unit>, u: Unit): seq<Unit> {
    if merged != [] && Mergeable(rows, lex, merged[|merged| - 1], u)
    then merged[..|merged| - 1] + [Merge(merged[|merged| - 1], u)]
    else merged + [u]
  }

  /** Each paragraph in turn extends the article before it, or starts on its own. */
  function MergedOf(rows: seq<Row>, lex: Lexicon, units: seq<Unit>): seq<Unit> {
    if units == [] then [] else Extend(rows, lex, MergedOf(rows, lex, units[..|units| - 1]), units[|units| - 1])
  }

  lemma {:induction false} TextOfLast(rows: seq<Row>, ids: seq<nat>, last: nat)
    requires last < |rows| && forall k | 0 <= k < |ids| :: ids[k] < |rows|
    ensures TextOf(rows, ids + [last]) == TextOf(rows, ids) + rows[last].body
  {
    assert (ids + [last])[..|ids|] == ids;
  }

  lemma {:induction false} TextsAssociate(x: string, y: string, z: string)
    ensures x + (y + z) == x + y + z
  {
  }

  lemma {:induction false} TextOfConcat(rows: seq<Row>, a: seq<nat>, b: seq<nat>)
    requires forall k | 0 <= k < |a| :: a[k] < |rows|
    requires forall k | 0 <= k < |b| :: b[k] < |rows|
    ensures TextOf(rows, a + b) == TextOf(rows, a) + TextOf(rows, b)
  {
    if b == [] {
      assert a + b == a;
    } else {
      var front, last := b[..|b| - 1], b[|b| - 1];
      TextOfConcat(rows, a, front);
      TextOfLast(rows, a + front, last);
      assert a + b == a + front + [last];
      TextsAssociate(TextOf(rows, a), TextOf(rows, front), rows[last].body);
    }
  }

  lemma {:induction false} MergeIsGood(rows: seq<Row>, lex: Lexicon, a: Unit, b: Unit)
    requires GoodUnit(rows, lex, a) && GoodUnit(rows, lex, b) && Last(a) < First(b) && Mergeable(rows, lex, a, b)
    ensures GoodUnit(rows, lex, Merge(a, b)) && First(Merge(a, b)) == First(a) && Last(Merge(a, b)) == Last(b)
  {
    ConcatCoherent(rows, lex, a.rows, b.rows);
    TextOfConcat(rows, a.rows, b.rows);
  }

  /** The two lists of paragraphs hold the same blocks. */
  ghost predicate SameBlocks(a: seq<Unit>, b: seq<Unit>) {
    forall i: nat :: Covered(a, i) <==> Covered(b, i)
  }

  ghost predicate Merging(rows: seq<Row>, lex: Lexicon, units: seq<Unit>, merged: seq<Unit>, n: nat) {
    && n <= |units| && InOrder(rows, lex, units)
    && InOrder(rows, lex, merged)
    && SameBlocks(merged, units[..n])
    && (n == 0 <==> merged == [])
    && (n > 0 ==> Last(units[n - 1]) == Last(merged[|merged| - 1]))
  }

  lemma {:induction false} MergeInOrder(rows: seq<Row>, lex: Lexicon, front: seq<Unit>, last: Unit, u: Unit)
    requires InOrder(rows, lex, front + [last]) && GoodUnit(rows, lex, last) && GoodUnit(rows, lex, u)
    requires Last(last) < First(u) && Mergeable(rows, lex, last, u)
    ensures InOrder(rows, lex, front + [Merge(last, u)]) && Last(Merge(last, u)) == Last(u)
  {
    var before, after := front + [last], front + [Merge(last, u)];
    assert before[|front|] == last;
    MergeIsGood(rows, lex, last, u);
    forall i | 0 <= i < |after| ensures GoodUnit(rows, lex, after[i]) {
      if i < |front| { assert before[i] == after[i]; }
    }
    forall i | 0 < i < |after| ensures Last(after[i - 1]) < First(after[i]) {
      assert before[i - 1] == after[i - 1] && Last(before[i - 1]) < First(before[i]);
    }
  }

  lemma {:induction false} MergeBlocks(front: seq<Unit>, last: Unit, u: Unit, units: seq<Unit>)
    requires SameBlocks(front + [last], units)
    ensures SameBlocks(front + [Merge(last, u)], units + [u])
  {
    CoveredAppend(front, last);
    CoveredAppend(front, Merge(last, u));
    CoveredAppend(units, u);
  }

  lemma {:induction false} MergeStep(rows: seq<Row>, lex: Lexicon, units: seq<Unit>,
                                     front: seq<Unit>, last: Unit, n: nat)
    requires Merging(rows, lex, units, front + [last], n) && 0 < n < |units|
    requires last.rows != [] && Last(last) < |rows| && units[n].rows != [] && First(units[n]) < |rows|
    requires Mergeable(rows, lex, last, units[n])
    ensures Merging(rows, lex, units, front + [Merge(last, units[n])], n + 1)
  {
    var merged, after, next := front + [last], front + [Merge(last, units[n])], units[..n] + [units[n]];
    assert merged[|front|] == last && units[..n + 1] == next;
    assert GoodUnit(rows, lex, merged[|front|]) && GoodUnit(rows, lex, units[n]);
    assert Last(units[n - 1]) < First(units[n]);
    MergeInOrder(rows, lex, front, last, units[n]);
    MergeBlocks(front, last, units[n], units[..n]);
    assert after[|after| - 1] == Merge(last, units[n]);
  }

  lemma {:induction false} KeepStep(rows: seq<Row>, lex: Lexicon, units: seq<Unit>, merged: seq<Unit>, n: nat)
    requires Merging(rows, lex, units, merged, n) && n < |units|
    ensures Merging(rows, lex, units, merged + [units[n]], n + 1)
  {
    CoveredAppend(merged, units[n]);
    CoveredAppend(units[..n], units[n]);
    assert units[..n + 1] == units[..n] + [units[n]];
  }

  lemma {:induction false} ExtendMerges(rows: seq<Row>, lex: Lexicon, units: seq<Unit>, merged: seq<Unit>, n: nat)
    requires Merging(rows, lex, units, merged, n) && n < |units|
    ensures Merging(rows, lex, units, Extend(rows, lex, merged, units[n]), n + 1)
  {
    if merged != [] && Mergeable(rows, lex, merged[|merged| - 1], units[n]) {
      var front, last := merged[..|merged| - 1], merged[|merged| - 1];
      assert merged == front + [last];
      MergeStep(rows, lex, units, front, last, n);
    } else {
      KeepStep(rows, lex, units, merged, n);
    }
  }

  lemma {:induction false} NothingMerged(rows: seq<Row>, lex: Lexicon, units: seq<Unit>)
    requires InOrder(rows, lex, units)
    ensures Merging(rows, lex, units, [], 0)
  {
    assert units[..0] == [];
  }

  lemma {:induction false} MergedOfNext(rows: seq<Row>, lex: Lexicon, units: seq<Unit>, n: nat)
    requires n < |units|
    ensures MergedOf(rows, lex, units[..n + 1]) == Extend(rows, lex, MergedOf(rows, lex, units[..n]), units[n])
  {
    assert units[..n + 1][..n] == units[..n];
  }

  lemma {:induction false} MergedSoFar(rows: seq<Row>, lex: Lexicon, units: seq<Unit>, n: nat)
    requires InOrder(rows, lex, units) && n <= |units|
    ensures Merging(rows, lex, units, MergedOf(rows, lex, units[..n]), n)
  {
    if n == 0 {
      NothingMerged(rows, lex, units);
    } else {
      MergedSoFar(rows, lex, units, n - 1);
      ExtendMerges(rows, lex, units, MergedOf(rows, lex, units[..n - 1]), n - 1);
      MergedOfNext(rows, lex, units, n - 1);
    }
  }

  /** Merging keeps the paragraphs disjoint, coherent and in order, and loses no block. */
  lemma {:induction false} MergingKeepsTheBlocks(rows: seq<Row>, lex: Lexicon, units: seq<Unit>)
    requires InOrder(rows, lex, units)
    ensures InOrder(rows, lex, MergedOf(rows, lex, units)) && SameBlocks(MergedOf(rows, lex, units), units)
  {
    MergedSoFar(rows, lex, units, |units|);
    assert units[..|units|] == units;
  }

  method MergeArticles(rows: seq<Row>, lex: Lexicon, units: seq<Unit>) returns (merged: seq<Unit>)
    ensures merged == MergedOf(rows, lex, units)
  {
    merged := [];
    for n := 0 to |units|
      invariant merged == MergedOf(rows, lex, units[..n])
    {
      assert units[..n + 1][..n] == units[..n];
      if merged != [] && Mergeable(rows, lex, merged[|merged| - 1], units[n]) {
        merged := merged[..|merged| - 1] + [Merge(merged[|merged| - 1], units[n])];
      } else {
        merged := merged + [units[n]];
      }
    }
    assert units[..|units|] == units;
  }

  // ----- third pass: fragments and gaps in the detail

  /** A paragraph block without a single Han character: a piece of a formula. */
  predicate Fragment(row: Row, lex: Lexicon) {
    row.blockType == Paragraph && !lex.han(row.body)
  }

  predicate Fragmented(rows: seq<Row>, lex: Lexicon, u: Unit) {
    exists k | 0 <= k < |u.rows| :: u.rows[k] < |rows| && Fragment(rows[u.rows[k]], lex)
  }

  function SectionOf(rows: seq<Row>, u: Unit): seq<string>
    requires u.rows != [] && First(u) < |rows|
  {
    AnchorsAt(rows, First(u))
  }

  /** Some paragraph of the same section is a fragment. */
  predicate BrokenSection(rows: seq<Row>, lex: Lexicon, units: seq<Unit>, u: Unit)
    requires u.rows != [] && First(u) < |rows|
    requires forall v | v in units :: v.rows != [] && First(v) < |rows|
  {
    exists v | v in units :: Fragmented(rows, lex, v) && SectionOf(rows, v) == SectionOf(rows, u)
  }

  /** What the flags of a delivered paragraph mean, given the merged paragraphs it comes from. */
  predicate Flagged(rows: seq<Row>, lex: Lexicon, merged: seq<Unit>, before: Unit, after: Unit)
    requires before.rows != [] && First(before) < |rows|
    requires forall v | v in merged :: v.rows != [] && First(v) < |rows|
  {
    && after.rows == before.rows && after.text == before.text
    && after.detailGap == (BrokenSection(rows, lex, merged, before) || lex.colon(before.text))
    && after.complete == (before.complete && !Fragmented(rows, lex, before)
                          && !(after.detailGap && lex.branching(before.text)))
  }

  function BrokenSections(rows: seq<Row>, lex: Lexicon, units: seq<Unit>): set<seq<string>>
    requires forall v | v in units :: v.rows != [] && First(v) < |rows|
  {
    if units == [] then {}
    else
      var n := |units| - 1;
      BrokenSections(rows, lex, units[..n])
      + if Fragmented(rows, lex, units[n]) then {SectionOf(rows, units[n])} else {}
  }

  lemma {:induction false} BrokenSectionsMeaning(rows: seq<Row>, lex: Lexicon, units: seq<Unit>, u: Unit)
    requires u.rows != [] && First(u) < |rows|
    requires forall v | v in units :: v.rows != [] && First(v) < |rows|
    ensures SectionOf(rows, u) in BrokenSections(rows, lex, units) <==> BrokenSection(rows, lex, units, u)
  {
    if units != [] {
      var n := |units| - 1;
      BrokenSectionsMeaning(rows, lex, units[..n], u);
      assert forall v :: v in units <==> v in units[..n] || v == units[n];
    }
  }

  lemma {:induction false} UnitsStartInside(rows: seq<Row>, lex: Lexicon, units: seq<Unit>)
    requires InOrder(rows, lex, units)
    ensures forall v | v in units :: v.rows != [] && First(v) < |rows|
  {
  }

  method FindBroken(rows: seq<Row>, lex: Lexicon, merged: seq<Unit>) returns (broken: set<seq<string>>)
    requires forall v | v in merged :: v.rows != [] && First(v) < |rows|
    ensures broken == BrokenSections(rows, lex, merged)
  {
    broken := {};
    for n := 0 to |merged|
      invariant broken == BrokenSections(rows, lex, merged[..n])
    {
      assert merged[..n + 1][..n] == merged[..n];
      if Fragmented(rows, lex, merged[n]) {
        broken := broken + {SectionOf(rows, merged[n])};
      }
    }
    assert merged[..|merged|] == merged;
  }

  method MarkGaps(rows: seq<Row>, lex: Lexicon, merged: seq<Unit>) returns (units: seq<Unit>)
    requires forall v | v in merged :: v.rows != [] && First(v) < |rows|
    ensures |units| == |merged|
    ensures forall i | 0 <= i < |merged| :: Flagged(rows, lex, merged, merged[i], units[i])
  {
    var broken := FindBroken(rows, lex, merged);
    units := [];
    for n := 0 to |merged|
      invariant |units| == n
      invariant forall i | 0 <= i < n :: Flagged(rows, lex, merged, merged[i], units[i])
    {
      var u := merged[n];
      var gap := SectionOf(rows, u) in broken || lex.colon(u.text);
      BrokenSectionsMeaning(rows, lex, merged, u);
      units := units + [u.(detailGap := gap,
                           complete := u.complete && !Fragmented(rows, lex, u) && !(gap && lex.branching(u.text)))];
    }
  }

  /** The three passes. The paragraphs delivered are disjoint, coherent, in document order and hold exactly the
      blocks that are kept; and one that branches on conditions is never complete while its section is broken
      or it only announces what follows. */
  method SemanticGroups(records: seq<Row>, lex: Lexicon)
    returns (rows: seq<Row>, units: seq<Unit>, ghost assembled: seq<Unit>)
    ensures rows == Ordered(records) && Assembled(rows, lex, assembled)
    ensures |units| == |MergedOf(rows, lex, assembled)|
    ensures forall i | 0 <= i < |units| ::
              && units[i].rows == MergedOf(rows, lex, assembled)[i].rows
              && units[i].text == MergedOf(rows, lex, assembled)[i].text
    ensures InOrder(rows, lex, units) && forall i: nat :: Covered(units, i) <==> i < |rows| && Kept(rows, lex, i)
    ensures forall i | 0 <= i < |units| ::
              Graded(rows, lex, units, MergedOf(rows, lex, assembled)[i].complete, units[i])
  {
    rows := Ordered(records);
    var first := Assemble(rows, lex);
    assembled := first;
    var merged := MergeArticles(rows, lex, first);
    MergingKeepsTheBlocks(rows, lex, first);
    UnitsStartInside(rows, lex, merged);
    units := MarkGaps(rows, lex, merged);
    FlagsKeepBlocks(rows, lex, merged, units);
    FlagsKeepOrder(rows, lex, merged, units);
    UnitsStartInside(rows, lex, units);
    forall i | 0 <= i < |units| ensures Graded(rows, lex, units, merged[i].complete, units[i]) {
      FlagsAreGrades(rows, lex, merged, units, i);
    }
  }

  /** A paragraph stays complete unless it has a fragment, or has a detail gap and branches on conditions. */
  predicate Graded(rows: seq<Row>, lex: Lexicon, units: seq<Unit>, closed: bool, u: Unit)
    requires u.rows != [] && First(u) < |rows|
    requires forall v | v in units :: v.rows != [] && First(v) < |rows|
  {
    && u.detailGap == (BrokenSection(rows, lex, units, u) || lex.colon(u.text))
    && u.complete == (closed && !Fragmented(rows, lex, u) && !(u.detailGap && lex.branching(u.text)))
  }

  lemma {:induction false} FlagsKeepBlocks(rows: seq<Row>, lex: Lexicon, merged: seq<Unit>, units: seq<Unit>)
    requires |units| == |merged| && forall i | 0 <= i < |merged| :: units[i].rows == merged[i].rows
    ensures SameBlocks(units, merged)
  {
    forall i: nat ensures Covered(units, i) <==> Covered(merged, i) {
      if Covered(units, i) {
        var k :| 0 <= k < |units| && i in units[k].rows;
        assert i in merged[k].rows;
      }
      if Covered(merged, i) {
        var k :| 0 <= k < |merged| && i in merged[k].rows;
        assert i in units[k].rows;
      }
    }
  }

  lemma {:induction false} FlagsKeepOrder(rows: seq<Row>, lex: Lexicon, merged: seq<Unit>, units: seq<Unit>)
    requires InOrder(rows, lex, merged) && |units| == |merged|
    requires forall i | 0 <= i < |merged| :: units[i].rows == merged[i].rows && units[i].text == merged[i].text
    ensures InOrder(rows, lex, units)
  {
    forall i | 0 <= i < |units| ensures GoodUnit(rows, lex, units[i]) {
      assert GoodUnit(rows, lex, merged[i]);
    }
    forall i | 0 < i < |units| ensures Last(units[i - 1]) < First(units[i]) {
      assert Last(merged[i - 1]) < First(merged[i]);
    }
  }

  lemma {:induction false} FlagsAreGrades(rows: seq<Row>, lex: Lexicon, merged: seq<Unit>, units: seq<Unit>, i: nat)
    requires |units| == |merged| && forall k | 0 <= k < |units| :: units[k].rows == merged[k].rows
    requires forall v | v in merged :: v.rows != [] && First(v) < |rows|
    requires forall v | v in units :: v.rows != [] && First(v) < |rows|
    requires i < |units| && Flagged(rows, lex, merged, merged[i], units[i])
    ensures Graded(rows, lex, units, merged[i].complete, units[i])
  {
    BrokenBothWays(rows, lex, units, merged, units[i], merged[i]);
    SameRowsSameFragments(rows, lex, units[i], merged[i]);
  }

  lemma {:induction false} SameRowsSameFragments(rows: seq<Row>, lex: Lexicon, u: Unit, v: Unit)
    requires u.rows == v.rows
    ensures Fragmented(rows, lex, u) <==> Fragmented(rows, lex, v)
  {
  }

  lemma {:induction false} BrokenBothWays(rows: seq<Row>, lex: Lexicon, a: seq<Unit>, b: seq<Unit>, x: Unit, y: Unit)
    requires |a| == |b| && forall i | 0 <= i < |a| :: a[i].rows == b[i].rows
    requires forall v | v in a :: v.rows != [] && First(v) < |rows|
    requires forall v | v in b :: v.rows != [] && First(v) < |rows|
    requires x.rows == y.rows != [] && First(x) < |rows|
    ensures BrokenSection(rows, lex, a, x) <==> BrokenSection(rows, lex, b, y)
  {
    if BrokenSection(rows, lex, a, x) {
      BrokenTransfers(rows, lex, a, b, x, y);
    } else if BrokenSection(rows, lex, b, y) {
      BrokenTransfers(rows, lex, b, a, y, x);
    }
  }

  lemma {:induction false} BrokenTransfers(rows: seq<Row>, lex: Lexicon, a: seq<Unit>, b: seq<Unit>, x: Unit, y: Unit)
    requires |a| == |b| && forall i | 0 <= i < |a| :: a[i].rows == b[i].rows
    requires forall v | v in a :: v.rows != [] && First(v) < |rows|
    requires forall v | v in b :: v.rows != [] && First(v) < |rows|
    requires x.rows == y.rows != [] && First(x) < |rows| && BrokenSection(rows, lex, a, x)
    ensures BrokenSection(rows, lex, b, y)
  {
    var v :| v in a && Fragmented(rows, lex, v) && SectionOf(rows, v) == SectionOf(rows, x);
    var k :| 0 <= k < |a| && a[k] == v;
    assert b[k] in b && Fragmented(rows, lex, b[k]);
  }
}
