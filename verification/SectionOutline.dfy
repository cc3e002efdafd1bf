/** The heading stack over the blocks of one source version (`source_structure` of
    backend/fund_kb/answer_retrieval.py). Which blocks are headings is given with the blocks. */
module SectionOutline {
  import opened Wrappers
  import opened StableSort

  datatype Heading = Heading(level: int, title: string)
  datatype BlockType = Paragraph | Structured | OtherType  // Structured: table, list or formula
  datatype Row = Row(blockId: string, ordinal: int, body: string, heading: Option<Heading>, blockType: BlockType,
                     page: Option<string>)

  datatype Entry = Entry(level: int, title: string, blockId: string)

  function OrdinalKey(): Row -> Key {
    (r: Row) => [Number(r.ordinal as real)]
  }

  function Ordered(records: seq<Row>): seq<Row> {
    Sort(records, OrdinalKey())
  }

  // ----- the declarative outline

  /** Block k does not follow the block before it: something may be missing in between. */
  predicate Gap(rows: seq<Row>, k: nat)
    requires k < |rows|
  {
    k > 0 && rows[k].ordinal != rows[k - 1].ordinal + 1
  }

  /** Heading j governs block i: no gap and no heading of its level or above comes after it, up to i. */
  predicate Governs(rows: seq<Row>, j: nat, i: nat)
    requires i < |rows|
  {
    j <= i && rows[j].heading.Some? &&
    forall k | j < k <= i ::
      && !Gap(rows, k)
      && (rows[k].heading.Some? ==> rows[k].heading.value.level > rows[j].heading.value.level)
  }

  /** The headings below n that govern block i, outermost first. */
  function Path(rows: seq<Row>, i: nat, n: nat): (path: seq<nat>)
    requires i < |rows| && n <= i + 1
    ensures forall k | 0 <= k < |path| :: path[k] < n && rows[path[k]].heading.Some?
  {
    if n == 0 then []
    else Path(rows, i, n - 1) + if Governs(rows, n - 1, i) then [n - 1] else []
  }

  function EntryOf(rows: seq<Row>, j: nat): Entry
    requires j < |rows| && rows[j].heading.Some?
  {
    Entry(rows[j].heading.value.level, rows[j].heading.value.title, rows[j].blockId)
  }

  function Entries(rows: seq<Row>, path: seq<nat>): (es: seq<Entry>)
    requires forall k | 0 <= k < |path| :: path[k] < |rows| && rows[path[k]].heading.Some?
    ensures |es| == |path| && forall k | 0 <= k < |path| :: es[k] == EntryOf(rows, path[k])
  {
    seq(|path|, k requires 0 <= k < |path| => EntryOf(rows, path[k]))
  }

  /** The section path of block i. */
  function Section(rows: seq<Row>, i: nat): seq<Entry>
    requires i < |rows|
  {
    Entries(rows, Path(rows, i, i + 1))
  }

  lemma {:induction false} PathContents(rows: seq<Row>, i: nat, n: nat, j: nat)
    requires i < |rows| && n <= i + 1
    ensures j in Path(rows, i, n) <==> j < n && Governs(rows, j, i)
  {
    if n > 0 {
      PathContents(rows, i, n - 1, j);
    }
  }

  predicate AreHeadings(rows: seq<Row>, path: seq<nat>) {
    forall k | 0 <= k < |path| :: path[k] < |rows| && rows[path[k]].heading.Some?
  }

  predicate Nested(rows: seq<Row>, path: seq<nat>)
    requires AreHeadings(rows, path)
  {
    forall a, b | 0 <= a < b < |path| ::
      path[a] < path[b] && rows[path[a]].heading.value.level < rows[path[b]].heading.value.level
  }

  /** Levels strictly increase along a section path, and its headings come in document order. */
  lemma {:induction false} LevelsIncrease(rows: seq<Row>, i: nat, n: nat)
    requires i < |rows| && n <= i + 1
    ensures Nested(rows, Path(rows, i, n))
  {
    if n > 0 {
      var before := Path(rows, i, n - 1);
      LevelsIncrease(rows, i, n - 1);
      if Governs(rows, n - 1, i) {
        forall a | 0 <= a < |before|
          ensures before[a] < n - 1 && rows[before[a]].heading.value.level < rows[n - 1].heading.value.level
        {
          PathContents(rows, i, n - 1, before[a]);
        }
        assert Path(rows, i, n) == before + [n - 1];
      } else {
        assert Path(rows, i, n) == before + [] == before;
      }
    }
  }

  /** Without a gap and a heading, a block is in the section of the block before it. */
  lemma {:induction false} SectionContinues(rows: seq<Row>, i: nat, n: nat)
    requires 0 < i < |rows| && !Gap(rows, i) && rows[i].heading.None? && n <= i
    ensures Path(rows, i, n) == Path(rows, i - 1, n)
  {
    if n > 0 {
      SectionContinues(rows, i, n - 1);
      GovernsContinues(rows, n - 1, i);
    }
  }

  lemma {:induction false} GovernsContinues(rows: seq<Row>, j: nat, i: nat)
    requires 0 < i < |rows| && j < i
    ensures Governs(rows, j, i) <==>
            Governs(rows, j, i - 1) && !Gap(rows, i)
            && (rows[i].heading.Some? ==> rows[i].heading.value.level > rows[j].heading.value.level)
  {
  }

  lemma {:induction false} SameSection(rows: seq<Row>, i: nat)
    requires 0 < i < |rows| && !Gap(rows, i) && rows[i].heading.None?
    ensures Section(rows, i) == Section(rows, i - 1)
  {
    SectionContinues(rows, i, i);
  }

  // ----- one step of the stack

  /** The part of a path whose levels are below a limit: what popping leaves. */
  predicate Keeps(rows: seq<Row>, path: seq<nat>, kept: nat, level: int)
    requires forall k | 0 <= k < |path| :: path[k] < |rows| && rows[path[k]].heading.Some?
  {
    && kept <= |path|
    && (forall k | kept <= k < |path| :: rows[path[k]].heading.value.level >= level)
    && (kept > 0 ==> rows[path[kept - 1]].heading.value.level < level)
  }

  lemma {:induction false} PathAfterGap(rows: seq<Row>, i: nat, n: nat)
    requires i < |rows| && Gap(rows, i) && n <= i
    ensures Path(rows, i, n) == []
  {
    if n > 0 {
      PathAfterGap(rows, i, n - 1);
      assert !Governs(rows, n - 1, i);
    }
  }

  lemma {:induction false} PathAfterPop(rows: seq<Row>, i: nat, kept: nat)
    requires 0 < i < |rows| && !Gap(rows, i) && rows[i].heading.Some?
    requires Keeps(rows, Path(rows, i - 1, i), kept, rows[i].heading.value.level)
    ensures Path(rows, i, i) == Path(rows, i - 1, i)[..kept]
  {
    LevelsIncrease(rows, i - 1, i);
    PopByIndex(rows, i, i, kept);
  }

  lemma {:induction false} PopByIndex(rows: seq<Row>, i: nat, n: nat, kept: nat)
    requires 0 < i < |rows| && !Gap(rows, i) && rows[i].heading.Some? && n <= i
    requires kept <= |Path(rows, i - 1, i)| && Path(rows, i - 1, n) <= Path(rows, i - 1, i)
    requires var path, level := Path(rows, i - 1, i), rows[i].heading.value.level;
             forall k | 0 <= k < |path| :: k < kept <==> rows[path[k]].heading.value.level < level
    ensures var before := Path(rows, i - 1, n);
            Path(rows, i, n) == before[..if kept < |before| then kept else |before|]
  {
    if n > 0 {
      var path := Path(rows, i - 1, i);
      var before := Path(rows, i - 1, n - 1);
      assert before <= Path(rows, i - 1, n) <= path;
      PopByIndex(rows, i, n - 1, kept);
      GovernsContinues(rows, n - 1, i);
      if Governs(rows, n - 1, i - 1) {
        assert path[|before|] == n - 1;
      }
    }
  }

  // ----- the stack itself

  /** Pops every entry at or below the level of a new heading. */
  method Pop(stack: seq<Entry>, level: int) returns (kept: seq<Entry>)
    ensures kept <= stack && (kept != [] ==> kept[|kept| - 1].level < level)
    ensures forall k | |kept| <= k < |stack| :: stack[k].level >= level
  {
    kept := stack;
    while kept != [] && kept[|kept| - 1].level >= level
      invariant kept <= stack
      invariant forall k | |kept| <= k < |stack| :: stack[k].level >= level
    {
      kept := kept[..|kept| - 1];
    }
  }

  /** The entries still standing when block i is reached. */
  function Standing(rows: seq<Row>, i: nat): seq<Entry>
    requires i < |rows|
  {
    if i == 0 || Gap(rows, i) then [] else Section(rows, i - 1)
  }

  lemma {:induction false} HeadingStep(rows: seq<Row>, i: nat, kept: seq<Entry>)
    requires i < |rows| && rows[i].heading.Some? && kept <= Standing(rows, i)
    requires kept != [] ==> kept[|kept| - 1].level < rows[i].heading.value.level
    requires forall k | |kept| <= k < |Standing(rows, i)| :: Standing(rows, i)[k].level >= rows[i].heading.value.level
    ensures Section(rows, i) == kept + [EntryOf(rows, i)]
  {
    if i == 0 {
      assert Path(rows, 0, 0) == [];
    } else if Gap(rows, i) {
      PathAfterGap(rows, i, i);
    } else {
      LaterHeadingStep(rows, i, Section(rows, i - 1), kept);
    }
  }

  lemma {:induction false} LaterHeadingStep(rows: seq<Row>, i: nat, before: seq<Entry>, kept: seq<Entry>)
    requires 0 < i < |rows| && rows[i].heading.Some? && !Gap(rows, i)
    requires before == Section(rows, i - 1) && kept <= before
    requires kept != [] ==> kept[|kept| - 1].level < rows[i].heading.value.level
    requires forall k | |kept| <= k < |before| :: before[k].level >= rows[i].heading.value.level
    ensures Section(rows, i) == kept + [EntryOf(rows, i)]
  {
    var path := Path(rows, i - 1, i);
    forall k | 0 <= k < |path| ensures before[k].level == rows[path[k]].heading.value.level {}
    PathAfterPop(rows, i, |kept|);
    assert Path(rows, i, i + 1) == path[..|kept|] + [i];
    EntriesOfPopped(rows, path, |kept|, i);
  }

  lemma {:induction false} EntriesOfPopped(rows: seq<Row>, path: seq<nat>, kept: nat, i: nat)
    requires AreHeadings(rows, path) && kept <= |path| && i < |rows| && rows[i].heading.Some?
    ensures AreHeadings(rows, path[..kept] + [i])
    ensures Entries(rows, path[..kept] + [i]) == Entries(rows, path)[..kept] + [EntryOf(rows, i)]
  {
  }

  lemma {:induction false} PlainStep(rows: seq<Row>, i: nat)
    requires i < |rows| && rows[i].heading.None?
    ensures Section(rows, i) == Standing(rows, i)
  {
    if i == 0 {
      assert Path(rows, 0, 0) == [];
    } else if Gap(rows, i) {
      PathAfterGap(rows, i, i);
    } else {
      SameSection(rows, i);
    }
  }

  /** The stack after block i, from the stack after the block before it. */
  method Advance(rows: seq<Row>, i: nat, before: seq<Entry>) returns (stack: seq<Entry>)
    requires i < |rows| && before == if i == 0 then [] else Section(rows, i - 1)
    ensures stack == Section(rows, i)
  {
    stack := if Gap(rows, i) then [] else before;
    if rows[i].heading.Some? {
      var kept := Pop(stack, rows[i].heading.value.level);
      HeadingStep(rows, i, kept);
      stack := kept + [EntryOf(rows, i)];
    } else {
      PlainStep(rows, i);
    }
  }

  /** The section paths of the blocks below n. */
  function Sections(rows: seq<Row>, n: nat): (sections: seq<seq<Entry>>)
    requires n <= |rows|
    ensures |sections| == n
  {
    if n == 0 then [] else Sections(rows, n - 1) + [Section(rows, n - 1)]
  }

  /** Blocks in ordinal order, each with its section path. */
  method SourceStructure(records: seq<Row>) returns (rows: seq<Row>, sections: seq<seq<Entry>>)
    ensures rows == Ordered(records) && sections == Sections(rows, |rows|)
  {
    rows := Ordered(records);
    sections := [];
    var stack: seq<Entry> := [];
    for i := 0 to |rows|
      invariant sections == Sections(rows, i)
      invariant stack == if i == 0 then [] else Section(rows, i - 1)
    {
      stack := Advance(rows, i, stack);
      sections := sections + [stack];
    }
  }
}
