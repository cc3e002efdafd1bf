/** Splitting a long text into packets that fit a request budget (backend/fund_kb/answer_packing.py).
    `fits` is the budget test and `isLabel` says whether a line is a standalone citation label. */
module TextPacking {
  import opened Wrappers

  // ----- vocabulary

  /** A line of text with its line end. */
  predicate Line(s: string) {
    |s| > 0 && s[|s| - 1] == '\n' && forall i | 0 <= i < |s| - 1 :: s[i] != '\n'
  }

  ghost predicate LineTest(isLabel: string -> bool) {
    forall s | isLabel(s) :: Line(s)
  }

  /** Text that fits still fits after its end is cut off. */
  ghost predicate Monotone(fits: string -> bool, prefix: string, suffix: string) {
    forall s: string, k | 0 <= k <= |s| && fits(prefix + s + suffix) :: fits(prefix + s[..k] + suffix)
  }

  predicate LineStart(text: string, at: nat) {
    at == 0 || (at <= |text| && text[at - 1] == '\n')
  }

  ghost predicate LabelAt(text: string, isLabel: string -> bool, from: nat, to: nat) {
    from < to <= |text| && LineStart(text, from) && isLabel(text[from..to])
  }

  /** A label line directly behind another one, with something of the text left behind both. */
  ghost predicate AdjacentAt(text: string, isLabel: string -> bool, a: nat, b: nat, c: nat) {
    LabelAt(text, isLabel, a, b) && LabelAt(text, isLabel, b, c) && c < |text|
  }

  ghost predicate AdjacentInside(text: string, isLabel: string -> bool) {
    exists a, b, c :: AdjacentAt(text, isLabel, a, b, c)
  }

  /** The packet text[from..to] ends in a label line that lies in it whole. */
  ghost predicate EndsInLabel(text: string, isLabel: string -> bool, from: nat, to: nat) {
    exists l :: from <= l && LabelAt(text, isLabel, l, to)
  }

  function Joined(packets: seq<string>): string {
    if packets == [] then "" else Joined(packets[..|packets| - 1]) + packets[|packets| - 1]
  }

  function Cut(packets: seq<string>, n: nat): nat
    requires n <= |packets|
  {
    |Joined(packets[..n])|
  }

  /** How a packet that is not the last one was cut off the text. */
  ghost predicate GoodCut(text: string, prefix: string, suffix: string, fits: string -> bool, from: nat, to: nat) {
    && from < to < |text|
    && (Monotone(fits, prefix, suffix) ==>
          && fits(prefix + text[from..to] + suffix)
          // it ends a line, or one more character would not have fitted
          && (text[to - 1] == '\n' || !fits(prefix + text[from..to + 1] + suffix)))
  }

  function LastNewline(text: string, from: nat, to: nat): (at: int)
    requires from <= to <= |text|
    ensures at == -1 || (from <= at < to && text[at] == '\n')
    ensures forall i | from <= i < to && at < i :: text[i] != '\n'
  {
    if from == to then -1 else if text[to - 1] == '\n' then to - 1 else LastNewline(text, from, to - 1)
  }

  predicate FitsWithin(text: string, prefix: string, suffix: string, fits: string -> bool, from: nat, to: nat)
    requires from <= to <= |text|
  {
    fits(prefix + text[from..to] + suffix)
  }

  lemma {:induction false} ShorterFits(text: string, prefix: string, suffix: string, fits: string -> bool,
                                       from: nat, k: nat, to: nat)
    requires from <= k <= to <= |text| && FitsWithin(text, prefix, suffix, fits, from, to)
    ensures Monotone(fits, prefix, suffix) ==> FitsWithin(text, prefix, suffix, fits, from, k)
  {
    assert text[from..to][..k - from] == text[from..k];
  }

  /** The binary search: a number between `low` and `high` found by asking `ok`. */
  function Search(ok: nat -> bool, low: nat, high: nat): (found: nat)
    requires low <= high
    ensures low <= found <= high
    decreases high - low
  {
    if low == high then low
    else
      var size := (low + high + 1) / 2;
      if ok(size) then Search(ok, size, high) else Search(ok, low, size - 1)
  }

  lemma {:induction false} SearchFinds(ok: nat -> bool, low: nat, high: nat)
    requires low <= high && (low == 0 || ok(low))
    ensures Search(ok, low, high) == 0 || ok(Search(ok, low, high))
    decreases high - low
  {
    if low < high {
      var size := (low + high + 1) / 2;
      if ok(size) { SearchFinds(ok, size, high); } else { SearchFinds(ok, low, size - 1); }
    }
  }

  /** It stops where asking once more would be refused. */
  lemma {:induction false} SearchStops(ok: nat -> bool, low: nat, high: nat)
    requires low <= high && !ok(high + 1)
    ensures !ok(Search(ok, low, high) + 1)
    decreases high - low
  {
    if low < high {
      var size := (low + high + 1) / 2;
      if ok(size) { SearchStops(ok, size, high); } else { SearchStops(ok, low, size - 1); }
    }
  }

  /** Whether so many characters of text[offset..] fit. */
  function Fitting(text: string, offset: nat, prefix: string, suffix: string, fits: string -> bool): nat -> bool {
    (k: nat) => offset + k <= |text| && FitsWithin(text, prefix, suffix, fits, offset, offset + k)
  }

  lemma {:induction false} FittingAsks(text: string, offset: nat, prefix: string, suffix: string, fits: string -> bool,
                                       k: nat)
    requires offset + k <= |text|
    ensures Fitting(text, offset, prefix, suffix, fits)(k) == fits(prefix + text[offset..offset + k] + suffix)
  {
    assert FitsWithin(text, prefix, suffix, fits, offset, offset + k)
        == fits(prefix + text[offset..offset + k] + suffix);
  }

  /** How much of text[offset..] the search finds to fit. */
  function Longest(text: string, offset: nat, prefix: string, suffix: string, fits: string -> bool): (low: nat)
    requires offset <= |text|
    ensures offset + low <= |text|
  {
    Search(Fitting(text, offset, prefix, suffix, fits), 0, |text| - offset)
  }

  /** Whether all of text[offset..] fits. */
  predicate FitsWhole(text: string, offset: nat, prefix: string, suffix: string, fits: string -> bool)
    requires offset <= |text|
  {
    FitsWithin(text, prefix, suffix, fits, offset, |text|)
  }

  /** What is found fits, and it is not all of the text when that does not fit. */
  lemma {:induction false} LongestIsShort(text: string, offset: nat, prefix: string, suffix: string,
                                          fits: string -> bool)
    requires offset < |text| && !FitsWhole(text, offset, prefix, suffix, fits)
    ensures var low := Longest(text, offset, prefix, suffix, fits);
            offset + low < |text| && (low > 0 ==> FitsWithin(text, prefix, suffix, fits, offset, offset + low))
  {
    SearchFinds(Fitting(text, offset, prefix, suffix, fits), 0, |text| - offset);
  }

  /** One character more does not fit; for a monotone budget, nothing longer does. */
  lemma {:induction false} LongestStops(text: string, offset: nat, prefix: string, suffix: string, fits: string -> bool)
    requires offset < |text| && !FitsWhole(text, offset, prefix, suffix, fits)
    ensures var low := Longest(text, offset, prefix, suffix, fits);
            offset + low < |text| && !FitsWithin(text, prefix, suffix, fits, offset, offset + low + 1)
  {
    LongestIsShort(text, offset, prefix, suffix, fits);
    SearchStops(Fitting(text, offset, prefix, suffix, fits), 0, |text| - offset);
  }

  lemma {:induction false} LongestIsLongest(text: string, offset: nat, prefix: string, suffix: string,
                                            fits: string -> bool, k: nat)
    requires offset < |text| && !FitsWhole(text, offset, prefix, suffix, fits) && Monotone(fits, prefix, suffix)
    requires Longest(text, offset, prefix, suffix, fits) < k <= |text| - offset
    ensures !FitsWithin(text, prefix, suffix, fits, offset, offset + k)
  {
    LongestStops(text, offset, prefix, suffix, fits);
    if FitsWithin(text, prefix, suffix, fits, offset, offset + k) {
      var longest := Longest(text, offset, prefix, suffix, fits);
      ShorterFits(text, prefix, suffix, fits, offset, offset + longest + 1, offset + k);
    }
  }

  /** The search as it runs; the whole of text[offset..] is known not to fit. The result fits, and one character
      more does not. */
  method LongestPrefix(text: string, offset: nat, prefix: string, suffix: string, fits: string -> bool)
    returns (low: nat)
    requires offset < |text| && !FitsWhole(text, offset, prefix, suffix, fits)
    ensures low == Longest(text, offset, prefix, suffix, fits) && offset + low < |text|
    ensures low > 0 ==> FitsWithin(text, prefix, suffix, fits, offset, offset + low)
    ensures !FitsWithin(text, prefix, suffix, fits, offset, offset + low + 1)
  {
    var high := |text| - offset;
    low := 0;
    while low < high
      invariant low <= high <= |text| - offset
      invariant Search(Fitting(text, offset, prefix, suffix, fits), low, high)
             == Longest(text, offset, prefix, suffix, fits)
    {
      var size := (low + high + 1) / 2;
      FittingAsks(text, offset, prefix, suffix, fits, size);
      if fits(prefix + text[offset..offset + size] + suffix) {
        low := size;
      } else {
        high := size - 1;
      }
    }
    LongestIsShort(text, offset, prefix, suffix, fits);
    LongestStops(text, offset, prefix, suffix, fits);
  }

  // ----- one cut

  /** Where to cut: after the last line end of the fitting prefix, but never behind a standalone label. */
  function CutPoint(text: string, offset: nat, low: nat, isLabel: string -> bool): (end: Option<nat>)
    requires 0 < low && offset + low <= |text|
    ensures end.Some? ==> offset < end.value <= offset + low
  {
    var boundary := LastNewline(text, offset, offset + low);
    var cut := if boundary > offset then boundary + 1 else offset + low;
    var lastLine := Max(offset, LastNewline(text, offset, Max(offset, cut - 1)) + 1);
    if isLabel(text[lastLine..cut]) then
      if lastLine > offset then Some(lastLine)
      else if boundary >= offset && low > cut - offset then Some(offset + low)
      else None
    else Some(cut)
  }

  function Max(a: int, b: int): int {
    if a < b then b else a
  }

  lemma {:induction false} CutPointEndsALine(text: string, offset: nat, low: nat, isLabel: string -> bool)
    requires LineTest(isLabel) && 0 < low && offset + low <= |text|
    ensures var end := CutPoint(text, offset, low, isLabel);
            && (end.Some? ==> end.value == offset + low || text[end.value - 1] == '\n')
            && (end.None? ==> isLabel(text[offset..offset + low]))
  {
    var boundary := LastNewline(text, offset, offset + low);
    var cut := if boundary > offset then boundary + 1 else offset + low;
    var lastLine := Max(offset, LastNewline(text, offset, Max(offset, cut - 1)) + 1);
    if isLabel(text[lastLine..cut]) {
      LabelIsLine(text, isLabel, lastLine, cut);
    }
  }

  /** The two places that decide where to cut. */
  function LineBefore(text: string, offset: nat, low: nat): (nat, nat)
    requires 0 < low && offset + low <= |text|
  {
    var boundary := LastNewline(text, offset, offset + low);
    var cut := if boundary > offset then boundary + 1 else offset + low;
    (Max(offset, LastNewline(text, offset, Max(offset, cut - 1)) + 1), cut)
  }

  lemma {:induction false} LineBeforeIsLine(text: string, offset: nat, low: nat)
    requires 0 < low && offset + low <= |text|
    ensures var (lastLine, cut) := LineBefore(text, offset, low);
            && offset <= lastLine < cut <= offset + low
            && (lastLine > offset ==> text[lastLine - 1] == '\n')
            && (forall i | lastLine <= i < cut - 1 :: text[i] != '\n')
            && (text[offset + low - 1] == '\n' && low > 1 ==> cut == offset + low)
  {
  }

  lemma {:induction false} CutPointIs(text: string, offset: nat, low: nat, isLabel: string -> bool)
    requires LineTest(isLabel) && 0 < low && offset + low <= |text|
    ensures var (lastLine, cut) := LineBefore(text, offset, low);
            && offset <= lastLine < cut <= offset + low
            && CutPoint(text, offset, low, isLabel)
               == if !isLabel(text[lastLine..cut]) then Some(cut)
                  else if lastLine > offset then Some(lastLine)
                  else if cut < offset + low then Some(offset + low) else None
  {
    LineBeforeIsLine(text, offset, low);
    var (lastLine, cut) := LineBefore(text, offset, low);
    if isLabel(text[lastLine..cut]) {
      LabelIsLine(text, isLabel, lastLine, cut);
    }
  }

  lemma {:induction false} CutPointAvoidsLabels(text: string, offset: nat, low: nat, isLabel: string -> bool)
    requires LineTest(isLabel) && 0 < low && offset + low < |text| && !AdjacentInside(text, isLabel)
    requires CutPoint(text, offset, low, isLabel).Some?
    ensures !EndsInLabel(text, isLabel, offset, CutPoint(text, offset, low, isLabel).value)
  {
    var (lastLine, cut) := LineBefore(text, offset, low);
    LineBeforeIsLine(text, offset, low);
    CutPointIs(text, offset, low, isLabel);
    if !isLabel(text[lastLine..cut]) {
      CutAfterLine(text, isLabel, offset, lastLine, cut);
    } else if lastLine > offset {
      CutBeforeLabel(text, isLabel, offset, lastLine, cut);
    } else {
      NoLabelWithoutNewline(text, isLabel, offset, offset + low);
    }
  }

  lemma {:induction false} CutPointIsGood(text: string, offset: nat, low: nat, prefix: string, suffix: string,
                                          fits: string -> bool, isLabel: string -> bool)
    requires LineTest(isLabel) && 0 < low && offset + low <= |text|
    requires offset + low < |text| && fits(prefix + text[offset..offset + low] + suffix)
    requires Monotone(fits, prefix, suffix) ==> !fits(prefix + text[offset..offset + low + 1] + suffix)
    requires CutPoint(text, offset, low, isLabel).Some?
    ensures GoodCut(text, prefix, suffix, fits, offset, CutPoint(text, offset, low, isLabel).value)
  {
    CutPointEndsALine(text, offset, low, isLabel);
    PrefixFits(text, prefix, suffix, fits, offset, CutPoint(text, offset, low, isLabel).value, offset + low);
  }

  lemma {:induction false} PrefixFits(text: string, prefix: string, suffix: string, fits: string -> bool,
                                      from: nat, to: nat, limit: nat)
    requires from <= to <= limit <= |text| && fits(prefix + text[from..limit] + suffix)
    ensures Monotone(fits, prefix, suffix) ==> fits(prefix + text[from..to] + suffix)
  {
    assert text[from..limit][..to - from] == text[from..to];
  }

  lemma {:induction false} LabelIsLine(text: string, isLabel: string -> bool, from: nat, to: nat)
    requires LineTest(isLabel) && from < to <= |text| && isLabel(text[from..to])
    ensures text[to - 1] == '\n' && forall i | from <= i < to - 1 :: text[i] != '\n'
  {
    var s := text[from..to];
    assert Line(s);
    assert s[|s| - 1] == text[to - 1];
    forall i | from <= i < to - 1 ensures text[i] != '\n' {
      assert s[i - from] == text[i];
    }
  }

  /** The line before a label is not a label, so a packet cut off before a label ends in none. */
  lemma {:induction false} CutBeforeLabel(text: string, isLabel: string -> bool, offset: nat, lastLine: nat, cut: nat)
    requires LineTest(isLabel) && offset < lastLine < cut < |text|
    requires text[lastLine - 1] == '\n' && isLabel(text[lastLine..cut])
    ensures !AdjacentInside(text, isLabel) ==> !EndsInLabel(text, isLabel, offset, lastLine)
  {
    forall l | offset <= l && LabelAt(text, isLabel, l, lastLine) ensures AdjacentInside(text, isLabel) {
      assert AdjacentAt(text, isLabel, l, lastLine, cut);
    }
  }

  lemma {:induction false} NoLabelWithoutNewline(text: string, isLabel: string -> bool, from: nat, to: nat)
    requires LineTest(isLabel) && from < to <= |text| && text[to - 1] != '\n'
    ensures !EndsInLabel(text, isLabel, from, to)
  {
    forall l | from <= l && LabelAt(text, isLabel, l, to) ensures false {
      LabelIsLine(text, isLabel, l, to);
    }
  }

  /** A packet that ends a line, where that line as far as it lies in the packet is no label. */
  lemma {:induction false} CutAfterLine(text: string, isLabel: string -> bool, offset: nat, lastLine: nat, cut: nat)
    requires LineTest(isLabel) && offset <= lastLine < cut <= |text|
    requires lastLine > offset ==> text[lastLine - 1] == '\n'
    requires forall i | lastLine <= i < cut - 1 :: text[i] != '\n'
    requires !isLabel(text[lastLine..cut])
    ensures !EndsInLabel(text, isLabel, offset, cut)
  {
    forall l | offset <= l && LabelAt(text, isLabel, l, cut) ensures false {
      LabelIsLine(text, isLabel, l, cut);
    }
  }

  // ----- the whole text

  lemma {:induction false} JoinedAppend(packets: seq<string>, p: string)
    ensures Joined(packets + [p]) == Joined(packets) + p
    ensures forall i | 0 <= i <= |packets| :: Cut(packets + [p], i) == Cut(packets, i)
  {
    assert (packets + [p])[..|packets|] == packets;
    forall i | 0 <= i <= |packets| ensures Cut(packets + [p], i) == Cut(packets, i) {
      assert (packets + [p])[..i] == packets[..i];
    }
  }

  ghost predicate GoodCuts(text: string, prefix: string, suffix: string, fits: string -> bool,
                           isLabel: string -> bool, packets: seq<string>, n: nat)
    requires n <= |packets|
  {
    forall i | 0 <= i < n ::
      && GoodCut(text, prefix, suffix, fits, Cut(packets, i), Cut(packets, i + 1))
      && (!AdjacentInside(text, isLabel) ==> !EndsInLabel(text, isLabel, Cut(packets, i), Cut(packets, i + 1)))
  }

  /** Some single character does not fit, or some label line does not fit with one character behind it. */
  ghost predicate TooSmall(text: string, prefix: string, suffix: string, fits: string -> bool,
                           isLabel: string -> bool) {
    || !fits(prefix + suffix)
    || (exists from, to | 0 <= from && to == from + 1 <= |text| :: !FitsWithin(text, prefix, suffix, fits, from, to))
    || (exists from, to | 0 <= from < to - 1 < |text| :: isLabel(text[from..to - 1])
          && !FitsWithin(text, prefix, suffix, fits, from, to))
  }

  /** The packets made so far: text[..offset], losslessly, in non-empty packets that fit and are cut well. */
  ghost predicate Packed(text: string, prefix: string, suffix: string, fits: string -> bool,
                         isLabel: string -> bool, packets: seq<string>, offset: nat, cuts: nat)
    requires cuts <= |packets|
  {
    && offset <= |text|
    && Joined(packets) == text[..offset]
    && (forall i | 0 <= i < |packets| :: packets[i] != "")
    && GoodCuts(text, prefix, suffix, fits, isLabel, packets, cuts)
    && (Monotone(fits, prefix, suffix) ==> forall i | 0 <= i < |packets| :: fits(prefix + packets[i] + suffix))
  }

  lemma {:induction false} AddPacket(text: string, prefix: string, suffix: string, fits: string -> bool,
                                     isLabel: string -> bool, packets: seq<string>, from: nat, to: nat)
    requires Packed(text, prefix, suffix, fits, isLabel, packets, from, |packets|) && from < to <= |text|
    requires Monotone(fits, prefix, suffix) ==> fits(prefix + text[from..to] + suffix)
    ensures Packed(text, prefix, suffix, fits, isLabel, packets + [text[from..to]], to, |packets|)
    ensures GoodCut(text, prefix, suffix, fits, from, to)
            && (!AdjacentInside(text, isLabel) ==> !EndsInLabel(text, isLabel, from, to)) ==>
              GoodCuts(text, prefix, suffix, fits, isLabel, packets + [text[from..to]], |packets| + 1)
  {
    var more := packets + [text[from..to]];
    JoinedAppend(packets, text[from..to]);
    assert text[..from] + text[from..to] == text[..to];
    assert packets[..|packets|] == packets && more[..|packets| + 1] == more;
  }

  /** What is packed of text[offset..]. */
  function PackFrom(text: string, offset: nat, prefix: string, suffix: string, fits: string -> bool,
                    isLabel: string -> bool): Result<seq<string>, ()>
    requires offset <= |text|
    decreases |text| - offset
  {
    if offset == |text| then Success([])
    else if FitsWhole(text, offset, prefix, suffix, fits) then Success([text[offset..]])
    else
      var low := Longest(text, offset, prefix, suffix, fits);
      if low == 0 then Failure(())
      else match CutPoint(text, offset, low, isLabel)
        case None => Failure(())
        case Some(end) => Prepend(text[offset..end], PackFrom(text, end, prefix, suffix, fits, isLabel))
  }

  function Prepend(packet: string, rest: Result<seq<string>, ()>): Result<seq<string>, ()> {
    match rest case Success(packets) => Success([packet] + packets) case Failure(e) => Failure(e)
  }

  function PrependAll(packets: seq<string>, rest: Result<seq<string>, ()>): Result<seq<string>, ()> {
    match rest case Success(more) => Success(packets + more) case Failure(e) => Failure(e)
  }

  function Pack(text: string, prefix: string, suffix: string, fits: string -> bool, isLabel: string -> bool):
    Result<seq<string>, ()>
  {
    if !fits(prefix + suffix) then Failure(())
    else if text == "" then Success([""])
    else PackFrom(text, 0, prefix, suffix, fits, isLabel)
  }

  lemma {:induction false} PrependMore(packets: seq<string>, p: string, rest: Result<seq<string>, ()>)
    ensures PrependAll(packets + [p], rest) == PrependAll(packets, Prepend(p, rest))
    ensures PrependAll([], rest) == rest
  {
    if rest.Success? {
      assert packets + [p] + rest.value == packets + ([p] + rest.value);
      assert [] + rest.value == rest.value;
    }
  }

  /** The packets made so far, and that the rest is still to be packed. */
  ghost predicate Underway(text: string, prefix: string, suffix: string, fits: string -> bool,
                           isLabel: string -> bool, packets: seq<string>, offset: nat, cuts: nat)
    requires cuts <= |packets|
  {
    && Packed(text, prefix, suffix, fits, isLabel, packets, offset, cuts)
    && PackFrom(text, 0, prefix, suffix, fits, isLabel)
       == PrependAll(packets, PackFrom(text, offset, prefix, suffix, fits, isLabel))
  }

  lemma {:induction false} CutIsRight(text: string, prefix: string, suffix: string, fits: string -> bool,
                                      isLabel: string -> bool, from: nat, to: nat)
    requires LineTest(isLabel) && from < |text| && !FitsWhole(text, from, prefix, suffix, fits)
    requires Longest(text, from, prefix, suffix, fits) > 0
    requires CutPoint(text, from, Longest(text, from, prefix, suffix, fits), isLabel) == Some(to)
    ensures GoodCut(text, prefix, suffix, fits, from, to)
    ensures !AdjacentInside(text, isLabel) ==> !EndsInLabel(text, isLabel, from, to)
  {
    var low := Longest(text, from, prefix, suffix, fits);
    LongestIsShort(text, from, prefix, suffix, fits);
    LongestStops(text, from, prefix, suffix, fits);
    CutPointIsGood(text, from, low, prefix, suffix, fits, isLabel);
    if !AdjacentInside(text, isLabel) {
      CutPointAvoidsLabels(text, from, low, isLabel);
    }
  }

  lemma {:induction false} CutOff(text: string, prefix: string, suffix: string, fits: string -> bool,
                                  isLabel: string -> bool, packets: seq<string>, from: nat, to: nat)
    requires LineTest(isLabel) && Underway(text, prefix, suffix, fits, isLabel, packets, from, |packets|)
    requires from < |text| && !FitsWhole(text, from, prefix, suffix, fits)
    requires Longest(text, from, prefix, suffix, fits) > 0
    requires CutPoint(text, from, Longest(text, from, prefix, suffix, fits), isLabel) == Some(to)
    ensures Underway(text, prefix, suffix, fits, isLabel, packets + [text[from..to]], to, |packets| + 1)
  {
    CutIsRight(text, prefix, suffix, fits, isLabel, from, to);
    AddPacket(text, prefix, suffix, fits, isLabel, packets, from, to);
    PrependMore(packets, text[from..to], PackFrom(text, to, prefix, suffix, fits, isLabel));
  }

  lemma {:induction false} TakeTheRest(text: string, prefix: string, suffix: string, fits: string -> bool,
                                       isLabel: string -> bool, packets: seq<string>, from: nat)
    requires Underway(text, prefix, suffix, fits, isLabel, packets, from, |packets|)
    requires from < |text| && FitsWhole(text, from, prefix, suffix, fits)
    ensures Packed(text, prefix, suffix, fits, isLabel, packets + [text[from..]], |text|, |packets|)
    ensures PackFrom(text, 0, prefix, suffix, fits, isLabel) == Success(packets + [text[from..]])
  {
    assert text[from..|text|] == text[from..];
    AddPacket(text, prefix, suffix, fits, isLabel, packets, from, |text|);
  }

  lemma {:induction false} GivesUp(text: string, prefix: string, suffix: string, fits: string -> bool,
                                   isLabel: string -> bool, from: nat)
    requires LineTest(isLabel) && from < |text| && !FitsWhole(text, from, prefix, suffix, fits)
    requires var low := Longest(text, from, prefix, suffix, fits);
             low == 0 || CutPoint(text, from, low, isLabel).None?
    ensures TooSmall(text, prefix, suffix, fits, isLabel)
  {
    var low := Longest(text, from, prefix, suffix, fits);
    LongestStops(text, from, prefix, suffix, fits);
    if low > 0 {
      CutPointEndsALine(text, from, low, isLabel);
      assert text[from..from + low + 1 - 1] == text[from..from + low];
    }
  }

  /** Every character in order, in non-empty packets that fit; or the reason why there is no such packing. */
  method PackText(text: string, prefix: string, suffix: string, fits: string -> bool, isLabel: string -> bool)
    returns (r: Result<seq<string>, ()>)
    requires LineTest(isLabel)
    ensures r == Pack(text, prefix, suffix, fits, isLabel)
    ensures r.Success? ==> r.value != [] && Joined(r.value) == text
    ensures r.Success? && text != "" ==>
              Packed(text, prefix, suffix, fits, isLabel, r.value, |text|, |r.value| - 1)
    ensures r.Failure? ==> TooSmall(text, prefix, suffix, fits, isLabel)
  {
    if !fits(prefix + suffix) {
      return Failure(());
    }
    if text == "" {
      assert Joined([""]) == "";
      return Success([""]);
    }
    var chunks: seq<string> := [];
    var offset := 0;
    PrependMore([], "", PackFrom(text, 0, prefix, suffix, fits, isLabel));
    while offset < |text|
      invariant offset < |text|
      invariant Underway(text, prefix, suffix, fits, isLabel, chunks, offset, |chunks|)
      decreases |text| - offset
    {
      assert text[offset..|text|] == text[offset..];
      if fits(prefix + text[offset..] + suffix) {
        TakeTheRest(text, prefix, suffix, fits, isLabel, chunks, offset);
        assert text[..|text|] == text;
        return Success(chunks + [text[offset..]]);
      }
      var low := LongestPrefix(text, offset, prefix, suffix, fits);
      if low == 0 {
        GivesUp(text, prefix, suffix, fits, isLabel, offset);
        return Failure(());
      }
      var end := CutPoint(text, offset, low, isLabel);
      if end.None? {
        GivesUp(text, prefix, suffix, fits, isLabel, offset);
        return Failure(());
      }
      CutOff(text, prefix, suffix, fits, isLabel, chunks, offset, end.value);
      chunks := chunks + [text[offset..end.value]];
      offset := end.value;
    }
  }

  // ----- exactly when no packet but the last ends in a label

  /** Of consecutive packets from `offset` on, none but the last ends in a label line that lies in it whole. */
  ghost predicate NoLabelEnds(text: string, isLabel: string -> bool, offset: nat, packets: seq<string>)
    decreases |packets|
  {
    |packets| <= 1
    || (!EndsInLabel(text, isLabel, offset, offset + |packets[0]|)
        && NoLabelEnds(text, isLabel, offset + |packets[0]|, packets[1..]))
  }

  lemma {:induction false} PackFromAvoidsLabels(text: string, offset: nat, prefix: string, suffix: string,
                                                fits: string -> bool, isLabel: string -> bool)
    requires LineTest(isLabel) && offset <= |text| && !AdjacentInside(text, isLabel)
    requires PackFrom(text, offset, prefix, suffix, fits, isLabel).Success?
    ensures NoLabelEnds(text, isLabel, offset, PackFrom(text, offset, prefix, suffix, fits, isLabel).value)
    decreases |text| - offset
  {
    if offset < |text| && !FitsWhole(text, offset, prefix, suffix, fits) {
      var low := Longest(text, offset, prefix, suffix, fits);
      LongestIsShort(text, offset, prefix, suffix, fits);
      var end := CutPoint(text, offset, low, isLabel).value;
      CutPointAvoidsLabels(text, offset, low, isLabel);
      PackFromAvoidsLabels(text, end, prefix, suffix, fits, isLabel);
      var rest := PackFrom(text, end, prefix, suffix, fits, isLabel).value;
      assert ([text[offset..end]] + rest)[1..] == rest;
    }
  }

  /** A budget that just takes the first c characters, and a label line of that length with one character behind it. */
  function UpTo(c: nat, isLabel: string -> bool): string -> bool {
    s => |s| <= c || (|s| == c + 1 && isLabel(s[..c]))
  }

  lemma {:induction false} UpToIsMonotone(c: nat, isLabel: string -> bool)
    ensures Monotone(UpTo(c, isLabel), "", "")
  {
    var fits := UpTo(c, isLabel);
    forall s: string, k | 0 <= k <= |s| && fits("" + s + "") ensures fits("" + s[..k] + "") {
      assert "" + s + "" == s && "" + s[..k] + "" == s[..k];
      if k == |s| {
        assert s[..k] == s;
      }
    }
  }

  /** How many characters that budget takes from `offset` on. */
  function Room(text: string, offset: nat, c: nat, isLabel: string -> bool): nat {
    if offset + c <= |text| && isLabel(text[offset..offset + c]) then c + 1 else c
  }

  lemma {:induction false} UpToWithin(text: string, c: nat, isLabel: string -> bool, from: nat, to: nat)
    requires from <= to <= |text|
    ensures FitsWithin(text, "", "", UpTo(c, isLabel), from, to) <==> to - from <= Room(text, from, c, isLabel)
  {
    assert "" + text[from..to] + "" == text[from..to];
    if to - from == c + 1 {
      assert text[from..to][..c] == text[from..from + c];
    }
  }

  lemma {:induction false} UpToTakes(text: string, offset: nat, c: nat, isLabel: string -> bool)
    requires offset < |text| && !FitsWhole(text, offset, "", "", UpTo(c, isLabel)) && c > 0
    ensures Longest(text, offset, "", "", UpTo(c, isLabel)) == Room(text, offset, c, isLabel)
    ensures offset + Room(text, offset, c, isLabel) < |text|
  {
    var fits := UpTo(c, isLabel);
    var low := Longest(text, offset, "", "", fits);
    LongestIsShort(text, offset, "", "", fits);
    LongestStops(text, offset, "", "", fits);
    UpToWithin(text, c, isLabel, offset, offset + low);
    UpToWithin(text, c, isLabel, offset, offset + low + 1);
  }

  lemma {:induction false} UpToCuts(text: string, offset: nat, low: nat, c: nat, isLabel: string -> bool)
    requires LineTest(isLabel) && c > 0 && offset + low < |text| && low == Room(text, offset, c, isLabel)
    ensures CutPoint(text, offset, low, isLabel).Some?
  {
    CutPointEndsALine(text, offset, low, isLabel);
    if isLabel(text[offset..offset + c]) {
      LabelIsLine(text, isLabel, offset, offset + c);
      NotALine(text, isLabel, offset, offset + c, offset + low);
    }
  }

  lemma {:induction false} NotALine(text: string, isLabel: string -> bool, from: nat, k: nat, to: nat)
    requires LineTest(isLabel) && from < k < to <= |text| && text[k - 1] == '\n'
    ensures !isLabel(text[from..to])
  {
    assert text[from..to][k - 1 - from] == '\n';
  }

  /** Under that budget the packing never gives up. */
  lemma {:induction false} UpToNeverGivesUp(text: string, offset: nat, c: nat, isLabel: string -> bool)
    requires LineTest(isLabel) && offset <= |text| && c > 0
    ensures PackFrom(text, offset, "", "", UpTo(c, isLabel), isLabel).Success?
    decreases |text| - offset
  {
    if offset < |text| && !FitsWhole(text, offset, "", "", UpTo(c, isLabel)) {
      var low := Room(text, offset, c, isLabel);
      UpToTakes(text, offset, c, isLabel);
      UpToCuts(text, offset, low, c, isLabel);
      UpToNeverGivesUp(text, CutPoint(text, offset, low, isLabel).value, c, isLabel);
    }
  }

  /** Two adjacent labels with something behind them: the cut behind the second moves back by one line only, and the
      packet ends in the first. */
  lemma {:induction false} AdjacentLabelsGetCut(text: string, isLabel: string -> bool, a: nat, b: nat, c: nat)
    requires LineTest(isLabel) && AdjacentAt(text, isLabel, a, b, c)
    ensures CutPoint(text, 0, c, isLabel) == Some(b) && EndsInLabel(text, isLabel, 0, b)
  {
    LabelIsLine(text, isLabel, a, b);
    LabelIsLine(text, isLabel, b, c);
    assert LastNewline(text, 0, c) == c - 1;
    assert LastNewline(text, 0, c - 1) == b - 1;
  }

  lemma {:induction false} PackFromStep(text: string, offset: nat, end: nat, prefix: string, suffix: string,
                                        fits: string -> bool, isLabel: string -> bool)
    requires offset < end < |text| && !FitsWhole(text, offset, prefix, suffix, fits)
    requires Longest(text, offset, prefix, suffix, fits) > 0
    requires CutPoint(text, offset, Longest(text, offset, prefix, suffix, fits), isLabel) == Some(end)
    ensures PackFrom(text, offset, prefix, suffix, fits, isLabel)
         == Prepend(text[offset..end], PackFrom(text, end, prefix, suffix, fits, isLabel))
  {
  }

  lemma {:induction false} FirstEndsInLabel(text: string, isLabel: string -> bool, offset: nat, first: string,
                                            rest: seq<string>)
    requires rest != [] && EndsInLabel(text, isLabel, offset, offset + |first|)
    ensures !NoLabelEnds(text, isLabel, offset, [first] + rest)
  {
  }

  lemma {:induction false} FirstMayEndInLabel(text: string, isLabel: string -> bool, offset: nat, end: nat,
                                              rest: seq<string>)
    requires offset < end < |text| && rest != []
    ensures EndsInLabel(text, isLabel, offset, end) ==> !NoLabelEnds(text, isLabel, offset, [text[offset..end]] + rest)
  {
    if EndsInLabel(text, isLabel, offset, end) {
      FirstEndsInLabel(text, isLabel, offset, text[offset..end], rest);
    }
  }

  lemma {:induction false} FirstPacketOf(text: string, offset: nat, end: nat, prefix: string, suffix: string,
                                         fits: string -> bool, isLabel: string -> bool)
    requires offset < end < |text| && !FitsWhole(text, offset, prefix, suffix, fits)
    requires Longest(text, offset, prefix, suffix, fits) > 0
    requires CutPoint(text, offset, Longest(text, offset, prefix, suffix, fits), isLabel) == Some(end)
    requires PackFrom(text, end, prefix, suffix, fits, isLabel).Success?
    ensures var r := PackFrom(text, offset, prefix, suffix, fits, isLabel);
            && r == Success([text[offset..end]] + PackFrom(text, end, prefix, suffix, fits, isLabel).value)
            && |r.value| > 1
            && (EndsInLabel(text, isLabel, offset, end) ==> !NoLabelEnds(text, isLabel, offset, r.value))
  {
    PackFromStep(text, offset, end, prefix, suffix, fits, isLabel);
    PacketsExist(text, end, prefix, suffix, fits, isLabel);
    FirstMayEndInLabel(text, isLabel, offset, end, PackFrom(text, end, prefix, suffix, fits, isLabel).value);
  }

  lemma {:induction false} PacketsExist(text: string, offset: nat, prefix: string, suffix: string,
                                        fits: string -> bool, isLabel: string -> bool)
    requires offset < |text| && PackFrom(text, offset, prefix, suffix, fits, isLabel).Success?
    ensures PackFrom(text, offset, prefix, suffix, fits, isLabel).value != []
  {
  }

  lemma {:induction false} UpToTakesNothing(c: nat, isLabel: string -> bool)
    ensures UpTo(c, isLabel)("" + "")
  {
    assert |"" + ""| == 0;
  }

  lemma {:induction false} UpToReaches(text: string, isLabel: string -> bool, b: nat, c: nat)
    requires LineTest(isLabel) && 0 < b < c < |text| && text[b - 1] == '\n'
    ensures !FitsWhole(text, 0, "", "", UpTo(c, isLabel)) && Longest(text, 0, "", "", UpTo(c, isLabel)) == c
  {
    NotALine(text, isLabel, 0, b, c);
    UpToWithin(text, c, isLabel, 0, |text|);
    UpToTakes(text, 0, c, isLabel);
  }

  lemma {:induction false} AdjacentLabelsAreShown(text: string, isLabel: string -> bool, a: nat, b: nat, c: nat)
    requires LineTest(isLabel) && AdjacentAt(text, isLabel, a, b, c)
    ensures var r := PackFrom(text, 0, "", "", UpTo(c, isLabel), isLabel);
            r.Success? && |r.value| > 1 && r.value[0] == text[0..b] && !NoLabelEnds(text, isLabel, 0, r.value)
  {
    AdjacentLabelsGetCut(text, isLabel, a, b, c);
    LabelIsLine(text, isLabel, a, b);
    UpToReaches(text, isLabel, b, c);
    UpToNeverGivesUp(text, b, c, isLabel);
    FirstPacketOf(text, 0, b, "", "", UpTo(c, isLabel), isLabel);
  }

  /** The exact condition: whatever the budget, or whatever the monotone one, no packet but the last ends in a label
      line, if and only if no label line directly follows another with text behind both. */
  lemma {:induction false} LabelsAreAvoidedIffNoneAdjacent(text: string, isLabel: string -> bool)
    requires LineTest(isLabel)
    ensures (forall prefix, suffix, fits | Pack(text, prefix, suffix, fits, isLabel).Success? ::
               NoLabelEnds(text, isLabel, 0, Pack(text, prefix, suffix, fits, isLabel).value))
            <==> !AdjacentInside(text, isLabel)
    ensures (forall prefix, suffix, fits |
               Monotone(fits, prefix, suffix) && Pack(text, prefix, suffix, fits, isLabel).Success? ::
               NoLabelEnds(text, isLabel, 0, Pack(text, prefix, suffix, fits, isLabel).value))
            <==> !AdjacentInside(text, isLabel)
  {
    if AdjacentInside(text, isLabel) {
      var a, b, c :| AdjacentAt(text, isLabel, a, b, c);
      AdjacentLabelsAreShown(text, isLabel, a, b, c);
      UpToIsMonotone(c, isLabel);
      UpToTakesNothing(c, isLabel);
      assert Pack(text, "", "", UpTo(c, isLabel), isLabel) == PackFrom(text, 0, "", "", UpTo(c, isLabel), isLabel);
    } else {
      forall prefix, suffix, fits | Pack(text, prefix, suffix, fits, isLabel).Success?
        ensures NoLabelEnds(text, isLabel, 0, Pack(text, prefix, suffix, fits, isLabel).value)
      {
        if text != "" {
          PackFromAvoidsLabels(text, 0, prefix, suffix, fits, isLabel);
        }
      }
    }
  }

  // ----- a packet that ends in a label

  predicate Digit(c: char) {
    '0' <= c <= '9'
  }

  /** The label of a citation: E and a number in brackets, then anything up to the end of the line. */
  predicate CitationLabel(s: string) {
    Line(s) && |s| >= 5 && s[..2] == "[E" && Digit(s[2])
    && exists n | 3 <= n < |s| :: s[n] == ']' && forall i | 2 <= i < n :: Digit(s[i])
  }

  function AtMost(n: nat): string -> bool {
    s => |s| <= n
  }

  lemma {:induction false} AtMostTakes(text: string, n: nat)
    requires 0 < n < |text|
    ensures Monotone(AtMost(n), "", "") && !FitsWhole(text, 0, "", "", AtMost(n))
    ensures Longest(text, 0, "", "", AtMost(n)) == n
  {
    var fits := AtMost(n);
    forall s: string, k | 0 <= k <= |s| && fits("" + s + "") ensures fits("" + s[..k] + "") {
      assert |"" + s + ""| == |s| && |"" + s[..k] + ""| == k;
    }
    forall k | 0 <= k <= |text| ensures FitsWithin(text, "", "", fits, 0, k) <==> k <= n {
      assert |"" + text[0..k] + ""| == k;
    }
    LongestIsShort(text, 0, "", "", fits);
    LongestStops(text, 0, "", "", fits);
  }

  const FIRST_LABEL := "[E1]\n"
  const SECOND_LABEL := "[E2]\n"
  const TWO_LABELS := "a\n" + FIRST_LABEL + SECOND_LABEL + "bc"

  lemma {:induction false} TwoLabelsAreAdjacent(isLabel: string -> bool)
    requires isLabel(FIRST_LABEL) && isLabel(SECOND_LABEL)
    ensures AdjacentAt(TWO_LABELS, isLabel, 2, 7, 12)
    ensures TWO_LABELS[0..7] == "a\n" + FIRST_LABEL && TWO_LABELS[7..] == SECOND_LABEL + "bc"
  {
    assert TWO_LABELS[2..7] == FIRST_LABEL && TWO_LABELS[7..12] == SECOND_LABEL;
    assert TWO_LABELS[1] == '\n' && TWO_LABELS[6] == '\n';
  }

  lemma {:induction false} BothAreLabels()
    ensures CitationLabel(FIRST_LABEL) && CitationLabel(SECOND_LABEL)
  {
    assert FIRST_LABEL[3] == ']' && SECOND_LABEL[3] == ']';
  }

  lemma {:induction false} TwoLabelsArePacked(isLabel: string -> bool)
    requires LineTest(isLabel) && isLabel(FIRST_LABEL) && isLabel(SECOND_LABEL)
    ensures Pack(TWO_LABELS, "", "", AtMost(12), isLabel) == Success(["a\n" + FIRST_LABEL, SECOND_LABEL + "bc"])
  {
    TwoLabelsAreAdjacent(isLabel);
    AdjacentLabelsGetCut(TWO_LABELS, isLabel, 2, 7, 12);
    AtMostTakes(TWO_LABELS, 12);
    assert |"" + TWO_LABELS[7..14] + ""| == 7 && |"" + ""| == 0;
    assert PackFrom(TWO_LABELS, 7, "", "", AtMost(12), isLabel) == Success([TWO_LABELS[7..]]);
    FirstPacketOf(TWO_LABELS, 0, 7, "", "", AtMost(12), isLabel);
    assert [TWO_LABELS[0..7]] + [TWO_LABELS[7..]] == ["a\n" + FIRST_LABEL, SECOND_LABEL + "bc"];
    assert Pack(TWO_LABELS, "", "", AtMost(12), isLabel) == PackFrom(TWO_LABELS, 0, "", "", AtMost(12), isLabel);
  }

  /** With room for twelve characters, the first of two packets ends in the first of two adjacent labels. */
  lemma {:induction false} AdjacentLabelsDefeatTheShift()
    ensures LineTest(s => CitationLabel(s)) && Monotone(AtMost(12), "", "")
    ensures CitationLabel(FIRST_LABEL) && CitationLabel(SECOND_LABEL)
    ensures Pack("a\n" + FIRST_LABEL + SECOND_LABEL + "bc", "", "", AtMost(12), s => CitationLabel(s))
         == Success(["a\n" + FIRST_LABEL, SECOND_LABEL + "bc"])
  {
    BothAreLabels();
    AtMostTakes(TWO_LABELS, 12);
    TwoLabelsArePacked(s => CitationLabel(s));
  }
}
