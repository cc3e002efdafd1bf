/** Recovering the source order of the steps of one SOP version, never from ranking or identifiers
    (`_order_sop_steps` of backend/fund_kb/ai.py). */
module SopOrder {
  import opened Wrappers
  import opened Evidence
  import opened StableSort

  datatype Rule = ByOrdinal | ByField(field: Field) | ByLabel | ByNodePath | ByPage | ByBox

  const LOCATOR_FIELDS: seq<Field> := [OrdinalField, StepIndex, StepNo, LineStart, CharStart]

  // ----- the keys

  predicate HasOrdinal(r: Record) {
    r.ordinal.Some? && r.ordinal.value >= 0
  }

  predicate HasPosition(r: Record, f: Field) {
    f in r.locator.positions && r.locator.positions[f] >= 0
  }

  function Position(r: Record, f: Field): int {
    if f in r.locator.positions then r.locator.positions[f] else 0
  }

  function DecimalValue(digits: string): nat {
    if digits == "" then 0
    else
      var c := digits[|digits| - 1];
      10 * DecimalValue(digits[..|digits| - 1]) + if '0' <= c <= '9' then c as int - '0' as int else 0
  }

  /** Numbers inside a path count by value, so that part 10 follows part 9. */
  function PathKey(path: seq<Token>): Key {
    if path == [] then []
    else
      PathKey(path[..|path| - 1]) +
      match path[|path| - 1]
      case Chars(s) => [Text(s)]
      case Digits(d) => [Number(DecimalValue(d) as real)]
  }

  function KeyOf(rule: Rule, r: Record): Key {
    match rule
    case ByOrdinal => [Number(if r.ordinal.Some? then r.ordinal.value as real else 0.0)]
    case ByField(f) => [Number(Position(r, f) as real)]
    case ByLabel => [Number(if r.locator.labelStep.Some? then r.locator.labelStep.value as real else 0.0)]
    case ByNodePath => if r.locator.nodePath.Some? then PathKey(r.locator.nodePath.value) else []
    case ByPage => [Number(Position(r, SourcePage) as real)]
    case ByBox =>
      var box := if r.locator.box.Some? then r.locator.box.value else Box(0.0, 0.0, 0.0, 0.0);
      [Number(Position(r, SourcePage) as real), Number(box.y0), Number(box.x0)]
  }

  function By(rule: Rule): Record -> Key {
    r => KeyOf(rule, r)
  }

  // ----- which rule applies

  predicate AllHave(records: seq<Record>, f: Field) {
    forall r | r in records :: HasPosition(r, f)
  }

  predicate AllOrdinals(records: seq<Record>) {
    forall r | r in records :: HasOrdinal(r)
  }

  predicate AllLabels(records: seq<Record>) {
    forall r | r in records :: r.locator.labelStep.Some?
  }

  function Paths(records: seq<Record>): set<Option<seq<Token>>> {
    set r | r in records :: r.locator.nodePath
  }

  function Parts(records: seq<Record>): set<Option<string>> {
    set r | r in records :: r.locator.part
  }

  function Spaces(records: seq<Record>): set<Option<string>> {
    set r | r in records :: r.locator.space
  }

  predicate PathsUsable(records: seq<Record>) {
    && None !in Paths(records) && Some([]) !in Paths(records)
    && |Parts(records)| == 1
    && |Paths(records)| == |records|
  }

  predicate BoxesUsable(records: seq<Record>) {
    && Spaces(records) <= {Some("top_left_points"), Some("top_left_pixels")}
    && (forall r | r in records :: r.locator.box.Some?)
    && |Spaces(records)| == 1
    && KeysDistinct(records, By(ByBox))
  }

  function FieldRule(records: seq<Record>, n: nat): Option<Rule>
    requires n <= |LOCATOR_FIELDS|
    decreases |LOCATOR_FIELDS| - n
  {
    if n == |LOCATOR_FIELDS| then None
    else if AllHave(records, LOCATOR_FIELDS[n]) && KeysDistinct(records, By(ByField(LOCATOR_FIELDS[n])))
    then Some(ByField(LOCATOR_FIELDS[n]))
    else FieldRule(records, n + 1)
  }

  /** The first kind of position that all records carry and that tells them apart.
      Complete but repeated ordinals settle the matter: then there is no order. */
  function Choose(records: seq<Record>): Option<Rule> {
    if AllOrdinals(records) then
      if KeysDistinct(records, By(ByOrdinal)) then Some(ByOrdinal) else None
    else if FieldRule(records, 0).Some? then FieldRule(records, 0)
    else if AllLabels(records) && KeysDistinct(records, By(ByLabel)) then Some(ByLabel)
    else if PathsUsable(records) then Some(ByNodePath)
    else if !AllHave(records, SourcePage) then None
    else if KeysDistinct(records, By(ByPage)) then Some(ByPage)
    else if BoxesUsable(records) then Some(ByBox)
    else None
  }

  function OrderSteps(records: seq<Record>): (ordered: Option<seq<Record>>)
    ensures ordered.Some? ==> |ordered.value| == |records|
  {
    if |records| <= 1 then Some(records)
    else match Choose(records)
      case None => None
      case Some(rule) =>
        SortFacts(records, By(rule));
        Some(Sort(records, By(rule)))
  }

  // ----- the result

  lemma {:induction false} FieldRuleFacts(records: seq<Record>, n: nat)
    requires n <= |LOCATOR_FIELDS|
    ensures FieldRule(records, n).Some? ==>
              FieldRule(records, n).value.ByField? && KeysDistinct(records, By(FieldRule(records, n).value))
    decreases |LOCATOR_FIELDS| - n
  {
    if n < |LOCATOR_FIELDS| { FieldRuleFacts(records, n + 1); }
  }

  /** Any rule but that of node paths is chosen only if it tells the records apart. */
  lemma {:induction false} ChosenTellsApart(records: seq<Record>)
    requires Choose(records).Some? && Choose(records).value != ByNodePath
    ensures KeysDistinct(records, By(Choose(records).value))
  {
    FieldRuleFacts(records, 0);
  }

  lemma {:induction false} OrderIsTheSort(records: seq<Record>)
    requires OrderSteps(records).Some? && |records| > 1
    ensures Choose(records).Some? && OrderSteps(records).value == Sort(records, By(Choose(records).value))
  {
  }

  /** A recovered order contains exactly the given records, sorted by the key of the chosen rule;
      strictly, except that node paths may tie where only leading zeros differ. */
  lemma {:induction false} OrderIsASortedPermutation(records: seq<Record>)
    requires OrderSteps(records).Some? && |records| > 1
    ensures multiset(OrderSteps(records).value) == multiset(records)
    ensures Sorted(OrderSteps(records).value, By(Choose(records).value))
    ensures Choose(records).value != ByNodePath || KeysDistinct(records, By(ByNodePath)) ==>
              StrictlySorted(OrderSteps(records).value, By(Choose(records).value))
  {
    OrderIsTheSort(records);
    SortFacts(records, By(Choose(records).value));
    if Choose(records).value != ByNodePath {
      ChosenTellsApart(records);
    }
    if Choose(records).value != ByNodePath || KeysDistinct(records, By(ByNodePath)) {
      DistinctSortIsStrict(records, By(Choose(records).value));
    }
  }

  // ----- independence of the retrieval order

  lemma {:induction false} FieldRuleIgnoresOrder(s: seq<Record>, t: seq<Record>, n: nat)
    requires multiset(s) == multiset(t) && n <= |LOCATOR_FIELDS|
    ensures FieldRule(s, n) == FieldRule(t, n)
    decreases |LOCATOR_FIELDS| - n
  {
    if n < |LOCATOR_FIELDS| {
      FieldRuleIgnoresOrder(s, t, n + 1);
      SameElementsSameKeys(s, t, By(ByField(LOCATOR_FIELDS[n])));
      SameMembers(s, t);
    }
  }

  lemma {:induction false} SameMembers<T>(s: seq<T>, t: seq<T>)
    requires multiset(s) == multiset(t)
    ensures |s| == |t| && forall x :: x in s <==> x in t
  {
    assert |s| == |multiset(s)| == |multiset(t)| == |t|;
    forall x ensures x in s <==> x in t {
      assert x in s <==> x in multiset(s);
      assert x in t <==> x in multiset(t);
    }
  }

  lemma {:induction false} UsabilityIgnoresOrder(s: seq<Record>, t: seq<Record>)
    requires multiset(s) == multiset(t)
    ensures AllOrdinals(s) == AllOrdinals(t) && AllLabels(s) == AllLabels(t)
    ensures AllHave(s, SourcePage) == AllHave(t, SourcePage)
    ensures PathsUsable(s) == PathsUsable(t) && BoxesUsable(s) == BoxesUsable(t)
  {
    SameMembers(s, t);
    SameElementsSameKeys(s, t, By(ByBox));
    assert Parts(s) == Parts(t) && Paths(s) == Paths(t) && Spaces(s) == Spaces(t);
  }

  lemma {:induction false} ChooseIgnoresOrder(s: seq<Record>, t: seq<Record>)
    requires multiset(s) == multiset(t)
    ensures Choose(s) == Choose(t)
  {
    UsabilityIgnoresOrder(s, t);
    FieldRuleIgnoresOrder(s, t, 0);
    SameElementsSameKeys(s, t, By(ByOrdinal));
    SameElementsSameKeys(s, t, By(ByLabel));
    SameElementsSameKeys(s, t, By(ByPage));
  }

  /** The order was taken from node paths that do not tie, or not from node paths at all. */
  predicate TieFree(records: seq<Record>) {
    |records| > 1 && Choose(records) == Some(ByNodePath) ==> KeysDistinct(records, By(ByNodePath))
  }

  lemma {:induction false} TieFreeIsOrderFree(s: seq<Record>, t: seq<Record>)
    requires multiset(s) == multiset(t) && TieFree(s)
    ensures OrderSteps(s) == OrderSteps(t)
  {
    SameMembers(s, t);
    if |s| <= 1 {
      if |s| == 1 {
        assert s[0] in t;
        assert s == [s[0]] && t == [t[0]];
      }
    } else {
      ChooseIgnoresOrder(s, t);
      FieldRuleFacts(s, 0);
      if Choose(s).Some? {
        SortIgnoresInputOrder(s, t, By(Choose(s).value));
      }
    }
  }

  /** The same records with the i-th in front, and with the j-th in front. */
  lemma {:induction false} TwoFronts(s: seq<Record>, i: nat, j: nat) returns (a: seq<Record>, b: seq<Record>)
    requires i < j < |s|
    ensures multiset(a) == multiset(s) == multiset(b) && |a| == |s| == |b|
    ensures a[0] == s[i] && b[0] == s[j]
  {
    var rest := s[..i] + s[i + 1..j] + s[j + 1..];
    a, b := [s[i], s[j]] + rest, [s[j], s[i]] + rest;
    assert s == s[..i] + [s[i]] + s[i + 1..j] + [s[j]] + s[j + 1..];
  }

  lemma {:induction false} FrontDecidesTies(a: seq<Record>, b: seq<Record>)
    requires a != [] && b != [] && a[0] != b[0] && KeyOf(ByNodePath, a[0]) == KeyOf(ByNodePath, b[0])
    ensures Sort(a, By(ByNodePath)) != Sort(b, By(ByNodePath))
  {
    var key, k := By(ByNodePath), KeyOf(ByNodePath, a[0]);
    SortIsStable(a, key, k);
    SortIsStable(b, key, k);
    FirstWithKey(a, key, k);
    FirstWithKey(b, key, k);
  }

  /** Two records whose paths tie come out in the order they came in, so some reordering gives another result. */
  lemma {:induction false} TiesFollowTheInput(s: seq<Record>, i: nat, j: nat) returns (t: seq<Record>)
    requires i < j < |s| && s[i] != s[j] && Choose(s) == Some(ByNodePath)
    requires KeyOf(ByNodePath, s[i]) == KeyOf(ByNodePath, s[j])
    ensures multiset(t) == multiset(s) && OrderSteps(t) != OrderSteps(s)
  {
    var a, b := TwoFronts(s, i, j);
    ChooseIgnoresOrder(s, a);
    ChooseIgnoresOrder(s, b);
    FrontDecidesTies(a, b);
    t := if OrderSteps(a) != OrderSteps(s) then a else b;
  }

  lemma {:induction false} FirstWithKey<T>(s: seq<T>, key: T -> Key, k: Key)
    requires s != [] && key(s[0]) == k
    ensures WithKey(s, key, k) != [] && WithKey(s, key, k)[0] == s[0]
  {
    if |s| > 1 {
      FirstWithKey(s[..|s| - 1], key, k);
    } else {
      assert s[..0] == [];
    }
  }

  /** The recovered order is the same for every retrieval order exactly when no two node paths tie in it. */
  lemma {:induction false} OrderFreeIffTieFree(s: seq<Record>)
    ensures (forall t | multiset(t) == multiset(s) :: OrderSteps(t) == OrderSteps(s)) <==> TieFree(s)
  {
    if TieFree(s) {
      forall t | multiset(t) == multiset(s) ensures OrderSteps(t) == OrderSteps(s) {
        TieFreeIsOrderFree(s, t);
      }
    } else {
      DistinctKeysDiffer(s, By(ByNodePath));
      var i, j :| 0 <= i < j < |s| && By(ByNodePath)(s[i]) == By(ByNodePath)(s[j]);
      PathsTellApart(s, i, j);
      var t := TiesFollowTheInput(s, i, j);
    }
  }

  lemma {:induction false} PathsTellApart(s: seq<Record>, i: nat, j: nat)
    requires i < j < |s| && |Paths(s)| == |s|
    ensures s[i] != s[j]
  {
    if s[i] == s[j] {
      var front := s[..j] + s[j + 1..];
      assert s == s[..j] + [s[j]] + s[j + 1..];
      assert forall r :: r in s <==> r in front by {
        assert front[i] == s[i];
      }
      assert Paths(s) == Paths(front);
      ImageBound(front);
    }
  }

  lemma {:induction false} ImageBound(s: seq<Record>)
    ensures |Paths(s)| <= |s|
  {
    if s != [] {
      var n := |s| - 1;
      ImageBound(s[..n]);
      assert forall r :: r in s <==> r in s[..n] || r == s[n];
      assert Paths(s) == Paths(s[..n]) + {s[n].locator.nodePath};
    }
  }

  /** Leading zeros do tie: two distinct paths, one key. */
  lemma {:induction false} LeadingZerosTie()
    ensures [Digits("01")] != [Digits("1")] && PathKey([Digits("01")]) == PathKey([Digits("1")])
  {
    assert "01"[..1] == "0" && "0"[..0] == "" && "1"[..0] == "";
    assert DecimalValue("0") == 0 && DecimalValue("01") == 1 && DecimalValue("1") == 1;
    assert [Digits("01")][..0] == [] && [Digits("1")][..0] == [];
    assert PathKey([]) == [];
  }
}
