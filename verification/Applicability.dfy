/** Which records apply in a context, and which facts are still missing to decide it
    (`_required_facts` of backend/fund_kb/ai.py). */
module Applicability {
  import opened Wrappers
  import opened Evidence
  import opened StableSort

  // the text of a typed value (number, truth value, list) is never empty
  datatype Fact = Null | Given(text: string) | Typed(text: string, truthy: bool)
  type Context = map<string, Fact>

  const BUSINESS_DATE := "business_date"
  const SOURCE_FACTS := "source_required_facts"
  const SOURCE_CONDITIONS := "source_applicability"

  predicate Empty(f: Fact) {
    f.Null? || f.text == ""
  }

  /** The context has a value for the field. */
  predicate Has(context: Context, field: string) {
    field in context && !Empty(context[field])
  }

  predicate Truthy(f: Fact) {
    match f case Null => false case Given(text) => text != "" case Typed(text, truthy) => truthy && text != ""
  }

  predicate Decidable(c: Condition, context: Context) {
    c.Condition? && c.values != [] && c.field.Some? && Has(context, c.field.value)
  }

  predicate Matches(c: Condition, context: Context)
    requires Decidable(c, context)
  {
    context[c.field.value].text in c.values
  }

  /** One condition of the `all` clause (negate false) or the `none` clause (negate true) rules the record out. */
  predicate RulesOut(c: Condition, negate: bool, context: Context) {
    Decidable(c, context) && Matches(c, context) == negate
  }

  predicate OutsideDates(r: Rules, context: Context) {
    && BUSINESS_DATE in context && Truthy(context[BUSINESS_DATE])
    && var date := context[BUSINESS_DATE].text;
       || (r.validFrom.Some? && r.validFrom.value != "" && TextLess(date, r.validFrom.value))
       || (r.validTo.Some? && r.validTo.value != "" && !TextLess(date, r.validTo.value))
  }

  function AllOf(r: Rules): seq<Condition> {
    if r.conditions.Stated? then r.conditions.all else []
  }

  function NoneOf(r: Rules): seq<Condition> {
    if r.conditions.Stated? then r.conditions.none else []
  }

  predicate Applies(r: Rules, context: Context) {
    && (forall i | 0 <= i < |AllOf(r)| :: !RulesOut(AllOf(r)[i], false, context))
    && (forall i | 0 <= i < |NoneOf(r)| :: !RulesOut(NoneOf(r)[i], true, context))
    && !OutsideDates(r, context)
  }

  /** What one condition asks the user for. */
  function Asks(c: Condition, context: Context): set<string> {
    if c.Malformed? || c.values == [] then {SOURCE_CONDITIONS}
    else if c.field.None? || c.field.value == "" || Has(context, c.field.value) then {}
    else {c.field.value}
  }

  function AsksAll(cs: seq<Condition>, context: Context): set<string> {
    if cs == [] then {} else AsksAll(cs[..|cs| - 1], context) + Asks(cs[|cs| - 1], context)
  }

  function Needs(r: Rules, context: Context): set<string> {
    (match r.requiredFacts case None => {SOURCE_FACTS} case Some(fs) => set f | f in fs)
    + (if r.conditions.Unstated? then {SOURCE_CONDITIONS} else {})
    + AsksAll(AllOf(r), context) + AsksAll(NoneOf(r), context)
  }

  /** The records that apply, in their order. */
  function Applicable(records: seq<Record>, context: Context): seq<Record> {
    if records == [] then []
    else
      var n := |records| - 1;
      Applicable(records[..n], context) + if Applies(records[n].rules, context) then [records[n]] else []
  }

  /** What the records that apply ask for. */
  function Required(records: seq<Record>, context: Context): set<string> {
    if records == [] then {}
    else
      var n := |records| - 1;
      Required(records[..n], context)
      + if Applies(records[n].rules, context) then Needs(records[n].rules, context) else {}
  }

  function Missing(records: seq<Record>, context: Context): set<string> {
    set f | f in Required(records, context) && !Has(context, f)
  }

  lemma {:induction false} ApplicableContents(records: seq<Record>, context: Context, x: Record)
    ensures x in Applicable(records, context) <==> x in records && Applies(x.rules, context)
  {
    if records != [] {
      ApplicableContents(records[..|records| - 1], context, x);
    }
  }

  lemma {:induction false} RequiredContents(records: seq<Record>, context: Context, f: string)
    ensures f in Required(records, context) <==>
            exists x :: x in records && Applies(x.rules, context) && f in Needs(x.rules, context)
  {
    if records != [] {
      RequiredContents(records[..|records| - 1], context, f);
      assert forall x :: x in records <==> x in records[..|records| - 1] || x == records[|records| - 1];
    }
  }

  // ----- the computation

  method CheckClause(cs: seq<Condition>, negate: bool, context: Context) returns (applies: bool, asks: set<string>)
    ensures applies <==> forall i | 0 <= i < |cs| :: !RulesOut(cs[i], negate, context)
    ensures asks == AsksAll(cs, context)
  {
    applies, asks := true, {};
    for n := 0 to |cs|
      invariant applies <==> forall i | 0 <= i < n :: !RulesOut(cs[i], negate, context)
      invariant asks == AsksAll(cs[..n], context)
    {
      assert cs[..n + 1][..n] == cs[..n];
      var c := cs[n];
      if c.Malformed? || c.values == [] {
        asks := asks + {SOURCE_CONDITIONS};
      } else if c.field.None? || !Has(context, c.field.value) {
        if c.field.Some? && c.field.value != "" {
          asks := asks + {c.field.value};
        }
      } else {
        var matches := context[c.field.value].text in c.values;
        if (!negate && !matches) || (negate && matches) {
          applies := false;
        }
      }
    }
    assert cs[..|cs|] == cs;
  }

  method CheckRecord(r: Rules, context: Context) returns (applies: bool, required: set<string>)
    ensures applies <==> Applies(r, context)
    ensures required == Needs(r, context)
  {
    required := if r.requiredFacts.None? then {SOURCE_FACTS} else set f | f in r.requiredFacts.value;
    if r.conditions.Unstated? {
      required := required + {SOURCE_CONDITIONS};
    }
    var allHold, allAsks := CheckClause(AllOf(r), false, context);
    var noneHold, noneAsks := CheckClause(NoneOf(r), true, context);
    required := required + allAsks + noneAsks;
    applies := allHold && noneHold;
    if OutsideDates(r, context) {
      applies := false;
    }
  }

  method RequiredFacts(records: seq<Record>, context: Context) returns (applicable: seq<Record>, missing: set<string>)
    ensures applicable == Applicable(records, context)
    ensures missing == Missing(records, context)
  {
    var required: set<string> := {};
    applicable := [];
    for n := 0 to |records|
      invariant applicable == Applicable(records[..n], context)
      invariant required == Required(records[..n], context)
    {
      assert records[..n + 1][..n] == records[..n];
      var applies, local := CheckRecord(records[n].rules, context);
      if applies {
        applicable := applicable + [records[n]];
        required := required + local;
      }
    }
    assert records[..|records|] == records;
    missing := set f | f in required && !Has(context, f);
  }

  // ----- adding facts

  /** The second context only adds: every non-empty value of the first is kept. */
  predicate Extends(before: Context, after: Context) {
    forall k | k in before && !Empty(before[k]) :: k in after && after[k] == before[k]
  }

  lemma {:induction false} RuledOutStays(c: Condition, negate: bool, before: Context, after: Context)
    requires Extends(before, after) && RulesOut(c, negate, before)
    ensures RulesOut(c, negate, after)
  {
  }

  lemma {:induction false} AppliesShrinks(r: Rules, before: Context, after: Context)
    requires Extends(before, after) && Applies(r, after)
    ensures Applies(r, before)
    ensures Needs(r, after) <= Needs(r, before)
  {
    forall i | 0 <= i < |AllOf(r)| ensures !RulesOut(AllOf(r)[i], false, before) {
      if RulesOut(AllOf(r)[i], false, before) { RuledOutStays(AllOf(r)[i], false, before, after); }
    }
    forall i | 0 <= i < |NoneOf(r)| ensures !RulesOut(NoneOf(r)[i], true, before) {
      if RulesOut(NoneOf(r)[i], true, before) { RuledOutStays(NoneOf(r)[i], true, before, after); }
    }
    AsksShrink(AllOf(r), before, after);
    AsksShrink(NoneOf(r), before, after);
  }

  lemma {:induction false} AsksShrink(cs: seq<Condition>, before: Context, after: Context)
    requires Extends(before, after)
    ensures AsksAll(cs, after) <= AsksAll(cs, before)
  {
    if cs != [] {
      AsksShrink(cs[..|cs| - 1], before, after);
    }
  }

  lemma {:induction false} ApplicableAppend(records: seq<Record>, x: Record, context: Context)
    ensures Applicable(records + [x], context)
         == Applicable(records, context) + if Applies(x.rules, context) then [x] else []
  {
    assert (records + [x])[..|records|] == records;
  }

  lemma {:induction false} SelectionShrinks(records: seq<Record>, before: Context, after: Context)
    requires Extends(before, after)
    ensures Applicable(records, after) == Applicable(Applicable(records, before), after)
  {
    if records != [] {
      var n := |records| - 1;
      var kept := Applicable(records[..n], before);
      SelectionShrinks(records[..n], before, after);
      if Applies(records[n].rules, after) {
        AppliesShrinks(records[n].rules, before, after);
      }
      ApplicableAppend(kept, records[n], after);
      if Applies(records[n].rules, before) {
        assert Applicable(records, before) == kept + [records[n]];
      } else {
        assert Applicable(records, before) == kept + [] == kept;
      }
    }
  }

  lemma {:induction false} RequiredShrinks(records: seq<Record>, before: Context, after: Context)
    requires Extends(before, after)
    ensures Required(records, after) <= Required(records, before)
  {
    if records != [] {
      var n := |records| - 1;
      RequiredShrinks(records[..n], before, after);
      if Applies(records[n].rules, after) {
        AppliesShrinks(records[n].rules, before, after);
      }
    }
  }

  /** Adding facts never brings a record back and never asks for a fact that was not asked before. */
  lemma {:induction false} MoreFactsNeverAskMore(records: seq<Record>, before: Context, after: Context)
    requires Extends(before, after)
    ensures Applicable(records, after) == Applicable(Applicable(records, before), after)
    ensures Missing(records, after) <= Missing(records, before)
  {
    SelectionShrinks(records, before, after);
    RequiredShrinks(records, before, after);
    assert forall f | Has(before, f) :: Has(after, f);
  }

  // ----- when the answer is final

  /** Whether more facts could still rule an applicable record out. */
  ghost predicate Final(records: seq<Record>, context: Context) {
    forall after | Extends(context, after) :: Applicable(records, after) == Applicable(records, context)
  }

  /** Some business date lies outside the record's validity; only the least of all texts comes after no date. */
  predicate Dated(r: Rules) {
    || (r.validFrom.Some? && r.validFrom.value !in {"", "\0"})
    || (r.validTo.Some? && r.validTo.value != "")
  }

  /** A condition on the field with the empty name, which is never asked for, and which some value would fail. */
  predicate Unasked(c: Condition, negate: bool) {
    c.Condition? && c.field == Some("") && c.values != [] && (negate ==> exists v | v in c.values :: v != "")
  }

  predicate NoneUnasked(cs: seq<Condition>, negate: bool) {
    forall i | 0 <= i < |cs| :: !Unasked(cs[i], negate)
  }

  predicate AsksForItsFields(r: Rules) {
    NoneUnasked(AllOf(r), false) && NoneUnasked(NoneOf(r), true)
  }

  /** What rules a record out later without having been asked for is the field with the empty name. */
  lemma {:induction false} RuledOutUnasked(c: Condition, negate: bool, before: Context, after: Context)
    requires forall f | f in Asks(c, before) :: Has(before, f)
    requires RulesOut(c, negate, after) && !Decidable(c, before)
    ensures Unasked(c, negate) && !Has(before, "")
  {
  }

  /** With no fact missing, a record that applies keeps applying as far as its conditions go. */
  lemma {:induction false} AnsweredConditionsStay(cs: seq<Condition>, negate: bool, before: Context, after: Context)
    requires Extends(before, after)
    requires forall f | f in AsksAll(cs, before) :: Has(before, f)
    requires Has(before, "") || NoneUnasked(cs, negate)
    requires forall i | 0 <= i < |cs| :: !RulesOut(cs[i], negate, before)
    ensures forall i | 0 <= i < |cs| :: !RulesOut(cs[i], negate, after)
  {
    forall i | 0 <= i < |cs| ensures !RulesOut(cs[i], negate, after) {
      AskedByOne(cs, i, before);
      if RulesOut(cs[i], negate, after) && !Decidable(cs[i], before) {
        RuledOutUnasked(cs[i], negate, before, after);
      }
    }
  }

  lemma {:induction false} AskedByOne(cs: seq<Condition>, i: nat, context: Context)
    requires i < |cs|
    ensures Asks(cs[i], context) <= AsksAll(cs, context)
  {
    if i < |cs| - 1 {
      AskedByOne(cs[..|cs| - 1], i, context);
    }
  }

  lemma {:induction false} SettledRecordsStay(records: seq<Record>, context: Context, after: Context, x: Record)
    requires Missing(records, context) == {} && Extends(context, after)
    requires x in records && Applies(x.rules, context)
    requires Has(context, BUSINESS_DATE) || !Dated(x.rules)
    requires Has(context, "") || AsksForItsFields(x.rules)
    ensures Applies(x.rules, after)
  {
    forall f | f in Needs(x.rules, context) ensures Has(context, f) {
      RequiredContents(records, context, f);
      assert f !in Missing(records, context);
    }
    AnsweredConditionsStay(AllOf(x.rules), false, context, after);
    AnsweredConditionsStay(NoneOf(x.rules), true, context, after);
    if !Dated(x.rules) {
      UndatedIsNeverOutside(x.rules, after);
    }
  }

  lemma {:induction false} UndatedIsNeverOutside(r: Rules, context: Context)
    requires !Dated(r)
    ensures !OutsideDates(r, context)
  {
    if BUSINESS_DATE in context && Truthy(context[BUSINESS_DATE]) {
      NothingPrecedesTheLeast(context[BUSINESS_DATE].text);
    }
  }

  lemma {:induction false} NothingPrecedesTheLeast(date: string)
    requires date != ""
    ensures !TextLess(date, "\0")
  {
    assert "\0"[1..] == "" && !TextLess(date[1..], "");
  }

  const FIRST_DATE := "0001-01-01"

  /** A business date that rules a dated record out: the end of its validity, or the first date of the calendar if
      its validity begins after that; only a record that carries no real date takes another text. */
  lemma {:induction false} SomeDateRulesOut(x: Rules, context: Context) returns (date: string)
    requires Dated(x)
    ensures date != "" && OutsideDates(x, context[BUSINESS_DATE := Given(date)])
    ensures x.validTo.Some? && x.validTo.value != "" ==> date == x.validTo.value
    ensures !(x.validTo.Some? && x.validTo.value != "") && TextLess(FIRST_DATE, x.validFrom.value) ==>
              date == FIRST_DATE
  {
    if x.validTo.Some? && x.validTo.value != "" {
      date := x.validTo.value;
      TextIrreflexive(date);
    } else if TextLess(FIRST_DATE, x.validFrom.value) {
      date := FIRST_DATE;
    } else {
      var v := x.validFrom.value;
      date := if |v| > 1 then v[..1] else "\0";
      if |v| > 1 {
        assert date[1..] == "" && v[1..] != "";
      } else {
        assert v == [v[0]] && v[0] != '\0';
        assert date[0] < v[0];
      }
      assert TextLess(date, v);
    }
  }

  /** The business date is known, or no record that applies has a validity date. */
  ghost predicate DateSettled(records: seq<Record>, context: Context) {
    Has(context, BUSINESS_DATE) || forall x | x in records && Applies(x.rules, context) :: !Dated(x.rules)
  }

  /** The field with the empty name is known, or no record that applies depends on it. */
  ghost predicate FieldsSettled(records: seq<Record>, context: Context) {
    Has(context, "") || forall x | x in records && Applies(x.rules, context) :: AsksForItsFields(x.rules)
  }

  lemma {:induction false} LongestValue(values: seq<string>) returns (n: nat)
    ensures forall v | v in values :: |v| <= n
  {
    n := 0;
    if values != [] {
      var m := LongestValue(values[..|values| - 1]);
      var last := values[|values| - 1];
      n := if |last| > m then |last| else m;
      assert forall v | v in values :: v in values[..|values| - 1] || v == last;
    }
  }

  lemma {:induction false} SomeValueFails(c: Condition, negate: bool, context: Context) returns (value: string)
    requires Unasked(c, negate)
    ensures value != "" && RulesOut(c, negate, context["" := Given(value)])
  {
    if negate {
      value :| value in c.values && value != "";
    } else {
      var n := LongestValue(c.values);
      value := seq(n + 1, i => 'x');
    }
  }

  lemma {:induction false} UnaskedFieldRulesOut(records: seq<Record>, context: Context, x: Record)
    requires x in records && Applies(x.rules, context) && !AsksForItsFields(x.rules) && !Has(context, "")
    ensures !Final(records, context)
  {
    var negate := NoneUnasked(AllOf(x.rules), false);
    var cs := if negate then NoneOf(x.rules) else AllOf(x.rules);
    var i :| 0 <= i < |cs| && Unasked(cs[i], negate);
    var value := SomeValueFails(cs[i], negate, context);
    var after := context["" := Given(value)];
    assert Extends(context, after) && !Applies(x.rules, after);
    ApplicableContents(records, context, x);
    ApplicableContents(records, after, x);
  }

  lemma {:induction false} LaterDateRulesOut(records: seq<Record>, context: Context, x: Record)
    requires x in records && Applies(x.rules, context) && Dated(x.rules) && !Has(context, BUSINESS_DATE)
    ensures !Final(records, context)
  {
    var date := SomeDateRulesOut(x.rules, context);
    var after := context[BUSINESS_DATE := Given(date)];
    assert Extends(context, after);
    ApplicableContents(records, context, x);
    ApplicableContents(records, after, x);
  }

  /** Once nothing is missing, the selection is final exactly when the date and the field with the empty name, which
      are never asked for, are settled. */
  lemma {:induction false} FinalIffSettled(records: seq<Record>, context: Context)
    requires Missing(records, context) == {}
    ensures Final(records, context) <==> DateSettled(records, context) && FieldsSettled(records, context)
  {
    if !DateSettled(records, context) {
      var x :| x in records && Applies(x.rules, context) && Dated(x.rules);
      LaterDateRulesOut(records, context, x);
    } else if !FieldsSettled(records, context) {
      var x :| x in records && Applies(x.rules, context) && !AsksForItsFields(x.rules);
      UnaskedFieldRulesOut(records, context, x);
    } else {
      forall after | Extends(context, after) ensures Applicable(records, after) == Applicable(records, context) {
        SettledSelection(records, context, after);
      }
    }
  }

  lemma {:induction false} SettledSelection(records: seq<Record>, context: Context, after: Context)
    requires Missing(records, context) == {} && Extends(context, after)
    requires DateSettled(records, context) && FieldsSettled(records, context)
    ensures Applicable(records, after) == Applicable(records, context)
  {
    forall x | x in records ensures Applies(x.rules, after) <==> Applies(x.rules, context) {
      if Applies(x.rules, context) { SettledRecordsStay(records, context, after, x); }
      if Applies(x.rules, after) { AppliesShrinks(x.rules, context, after); }
    }
    SameTestSameFilter(records, context, after);
  }

  lemma {:induction false} SameTestSameFilter(records: seq<Record>, a: Context, b: Context)
    requires forall x | x in records :: Applies(x.rules, a) <==> Applies(x.rules, b)
    ensures Applicable(records, a) == Applicable(records, b)
  {
    if records != [] {
      SameTestSameFilter(records[..|records| - 1], a, b);
    }
  }
}
