/** Evidence records as the answering code sees them: one block of one version of one resource. */
module Evidence {
  import opened Wrappers

  // ----- when a record applies

  datatype Condition = Malformed | Condition(field: Option<string>, values: seq<string>)
  datatype Conditions = Unstated | Stated(all: seq<Condition>, none: seq<Condition>)
  datatype Rules = Rules(requiredFacts: Option<seq<string>>, conditions: Conditions,
                         validFrom: Option<string>, validTo: Option<string>)

  // ----- where a record stands in its source

  datatype Token = Chars(chars: string) | Digits(digits: string)
  datatype Field = OrdinalField | StepIndex | StepNo | LineStart | CharStart | SourcePage
  datatype Box = Box(x0: real, y0: real, x1: real, y1: real)
  datatype Locator = Locator(positions: map<Field, int>, labelStep: Option<nat>, nodePath: Option<seq<Token>>,
                             part: Option<string>, space: Option<string>, box: Option<Box>)

  datatype StepData = StepData(action: string, ownerRole: string, output: string, verification: string)
  datatype Manifest = Malformed | Ordinals(list: seq<int>)

  datatype Record = Record(
    resourceId: string, versionId: string, blockId: string, title: string, text: string, contentHash: string,
    // the screening of `_usable_records`: identifiers, hash, scope and safety of the text
    usable: bool,
    // knowledge type "sop", not a template; and a block of type "step"
    isSop: bool, isStep: bool,
    // the four step fields, when they are all non-blank texts; and the text rendered from them
    data: Option<StepData>, renderedText: string,
    ordinal: Option<int>, locator: Locator, manifest: Option<Manifest>, conflict: bool, rules: Rules)
}
