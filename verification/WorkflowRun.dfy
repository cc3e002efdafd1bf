/** Guided runs of a capability definition: a state machine driven by report, review and cancel,
    each guarded by the row revision (backend/fund_kb/capability_runs.py). */
module WorkflowRun {
  import opened Wrappers
  import opened StepGraph
  import opened FieldValues

  datatype StepState = Pending | Reported | Accepted | Blocked | Failed
  datatype Phase = WaitingAgent | WaitingHuman | BlockedRun | Completed | FailedRun | Cancelled
  datatype Record = Record(id: StepId, state: StepState, outputs: Values, note: string,
                           reportedBy: Option<string>, reviewedBy: Option<string>)
  datatype Config = Config(definition: Definition, steps: seq<Record>, phase: Phase)
  datatype Row = Row(config: Config, revision: nat)

  datatype ReportStatus = StatusReported | StatusBlocked | StatusFailed
  datatype Request =
    | Report(ifMatch: Option<nat>, stepId: StepId, user: string, status: ReportStatus, outputs: Values, note: string)
    | Review(ifMatch: Option<nat>, stepId: StepId, user: string, viaAgent: bool, accept: bool,
             outputs: Values, note: string)
    | Cancel(ifMatch: Option<nat>)

  datatype RunError =
    | PreconditionRequired | RevisionConflict | RunTerminal | StepKindMismatch | StepNotReady
    | ValuesInvalid | BlockReasonRequired | HumanReviewRequired | ReviewNoteRequired

  // ----- reading a run

  predicate Finished(r: Record) {
    r.state in {Reported, Accepted}
  }

  predicate Terminal(p: Phase) {
    p in {Completed, FailedRun, Cancelled}
  }

  function Done(steps: seq<Record>): set<StepId> {
    set i | 0 <= i < |steps| && Finished(steps[i]) :: steps[i].id
  }

  predicate Aligned(d: Definition, steps: seq<Record>) {
    |steps| == |d.steps| && forall i | 0 <= i < |steps| :: steps[i].id == d.steps[i].id
  }

  /** Step i may be submitted: open, with every dependency finished. */
  predicate Open(d: Definition, steps: seq<Record>, i: nat)
    requires Aligned(d, steps) && i < |steps|
  {
    steps[i].state in {Pending, Blocked} && d.steps[i].dependsOn <= Done(steps)
  }

  function PhaseOf(d: Definition, steps: seq<Record>, cancelled: bool): Phase
    requires Aligned(d, steps)
  {
    if cancelled then Cancelled
    else if exists i :: 0 <= i < |steps| && steps[i].state == Failed then FailedRun
    else if forall i | 0 <= i < |steps| :: Finished(steps[i]) then Completed
    else if exists i :: 0 <= i < |steps| && steps[i].state == Blocked then BlockedRun
    else if exists i :: 0 <= i < |steps| && d.steps[i].kind == Agent && steps[i].state == Pending && Open(d, steps, i)
    then WaitingAgent
    else WaitingHuman
  }

  function Locate(ids: seq<StepId>, id: StepId): (at: Option<nat>)
    ensures at.Some? ==> at.value < |ids| && ids[at.value] == id
    ensures at.None? ==> forall i | 0 <= i < |ids| :: ids[i] != id
  {
    if ids == [] then None
    else if ids[0] == id then Some(0)
    else match Locate(ids[1..], id) case Some(i) => Some(i + 1) case None => None
  }

  /** The gate in front of every submission: the step's index, or why it is refused. */
  function Admit(c: Config, id: StepId, kind: Kind): (r: Result<nat, RunError>)
    requires Aligned(c.definition, c.steps)
    ensures r.Success? ==> r.value < |c.steps| && c.steps[r.value].id == id
  {
    if Terminal(c.phase) then Failure(RunTerminal)
    else match Locate(Ids(c.definition.steps), id)
      case None => Failure(StepKindMismatch)
      case Some(i) =>
        if c.definition.steps[i].kind != kind then Failure(StepKindMismatch)
        else if !Open(c.definition, c.steps, i) then Failure(StepNotReady)
        else Success(i)
  }

  // ----- requests

  function CheckRevision(ifMatch: Option<nat>, revision: nat): Outcome<RunError> {
    match ifMatch
    case None => Fail(PreconditionRequired)
    case Some(r) => if r == revision then Pass else Fail(RevisionConflict)
  }

  function StateFor(status: ReportStatus): StepState {
    match status case StatusReported => Reported case StatusBlocked => Blocked case StatusFailed => Failed
  }

  function Submit(row: Row, i: nat, record: Record): (r: Row)
    requires Aligned(row.config.definition, row.config.steps)
    requires i < |row.config.steps| && record.id == row.config.steps[i].id
    ensures Aligned(r.config.definition, r.config.steps)
  {
    var c := row.config;
    var steps := c.steps[i := record];
    Row(c.(steps := steps, phase := PhaseOf(c.definition, steps, c.phase == Cancelled)), row.revision + 1)
  }

  function KindFor(q: Request): Kind {
    if q.Report? then Agent else Human
  }

  /** Whether the submitted outputs and note are acceptable for the step. */
  function CheckContent(step: Step, q: Request): Outcome<RunError>
    requires !q.Cancel?
  {
    if q.Report? then
      if !Conforms(step.outputs, q.outputs, q.status != StatusReported) then Fail(ValuesInvalid)
      else if q.status != StatusReported && Blank(q.note) then Fail(BlockReasonRequired)
      else Pass
    else
      if Blank(q.note) then Fail(ReviewNoteRequired)
      else if !Conforms(step.outputs, q.outputs, !q.accept) then Fail(ValuesInvalid)
      else Pass
  }

  /** The step record a submission leaves behind. */
  function Recorded(q: Request, was: Record): Record
    requires !q.Cancel?
  {
    if q.Report? then
      was.(state := StateFor(q.status), outputs := q.outputs, note := q.note, reportedBy := Some(q.user))
    else
      was.(state := if q.accept then Accepted else Blocked, outputs := q.outputs, note := q.note,
           reviewedBy := Some(q.user))
  }

  function Apply(row: Row, q: Request): (r: Result<Row, RunError>)
    requires Aligned(row.config.definition, row.config.steps)
    ensures r.Success? ==> r.value.config.definition == row.config.definition
    ensures r.Success? ==> Aligned(r.value.config.definition, r.value.config.steps)
  {
    var c := row.config;
    if q.Review? && q.viaAgent then Failure(HumanReviewRequired)
    else match CheckRevision(q.ifMatch, row.revision)
      case Fail(e) => Failure(e)
      case Pass =>
        if q.Cancel? then
          if Terminal(c.phase) then Failure(RunTerminal)
          else Success(Row(c.(phase := Cancelled), row.revision + 1))
        else match Admit(c, q.stepId, KindFor(q))
          case Failure(e) => Failure(e)
          case Success(i) =>
            match CheckContent(c.definition.steps[i], q)
            case Fail(e) => Failure(e)
            case Pass => Success(Submit(row, i, Recorded(q, c.steps[i])))
  }

  function FreshRecords(d: Definition): (steps: seq<Record>)
    ensures Aligned(d, steps)
  {
    seq(|d.steps|, i requires 0 <= i < |d.steps| => Record(d.steps[i].id, Pending, map[], "", None, None))
  }

  function Start(d: Definition): (row: Row)
    ensures row.config.definition == d
    ensures Aligned(row.config.definition, row.config.steps)
  {
    Row(Config(d, FreshRecords(d), PhaseOf(d, FreshRecords(d), false)), 1)
  }

  // ----- the invariant

  /** What a record may look like, given the step it belongs to. */
  predicate Proper(step: Step, r: Record) {
    && (r.state in {Reported, Failed} ==> step.kind == Agent && r.reportedBy.Some?)
    && (r.state == Accepted ==> step.kind == Human && r.reviewedBy.Some? && !Blank(r.note))
    && (r.state in {Blocked, Failed} ==> !Blank(r.note))
    && (Finished(r) ==> Conforms(step.outputs, r.outputs, false))
  }

  /** Nothing was submitted before its dependencies were finished. */
  predicate Ordered(d: Definition, steps: seq<Record>)
    requires Aligned(d, steps)
  {
    forall i | 0 <= i < |steps| && steps[i].state != Pending :: d.steps[i].dependsOn <= Done(steps)
  }

  predicate Consistent(row: Row) {
    var c := row.config;
    && Aligned(c.definition, c.steps)
    && (forall i | 0 <= i < |c.steps| :: Proper(c.definition.steps[i], c.steps[i]))
    && Ordered(c.definition, c.steps)
    && c.phase == PhaseOf(c.definition, c.steps, c.phase == Cancelled)
  }

  lemma {:induction false} StartIsConsistent(d: Definition)
    ensures Consistent(Start(d))
  {
  }

  lemma {:induction false} DoneAfter(steps: seq<Record>, i: nat, record: Record)
    requires i < |steps| && !Finished(steps[i]) && record.id == steps[i].id
    ensures Done(steps[i := record]) == Done(steps) + if Finished(record) then {record.id} else {}
  {
    var steps' := steps[i := record];
    forall id | id in Done(steps) ensures id in Done(steps') {
      var j :| 0 <= j < |steps| && Finished(steps[j]) && steps[j].id == id;
      assert steps'[j] == steps[j];
    }
    if Finished(record) {
      assert steps'[i].id in Done(steps');
    }
  }

  lemma {:induction false} SubmitKeepsConsistency(row: Row, i: nat, record: Record)
    requires Consistent(row) && i < |row.config.steps| && record.id == row.config.steps[i].id
    requires Open(row.config.definition, row.config.steps, i) && Proper(row.config.definition.steps[i], record)
    requires !Terminal(row.config.phase)
    ensures Consistent(Submit(row, i, record))
  {
    DoneAfter(row.config.steps, i, record);
  }

  lemma {:induction false} CheckedContentIsProper(step: Step, q: Request, was: Record)
    requires !q.Cancel? && step.kind == KindFor(q) && CheckContent(step, q) == Pass
    requires q.Review? ==> !q.viaAgent
    ensures Proper(step, Recorded(q, was))
  {
  }

  /** A successful report or review writes one open step's record, and writes it properly. */
  lemma {:induction false} SubmissionIsProper(row: Row, q: Request) returns (i: nat)
    requires Aligned(row.config.definition, row.config.steps) && !q.Cancel? && Apply(row, q).Success?
    ensures i < |row.config.steps| && Open(row.config.definition, row.config.steps, i)
    ensures row.config.steps[i].id == q.stepId && !Terminal(row.config.phase)
    ensures Proper(row.config.definition.steps[i], Recorded(q, row.config.steps[i]))
    ensures Apply(row, q).value == Submit(row, i, Recorded(q, row.config.steps[i]))
  {
    i := Admit(row.config, q.stepId, KindFor(q)).value;
    CheckedContentIsProper(row.config.definition.steps[i], q, row.config.steps[i]);
  }

  lemma {:induction false} ApplyKeepsConsistency(row: Row, q: Request)
    requires Consistent(row) && Apply(row, q).Success?
    ensures Consistent(Apply(row, q).value)
  {
    if !q.Cancel? {
      var i := SubmissionIsProper(row, q);
      SubmitKeepsConsistency(row, i, Recorded(q, row.config.steps[i]));
    }
  }

  // ----- what the stored phase promises

  lemma {:induction false} UnresolvedStepIsOpen(row: Row) returns (i: nat)
    requires Consistent(row) && Sound(row.config.definition)
    requires row.config.phase !in {Completed, FailedRun, Cancelled}
    ensures i < |row.config.steps| && Open(row.config.definition, row.config.steps, i)
  {
    var d, steps := row.config.definition, row.config.steps;
    var u :| 0 <= u < |steps| && !Finished(steps[u]);
    assert steps[u].id !in Done(steps) by {
      assert forall j | 0 <= j < |steps| && j != u :: Ids(d.steps)[j] != Ids(d.steps)[u];
    }
    i := NextStepExists(d, Done(steps), u);
    assert !Finished(steps[i]);
  }

  lemma {:induction false} BlockedStepIsOpen(row: Row) returns (i: nat)
    requires Consistent(row) && row.config.phase == BlockedRun
    ensures i < |row.config.steps| && row.config.steps[i].state == Blocked
    ensures Open(row.config.definition, row.config.steps, i)
  {
    i :| 0 <= i < |row.config.steps| && row.config.steps[i].state == Blocked;
  }

  lemma {:induction false} AdmitOpen(c: Config, i: nat)
    requires Aligned(c.definition, c.steps) && Distinct(Ids(c.definition.steps)) && !Terminal(c.phase)
    requires i < |c.steps| && Open(c.definition, c.steps, i)
    ensures Admit(c, c.steps[i].id, c.definition.steps[i].kind) == Success(i)
  {
    var ids := Ids(c.definition.steps);
    var at := Locate(ids, c.steps[i].id);
    assert ids[i] == c.steps[i].id;
    assert ids[at.value] == ids[i];
  }

  /** A waiting or blocked run always holds a step that the matching endpoint admits. */
  lemma {:induction false} PhaseIsActionable(row: Row) returns (i: nat)
    requires Consistent(row) && Sound(row.config.definition) && !Terminal(row.config.phase)
    ensures i < |row.config.steps|
    ensures Admit(row.config, row.config.steps[i].id, row.config.definition.steps[i].kind) == Success(i)
    ensures row.config.phase == WaitingAgent ==>
              row.config.definition.steps[i].kind == Agent && row.config.steps[i].state == Pending
    ensures row.config.phase == WaitingHuman ==>
              row.config.definition.steps[i].kind == Human && row.config.steps[i].state == Pending
    ensures row.config.phase == BlockedRun ==> row.config.steps[i].state == Blocked
  {
    var d, steps := row.config.definition, row.config.steps;
    match row.config.phase
    case WaitingAgent =>
      i :| 0 <= i < |steps| && d.steps[i].kind == Agent && steps[i].state == Pending && Open(d, steps, i);
      AdmitOpen(row.config, i);
    case WaitingHuman =>
      i := UnresolvedStepIsOpen(row);
      AdmitOpen(row.config, i);
    case BlockedRun =>
      i := BlockedStepIsOpen(row);
      AdmitOpen(row.config, i);
  }

  // ----- the next-steps listing

  function ReadySteps(c: Config, kind: Kind, n: nat): (ready: seq<Step>)
    requires Aligned(c.definition, c.steps) && n <= |c.steps|
  {
    if n == 0 || Terminal(c.phase) then []
    else
      ReadySteps(c, kind, n - 1) +
      if Open(c.definition, c.steps, n - 1) && c.definition.steps[n - 1].kind == kind
      then [c.definition.steps[n - 1]] else []
  }

  lemma {:induction false} ReadyStepsContents(c: Config, kind: Kind, n: nat, step: Step)
    requires Aligned(c.definition, c.steps) && n <= |c.steps| && !Terminal(c.phase)
    ensures step in ReadySteps(c, kind, n) <==>
            exists i ::
              0 <= i < n && c.definition.steps[i] == step && step.kind == kind && Open(c.definition, c.steps, i)
  {
    if n > 0 {
      ReadyStepsContents(c, kind, n - 1, step);
    }
  }

  /** The listing offers exactly the steps that a submission of that kind would be admitted for. */
  lemma {:induction false} NextStepsAreTheAdmittedOnes(c: Config, kind: Kind, step: Step)
    requires Aligned(c.definition, c.steps) && Distinct(Ids(c.definition.steps))
    ensures step in ReadySteps(c, kind, |c.steps|) <==>
            step in c.definition.steps && Admit(c, step.id, kind).Success?
  {
    if !Terminal(c.phase) {
      ReadyStepsContents(c, kind, |c.steps|, step);
      if step in ReadySteps(c, kind, |c.steps|) {
        var i :| 0 <= i < |c.steps| && c.definition.steps[i] == step && step.kind == kind
                 && Open(c.definition, c.steps, i);
        AdmitOpen(c, i);
      }
      if step in c.definition.steps && Admit(c, step.id, kind).Success? {
        var at := Admit(c, step.id, kind).value;
        var i :| 0 <= i < |c.definition.steps| && c.definition.steps[i] == step;
        assert Ids(c.definition.steps)[i] == Ids(c.definition.steps)[at];
      }
    }
  }

  // ----- histories: a refused request leaves the row as it was

  function Replay(row: Row, history: seq<Request>): (r: Row)
    requires Aligned(row.config.definition, row.config.steps)
    ensures r.config.definition == row.config.definition
    ensures Aligned(r.config.definition, r.config.steps)
  {
    if history == [] then row
    else
      var before := Replay(row, history[..|history| - 1]);
      match Apply(before, history[|history| - 1])
      case Success(after) => after
      case Failure(_) => before
  }

  predicate SucceedsAt(row: Row, history: seq<Request>, n: nat)
    requires Aligned(row.config.definition, row.config.steps) && n < |history|
  {
    Apply(Replay(row, history[..n]), history[n]).Success?
  }

  /** Whether a request, if it succeeds, finishes its step. */
  predicate Finishing(q: Request) {
    match q
    case Report(_, _, _, status, _, _) => status == StatusReported
    case Review(_, _, _, _, accept, _, _) => accept
    case Cancel(_) => false
  }

  /** The steps in the order in which the history finished them. */
  function FinishLog(row: Row, history: seq<Request>): seq<StepId>
    requires Aligned(row.config.definition, row.config.steps)
  {
    if history == [] then []
    else
      var n := |history| - 1;
      FinishLog(row, history[..n]) +
      if SucceedsAt(row, history, n) && Finishing(history[n]) then [history[n].stepId] else []
  }

  lemma {:induction false} ReplayIsConsistent(row: Row, history: seq<Request>)
    requires Consistent(row)
    ensures Consistent(Replay(row, history))
  {
    if history != [] {
      var n := |history| - 1;
      ReplayIsConsistent(row, history[..n]);
      if SucceedsAt(row, history, n) {
        ApplyKeepsConsistency(Replay(row, history[..n]), history[n]);
      }
    }
  }

  lemma {:induction false} OneStep(row: Row, q: Request)
    requires Consistent(row) && Distinct(Ids(row.config.definition.steps)) && Apply(row, q).Success?
    ensures var steps, after := row.config.steps, Apply(row, q).value.config.steps;
            && |after| == |steps|
            && (forall i | 0 <= i < |steps| && Finished(steps[i]) :: after[i] == steps[i])
            && (Finishing(q) ==> q.stepId !in Done(steps))
            && Done(after) == Done(steps) + if Finishing(q) then {q.stepId} else {}
  {
    if !q.Cancel? {
      var i := SubmissionIsProper(row, q);
      DoneAfter(row.config.steps, i, Recorded(q, row.config.steps[i]));
      assert forall j | 0 <= j < |row.config.steps| && j != i ::
          Ids(row.config.definition.steps)[j] != Ids(row.config.definition.steps)[i];
    }
  }

  /** Finished work is final: no later request changes or reopens a finished step. */
  lemma {:induction false} FinishedStepsAreFrozen(row: Row, history: seq<Request>)
    requires Consistent(row) && Distinct(Ids(row.config.definition.steps))
    ensures Done(row.config.steps) <= Done(Replay(row, history).config.steps)
    ensures |Replay(row, history).config.steps| == |row.config.steps|
    ensures forall i | 0 <= i < |row.config.steps| && Finished(row.config.steps[i]) ::
              Replay(row, history).config.steps[i] == row.config.steps[i]
  {
    if history != [] {
      var n := |history| - 1;
      FinishedStepsAreFrozen(row, history[..n]);
      ReplayIsConsistent(row, history[..n]);
      if SucceedsAt(row, history, n) {
        OneStep(Replay(row, history[..n]), history[n]);
      }
    }
  }

  lemma {:induction false} TerminalIsAbsorbing(row: Row, history: seq<Request>)
    requires Aligned(row.config.definition, row.config.steps) && Terminal(row.config.phase)
    ensures Replay(row, history) == row
  {
    if history != [] {
      TerminalIsAbsorbing(row, history[..|history| - 1]);
    }
  }

  lemma {:induction false} SuccessExtendsTheLog(before: Row, q: Request, log: seq<StepId>)
    requires Consistent(before) && Distinct(Ids(before.config.definition.steps)) && Apply(before, q).Success?
    requires OrdersPrefix(GraphOf(before.config.definition.steps), log, Done(before.config.steps))
    ensures OrdersPrefix(GraphOf(before.config.definition.steps), log + if Finishing(q) then [q.stepId] else [],
                         Done(Apply(before, q).value.config.steps))
  {
    var d := before.config.definition;
    OneStep(before, q);
    if Finishing(q) {
      var i := SubmissionIsProper(before, q);
      assert d.steps[i].id == q.stepId;
      assert (set k | k in [q.stepId]) == {q.stepId};
      ExtendPrefix(GraphOf(d.steps), log, Done(before.config.steps), [q.stepId]);
    } else {
      assert log + [] == log;
    }
  }

  /** Every run finishes each step at most once, and only after all the steps it depends on. */
  lemma {:induction false} RunsFollowTheGraph(d: Definition, history: seq<Request>)
    requires Distinct(Ids(d.steps))
    ensures OrdersPrefix(GraphOf(d.steps), FinishLog(Start(d), history), Done(Replay(Start(d), history).config.steps))
  {
    var row := Start(d);
    StartIsConsistent(d);
    if history == [] {
      assert Done(row.config.steps) == {};
    } else {
      var n := |history| - 1;
      var before := Replay(row, history[..n]);
      RunsFollowTheGraph(d, history[..n]);
      ReplayIsConsistent(row, history[..n]);
      if SucceedsAt(row, history, n) {
        SuccessExtendsTheLog(before, history[n], FinishLog(row, history[..n]));
      } else {
        assert FinishLog(row, history) == FinishLog(row, history[..n]);
      }
    }
  }

  /** The steps of a completed run were finished in a topological order of the whole graph. */
  lemma {:induction false} CompletedRunsAreTopological(d: Definition, history: seq<Request>)
    requires Sound(d) && Replay(Start(d), history).config.phase == Completed
    ensures IsTopologicalOrder(GraphOf(d.steps), FinishLog(Start(d), history))
  {
    var row := Replay(Start(d), history);
    RunsFollowTheGraph(d, history);
    StartIsConsistent(d);
    ReplayIsConsistent(Start(d), history);
    forall k | k in GraphOf(d.steps) ensures k in Done(row.config.steps) {
      var i := NodeIsStep(d.steps, k);
      assert Finished(row.config.steps[i]);
    }
  }

  // ----- no run gets stuck

  function Unfinished(steps: seq<Record>): set<nat> {
    set i | 0 <= i < |steps| && !Finished(steps[i])
  }

  /** The request that finishes step i of a run. */
  function FinishRequest(row: Row, i: nat): Request
    requires Aligned(row.config.definition, row.config.steps) && i < |row.config.steps|
  {
    var step := row.config.definition.steps[i];
    if step.kind == Agent
    then Report(Some(row.revision), step.id, "agent", StatusReported, Samples(step.outputs), "")
    else Review(Some(row.revision), step.id, "human", false, true, Samples(step.outputs), "ok")
  }

  lemma {:induction false} FinishRequestIsAccepted(row: Row, i: nat)
    requires Consistent(row) && Distinct(Ids(row.config.definition.steps)) && !Terminal(row.config.phase)
    requires i < |row.config.steps| && Open(row.config.definition, row.config.steps, i)
    ensures Apply(row, FinishRequest(row, i))
         == Success(Submit(row, i, Recorded(FinishRequest(row, i), row.config.steps[i])))
  {
    var step := row.config.definition.steps[i];
    AdmitOpen(row.config, i);
    SamplesConform(step.outputs);
    assert !Space("ok"[0]);
    assert CheckContent(step, FinishRequest(row, i)) == Pass;
  }

  lemma {:induction false} FinishRequestSucceeds(row: Row, i: nat)
    requires Consistent(row) && Distinct(Ids(row.config.definition.steps)) && !Terminal(row.config.phase)
    requires i < |row.config.steps| && Open(row.config.definition, row.config.steps, i)
    ensures Apply(row, FinishRequest(row, i)).Success?
    ensures var after := Apply(row, FinishRequest(row, i)).value.config;
            && Unfinished(after.steps) == Unfinished(row.config.steps) - {i}
            && (after.phase == Completed || !Terminal(after.phase))
            && (after.phase == Completed <==> Unfinished(after.steps) == {})
  {
    FinishRequestIsAccepted(row, i);
    FinishingLeavesTheRest(row, i, Recorded(FinishRequest(row, i), row.config.steps[i]));
  }

  lemma {:induction false} FinishingLeavesTheRest(row: Row, i: nat, record: Record)
    requires Consistent(row) && !Terminal(row.config.phase) && i < |row.config.steps|
    requires record.id == row.config.steps[i].id && Finished(record)
    ensures var after := Submit(row, i, record).config;
            && Unfinished(after.steps) == Unfinished(row.config.steps) - {i}
            && (after.phase == Completed || !Terminal(after.phase))
            && (after.phase == Completed <==> Unfinished(after.steps) == {})
  {
    var after := Submit(row, i, record).config;
    assert forall j | 0 <= j < |after.steps| && j != i :: after.steps[j] == row.config.steps[j];
    assert forall j | 0 <= j < |after.steps| :: j in Unfinished(after.steps) <==> !Finished(after.steps[j]);
  }

  lemma {:induction false} ReplayConcat(row: Row, a: seq<Request>, b: seq<Request>)
    requires Aligned(row.config.definition, row.config.steps)
    ensures Replay(row, a + b) == Replay(Replay(row, a), b)
  {
    if b == [] {
      assert a + b == a;
    } else {
      ReplayConcat(row, a, b[..|b| - 1]);
      assert (a + b)[..|a + b| - 1] == a + b[..|b| - 1];
    }
  }

  lemma {:induction false} PrependSuccess(row: Row, q: Request, tail: seq<Request>, n: nat)
    requires Aligned(row.config.definition, row.config.steps) && Apply(row, q).Success? && n < |tail|
    ensures SucceedsAt(row, [q] + tail, n + 1) == SucceedsAt(Apply(row, q).value, tail, n)
  {
    ReplayConcat(row, [q], tail[..n]);
    assert Replay(row, [q]) == Apply(row, q).value;
    assert ([q] + tail)[..n + 1] == [q] + tail[..n];
  }

  /** From any live state, as many finishing requests as there are unfinished steps complete the run. */
  lemma {:induction false} RunsCanComplete(row: Row) returns (rest: seq<Request>)
    requires Consistent(row) && Sound(row.config.definition) && !Terminal(row.config.phase)
    ensures |rest| == |Unfinished(row.config.steps)|
    ensures Replay(row, rest).config.phase == Completed
    ensures forall n | 0 <= n < |rest| :: SucceedsAt(row, rest, n) && Finishing(rest[n])
    decreases |Unfinished(row.config.steps)|, 1
  {
    var i := UnresolvedStepIsOpen(row);
    assert i in Unfinished(row.config.steps);
    var q := FinishRequest(row, i);
    FinishRequestSucceeds(row, i);
    rest := CompleteAfter(row, q);
  }

  lemma {:induction false} CompleteAfter(row: Row, q: Request) returns (rest: seq<Request>)
    requires Consistent(row) && Sound(row.config.definition) && Apply(row, q).Success? && Finishing(q)
    requires var after := Apply(row, q).value.config;
             && |Unfinished(after.steps)| + 1 == |Unfinished(row.config.steps)|
             && (after.phase == Completed || !Terminal(after.phase))
             && (after.phase == Completed <==> Unfinished(after.steps) == {})
    ensures |rest| == |Unfinished(row.config.steps)|
    ensures Replay(row, rest).config.phase == Completed
    ensures forall n | 0 <= n < |rest| :: SucceedsAt(row, rest, n) && Finishing(rest[n])
    decreases |Unfinished(row.config.steps)|, 0
  {
    var next := Apply(row, q).value;
    var tail := [];
    if next.config.phase != Completed {
      ApplyKeepsConsistency(row, q);
      tail := RunsCanComplete(next);
    }
    rest := [q] + tail;
    assert Replay(row, [q]) == next;
    ReplayConcat(row, [q], tail);
    forall n | 0 <= n < |rest| ensures SucceedsAt(row, rest, n) && Finishing(rest[n]) {
      if n > 0 {
        PrependSuccess(row, q, tail, n - 1);
      }
    }
  }

  lemma {:induction false} OneRecordLess(steps: seq<Record>, i: nat, record: Record)
    requires i < |steps| && !Finished(steps[i])
    ensures |Unfinished(steps)| == |Unfinished(steps[i := record])| + if Finished(record) then 1 else 0
  {
    var after := steps[i := record];
    assert i in Unfinished(steps);
    assert Unfinished(after) == Unfinished(steps) - if Finished(record) then {i} else {} by {
      assert forall j | 0 <= j < |steps| && j != i :: after[j] == steps[j];
    }
  }

  lemma {:induction false} OneStepLess(row: Row, q: Request)
    requires Consistent(row) && Apply(row, q).Success?
    ensures |Unfinished(row.config.steps)|
         == |Unfinished(Apply(row, q).value.config.steps)| + if Finishing(q) then 1 else 0
  {
    if !q.Cancel? {
      var i := SubmissionIsProper(row, q);
      var record := Recorded(q, row.config.steps[i]);
      assert Finished(record) <==> Finishing(q);
      OneRecordLess(row.config.steps, i, record);
    }
  }

  /** Every finishing request takes one step off the rest: a history that completes a run holds
      exactly as many of them as there were unfinished steps. */
  lemma {:induction false} FinishesAreCounted(row: Row, history: seq<Request>)
    requires Consistent(row)
    ensures |Unfinished(row.config.steps)|
         == |Unfinished(Replay(row, history).config.steps)| + |FinishLog(row, history)|
    ensures Replay(row, history).config.phase == Completed ==>
              |FinishLog(row, history)| == |Unfinished(row.config.steps)|
  {
    if history != [] {
      var n := |history| - 1;
      FinishesAreCounted(row, history[..n]);
      ReplayIsConsistent(row, history[..n]);
      if SucceedsAt(row, history, n) {
        OneStepLess(Replay(row, history[..n]), history[n]);
      }
    }
    ReplayIsConsistent(row, history);
    CompletedHasNoneLeft(Replay(row, history));
  }

  lemma {:induction false} CompletedHasNoneLeft(row: Row)
    requires Consistent(row)
    ensures row.config.phase == Completed ==> Unfinished(row.config.steps) == {}
  {
  }

  // ----- gates

  /** The revision that the request at one place of a history meets. */
  function RevisionAt(row: Row, history: seq<Request>, n: nat): nat
    requires Aligned(row.config.definition, row.config.steps) && n <= |history|
  {
    Replay(row, history[..n]).revision
  }

  lemma {:induction false} RevisionOfOne(row: Row, history: seq<Request>, n: nat)
    requires Aligned(row.config.definition, row.config.steps) && n < |history|
    ensures RevisionAt(row, history, n + 1)
         == RevisionAt(row, history, n) + if SucceedsAt(row, history, n) then 1 else 0
    ensures SucceedsAt(row, history, n) ==> history[n].ifMatch == Some(RevisionAt(row, history, n))
  {
    assert history[..n + 1][..n] == history[..n];
    var before := Replay(row, history[..n]);
    assert Apply(before, history[n]).Success? ==> Apply(before, history[n]).value.revision == before.revision + 1;
  }

  lemma {:induction false} RevisionsNeverFall(row: Row, history: seq<Request>, i: nat, j: nat)
    requires Aligned(row.config.definition, row.config.steps) && i <= j <= |history|
    ensures RevisionAt(row, history, i) <= RevisionAt(row, history, j)
    decreases j
  {
    if i < j {
      var n := j - 1;
      RevisionsNeverFall(row, history, i, n);
      RevisionOfOne(row, history, n);
    }
  }

  /** Of all requests naming one revision, at most one ever succeeds. */
  lemma {:induction false} OneWinnerPerRevision(row: Row, history: seq<Request>, i: nat, j: nat)
    requires Aligned(row.config.definition, row.config.steps) && i < j < |history|
    requires SucceedsAt(row, history, i) && SucceedsAt(row, history, j)
    ensures history[i].ifMatch != history[j].ifMatch
  {
    RevisionOfOne(row, history, i);
    RevisionsNeverFall(row, history, i + 1, j);
    RevisionOfOne(row, history, j);
  }

  /** An accepted step was accepted by a person: some review in the history, not sent by an agent, did it. */
  lemma {:induction false} AcceptedByAPerson(d: Definition, history: seq<Request>, i: nat) returns (n: nat)
    requires i < |d.steps| && Distinct(Ids(d.steps))
    requires Replay(Start(d), history).config.steps[i].state == Accepted
    ensures n < |history| && SucceedsAt(Start(d), history, n) && history[n].Review?
    ensures !history[n].viaAgent && history[n].accept && history[n].stepId == d.steps[i].id
    ensures Replay(Start(d), history).config.steps[i].reviewedBy == Some(history[n].user)
  {
    StartIsConsistent(d);
    if history == [] {
      assert false;
    } else {
      var last := |history| - 1;
      var before := Replay(Start(d), history[..last]);
      ReplayIsConsistent(Start(d), history[..last]);
      if before.config.steps[i].state == Accepted {
        if SucceedsAt(Start(d), history, last) {
          FinishedStepStays(before, history[last], i);
        }
        n := AcceptedByAPerson(d, history[..last], i);
        SucceedsInPrefix(Start(d), history, last, n);
      } else {
        n := last;
        AcceptingRequest(before, history[last], i);
      }
    }
  }

  lemma {:induction false} SucceedsInPrefix(row: Row, history: seq<Request>, m: nat, n: nat)
    requires Aligned(row.config.definition, row.config.steps) && n < m <= |history|
    ensures SucceedsAt(row, history[..m], n) == SucceedsAt(row, history, n)
  {
    assert history[..m][..n] == history[..n];
  }

  lemma {:induction false} FinishedStepStays(before: Row, q: Request, i: nat)
    requires Consistent(before) && Distinct(Ids(before.config.definition.steps)) && Apply(before, q).Success?
    requires i < |before.config.steps| && Finished(before.config.steps[i])
    ensures Apply(before, q).value.config.steps[i] == before.config.steps[i]
  {
    OneStep(before, q);
  }

  lemma {:induction false} AcceptingRequest(before: Row, q: Request, i: nat)
    requires Consistent(before) && i < |before.config.steps| && before.config.steps[i].state != Accepted
    requires Apply(before, q).Success? && Apply(before, q).value.config.steps[i].state == Accepted
    ensures q.Review? && !q.viaAgent && q.accept && q.stepId == before.config.steps[i].id
    ensures Apply(before, q).value.config.steps[i].reviewedBy == Some(q.user)
  {
    var k := SubmissionIsProper(before, q);
  }

  /** External writes and financial actions finish only when a person accepts them. */
  lemma {:induction false} RiskyStepsNeedAPerson(d: Definition, history: seq<Request>, i: nat) returns (n: nat)
    requires Sound(d) && i < |d.steps| && d.steps[i].risk in {ExternalWrite, FinancialAction}
    requires Finished(Replay(Start(d), history).config.steps[i])
    ensures n < |history| && SucceedsAt(Start(d), history, n) && history[n].Review?
    ensures !history[n].viaAgent && history[n].accept && history[n].stepId == d.steps[i].id
  {
    StartIsConsistent(d);
    ReplayIsConsistent(Start(d), history);
    assert Gated(d.steps[i]);
    n := AcceptedByAPerson(d, history, i);
  }

  // ----- the stored row

  class RunRow {
    var config: Config
    var revision: nat

    predicate Valid()
      reads this
    {
      Aligned(config.definition, config.steps)
    }

    function View(): Row
      reads this
    {
      Row(config, revision)
    }

    constructor (d: Definition)
      ensures Valid() && View() == Start(d)
    {
      var steps := FreshRecords(d);
      config := Config(d, steps, PhaseOf(d, steps, false));
      revision := 1;
    }

    method Write(i: nat, record: Record)
      requires Valid() && i < |config.steps| && record.id == config.steps[i].id
      modifies this
      ensures Valid() && View() == Submit(old(View()), i, record)
    {
      var steps := config.steps[i := record];
      config := config.(steps := steps,
                        phase := PhaseOf(config.definition, steps, config.phase == Cancelled));
      revision := revision + 1;
    }

    method HandleReport(q: Request) returns (r: Outcome<RunError>)
      requires Valid() && q.Report?
      modifies this
      ensures Valid()
      ensures match Apply(old(View()), q)
              case Success(after) => r == Pass && View() == after
              case Failure(e) => r == Fail(e) && View() == old(View())
    {
      r := CheckRevision(q.ifMatch, revision);
      if r.Fail? { return; }
      var admitted := Admit(config, q.stepId, Agent);
      if admitted.Failure? { return Fail(admitted.error); }
      var ok := ValidateValues(config.definition.steps[admitted.value].outputs, q.outputs, q.status != StatusReported);
      if !ok { return Fail(ValuesInvalid); }
      if q.status != StatusReported && Blank(q.note) { return Fail(BlockReasonRequired); }
      Write(admitted.value, config.steps[admitted.value].(
        state := StateFor(q.status), outputs := q.outputs, note := q.note, reportedBy := Some(q.user)));
    }

    method HandleReview(q: Request) returns (r: Outcome<RunError>)
      requires Valid() && q.Review?
      modifies this
      ensures Valid()
      ensures match Apply(old(View()), q)
              case Success(after) => r == Pass && View() == after
              case Failure(e) => r == Fail(e) && View() == old(View())
    {
      if q.viaAgent { return Fail(HumanReviewRequired); }
      r := CheckRevision(q.ifMatch, revision);
      if r.Fail? { return; }
      var admitted := Admit(config, q.stepId, Human);
      if admitted.Failure? { return Fail(admitted.error); }
      if Blank(q.note) { return Fail(ReviewNoteRequired); }
      var ok := ValidateValues(config.definition.steps[admitted.value].outputs, q.outputs, !q.accept);
      if !ok { return Fail(ValuesInvalid); }
      Write(admitted.value, config.steps[admitted.value].(
        state := if q.accept then Accepted else Blocked, outputs := q.outputs, note := q.note,
        reviewedBy := Some(q.user)));
    }

    method HandleCancel(q: Request) returns (r: Outcome<RunError>)
      requires Valid() && q.Cancel?
      modifies this
      ensures Valid()
      ensures match Apply(old(View()), q)
              case Success(after) => r == Pass && View() == after
              case Failure(e) => r == Fail(e) && View() == old(View())
    {
      r := CheckRevision(q.ifMatch, revision);
      if r.Fail? { return; }
      if Terminal(config.phase) { return Fail(RunTerminal); }
      config := config.(phase := Cancelled);
      revision := revision + 1;
    }
  }
}
