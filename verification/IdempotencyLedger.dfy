/** The idempotency ledger of mutating requests. Each request has a database session of its own and goes through the
    stages of `execute_request`; what its session has staged becomes visible only by a commit, as it stands then
    (`begin_idempotency` and `execute_request` of backend/fund_kb/api.py). */
module IdempotencyLedger {
  import opened Wrappers

  const WINDOW := 24 * 60 * 60

  // actor, method and path, and the client's key
  datatype Key = Key(actor: string, httpMethod: string, route: string, key: string)
  datatype Response = Response(status: nat, body: string)
  datatype RowState = Started | Completed(response: Response)
  datatype Row = Row(digest: string, state: RowState, expires: int)

  /** A handler's committed effect on the business state. */
  datatype Effect = Effect(key: Key, digest: string, response: Response, begun: int, expires: int)

  datatype Database = Database(ledger: map<Key, Row>, effects: seq<Effect>, audits: nat)

  /** Which statement of the request comes next: the handler, the completion of the ledger row, or the commit. */
  datatype Stage = AtHandler | AtRecord | AtCommit

  /** A request's session: the row it staged, in place of an expired one if there was one, the effect its handler
      staged, and whether an audit event is staged. */
  datatype Session = Session(stage: Stage, key: Key, digest: string, begun: int, replaced: Option<Row>,
                             row: Option<Row>, effect: Option<Effect>, audit: bool)

  datatype System = System(db: Database, sessions: map<nat, Session>)

  datatype Request = Request(key: Key, digest: string, now: int, mayReplay: bool)

  datatype ApiError = IdempotencyRequired | IdempotencyConflict | RequestInProgress | ReplayForbidden
  datatype Opening = Refused(error: ApiError) | Replayed(response: Response) | Proceeding

  /** How a statement ends: with the handler's response, with an APIError, or with another exception.
      `audited` is whether the audit event of an APIError gets through. */
  datatype Ending = Goes(response: Response) | RaisesApi(audited: bool) | RaisesOther
  datatype Closing = Open | Committed(response: Response) | RolledBack

  // ----- the session

  /** Whether the request's row may be written: the committed row must still be the one it set out to replace. */
  predicate NoConflict(db: Database, s: Session) {
    s.row.Some? ==> Current(db, s.key) == s.replaced
  }

  /** The committed row for the key, if any. */
  function Current(db: Database, key: Key): Option<Row> {
    if key in db.ledger then Some(db.ledger[key]) else None
  }

  /** Writes what is staged, whatever it is. */
  function Commit(db: Database, s: Session): Database {
    Database(if s.row.Some? then db.ledger[s.key := s.row.value] else db.ledger,
             if s.effect.Some? then db.effects + [s.effect.value] else db.effects,
             db.audits + if s.audit then 1 else 0)
  }

  function Rollback(s: Session): Session {
    s.(row := None, effect := None, audit := false)
  }

  /** The error path: everything staged is rolled back; for an APIError an audit event is then staged and committed. */
  function AfterError(db: Database, s: Session, e: Ending): Database {
    if e.RaisesApi? && e.audited then Commit(db, Rollback(s).(audit := true)) else db
  }

  // ----- opening a request

  predicate Expired(row: Row, now: int) {
    row.expires <= now
  }

  /** What the ledger says to a request, before anything runs. */
  function Look(db: Database, q: Request): Opening {
    if !(8 <= |q.key.key| <= 128) then Refused(IdempotencyRequired)
    else if q.key !in db.ledger || Expired(db.ledger[q.key], q.now) then Proceeding
    else
      var row := db.ledger[q.key];
      if row.digest != q.digest then Refused(IdempotencyConflict)
      else match row.state
        case Started => Refused(RequestInProgress)
        case Completed(response) => if q.mayReplay then Replayed(response) else Refused(ReplayForbidden)
  }

  function NewSession(db: Database, q: Request): Session {
    Session(AtHandler, q.key, q.digest, q.now, Current(db, q.key),
            Some(Row(q.digest, Started, q.now + WINDOW)), None, false)
  }

  /** A refusal is an APIError raised in a session that has staged nothing. */
  function OpenRequest(sys: System, id: nat, q: Request, audited: bool): (System, Opening) {
    var opening := Look(sys.db, q);
    match opening
    case Proceeding => (sys.(sessions := sys.sessions[id := NewSession(sys.db, q)]), opening)
    case Refused(_) => (sys.(db := AfterError(sys.db, NewSession(sys.db, q), RaisesApi(audited))), opening)
    case Replayed(_) => (sys, opening)
  }

  // ----- carrying it on

  function EffectOf(s: Session, response: Response): Effect {
    Effect(s.key, s.digest, response, s.begun, s.begun + WINDOW)
  }

  /** The next statement of a request: the handler stages its effect; the row is completed with the handler's response;
      the session commits, unless the row conflicts. Anything raised ends the request by the error path. */
  function Proceed(sys: System, id: nat, e: Ending): (System, Closing)
    requires id in sys.sessions
  {
    var s, others := sys.sessions[id], sys.sessions - {id};
    if !e.Goes? then (System(AfterError(sys.db, s, e), others), RolledBack)
    else match s.stage
      case AtHandler =>
        (sys.(sessions := sys.sessions[id := s.(stage := AtRecord, effect := Some(EffectOf(s, e.response)))]), Open)
      case AtRecord =>
        if s.row.None? || s.effect.None? then (sys.(sessions := others), RolledBack)
        else
          var row := s.row.value.(state := Completed(s.effect.value.response));
          (sys.(sessions := sys.sessions[id := s.(stage := AtCommit, row := Some(row))]), Open)
      case AtCommit =>
        if s.effect.None? || !NoConflict(sys.db, s) then (sys.(sessions := others), RolledBack)
        else (System(Commit(sys.db, s), others), Committed(s.effect.value.response))
  }

  // ----- the invariant

  /** The windows of one key's effects follow each other without overlap. */
  ghost predicate Disjoint(effects: seq<Effect>) {
    forall i, j | 0 <= i < j < |effects| && effects[i].key == effects[j].key :: effects[i].expires <= effects[j].begun
  }

  ghost predicate LastOf(effects: seq<Effect>, key: Key, i: int) {
    0 <= i < |effects| && effects[i].key == key && forall j | i < j < |effects| :: effects[j].key != key
  }

  /** The row is the record of the key's last effect. */
  ghost predicate Records(db: Database, key: Key) {
    exists i :: RecordsEffect(db, key, i)
  }

  function CompletedRow(e: Effect): Row {
    Row(e.digest, Completed(e.response), e.expires)
  }

  ghost predicate RecordsEffect(db: Database, key: Key, i: int) {
    key in db.ledger && LastOf(db.effects, key, i) && db.ledger[key] == CompletedRow(db.effects[i])
  }

  ghost predicate SoundDatabase(db: Database) {
    && Disjoint(db.effects)
    && (forall i | 0 <= i < |db.effects| :: db.effects[i].expires == db.effects[i].begun + WINDOW)
    && (forall k | k in db.ledger :: Records(db, k))
    && (forall i | 0 <= i < |db.effects| :: db.effects[i].key in db.ledger)
  }

  /** What a session has staged at each stage: a started row, then an effect beside it, then the completed row. */
  predicate Staged(s: Session) {
    && (s.replaced.Some? ==> Expired(s.replaced.value, s.begun))
    && !s.audit && s.row.Some?
    && match s.stage
       case AtHandler => s.row.value == Row(s.digest, Started, s.begun + WINDOW) && s.effect.None?
       case AtRecord => s.row.value == Row(s.digest, Started, s.begun + WINDOW)
                        && s.effect.Some? && s.effect.value == EffectOf(s, s.effect.value.response)
       case AtCommit => s.effect.Some? && s.effect.value == EffectOf(s, s.effect.value.response)
                        && s.row.value == CompletedRow(s.effect.value)
  }

  ghost predicate Sound(sys: System) {
    SoundDatabase(sys.db) && forall id | id in sys.sessions :: Staged(sys.sessions[id])
  }

  lemma {:induction false} EarlierEndBeforeLast(db: Database, key: Key, i: nat, last: nat)
    requires SoundDatabase(db) && LastOf(db.effects, key, last)
    requires i < |db.effects| && db.effects[i].key == key
    ensures db.effects[i].expires <= db.effects[last].expires
  {
    if i != last {
      assert i < last;
      assert db.effects[i].expires <= db.effects[last].begun;
    }
  }

  lemma {:induction false} CommitKeepsOthers(db: Database, s: Session, k: Key)
    requires Staged(s) && s.stage == AtCommit && k != s.key && Records(db, k)
    ensures Records(Commit(db, s), k)
  {
    var i :| RecordsEffect(db, k, i);
    assert Commit(db, s).effects[i] == db.effects[i] && RecordsEffect(Commit(db, s), k, i);
  }

  lemma {:induction false} EarlierWindowsAreOver(db: Database, s: Session, i: nat)
    requires SoundDatabase(db) && Staged(s) && NoConflict(db, s)
    requires i < |db.effects| && db.effects[i].key == s.key
    ensures db.effects[i].expires <= s.begun
  {
    assert Records(db, s.key);
    var last :| RecordsEffect(db, s.key, last);
    EarlierEndBeforeLast(db, s.key, i, last);
  }

  lemma {:induction false} CommitIsSound(db: Database, s: Session)
    requires SoundDatabase(db) && Staged(s) && s.stage == AtCommit && NoConflict(db, s)
    ensures SoundDatabase(Commit(db, s))
  {
    var before, after := db.effects, Commit(db, s);
    forall i | 0 <= i < |before| && before[i].key == s.key ensures before[i].expires <= s.begun {
      EarlierWindowsAreOver(db, s, i);
    }
    assert after.effects[|before|] == s.effect.value && RecordsEffect(after, s.key, |before|);
    forall k | k in after.ledger && k != s.key ensures Records(after, k) {
      CommitKeepsOthers(db, s, k);
    }
  }

  /** The error path commits no row and no effect. */
  lemma {:induction false} ErrorIsSound(db: Database, s: Session, e: Ending)
    requires SoundDatabase(db)
    ensures SoundDatabase(AfterError(db, s, e))
    ensures AfterError(db, s, e).ledger == db.ledger && AfterError(db, s, e).effects == db.effects
  {
    forall k | k in db.ledger ensures Records(AfterError(db, s, e), k) {
      var i :| RecordsEffect(db, k, i);
      assert RecordsEffect(AfterError(db, s, e), k, i);
    }
  }

  lemma {:induction false} OpenIsSound(sys: System, id: nat, q: Request, audited: bool)
    requires Sound(sys)
    ensures Sound(OpenRequest(sys, id, q, audited).0)
  {
    ErrorIsSound(sys.db, NewSession(sys.db, q), RaisesApi(audited));
  }

  lemma {:induction false} ProceedIsSound(sys: System, id: nat, e: Ending)
    requires Sound(sys) && id in sys.sessions
    ensures Sound(Proceed(sys, id, e).0)
  {
    var s := sys.sessions[id];
    ErrorIsSound(sys.db, s, e);
    if s.stage == AtCommit && NoConflict(sys.db, s) {
      CommitIsSound(sys.db, s);
    }
  }

  // ----- interleaved histories

  /** Requests open and proceed in any order; the process may die between any two statements of a request. */
  datatype Step = Opens(id: nat, request: Request, audited: bool) | Runs(id: nat, ending: Ending) | Dies(id: nat)

  function Next(sys: System, step: Step): System {
    match step
    case Opens(id, q, audited) => if id in sys.sessions then sys else OpenRequest(sys, id, q, audited).0
    case Runs(id, ending) => if id in sys.sessions then Proceed(sys, id, ending).0 else sys
    case Dies(id) => sys.(sessions := sys.sessions - {id})
  }

  function Play(sys: System, steps: seq<Step>): System {
    if steps == [] then sys else Next(Play(sys, steps[..|steps| - 1]), steps[|steps| - 1])
  }

  const EMPTY := System(Database(map[], [], 0), map[])

  lemma {:induction false} HistoriesAreSound(steps: seq<Step>)
    ensures Sound(Play(EMPTY, steps))
  {
    if steps != [] {
      var before := Play(EMPTY, steps[..|steps| - 1]);
      HistoriesAreSound(steps[..|steps| - 1]);
      match steps[|steps| - 1]
      case Opens(id, q, audited) => OpenIsSound(before, id, q, audited);
      case Runs(id, ending) => if id in before.sessions { ProceedIsSound(before, id, ending); }
      case Dies(_) =>
    }
  }

  /** At any moment at most one committed effect of a key is within its window, however requests interleave:
      a handler takes effect at most once per live window, with the same body or with another. */
  lemma {:induction false} AtMostOncePerWindow(steps: seq<Step>, i: nat, j: nat, moment: int)
    requires var effects := Play(EMPTY, steps).db.effects;
             && i < |effects| && j < |effects| && effects[i].key == effects[j].key
             && effects[i].begun <= moment < effects[i].expires && effects[j].begun <= moment < effects[j].expires
    ensures i == j
  {
    HistoriesAreSound(steps);
  }

  /** Although every request stages a started row, none is ever committed, on the error path neither. */
  lemma {:induction false} CommittedRowsAreCompleted(steps: seq<Step>, key: Key)
    requires key in Play(EMPTY, steps).db.ledger
    ensures Play(EMPTY, steps).db.ledger[key].state.Completed?
  {
    HistoriesAreSound(steps);
    assert Records(Play(EMPTY, steps).db, key);
  }

  /** Hence no request is ever told that another one is still in progress: it would have to read an uncommitted row. */
  lemma {:induction false} InProgressIsNeverReported(steps: seq<Step>, q: Request)
    ensures Look(Play(EMPTY, steps).db, q) != Refused(RequestInProgress)
  {
    if q.key in Play(EMPTY, steps).db.ledger {
      CommittedRowsAreCompleted(steps, q.key);
    }
  }

  /** It is the order of the statements that keeps it so: a commit one statement too early, before the row is
      completed, would publish a started row, and until it expires every other request of the key would be told so. */
  lemma {:induction false} EarlyCommitsWouldShow(sys: System, id: nat, q: Request)
    requires Sound(sys) && id in sys.sessions && q.key == sys.sessions[id].key && 8 <= |q.key.key| <= 128
    requires q.digest == sys.sessions[id].digest && q.now < sys.sessions[id].begun + WINDOW
    ensures Look(Commit(sys.db, sys.sessions[id]), q) == Refused(RequestInProgress) <==>
            sys.sessions[id].stage != AtCommit
  {
    assert Staged(sys.sessions[id]);
  }

  /** A replay answers with the response of an effect of the same key and body whose window is still open. */
  lemma {:induction false} ReplaysAreFaithful(steps: seq<Step>, q: Request) returns (i: nat)
    requires Look(Play(EMPTY, steps).db, q).Replayed?
    ensures var effects := Play(EMPTY, steps).db.effects;
            && i < |effects| && effects[i].key == q.key && effects[i].digest == q.digest
            && q.now < effects[i].expires && Look(Play(EMPTY, steps).db, q) == Replayed(effects[i].response)
  {
    HistoriesAreSound(steps);
    var db := Play(EMPTY, steps).db;
    assert Records(db, q.key);
    var last :| RecordsEffect(db, q.key, last);
    i := last;
  }

  /** Whether this step is a commit that goes through. */
  predicate Commits(sys: System, step: Step) {
    step.Runs? && step.id in sys.sessions && Proceed(sys, step.id, step.ending).1.Committed?
  }

  /** Only a commit changes business state or ledger, by the request's one effect and its completed row. Refusals,
      replays, failures at any statement, lost races and deaths change neither. */
  lemma {:induction false} OnlyCommitsChangeAnything(steps: seq<Step>, step: Step)
    ensures var sys := Play(EMPTY, steps);
            var after := Next(sys, step);
            if Commits(sys, step) then
              var s := sys.sessions[step.id];
              && s.effect.Some? && s.effect.value == EffectOf(s, s.effect.value.response)
              && Proceed(sys, step.id, step.ending).1 == Committed(s.effect.value.response)
              && after.db.effects == sys.db.effects + [s.effect.value]
              && after.db.ledger == sys.db.ledger[s.key := CompletedRow(s.effect.value)]
            else after.db.effects == sys.db.effects && after.db.ledger == sys.db.ledger
  {
    HistoriesAreSound(steps);
    OneStepChangesByCommit(Play(EMPTY, steps), step);
  }

  lemma {:induction false} OneStepChangesByCommit(sys: System, step: Step)
    requires Sound(sys)
    ensures var after := Next(sys, step);
            if Commits(sys, step) then
              var s := sys.sessions[step.id];
              && s.effect.Some? && s.effect.value == EffectOf(s, s.effect.value.response)
              && Proceed(sys, step.id, step.ending).1 == Committed(s.effect.value.response)
              && after.db.effects == sys.db.effects + [s.effect.value]
              && after.db.ledger == sys.db.ledger[s.key := CompletedRow(s.effect.value)]
            else after.db.effects == sys.db.effects && after.db.ledger == sys.db.ledger
  {
  }

  /** Of two requests that opened on the same row of a key, only the first to commit takes effect. */
  lemma {:induction false} RacesHaveOneWinner(sys: System, a: nat, b: nat, x: Ending, y: Ending)
    requires Sound(sys) && a != b && a in sys.sessions && b in sys.sessions
    requires sys.sessions[a].key == sys.sessions[b].key && sys.sessions[a].replaced == sys.sessions[b].replaced
    requires Proceed(sys, a, x).1.Committed? && sys.sessions[b].stage == AtCommit
    ensures var after := Proceed(sys, a, x).0;
            b in after.sessions && Proceed(after, b, y).1 == RolledBack
            && Proceed(after, b, y).0.db.effects == after.db.effects
            && Proceed(after, b, y).0.db.ledger == after.db.ledger
  {
    var s, after := sys.sessions[a], Proceed(sys, a, x).0;
    assert Staged(s) && Staged(sys.sessions[b]);
    assert Current(after.db, s.key) == s.row;
    assert s.replaced.Some? ==> s.replaced.value.expires <= s.begun < s.row.value.expires;
  }

  // ----- the tables and the sessions

  class Tables {
    var ledger: map<Key, Row>
    var effects: seq<Effect>
    var audits: nat
    var sessions: map<nat, Session>

    function View(): System
      reads this
    {
      System(Database(ledger, effects, audits), sessions)
    }

    constructor ()
      ensures View() == EMPTY
    {
      ledger, effects, audits, sessions := map[], [], 0, map[];
    }

    /** The exception handlers: roll back, then audit an APIError. */
    method HandleError(s: Session, e: Ending)
      modifies this`audits
      ensures View() == old(View()).(db := AfterError(old(View()).db, s, e))
    {
      if e.RaisesApi? && e.audited {
        audits := audits + 1;
      }
    }

    method BeginIdempotency(id: nat, q: Request, audited: bool) returns (opening: Opening)
      modifies this
      ensures (View(), opening) == OpenRequest(old(View()), id, q, audited)
    {
      opening := Proceeding;
      if |q.key.key| < 8 || 128 < |q.key.key| {
        opening := Refused(IdempotencyRequired);
      } else {
        var record: Option<Row> := None;
        if q.key in ledger && q.now < ledger[q.key].expires {
          record := Some(ledger[q.key]);
        }
        if record.Some? {
          if record.value.digest != q.digest {
            opening := Refused(IdempotencyConflict);
          } else if record.value.state.Started? {
            opening := Refused(RequestInProgress);
          } else if !q.mayReplay {
            opening := Refused(ReplayForbidden);
          } else {
            opening := Replayed(record.value.state.response);
          }
        }
      }
      if opening.Refused? {
        HandleError(NewSession(View().db, q), RaisesApi(audited));
      } else if opening == Proceeding {
        sessions := sessions[id := Session(AtHandler, q.key, q.digest, q.now, Current(View().db, q.key),
                                           Some(Row(q.digest, Started, q.now + WINDOW)), None, false)];
      }
    }

    /** One statement of `execute_request` after the ledger lookup. */
    method ExecuteNext(id: nat, e: Ending) returns (closing: Closing)
      requires id in sessions
      modifies this
      ensures (View(), closing) == Proceed(old(View()), id, e)
    {
      var s := sessions[id];
      if !e.Goes? {
        sessions := sessions - {id};
        HandleError(s, e);
        return RolledBack;
      }
      match s.stage
      case AtHandler =>
        sessions := sessions[id := s.(stage := AtRecord, effect := Some(EffectOf(s, e.response)))];
        return Open;
      case AtRecord =>
        if s.row.None? || s.effect.None? {
          sessions := sessions - {id};
          return RolledBack;
        }
        var row := s.row.value.(state := Completed(s.effect.value.response));
        sessions := sessions[id := s.(stage := AtCommit, row := Some(row))];
        return Open;
      case AtCommit =>
        sessions := sessions - {id};
        if s.effect.None? || !NoConflict(View().db, s) {
          return RolledBack;
        }
        if s.row.Some? {
          ledger := ledger[s.key := s.row.value];
        }
        effects := effects + [s.effect.value];
        if s.audit {
          audits := audits + 1;
        }
        return Committed(s.effect.value.response);
    }
  }
}
