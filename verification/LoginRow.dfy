/** The stored side of the login: the state row of one connection, the connection itself and the queued jobs,
    with each database transaction of backend/fund_kb/api_oauth.py as one function and one method. */
module LoginRow {
  import opened Wrappers
  import opened BridgeState

  datatype Task = LoginStart | AuthRefresh | LoginCancel | Logout
  datatype JobStatus = Queued | Running | Succeeded | FailedJob | CancelledJob
  datatype Job = Job(task: Task, epoch: nat, connectionRevision: nat, attemptId: Option<string>,
                     status: JobStatus, attempts: nat, cancelRequested: bool)

  datatype Row = Row(state: LoginState, epoch: nat, attemptId: Option<string>, activeJob: Option<nat>,
                     connectionRevision: nat, revision: nat)
  datatype Connection = Connection(revision: nat, enabled: bool, deleted: bool)
  datatype Database = Database(row: Row, connection: Connection, jobs: seq<Job>)

  datatype OAuthError = NotFound | PreconditionRequired | RevisionConflict | ConnectionRevisionChanged
                      | ConnectionDisabled | BridgeBlocked | LoginInProgress | CallbackUnavailable | LoginStale

  datatype Mutation = Mutation(task: Task, ifMatch: Option<nat>, connectionRevision: nat, attemptId: string,
                               newAttempt: string, flowOffered: bool, bridgeReady: bool)

  datatype Edit = Edit(ifMatch: Option<nat>, transferOnly: bool, enabled: bool, delete: bool)

  function CheckEtag(ifMatch: Option<nat>, revision: nat): Outcome<OAuthError> {
    match ifMatch
    case None => Fail(PreconditionRequired)
    case Some(r) => if r == revision then Pass else Fail(RevisionConflict)
  }

  predicate Busy(db: Database) {
    && db.row.activeJob.Some? && db.row.activeJob.value < |db.jobs|
    && db.jobs[db.row.activeJob.value].status in {Queued, Running}
  }

  /** The rules a user's request must meet, in the order they are checked. */
  function CheckMutation(db: Database, m: Mutation): Outcome<OAuthError> {
    if db.connection.deleted then Fail(NotFound)
    else if CheckEtag(m.ifMatch, db.row.revision).Fail? then CheckEtag(m.ifMatch, db.row.revision)
    else if db.connection.revision != m.connectionRevision then Fail(ConnectionRevisionChanged)
    else if !db.connection.enabled then Fail(ConnectionDisabled)
    else if !m.bridgeReady then Fail(BridgeBlocked)
    else if m.task in {LoginStart, AuthRefresh} && Busy(db) then Fail(LoginInProgress)
    else match m.task
      case LoginStart =>
        if db.row.state in {Starting, Pending, Authenticated, SigningOut, Cancelling} then Fail(LoginInProgress)
        else if !m.flowOffered then Fail(CallbackUnavailable)
        else Pass
      case LoginCancel =>
        if db.row.attemptId != Some(m.attemptId) || db.row.state !in {Starting, Pending} then Fail(LoginStale) else Pass
      case AuthRefresh => Pass
      case Logout => Pass
  }

  /** Every request but a refresh mints a new epoch. */
  function Moved(row: Row, m: Mutation): Row {
    match m.task
    case LoginStart => row.(epoch := row.epoch + 1, attemptId := Some(m.newAttempt), state := Starting)
    case AuthRefresh => row
    case LoginCancel => row.(epoch := row.epoch + 1, state := Cancelling)
    case Logout => row.(epoch := row.epoch + 1, state := SigningOut)
  }

  /** Queues a job that carries the row's epoch and attempt, and makes it the active one. */
  function Enqueue(db: Database, row: Row, task: Task): Database {
    var job := Job(task, row.epoch, db.connection.revision, row.attemptId, Queued, 0, false);
    db.(jobs := db.jobs + [job],
        row := row.(activeJob := Some(|db.jobs|), connectionRevision := db.connection.revision,
                    revision := row.revision + 1))
  }

  function Mutate(db: Database, m: Mutation): Result<Database, OAuthError> {
    match CheckMutation(db, m)
    case Fail(e) => Failure(e)
    case Pass => Success(Enqueue(db, Moved(db.row, m), m.task))
  }

  /** An edit or deletion of the connection ends the login; a change of transfer consent alone keeps it. */
  function EditConnection(db: Database, e: Edit): Result<Database, OAuthError> {
    if db.connection.deleted then Failure(NotFound)
    else match CheckEtag(e.ifMatch, db.connection.revision)
      case Fail(error) => Failure(error)
      case Pass =>
        var c := db.connection;
        if e.delete then
          var gone := db.(connection := Connection(c.revision + 1, false, true));
          Success(Enqueue(gone, db.row.(state := SigningOut, epoch := db.row.epoch + 1), Logout))
        else if e.transferOnly then
          if db.row.state in {Starting, Pending, Cancelling, SigningOut} then Failure(LoginInProgress)
          else Success(db.(connection := c.(revision := c.revision + 1),
                           row := db.row.(connectionRevision := c.revision + 1, revision := db.row.revision + 1)))
        else
          var changed := db.(connection := Connection(c.revision + 1, e.enabled, false));
          Success(Enqueue(changed, db.row.(state := SigningOut, epoch := db.row.epoch + 1), Logout))
  }

  /** The check made before the RPC and again before the final write. */
  predicate JobCurrent(db: Database, job: nat, attempt: nat) {
    && job < |db.jobs|
    && db.jobs[job].status == Running && db.jobs[job].attempts == attempt && !db.jobs[job].cancelRequested
    && (db.jobs[job].task == Logout || (!db.connection.deleted && db.connection.enabled))
    && db.connection.revision == db.jobs[job].connectionRevision
    && db.row.epoch == db.jobs[job].epoch
    && db.row.attemptId == db.jobs[job].attemptId
  }

  function FinalWrite(db: Database, job: nat, attempt: nat, reply: Reply): Database {
    if !JobCurrent(db, job, attempt) then db
    else db.(row := db.row.(state := if reply.Answer? then reply.state else Errored,
                            activeJob := None, revision := db.row.revision + 1))
  }

  /** What readers are told: a stored login counts only with a live session of the same epoch and revision. */
  function PublicState(db: Database, bridge: State, who: Identity): LoginState {
    if !db.connection.enabled || db.connection.deleted then Disabled
    else if db.row.connectionRevision != db.connection.revision then Errored
    else if db.row.state in {Authenticated, Pending} then
      if who in bridge.sessions && bridge.sessions[who].epoch == db.row.epoch
         && bridge.sessions[who].revision == db.connection.revision
      then db.row.state else Errored
    else db.row.state
  }

  // ----- the transactions, on the rows themselves

  class Tables {
    var row: Row
    var connection: Connection
    var jobs: seq<Job>

    function View(): Database
      reads this
    {
      Database(row, connection, jobs)
    }

    method CreateJob(task: Task) returns (id: nat)
      modifies this`jobs
      ensures id == |old(jobs)|
      ensures jobs == old(jobs) + [Job(task, row.epoch, connection.revision, row.attemptId, Queued, 0, false)]
    {
      id := |jobs|;
      jobs := jobs + [Job(task, row.epoch, connection.revision, row.attemptId, Queued, 0, false)];
    }

    method HandleMutation(m: Mutation) returns (r: Outcome<OAuthError>)
      modifies this
      ensures match Mutate(old(View()), m)
              case Success(after) => r == Pass && View() == after
              case Failure(e) => r == Fail(e) && View() == old(View())
    {
      r := CheckMutation(View(), m);
      if r.Fail? {
        return;
      }
      match m.task {
        case LoginStart => row := row.(epoch := row.epoch + 1, attemptId := Some(m.newAttempt), state := Starting);
        case LoginCancel => row := row.(epoch := row.epoch + 1, state := Cancelling);
        case Logout => row := row.(epoch := row.epoch + 1, state := SigningOut);
        case AuthRefresh =>
      }
      row := row.(connectionRevision := connection.revision);
      var job := CreateJob(m.task);
      row := row.(activeJob := Some(job), revision := row.revision + 1);
    }

    method InvalidateConnection()
      modifies this`row, this`jobs
      ensures View() == Enqueue(old(View()), old(row).(state := SigningOut, epoch := old(row).epoch + 1), Logout)
    {
      row := row.(state := SigningOut, epoch := row.epoch + 1, connectionRevision := connection.revision);
      var job := CreateJob(Logout);
      row := row.(activeJob := Some(job), revision := row.revision + 1);
    }

    method HandleEdit(e: Edit) returns (r: Outcome<OAuthError>)
      modifies this
      ensures match EditConnection(old(View()), e)
              case Success(after) => r == Pass && View() == after
              case Failure(error) => r == Fail(error) && View() == old(View())
    {
      if connection.deleted {
        return Fail(NotFound);
      }
      r := CheckEtag(e.ifMatch, connection.revision);
      if r.Fail? {
        return;
      }
      if e.transferOnly && !e.delete {
        if row.state in {Starting, Pending, Cancelling, SigningOut} {
          return Fail(LoginInProgress);
        }
        connection := connection.(revision := connection.revision + 1);
        row := row.(connectionRevision := connection.revision, revision := row.revision + 1);
      } else {
        connection := Connection(connection.revision + 1, !e.delete && e.enabled, e.delete);
        InvalidateConnection();
      }
    }

    /** The last transaction of a job: recheck, then write the outcome. */
    method Recheck(job: nat, attempt: nat, reply: Reply) returns (written: bool)
      modifies this`row
      ensures View() == FinalWrite(old(View()), job, attempt, reply)
      ensures written <==> JobCurrent(old(View()), job, attempt)
    {
      written := JobCurrent(View(), job, attempt);
      if written {
        row := row.(activeJob := None, revision := row.revision + 1);
        if reply.Answer? {
          row := row.(state := reply.state);
        } else {
          row := row.(state := Errored);
        }
      }
    }
  }
}
