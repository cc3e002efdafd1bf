/** The login protocol as a whole: user requests, queued jobs, their calls on the bridge and their final writes,
    interleaved in any order (backend/fund_kb/api_oauth.py, backend/fund_kb/codex_bridge.py). */
module LoginProtocol {
  import opened Wrappers
  import opened BridgeState
  import opened LoginRow

  /** One execution of a job: past its first check, past its call, or left with its session to discard. */
  datatype Flight = Checked | Called(reply: Reply) | Discarding

  datatype System = System(db: Database, bridge: State, flights: map<(nat, nat), Flight>)

  datatype Action =
    | Request(mutation: Mutation)
    | EditRequest(edit: Edit)
    | Claim(job: nat)
    // anything the dispatcher, an operator or a lapsed lease may do to a job's status
    | JobChurn(job: nat, status: JobStatus, cancelRequested: bool)
    | FirstCheck(job: nat, attempt: nat)
    | CallBridge(job: nat, attempt: nat, call: Call)
    | BridgeUnavailable(job: nat, attempt: nat)
    | Recheck(job: nat, attempt: nat)
    | DiscardAfter(job: nat, attempt: nat, end: Disposal)
    | WorkerDies(job: nat, attempt: nat)
    | HostShutdown(call: Call)
    | HostCrash
    | OtherIdentity(other: Identity, call: Call)
    // an archive file disappears without the bridge having a hand in it
    | ArchiveLost(whose: Identity)

  /** The call a job makes, with the arguments its payload carries. */
  predicate CallOf(job: Job, c: Call) {
    match job.task
    case LoginStart => c.CallStart? && c.epoch == job.epoch && c.revision == job.connectionRevision
                       && job.attemptId == Some(c.attempt)
    case AuthRefresh => c.CallRefresh? && c.epoch == job.epoch && c.revision == job.connectionRevision
    case LoginCancel => c.CallCancel?
    case Logout => c.CallLogout?
  }

  function WithJob(db: Database, job: nat, j: Job): Database
    requires job < |db.jobs|
  {
    db.(jobs := db.jobs[job := j])
  }

  /** One atomic step; an action that is not enabled leaves the system unchanged. */
  function Next(sys: System, who: Identity, a: Action): System
    requires Owned(sys.bridge)
  {
    match a
    case Request(m) =>
      (match Mutate(sys.db, m) case Success(db) => sys.(db := db) case Failure(_) => sys)
    case EditRequest(e) =>
      (match EditConnection(sys.db, e) case Success(db) => sys.(db := db) case Failure(_) => sys)
    case Claim(job) =>
      if job < |sys.db.jobs| && sys.db.jobs[job].status in {Queued, Running} then
        var j := sys.db.jobs[job];
        sys.(db := WithJob(sys.db, job, j.(status := Running, attempts := j.attempts + 1)))
      else sys
    case JobChurn(job, status, cancelRequested) =>
      if job < |sys.db.jobs| then
        sys.(db := WithJob(sys.db, job, sys.db.jobs[job].(status := status, cancelRequested := cancelRequested)))
      else sys
    case FirstCheck(job, attempt) =>
      if JobCurrent(sys.db, job, attempt) && (job, attempt) !in sys.flights then
        sys.(flights := sys.flights[(job, attempt) := Checked])
      else sys
    case CallBridge(job, attempt, c) =>
      if job < |sys.db.jobs| && (job, attempt) in sys.flights && sys.flights[(job, attempt)] == Checked
         && CallOf(sys.db.jobs[job], c) then
        var (bridge, reply) := Run(sys.bridge, who, c);
        sys.(bridge := bridge, flights := sys.flights[(job, attempt) := Called(reply)])
      else sys
    case BridgeUnavailable(job, attempt) =>
      if (job, attempt) in sys.flights && sys.flights[(job, attempt)] == Checked then
        sys.(flights := sys.flights[(job, attempt) := Called(Raised)])
      else sys
    case Recheck(job, attempt) =>
      if (job, attempt) in sys.flights && sys.flights[(job, attempt)].Called? then
        var reply := sys.flights[(job, attempt)].reply;
        var landed := JobCurrent(sys.db, job, attempt);
        sys.(db := FinalWrite(sys.db, job, attempt, reply),
             flights := if landed && reply.Answer? then sys.flights - {(job, attempt)}
                        else sys.flights[(job, attempt) := Discarding])
      else sys
    case DiscardAfter(job, attempt, end) =>
      if job < |sys.db.jobs| && (job, attempt) in sys.flights && sys.flights[(job, attempt)] == Discarding then
        sys.(bridge := Run(sys.bridge, who, CallDiscardEpoch(sys.db.jobs[job].epoch, end)).0,
             flights := sys.flights - {(job, attempt)})
      else sys
    case WorkerDies(job, attempt) => sys.(flights := sys.flights - {(job, attempt)})
    case HostShutdown(c) => if c.CallShutdown? then sys.(bridge := Run(sys.bridge, who, c).0) else sys
    case HostCrash => sys.(bridge := State(map[], map[], sys.bridge.archive, sys.bridge.nextPath), flights := map[])
    case OtherIdentity(other, c) => if other == who then sys else sys.(bridge := Run(sys.bridge, other, c).0)
    case ArchiveLost(whose) => sys.(bridge := Forget(sys.bridge, whose))
  }

  // ----- who minted the epochs

  /** What an accepted action does to the epoch. */
  datatype Mint = NoMint | ByStart | ByRevocation

  function MintOf(sys: System, a: Action): Mint {
    match a
    case Request(m) =>
      if CheckMutation(sys.db, m) != Pass || m.task == AuthRefresh then NoMint
      else if m.task == LoginStart then ByStart else ByRevocation
    case EditRequest(e) =>
      if EditConnection(sys.db, e).Failure? || (e.transferOnly && !e.delete) then NoMint else ByRevocation
    case _ => NoMint
  }

  predicate Live(s: LoginState) {
    s in {Starting, Pending, Authenticated}
  }

  /** `starts` are the epochs minted by starts. Everything that could make a login live is tied to one of them. */
  ghost predicate Fenced(sys: System, who: Identity, starts: set<nat>) {
    && Owned(sys.bridge)
    && (forall e | e in starts :: e <= sys.db.row.epoch)
    && (Live(sys.db.row.state) ==> sys.db.row.epoch in starts)
    && (forall j | 0 <= j < |sys.db.jobs| ::
          && sys.db.jobs[j].epoch <= sys.db.row.epoch
          && (sys.db.jobs[j].task == LoginStart ==> sys.db.jobs[j].epoch in starts))
    && (forall b | Known(sys.bridge, b) && b.who == who :: b.epoch in starts)
    && (forall f | f in sys.flights ::
          && f.0 < |sys.db.jobs|
          && (sys.flights[f].Called? && sys.flights[f].reply.Answer? && Live(sys.flights[f].reply.state) ==>
                sys.db.jobs[f.0].epoch in starts))
  }

  function StartsAfter(sys: System, a: Action, starts: set<nat>): set<nat> {
    if MintOf(sys, a) == ByStart then starts + {sys.db.row.epoch + 1} else starts
  }

  lemma {:induction false} EpochMoves(sys: System, who: Identity, a: Action)
    requires Owned(sys.bridge)
    ensures Next(sys, who, a).db.row.epoch == sys.db.row.epoch + if MintOf(sys, a) == NoMint then 0 else 1
  {
  }

  /** A refresh can answer with a live login only from a session already bound to the caller's epoch. */
  lemma {:induction false} LiveAnswersAreBound(st: State, who: Identity, c: Call)
    requires Owned(st) && Run(st, who, c).1.Answer? && Live(Run(st, who, c).1.state) && !c.CallShutdown?
    ensures c.CallStart? || (c.CallRefresh? && Known(st, Binding(who, c.epoch)))
  {
    if c.CallRefresh? {
      AttachIsOrderly(st, who, c);
      var attached := Attach(st, who, c).0;
      assert Known(attached, Binding(who, attached.sessions[who].epoch));
    }
  }

  /** What a job's call binds, and the epoch of a live answer it gets, come from starts. */
  lemma {:induction false} CallBindsStarts(sys: System, who: Identity, starts: set<nat>, job: nat, c: Call)
    requires Fenced(sys, who, starts) && job < |sys.db.jobs| && CallOf(sys.db.jobs[job], c)
    ensures var (after, reply) := Run(sys.bridge, who, c);
            && Owned(after)
            && (forall b | Known(after, b) && b.who == who :: b.epoch in starts)
            && (reply.Answer? && Live(reply.state) ==> sys.db.jobs[job].epoch in starts)
  {
    RunIsOrderly(sys.bridge, who, c);
    if Run(sys.bridge, who, c).1.Answer? && Live(Run(sys.bridge, who, c).1.state) {
      LiveAnswersAreBound(sys.bridge, who, c);
    }
  }

  lemma {:induction false} CallKeepsFence(sys: System, who: Identity, starts: set<nat>, job: nat, attempt: nat, c: Call)
    requires Fenced(sys, who, starts)
    ensures Fenced(Next(sys, who, CallBridge(job, attempt, c)), who, starts)
  {
    if job < |sys.db.jobs| && CallOf(sys.db.jobs[job], c) {
      CallBindsStarts(sys, who, starts, job, c);
    }
  }

  lemma {:induction false} RequestKeepsFence(sys: System, who: Identity, starts: set<nat>, m: Mutation)
    requires Fenced(sys, who, starts)
    ensures Fenced(Next(sys, who, Request(m)), who, StartsAfter(sys, Request(m), starts))
  {
  }

  lemma {:induction false} EditKeepsFence(sys: System, who: Identity, starts: set<nat>, e: Edit)
    requires Fenced(sys, who, starts)
    ensures Fenced(Next(sys, who, EditRequest(e)), who, StartsAfter(sys, EditRequest(e), starts))
  {
  }

  lemma {:induction false} OthersKeepFence(sys: System, who: Identity, starts: set<nat>, a: Action)
    requires Fenced(sys, who, starts)
    requires a.Claim? || a.JobChurn? || a.FirstCheck? || a.BridgeUnavailable? || a.Recheck? || a.WorkerDies?
    ensures Fenced(Next(sys, who, a), who, starts)
  {
  }

  /** Whatever the bridge does without being asked to start, the fence only needs that no new epoch is bound. */
  lemma {:induction false} BridgeKeepsFence(sys: System, who: Identity, starts: set<nat>, bridge: State,
                                            flights: map<(nat, nat), Flight>)
    requires Fenced(sys, who, starts) && Owned(bridge)
    requires forall b | Known(bridge, b) && b.who == who :: Known(sys.bridge, b)
    requires forall f | f in flights :: f in sys.flights && flights[f] == sys.flights[f]
    ensures Fenced(sys.(bridge := bridge, flights := flights), who, starts)
  {
  }

  lemma {:induction false} CrashKeepsFence(sys: System, who: Identity, starts: set<nat>)
    requires Fenced(sys, who, starts)
    ensures Fenced(Next(sys, who, HostCrash), who, starts)
  {
    BridgeKeepsFence(sys, who, starts, Next(sys, who, HostCrash).bridge, map[]);
  }

  /** A call that starts nothing for this identity: of its own, or of another one. */
  lemma {:induction false} QuietCallsKeepFence(sys: System, who: Identity, starts: set<nat>, caller: Identity, c: Call,
                                               flights: map<(nat, nat), Flight>)
    requires Fenced(sys, who, starts) && (caller == who ==> !c.CallStart?)
    requires forall f | f in flights :: f in sys.flights && flights[f] == sys.flights[f]
    ensures Fenced(sys.(bridge := Run(sys.bridge, caller, c).0, flights := flights), who, starts)
  {
    RunIsOrderly(sys.bridge, caller, c);
    BridgeKeepsFence(sys, who, starts, Run(sys.bridge, caller, c).0, flights);
  }

  lemma {:induction false} DiscardKeepsFence(sys: System, who: Identity, starts: set<nat>,
                                             job: nat, attempt: nat, end: Disposal)
    requires Fenced(sys, who, starts)
    ensures Fenced(Next(sys, who, DiscardAfter(job, attempt, end)), who, starts)
  {
    if job < |sys.db.jobs| {
      QuietCallsKeepFence(sys, who, starts, who, CallDiscardEpoch(sys.db.jobs[job].epoch, end),
                          sys.flights - {(job, attempt)});
    }
  }

  lemma {:induction false} ShutdownKeepsFence(sys: System, who: Identity, starts: set<nat>, c: Call)
    requires Fenced(sys, who, starts)
    ensures Fenced(Next(sys, who, HostShutdown(c)), who, starts)
  {
    if c.CallShutdown? { QuietCallsKeepFence(sys, who, starts, who, c, sys.flights); }
  }

  lemma {:induction false} OtherIdentityKeepsFence(sys: System, who: Identity, starts: set<nat>,
                                                   other: Identity, c: Call)
    requires Fenced(sys, who, starts)
    ensures Fenced(Next(sys, who, OtherIdentity(other, c)), who, starts)
  {
    if other != who { QuietCallsKeepFence(sys, who, starts, other, c, sys.flights); }
  }

  lemma {:induction false} LossKeepsFence(sys: System, who: Identity, starts: set<nat>, whose: Identity)
    requires Fenced(sys, who, starts)
    ensures Fenced(Next(sys, who, ArchiveLost(whose)), who, starts)
  {
    BridgeKeepsFence(sys, who, starts, Forget(sys.bridge, whose), sys.flights);
  }

  lemma {:induction false} NextKeepsFence(sys: System, who: Identity, starts: set<nat>, a: Action)
    requires Fenced(sys, who, starts)
    ensures Fenced(Next(sys, who, a), who, StartsAfter(sys, a, starts))
  {
    match a
    case Request(m) => RequestKeepsFence(sys, who, starts, m);
    case EditRequest(e) => EditKeepsFence(sys, who, starts, e);
    case CallBridge(job, attempt, c) => CallKeepsFence(sys, who, starts, job, attempt, c);
    case DiscardAfter(job, attempt, end) => DiscardKeepsFence(sys, who, starts, job, attempt, end);
    case HostShutdown(c) => ShutdownKeepsFence(sys, who, starts, c);
    case HostCrash => CrashKeepsFence(sys, who, starts);
    case OtherIdentity(other, c) => OtherIdentityKeepsFence(sys, who, starts, other, c);
    case ArchiveLost(whose) => LossKeepsFence(sys, who, starts, whose);
    case _ => OthersKeepFence(sys, who, starts, a);
  }

  // ----- runs

  /** A connection just created, on a bridge that holds nothing for it yet. */
  ghost predicate Initial(sys: System, who: Identity) {
    && sys.db == Database(Row(SignedOut, 0, None, None, sys.db.connection.revision, 1), sys.db.connection, [])
    && sys.flights == map[]
    && Owned(sys.bridge)
    && forall b | Known(sys.bridge, b) :: b.who != who
  }

  ghost function Exec(sys: System, who: Identity, actions: seq<Action>): (after: System)
    requires Owned(sys.bridge)
    ensures Owned(after.bridge)
  {
    if actions == [] then sys
    else
      var before := Exec(sys, who, actions[..|actions| - 1]);
      NextKeepsBooks(before, who, actions[|actions| - 1]);
      Next(before, who, actions[|actions| - 1])
  }

  lemma {:induction false} NextKeepsBooks(sys: System, who: Identity, a: Action)
    requires Owned(sys.bridge)
    ensures Owned(Next(sys, who, a).bridge)
  {
    match a
    case CallBridge(_, _, c) => RunIsOrderly(sys.bridge, who, c);
    case DiscardAfter(job, _, end) =>
      if job < |sys.db.jobs| { RunIsOrderly(sys.bridge, who, CallDiscardEpoch(sys.db.jobs[job].epoch, end)); }
    case HostShutdown(c) => RunIsOrderly(sys.bridge, who, c);
    case OtherIdentity(other, c) => RunIsOrderly(sys.bridge, other, c);
    case _ =>
  }

  /** What the action at one place of a run minted. */
  ghost function MintAt(sys: System, who: Identity, actions: seq<Action>, i: nat): Mint
    requires Owned(sys.bridge) && i < |actions|
  {
    MintOf(Exec(sys, who, actions[..i]), actions[i])
  }

  ghost function EpochAt(sys: System, who: Identity, actions: seq<Action>, i: nat): nat
    requires Owned(sys.bridge) && i <= |actions|
  {
    Exec(sys, who, actions[..i]).db.row.epoch
  }

  ghost function StartEpochs(sys: System, who: Identity, actions: seq<Action>): set<nat>
    requires Owned(sys.bridge)
  {
    if actions == [] then {}
    else
      var front := actions[..|actions| - 1];
      StartsAfter(Exec(sys, who, front), actions[|actions| - 1], StartEpochs(sys, who, front))
  }

  lemma {:induction false} RunsAreFenced(sys: System, who: Identity, actions: seq<Action>)
    requires Initial(sys, who)
    ensures Fenced(Exec(sys, who, actions), who, StartEpochs(sys, who, actions))
  {
    if actions != [] {
      var n := |actions| - 1;
      RunsAreFenced(sys, who, actions[..n]);
      NextKeepsFence(Exec(sys, who, actions[..n]), who, StartEpochs(sys, who, actions[..n]), actions[n]);
    }
  }

  lemma {:induction false} StepOfRun(sys: System, who: Identity, actions: seq<Action>, i: nat)
    requires Owned(sys.bridge) && i < |actions|
    ensures Exec(sys, who, actions[..i + 1]) == Next(Exec(sys, who, actions[..i]), who, actions[i])
    ensures EpochAt(sys, who, actions, i + 1)
         == EpochAt(sys, who, actions, i) + if MintAt(sys, who, actions, i) == NoMint then 0 else 1
  {
    assert actions[..i + 1][..i] == actions[..i];
    EpochMoves(Exec(sys, who, actions[..i]), who, actions[i]);
  }

  lemma {:induction false} EpochsNeverFall(sys: System, who: Identity, actions: seq<Action>, i: nat, j: nat)
    requires Owned(sys.bridge) && i <= j <= |actions|
    ensures EpochAt(sys, who, actions, i) <= EpochAt(sys, who, actions, j)
    decreases j
  {
    if i < j {
      var n := j - 1;
      EpochsNeverFall(sys, who, actions, i, n);
      StepOfRun(sys, who, actions, n);
    }
  }

  /** Over an action that mints, the epoch rises. */
  lemma {:induction false} EpochsRise(sys: System, who: Identity, actions: seq<Action>, i: nat, k: nat, j: nat)
    requires Owned(sys.bridge) && i <= k < j <= |actions| && MintAt(sys, who, actions, k) != NoMint
    ensures EpochAt(sys, who, actions, i) < EpochAt(sys, who, actions, j)
  {
    EpochsNeverFall(sys, who, actions, i, k);
    StepOfRun(sys, who, actions, k);
    EpochsNeverFall(sys, who, actions, k + 1, j);
  }

  lemma {:induction false} PrefixMintsTheSame(sys: System, who: Identity, actions: seq<Action>, n: nat, i: nat)
    requires Owned(sys.bridge) && i < n <= |actions|
    ensures MintAt(sys, who, actions[..n], i) == MintAt(sys, who, actions, i)
    ensures EpochAt(sys, who, actions[..n], i + 1) == EpochAt(sys, who, actions, i + 1)
  {
    assert actions[..n][..i] == actions[..i] && actions[..n][..i + 1] == actions[..i + 1];
  }

  /** A start epoch was minted by some start of the run. */
  lemma {:induction false} StartEpochIsMinted(sys: System, who: Identity, actions: seq<Action>, e: nat) returns (i: nat)
    requires Owned(sys.bridge) && e in StartEpochs(sys, who, actions)
    ensures i < |actions| && MintAt(sys, who, actions, i) == ByStart && EpochAt(sys, who, actions, i + 1) == e
  {
    var n := |actions| - 1;
    if e in StartEpochs(sys, who, actions[..n]) {
      i := StartEpochIsMinted(sys, who, actions[..n], e);
      PrefixMintsTheSame(sys, who, actions, n, i);
    } else {
      StepOfRun(sys, who, actions, n);
      i := n;
    }
  }

  /** Whenever the stored state is live, the epoch comes from a start of the run, and since that start
      nothing minted an epoch: no cancellation, no logout, no edit of the connection, no other start. */
  lemma {:induction false} LiveLoginsAreFresh(sys: System, who: Identity, actions: seq<Action>) returns (i: nat)
    requires Initial(sys, who) && Live(Exec(sys, who, actions).db.row.state)
    ensures i < |actions| && MintAt(sys, who, actions, i) == ByStart
    ensures EpochAt(sys, who, actions, i + 1) == Exec(sys, who, actions).db.row.epoch
    ensures forall k | i < k < |actions| :: MintAt(sys, who, actions, k) == NoMint
  {
    RunsAreFenced(sys, who, actions);
    assert actions[..|actions|] == actions;
    i := StartEpochIsMinted(sys, who, actions, Exec(sys, who, actions).db.row.epoch);
    forall k | i < k < |actions| ensures MintAt(sys, who, actions, k) == NoMint {
      if MintAt(sys, who, actions, k) != NoMint {
        EpochsRise(sys, who, actions, i + 1, k, |actions|);
      }
    }
  }

  /** Every session of the identity, with its runtime, and every archive belongs to an epoch that a start of the run
      minted. */
  lemma {:induction false} CredentialsComeFromStarts(sys: System, who: Identity, actions: seq<Action>, epoch: nat)
    returns (i: nat)
    requires Initial(sys, who) && Known(Exec(sys, who, actions).bridge, Binding(who, epoch))
    ensures i < |actions| && MintAt(sys, who, actions, i) == ByStart && EpochAt(sys, who, actions, i + 1) == epoch
  {
    RunsAreFenced(sys, who, actions);
    i := StartEpochIsMinted(sys, who, actions, epoch);
  }

  // ----- stale jobs

  predicate ChangesRow(sys: System, who: Identity, a: Action)
    requires Owned(sys.bridge)
  {
    Next(sys, who, a).db.row != sys.db.row
  }

  /** The payload of a job is never rewritten. */
  lemma {:induction false} JobsKeepTheirEpoch(sys: System, who: Identity, actions: seq<Action>, job: nat)
    requires Owned(sys.bridge) && job < |sys.db.jobs|
    ensures job < |Exec(sys, who, actions).db.jobs|
    ensures Exec(sys, who, actions).db.jobs[job].epoch == sys.db.jobs[job].epoch
  {
    if actions != [] {
      JobsKeepTheirEpoch(sys, who, actions[..|actions| - 1], job);
    }
  }

  /** Once a newer epoch is minted, the final write of an older job never lands, however the rest interleaves. */
  lemma {:induction false} StaleWritesNeverLand(sys: System, who: Identity, actions: seq<Action>,
                                                job: nat, attempt: nat)
    requires Owned(sys.bridge) && job < |sys.db.jobs| && sys.db.jobs[job].epoch < sys.db.row.epoch
    ensures !ChangesRow(Exec(sys, who, actions), who, Recheck(job, attempt))
  {
    JobsKeepTheirEpoch(sys, who, actions, job);
    assert actions[..0] == [] && actions[..|actions|] == actions;
    EpochsNeverFall(sys, who, actions, 0, |actions|);
  }

  /** A write that lands comes from a job of the current epoch, attempt and connection revision. */
  lemma {:induction false} LandedWritesAreCurrent(sys: System, who: Identity, job: nat, attempt: nat)
    requires Owned(sys.bridge) && ChangesRow(sys, who, Recheck(job, attempt))
    ensures job < |sys.db.jobs| && sys.db.jobs[job].epoch == sys.db.row.epoch
    ensures sys.db.jobs[job].attemptId == sys.db.row.attemptId
    ensures sys.db.jobs[job].connectionRevision == sys.db.connection.revision
    ensures var row := Next(sys, who, Recheck(job, attempt)).db.row;
            row.epoch == sys.db.row.epoch && row.attemptId == sys.db.row.attemptId
  {
  }

  /** What readers see as pending or signed in has a live session minted by the last start of the run. */
  lemma {:induction false} PublicLoginsAreReal(sys: System, who: Identity, actions: seq<Action>) returns (i: nat)
    requires Initial(sys, who)
    requires PublicState(Exec(sys, who, actions).db, Exec(sys, who, actions).bridge, who) in {Pending, Authenticated}
    ensures i < |actions| && MintAt(sys, who, actions, i) == ByStart
    ensures forall k | i < k < |actions| :: MintAt(sys, who, actions, k) == NoMint
    ensures var now := Exec(sys, who, actions);
            && who in now.bridge.sessions && now.bridge.sessions[who].epoch == EpochAt(sys, who, actions, i + 1)
            && now.bridge.sessions[who].revision == now.db.connection.revision
            && now.bridge.runtimes[now.bridge.sessions[who].home] == Binding(who, now.db.row.epoch)
  {
    i := LiveLoginsAreFresh(sys, who, actions);
  }
}
