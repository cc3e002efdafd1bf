/** Whether a login that readers see as authenticated really is: the stored state is fenced by its epoch, but a start
    carried out once more for the same epoch replaces the session behind it (backend/fund_kb/api_oauth.py). */
module LoginTrust {
  import opened Wrappers
  import opened BridgeState
  import opened LoginRow
  import opened LoginProtocol

  /** The stored row, or an answer on its way to it, says that the login of this epoch is authenticated. */
  predicate Vouched(sys: System, epoch: nat) {
    || (sys.db.row.state == Authenticated && sys.db.row.epoch == epoch)
    || exists f | f in sys.flights :: Brings(sys, f, epoch)
  }

  predicate Brings(sys: System, f: (nat, nat), epoch: nat) {
    && f in sys.flights && sys.flights[f] == Called(Answer(Authenticated))
    && f.0 < |sys.db.jobs| && sys.db.jobs[f.0].epoch == epoch
  }

  /** A session of an epoch that is vouched for is authenticated. */
  ghost predicate Trusted(sys: System, who: Identity) {
    && Owned(sys.bridge)
    && (forall f | f in sys.flights :: f.0 < |sys.db.jobs|)
    && (who in sys.bridge.sessions && Vouched(sys, sys.bridge.sessions[who].epoch) ==>
          sys.bridge.sessions[who].authenticated)
  }

  predicate Calls(sys: System, job: nat, attempt: nat, c: Call) {
    && job < |sys.db.jobs| && (job, attempt) in sys.flights && sys.flights[(job, attempt)] == Checked
    && CallOf(sys.db.jobs[job], c)
  }

  /** A login attempt meets no obstacle: nothing raises, and the app server answers with a login. */
  predicate GoesThrough(st: State, who: Identity, c: Call)
    requires c.CallStart?
  {
    && c.flowOffered && (who in st.sessions ==> !DiscardRaises(st, who, c.prior))
    && c.making == Made && c.transportUp && c.freshIsEmpty && c.login.Some?
  }

  /** A start job that passed its first check begins a new login for an epoch already vouched for. */
  predicate Restarts(sys: System, who: Identity, a: Action) {
    && a.CallBridge? && Calls(sys, a.job, a.attempt, a.call)
    && a.call.CallStart? && GoesThrough(sys.bridge, who, a.call) && Vouched(sys, a.call.epoch)
  }

  /** What a call leaves of the session: the one from before, an authenticated one, or a new login under way. */
  ghost predicate Continued(st: State, after: State, who: Identity) {
    && who in st.sessions && who in after.sessions && after.sessions[who].epoch == st.sessions[who].epoch
    && after.sessions[who].revision == st.sessions[who].revision
    && (st.sessions[who].authenticated ==> after.sessions[who].authenticated)
  }

  /** The session a start begins. */
  predicate Begins(after: State, who: Identity, c: Call)
    requires c.CallStart?
  {
    && who in after.sessions && after.sessions[who].epoch == c.epoch && after.sessions[who].revision == c.revision
    && !after.sessions[who].authenticated
  }

  lemma {:induction false} SessionAfterStartFresh(st: State, who: Identity, c: Call)
    requires who !in st.sessions && c.CallStart? && c.flowOffered
    ensures var (after, reply) := StartFresh(st, who, c);
            && reply == (if GoesThrough(st, who, c) then Answer(Pending) else Raised)
            && (if GoesThrough(st, who, c) then Begins(after, who, c) else who !in after.sessions)
  {
  }

  lemma {:induction false} SessionAfterStart(st: State, who: Identity, c: Call)
    requires c.CallStart?
    ensures var (after, reply) := Start(st, who, c);
            && reply == (if GoesThrough(st, who, c) then Answer(Pending) else Raised)
            && (if GoesThrough(st, who, c) then Begins(after, who, c)
                else who in after.sessions ==> Continued(st, after, who))
  {
    if c.flowOffered && (who !in st.sessions || !DiscardRaises(st, who, c.prior)) {
      SessionAfterStartFresh(if who in st.sessions then Discard(st, who, c.prior) else st, who, c);
    }
  }

  lemma {:induction false} SessionAfterAttach(st: State, who: Identity, c: Call)
    requires Owned(st) && c.CallRefresh?
    ensures var (after, ok) := Attach(st, who, c);
            && (who in after.sessions ==> Continued(st, after, who) || after.sessions[who].authenticated)
            && (ok ==> who in after.sessions)
  {
  }

  lemma {:induction false} SessionAfterInspect(st: State, who: Identity, c: Call)
    requires Owned(st) && c.CallRefresh? && who in st.sessions
    ensures var (after, reply) := Inspect(st, who, c);
            && (who in after.sessions ==> Continued(st, after, who) || after.sessions[who].authenticated)
            && (reply == Answer(Authenticated) ==> who in after.sessions && after.sessions[who].authenticated)
  {
    SessionAfterDiscard(st, who, c.end);
  }

  lemma {:induction false} SessionAfterRefresh(st: State, who: Identity, c: Call)
    requires Owned(st) && c.CallRefresh?
    ensures var (after, reply) := Refresh(st, who, c);
            && (who in after.sessions ==> Continued(st, after, who) || after.sessions[who].authenticated)
            && (reply == Answer(Authenticated) ==> who in after.sessions && after.sessions[who].authenticated)
  {
    AttachIsOrderly(st, who, c);
    SessionAfterAttach(st, who, c);
    var (attached, ok) := Attach(st, who, c);
    if ok {
      SessionAfterInspect(attached, who, c);
    }
  }

  lemma {:induction false} SessionAfterEnd(st: State, who: Identity, c: Call)
    requires Owned(st) && !c.CallStart? && !c.CallRefresh?
    ensures var (after, reply) := Run(st, who, c);
            && (who in after.sessions ==> Continued(st, after, who))
            && (reply == Answer(Authenticated) ==> c.CallShutdown?)
  {
    SessionAfterDiscard(st, who, c.end);
  }

  lemma {:induction false} SessionAfterDiscard(st: State, who: Identity, d: Disposal)
    ensures who !in Discard(st, who, d).sessions
  {
  }

  lemma {:induction false} SessionAfterCall(st: State, who: Identity, c: Call)
    requires Owned(st) && !c.CallShutdown?
    ensures var (after, reply) := Run(st, who, c);
            && (who in after.sessions ==>
                  || Continued(st, after, who)
                  || after.sessions[who].authenticated
                  || (c.CallStart? && GoesThrough(st, who, c) && Begins(after, who, c)))
            && (reply == Answer(Authenticated) ==> who in after.sessions && after.sessions[who].authenticated)
            && (c.CallStart? && GoesThrough(st, who, c) ==> Begins(after, who, c))
  {
    match c
    case CallStart(_, _, _, _, _, _, _, _, _, _, _, _) => SessionAfterStart(st, who, c);
    case CallRefresh(_, _, _, _, _, _, _, _, _, _, _, _) => SessionAfterRefresh(st, who, c);
    case _ => SessionAfterEnd(st, who, c);
  }

  lemma {:induction false} CallKeepsTrust(sys: System, who: Identity, job: nat, attempt: nat, c: Call)
    requires Trusted(sys, who) && Calls(sys, job, attempt, c)
    ensures Trusted(Next(sys, who, CallBridge(job, attempt, c)), who) <==>
            !Restarts(sys, who, CallBridge(job, attempt, c))
  {
    var after := Next(sys, who, CallBridge(job, attempt, c));
    var reply := Run(sys.bridge, who, c).1;
    NextKeepsBooks(sys, who, CallBridge(job, attempt, c));
    SessionAfterCall(sys.bridge, who, c);
    if reply != Answer(Authenticated) {
      if who in sys.bridge.sessions {
        VouchedByOthers(sys, after, (job, attempt), sys.bridge.sessions[who].epoch);
      }
      VouchedByOthers(sys, after, (job, attempt), sys.db.jobs[job].epoch);
    }
  }

  lemma {:induction false} VouchedByOthers(sys: System, after: System, f: (nat, nat), e: nat)
    requires f in sys.flights && f in after.flights && after.db == sys.db
    requires sys.flights[f] != Called(Answer(Authenticated)) && after.flights[f] != Called(Answer(Authenticated))
    requires forall g | g != f :: g in sys.flights <==> g in after.flights
    requires forall g | g != f && g in sys.flights :: after.flights[g] == sys.flights[g]
    ensures Vouched(after, e) <==> Vouched(sys, e)
  {
    forall g | Brings(sys, g, e) ensures Brings(after, g, e) {}
    forall g | Brings(after, g, e) ensures Brings(sys, g, e) {}
  }

  /** Everything else vouches for no more than before and leaves the session as it was, or away. */
  ghost predicate Quiet(sys: System, after: System, who: Identity) {
    && Owned(after.bridge) && (forall f | f in after.flights :: f.0 < |after.db.jobs|)
    && (forall e | Vouched(after, e) :: Vouched(sys, e))
    && (who in after.bridge.sessions ==> Continued(sys.bridge, after.bridge, who))
  }

  lemma {:induction false} QuietKeepsTrust(sys: System, after: System, who: Identity)
    requires Trusted(sys, who) && Quiet(sys, after, who)
    ensures Trusted(after, who)
  {
  }

  lemma {:induction false} VouchedBefore(sys: System, after: System)
    requires forall f | f in after.flights && after.flights[f] == Called(Answer(Authenticated)) ::
               && f in sys.flights && sys.flights[f] == after.flights[f] && f.0 < |sys.db.jobs|
               && (f.0 < |after.db.jobs| ==> after.db.jobs[f.0].epoch == sys.db.jobs[f.0].epoch)
    requires after.db.row.state == Authenticated ==> Vouched(sys, after.db.row.epoch)
    ensures forall e | Vouched(after, e) :: Vouched(sys, e)
  {
    forall e | Vouched(after, e) ensures Vouched(sys, e) {
      if f :| f in after.flights && Brings(after, f, e) {
        assert Brings(sys, f, e);
      }
    }
  }

  lemma {:induction false} DatabaseIsQuiet(sys: System, who: Identity, a: Action)
    requires Trusted(sys, who) && (a.Request? || a.EditRequest? || a.Claim? || a.JobChurn?)
    ensures Quiet(sys, Next(sys, who, a), who)
  {
    VouchedBefore(sys, Next(sys, who, a));
  }

  lemma {:induction false} FlightIsQuiet(sys: System, who: Identity, a: Action)
    requires Trusted(sys, who) && (a.FirstCheck? || a.BridgeUnavailable? || a.WorkerDies?)
    ensures Quiet(sys, Next(sys, who, a), who)
  {
    VouchedBefore(sys, Next(sys, who, a));
  }

  lemma {:induction false} RecheckIsQuiet(sys: System, who: Identity, job: nat, attempt: nat)
    requires Trusted(sys, who)
    ensures Quiet(sys, Next(sys, who, Recheck(job, attempt)), who)
  {
    var after := Next(sys, who, Recheck(job, attempt));
    if after.db.row != sys.db.row && after.db.row.state == Authenticated {
      assert Brings(sys, (job, attempt), sys.db.row.epoch);
    }
    VouchedBefore(sys, after);
  }

  lemma {:induction false} HostIsQuiet(sys: System, who: Identity, a: Action)
    requires Trusted(sys, who)
    requires a.DiscardAfter? || a.HostShutdown? || a.HostCrash? || a.OtherIdentity? || a.ArchiveLost?
    ensures Quiet(sys, Next(sys, who, a), who)
  {
    NextKeepsBooks(sys, who, a);
    VouchedBefore(sys, Next(sys, who, a));
    match a
    case DiscardAfter(job, _, end) =>
      if job < |sys.db.jobs| { SessionAfterEnd(sys.bridge, who, CallDiscardEpoch(sys.db.jobs[job].epoch, end)); }
    case HostShutdown(c) => if c.CallShutdown? { SessionAfterEnd(sys.bridge, who, c); }
    case OtherIdentity(other, c) => RunIsOrderly(sys.bridge, other, c);
    case _ =>
  }

  /** One action keeps trust if and only if it is not such a restart. */
  lemma {:induction false} OnlyRestartsBreakTrust(sys: System, who: Identity, a: Action)
    requires Trusted(sys, who)
    ensures Trusted(Next(sys, who, a), who) <==> !Restarts(sys, who, a)
  {
    match a
    case CallBridge(job, attempt, c) =>
      if Calls(sys, job, attempt, c) { CallKeepsTrust(sys, who, job, attempt, c); }
    case Request(_) => DatabaseIsQuiet(sys, who, a); QuietKeepsTrust(sys, Next(sys, who, a), who);
    case EditRequest(_) => DatabaseIsQuiet(sys, who, a); QuietKeepsTrust(sys, Next(sys, who, a), who);
    case Claim(_) => DatabaseIsQuiet(sys, who, a); QuietKeepsTrust(sys, Next(sys, who, a), who);
    case JobChurn(_, _, _) => DatabaseIsQuiet(sys, who, a); QuietKeepsTrust(sys, Next(sys, who, a), who);
    case FirstCheck(_, _) => FlightIsQuiet(sys, who, a); QuietKeepsTrust(sys, Next(sys, who, a), who);
    case BridgeUnavailable(_, _) => FlightIsQuiet(sys, who, a); QuietKeepsTrust(sys, Next(sys, who, a), who);
    case WorkerDies(_, _) => FlightIsQuiet(sys, who, a); QuietKeepsTrust(sys, Next(sys, who, a), who);
    case Recheck(job, attempt) => RecheckIsQuiet(sys, who, job, attempt); QuietKeepsTrust(sys, Next(sys, who, a), who);
    case _ => HostIsQuiet(sys, who, a); QuietKeepsTrust(sys, Next(sys, who, a), who);
  }

  // ----- what readers are told

  /** The stored row is shown to readers. */
  predicate Shown(db: Database) {
    && db.row.state == Authenticated && db.connection.enabled && !db.connection.deleted
    && db.row.connectionRevision == db.connection.revision
  }

  /** Readers are told AUTHENTICATED of a login that is not. */
  predicate Fooled(sys: System, who: Identity) {
    && PublicState(sys.db, sys.bridge, who) == Authenticated
    && !(who in sys.bridge.sessions && sys.bridge.sessions[who].authenticated)
  }

  /** A start job that passed its first check begins a new login for the very epoch that readers see as
      authenticated. */
  predicate Replaces(sys: System, who: Identity, a: Action) {
    && a.CallBridge? && Calls(sys, a.job, a.attempt, a.call)
    && a.call.CallStart? && GoesThrough(sys.bridge, who, a.call)
    && Shown(sys.db) && sys.db.row.epoch == a.call.epoch && sys.db.connection.revision == a.call.revision
  }

  /** As long as sessions can be trusted, an action fools readers if and only if it is such a replacement. */
  lemma {:induction false} OnlyReplacementsFool(sys: System, who: Identity, a: Action)
    requires Trusted(sys, who)
    ensures Fooled(Next(sys, who, a), who) <==> Replaces(sys, who, a)
  {
    OnlyRestartsBreakTrust(sys, who, a);
    if Restarts(sys, who, a) {
      SessionAfterStart(sys.bridge, who, a.call);
    }
  }

  /** Once trust is broken there is a second way: an answer that a replaced session gave lands. */
  predicate LandsLate(sys: System, who: Identity, a: Action) {
    && a.Recheck? && JobCurrent(sys.db, a.job, a.attempt)
    && (a.job, a.attempt) in sys.flights && sys.flights[(a.job, a.attempt)] == Called(Answer(Authenticated))
    && Shown(sys.db.(row := sys.db.row.(state := Authenticated)))
    && who in sys.bridge.sessions
    && var s := sys.bridge.sessions[who];
       s.epoch == sys.db.row.epoch && s.revision == sys.db.connection.revision && !s.authenticated
  }

  predicate Fools(sys: System, who: Identity, a: Action) {
    Replaces(sys, who, a) || LandsLate(sys, who, a)
  }

  /** The row, the jobs and the session carry no connection revision that is yet to come. */
  ghost predicate InStep(sys: System, who: Identity) {
    && Owned(sys.bridge)
    && sys.db.row.connectionRevision == sys.db.connection.revision
    && (forall j | 0 <= j < |sys.db.jobs| :: sys.db.jobs[j].connectionRevision <= sys.db.connection.revision)
    && (who in sys.bridge.sessions ==> sys.bridge.sessions[who].revision <= sys.db.connection.revision)
  }

  ghost predicate Revised(st: State, after: State, who: Identity, revision: nat) {
    who in after.sessions ==>
      || (who in st.sessions && after.sessions[who].revision == st.sessions[who].revision)
      || after.sessions[who].revision == revision
  }

  lemma {:induction false} RevisionAfterAttach(st: State, who: Identity, c: Call)
    requires Owned(st) && c.CallRefresh?
    ensures Revised(st, Attach(st, who, c).0, who, c.revision)
  {
  }

  lemma {:induction false} RevisionAfterInspect(st: State, who: Identity, c: Call)
    requires Owned(st) && c.CallRefresh? && who in st.sessions
    ensures Revised(st, Inspect(st, who, c).0, who, st.sessions[who].revision)
  {
    SessionAfterDiscard(st, who, c.end);
  }

  lemma {:induction false} RevisionAfterRefresh(st: State, who: Identity, c: Call)
    requires Owned(st) && c.CallRefresh?
    ensures Revised(st, Refresh(st, who, c).0, who, c.revision)
  {
    AttachIsOrderly(st, who, c);
    RevisionAfterAttach(st, who, c);
    var (attached, ok) := Attach(st, who, c);
    if ok {
      RevisionAfterInspect(attached, who, c);
    }
  }

  lemma {:induction false} RevisionAfterCall(st: State, who: Identity, c: Call)
    requires Owned(st) && who in Run(st, who, c).0.sessions
    ensures var after := Run(st, who, c).0;
            || (who in st.sessions && after.sessions[who].revision == st.sessions[who].revision)
            || (c.CallStart? && after.sessions[who].revision == c.revision)
            || (c.CallRefresh? && after.sessions[who].revision == c.revision)
  {
    if c.CallStart? {
      SessionAfterStart(st, who, c);
    } else if c.CallRefresh? {
      RevisionAfterRefresh(st, who, c);
    } else {
      SessionAfterEnd(st, who, c);
    }
  }

  lemma {:induction false} CallKeepsStep(sys: System, who: Identity, c: Call)
    requires InStep(sys, who)
    requires c.CallStart? || c.CallRefresh? ==> c.revision <= sys.db.connection.revision
    ensures InStep(sys.(bridge := Run(sys.bridge, who, c).0), who)
  {
    RunIsOrderly(sys.bridge, who, c);
    if who in Run(sys.bridge, who, c).0.sessions {
      RevisionAfterCall(sys.bridge, who, c);
    }
  }

  lemma {:induction false} DatabaseKeepsStep(sys: System, who: Identity, a: Action)
    requires InStep(sys, who) && (a.Request? || a.EditRequest? || a.Claim? || a.JobChurn? || a.Recheck?)
    ensures InStep(Next(sys, who, a), who)
  {
  }

  lemma {:induction false} NextKeepsStep(sys: System, who: Identity, a: Action)
    requires InStep(sys, who)
    ensures InStep(Next(sys, who, a), who)
  {
    if a.Request? || a.EditRequest? || a.Claim? || a.JobChurn? || a.Recheck? {
      DatabaseKeepsStep(sys, who, a);
    } else if a.CallBridge? && Calls(sys, a.job, a.attempt, a.call) {
      CallKeepsStep(sys, who, a.call);
    } else if a.DiscardAfter? && a.job < |sys.db.jobs| {
      CallKeepsStep(sys, who, CallDiscardEpoch(sys.db.jobs[a.job].epoch, a.end));
    } else if a.HostShutdown? && a.call.CallShutdown? {
      CallKeepsStep(sys, who, a.call);
    } else if a.OtherIdentity? {
      RunIsOrderly(sys.bridge, a.other, a.call);
    }
  }

  lemma {:induction false} FoolingShows(sys: System, who: Identity, a: Action)
    requires Owned(sys.bridge) && Fools(sys, who, a)
    ensures Fooled(Next(sys, who, a), who)
  {
    if Replaces(sys, who, a) {
      SessionAfterStart(sys.bridge, who, a.call);
    }
  }

  lemma {:induction false} CallsFoolByReplacing(sys: System, who: Identity, a: Action)
    requires InStep(sys, who) && !Fooled(sys, who) && a.CallBridge? && Fooled(Next(sys, who, a), who)
    ensures Replaces(sys, who, a)
  {
    SessionAfterCall(sys.bridge, who, a.call);
  }

  lemma {:induction false} DatabaseFoolsByLanding(sys: System, who: Identity, a: Action)
    requires InStep(sys, who) && !Fooled(sys, who) && Fooled(Next(sys, who, a), who)
    requires a.Request? || a.EditRequest? || a.Claim? || a.JobChurn? || a.Recheck?
    ensures LandsLate(sys, who, a)
  {
  }

  lemma {:induction false} HostNeverFools(sys: System, who: Identity, a: Action)
    requires InStep(sys, who) && !Fooled(sys, who)
    requires !(a.Request? || a.EditRequest? || a.Claim? || a.JobChurn? || a.Recheck? || a.CallBridge?)
    ensures !Fooled(Next(sys, who, a), who)
  {
    if a.DiscardAfter? && a.job < |sys.db.jobs| {
      SessionAfterEnd(sys.bridge, who, CallDiscardEpoch(sys.db.jobs[a.job].epoch, a.end));
    } else if a.HostShutdown? && a.call.CallShutdown? {
      SessionAfterEnd(sys.bridge, who, a.call);
    } else if a.OtherIdentity? {
      RunIsOrderly(sys.bridge, a.other, a.call);
    }
  }

  lemma {:induction false} FooledOnlyByFooling(sys: System, who: Identity, a: Action)
    requires InStep(sys, who) && !Fooled(sys, who) && Fooled(Next(sys, who, a), who)
    ensures Fools(sys, who, a)
  {
    if a.CallBridge? {
      CallsFoolByReplacing(sys, who, a);
    } else if a.Request? || a.EditRequest? || a.Claim? || a.JobChurn? || a.Recheck? {
      DatabaseFoolsByLanding(sys, who, a);
    } else {
      HostNeverFools(sys, who, a);
    }
  }

  /** Some action at one place of a run fools readers. */
  ghost predicate FoolsAt(sys: System, who: Identity, actions: seq<Action>, i: nat)
    requires Owned(sys.bridge) && i < |actions|
  {
    Fools(Exec(sys, who, actions[..i]), who, actions[i])
  }

  ghost predicate FooledAt(sys: System, who: Identity, actions: seq<Action>, i: nat)
    requires Owned(sys.bridge) && i <= |actions|
  {
    Fooled(Exec(sys, who, actions[..i]), who)
  }

  lemma {:induction false} NoSessionAtFirst(sys: System, who: Identity)
    requires Initial(sys, who)
    ensures who !in sys.bridge.sessions
  {
    if who in sys.bridge.sessions {
      assert Known(sys.bridge, Binding(who, sys.bridge.sessions[who].epoch));
    }
  }

  lemma {:induction false} RunsStayInStep(sys: System, who: Identity, actions: seq<Action>)
    requires Initial(sys, who)
    ensures InStep(Exec(sys, who, actions), who)
  {
    if actions == [] {
      NoSessionAtFirst(sys, who);
    } else {
      var n := |actions| - 1;
      RunsStayInStep(sys, who, actions[..n]);
      NextKeepsStep(Exec(sys, who, actions[..n]), who, actions[n]);
    }
  }

  lemma {:induction false} FoolingComesFirst(sys: System, who: Identity, actions: seq<Action>, i: nat)
    requires Initial(sys, who) && i < |actions| && !FooledAt(sys, who, actions, i)
    ensures FooledAt(sys, who, actions, i + 1) <==> FoolsAt(sys, who, actions, i)
  {
    var now := Exec(sys, who, actions[..i]);
    StepOfRun(sys, who, actions, i);
    RunsStayInStep(sys, who, actions[..i]);
    if FoolsAt(sys, who, actions, i) {
      FoolingShows(now, who, actions[i]);
    } else if FooledAt(sys, who, actions, i + 1) {
      FooledOnlyByFooling(now, who, actions[i]);
    }
  }

  lemma {:induction false} TruthSoFar(sys: System, who: Identity, actions: seq<Action>, n: nat)
    requires Initial(sys, who) && n <= |actions|
    requires forall i | 0 <= i < n :: !FoolsAt(sys, who, actions, i)
    ensures !FooledAt(sys, who, actions, n)
  {
    if n == 0 {
      assert actions[..0] == [];
    } else {
      TruthSoFar(sys, who, actions, n - 1);
      FoolingComesFirst(sys, who, actions, n - 1);
    }
  }

  /** The exact condition: at every moment of a run AUTHENTICATED is told of authenticated sessions only, if and only if
      no action of the run is of those two kinds. */
  lemma {:induction false} AuthenticatedIsTrue(sys: System, who: Identity, actions: seq<Action>)
    requires Initial(sys, who)
    ensures (forall i | 0 <= i <= |actions| :: !FooledAt(sys, who, actions, i)) <==>
            (forall i | 0 <= i < |actions| :: !FoolsAt(sys, who, actions, i))
  {
    if forall i | 0 <= i < |actions| :: !FoolsAt(sys, who, actions, i) {
      forall i | 0 <= i <= |actions| ensures !FooledAt(sys, who, actions, i) {
        TruthSoFar(sys, who, actions, i);
      }
    } else {
      var i :| 0 <= i < |actions| && FoolsAt(sys, who, actions, i);
      StepOfRun(sys, who, actions, i);
      RunsStayInStep(sys, who, actions[..i]);
      FoolingShows(Exec(sys, who, actions[..i]), who, actions[i]);
      assert FooledAt(sys, who, actions, i + 1);
    }
  }

  // ----- runs in which no login is restarted

  ghost predicate RestartsAt(sys: System, who: Identity, actions: seq<Action>, i: nat)
    requires Owned(sys.bridge) && i < |actions|
  {
    Restarts(Exec(sys, who, actions[..i]), who, actions[i])
  }

  lemma {:induction false} TrustedAtFirst(sys: System, who: Identity)
    requires Initial(sys, who)
    ensures Trusted(sys, who)
  {
    NoSessionAtFirst(sys, who);
  }

  lemma {:induction false} TrustedNext(sys: System, who: Identity, actions: seq<Action>, i: nat)
    requires Owned(sys.bridge) && i < |actions| && !RestartsAt(sys, who, actions, i)
    requires Trusted(Exec(sys, who, actions[..i]), who)
    ensures Trusted(Exec(sys, who, actions[..i + 1]), who)
  {
    StepOfRun(sys, who, actions, i);
    OnlyRestartsBreakTrust(Exec(sys, who, actions[..i]), who, actions[i]);
  }

  lemma {:induction false} TrustedSoFar(sys: System, who: Identity, actions: seq<Action>, n: nat)
    requires Initial(sys, who) && n <= |actions|
    requires forall i | 0 <= i < n :: !RestartsAt(sys, who, actions, i)
    ensures Trusted(Exec(sys, who, actions[..n]), who)
  {
    if n == 0 {
      assert actions[..0] == [];
      TrustedAtFirst(sys, who);
    } else {
      TrustedSoFar(sys, who, actions, n - 1);
      TrustedNext(sys, who, actions, n - 1);
    }
  }

  /** Without restarts, whoever reads AUTHENTICATED reads it of an authenticated session of the current epoch. */
  lemma {:induction false} RestartFreeRunsAreTrue(sys: System, who: Identity, actions: seq<Action>)
    requires Initial(sys, who) && forall i | 0 <= i < |actions| :: !RestartsAt(sys, who, actions, i)
    requires PublicState(Exec(sys, who, actions).db, Exec(sys, who, actions).bridge, who) == Authenticated
    ensures var now := Exec(sys, who, actions);
            && who in now.bridge.sessions && now.bridge.sessions[who].authenticated
            && now.bridge.sessions[who].epoch == now.db.row.epoch
  {
    TrustedSoFar(sys, who, actions, |actions|);
    assert actions[..|actions|] == actions;
  }

  /** A cancellation or logout, however late its call comes, can take a newer session away, but readers see that:
      they are told of no login under way and of none authenticated. */
  lemma {:induction false} EndedLoginsAreSeen(sys: System, who: Identity, job: nat, attempt: nat, c: Call)
    requires Owned(sys.bridge) && Calls(sys, job, attempt, c) && (c.CallCancel? || c.CallLogout?)
    ensures var after := Next(sys, who, CallBridge(job, attempt, c));
            who !in after.bridge.sessions && PublicState(after.db, after.bridge, who) !in {Pending, Authenticated}
  {
    SessionAfterDiscard(sys.bridge, who, c.end);
  }

  // ----- a run with a restart

  lemma {:induction false} ExecMore(sys: System, who: Identity, actions: seq<Action>, a: Action)
    requires Owned(sys.bridge)
    ensures Exec(sys, who, actions + [a]) == Next(Exec(sys, who, actions), who, a)
  {
    assert (actions + [a])[..|actions|] == actions;
  }

  const SMOOTH := Disposal(true, true, true)
  const START_CALL :=
    CallStart(1, 1, "A", true, SMOOTH, Made, true, true, true, Some("L"), 600, SMOOTH)
  const REFRESH_CALL :=
    CallRefresh(1, 1, SMOOTH, Made, true, true, true, 5, [LoginCompleted(Some("L"), true)], ChatAccount, true, SMOOTH)
  const CONNECTED := Connection(1, true, false)
  const FRESH := System(Database(Row(SignedOut, 0, None, None, 1, 1), CONNECTED, []), EMPTY, map[])
  const RUNNING_AGAIN := Job(LoginStart, 1, 1, Some("A"), Running, 2, false)

  /** A login under way on the runtime at `home`. */
  function UnderWay(home: Path): Session {
    Session(home, 1, 1, Some("A"), Some("L"), true, 600, false, false)
  }

  const BEGUN := Row(Starting, 1, Some("A"), Some(0), 1, 2)

  lemma {:induction false} StartIsChecked(who: Identity) returns (actions: seq<Action>)
    ensures Exec(FRESH, who, actions)
         == System(Database(BEGUN, CONNECTED, [RUNNING_AGAIN.(attempts := 1)]), EMPTY, map[(0, 1) := Checked])
  {
    var a0 := Request(Mutation(LoginStart, Some(1), 1, "", "A", true, true));
    ExecMore(FRESH, who, [], a0);
    ExecMore(FRESH, who, [] + [a0], Claim(0));
    ExecMore(FRESH, who, [] + [a0] + [Claim(0)], FirstCheck(0, 1));
    actions := [] + [a0] + [Claim(0)] + [FirstCheck(0, 1)];
    var s1 := Next(FRESH, who, a0);
    assert s1 == System(Database(BEGUN, CONNECTED, [RUNNING_AGAIN.(status := Queued, attempts := 0)]), EMPTY, map[]);
    assert Next(s1, who, Claim(0)) == System(Database(BEGUN, CONNECTED, [RUNNING_AGAIN.(attempts := 1)]), EMPTY, map[]);
  }

  lemma {:induction false} StartIsCheckedTwice(who: Identity) returns (actions: seq<Action>)
    ensures Exec(FRESH, who, actions)
         == System(Database(BEGUN, CONNECTED, [RUNNING_AGAIN]), EMPTY, map[(0, 1) := Checked, (0, 2) := Checked])
  {
    var first := StartIsChecked(who);
    var s := Exec(FRESH, who, first);
    ExecMore(FRESH, who, first, Claim(0));
    ExecMore(FRESH, who, first + [Claim(0)], FirstCheck(0, 2));
    actions := first + [Claim(0)] + [FirstCheck(0, 2)];
    assert Next(s, who, Claim(0)) == s.(db := Database(BEGUN, CONNECTED, [RUNNING_AGAIN]));
  }

  /** A start job is claimed twice, as when the first worker's lease lapses after its check; the second worker
      gets the login under way. */
  lemma {:induction false} LeaseLapses(who: Identity) returns (actions: seq<Action>)
    ensures Exec(FRESH, who, actions) == System(
              Database(Row(Pending, 1, Some("A"), None, 1, 3), CONNECTED, [RUNNING_AGAIN]),
              State(map[who := UnderWay(0)], map[0 := Binding(who, 1)], map[], 1),
              map[(0, 1) := Checked])
  {
    var first := StartIsCheckedTwice(who);
    actions := first + [CallBridge(0, 2, START_CALL)] + [Recheck(0, 2)];
    ExecMore(FRESH, who, first, CallBridge(0, 2, START_CALL));
    ExecMore(FRESH, who, first + [CallBridge(0, 2, START_CALL)], Recheck(0, 2));
    StartOnEmpty(Exec(FRESH, who, first), who);
  }

  lemma {:induction false} StartOnEmpty(sys: System, who: Identity)
    requires sys.bridge == EMPTY && sys.db.jobs == [RUNNING_AGAIN] && sys.db.connection == CONNECTED
    requires sys.db.row == BEGUN
    requires sys.flights == map[(0, 1) := Checked, (0, 2) := Checked]
    ensures Next(Next(sys, who, CallBridge(0, 2, START_CALL)), who, Recheck(0, 2)) == System(
              Database(Row(Pending, 1, Some("A"), None, 1, 3), CONNECTED, [RUNNING_AGAIN]),
              State(map[who := UnderWay(0)], map[0 := Binding(who, 1)], map[], 1),
              map[(0, 1) := Checked])
  {
    var called := Next(sys, who, CallBridge(0, 2, START_CALL));
    assert called.bridge == State(map[who := UnderWay(0)], map[0 := Binding(who, 1)], map[], 1);
    assert called.flights == map[(0, 1) := Checked, (0, 2) := Called(Answer(Pending))];
  }

  const FINISHED := RUNNING_AGAIN.(status := Succeeded)
  const REFRESHING := Job(AuthRefresh, 1, 1, Some("A"), Running, 1, false)

  const ASKED := Row(Pending, 1, Some("A"), Some(1), 1, 4)

  /** The start job is over, and the user asks for a refresh. */
  lemma {:induction false} RefreshIsQueued(who: Identity) returns (actions: seq<Action>)
    ensures Exec(FRESH, who, actions) == System(
              Database(ASKED, CONNECTED, [FINISHED, REFRESHING.(status := Queued, attempts := 0)]),
              State(map[who := UnderWay(0)], map[0 := Binding(who, 1)], map[], 1),
              map[(0, 1) := Checked])
  {
    var first := LeaseLapses(who);
    var s := Exec(FRESH, who, first);
    var a0, a1 := JobChurn(0, Succeeded, false), Request(Mutation(AuthRefresh, Some(3), 1, "", "", true, true));
    ExecMore(FRESH, who, first, a0);
    ExecMore(FRESH, who, first + [a0], a1);
    actions := first + [a0] + [a1];
    assert Next(s, who, a0) == s.(db := Database(s.db.row, CONNECTED, [FINISHED]));
  }

  /** The refresh job is claimed and checked. */
  lemma {:induction false} RefreshIsAsked(who: Identity) returns (actions: seq<Action>)
    ensures Exec(FRESH, who, actions) == System(
              Database(ASKED, CONNECTED, [FINISHED, REFRESHING]),
              State(map[who := UnderWay(0)], map[0 := Binding(who, 1)], map[], 1),
              map[(0, 1) := Checked, (1, 1) := Checked])
  {
    var first := RefreshIsQueued(who);
    var s := Exec(FRESH, who, first);
    ExecMore(FRESH, who, first, Claim(1));
    ExecMore(FRESH, who, first + [Claim(1)], FirstCheck(1, 1));
    actions := first + [Claim(1)] + [FirstCheck(1, 1)];
    assert Next(s, who, Claim(1)) == s.(db := Database(ASKED, CONNECTED, [FINISHED, REFRESHING]));
  }

  /** The login gets authenticated, while the first worker is still there with its check passed. */
  lemma {:induction false} LoginGoesOn(who: Identity) returns (actions: seq<Action>)
    ensures Exec(FRESH, who, actions) == System(
              Database(Row(Authenticated, 1, Some("A"), None, 1, 5), CONNECTED, [FINISHED, REFRESHING]),
              State(map[who := SIGNED_IN], map[0 := Binding(who, 1)], map[who := Binding(who, 1)], 1),
              map[(0, 1) := Checked])
  {
    var first := RefreshIsAsked(who);
    ExecMore(FRESH, who, first, CallBridge(1, 1, REFRESH_CALL));
    ExecMore(FRESH, who, first + [CallBridge(1, 1, REFRESH_CALL)], Recheck(1, 1));
    actions := first + [CallBridge(1, 1, REFRESH_CALL)] + [Recheck(1, 1)];
    RefreshSignsIn(Exec(FRESH, who, first), who);
  }

  const SIGNED_IN := UnderWay(0).(completed := true, authenticated := true, hasChallenge := false)

  lemma {:induction false} RefreshReads(st: State, who: Identity)
    requires st == State(map[who := UnderWay(0)], map[0 := Binding(who, 1)], map[], 1)
    ensures Owned(st)
    ensures Inspect(st, who, REFRESH_CALL)
         == Conclude(State(map[who := UnderWay(0).(completed := true)], map[0 := Binding(who, 1)], map[], 1),
                     who, REFRESH_CALL)
  {
    assert Absorb([], Some("L"), true) == Some(true);
    assert REFRESH_CALL.events[1..] == [];
    assert Absorb(REFRESH_CALL.events, Some("L"), false) == Some(true);
    var done := UnderWay(0).(completed := true);
    assert map[who := UnderWay(0)][who := done] == map[who := done];
  }

  lemma {:induction false} RefreshConcludes(st: State, who: Identity)
    requires st == State(map[who := UnderWay(0).(completed := true)], map[0 := Binding(who, 1)], map[], 1)
    ensures Conclude(st, who, REFRESH_CALL)
         == (State(map[who := SIGNED_IN], map[0 := Binding(who, 1)], map[who := Binding(who, 1)], 1),
             Answer(Authenticated))
  {
    assert map[who := UnderWay(0).(completed := true)][who := SIGNED_IN] == map[who := SIGNED_IN];
  }

  lemma {:induction false} RefreshAnswers(st: State, who: Identity)
    requires st == State(map[who := UnderWay(0)], map[0 := Binding(who, 1)], map[], 1)
    ensures Owned(st)
    ensures Refresh(st, who, REFRESH_CALL)
         == (State(map[who := SIGNED_IN], map[0 := Binding(who, 1)], map[who := Binding(who, 1)], 1),
             Answer(Authenticated))
  {
    RefreshReads(st, who);
    RefreshConcludes(State(map[who := UnderWay(0).(completed := true)], map[0 := Binding(who, 1)], map[], 1), who);
    assert Attach(st, who, REFRESH_CALL) == (st, true);
  }

  lemma {:induction false} RefreshSignsIn(sys: System, who: Identity)
    requires sys.bridge == State(map[who := UnderWay(0)], map[0 := Binding(who, 1)], map[], 1)
    requires sys.db == Database(ASKED, CONNECTED, [FINISHED, REFRESHING])
    requires sys.flights == map[(0, 1) := Checked, (1, 1) := Checked]
    ensures Next(Next(sys, who, CallBridge(1, 1, REFRESH_CALL)), who, Recheck(1, 1)) == System(
              Database(Row(Authenticated, 1, Some("A"), None, 1, 5), CONNECTED, [FINISHED, REFRESHING]),
              State(map[who := SIGNED_IN], map[0 := Binding(who, 1)], map[who := Binding(who, 1)], 1),
              map[(0, 1) := Checked])
  {
    RefreshAnswers(sys.bridge, who);
    var called := Next(sys, who, CallBridge(1, 1, REFRESH_CALL));
    assert called.flights == map[(0, 1) := Checked, (1, 1) := Called(Answer(Authenticated))];
  }

  lemma {:induction false} StartReplaces(st: State, who: Identity)
    requires st == State(map[who := SIGNED_IN], map[0 := Binding(who, 1)], map[who := Binding(who, 1)], 1)
    ensures GoesThrough(st, who, START_CALL) && Begins(Start(st, who, START_CALL).0, who, START_CALL)
    ensures who !in Start(st, who, START_CALL).0.archive
  {
    SessionAfterStart(st, who, START_CALL);
    assert Discard(st, who, SMOOTH) == State(map[], map[], map[], 1);
  }

  lemma {:induction false} LateStart(sys: System, who: Identity)
    requires sys.db == Database(Row(Authenticated, 1, Some("A"), None, 1, 5), CONNECTED, [FINISHED, REFRESHING])
    requires sys.bridge == State(map[who := SIGNED_IN], map[0 := Binding(who, 1)], map[who := Binding(who, 1)], 1)
    requires sys.flights == map[(0, 1) := Checked]
    ensures Owned(sys.bridge) && Replaces(sys, who, CallBridge(0, 1, START_CALL))
    ensures who !in Next(sys, who, CallBridge(0, 1, START_CALL)).bridge.archive
  {
    StartReplaces(sys.bridge, who);
  }

  /** Then the first worker makes its call. The login of the same epoch is replaced by one under way, its archive is
      gone, and readers are still told AUTHENTICATED: the worker's recheck, which will discard the session, is yet to
      come. */
  lemma {:induction false} RestartFoolsReaders(who: Identity) returns (actions: seq<Action>)
    ensures Initial(FRESH, who)
    ensures var now := Exec(FRESH, who, actions);
            Fooled(now, who) && who in now.bridge.sessions && who !in now.bridge.archive
  {
    var run := LoginGoesOn(who);
    ExecMore(FRESH, who, run, CallBridge(0, 1, START_CALL));
    actions := run + [CallBridge(0, 1, START_CALL)];
    LateStart(Exec(FRESH, who, run), who);
    FoolingShows(Exec(FRESH, who, run), who, CallBridge(0, 1, START_CALL));
  }

  lemma {:induction false} RefreshIsUnderWay(who: Identity) returns (actions: seq<Action>)
    ensures Exec(FRESH, who, actions) == System(
              Database(ASKED, CONNECTED, [FINISHED, REFRESHING]),
              State(map[who := SIGNED_IN], map[0 := Binding(who, 1)], map[who := Binding(who, 1)], 1),
              map[(0, 1) := Checked, (1, 1) := Called(Answer(Authenticated))])
  {
    var run := RefreshIsAsked(who);
    ExecMore(FRESH, who, run, CallBridge(1, 1, REFRESH_CALL));
    actions := run + [CallBridge(1, 1, REFRESH_CALL)];
    RefreshAnswers(Exec(FRESH, who, run).bridge, who);
  }

  lemma {:induction false} StartComesBetween(sys: System, who: Identity)
    requires sys.db == Database(ASKED, CONNECTED, [FINISHED, REFRESHING])
    requires sys.bridge == State(map[who := SIGNED_IN], map[0 := Binding(who, 1)], map[who := Binding(who, 1)], 1)
    requires sys.flights == map[(0, 1) := Checked, (1, 1) := Called(Answer(Authenticated))]
    ensures Owned(sys.bridge) && !Fooled(Next(sys, who, CallBridge(0, 1, START_CALL)), who)
    ensures LandsLate(Next(sys, who, CallBridge(0, 1, START_CALL)), who, Recheck(1, 1))
  {
    StartReplaces(sys.bridge, who);
    assert REFRESHING == Job(AuthRefresh, 1, 1, Some("A"), Running, 1, false);
  }

  /** The other way: the first worker makes its call while the answer of the refresh is on its way to the row. Readers
      are told nothing wrong until that answer lands, for a session that is gone. */
  lemma {:induction false} LateAnswerFoolsReaders(who: Identity) returns (actions: seq<Action>)
    ensures actions != [] && !Fooled(Exec(FRESH, who, actions[..|actions| - 1]), who)
    ensures actions[|actions| - 1] == Recheck(1, 1) && Fooled(Exec(FRESH, who, actions), who)
  {
    var run := RefreshIsUnderWay(who);
    var start := CallBridge(0, 1, START_CALL);
    ExecMore(FRESH, who, run, start);
    ExecMore(FRESH, who, run + [start], Recheck(1, 1));
    StartComesBetween(Exec(FRESH, who, run), who);
    FoolingShows(Exec(FRESH, who, run + [start]), who, Recheck(1, 1));
    actions := run + [start] + [Recheck(1, 1)];
    assert actions[..|actions| - 1] == run + [start];
  }
}
