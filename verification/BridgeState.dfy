/** What the login bridge keeps in memory and on disk, and what each of its calls does to it
    (backend/fund_kb/codex_bridge.py).

    A call holds the lock of its identity, so it is one step here. Everything the app server and the
    file system may answer is an argument: each call is total, and every failure is one of its results. */
module BridgeState {
  import opened Wrappers

  datatype Identity = Identity(owner: string, connection: string)
  type Path = nat

  /** What a runtime directory, and the credential archived from it, are bound to. */
  datatype Binding = Binding(who: Identity, epoch: nat)

  datatype Session = Session(home: Path, epoch: nat, revision: nat, attempt: Option<string>, loginId: Option<string>,
                             hasChallenge: bool, expires: int, completed: bool, authenticated: bool)

  datatype State = State(sessions: map<Identity, Session>, runtimes: map<Path, Binding>,
                         archive: map<Identity, Binding>, nextPath: Path)

  datatype LoginState = SignedOut | Starting | Pending | Authenticated | Expired | Cancelled
                      | Cancelling | SigningOut | Errored | Disabled

  datatype Reply = Answer(state: LoginState) | Raised

  datatype Event = LoginCompleted(loginId: Option<string>, success: bool) | OtherEvent
  datatype Account = ReadFailed | NoChatAccount | ChatAccount

  /** What is met while a session is discarded: its process closing, its directory and its archive being removed. */
  datatype Disposal = Disposal(closes: bool, releases: bool, forgets: bool)

  /** How far a new runtime directory gets: not even made, registered but not written to the end, or ready. */
  datatype Making = NotMade | HalfWritten | Made

  datatype Call =
    // `login` is the login id of a well-formed answer to account/login/start, else None
    | CallStart(epoch: nat, revision: nat, attempt: string, flowOffered: bool, prior: Disposal, making: Making,
                transportUp: bool, releases: bool, freshIsEmpty: bool, login: Option<string>, expires: int,
                end: Disposal)
    // `archiveReadable` and `persistWorks` are the file system's answers
    | CallRefresh(epoch: nat, revision: nat, prior: Disposal, making: Making, archiveReadable: bool, transportUp: bool,
                  releases: bool, now: int, events: seq<Event>, account: Account, persistWorks: bool, end: Disposal)
    | CallCancel(rpcWorks: bool, end: Disposal)
    | CallLogout(rpcWorks: bool, end: Disposal)
    | CallDiscardEpoch(epoch: nat, end: Disposal)
    // one round of the loop in `close`
    | CallShutdown(persistWorks: bool, end: Disposal)

  // ----- the store

  function Materialize(st: State, who: Identity, epoch: nat): State {
    st.(runtimes := st.runtimes[st.nextPath := Binding(who, epoch)], nextPath := st.nextPath + 1)
  }

  function Release(st: State, home: Path): State {
    st.(runtimes := st.runtimes - {home})
  }

  predicate Restorable(st: State, who: Identity, epoch: nat) {
    who in st.archive && st.archive[who] == Binding(who, epoch)
  }

  /** Archives the credential of a registered runtime under the identity it is registered for. */
  function Persist(st: State, home: Path): State
    requires home in st.runtimes
  {
    st.(archive := st.archive[st.runtimes[home].who := st.runtimes[home]])
  }

  /** Registers a session on a runtime that has just been materialized for it. */
  function Launch(st: State, who: Identity, s: Session): State {
    var made := Materialize(st, who, s.epoch);
    made.(sessions := made.sessions[who := s])
  }

  /** A runtime materialized that no process could be started on: it is released, unless that fails too. */
  function Abandon(st: State, who: Identity, epoch: nat, releases: bool): State {
    var made := Materialize(st, who, epoch);
    if releases then Release(made, st.nextPath) else made
  }

  function Amend(st: State, who: Identity, s: Session): State {
    st.(sessions := st.sessions[who := s])
  }

  /** Closes nothing on disk: the session leaves, its runtime is released, its archive stays. */
  function Detach(st: State, who: Identity): State
    requires who in st.sessions
  {
    Release(st.(sessions := st.sessions - {who}), st.sessions[who].home)
  }

  // ----- the calls

  function Forget(st: State, who: Identity): State {
    st.(archive := st.archive - {who})
  }

  /** The session leaves in any case; its runtime only if releasing works, the archive only if nothing raised. */
  function Discard(st: State, who: Identity, d: Disposal): State {
    if who !in st.sessions then if d.forgets then Forget(st, who) else st
    else
      var popped := st.(sessions := st.sessions - {who});
      var released := if d.releases then Release(popped, st.sessions[who].home) else popped;
      if d.closes && d.releases && d.forgets then Forget(released, who) else released
  }

  predicate DiscardRaises(st: State, who: Identity, d: Disposal) {
    !d.forgets || (who in st.sessions && !(d.closes && d.releases))
  }

  function NewSession(home: Path, c: Call): Session
    requires c.CallStart?
  {
    Session(home, c.epoch, c.revision, Some(c.attempt), None, false, c.expires, false, false)
  }

  /** A login attempt on an identity that has no session. */
  function StartFresh(st: State, who: Identity, c: Call): (State, Reply)
    requires c.CallStart?
  {
    match c.making
    case NotMade => (st, Raised)
    case HalfWritten => (Materialize(st, who, c.epoch), Raised)
    case Made =>
      if !c.transportUp then (Abandon(st, who, c.epoch, c.releases), Raised)
      else
        var running := Launch(st, who, NewSession(st.nextPath, c));
        if !c.freshIsEmpty || c.login.None? then (Discard(running, who, c.end), Raised)
        else
          (Amend(running, who, NewSession(st.nextPath, c).(loginId := c.login, hasChallenge := true)), Answer(Pending))
  }

  function Start(st: State, who: Identity, c: Call): (State, Reply)
    requires c.CallStart?
  {
    if !c.flowOffered then (st, Raised)
    else if who !in st.sessions then StartFresh(st, who, c)
    else if DiscardRaises(st, who, c.prior) then (Discard(st, who, c.prior), Raised)
    else StartFresh(Discard(st, who, c.prior), who, c)
  }

  /** Whether this session must be rebuilt because only the application's consent revision changed. */
  predicate ConsentChanged(st: State, who: Identity, epoch: nat, revision: nat) {
    who in st.sessions && st.sessions[who].epoch == epoch && st.sessions[who].revision != revision
    && st.sessions[who].authenticated
  }

  /** What a session restored from the archive looks like. */
  function Restored(home: Path, c: Call): Session
    requires c.CallRefresh?
  {
    Session(home, c.epoch, c.revision, None, None, false, 0, true, true)
  }

  /** A session restored from the archive, for an identity that has none. */
  function Restore(st: State, who: Identity, c: Call): (State, bool)
    requires c.CallRefresh?
  {
    match c.making
    case NotMade => (st, false)
    case HalfWritten => (Materialize(st, who, c.epoch), false)
    case Made =>
      if !(c.archiveReadable && Restorable(st, who, c.epoch)) || !c.transportUp
      then (Abandon(st, who, c.epoch, c.releases), false)
      else (Launch(st, who, Restored(st.nextPath, c)), true)
  }

  /** The first part of a refresh: a session to look at, restored from the archive when there is none. */
  function Attach(st: State, who: Identity, c: Call): (State, bool)
    requires c.CallRefresh?
  {
    if ConsentChanged(st, who, c.epoch, c.revision) then
      if !(c.prior.closes && c.prior.releases) then (st, false) else Restore(Detach(st, who), who, c)
    else if who in st.sessions then (st, true)
    else Restore(st, who, c)
  }

  /** The login events in order: None once one of them reports this login failed, else whether it is complete. */
  function Absorb(events: seq<Event>, loginId: Option<string>, completed: bool): Option<bool> {
    if events == [] then Some(completed)
    else if events[0].LoginCompleted? && events[0].loginId == loginId then
      if events[0].success then Absorb(events[1..], loginId, true) else None
    else Absorb(events[1..], loginId, completed)
  }

  function DiscardThen(st: State, who: Identity, d: Disposal, answer: LoginState): (State, Reply) {
    (Discard(st, who, d), if DiscardRaises(st, who, d) then Raised else Answer(answer))
  }

  /** The last part of a refresh: the login events are read, now ask which account is signed in. */
  function Conclude(st: State, who: Identity, c: Call): (State, Reply)
    requires c.CallRefresh? && who in st.sessions && st.sessions[who].home in st.runtimes
  {
    var s := st.sessions[who];
    if !s.completed && !s.authenticated then (st, Answer(Pending))
    else match c.account
      case ReadFailed => (st, Raised)
      case NoChatAccount => DiscardThen(st, who, c.end, SignedOut)
      case ChatAccount =>
        if !s.authenticated && !c.persistWorks then (st, Raised)
        else
          var kept := if s.authenticated then st else Persist(st, s.home);
          (Amend(kept, who, s.(authenticated := true, hasChallenge := false)), Answer(Authenticated))
  }

  /** The second part of a refresh, on a session that matches the caller's epoch and revision. */
  function Inspect(st: State, who: Identity, c: Call): (State, Reply)
    requires c.CallRefresh? && who in st.sessions && st.sessions[who].home in st.runtimes
  {
    var s := st.sessions[who];
    if !s.authenticated && c.now >= s.expires then DiscardThen(st, who, c.end, Expired)
    else match Absorb(c.events, s.loginId, s.completed)
      case None => (Discard(st, who, c.end), Raised)
      case Some(done) => Conclude(Amend(st, who, s.(completed := done)), who, c)
  }

  function Refresh(st: State, who: Identity, c: Call): (State, Reply)
    requires c.CallRefresh? && Owned(st)
  {
    AttachIsOrderly(st, who, c);
    var (attached, ok) := Attach(st, who, c);
    if !ok then (attached, Raised)
    else if attached.sessions[who].epoch != c.epoch || attached.sessions[who].revision != c.revision
    then (attached, Raised)
    else Inspect(attached, who, c)
  }

  function Logout(st: State, who: Identity, c: Call): (State, Reply)
    requires c.CallLogout?
  {
    (Discard(st, who, c.end),
     if (who in st.sessions && !c.rpcWorks) || DiscardRaises(st, who, c.end) then Raised else Answer(SignedOut))
  }

  function CancelLogin(st: State, who: Identity, c: Call): (State, Reply)
    requires c.CallCancel?
  {
    (Discard(st, who, c.end),
     if (who in st.sessions && st.sessions[who].loginId.Some? && !c.rpcWorks) || DiscardRaises(st, who, c.end)
     then Raised else Answer(Cancelled))
  }

  function DiscardEpoch(st: State, who: Identity, c: Call): (State, Reply)
    requires c.CallDiscardEpoch?
  {
    if who in st.sessions && st.sessions[who].epoch == c.epoch then DiscardThen(st, who, c.end, SignedOut)
    else (st, Answer(SignedOut))
  }

  /** An authenticated session leaves its archive behind, written again if it is missing. When closing or
      releasing raises, the session stays. */
  function Shutdown(st: State, who: Identity, c: Call): (State, Reply)
    requires c.CallShutdown? && Owned(st)
  {
    if who !in st.sessions || !st.sessions[who].authenticated then DiscardThen(st, who, c.end, SignedOut)
    else
      var saves := who !in st.archive;
      var saved := if saves && c.persistWorks then Persist(st, st.sessions[who].home) else st;
      if !(c.end.closes && c.end.releases) then (saved, Raised)
      else (Detach(saved, who), if saves && !c.persistWorks then Raised else Answer(Authenticated))
  }

  function Run(st: State, who: Identity, c: Call): (State, Reply)
    requires Owned(st)
  {
    match c
    case CallStart(_, _, _, _, _, _, _, _, _, _, _, _) => Start(st, who, c)
    case CallRefresh(_, _, _, _, _, _, _, _, _, _, _, _) => Refresh(st, who, c)
    case CallCancel(_, _) => CancelLogin(st, who, c)
    case CallLogout(_, _) => Logout(st, who, c)
    case CallDiscardEpoch(_, _) => DiscardEpoch(st, who, c)
    case CallShutdown(_, _) => Shutdown(st, who, c)
  }

  // ----- what always holds

  /** Every session has a runtime of its own, registered for the same owner, connection and epoch; an archive
      is bound to its identity, and beside an authenticated session to that session's epoch. */
  ghost predicate Owned(st: State) {
    && (forall who | who in st.sessions ::
          var s := st.sessions[who];
          s.home in st.runtimes && st.runtimes[s.home] == Binding(who, s.epoch))
    && (forall p | p in st.runtimes :: p < st.nextPath)
    && (forall who | who in st.archive :: st.archive[who].who == who)
    && (forall who | who in st.sessions && st.sessions[who].authenticated && who in st.archive ::
          Restorable(st, who, st.sessions[who].epoch))
  }

  /** Every authenticated session can be restored from its archive. */
  ghost predicate Archived(st: State) {
    forall who | who in st.sessions && st.sessions[who].authenticated :: Restorable(st, who, st.sessions[who].epoch)
  }

  const EMPTY := State(map[], map[], map[], 0)

  /** The bindings that carry credentials: those of sessions, with their runtimes, and of archives. */
  ghost predicate Known(st: State, b: Binding) {
    || (exists who :: who in st.sessions && Binding(who, st.sessions[who].epoch) == b)
    || (exists who :: who in st.archive && st.archive[who] == b)
  }

  ghost predicate SameRuntimes(st: State, after: State, who: Identity) {
    && (forall p | p in st.runtimes && st.runtimes[p].who != who ::
          p in after.runtimes && after.runtimes[p] == st.runtimes[p])
    && (forall p | p in after.runtimes && after.runtimes[p].who != who ::
          p in st.runtimes && after.runtimes[p] == st.runtimes[p])
  }

  /** From `st` to `after` the books stay in order, only `who` is touched, and at most `minted` is newly bound. */
  ghost predicate Orderly(st: State, after: State, who: Identity, minted: set<Binding>) {
    && Owned(after) && (Archived(st) ==> Archived(after))
    && (forall other | other != who :: other in after.sessions <==> other in st.sessions)
    && (forall other | other != who && other in st.sessions :: after.sessions[other] == st.sessions[other])
    && (forall other | other != who :: other in after.archive <==> other in st.archive)
    && (forall other | other != who && other in st.archive :: after.archive[other] == st.archive[other])
    && SameRuntimes(st, after, who)
    && (forall b | Known(after, b) :: Known(st, b) || b in minted)
  }

  lemma {:induction false} MaterializeIsOrderly(st: State, who: Identity, epoch: nat)
    requires Owned(st)
    ensures Orderly(st, Materialize(st, who, epoch), who, {})
  {
  }

  lemma {:induction false} RegisterIsOrderly(st: State, who: Identity, s: Session)
    requires Owned(st) && who !in st.sessions && s.home in st.runtimes && st.runtimes[s.home] == Binding(who, s.epoch)
    requires s.authenticated ==> Restorable(st, who, s.epoch)
    ensures Orderly(st, Amend(st, who, s), who, {Binding(who, s.epoch)})
  {
  }

  lemma {:induction false} OrderlyInTwo(st: State, middle: State, after: State, who: Identity,
                                        m: set<Binding>, n: set<Binding>)
    requires Orderly(st, middle, who, m) && Orderly(middle, after, who, n)
    ensures Orderly(st, after, who, m + n)
  {
  }

  lemma {:induction false} LaunchIsOrderly(st: State, who: Identity, s: Session)
    requires Owned(st) && who !in st.sessions && s.home == st.nextPath
    requires s.authenticated ==> Restorable(st, who, s.epoch)
    ensures Orderly(st, Launch(st, who, s), who, {Binding(who, s.epoch)})
  {
    MaterializeIsOrderly(st, who, s.epoch);
    var made := Materialize(st, who, s.epoch);
    RegisterIsOrderly(made, who, s);
    OrderlyInTwo(st, made, Launch(st, who, s), who, {}, {Binding(who, s.epoch)});
    assert {} + {Binding(who, s.epoch)} == {Binding(who, s.epoch)};
  }

  lemma {:induction false} AbandonIsOrderly(st: State, who: Identity, epoch: nat, releases: bool)
    requires Owned(st)
    ensures Orderly(st, Abandon(st, who, epoch, releases), who, {})
    ensures releases ==> Abandon(st, who, epoch, releases) == st.(nextPath := st.nextPath + 1)
  {
    if releases {
      assert st.nextPath !in st.runtimes;
      assert Abandon(st, who, epoch, releases).runtimes == st.runtimes;
    } else {
      MaterializeIsOrderly(st, who, epoch);
    }
  }

  lemma {:induction false} AmendIsOrderly(st: State, who: Identity, s: Session)
    requires Owned(st) && who in st.sessions
    requires s.home == st.sessions[who].home && s.epoch == st.sessions[who].epoch
    requires s.authenticated ==> st.sessions[who].authenticated || Restorable(st, who, s.epoch)
    ensures Orderly(st, Amend(st, who, s), who, {})
  {
  }

  lemma {:induction false} PersistIsOrderly(st: State, who: Identity)
    requires Owned(st) && who in st.sessions
    ensures var after := Persist(st, st.sessions[who].home);
            Orderly(st, after, who, {}) && Restorable(after, who, st.sessions[who].epoch)
  {
  }

  lemma {:induction false} DetachIsOrderly(st: State, who: Identity)
    requires Owned(st) && who in st.sessions
    ensures Orderly(st, Detach(st, who), who, {})
  {
  }

  lemma {:induction false} PopIsOrderly(st: State, who: Identity)
    requires Owned(st) && who in st.sessions
    ensures Orderly(st, st.(sessions := st.sessions - {who}), who, {})
  {
  }

  lemma {:induction false} ForgetIsOrderly(st: State, who: Identity)
    requires Owned(st) && who !in st.sessions
    ensures Orderly(st, Forget(st, who), who, {})
  {
  }

  lemma {:induction false} DiscardIsOrderly(st: State, who: Identity, d: Disposal)
    requires Owned(st)
    ensures Orderly(st, Discard(st, who, d), who, {})
    ensures who !in Discard(st, who, d).sessions
    ensures !DiscardRaises(st, who, d) ==> who !in Discard(st, who, d).archive
  {
    if who !in st.sessions {
      ForgetIsOrderly(st, who);
    } else if !d.releases {
      PopIsOrderly(st, who);
    } else {
      DetachIsOrderly(st, who);
      if d.closes && d.forgets {
        ForgetIsOrderly(Detach(st, who), who);
        OrderlyInTwo(st, Detach(st, who), Discard(st, who, d), who, {}, {});
      }
    }
  }

  lemma {:induction false} StartFreshIsOrderly(st: State, who: Identity, c: Call)
    requires Owned(st) && who !in st.sessions && c.CallStart?
    ensures Orderly(st, StartFresh(st, who, c).0, who, {Binding(who, c.epoch)})
  {
    match c.making
    case NotMade =>
    case HalfWritten => MaterializeIsOrderly(st, who, c.epoch);
    case Made =>
      if !c.transportUp {
        AbandonIsOrderly(st, who, c.epoch, c.releases);
      } else {
        var session := NewSession(st.nextPath, c);
        var running := Launch(st, who, session);
        LaunchIsOrderly(st, who, session);
        if !c.freshIsEmpty || c.login.None? {
          DiscardIsOrderly(running, who, c.end);
        } else {
          AmendIsOrderly(running, who, session.(loginId := c.login, hasChallenge := true));
        }
        OrderlyInTwo(st, running, StartFresh(st, who, c).0, who, {Binding(who, c.epoch)}, {});
        assert {Binding(who, c.epoch)} + {} == {Binding(who, c.epoch)};
      }
  }

  lemma {:induction false} StartIsOrderly(st: State, who: Identity, c: Call)
    requires Owned(st) && c.CallStart?
    ensures Orderly(st, Start(st, who, c).0, who, {Binding(who, c.epoch)})
  {
    if c.flowOffered && who !in st.sessions {
      StartFreshIsOrderly(st, who, c);
    } else if c.flowOffered {
      DiscardIsOrderly(st, who, c.prior);
      if !DiscardRaises(st, who, c.prior) {
        StartFreshIsOrderly(Discard(st, who, c.prior), who, c);
        OrderlyInTwo(st, Discard(st, who, c.prior), Start(st, who, c).0, who, {}, {Binding(who, c.epoch)});
        assert {} + {Binding(who, c.epoch)} == {Binding(who, c.epoch)};
      }
    }
  }

  lemma {:induction false} RestoreIsOrderly(st: State, who: Identity, c: Call)
    requires c.CallRefresh? && Owned(st) && who !in st.sessions
    ensures Orderly(st, Restore(st, who, c).0, who, {})
    ensures Restore(st, who, c).1 ==> who in Restore(st, who, c).0.sessions
  {
    match c.making
    case NotMade =>
    case HalfWritten => MaterializeIsOrderly(st, who, c.epoch);
    case Made =>
      if !(c.archiveReadable && Restorable(st, who, c.epoch)) || !c.transportUp {
        AbandonIsOrderly(st, who, c.epoch, c.releases);
      } else {
        LaunchIsOrderly(st, who, Restored(st.nextPath, c));
        assert Known(st, st.archive[who]);
      }
  }

  lemma {:induction false} AttachIsOrderly(st: State, who: Identity, c: Call)
    requires c.CallRefresh? && Owned(st)
    ensures Orderly(st, Attach(st, who, c).0, who, {})
    ensures Attach(st, who, c).1 ==> who in Attach(st, who, c).0.sessions
  {
    if ConsentChanged(st, who, c.epoch, c.revision) {
      if c.prior.closes && c.prior.releases {
        DetachIsOrderly(st, who);
        RestoreIsOrderly(Detach(st, who), who, c);
      }
    } else if who !in st.sessions {
      RestoreIsOrderly(st, who, c);
    }
  }

  lemma {:induction false} ConcludeIsOrderly(st: State, who: Identity, c: Call)
    requires Owned(st) && c.CallRefresh? && who in st.sessions
    ensures Orderly(st, Conclude(st, who, c).0, who, {})
  {
    var s := st.sessions[who];
    if s.completed || s.authenticated {
      match c.account
      case ReadFailed =>
      case NoChatAccount => DiscardIsOrderly(st, who, c.end);
      case ChatAccount => AuthenticateIsOrderly(st, who, c);
    }
  }

  lemma {:induction false} AuthenticateIsOrderly(st: State, who: Identity, c: Call)
    requires Owned(st) && c.CallRefresh? && who in st.sessions && c.account == ChatAccount
    ensures Orderly(st, Conclude(st, who, c).0, who, {})
  {
    var s := st.sessions[who];
    PersistIsOrderly(st, who);
    AmendIsOrderly(if s.authenticated then st else Persist(st, s.home), who,
                   s.(authenticated := true, hasChallenge := false));
  }

  lemma {:induction false} InspectIsOrderly(st: State, who: Identity, c: Call)
    requires Owned(st) && c.CallRefresh? && who in st.sessions
    ensures Orderly(st, Inspect(st, who, c).0, who, {})
  {
    var s := st.sessions[who];
    var absorbed := Absorb(c.events, s.loginId, s.completed);
    if (!s.authenticated && c.now >= s.expires) || absorbed.None? {
      DiscardIsOrderly(st, who, c.end);
    } else {
      AmendIsOrderly(st, who, s.(completed := absorbed.value));
      ConcludeIsOrderly(Amend(st, who, s.(completed := absorbed.value)), who, c);
    }
  }

  lemma {:induction false} ShutdownIsOrderly(st: State, who: Identity, c: Call)
    requires Owned(st) && c.CallShutdown?
    ensures Orderly(st, Shutdown(st, who, c).0, who, {})
  {
    if who !in st.sessions || !st.sessions[who].authenticated {
      DiscardIsOrderly(st, who, c.end);
    } else {
      PersistIsOrderly(st, who);
      DetachIsOrderly(st, who);
      var saved := Persist(st, st.sessions[who].home);
      DetachIsOrderly(saved, who);
      OrderlyInTwo(st, saved, Detach(saved, who), who, {}, {});
    }
  }

  lemma {:induction false} RefreshIsOrderly(st: State, who: Identity, c: Call)
    requires Owned(st) && c.CallRefresh?
    ensures Orderly(st, Refresh(st, who, c).0, who, {})
  {
    AttachIsOrderly(st, who, c);
    var (attached, ok) := Attach(st, who, c);
    if ok && attached.sessions[who].epoch == c.epoch && attached.sessions[who].revision == c.revision {
      InspectIsOrderly(attached, who, c);
      OrderlyInTwo(st, attached, Inspect(attached, who, c).0, who, {}, {});
    }
  }

  /** Every call, whatever the app server and the file system answer, keeps the books in order,
      leaves the other identities alone, and binds nothing new but the epoch it was asked to start. */
  lemma {:induction false} RunIsOrderly(st: State, who: Identity, c: Call)
    requires Owned(st)
    ensures Orderly(st, Run(st, who, c).0, who, if c.CallStart? then {Binding(who, c.epoch)} else {})
  {
    match c
    case CallStart(_, _, _, _, _, _, _, _, _, _, _, _) => StartIsOrderly(st, who, c);
    case CallRefresh(_, _, _, _, _, _, _, _, _, _, _, _) => RefreshIsOrderly(st, who, c);
    case CallCancel(_, end) => DiscardIsOrderly(st, who, end);
    case CallLogout(_, end) => DiscardIsOrderly(st, who, end);
    case CallDiscardEpoch(_, end) => DiscardIsOrderly(st, who, end);
    case CallShutdown(_, _) => ShutdownIsOrderly(st, who, c);
  }

  lemma {:induction false} DiscardForgetsAmendment(st: State, who: Identity, s: Session, d: Disposal)
    requires who in st.sessions && s.home == st.sessions[who].home
    ensures Discard(Amend(st, who, s), who, d) == Discard(st, who, d)
  {
    assert Amend(st, who, s).sessions - {who} == st.sessions - {who};
  }

  // ----- runtimes that no session owns

  function Orphans(st: State): set<Path> {
    set p | p in st.runtimes && !(st.runtimes[p].who in st.sessions && st.sessions[st.runtimes[p].who].home == p)
  }

  /** Sessions and registered runtimes correspond one to one. */
  predicate Matched(st: State) {
    Orphans(st) == {}
  }

  /** Whether a refresh ends this session. */
  predicate EndsSession(s: Session, c: Call)
    requires c.CallRefresh?
  {
    if !s.authenticated && c.now >= s.expires then true
    else match Absorb(c.events, s.loginId, s.completed)
      case None => true
      case Some(done) => (done || s.authenticated) && c.account == NoChatAccount
  }

  /** A new runtime is lost when it is not written to the end, or when it is of no use and cannot be removed. */
  predicate LosesNew(making: Making, useful: bool, releases: bool) {
    making == HalfWritten || (making == Made && !useful && !releases)
  }

  predicate LosesOld(st: State, who: Identity, d: Disposal) {
    who in st.sessions && !d.releases
  }

  /** A refresh that cannot use a session of the identity tries to restore one: when there is none, or when one that
      outlived a change of consent got out of the way. */
  predicate Restores(st: State, who: Identity, c: Call)
    requires c.CallRefresh?
  {
    if ConsentChanged(st, who, c.epoch, c.revision) then c.prior.closes && c.prior.releases else who !in st.sessions
  }

  /** The session that was there is looked at as it is. */
  predicate Looks(st: State, who: Identity, c: Call)
    requires c.CallRefresh?
  {
    who in st.sessions && st.sessions[who].epoch == c.epoch && st.sessions[who].revision == c.revision
  }

  /** Exactly the failures after which a runtime stays registered without a session. */
  predicate LeavesOrphan(st: State, who: Identity, c: Call) {
    match c
    case CallStart(_, _, _, offered, prior, making, up, releases, empty, login, _, end) =>
      && offered
      && if who in st.sessions && DiscardRaises(st, who, prior) then !prior.releases
         else LosesNew(making, up, releases) || (making == Made && up && (!empty || login.None?) && !end.releases)
    case CallRefresh(epoch, _, _, making, readable, up, releases, _, _, _, _, end) =>
      if Restores(st, who, c) then
        var useful := readable && Restorable(st, who, epoch) && up;
        || LosesNew(making, useful, releases)
        || (making == Made && useful && EndsSession(Restored(st.nextPath, c), c) && !end.releases)
      else Looks(st, who, c) && EndsSession(st.sessions[who], c) && !end.releases
    case CallCancel(_, end) => LosesOld(st, who, end)
    case CallLogout(_, end) => LosesOld(st, who, end)
    case CallDiscardEpoch(epoch, end) => LosesOld(st, who, end) && st.sessions[who].epoch == epoch
    case CallShutdown(_, end) => LosesOld(st, who, end) && !st.sessions[who].authenticated
  }

  /** After `after` there is one orphan more, or none more, than before. */
  ghost predicate Accounted(st: State, after: State, more: bool) {
    Orphans(st) <= Orphans(after) && |Orphans(after)| == |Orphans(st)| + if more then 1 else 0
  }

  lemma {:induction false} OneOrphanMore(st: State, after: State, p: Path)
    requires p !in Orphans(st) && Orphans(after) == Orphans(st) + {p}
    ensures Accounted(st, after, true)
  {
  }

  lemma {:induction false} MaterializeOrphans(st: State, who: Identity, epoch: nat)
    requires Owned(st)
    ensures Accounted(st, Materialize(st, who, epoch), true)
  {
    OneOrphanMore(st, Materialize(st, who, epoch), st.nextPath);
  }

  lemma {:induction false} LaunchOrphans(st: State, who: Identity, s: Session)
    requires Owned(st) && who !in st.sessions && s.home == st.nextPath
    ensures Orphans(Launch(st, who, s)) == Orphans(st)
  {
  }

  lemma {:induction false} AmendOrphans(st: State, who: Identity, s: Session)
    requires who in st.sessions && s.home == st.sessions[who].home
    ensures Orphans(Amend(st, who, s)) == Orphans(st)
  {
  }

  lemma {:induction false} DetachOrphans(st: State, who: Identity)
    requires Owned(st) && who in st.sessions
    ensures Orphans(Detach(st, who)) == Orphans(st)
  {
  }

  lemma {:induction false} DiscardOrphans(st: State, who: Identity, d: Disposal)
    requires Owned(st)
    ensures Accounted(st, Discard(st, who, d), LosesOld(st, who, d))
  {
    var after := Discard(st, who, d);
    if LosesOld(st, who, d) {
      assert Orphans(after) == Orphans(st) + {st.sessions[who].home};
      OneOrphanMore(st, after, st.sessions[who].home);
    } else if who in st.sessions {
      assert Orphans(after) == Orphans(Detach(st, who));
      DetachOrphans(st, who);
    } else {
      assert Orphans(after) == Orphans(st);
    }
  }

  lemma {:induction false} AbandonOrphans(st: State, who: Identity, epoch: nat, releases: bool)
    requires Owned(st)
    ensures Accounted(st, Abandon(st, who, epoch, releases), !releases)
  {
    AbandonIsOrderly(st, who, epoch, releases);
    if releases {
      assert Orphans(Abandon(st, who, epoch, releases)) == Orphans(st);
    } else {
      MaterializeOrphans(st, who, epoch);
    }
  }

  lemma {:induction false} StartFreshOrphans(st: State, who: Identity, c: Call)
    requires Owned(st) && who !in st.sessions && c.CallStart?
    ensures Accounted(st, StartFresh(st, who, c).0,
                      LosesNew(c.making, c.transportUp, c.releases)
                      || (c.making == Made && c.transportUp && (!c.freshIsEmpty || c.login.None?) && !c.end.releases))
  {
    match c.making
    case NotMade =>
    case HalfWritten => MaterializeOrphans(st, who, c.epoch);
    case Made =>
      if !c.transportUp {
        AbandonOrphans(st, who, c.epoch, c.releases);
      } else {
        var session := NewSession(st.nextPath, c);
        var running := Launch(st, who, session);
        LaunchIsOrderly(st, who, session);
        LaunchOrphans(st, who, session);
        if !c.freshIsEmpty || c.login.None? {
          DiscardOrphans(running, who, c.end);
        } else {
          AmendOrphans(running, who, session.(loginId := c.login, hasChallenge := true));
        }
      }
  }

  lemma {:induction false} StartOrphans(st: State, who: Identity, c: Call)
    requires Owned(st) && c.CallStart?
    ensures Accounted(st, Start(st, who, c).0, LeavesOrphan(st, who, c))
  {
    if c.flowOffered && who !in st.sessions {
      StartFreshOrphans(st, who, c);
    } else if c.flowOffered {
      DiscardOrphans(st, who, c.prior);
      if !DiscardRaises(st, who, c.prior) {
        DiscardIsOrderly(st, who, c.prior);
        StartFreshOrphans(Discard(st, who, c.prior), who, c);
      }
    }
  }

  lemma {:induction false} RestoreOrphans(st: State, who: Identity, c: Call)
    requires Owned(st) && who !in st.sessions && c.CallRefresh?
    ensures Accounted(st, Restore(st, who, c).0,
                      LosesNew(c.making, c.archiveReadable && Restorable(st, who, c.epoch) && c.transportUp,
                               c.releases))
  {
    match c.making
    case NotMade =>
    case HalfWritten => MaterializeOrphans(st, who, c.epoch);
    case Made =>
      if !(c.archiveReadable && Restorable(st, who, c.epoch)) || !c.transportUp {
        AbandonOrphans(st, who, c.epoch, c.releases);
      } else {
        LaunchOrphans(st, who, Restored(st.nextPath, c));
      }
  }

  lemma {:induction false} InspectOrphans(st: State, who: Identity, c: Call)
    requires Owned(st) && c.CallRefresh? && who in st.sessions
    ensures Accounted(st, Inspect(st, who, c).0, EndsSession(st.sessions[who], c) && !c.end.releases)
  {
    var s := st.sessions[who];
    var absorbed := Absorb(c.events, s.loginId, s.completed);
    if (!s.authenticated && c.now >= s.expires) || absorbed.None? {
      DiscardOrphans(st, who, c.end);
    } else {
      var amended := Amend(st, who, s.(completed := absorbed.value));
      AmendOrphans(st, who, s.(completed := absorbed.value));
      AmendIsOrderly(st, who, s.(completed := absorbed.value));
      ConcludeOrphans(amended, who, c);
    }
  }

  lemma {:induction false} ConcludeOrphans(st: State, who: Identity, c: Call)
    requires Owned(st) && c.CallRefresh? && who in st.sessions
    ensures var s := st.sessions[who];
            Accounted(st, Conclude(st, who, c).0,
                      (s.completed || s.authenticated) && c.account == NoChatAccount && !c.end.releases)
  {
    var s := st.sessions[who];
    if (s.completed || s.authenticated) && c.account == NoChatAccount {
      DiscardOrphans(st, who, c.end);
    } else {
      AmendOrphans(st, who, s.(authenticated := true, hasChallenge := false));
      assert Orphans(Conclude(st, who, c).0) == Orphans(st);
    }
  }

  lemma {:induction false} AttachOrphans(st: State, who: Identity, c: Call)
    requires Owned(st) && c.CallRefresh?
    ensures Accounted(st, Attach(st, who, c).0,
                      Restores(st, who, c)
                      && LosesNew(c.making, c.archiveReadable && Restorable(st, who, c.epoch) && c.transportUp,
                                  c.releases))
  {
    if ConsentChanged(st, who, c.epoch, c.revision) {
      if c.prior.closes && c.prior.releases {
        DetachIsOrderly(st, who);
        DetachOrphans(st, who);
        RestoreOrphans(Detach(st, who), who, c);
      }
    } else if who !in st.sessions {
      RestoreOrphans(st, who, c);
    }
  }

  lemma {:induction false} AttachedSession(st: State, who: Identity, c: Call)
    requires c.CallRefresh?
    ensures var (attached, ok) := Attach(st, who, c);
            if Restores(st, who, c) then
              && (ok <==> c.making == Made && c.archiveReadable && Restorable(st, who, c.epoch) && c.transportUp)
              && (ok ==> who in attached.sessions && attached.sessions[who] == Restored(st.nextPath, c))
            else
              && (ok ==> attached == st && who in st.sessions)
              && (!ok ==> ConsentChanged(st, who, c.epoch, c.revision))
  {
  }

  lemma {:induction false} RefreshOrphans(st: State, who: Identity, c: Call)
    requires Owned(st) && c.CallRefresh?
    ensures Accounted(st, Refresh(st, who, c).0, LeavesOrphan(st, who, c))
  {
    AttachIsOrderly(st, who, c);
    AttachOrphans(st, who, c);
    AttachedSession(st, who, c);
    var (attached, ok) := Attach(st, who, c);
    if ok {
      InspectOrphans(attached, who, c);
    }
  }

  lemma {:induction false} ShutdownOrphans(st: State, who: Identity, c: Call)
    requires Owned(st) && c.CallShutdown?
    ensures Accounted(st, Shutdown(st, who, c).0, LeavesOrphan(st, who, c))
  {
    if who !in st.sessions || !st.sessions[who].authenticated {
      DiscardOrphans(st, who, c.end);
    } else {
      PersistIsOrderly(st, who);
      var saved := Persist(st, st.sessions[who].home);
      assert Orphans(saved) == Orphans(st);
      DetachOrphans(st, who);
      DetachOrphans(saved, who);
    }
  }

  /** Every call leaves exactly as many runtimes without a session as there were, and one more exactly on the
      failures named: so the correspondence of sessions and runtimes survives a call if and only if none occurs. */
  lemma {:induction false} OrphansAreCounted(st: State, who: Identity, c: Call)
    requires Owned(st)
    ensures Accounted(st, Run(st, who, c).0, LeavesOrphan(st, who, c))
    ensures Matched(Run(st, who, c).0) <==> Matched(st) && !LeavesOrphan(st, who, c)
  {
    match c {
      case CallStart(_, _, _, _, _, _, _, _, _, _, _, _) => StartOrphans(st, who, c);
      case CallRefresh(_, _, _, _, _, _, _, _, _, _, _, _) => RefreshOrphans(st, who, c);
      case CallCancel(_, end) => DiscardOrphans(st, who, end);
      case CallLogout(_, end) => DiscardOrphans(st, who, end);
      case CallDiscardEpoch(_, end) => DiscardOrphans(st, who, end);
      case CallShutdown(_, _) => ShutdownOrphans(st, who, c);
    }
    if Orphans(Run(st, who, c).0) == {} {
      assert |Orphans(st)| == 0;
    }
  }

  /** A full disk while the first login of an identity is being set up: the call raises, there is no session,
      and its runtime stays registered. */
  lemma {:induction false} FullDiskLeavesAnOrphan(who: Identity)
    ensures var ok := Disposal(true, true, true);
            var c := CallStart(1, 1, "attempt", true, ok, HalfWritten, true, true, true, Some("login"), 600, ok);
            && Owned(EMPTY) && Matched(EMPTY)
            && Run(EMPTY, who, c) == (State(map[], map[0 := Binding(who, 1)], map[], 1), Raised)
            && Orphans(Run(EMPTY, who, c).0) == {0}
  {
  }

  // ----- histories of the bridge

  /** The loop of `close`, as far as it gets. */
  ghost function ShutdownAll(st: State, whos: seq<Identity>, answers: seq<Call>): (after: State)
    requires Owned(st) && |answers| == |whos| && forall c | c in answers :: c.CallShutdown?
    ensures Owned(after)
  {
    if whos == [] then st
    else
      var n := |whos| - 1;
      var before := ShutdownAll(st, whos[..n], answers[..n]);
      RunIsOrderly(before, whos[n], answers[n]);
      Run(before, whos[n], answers[n]).0
  }

  // Lost: an archive file disappears without the bridge having a hand in it
  datatype Step = Step(who: Identity, call: Call) | Lost(who: Identity)

  function After(st: State, step: Step): State
    requires Owned(st)
  {
    match step case Step(who, call) => Run(st, who, call).0 case Lost(who) => Forget(st, who)
  }

  lemma {:induction false} StepKeepsBooks(st: State, step: Step)
    requires Owned(st)
    ensures Owned(After(st, step))
    ensures forall b | Known(After(st, step), b) ::
              Known(st, b) || (step.Step? && step.call.CallStart? && b == Binding(step.who, step.call.epoch))
    ensures Accounted(st, After(st, step), step.Step? && LeavesOrphan(st, step.who, step.call))
  {
    if step.Step? {
      RunIsOrderly(st, step.who, step.call);
      OrphansAreCounted(st, step.who, step.call);
    } else {
      assert Orphans(Forget(st, step.who)) == Orphans(st);
    }
  }

  ghost function Play(st: State, steps: seq<Step>): State
    requires Owned(st)
    ensures Owned(Play(st, steps))
    decreases |steps|
  {
    if steps == [] then st
    else
      StepKeepsBooks(st, steps[0]);
      Play(After(st, steps[0]), steps[1..])
  }

  /** How many calls of a history left an orphan. */
  ghost function Losses(st: State, steps: seq<Step>): nat
    requires Owned(st)
    decreases |steps|
  {
    if steps == [] then 0
    else
      StepKeepsBooks(st, steps[0]);
      (if steps[0].Step? && LeavesOrphan(st, steps[0].who, steps[0].call) then 1 else 0)
      + Losses(After(st, steps[0]), steps[1..])
  }

  /** Over any history the runtimes without a session are exactly those of the failures named. */
  lemma {:induction false} LossesAreOrphans(st: State, steps: seq<Step>)
    requires Owned(st)
    ensures |Orphans(Play(st, steps))| == |Orphans(st)| + Losses(st, steps)
    ensures Matched(st) ==> (Matched(Play(st, steps)) <==> Losses(st, steps) == 0)
    decreases |steps|
  {
    if steps != [] {
      StepKeepsBooks(st, steps[0]);
      LossesAreOrphans(After(st, steps[0]), steps[1..]);
    }
  }

  ghost predicate StartedIn(steps: seq<Step>, b: Binding) {
    exists i :: 0 <= i < |steps| && StartsAt(steps, i, b)
  }

  ghost predicate StartsAt(steps: seq<Step>, i: nat, b: Binding)
    requires i < |steps|
  {
    steps[i].Step? && steps[i].who == b.who && steps[i].call.CallStart? && steps[i].call.epoch == b.epoch
  }

  /** Sessions, with their runtimes, and archives are never bound to an epoch the bridge was not asked to start. */
  lemma {:induction false} BindingsComeFromStarts(steps: seq<Step>, st: State, b: Binding)
    requires Owned(st)
    requires Known(Play(st, steps), b)
    ensures Known(st, b) || StartedIn(steps, b)
    decreases |steps|
  {
    if steps != [] {
      StepKeepsBooks(st, steps[0]);
      BindingsComeFromStarts(steps[1..], After(st, steps[0]), b);
      if StartedIn(steps[1..], b) {
        var i :| 0 <= i < |steps[1..]| && StartsAt(steps[1..], i, b);
        assert StartsAt(steps, i + 1, b);
      } else if !Known(st, b) {
        assert StartsAt(steps, 0, b);
      }
    }
  }

  /** As long as no archive file disappears, every authenticated session stays restorable. */
  lemma {:induction false} AuthenticatedStayArchived(st: State, steps: seq<Step>)
    requires Owned(st) && Archived(st) && forall i | 0 <= i < |steps| :: steps[i].Step?
    ensures Archived(Play(st, steps))
    decreases |steps|
  {
    if steps != [] {
      StepKeepsBooks(st, steps[0]);
      RunIsOrderly(st, steps[0].who, steps[0].call);
      AuthenticatedStayArchived(After(st, steps[0]), steps[1..]);
    }
  }

  // ----- what the bookkeeping is for

  /** After the user changes consent, a refresh under the new connection revision restores the same login. */
  lemma {:induction false} RefreshSurvivesConsentChange(st: State, who: Identity, c: Call)
    requires Owned(st) && Archived(st) && who in st.sessions && st.sessions[who].authenticated
    requires c.CallRefresh? && c.epoch == st.sessions[who].epoch
    requires c.prior.closes && c.prior.releases && c.making == Made && c.archiveReadable && c.transportUp
    requires c.account == ChatAccount && forall e | e in c.events :: e.LoginCompleted? ==> e.success
    ensures var (after, reply) := Run(st, who, c);
            && reply == Answer(Authenticated)
            && who in after.sessions && after.sessions[who].authenticated
            && after.sessions[who].epoch == c.epoch && after.sessions[who].revision == c.revision
            && Restorable(after, who, c.epoch)
  {
    var restored := Restored(st.nextPath, c);
    var base := if ConsentChanged(st, who, c.epoch, c.revision) then Launch(Detach(st, who), who, restored) else st;
    AttachIsOrderly(st, who, c);
    assert Attach(st, who, c) == (base, true);
    NoFailureIsAbsorbed(c.events, base.sessions[who].loginId, base.sessions[who].completed);
    AuthenticatedStays(base, who, c);
  }

  lemma {:induction false} AuthenticatedStays(st: State, who: Identity, c: Call)
    requires Owned(st) && Archived(st) && c.CallRefresh? && who in st.sessions && st.sessions[who].authenticated
    requires c.account == ChatAccount && Absorb(c.events, st.sessions[who].loginId, st.sessions[who].completed).Some?
    ensures var (after, reply) := Inspect(st, who, c);
            && reply == Answer(Authenticated)
            && who in after.sessions && after.sessions[who].authenticated
            && after.sessions[who].epoch == st.sessions[who].epoch
            && after.sessions[who].revision == st.sessions[who].revision
            && Restorable(after, who, st.sessions[who].epoch)
  {
  }

  lemma {:induction false} NoFailureIsAbsorbed(events: seq<Event>, loginId: Option<string>, completed: bool)
    requires forall e | e in events :: e.LoginCompleted? ==> e.success
    ensures Absorb(events, loginId, completed).Some?
  {
    if events != [] {
      assert events[0] in events;
      assert forall e | e in events[1..] :: e in events;
      var e := events[0];
      NoFailureIsAbsorbed(events[1..], loginId, completed || (e.LoginCompleted? && e.loginId == loginId));
    }
  }

  /** A shutdown that gets through keeps an authenticated login restorable exactly if its archive is there or is
      written again; when it is missing and writing fails, the login is gone. No other session leaves an archive. */
  lemma {:induction false} ShutdownKeepsAuthenticatedLogins(st: State, who: Identity, c: Call)
    requires Owned(st) && who in st.sessions && c.CallShutdown? && c.end == Disposal(true, true, true)
    ensures var after := Run(st, who, c).0;
            && who !in after.sessions && st.sessions[who].home !in after.runtimes
            && (st.sessions[who].authenticated ==>
                  (Restorable(after, who, st.sessions[who].epoch) <==> who in st.archive || c.persistWorks))
            && (st.sessions[who].authenticated && who !in st.archive && !c.persistWorks ==>
                  who !in after.archive && Run(st, who, c).1 == Raised)
            && (!st.sessions[who].authenticated ==> who !in after.archive)
  {
  }

  /** Session and archive of the identity are the same in both states. */
  ghost predicate Untouched(st: State, after: State, who: Identity) {
    && (who in after.sessions <==> who in st.sessions)
    && (who in st.sessions ==> after.sessions[who] == st.sessions[who])
    && (who in after.archive <==> who in st.archive)
    && (who in st.archive ==> after.archive[who] == st.archive[who])
  }

  lemma {:induction false} OthersAreUntouched(st: State, who: Identity, c: Call, other: Identity)
    requires Owned(st) && other != who
    ensures Untouched(st, Run(st, who, c).0, other)
  {
    RunIsOrderly(st, who, c);
  }

  lemma {:induction false} ClosingOthersLeaves(st: State, whos: seq<Identity>, answers: seq<Call>, who: Identity)
    requires Owned(st) && |answers| == |whos| && (forall c | c in answers :: c.CallShutdown?) && who !in whos
    ensures Untouched(st, ShutdownAll(st, whos, answers), who)
  {
    if whos != [] {
      var n := |whos| - 1;
      ClosingOthersLeaves(st, whos[..n], answers[..n], who);
      OthersAreUntouched(ShutdownAll(st, whos[..n], answers[..n]), whos[n], answers[n], who);
    }
  }

  lemma {:induction false} LastOneClosed(st: State, whos: seq<Identity>, answers: seq<Call>)
    requires Owned(st) && whos != [] && |answers| == |whos| && forall c | c in answers :: c.CallShutdown?
    requires var (who, c) := (whos[|whos| - 1], answers[|whos| - 1]);
             who !in whos[..|whos| - 1] && who in st.sessions && st.sessions[who].authenticated
             && c.CallShutdown? && c.end == Disposal(true, true, true)
    ensures var (who, c, after) := (whos[|whos| - 1], answers[|whos| - 1], ShutdownAll(st, whos, answers));
            && who !in after.sessions
            && (Restorable(after, who, st.sessions[who].epoch) <==> who in st.archive || c.persistWorks)
  {
    var n := |whos| - 1;
    ClosingOthersLeaves(st, whos[..n], answers[..n], whos[n]);
    ShutdownKeepsAuthenticatedLogins(ShutdownAll(st, whos[..n], answers[..n]), whos[n], answers[n]);
  }

  /** When the bridge closes, each authenticated login it gets to can be restored afterwards, whatever happens to the
      others, exactly if its archive was there or is written in its round. */
  lemma {:induction false} CloseKeepsLogins(st: State, whos: seq<Identity>, answers: seq<Call>, k: nat)
    requires Owned(st) && |answers| == |whos| && forall c | c in answers :: c.CallShutdown?
    requires k < |whos| && forall i, j | 0 <= i < j < |whos| :: whos[i] != whos[j]
    requires whos[k] in st.sessions && st.sessions[whos[k]].authenticated
    requires answers[k].CallShutdown? && answers[k].end == Disposal(true, true, true)
    ensures var after := ShutdownAll(st, whos, answers);
            && whos[k] !in after.sessions
            && (Restorable(after, whos[k], st.sessions[whos[k]].epoch) <==>
                whos[k] in st.archive || answers[k].persistWorks)
  {
    var n := |whos| - 1;
    if k == n {
      LastOneClosed(st, whos, answers);
    } else {
      CloseKeepsLogins(st, whos[..n], answers[..n], k);
      OthersAreUntouched(ShutdownAll(st, whos[..n], answers[..n]), whos[n], answers[n], whos[k]);
    }
  }

  /** After a logout or a cancellation that raised nothing, nothing of the identity is left but what earlier
      failures had left already. */
  lemma {:induction false} LogoutLeavesNothing(st: State, who: Identity, c: Call)
    requires Owned(st) && (c.CallLogout? || c.CallCancel?) && Run(st, who, c).1.Answer?
    ensures var after := Run(st, who, c).0;
            && who !in after.sessions && who !in after.archive
            && forall p | p in after.runtimes && after.runtimes[p].who == who :: p in Orphans(st)
  {
    RunIsOrderly(st, who, c);
  }
}
