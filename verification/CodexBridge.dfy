/** The login bridge and its credential store as objects that change in place; each method is proved to do
    exactly what the matching call of `BridgeState` says (backend/fund_kb/codex_bridge.py). */
module CodexBridge {
  import opened Wrappers
  import opened BridgeState

  class AuthStore {
    var runtimes: map<Path, Binding>
    var archive: map<Identity, Binding>
    var nextPath: Path

    constructor ()
      ensures runtimes == map[] && archive == map[] && nextPath == 0
    {
      runtimes, archive, nextPath := map[], map[], 0;
    }

    predicate Holds(who: Identity, epoch: nat)
      reads this
    {
      who in archive && archive[who] == Binding(who, epoch)
    }

    /** A fresh runtime directory, registered before anything is written into it; with `restore`, the archived
        credential is copied into it, or it is released again. None when anything raised. */
    method Materialize(who: Identity, epoch: nat, making: Making, restore: bool, readable: bool, releases: bool)
      returns (home: Option<Path>)
      modifies this
      ensures archive == old(archive)
      ensures home == if making == Made && (restore ==> readable && old(Holds(who, epoch)))
                      then Some(old(nextPath)) else None
      ensures home.Some? ==> runtimes == old(runtimes)[old(nextPath) := Binding(who, epoch)]
      ensures making == NotMade ==> runtimes == old(runtimes) && nextPath == old(nextPath)
      ensures making != NotMade ==> nextPath == old(nextPath) + 1
      ensures making == HalfWritten ==> runtimes == old(runtimes)[old(nextPath) := Binding(who, epoch)]
      ensures making == Made && home.None? ==>
                runtimes == if releases then old(runtimes)[old(nextPath) := Binding(who, epoch)] - {old(nextPath)}
                            else old(runtimes)[old(nextPath) := Binding(who, epoch)]
    {
      if making == NotMade {
        return None;
      }
      var path := nextPath;
      nextPath := nextPath + 1;
      runtimes := runtimes[path := Binding(who, epoch)];
      if making == HalfWritten {
        return None;
      }
      if restore && !(readable && Holds(who, epoch)) {
        var _ := Release(path, releases);
        return None;
      }
      return Some(path);
    }

    method Persist(path: Path)
      requires path in runtimes
      modifies this`archive
      ensures archive == old(archive)[runtimes[path].who := runtimes[path]]
    {
      archive := archive[runtimes[path].who := runtimes[path]];
    }

    method Forget(who: Identity, works: bool) returns (raised: bool)
      modifies this`archive
      ensures archive == if works then old(archive) - {who} else old(archive)
      ensures raised <==> !works
    {
      if works {
        archive := archive - {who};
      }
      return !works;
    }

    method Release(path: Path, works: bool) returns (raised: bool)
      requires path in runtimes
      modifies this`runtimes
      ensures runtimes == if works then old(runtimes) - {path} else old(runtimes)
      ensures raised <==> !works
    {
      if works {
        runtimes := runtimes - {path};
      }
      return !works;
    }
  }

  class Bridge {
    var sessions: map<Identity, Session>
    const store: AuthStore

    function View(): State
      reads this, store
    {
      State(sessions, store.runtimes, store.archive, store.nextPath)
    }

    ghost predicate Valid()
      reads this, store
    {
      Owned(View())
    }

    constructor (s: AuthStore)
      requires s.runtimes == map[] && forall who | who in s.archive :: s.archive[who].who == who
      ensures Valid() && store == s && sessions == map[]
    {
      sessions, store := map[], s;
    }

    /** The session is popped first; the archive is forgotten last, if nothing has raised by then. */
    method Discard(who: Identity, d: Disposal) returns (raised: bool)
      requires Valid()
      modifies this, store
      ensures View() == BridgeState.Discard(old(View()), who, d) && Valid()
      ensures raised == DiscardRaises(old(View()), who, d)
    {
      DiscardIsOrderly(View(), who, d);
      raised := false;
      if who in sessions {
        var home := sessions[who].home;
        sessions := sessions - {who};
        raised := store.Release(home, d.releases);
        raised := raised || !d.closes;
      }
      if !raised {
        raised := store.Forget(who, d.forgets);
      }
    }

    /** Releases the runtime of a session and only then drops the session, so that a failure leaves both. */
    method Detach(who: Identity, d: Disposal) returns (raised: bool)
      requires Valid() && who in sessions
      modifies this, store`runtimes
      ensures Valid() && (raised <==> !(d.closes && d.releases))
      ensures View() == if raised then old(View()) else BridgeState.Detach(old(View()), who)
    {
      DetachIsOrderly(View(), who);
      if !d.closes {
        return true;
      }
      raised := store.Release(sessions[who].home, d.releases);
      if !raised {
        sessions := sessions - {who};
      }
    }

    /** A runtime with a process on it, for an identity that has no session. When anything raises there is none. */
    method Spawn(who: Identity, epoch: nat, making: Making, restore: bool, readable: bool, up: bool, releases: bool)
      returns (home: Option<Path>)
      modifies store
      ensures home.Some? <==> making == Made && (restore ==> readable && Restorable(old(View()), who, epoch)) && up
      ensures home.Some? ==> home.value == old(store.nextPath) && View() == Materialize(old(View()), who, epoch)
      ensures home.None? ==> View() == (match making
                case NotMade => old(View())
                case HalfWritten => Materialize(old(View()), who, epoch)
                case Made => Abandon(old(View()), who, epoch, releases))
    {
      home := store.Materialize(who, epoch, making, restore, readable, releases);
      if home.Some? && !up {
        var _ := store.Release(home.value, releases);
        home := None;
      }
    }

    method StartFresh(who: Identity, c: Call) returns (reply: Reply)
      requires Valid() && c.CallStart? && who !in sessions
      modifies this, store
      ensures Valid()
      ensures (View(), reply) == BridgeState.StartFresh(old(View()), who, c)
    {
      StartFreshIsOrderly(View(), who, c);
      LaunchIsOrderly(View(), who, NewSession(store.nextPath, c));
      var home := Spawn(who, c.epoch, c.making, false, true, c.transportUp, c.releases);
      if home.None? {
        return Raised;
      }
      sessions := sessions[who := NewSession(home.value, c)];
      if !c.freshIsEmpty || c.login.None? {
        var _ := Discard(who, c.end);
        return Raised;
      }
      sessions := sessions[who := sessions[who].(loginId := c.login, hasChallenge := true)];
      return Answer(Pending);
    }

    method Start(who: Identity, c: Call) returns (reply: Reply)
      requires Valid() && c.CallStart?
      modifies this, store
      ensures Valid()
      ensures (View(), reply) == Run(old(View()), who, c)
    {
      if !c.flowOffered {
        return Raised;
      }
      DiscardIsOrderly(View(), who, c.prior);
      if who in sessions {
        var raised := Discard(who, c.prior);
        if raised {
          return Raised;
        }
      }
      reply := StartFresh(who, c);
    }

    /** Reads the login events in order; stops at the first one that says this login failed. */
    method ReadEvents(who: Identity, events: seq<Event>) returns (failed: bool)
      requires Valid() && who in sessions
      modifies this
      ensures failed <==> Absorb(events, old(sessions)[who].loginId, old(sessions)[who].completed).None?
      ensures !failed ==>
          View() == Amend(old(View()), who, old(sessions)[who].(
            completed := Absorb(events, old(sessions)[who].loginId, old(sessions)[who].completed).value))
      ensures failed ==> exists done :: View() == Amend(old(View()), who, old(sessions)[who].(completed := done))
      ensures Valid()
    {
      ghost var before, s, done := View(), sessions[who], sessions[who].completed;
      for i := 0 to |events|
        invariant View() == Amend(before, who, s.(completed := done))
        invariant Absorb(events, s.loginId, s.completed) == Absorb(events[i..], s.loginId, done)
      {
        assert events[i..][1..] == events[i + 1..];
        if events[i].LoginCompleted? && events[i].loginId == sessions[who].loginId {
          if !events[i].success {
            AmendIsOrderly(before, who, s.(completed := done));
            return true;
          }
          sessions := sessions[who := sessions[who].(completed := true)];
          done := true;
        }
      }
      assert events[|events|..] == [];
      AmendIsOrderly(before, who, s.(completed := done));
      return false;
    }

    method Restore(who: Identity, c: Call) returns (ok: bool)
      requires Valid() && c.CallRefresh? && who !in sessions
      modifies this, store
      ensures Valid()
      ensures (View(), ok) == BridgeState.Restore(old(View()), who, c)
    {
      RestoreIsOrderly(View(), who, c);
      var home := Spawn(who, c.epoch, c.making, true, c.archiveReadable, c.transportUp, c.releases);
      if home.None? {
        return false;
      }
      sessions := sessions[who := Session(home.value, c.epoch, c.revision, None, None, false, 0, true, true)];
      return true;
    }

    /** Rebuilds a session whose consent revision changed, restores a missing one, or says it cannot. */
    method Attach(who: Identity, c: Call) returns (ok: bool)
      requires Valid() && c.CallRefresh?
      modifies this, store
      ensures Valid()
      ensures (View(), ok) == BridgeState.Attach(old(View()), who, c)
    {
      if ConsentChanged(View(), who, c.epoch, c.revision) {
        var raised := Detach(who, c.prior);
        if raised {
          return false;
        }
      }
      if who in sessions {
        return true;
      }
      ok := Restore(who, c);
    }

    method Conclude(who: Identity, c: Call) returns (reply: Reply)
      requires Valid() && c.CallRefresh? && who in sessions
      modifies this, store
      ensures Valid()
      ensures (View(), reply) == BridgeState.Conclude(old(View()), who, c)
    {
      ConcludeIsOrderly(View(), who, c);
      var s := sessions[who];
      if !s.completed && !s.authenticated {
        return Answer(Pending);
      }
      match c.account
      case ReadFailed => return Raised;
      case NoChatAccount =>
        var raised := Discard(who, c.end);
        return if raised then Raised else Answer(SignedOut);
      case ChatAccount =>
        if !s.authenticated {
          if !c.persistWorks {
            return Raised;
          }
          store.Persist(s.home);
        }
        sessions := sessions[who := s.(authenticated := true, hasChallenge := false)];
        return Answer(Authenticated);
    }

    method Refresh(who: Identity, c: Call) returns (reply: Reply)
      requires Valid() && c.CallRefresh?
      modifies this, store
      ensures Valid()
      ensures (View(), reply) == Run(old(View()), who, c)
    {
      AttachIsOrderly(View(), who, c);
      var ok := Attach(who, c);
      if !ok || sessions[who].epoch != c.epoch || sessions[who].revision != c.revision {
        return Raised;
      }
      reply := Inspect(who, c);
    }

    method Inspect(who: Identity, c: Call) returns (reply: Reply)
      requires Valid() && c.CallRefresh? && who in sessions
      modifies this, store
      ensures Valid()
      ensures (View(), reply) == BridgeState.Inspect(old(View()), who, c)
    {
      if !sessions[who].authenticated && c.now >= sessions[who].expires {
        var raised := Discard(who, c.end);
        return if raised then Raised else Answer(Expired);
      }
      ghost var before, s := View(), sessions[who];
      var failed := ReadEvents(who, c.events);
      if failed {
        ghost var done :| View() == Amend(before, who, s.(completed := done));
        DiscardForgetsAmendment(before, who, s.(completed := done), c.end);
        var _ := Discard(who, c.end);
        return Raised;
      }
      reply := Conclude(who, c);
    }

    method Logout(who: Identity, c: Call) returns (reply: Reply)
      requires Valid() && c.CallLogout?
      modifies this, store
      ensures Valid()
      ensures (View(), reply) == Run(old(View()), who, c)
    {
      var had := who in sessions;
      var raised := Discard(who, c.end);
      return if (had && !c.rpcWorks) || raised then Raised else Answer(SignedOut);
    }

    method CancelLogin(who: Identity, c: Call) returns (reply: Reply)
      requires Valid() && c.CallCancel?
      modifies this, store
      ensures Valid()
      ensures (View(), reply) == Run(old(View()), who, c)
    {
      var asked := who in sessions && sessions[who].loginId.Some?;
      var raised := Discard(who, c.end);
      return if (asked && !c.rpcWorks) || raised then Raised else Answer(Cancelled);
    }

    method DiscardEpoch(who: Identity, c: Call) returns (reply: Reply)
      requires Valid() && c.CallDiscardEpoch?
      modifies this, store
      ensures Valid()
      ensures (View(), reply) == Run(old(View()), who, c)
    {
      if who in sessions && sessions[who].epoch == c.epoch {
        var raised := Discard(who, c.end);
        return if raised then Raised else Answer(SignedOut);
      }
      return Answer(SignedOut);
    }

    method ShutdownOne(who: Identity, c: Call) returns (reply: Reply)
      requires Valid() && c.CallShutdown?
      modifies this, store
      ensures Valid()
      ensures (View(), reply) == Run(old(View()), who, c)
    {
      if who !in sessions || !sessions[who].authenticated {
        var raised := Discard(who, c.end);
        return if raised then Raised else Answer(SignedOut);
      }
      PersistIsOrderly(View(), who);
      var saves := who !in store.archive;
      if saves && c.persistWorks {
        store.Persist(sessions[who].home);
      }
      var raised := Detach(who, c.end);
      return if raised || (saves && !c.persistWorks) then Raised else Answer(Authenticated);
    }

    /** Shuts the identities down one after the other; the first exception ends the loop. */
    method Close(whos: seq<Identity>, answers: seq<Call>) returns (reached: nat)
      requires Valid() && |answers| == |whos| && forall c | c in answers :: c.CallShutdown?
      modifies this, store
      ensures Valid() && reached <= |whos|
      ensures View() == ShutdownAll(old(View()), whos[..reached], answers[..reached])
      ensures reached < |whos| ==>
                0 < reached && Run(ShutdownAll(old(View()), whos[..reached - 1], answers[..reached - 1]),
                                   whos[reached - 1], answers[reached - 1]).1 == Raised
    {
      reached := 0;
      ghost var before := View();
      while reached < |whos|
        invariant Valid() && reached <= |whos|
        invariant View() == ShutdownAll(before, whos[..reached], answers[..reached])
      {
        var reply := ShutdownOne(whos[reached], answers[reached]);
        assert whos[..reached + 1][..reached] == whos[..reached];
        assert answers[..reached + 1][..reached] == answers[..reached];
        reached := reached + 1;
        if reply == Raised {
          return;
        }
      }
    }
  }
}
