/** Which connector answers for which installation: the in-memory route registry and the
    installation rows, under registration, replacement, revocation and cleanup
    (crates/c6-cloud/src/lib.rs:873-908, 1311-1322, 1360-1377, 1609-1637). */
module RouteRegistry {
  import opened Common

  type Route = nat
  type InstallationId = nat
  type SessionId = nat

  datatype Installation = Installation(route: Route, revoked: bool, credentialRevoked: bool, connected: bool)

  /** The registry and the database. */
  datatype Store = Store(relays: map<Route, SessionId>, rows: map<InstallationId, Installation>)

  // ---- The critical sections --------------------------------------------------------

  predicate Active(s: Store, id: InstallationId) {
    id in s.rows && !s.rows[id].revoked && !s.rows[id].credentialRevoked
  }

  /** `register_relay_if_active`; a failed database write publishes nothing. */
  function Registered(s: Store, id: InstallationId, session: SessionId, written: bool): Store {
    if Active(s, id) && written
    then Store(s.relays[s.rows[id].route := session], s.rows[id := s.rows[id].(connected := true)])
    else s
  }

  /** The committed half of `revoke_installation`. */
  function Revoked(s: Store, id: InstallationId): Store {
    if id in s.rows then s.(rows := s.rows[id := s.rows[id].(revoked := true, credentialRevoked := true)]) else s
  }

  /** Its in-memory half. */
  function Unrouted(s: Store, id: InstallationId): Store {
    if id in s.rows then s.(relays := s.relays - {s.rows[id].route}) else s
  }

  predicate Owns(s: Store, route: Route, session: SessionId) {
    route in s.relays && s.relays[route] == session
  }

  /** First half of a session's cleanup: take the route down only while it is still ours. */
  function Released(s: Store, route: Route, session: SessionId): Store {
    if Owns(s, route, session) then s.(relays := s.relays - {route}) else s
  }

  /** Second half: clear `connected_at` of an unrevoked installation. */
  function Cleared(s: Store, id: InstallationId): Store {
    if id in s.rows && !s.rows[id].revoked then s.(rows := s.rows[id := s.rows[id].(connected := false)]) else s
  }

  ghost predicate DistinctRoutes(s: Store) {
    forall a, b :: a in s.rows && b in s.rows && s.rows[a].route == s.rows[b].route ==> a == b
  }

  /** No revoked installation has a route. */
  ghost predicate Secure(s: Store) {
    DistinctRoutes(s) && forall id :: id in s.rows && s.rows[id].revoked ==> s.rows[id].route !in s.relays
  }

  /** Two stores that differ at most in this installation's row and route. */
  ghost predicate SameElsewhere(s: Store, t: Store, id: InstallationId) {
    && s.rows.Keys == t.rows.Keys
    && (forall other :: other in s.rows && other != id ==> t.rows[other] == s.rows[other])
    && (id in s.rows ==> t.rows[id].route == s.rows[id].route)
    && (forall route :: id in s.rows && route != s.rows[id].route ==>
          (route in t.relays <==> route in s.relays) && (route in s.relays ==> t.relays[route] == s.relays[route]))
  }

  /** The registry as the object it is. */
  class RelayRegistry {
    var relays: map<Route, SessionId>
    var rows: map<InstallationId, Installation>

    function View(): Store
      reads this
    {
      Store(relays, rows)
    }

    ghost predicate Valid()
      reads this
    {
      Secure(View())
    }

    /** Start-up: presence from an earlier process is forgotten. */
    constructor (known: map<InstallationId, Installation>)
      requires DistinctRoutes(Store(map[], known))
      ensures Valid() && relays == map[] && rows.Keys == known.Keys
      ensures forall id :: id in rows && rows[id].connected ==> rows[id].revoked
      ensures forall id :: id in rows ==> rows[id] == known[id].(connected := rows[id].connected)
    {
      relays := map[];
      rows := map id | id in known :: if known[id].revoked then known[id] else known[id].(connected := false);
    }

    /** A route comes back exactly when it was published: its row is then unrevoked and shown as
        connected, and this session answers for it.  Otherwise nothing has changed. */
    method RegisterIfActive(id: InstallationId, session: SessionId, written: bool) returns (route: Option<Route>)
      requires Valid()
      modifies this
      ensures Valid() && View() == Registered(old(View()), id, session, written)
      ensures route.Some? <==>
                written && id in old(rows) && !old(rows)[id].revoked && !old(rows)[id].credentialRevoked
      ensures route.Some? ==>
                && Active(View(), id) && rows[id].connected && rows[id].route == route.value
                && Owns(View(), route.value, session)
                && SameElsewhere(old(View()), View(), id)
      ensures route.None? ==> View() == old(View())
    {
      if id !in rows || rows[id].revoked || rows[id].credentialRevoked {
        return None;
      }
      if !written {
        return None;
      }
      rows := rows[id := rows[id].(connected := true)];
      relays := relays[rows[id].route := session];
      route := Some(rows[id].route);
    }

    /** A revocation that commits leaves the installation unable to register and without a route;
        every other row and route stays. */
    method Revoke(id: InstallationId, committed: bool) returns (found: bool)
      requires Valid()
      modifies this
      ensures Valid() && View() == if committed then Unrouted(Revoked(old(View()), id), id) else old(View())
      ensures found <==> id in old(rows)
      ensures found && committed ==>
                && id in rows && rows[id].revoked && rows[id].credentialRevoked && rows[id].route !in relays
                && SameElsewhere(old(View()), View(), id)
      ensures !found || !committed ==> View() == old(View())
    {
      found := id in rows;
      if !found || !committed {
        return;
      }
      rows := rows[id := rows[id].(revoked := true, credentialRevoked := true)];
      relays := relays - {rows[id].route};
    }

    /** Takes the route down only for the session that owns it, and no other route. */
    method Release(route: Route, session: SessionId) returns (removed: bool)
      requires Valid()
      modifies `relays
      ensures Valid() && View() == Released(old(View()), route, session)
      ensures removed <==> Owns(old(View()), route, session)
      ensures removed <==> route in old(relays) && old(relays)[route] == session
      ensures if removed then route !in relays else relays == old(relays)
      ensures forall other :: other != route ==>
                (other in relays <==> other in old(relays)) && (other in relays ==> relays[other] == old(relays)[other])
    {
      removed := route in relays && relays[route] == session;
      if removed {
        relays := relays - {route};
      }
    }

    /** Marks an unrevoked installation as not connected and touches nothing else. */
    method ClearConnected(id: InstallationId)
      requires Valid()
      modifies `rows
      ensures Valid() && View() == Cleared(old(View()), id)
      ensures rows.Keys == old(rows).Keys
      ensures forall other :: other in rows && other != id ==> rows[other] == old(rows)[other]
      ensures id in rows ==>
                rows[id] == if old(rows)[id].revoked then old(rows)[id] else old(rows)[id].(connected := false)
    {
      if id in rows && !rows[id].revoked {
        rows := rows[id := rows[id].(connected := false)];
      }
    }
  }

  // ---- Interleavings ----------------------------------------------------------------

  /** Who holds the registry lock.  A revoker keeps it from before its commit until the route is
      gone. */
  datatype Holder = Free | Registrar(session: SessionId) | Revoker(id: InstallationId, committed: bool)
    | Cleaner(session: SessionId)

  /** A relay session: authenticated but unpublished, published, its route taken down with the
      database write still to come, or done. */
  datatype Phase = Connecting(id: InstallationId) | Serving(id: InstallationId, route: Route)
    | Clearing(id: InstallationId) | Done

  datatype System = System(store: Store, holder: Holder, sessions: map<SessionId, Phase>)

  datatype Event =
    | Enroll(id: InstallationId, route: Route)
    | Connect(session: SessionId, id: InstallationId)
    | LockToRegister(session: SessionId)
    | Register(written: bool)
    | LockToRevoke(id: InstallationId)
    | Commit(succeeded: bool)
    | Unroute
    | LockToClean(session: SessionId)
    | Release
    | Clear(session: SessionId, written: bool)
    | Drop(session: SessionId)

  /** An event that is not possible in the current state changes nothing. */
  function Next(y: System, e: Event): System {
    match e
    case Enroll(id, route) =>
      if id in y.store.rows || (exists other :: other in y.store.rows && y.store.rows[other].route == route) then y
      else y.(store := y.store.(rows := y.store.rows[id := Installation(route, false, false, false)]))
    case Connect(session, id) =>
      if session in y.sessions || !Active(y.store, id) then y else y.(sessions := y.sessions[session := Connecting(id)])
    case LockToRegister(session) =>
      if y.holder == Free && session in y.sessions && y.sessions[session].Connecting?
        then y.(holder := Registrar(session)) else y
    case Register(written) => AfterRegister(y, written)
    case LockToRevoke(id) => if y.holder == Free && id in y.store.rows then y.(holder := Revoker(id, false)) else y
    case Commit(succeeded) =>
      if !y.holder.Revoker? || y.holder.committed then y
      else if succeeded then y.(store := Revoked(y.store, y.holder.id), holder := Revoker(y.holder.id, true))
      else y.(holder := Free)
    case Unroute =>
      if y.holder.Revoker? && y.holder.committed then y.(store := Unrouted(y.store, y.holder.id), holder := Free) else y
    case LockToClean(session) =>
      if y.holder == Free && session in y.sessions && y.sessions[session].Serving?
        then y.(holder := Cleaner(session)) else y
    case Release => AfterRelease(y)
    case Clear(session, written) =>
      if session in y.sessions && y.sessions[session].Clearing? then
        y.(store := if written then Cleared(y.store, y.sessions[session].id) else y.store,
           sessions := y.sessions[session := Done])
      else y
    case Drop(session) =>
      if session in y.sessions && y.sessions[session].Connecting? && y.holder != Registrar(session)
      then y.(sessions := y.sessions[session := Done]) else y
  }

  function AfterRegister(y: System, written: bool): System {
    if !y.holder.Registrar? || y.holder.session !in y.sessions || !y.sessions[y.holder.session].Connecting? then y
    else
      var session := y.holder.session;
      var id := y.sessions[session].id;
      if Active(y.store, id) && written then
        System(Registered(y.store, id, session, true), Free, y.sessions[session := Serving(id, y.store.rows[id].route)])
      else System(y.store, Free, y.sessions[session := Done])
  }

  function AfterRelease(y: System): System {
    if !y.holder.Cleaner? || y.holder.session !in y.sessions || !y.sessions[y.holder.session].Serving? then y
    else
      var session := y.holder.session;
      var p := y.sessions[session];
      System(Released(y.store, p.route, session), Free,
             y.sessions[session := if Owns(y.store, p.route, session) then Clearing(p.id) else Done])
  }

  function Run(y: System, es: seq<Event>): System {
    if es == [] then y else Next(Run(y, es[..|es| - 1]), es[|es| - 1])
  }

  /** After start-up (crates/c6-cloud/src/lib.rs:257-262): no route, no unrevoked row connected. */
  ghost predicate Started(y: System) {
    && y.holder == Free && y.sessions == map[] && y.store.relays == map[]
    && DistinctRoutes(y.store)
    && forall id :: id in y.store.rows && y.store.rows[id].connected ==> y.store.rows[id].revoked
  }

  // ---- Revocation safety --------------------------------------------------------------

  /** A published route belongs to its serving session's installation, which is not revoked
      unless its revoker is just about to take the route down. */
  ghost predicate RouteHolds(y: System, route: Route) {
    route in y.store.relays ==>
      var session := y.store.relays[route];
      && session in y.sessions && y.sessions[session].Serving? && y.sessions[session].route == route
      && var id := y.sessions[session].id;
         id in y.store.rows && y.store.rows[id].route == route
         && (y.store.rows[id].revoked ==> y.holder == Revoker(id, true))
  }

  ghost predicate Inv(y: System) {
    && DistinctRoutes(y.store)
    && (forall route :: RouteHolds(y, route))
    && (forall session :: session in y.sessions && !y.sessions[session].Done? ==>
         y.sessions[session].id in y.store.rows)
    && (y.holder.Revoker? ==> y.holder.id in y.store.rows && (y.holder.committed ==> y.store.rows[y.holder.id].revoked))
  }

  lemma NextKeepsInv(y: System, e: Event)
    requires Inv(y)
    ensures Inv(Next(y, e))
  {
    match e
    case Register(written) => RegisterKeepsInv(y, written);
    case Unroute => UnrouteKeepsInv(y);
    case Release => ReleaseKeepsInv(y);
    case Commit(succeeded) => CommitKeepsInv(y, succeeded);
    case _ => OtherKeepsInv(y, e);
  }

  lemma OtherKeepsInv(y: System, e: Event)
    requires Inv(y) && !e.Register? && !e.Unroute? && !e.Release? && !e.Commit?
    ensures Inv(Next(y, e))
  {
    var z := Next(y, e);
    forall route ensures RouteHolds(z, route) {
      assert RouteHolds(y, route);
    }
  }

  lemma RegisterKeepsInv(y: System, written: bool)
    requires Inv(y)
    ensures Inv(AfterRegister(y, written))
  {
    var z := AfterRegister(y, written);
    forall route ensures RouteHolds(z, route) {
      assert RouteHolds(y, route);
    }
  }

  lemma CommitKeepsInv(y: System, succeeded: bool)
    requires Inv(y)
    ensures Inv(Next(y, Commit(succeeded)))
  {
    var z := Next(y, Commit(succeeded));
    forall route ensures RouteHolds(z, route) {
      assert RouteHolds(y, route);
    }
  }

  lemma UnrouteKeepsInv(y: System)
    requires Inv(y)
    ensures Inv(Next(y, Unroute))
  {
    var z := Next(y, Unroute);
    forall route ensures RouteHolds(z, route) {
      assert RouteHolds(y, route);
    }
  }

  lemma ReleaseKeepsInv(y: System)
    requires Inv(y)
    ensures Inv(AfterRelease(y))
  {
    var z := AfterRelease(y);
    forall route ensures RouteHolds(z, route) {
      assert RouteHolds(y, route);
    }
  }

  lemma {:induction false} RunKeepsInv(y: System, es: seq<Event>)
    requires Inv(y)
    ensures Inv(Run(y, es))
  {
    if es == [] {
    } else {
      RunKeepsInv(y, es[..|es| - 1]);
      NextKeepsInv(Run(y, es[..|es| - 1]), es[|es| - 1]);
    }
  }

  /** The registry's own invariant holds whenever its lock is free. */
  lemma SecureWhenFree(start: System, es: seq<Event>)
    requires Started(start) && Run(start, es).holder == Free
    ensures Secure(Run(start, es).store)
  {
    var y := Run(start, es);
    RunKeepsInv(start, es);
    forall id | id in y.store.rows && y.store.rows[id].revoked ensures y.store.rows[id].route !in y.store.relays {
      assert RouteHolds(y, y.store.rows[id].route);
    }
  }

  lemma {:induction false} RevocationIsFinal(y: System, es: seq<Event>, id: InstallationId)
    requires id in y.store.rows
    ensures id in Run(y, es).store.rows && Run(y, es).store.rows[id].route == y.store.rows[id].route
    ensures y.store.rows[id].revoked ==> Run(y, es).store.rows[id].revoked
  {
    if es == [] {
    } else {
      RevocationIsFinal(y, es[..|es| - 1], id);
    }
  }

  /** Revocation safety: from start-up, in every interleaving, whenever the registry lock is free
      no revoked installation has a route; and once revoked, none reappears however the run goes
      on. */
  lemma RevokedHasNoRoute(start: System, es: seq<Event>, later: seq<Event>, id: InstallationId)
    requires Started(start)
    requires var y := Run(start, es); id in y.store.rows && y.store.rows[id].revoked
    ensures var y := Run(start, es); y.holder == Free ==> y.store.rows[id].route !in y.store.relays
    ensures var z := Run(Run(start, es), later);
            id in z.store.rows && z.store.rows[id].revoked
            && (z.holder == Free ==> z.store.rows[id].route !in z.store.relays)
  {
    var y := Run(start, es);
    RunKeepsInv(start, es);
    RunKeepsInv(y, later);
    RevocationIsFinal(y, later, id);
    assert RouteHolds(y, y.store.rows[id].route);
    var z := Run(y, later);
    assert RouteHolds(z, z.store.rows[id].route);
  }

  // ---- Who may take a route down ------------------------------------------------------

  /** A published session loses its route only to its own cleanup, to a newer session of the same
      installation, or to that installation's revocation.  In particular the cleanup of an
      evicted session leaves its replacement alone. */
  lemma RouteLostOnlyTo(y: System, e: Event, route: Route)
    requires Inv(y) && route in y.store.relays && !Owns(Next(y, e).store, route, y.store.relays[route])
    ensures var session := y.store.relays[route];
            session in y.sessions && y.sessions[session].Serving? &&
            var id := y.sessions[session].id;
            || (e == Release && y.holder == Cleaner(session))
            || (e.Register? && y.holder.Registrar? && y.holder.session in y.sessions
                && y.sessions[y.holder.session] == Connecting(id)
                && Owns(Next(y, e).store, route, y.holder.session))
            || (e == Unroute && y.holder == Revoker(id, true))
  {
    assert RouteHolds(y, route);
  }

  // ---- Agreement with the database ------------------------------------------------------

  /** Every database write of the run succeeds. */
  ghost predicate WritesSucceed(es: seq<Event>) {
    forall e :: e in es ==> !(e.Register? && !e.written) && !(e.Clear? && !e.written)
  }

  /** An unrevoked connected installation is routed, or a cleanup of it is between its steps. */
  ghost predicate Backed(y: System, id: InstallationId) {
    id in y.store.rows && y.store.rows[id].connected && !y.store.rows[id].revoked ==>
      y.store.rows[id].route in y.store.relays || exists session :: Pending(y, session, id)
  }

  ghost predicate Pending(y: System, session: SessionId, id: InstallationId) {
    session in y.sessions && y.sessions[session] == Clearing(id)
  }

  lemma NextKeepsBacked(y: System, e: Event, id: InstallationId)
    requires Inv(y) && Backed(y, id) && !(e.Clear? && !e.written)
    ensures Backed(Next(y, e), id)
  {
    var z := Next(y, e);
    if id in y.store.rows {
      var route := y.store.rows[id].route;
      assert RouteHolds(y, route);
      if z.store.rows[id].connected && !z.store.rows[id].revoked && y.store.rows[id].connected {
        if route in y.store.relays {
          if route !in z.store.relays {
            RouteLostOnlyTo(y, e, route);
            assert Pending(z, y.store.relays[route], id);
          }
        } else {
          var session :| Pending(y, session, id);
          PendingStays(y, e, session, id);
        }
      }
    }
  }

  lemma PendingStays(y: System, e: Event, session: SessionId, id: InstallationId)
    requires Inv(y) && Pending(y, session, id)
    ensures Pending(Next(y, e), session, id) || (e.Clear? && e.session == session)
  {
  }

  lemma {:induction false} BackedInRun(start: System, es: seq<Event>, id: InstallationId)
    requires Started(start) && WritesSucceed(es)
    ensures Backed(Run(start, es), id)
  {
    if es == [] {
    } else {
      var front := es[..|es| - 1];
      assert forall e :: e in front ==> e in es;
      BackedInRun(start, front, id);
      RunKeepsInv(start, front);
      NextKeepsBacked(Run(start, front), es[|es| - 1], id);
    }
  }

  /** With every write succeeding, an unrevoked connected installation is routed or has a cleanup
      pending between its two steps. */
  lemma ConnectedIsBacked(start: System, es: seq<Event>, id: InstallationId)
    requires Started(start) && WritesSucceed(es)
    ensures var y := Run(start, es);
            id in y.store.rows && y.store.rows[id].connected && !y.store.rows[id].revoked ==>
              y.store.rows[id].route in y.store.relays || exists session :: Pending(y, session, id)
  {
    BackedInRun(start, es, id);
  }

  /** While this session owns the route, the installation is shown as connected. */
  predicate Shown(y: System, route: Route, session: SessionId, id: InstallationId) {
    Owns(y.store, route, session) ==> id in y.store.rows && y.store.rows[id].connected
  }

  /** The session is past its registration, and as long as it owns the route the row is marked and
      no clean-up of the installation is on its way to the database. */
  ghost predicate Steady(y: System, route: Route, session: SessionId, id: InstallationId) {
    && session in y.sessions && !y.sessions[session].Connecting?
    && id in y.store.rows && y.store.rows[id].route == route
    && Shown(y, route, session, id)
    && (Owns(y.store, route, session) ==> forall s :: !Pending(y, s, id))
  }

  lemma NextKeepsSteady(y: System, e: Event, route: Route, session: SessionId, id: InstallationId)
    requires Inv(y) && Steady(y, route, session, id)
    ensures Steady(Next(y, e), route, session, id)
  {
    var z := Next(y, e);
    assert RouteHolds(y, route);
    if Owns(z.store, route, session) {
      assert Owns(y.store, route, session);
      assert e.Clear? ==> !Pending(y, e.session, id);
      forall s ensures !Pending(z, s, id) {
        assert !Pending(y, s, id);
        if e.Release? && y.holder == Cleaner(s) && s in y.sessions && y.sessions[s].Serving? {
          assert RouteHolds(y, y.sessions[s].route);
        }
      }
    }
  }

  lemma {:induction false} RunKeepsSteady(y: System, es: seq<Event>, route: Route, session: SessionId,
                                          id: InstallationId)
    requires Inv(y) && Steady(y, route, session, id)
    ensures Steady(Run(y, es), route, session, id)
  {
    if es == [] {
    } else {
      RunKeepsSteady(y, es[..|es| - 1], route, session, id);
      RunKeepsInv(y, es[..|es| - 1]);
      NextKeepsSteady(Run(y, es[..|es| - 1]), es[|es| - 1], route, session, id);
    }
  }

  /** A registrar that holds the lock for an active installation. */
  predicate AboutToPublish(y: System, session: SessionId, id: InstallationId) {
    y.holder == Registrar(session) && session in y.sessions && y.sessions[session] == Connecting(id)
      && Active(y.store, id)
  }

  /** The other direction, exactly: a session that registers is shown as connected for as long as
      it owns its route, whatever happens and whichever writes fail, if and only if no clean-up of
      the installation is between its two steps when it registers. */
  lemma StaysShownIffNoClearPending(start: System, es: seq<Event>, session: SessionId, id: InstallationId)
    requires Started(start) && AboutToPublish(Run(start, es), session, id)
    ensures var y := Run(start, es);
            var route := y.store.rows[id].route;
            && Owns(Next(y, Register(true)).store, route, session)
            && ((forall later :: Shown(Run(Next(y, Register(true)), later), route, session, id))
                <==> !exists s :: Pending(y, s, id))
  {
    var y := Run(start, es);
    var route := y.store.rows[id].route;
    RunKeepsInv(start, es);
    RegisterEffect(y, session, id);
    if s :| Pending(y, s, id) {
      ClearHides(Next(y, Register(true)), route, session, id, s);
    } else {
      NextKeepsInv(y, Register(true));
      StaysShown(Next(y, Register(true)), route, session, id);
    }
  }

  lemma RegisterEffect(y: System, session: SessionId, id: InstallationId)
    requires AboutToPublish(y, session, id)
    ensures var z, route := Next(y, Register(true)), y.store.rows[id].route;
            && Owns(z.store, route, session) && id in z.store.rows && z.store.rows[id].route == route
            && z.store.rows[id].connected && !z.store.rows[id].revoked
            && session in z.sessions && z.sessions[session] == Serving(id, route)
            && forall s :: Pending(z, s, id) <==> Pending(y, s, id)
  {
  }

  lemma ClearHides(z: System, route: Route, session: SessionId, id: InstallationId, s: SessionId)
    requires Owns(z.store, route, session) && id in z.store.rows && !z.store.rows[id].revoked && Pending(z, s, id)
    ensures exists later :: !Shown(Run(z, later), route, session, id)
  {
    RunMore(z, [], Clear(s, true));
    assert !Shown(Run(z, [] + [Clear(s, true)]), route, session, id);
  }

  lemma StaysShown(z: System, route: Route, session: SessionId, id: InstallationId)
    requires Inv(z) && Steady(z, route, session, id)
    ensures forall later :: Shown(Run(z, later), route, session, id)
  {
    forall later ensures Shown(Run(z, later), route, session, id) {
      RunKeepsSteady(z, later, route, session, id);
    }
  }

  lemma RunMore(y: System, es: seq<Event>, e: Event)
    ensures Run(y, es + [e]) == Next(Run(y, es), e)
  {
    assert (es + [e])[..|es|] == es;
  }

  /** An undisturbed registration, appended to a run. */
  lemma Publish(start: System, es: seq<Event>, y: System, session: SessionId, id: InstallationId)
    returns (fs: seq<Event>, z: System)
    requires Run(start, es) == y && WritesSucceed(es)
    requires y.holder == Free && session !in y.sessions && Active(y.store, id)
    ensures Run(start, fs) == z && WritesSucceed(fs)
    ensures z == System(Registered(y.store, id, session, true), Free,
                        y.sessions[session := Serving(id, y.store.rows[id].route)])
  {
    fs, z := Then(start, es, y, Connect(session, id));
    fs, z := Then(start, fs, z, LockToRegister(session));
    fs, z := Then(start, fs, z, Register(true));
    assert y.sessions[session := Connecting(id)][session := Serving(id, y.store.rows[id].route)]
        == y.sessions[session := Serving(id, y.store.rows[id].route)];
  }

  /** An undisturbed first half of a cleanup, appended to a run. */
  lemma Retire(start: System, es: seq<Event>, y: System, session: SessionId) returns (fs: seq<Event>, z: System)
    requires Run(start, es) == y && WritesSucceed(es)
    requires y.holder == Free && session in y.sessions && y.sessions[session].Serving?
    requires Owns(y.store, y.sessions[session].route, session)
    ensures Run(start, fs) == z && WritesSucceed(fs)
    ensures var p := y.sessions[session];
            z == System(Released(y.store, p.route, session), Free, y.sessions[session := Clearing(p.id)])
  {
    fs, z := Then(start, es, y, LockToClean(session));
    fs, z := Then(start, fs, z, Release);
  }

  /** A live replacement that the database shows as not connected: the first session's route is
      taken down, a second session registers, then the first one's clear arrives. */
  lemma LiveRouteMayLookDisconnected() returns (start: System, es: seq<Event>)
    ensures Started(start) && WritesSucceed(es)
    ensures var y := Run(start, es);
            y.holder == Free && 0 in y.store.rows && !y.store.rows[0].revoked
            && y.store.rows[0].route in y.store.relays && !y.store.rows[0].connected
  {
    start := System(Store(map[], map[0 := Installation(7, false, false, false)]), Free, map[]);
    var y;
    es, y := Publish(start, [], start, 1, 0);
    es, y := Retire(start, es, y, 1);
    es, y := Publish(start, es, y, 2, 0);
    es, y := Then(start, es, y, Clear(1, true));
  }

  lemma Then(start: System, es: seq<Event>, y: System, e: Event) returns (fs: seq<Event>, z: System)
    requires Run(start, es) == y && WritesSucceed(es) && !(e.Register? && !e.written) && !(e.Clear? && !e.written)
    ensures fs == es + [e] && z == Next(y, e) && Run(start, fs) == z && WritesSucceed(fs)
  {
    fs, z := es + [e], Next(y, e);
    RunMore(start, es, e);
  }
}
