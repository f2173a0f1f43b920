/**
 End-to-end guarantees of the component: what `mount` resolves, combined
 with what the connect handlers accept. As long as the state `mount` built
 comes back with the connect request unchanged except for the selected name,
 a container terminal is only ever opened into a candidate that `mount`
 enumerated for this resource, and the ownership re-check never fires. The
 handler itself re-checks only against the candidate list it is handed: one
 edited on the way back is trusted (`ClientEditedListDispatches`), and
 `RevalidatedConnect` shows the check against a list enumerated afresh.
 */
module Guarantees {
  import opened Options
  import opened Seqs
  import opened Inventory
  import opened NameFormat
  import opened ServerList
  import opened Candidates
  import opened Component
  import opened Connect

  /** What every candidate of a resolved state satisfies, per resource kind. */
  lemma ResolvedCandidateFacts(r: Resource, status: StatusMap)
    ensures forall c :: c in Resolve(r, status).containers ==>
      && !r.ServerResource?
      && c.server in DiscoveredServers(r)
      && c.server.isFunctional
      && (r.ApplicationResource? ==>
            c.server.isTerminalEnabled && IsRunning(c.container) && !c.server.isSwarm
            && c.container in RecordsOn(r.app, c.server, status))
      && (r.DatabaseResource? ==>
            c.server.isTerminalEnabled && r.db.isRunning && c.container == ContainerRecord(r.db.uuid, None))
      && (r.ServiceResource? ==> c.server == r.svc.server)
  {
    CandidatesOnDiscoveredServers(r, status);
    if r.ServiceResource? {
      assert forall c :: c in ServiceChildren(r.svc) ==> c.server == r.svc.server;
    }
  }

  /** Every server collected for a container-bearing resource passes the ownership rule. */
  lemma DiscoveredServersOwned(r: Resource)
    requires !r.ServerResource?
    ensures ResourceServer(Some(r)).Some?
    ensures forall s :: s in DiscoveredServers(r) ==> OwnedBy(Some(r), ResourceServer(Some(r)).value, s)
  {
    DiscoveredServersMembers(r);
    if r.ApplicationResource? {
      forall s | s in DiscoveredServers(r)
        ensures OwnedBy(Some(r), r.app.destinationServer, s)
      {
        if s != r.app.destinationServer {
          var i :| 0 <= i < |r.app.additionalServers| && r.app.additionalServers[i] == s;
        }
      }
    }
  }

  /** On a resolved state every candidate's server passes the ownership rule. */
  lemma ResolvedCandidatesOwned(r: Resource, status: StatusMap)
    ensures forall c :: c in Resolve(r, status).containers ==>
      ResourceServer(Some(r)).Some? && OwnedBy(Some(r), ResourceServer(Some(r)).value, c.server)
  {
    var st := Resolve(r, status);
    if !r.ServerResource? {
      DiscoveredServersOwned(r);
      assert forall c :: c in st.containers ==> c.server in DiscoveredServers(r);
    }
  }

  /**
   On a state `mount` resolved, with any name selected, the type and
   ownership checks never reject, and a container terminal is dispatched
   exactly when a name other than the sentinel is selected, it passes the
   format check, and the first candidate carrying it is not on a
   force-disabled server.
   */
  lemma ResolvedStateConnect(r: Resource, status: StatusMap, name: string)
    ensures var st := Resolve(r, status).(selectedContainer := name);
      ConnectToContainer(st).decision != Rejected(OwnershipFailed)
      && ConnectToContainer(st).decision != Rejected(InvalidResourceType)
    ensures var st := Resolve(r, status).(selectedContainer := name);
      ConnectToContainer(st).decision.Dispatch? <==>
        && name != NoSelection
        && MatchesNamePattern(name)
        && exists i :: FirstNamed(st.containers, name, i) && !st.containers[i].server.isForceDisabled
  {
    var st := Resolve(r, status).(selectedContainer := name);
    ResolvedCandidatesOwned(r, status);
    assert st.resource == Some(r) && st.containers == Resolve(r, status).containers;
    ConnectOnOwnedState(st);
  }

  /** A state `mount` leaves is either the empty state or the resolution of the resource it found. */
  lemma MountedIsResolved(isAdmin: bool, p: Params, lookups: Lookups, status: StatusMap)
    requires Mount(isAdmin, p, lookups, status).Mounted?
    ensures var st := Mount(isAdmin, p, lookups, status).state;
      if st.resource.None? then st == State(None, [], [], NoSelection, false)
      else st == Resolve(st.resource.value, status)
  {
    if !Given(p.applicationUuid) && !Given(p.databaseUuid) && !Given(p.serviceUuid) && !Given(p.serverUuid) {
      MountResolvesFirstGivenParameter(isAdmin, p, lookups, status);
    } else if Given(p.applicationUuid) {
      var a := FindApplication(lookups.applications, p.applicationUuid.value);
      assert Mount(isAdmin, p, lookups, status) == Mounted(Resolve(ApplicationResource(a.value), status));
    } else if Given(p.databaseUuid) {
      var d := lookups.teamDatabases[p.databaseUuid.value];
      assert Mount(isAdmin, p, lookups, status) == Mounted(Resolve(DatabaseResource(d), status));
    } else if Given(p.serviceUuid) {
      var sv := FindService(lookups.services, p.serviceUuid.value);
      assert Mount(isAdmin, p, lookups, status) == Mounted(Resolve(ServiceResource(sv.value), status));
    } else {
      var sr := FindServer(lookups.servers, p.serverUuid.value);
      assert Mount(isAdmin, p, lookups, status) == Mounted(Resolve(ServerResource(sr.value), status));
    }
  }

  /**
   Whatever name a client selects on a resolved state, a container terminal
   is only dispatched into a candidate that was enumerated: the dispatched
   name is the selected name, the server is one of the listed, functional
   servers and not force-disabled; for an application its container was
   reported running on a terminal-enabled, non-swarm server, and for a
   database its server is terminal-enabled.
   */
  lemma DispatchedTargetIsEnumerated(r: Resource, status: StatusMap, name: string)
    ensures var st := Resolve(r, status);
      var d := ConnectToContainer(st.(selectedContainer := name)).decision;
      d.Dispatch? ==>
        exists c :: c in st.containers && EnumeratedTarget(r, st, c, name, d)
  {
    var st := Resolve(r, status);
    var d := ConnectToContainer(st.(selectedContainer := name)).decision;
    if d.Dispatch? {
      var c :| c in st.containers && !c.server.isForceDisabled && c.container.names == name
        && d == Dispatch(true, c.container.names, c.server.uuid);
      ResolvedCandidateFacts(r, status);
      assert EnumeratedTarget(r, st, c, name, d);
    }
  }

  /** The dispatch `d` targets candidate `c` of state `st`, with the guarantees `mount` gives for resource `r`. */
  predicate EnumeratedTarget(r: Resource, st: State, c: Candidate, name: string, d: Decision)
  {
    && d == Dispatch(true, name, c.server.uuid)
    && c.container.names == name
    && c.server in st.servers
    && c.server.isFunctional
    && !c.server.isForceDisabled
    && (r.ApplicationResource? ==> c.server.isTerminalEnabled && IsRunning(c.container) && !c.server.isSwarm)
    && (r.DatabaseResource? ==> c.server.isTerminalEnabled)
  }

  /**
   After any successful `mount` and whatever name the client selects, a
   dispatched container terminal targets an enumerated candidate of the
   resource `mount` found.
   */
  lemma MountedDispatchIsEnumerated(isAdmin: bool, p: Params, lookups: Lookups, status: StatusMap, name: string)
    requires Mount(isAdmin, p, lookups, status).Mounted?
    ensures var st := Mount(isAdmin, p, lookups, status).state;
      var d := ConnectToContainer(st.(selectedContainer := name)).decision;
      d.Dispatch? ==> st.resource.Some? && exists c :: c in st.containers && EnumeratedTarget(st.resource.value, st, c, name, d)
  {
    var st := Mount(isAdmin, p, lookups, status).state;
    MountedIsResolved(isAdmin, p, lookups, status);
    if st.resource.Some? {
      DispatchedTargetIsEnumerated(st.resource.value, status, name);
    }
  }

  /**
   A bare server is listed whatever its flags and yields no container
   candidates; a host terminal is dispatched for it unless it is
   force-disabled, and no container terminal is ever dispatched.
   */
  lemma BareServerTerminal(s: Server, status: StatusMap, name: string)
    ensures Resolve(ServerResource(s), status).servers == [s]
    ensures Resolve(ServerResource(s), status).containers == []
    ensures Resolve(ServerResource(s), status).selectedContainer == NoSelection
    ensures ConnectToServer(Resolve(ServerResource(s), status)).decision ==
      if s.isForceDisabled then Rejected(ServerDisabled) else Dispatch(false, s.name, s.uuid)
    ensures ConnectToContainer(Resolve(ServerResource(s), status).(selectedContainer := name)).decision.Rejected?
  {
    SortSingleton(s);
    var st := Resolve(ServerResource(s), status);
    assert st.servers == [s] && st.containers == [];
  }

  /** Sorting a one-server list leaves it as it is. */
  lemma SortSingleton(s: Server)
    ensures SortByTerminalDesc([s]) == [s]
  {
    var ss := SortByTerminalDesc([s]);
    assert s in ss && |ss| == 1;
    assert ss == [ss[0]];
  }

  /**
   Pre-selection: a resolved state keeps the sentinel selected, and so
   refuses to connect, unless there is exactly one candidate; with exactly
   one candidate whose name passes the format check on a server that is not
   force-disabled, connecting right after `mount` dispatches that candidate.
   */
  lemma PreselectionConnects(r: Resource, status: StatusMap)
    ensures var st := Resolve(r, status);
      |st.containers| != 1 ==> ConnectToContainer(st) == Outcome(Rejected(NothingSelected), st)
    ensures var st := Resolve(r, status);
      (|st.containers| == 1
        && st.containers[0].container.names != NoSelection
        && MatchesNamePattern(st.containers[0].container.names)
        && !st.containers[0].server.isForceDisabled) ==>
      ConnectToContainer(st).decision == Dispatch(true, st.containers[0].container.names, st.containers[0].server.uuid)
  {
    var st := Resolve(r, status);
    if |st.containers| == 1 {
      var name := st.containers[0].container.names;
      assert FirstNamed(st.containers, name, 0);
      MatchCandidateIsFirstNamed(st, name, 0);
      ResolvedCandidatesOwned(r, status);
      assert st.containers[0] in st.containers;
    }
  }

  /**
   A service's running child databases become candidates even when the
   service's server is terminal-disabled, while its child applications then
   contribute nothing.
   */
  lemma ServiceDatabasesSkipTerminalCheck(sv: Service, status: StatusMap, ch: Child)
    requires sv.server.isFunctional && !sv.server.isTerminalEnabled
    ensures ch in sv.databases && ch.isRunning ==>
      Candidate(sv.server, ContainerRecord(ChildContainerName(sv, ch), None)) in Resolve(ServiceResource(sv), status).containers
    ensures forall c :: c in Resolve(ServiceResource(sv), status).containers ==>
      exists db :: db in sv.databases && db.isRunning && c.container.names == ChildContainerName(sv, db)
  {
    assert ChildCandidates(sv, sv.applications, false) == [];
  }

  /**
   An application with a terminal-enabled destination server and a
   terminal-disabled additional server, the same container running on both,
   has exactly one candidate: the container on the destination server, which
   is therefore pre-selected.
   */
  lemma OneTerminalServerOneCandidate(a: Application, extra: Server, rec: ContainerRecord, status: StatusMap)
    requires a.destinationServer.isFunctional && a.destinationServer.isTerminalEnabled && !a.destinationServer.isSwarm
    requires extra.isFunctional && !extra.isTerminalEnabled
    requires a.additionalServers == [extra]
    requires a.destinationServer in status && status[a.destinationServer] == [rec]
    requires IsRunning(rec)
    ensures Resolve(ApplicationResource(a), status).containers == [Candidate(a.destinationServer, rec)]
    ensures Resolve(ApplicationResource(a), status).selectedContainer == rec.names
  {
    var d := a.destinationServer;
    assert Filter([extra], IsFunctional) == [extra] + Filter([extra][1..], IsFunctional);
    assert DiscoveredServers(ApplicationResource(a)) == [d, extra];
    OnlyEnabledServerCounts(a, extra, rec, status);
  }

  /** The candidates of an enabled server and a disabled one: only the enabled server's running container. */
  lemma OnlyEnabledServerCounts(a: Application, extra: Server, rec: ContainerRecord, status: StatusMap)
    requires a.destinationServer.isTerminalEnabled && !a.destinationServer.isSwarm
    requires !extra.isTerminalEnabled
    requires a.destinationServer in status && status[a.destinationServer] == [rec]
    requires IsRunning(rec)
    ensures ApplicationCandidates(a, [a.destinationServer, extra], status) == [Candidate(a.destinationServer, rec)]
  {
    var d := a.destinationServer;
    ApplicationCandidatesAppend(a, [d], [extra], status);
    assert [d, extra] == [d] + [extra];
    assert ApplicationCandidates(a, [extra], status) == [];
    assert RunningOn(d, [rec]) == [Candidate(d, rec)] + RunningOn(d, []);
    assert ApplicationCandidates(a, [d], status) == [Candidate(d, rec)];
  }

  /**
   Candidates are not deduplicated: an application whose destination server
   is also listed among its additional servers gets each running container
   twice, and so nothing is pre-selected.
   */
  lemma RepeatedServerRepeatsCandidates(a: Application, rec: ContainerRecord, status: StatusMap)
    requires a.destinationServer.isFunctional && a.destinationServer.isTerminalEnabled && !a.destinationServer.isSwarm
    requires a.additionalServers == [a.destinationServer]
    requires a.destinationServer in status && status[a.destinationServer] == [rec]
    requires IsRunning(rec)
    ensures Resolve(ApplicationResource(a), status).containers ==
      [Candidate(a.destinationServer, rec), Candidate(a.destinationServer, rec)]
    ensures Resolve(ApplicationResource(a), status).selectedContainer == NoSelection
  {
    var d := a.destinationServer;
    assert Filter([d], IsFunctional) == [d] + Filter([d][1..], IsFunctional);
    assert DiscoveredServers(ApplicationResource(a)) == [d, d];
    TwiceListedServer(a, rec, status);
  }

  /** The candidates of a server listed twice, each with one running container. */
  lemma TwiceListedServer(a: Application, rec: ContainerRecord, status: StatusMap)
    requires a.destinationServer.isTerminalEnabled && !a.destinationServer.isSwarm
    requires a.destinationServer in status && status[a.destinationServer] == [rec]
    requires IsRunning(rec)
    ensures ApplicationCandidates(a, [a.destinationServer, a.destinationServer], status) ==
      [Candidate(a.destinationServer, rec), Candidate(a.destinationServer, rec)]
  {
    var d := a.destinationServer;
    ApplicationCandidatesAppend(a, [d], [d], status);
    assert [d, d] == [d] + [d];
    assert RunningOn(d, [rec]) == [Candidate(d, rec)] + RunningOn(d, []);
    assert ApplicationCandidates(a, [d], status) == [Candidate(d, rec)];
  }

  /**
   A service with two running child applications and one running child
   database on a functional, terminal-enabled server has exactly three
   candidates, named after each child and the service uuid and bound to the
   service's server.
   */
  lemma ServiceThreeChildren(sv: Service, app1: Child, app2: Child, db1: Child, status: StatusMap)
    requires sv.server.isFunctional && sv.server.isTerminalEnabled
    requires sv.applications == [app1, app2] && sv.databases == [db1]
    requires app1.isRunning && app2.isRunning && db1.isRunning
    ensures Resolve(ServiceResource(sv), status).containers == [
      Candidate(sv.server, ContainerRecord(app1.name + "-" + sv.uuid, None)),
      Candidate(sv.server, ContainerRecord(app2.name + "-" + sv.uuid, None)),
      Candidate(sv.server, ContainerRecord(db1.name + "-" + sv.uuid, None))]
  {
    ThreeChildrenInOrder(sv, app1, app2, db1);
    assert DiscoveredServers(ServiceResource(sv)) == [sv.server];
    assert ServiceCandidates(sv, [sv.server]) == ServiceChildren(sv) + ServiceCandidates(sv, []);
  }

  /** One pass over the service: the two running applications, then the running database. */
  lemma ThreeChildrenInOrder(sv: Service, app1: Child, app2: Child, db1: Child)
    requires sv.server.isTerminalEnabled
    requires sv.applications == [app1, app2] && sv.databases == [db1]
    requires app1.isRunning && app2.isRunning && db1.isRunning
    ensures ServiceChildren(sv) == [
      Candidate(sv.server, ContainerRecord(ChildContainerName(sv, app1), None)),
      Candidate(sv.server, ContainerRecord(ChildContainerName(sv, app2), None)),
      Candidate(sv.server, ContainerRecord(ChildContainerName(sv, db1), None))]
  {
    var c1 := Candidate(sv.server, ContainerRecord(ChildContainerName(sv, app1), None));
    var c2 := Candidate(sv.server, ContainerRecord(ChildContainerName(sv, app2), None));
    var c3 := Candidate(sv.server, ContainerRecord(ChildContainerName(sv, db1), None));
    assert ChildCandidates(sv, [app2], true) == [c2] + ChildCandidates(sv, [], true);
    assert [app1, app2][1..] == [app2];
    assert ChildCandidates(sv, [app1, app2], true) == [c1] + ChildCandidates(sv, [app2], true);
    assert ChildCandidates(sv, [db1], true) == [c3] + ChildCandidates(sv, [], true);
  }

  /** A force-disabled sole server refuses the host terminal. */
  lemma DisabledSoleServerRefused(st: State)
    requires |st.servers| == 1 && st.servers[0].isForceDisabled
    ensures ConnectToServer(st) == Outcome(Rejected(ServerDisabled), st.(isConnecting := false))
  {
  }

  /**
   The allow-list check trusts the candidate list it receives. Take any
   candidate `c` that `mount` enumerated, on a server that is not
   force-disabled, and let the list come back holding only `c` renamed to
   "other": a terminal into "other" is dispatched on `c`'s server, because
   the entry keeps the server record `mount` stored and so passes the
   server-type, force-disabled and ownership checks. On the unedited state
   the same request is refused whenever no enumerated candidate is named
   "other".
   */
  lemma ClientEditedListDispatches(r: Resource, status: StatusMap, c: Candidate)
    requires c in Resolve(r, status).containers && !c.server.isForceDisabled
    ensures var st := Resolve(r, status);
      var renamed := c.(container := c.container.(names := "other"));
      ConnectToContainer(st.(containers := [renamed], selectedContainer := "other")).decision
        == Dispatch(true, "other", c.server.uuid)
    ensures var st := Resolve(r, status);
      (forall x :: x in st.containers ==> x.container.names != "other") ==>
        ConnectToContainer(st.(selectedContainer := "other")).decision == Rejected(ContainerNotFound)
  {
    var st := Resolve(r, status);
    ResolvedCandidatesOwned(r, status);
    RenamedOwnedCandidateDispatches(st, c);
    UnlistedNameRefused(st);
  }

  /** A list holding only an owned candidate renamed to "other" gets "other" dispatched on that candidate's server. */
  lemma RenamedOwnedCandidateDispatches(st: State, c: Candidate)
    requires !c.server.isForceDisabled
    requires ResourceServer(st.resource).Some? && OwnedBy(st.resource, ResourceServer(st.resource).value, c.server)
    ensures var renamed := c.(container := c.container.(names := "other"));
      ConnectToContainer(st.(containers := [renamed], selectedContainer := "other")).decision
        == Dispatch(true, "other", c.server.uuid)
  {
    var renamed := c.(container := c.container.(names := "other"));
    var edited := st.(containers := [renamed], selectedContainer := "other");
    assert MatchesNamePattern("other") by { assert IsStrictName("other"); }
    assert FirstNamed(edited.containers, "other", 0);
    ContainerChecksPassDispatch(edited, 0);
  }

  /** Selecting "other" when no candidate carries that name is refused as not found. */
  lemma UnlistedNameRefused(st: State)
    ensures (forall x :: x in st.containers ==> x.container.names != "other") ==>
      ConnectToContainer(st.(selectedContainer := "other")).decision == Rejected(ContainerNotFound)
  {
    var plain := st.(selectedContainer := "other");
    assert MatchesNamePattern("other") by { assert IsStrictName("other"); }
    if forall x :: x in st.containers ==> x.container.names != "other" {
      assert forall j :: 0 <= j < |plain.containers| ==> plain.containers[j] in st.containers;
      ContainerRejectionOrder(plain, 0);
    }
  }

  /** With no status records at all, no server yields an application candidate. */
  lemma {:induction false} ApplicationCandidatesOnAbsentServers(a: Application, servers: seq<Server>)
    ensures ApplicationCandidates(a, servers, map[]) == []
    decreases |servers|
  {
    if servers != [] {
      ApplicationCandidatesOnAbsentServers(a, servers[1..]);
      assert RecordsOn(a, servers[0], map[]) == [] || servers[0].isSwarm;
    }
  }

  /**
   `connectToContainer` as its allow-list comment intends: only the selected
   name is taken from the incoming state, and the candidates are those `mount`
   enumerates for the resource.
   */
  function RevalidatedConnect(incoming: State, r: Resource, status: StatusMap): (o: Outcome)
    ensures o.decision.Dispatch? ==>
      exists c :: c in Resolve(r, status).containers
        && EnumeratedTarget(r, Resolve(r, status), c, incoming.selectedContainer, o.decision)
  {
    DispatchedTargetIsEnumerated(r, status, incoming.selectedContainer);
    ConnectToContainer(Resolve(r, status).(selectedContainer := incoming.selectedContainer))
  }
}
