/**
 The component's state and its `mount`: the admin gate, the route parameter
 precedence (application, then database, then service, then server), the
 not-found aborts, the server list and the candidate list with its
 pre-selection.
 */
module Component {
  import opened Options
  import opened Seqs
  import opened Inventory
  import opened ServerList
  import opened Candidates

  /** The route parameters the page was opened with; any of them may be absent. */
  datatype Params = Params(
    applicationUuid: Option<string>,
    databaseUuid: Option<string>,
    serviceUuid: Option<string>,
    serverUuid: Option<string>)

  /**
   The records the lookups can return: applications, services and servers are
   found by uuid (first match); databases through the team-scoped resource
   lookup for the current team.
   */
  datatype Lookups = Lookups(
    applications: seq<Application>,
    teamDatabases: map<string, Database>,
    services: seq<Service>,
    servers: seq<Server>)

  /** The HTTP aborts `mount` can raise. */
  datatype Abort = Forbidden | NotFound

  /**
   The component's public state after `mount`. `resource` is absent when no
   route parameter named a resource.
   */
  datatype State = State(
    resource: Option<Resource>,
    servers: seq<Server>,
    containers: seq<Candidate>,
    selectedContainer: string,
    isConnecting: bool)

  datatype MountResult = Mounted(state: State) | Aborted(abort: Abort)

  /** A route parameter counts as given when PHP deems it truthy: present, and neither "" nor "0". */
  predicate Given(p: Option<string>)
  {
    p.Some? && p.value != "" && p.value != "0"
  }

  /**
   The state `mount` leaves for a resolved resource: the discovered servers in
   stable terminal-first order, the candidates enumerated over the discovery
   order, and the only candidate's name pre-selected when there is exactly one.
   A bare server has no candidates.
   */
  function Resolve(r: Resource, status: StatusMap): (st: State)
    ensures st.resource == Some(r)
    ensures !st.isConnecting
    ensures TerminalFirst(st.servers)
    ensures forall s :: s in st.servers <==> s in DiscoveredServers(r)
    ensures forall c :: c in st.containers ==> c.server in st.servers
    ensures st.servers == SortByTerminalDesc(DiscoveredServers(r))
    ensures st.containers == LoadContainers(r, DiscoveredServers(r), status)
    ensures |st.containers| == 1 ==> st.selectedContainer == st.containers[0].container.names
    ensures |st.containers| != 1 ==> st.selectedContainer == NoSelection
  {
    var discovered := DiscoveredServers(r);
    var containers := if r.ServerResource? then [] else LoadContainers(r, discovered, status);
    CandidatesOnDiscoveredServers(r, status);
    State(Some(r), SortByTerminalDesc(discovered), containers, Preselect(containers), false)
  }

  /** Every enumerated candidate is bound to one of the servers collected for the resource. */
  lemma CandidatesOnDiscoveredServers(r: Resource, status: StatusMap)
    ensures forall c :: c in LoadContainers(r, DiscoveredServers(r), status) ==> c.server in DiscoveredServers(r)
  {
    if r.ServiceResource? {
      var sv := r.svc;
      assert forall c :: c in ServiceChildren(sv) ==> c.server == sv.server;
    }
  }

  function FindApplication(apps: seq<Application>, uuid: string): Option<Application>
  {
    FirstWhere(apps, (a: Application) => a.uuid == uuid)
  }

  function FindService(services: seq<Service>, uuid: string): Option<Service>
  {
    FirstWhere(services, (sv: Service) => sv.uuid == uuid)
  }

  function FindServer(servers: seq<Server>, uuid: string): Option<Server>
  {
    FirstWhere(servers, (s: Server) => s.uuid == uuid)
  }

  /** `mount`: abort, or the resolved state. */
  function Mount(isAdmin: bool, p: Params, lookups: Lookups, status: StatusMap): (m: MountResult)
    ensures !isAdmin ==> m == Aborted(Forbidden)
    ensures m.Mounted? ==> !m.state.isConnecting && TerminalFirst(m.state.servers)
    ensures m.Mounted? ==> forall c :: c in m.state.containers ==> c.server in m.state.servers
  {
    if !isAdmin then Aborted(Forbidden)
    else if Given(p.applicationUuid) then
      match FindApplication(lookups.applications, p.applicationUuid.value)
      case None => Aborted(NotFound)
      case Some(a) => Mounted(Resolve(ApplicationResource(a), status))
    else if Given(p.databaseUuid) then
      if p.databaseUuid.value in lookups.teamDatabases
      then Mounted(Resolve(DatabaseResource(lookups.teamDatabases[p.databaseUuid.value]), status))
      else Aborted(NotFound)
    else if Given(p.serviceUuid) then
      match FindService(lookups.services, p.serviceUuid.value)
      case None => Aborted(NotFound)
      case Some(sv) => Mounted(Resolve(ServiceResource(sv), status))
    else if Given(p.serverUuid) then
      match FindServer(lookups.servers, p.serverUuid.value)
      case None => Aborted(NotFound)
      case Some(s) => Mounted(Resolve(ServerResource(s), status))
    else Mounted(State(None, [], [], NoSelection, false))
  }

  /**
   Route parameters are tried in the order application, database, service,
   server: once one is given, the parameters after it are never read.
   */
  lemma MountPrecedence(isAdmin: bool, p: Params, q: Params, lookups: Lookups, status: StatusMap)
    ensures Given(p.applicationUuid) && q.applicationUuid == p.applicationUuid ==>
      Mount(isAdmin, p, lookups, status) == Mount(isAdmin, q, lookups, status)
    ensures (!Given(p.applicationUuid) && !Given(q.applicationUuid)
             && Given(p.databaseUuid) && q.databaseUuid == p.databaseUuid) ==>
      Mount(isAdmin, p, lookups, status) == Mount(isAdmin, q, lookups, status)
    ensures (!Given(p.applicationUuid) && !Given(q.applicationUuid)
             && !Given(p.databaseUuid) && !Given(q.databaseUuid)
             && Given(p.serviceUuid) && q.serviceUuid == p.serviceUuid) ==>
      Mount(isAdmin, p, lookups, status) == Mount(isAdmin, q, lookups, status)
  {
  }

  /**
   For an admin, the first given parameter decides: `mount` aborts with "not
   found" exactly when no record carries that uuid, and otherwise resolves a
   resource of that kind taken from the lookups and carrying that uuid. With
   no parameter given it leaves an empty state.
   */
  lemma MountResolvesFirstGivenParameter(isAdmin: bool, p: Params, lookups: Lookups, status: StatusMap)
    requires isAdmin
    ensures var m := Mount(isAdmin, p, lookups, status);
      Given(p.applicationUuid) ==>
        && (m == Aborted(NotFound) <==> forall a :: a in lookups.applications ==> a.uuid != p.applicationUuid.value)
        && (m.Mounted? ==> exists a :: a in lookups.applications && a.uuid == p.applicationUuid.value
                                       && m.state.resource == Some(ApplicationResource(a)))
    ensures var m := Mount(isAdmin, p, lookups, status);
      !Given(p.applicationUuid) && Given(p.databaseUuid) ==>
        && (m == Aborted(NotFound) <==> p.databaseUuid.value !in lookups.teamDatabases)
        && (m.Mounted? ==> m.state.resource == Some(DatabaseResource(lookups.teamDatabases[p.databaseUuid.value])))
    ensures var m := Mount(isAdmin, p, lookups, status);
      !Given(p.applicationUuid) && !Given(p.databaseUuid) && Given(p.serviceUuid) ==>
        && (m == Aborted(NotFound) <==> forall sv :: sv in lookups.services ==> sv.uuid != p.serviceUuid.value)
        && (m.Mounted? ==> exists sv :: sv in lookups.services && sv.uuid == p.serviceUuid.value
                                        && m.state.resource == Some(ServiceResource(sv)))
    ensures var m := Mount(isAdmin, p, lookups, status);
      !Given(p.applicationUuid) && !Given(p.databaseUuid) && !Given(p.serviceUuid) && Given(p.serverUuid) ==>
        && (m == Aborted(NotFound) <==> forall s :: s in lookups.servers ==> s.uuid != p.serverUuid.value)
        && (m.Mounted? ==> exists s :: s in lookups.servers && s.uuid == p.serverUuid.value
                                       && m.state.resource == Some(ServerResource(s)))
    ensures !Given(p.applicationUuid) && !Given(p.databaseUuid) && !Given(p.serviceUuid) && !Given(p.serverUuid) ==>
      Mount(isAdmin, p, lookups, status) == Mounted(State(None, [], [], NoSelection, false))
  {
    if Given(p.applicationUuid) {
      var uuid := p.applicationUuid.value;
      if FindApplication(lookups.applications, uuid).Some? {
        FirstWhereFound(lookups.applications, (a: Application) => a.uuid == uuid);
      }
    } else if Given(p.databaseUuid) {
    } else if Given(p.serviceUuid) {
      var uuid := p.serviceUuid.value;
      if FindService(lookups.services, uuid).Some? {
        FirstWhereFound(lookups.services, (sv: Service) => sv.uuid == uuid);
      }
    } else if Given(p.serverUuid) {
      var uuid := p.serverUuid.value;
      if FindServer(lookups.servers, uuid).Some? {
        FirstWhereFound(lookups.servers, (s: Server) => s.uuid == uuid);
      }
    }
  }
}
