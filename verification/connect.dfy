/**
 The two connect handlers: `connectToServer` opens a host terminal on the
 first listed server, `connectToContainer` re-validates the selected
 container name against the component's candidate list before opening a
 container terminal. Each either emits exactly one terminal dispatch or is
 rejected, and every path through the guarded block clears `isConnecting`.
 */
module Connect {
  import opened Options
  import opened Seqs
  import opened Inventory
  import opened NameFormat
  import opened Component

  /** Why a connect request was refused. */
  datatype Rejection =
    | NothingSelected        // the "default" sentinel is still selected
    | InvalidNameFormat      // the name fails the allow-list pattern
    | ContainerNotFound      // no candidate carries the name
    | ServerDisabled         // the target server is force-disabled
    | InvalidResourceType    // the resource is not an application, database or service
    | OwnershipFailed        // the candidate's server does not belong to the resource
    | NoServer               // the server list is empty (a null dereference, caught)

  /**
   The outcome of a connect request: one terminal dispatch carrying
   (is-container, name, server uuid), or a rejection with no dispatch.
   */
  datatype Decision = Dispatch(toContainer: bool, name: string, serverUuid: string) | Rejected(reason: Rejection)

  datatype Outcome = Outcome(decision: Decision, state: State)

  /** `connectToServer`: a host terminal on the first server of the sorted list. */
  function ConnectToServer(st: State): (o: Outcome)
    ensures o.state == st.(isConnecting := false)
    ensures o.decision.Dispatch? <==> |st.servers| > 0 && !st.servers[0].isForceDisabled
    ensures o.decision.Dispatch? ==> !o.decision.toContainer && exists s :: s in st.servers && o.decision.serverUuid == s.uuid && o.decision.name == s.name
  {
    var decision :=
      if |st.servers| == 0 then Rejected(NoServer)
      else if st.servers[0].isForceDisabled then Rejected(ServerDisabled)
      else Dispatch(false, st.servers[0].name, st.servers[0].uuid);
    Outcome(decision, st.(isConnecting := false))
  }

  /** The primary server the ownership check compares against; absent for a bare server or no resource. */
  function ResourceServer(r: Option<Resource>): Option<Server>
  {
    match r
    case Some(ApplicationResource(a)) => Some(a.destinationServer)
    case Some(DatabaseResource(d)) => Some(d.destinationServer)
    case Some(ServiceResource(sv)) => Some(sv.server)
    case _ => None
  }

  /** The resource's additional servers: only applications have any. */
  function AdditionalServers(r: Option<Resource>): seq<Server>
  {
    match r
    case Some(ApplicationResource(a)) => a.additionalServers
    case _ => []
  }

  /** Some additional server of the resource carries the id `id`. */
  predicate ListsServerId(servers: seq<Server>, id: int)
  {
    exists i :: 0 <= i < |servers| && servers[i].id == id
  }

  /** The ownership rule: the candidate's server has the primary server's id or an additional server's id. */
  predicate OwnedBy(r: Option<Resource>, primary: Server, s: Server)
  {
    s.id == primary.id || ListsServerId(AdditionalServers(r), s.id)
  }

  /** The candidate a name resolves to: the first one carrying exactly that name. */
  function MatchCandidate(st: State, name: string): Option<Candidate>
  {
    FirstWhere(st.containers, (c: Candidate) => c.container.names == name)
  }

  /** The checks inside the guarded block of `connectToContainer`, first failure wins. */
  function ContainerDecision(st: State): (d: Decision)
    ensures d.Dispatch? ==> d.toContainer && d.name == st.selectedContainer
    ensures d.Dispatch? ==> exists c :: c in st.containers && d == Dispatch(true, c.container.names, c.server.uuid)
  {
    var name := st.selectedContainer;
    if !MatchesNamePattern(name) then Rejected(InvalidNameFormat)
    else
      match MatchCandidate(st, name)
      case None => Rejected(ContainerNotFound)
      case Some(c) =>
        FirstWhereFound(st.containers, (c: Candidate) => c.container.names == name);
        if c.server.isForceDisabled then Rejected(ServerDisabled)
        else
          match ResourceServer(st.resource)
          case None => Rejected(InvalidResourceType)
          case Some(primary) =>
            if !OwnedBy(st.resource, primary, c.server) then Rejected(OwnershipFailed)
            else Dispatch(true, c.container.names, c.server.uuid)
  }

  /**
   `connectToContainer`: with nothing selected it reports that and returns
   before the guarded block, leaving the state as it was; otherwise it runs the
   checks and clears `isConnecting` whatever they decide.
   */
  function ConnectToContainer(st: State): (o: Outcome)
    ensures st.selectedContainer == NoSelection ==> o == Outcome(Rejected(NothingSelected), st)
    ensures st.selectedContainer != NoSelection ==> o.state == st.(isConnecting := false)
    ensures o.decision.Dispatch? ==>
      exists c :: c in st.containers && !c.server.isForceDisabled
        && c.container.names == st.selectedContainer
        && o.decision == Dispatch(true, c.container.names, c.server.uuid)
  {
    if st.selectedContainer == NoSelection then Outcome(Rejected(NothingSelected), st)
    else Outcome(ContainerDecision(st), st.(isConnecting := false))
  }

  /** Index `i` holds the first candidate whose name is exactly `name`. */
  predicate FirstNamed(containers: seq<Candidate>, name: string, i: int)
  {
    && 0 <= i < |containers|
    && containers[i].container.names == name
    && forall j :: 0 <= j < i ==> containers[j].container.names != name
  }

  /** The candidate `MatchCandidate` picks is the one at the first index carrying the name. */
  lemma MatchCandidateIsFirstNamed(st: State, name: string, i: int)
    requires FirstNamed(st.containers, name, i)
    ensures MatchCandidate(st, name) == Some(st.containers[i])
  {
    var r := MatchCandidate(st, name);
    var k :| 0 <= k < |st.containers| && st.containers[k] == r.value
      && st.containers[k].container.names == name
      && forall j :: 0 <= j < k ==> st.containers[j].container.names != name;
    assert k <= i && i <= k;
  }

  /**
   The order in which `connectToContainer` refuses a request: the first check
   that fails decides the reason, so a force-disabled server is reported even
   when the ownership check would also fail, and only the first candidate
   carrying the requested name is ever examined.
   */
  lemma ContainerRejectionOrder(st: State, i: int)
    ensures var name := st.selectedContainer;
      name == NoSelection ==> ConnectToContainer(st).decision == Rejected(NothingSelected)
    ensures var name := st.selectedContainer;
      name != NoSelection && !MatchesNamePattern(name) ==>
        ConnectToContainer(st).decision == Rejected(InvalidNameFormat)
    ensures var name := st.selectedContainer;
      name != NoSelection && MatchesNamePattern(name)
      && (forall j :: 0 <= j < |st.containers| ==> st.containers[j].container.names != name) ==>
        ConnectToContainer(st).decision == Rejected(ContainerNotFound)
    ensures var name := st.selectedContainer;
      name != NoSelection && MatchesNamePattern(name) && FirstNamed(st.containers, name, i)
      && st.containers[i].server.isForceDisabled ==>
        ConnectToContainer(st).decision == Rejected(ServerDisabled)
    ensures var name := st.selectedContainer;
      name != NoSelection && MatchesNamePattern(name) && FirstNamed(st.containers, name, i)
      && !st.containers[i].server.isForceDisabled && ResourceServer(st.resource).None? ==>
        ConnectToContainer(st).decision == Rejected(InvalidResourceType)
    ensures var name := st.selectedContainer;
      name != NoSelection && MatchesNamePattern(name) && FirstNamed(st.containers, name, i)
      && !st.containers[i].server.isForceDisabled && ResourceServer(st.resource).Some?
      && !OwnedBy(st.resource, ResourceServer(st.resource).value, st.containers[i].server) ==>
        ConnectToContainer(st).decision == Rejected(OwnershipFailed)
  {
    var name := st.selectedContainer;
    if name != NoSelection && MatchesNamePattern(name) && FirstNamed(st.containers, name, i) {
      MatchCandidateIsFirstNamed(st, name, i);
    }
  }

  /**
   A container terminal is dispatched exactly when a name other than the
   sentinel is selected, it passes the format check, and the first candidate
   carrying it sits on a server that is not force-disabled and belongs to an
   application, database or service resource; the dispatch then carries that
   candidate's name and server uuid.
   */
  lemma ContainerDispatchIff(st: State)
    ensures ConnectToContainer(st).decision.Dispatch? <==>
      && st.selectedContainer != NoSelection
      && MatchesNamePattern(st.selectedContainer)
      && (exists i ::
            && FirstNamed(st.containers, st.selectedContainer, i)
            && !st.containers[i].server.isForceDisabled
            && ResourceServer(st.resource).Some?
            && OwnedBy(st.resource, ResourceServer(st.resource).value, st.containers[i].server))
    ensures ConnectToContainer(st).decision.Dispatch? ==>
      exists i :: FirstNamed(st.containers, st.selectedContainer, i)
        && ConnectToContainer(st).decision == Dispatch(true, st.selectedContainer, st.containers[i].server.uuid)
  {
    var name := st.selectedContainer;
    if name != NoSelection && MatchesNamePattern(name) {
      var m := MatchCandidate(st, name);
      if m.Some? {
        var k :| 0 <= k < |st.containers| && st.containers[k] == m.value
          && st.containers[k].container.names == name
          && forall j :: 0 <= j < k ==> st.containers[j].container.names != name;
        assert FirstNamed(st.containers, name, k);
        forall i | FirstNamed(st.containers, name, i) ensures i == k {
          assert k <= i && i <= k;
        }
      }
    }
  }

  /**
   When every check passes for the first candidate carrying the selected
   name, that candidate is dispatched, whatever else the state holds.
   */
  lemma ContainerChecksPassDispatch(st: State, i: int)
    requires st.selectedContainer != NoSelection && MatchesNamePattern(st.selectedContainer)
    requires FirstNamed(st.containers, st.selectedContainer, i)
    requires !st.containers[i].server.isForceDisabled
    requires ResourceServer(st.resource).Some?
    requires OwnedBy(st.resource, ResourceServer(st.resource).value, st.containers[i].server)
    ensures ConnectToContainer(st).decision == Dispatch(true, st.selectedContainer, st.containers[i].server.uuid)
  {
    MatchCandidateIsFirstNamed(st, st.selectedContainer, i);
  }

  /**
   When every candidate's server passes the ownership rule, the type and
   ownership checks never reject, and a container terminal is dispatched
   exactly when a non-sentinel, well-formed name is selected whose first
   candidate is not on a force-disabled server.
   */
  lemma ConnectOnOwnedState(st: State)
    requires forall c :: c in st.containers ==>
      ResourceServer(st.resource).Some? && OwnedBy(st.resource, ResourceServer(st.resource).value, c.server)
    ensures ConnectToContainer(st).decision != Rejected(OwnershipFailed)
    ensures ConnectToContainer(st).decision != Rejected(InvalidResourceType)
    ensures ConnectToContainer(st).decision.Dispatch? <==>
      && st.selectedContainer != NoSelection
      && MatchesNamePattern(st.selectedContainer)
      && exists i :: FirstNamed(st.containers, st.selectedContainer, i) && !st.containers[i].server.isForceDisabled
  {
    var name := st.selectedContainer;
    var d := ConnectToContainer(st).decision;
    if name != NoSelection && MatchesNamePattern(name) {
      var m := MatchCandidate(st, name);
      if m.Some? {
        var k :| 0 <= k < |st.containers| && st.containers[k] == m.value
          && st.containers[k].container.names == name
          && forall j :: 0 <= j < k ==> st.containers[j].container.names != name;
        assert FirstNamed(st.containers, name, k);
        assert m.value in st.containers;
        forall i | FirstNamed(st.containers, name, i) ensures i == k {
          assert k <= i && i <= k;
        }
      }
    }
  }

  /** `connectToServer` looks at the first listed server only: the rest of the list never matters. */
  lemma ConnectToServerUsesFirstOnly(st: State, other: State)
    requires |st.servers| > 0 && |other.servers| > 0 && st.servers[0] == other.servers[0]
    ensures ConnectToServer(st).decision == ConnectToServer(other).decision
  {
  }
}
