/**
 Candidate enumeration (`loadContainers`): for each listed server, the
 (server, container) pairs a terminal may be opened into, by resource kind,
 and the single-candidate pre-selection. Candidates are appended in server
 order and never deduplicated.
 */
module Candidates {
  import opened Options
  import opened Seqs
  import opened Inventory
  import opened ServerList

  /** A container record whose reported state is exactly `running`. */
  predicate IsRunning(rec: ContainerRecord)
  {
    rec.state == Some(Running)
  }

  /**
   The container records considered for an application on one server: on a
   swarm server a single synthesized record named `<uuid>_<uuid>` that carries
   no state, otherwise what the status query reports.
   */
  function RecordsOn(a: Application, s: Server, status: StatusMap): (recs: seq<ContainerRecord>)
    ensures s.isSwarm ==> forall rec :: rec in recs ==> !IsRunning(rec)
  {
    if s.isSwarm then [ContainerRecord(a.uuid + "_" + a.uuid, None)]
    else if s in status then status[s]
    else []
  }

  /** The records on `s` that become candidates: running ones, and only on a terminal-enabled server. */
  function RunningOn(s: Server, recs: seq<ContainerRecord>): (r: seq<Candidate>)
    ensures |r| <= |recs|
    ensures !s.isTerminalEnabled ==> r == []
    ensures forall c :: c in r <==> c.server == s && c.container in recs && IsRunning(c.container) && s.isTerminalEnabled
    decreases |recs|
  {
    if recs == [] then []
    else
      (if IsRunning(recs[0]) && s.isTerminalEnabled then [Candidate(s, recs[0])] else [])
      + RunningOn(s, recs[1..])
  }

  /**
   On a terminal-enabled server the candidates are exactly the running records,
   each once and in the order the status query reports them: nothing is
   deduplicated within a server.
   */
  lemma {:induction false} RunningOnKeepsRunningRecords(s: Server, recs: seq<ContainerRecord>)
    ensures s.isTerminalEnabled ==> |RunningOn(s, recs)| == |Filter(recs, IsRunning)|
    ensures s.isTerminalEnabled ==> forall i :: 0 <= i < |RunningOn(s, recs)| ==>
      RunningOn(s, recs)[i] == Candidate(s, Filter(recs, IsRunning)[i])
    decreases |recs|
  {
    if recs != [] {
      RunningOnKeepsRunningRecords(s, recs[1..]);
      assert Filter(recs, IsRunning) == (if IsRunning(recs[0]) then [recs[0]] else []) + Filter(recs[1..], IsRunning);
    }
  }

  /** Application candidates over a list of servers, server by server. */
  function ApplicationCandidates(a: Application, servers: seq<Server>, status: StatusMap): (r: seq<Candidate>)
    ensures forall c :: c in r <==>
      && c.server in servers
      && c.container in RecordsOn(a, c.server, status)
      && IsRunning(c.container)
      && c.server.isTerminalEnabled
    ensures forall c :: c in r ==> !c.server.isSwarm
    decreases |servers|
  {
    if servers == [] then []
    else RunningOn(servers[0], RecordsOn(a, servers[0], status)) + ApplicationCandidates(a, servers[1..], status)
  }

  /** Database candidates: one container named after the database per terminal-enabled listed server, while it runs. */
  function DatabaseCandidates(d: Database, servers: seq<Server>): (r: seq<Candidate>)
    ensures |r| <= |servers|
    ensures forall c :: c in r <==>
      && c.server in servers
      && c.server.isTerminalEnabled
      && d.isRunning
      && c.container == ContainerRecord(d.uuid, None)
    decreases |servers|
  {
    if servers == [] then []
    else
      (if d.isRunning && servers[0].isTerminalEnabled
       then [Candidate(servers[0], ContainerRecord(d.uuid, None))] else [])
      + DatabaseCandidates(d, servers[1..])
  }

  /** The container name of a service child: `<child name>-<service uuid>`. */
  function ChildContainerName(sv: Service, child: Child): string
  {
    child.name + "-" + sv.uuid
  }

  /**
   One candidate per running child, bound to the service's own server, when
   `gate` holds. Child applications are gated on the service server being
   terminal-enabled; child databases are not gated at all.
   */
  function ChildCandidates(sv: Service, children: seq<Child>, gate: bool): (r: seq<Candidate>)
    ensures |r| <= |children|
    ensures !gate ==> r == []
    ensures forall c :: c in r ==> c.server == sv.server && c.container.state == None
    ensures forall ch :: ch in children && ch.isRunning && gate ==>
      Candidate(sv.server, ContainerRecord(ChildContainerName(sv, ch), None)) in r
    ensures forall c :: c in r ==> gate && exists ch :: ch in children && ch.isRunning && c.container.names == ChildContainerName(sv, ch)
    decreases |children|
  {
    if children == [] then []
    else
      (if children[0].isRunning && gate
       then [Candidate(sv.server, ContainerRecord(ChildContainerName(sv, children[0]), None))] else [])
      + ChildCandidates(sv, children[1..], gate)
  }

  predicate ChildRunning(ch: Child)
  {
    ch.isRunning
  }

  /**
   With the gate open, the candidates are exactly the running children, one
   each and in the order given: nothing is merged or repeated.
   */
  lemma {:induction false} ChildCandidatesKeepsRunningChildren(sv: Service, children: seq<Child>)
    ensures |ChildCandidates(sv, children, true)| == |Filter(children, ChildRunning)|
    ensures forall i :: 0 <= i < |ChildCandidates(sv, children, true)| ==>
      ChildCandidates(sv, children, true)[i]
        == Candidate(sv.server, ContainerRecord(ChildContainerName(sv, Filter(children, ChildRunning)[i]), None))
    decreases |children|
  {
    if children != [] {
      ChildCandidatesKeepsRunningChildren(sv, children[1..]);
      assert Filter(children, ChildRunning)
        == (if ChildRunning(children[0]) then [children[0]] else []) + Filter(children[1..], ChildRunning);
    }
  }

  /** The candidates one pass over a service contributes: child applications, then child databases. */
  function ServiceChildren(sv: Service): seq<Candidate>
  {
    ChildCandidates(sv, sv.applications, sv.server.isTerminalEnabled) + ChildCandidates(sv, sv.databases, true)
  }

  /**
   Service candidates: the service's children are enumerated once per listed
   server (the loop variable is not used), always bound to the service's server.
   */
  function ServiceCandidates(sv: Service, servers: seq<Server>): (r: seq<Candidate>)
    ensures |r| == |servers| * |ServiceChildren(sv)|
    ensures forall c :: c in r <==> |servers| > 0 && c in ServiceChildren(sv)
    decreases |servers|
  {
    if servers == [] then []
    else
      var rest := ServiceCandidates(sv, servers[1..]);
      assert |servers| * |ServiceChildren(sv)| == |ServiceChildren(sv)| + (|servers| - 1) * |ServiceChildren(sv)|;
      ServiceChildren(sv) + rest
  }

  /** `loadContainers` for a resource over the given (unsorted) server list. */
  function LoadContainers(r: Resource, servers: seq<Server>, status: StatusMap): seq<Candidate>
  {
    match r
    case ApplicationResource(a) => ApplicationCandidates(a, servers, status)
    case DatabaseResource(d) => DatabaseCandidates(d, servers)
    case ServiceResource(sv) => ServiceCandidates(sv, servers)
    case ServerResource(_) => []
  }

  /**
   The pre-selected container name: the only candidate's name when there is
   exactly one candidate, the "nothing selected" sentinel otherwise.
   */
  function Preselect(candidates: seq<Candidate>): string
  {
    if |candidates| == 1 then candidates[0].container.names else NoSelection
  }

  /** One listed server contributes exactly its running records, each once and in the order the status query reports them. */
  lemma ApplicationCandidatesOneServer(a: Application, s: Server, status: StatusMap)
    ensures ApplicationCandidates(a, [s], status) == RunningOn(s, RecordsOn(a, s, status))
  {
    assert [s][1..] == [];
  }

  /** Application candidates over two lists are the candidates of each, in order: nothing is merged or deduplicated. */
  lemma {:induction false} ApplicationCandidatesAppend(a: Application, xs: seq<Server>, ys: seq<Server>, status: StatusMap)
    ensures ApplicationCandidates(a, xs + ys, status) == ApplicationCandidates(a, xs, status) + ApplicationCandidates(a, ys, status)
    decreases |xs|
  {
    if xs == [] {
      assert xs + ys == ys;
    } else {
      assert (xs + ys)[0] == xs[0];
      assert (xs + ys)[1..] == xs[1..] + ys;
      ApplicationCandidatesAppend(a, xs[1..], ys, status);
    }
  }

  /** Database candidates over two lists are the candidates of each, in order. */
  lemma {:induction false} DatabaseCandidatesAppend(d: Database, xs: seq<Server>, ys: seq<Server>)
    ensures DatabaseCandidates(d, xs + ys) == DatabaseCandidates(d, xs) + DatabaseCandidates(d, ys)
    decreases |xs|
  {
    if xs == [] {
      assert xs + ys == ys;
    } else {
      assert (xs + ys)[0] == xs[0];
      assert (xs + ys)[1..] == xs[1..] + ys;
      DatabaseCandidatesAppend(d, xs[1..], ys);
    }
  }

  /** Service candidates depend only on how many servers are listed, not on which. */
  lemma {:induction false} ServiceCandidatesByCount(sv: Service, xs: seq<Server>, ys: seq<Server>)
    requires |xs| == |ys|
    ensures ServiceCandidates(sv, xs) == ServiceCandidates(sv, ys)
    decreases |xs|
  {
    if xs != [] {
      ServiceCandidatesByCount(sv, xs[1..], ys[1..]);
    }
  }

  /** Terminal-disabled servers contribute no application candidates, so dropping them changes nothing. */
  lemma {:induction false} ApplicationCandidatesOnlyEnabled(a: Application, ss: seq<Server>, status: StatusMap)
    ensures ApplicationCandidates(a, ss, status) == ApplicationCandidates(a, Filter(ss, IsTerminalEnabled), status)
    decreases |ss|
  {
    if ss != [] {
      ApplicationCandidatesOnlyEnabled(a, ss[1..], status);
      var rest := Filter(ss[1..], IsTerminalEnabled);
      if ss[0].isTerminalEnabled {
        assert Filter(ss, IsTerminalEnabled) == [ss[0]] + rest;
        assert ([ss[0]] + rest)[1..] == rest;
      } else {
        assert Filter(ss, IsTerminalEnabled) == rest;
      }
    }
  }

  /** Terminal-disabled servers contribute no database candidates, so dropping them changes nothing. */
  lemma {:induction false} DatabaseCandidatesOnlyEnabled(d: Database, ss: seq<Server>)
    ensures DatabaseCandidates(d, ss) == DatabaseCandidates(d, Filter(ss, IsTerminalEnabled))
    decreases |ss|
  {
    if ss != [] {
      DatabaseCandidatesOnlyEnabled(d, ss[1..]);
      var rest := Filter(ss[1..], IsTerminalEnabled);
      if ss[0].isTerminalEnabled {
        assert Filter(ss, IsTerminalEnabled) == [ss[0]] + rest;
        assert ([ss[0]] + rest)[1..] == rest;
      } else {
        assert Filter(ss, IsTerminalEnabled) == rest;
      }
    }
  }

  /**
   `mount` enumerates candidates over the server list BEFORE sorting it; the
   candidates come out the same as if the sorted list had been used.
   */
  lemma LoadContainersIgnoresTerminalSort(r: Resource, ss: seq<Server>, status: StatusMap)
    ensures LoadContainers(r, SortByTerminalDesc(ss), status) == LoadContainers(r, ss, status)
  {
    match r {
      case ApplicationResource(a) => ApplicationCandidatesIgnoreSort(a, ss, status);
      case DatabaseResource(db) => DatabaseCandidatesIgnoreSort(db, ss);
      case ServiceResource(sv) => ServiceCandidatesByCount(sv, SortByTerminalDesc(ss), ss);
      case ServerResource(_) =>
    }
  }

  /** The disabled servers of a list contribute no candidates, and the enabled ones keep their order. */
  lemma ApplicationCandidatesIgnoreSort(a: Application, ss: seq<Server>, status: StatusMap)
    ensures ApplicationCandidates(a, SortByTerminalDesc(ss), status) == ApplicationCandidates(a, ss, status)
  {
    var e := Filter(ss, IsTerminalEnabled);
    var d := Filter(ss, IsTerminalDisabled);
    SortIsStable(ss);
    ApplicationCandidatesAppend(a, e, d, status);
    ApplicationCandidatesOnlyEnabled(a, d, status);
    FilterAllOrNothing(d, IsTerminalEnabled);
    assert forall i :: 0 <= i < |d| ==> d[i] in d;
    ApplicationCandidatesOnlyEnabled(a, ss, status);
  }

  /** The same for a database: only its enabled destination server can contribute. */
  lemma DatabaseCandidatesIgnoreSort(db: Database, ss: seq<Server>)
    ensures DatabaseCandidates(db, SortByTerminalDesc(ss)) == DatabaseCandidates(db, ss)
  {
    var e := Filter(ss, IsTerminalEnabled);
    var d := Filter(ss, IsTerminalDisabled);
    SortIsStable(ss);
    DatabaseCandidatesAppend(db, e, d);
    DatabaseCandidatesOnlyEnabled(db, d);
    FilterAllOrNothing(d, IsTerminalEnabled);
    assert forall i :: 0 <= i < |d| ==> d[i] in d;
    DatabaseCandidatesOnlyEnabled(db, ss);
  }
}
