/**
 The server list the terminal component builds in `mount`: which servers of a
 resource are listed, in what order they are discovered, and the stable
 "terminal-enabled first" sort applied afterwards.
 */
module ServerList {
  import opened Seqs
  import opened Inventory

  /** The resource's primary server when it is functional, else nothing. */
  function IfFunctional(s: Server): (r: seq<Server>)
    ensures s in r <==> s.isFunctional
    ensures |r| <= 1 && forall x :: x in r ==> x == s
  {
    if s.isFunctional then [s] else []
  }

  /**
   The servers collected for a resource, in discovery order, before the sort:
   an application's destination server and then its additional servers, a
   database's destination server and a service's server, each only when
   functional; a bare server always, whatever its flags.
   */
  function DiscoveredServers(r: Resource): (ss: seq<Server>)
    ensures r.ServerResource? ==> ss == [r.host]
    ensures !r.ServerResource? ==> forall s :: s in ss ==> s.isFunctional
    ensures r.DatabaseResource? ==> |ss| <= 1
    ensures r.ServiceResource? ==> |ss| <= 1
  {
    match r
    case ApplicationResource(a) =>
      IfFunctional(a.destinationServer) + Filter(a.additionalServers, IsFunctional)
    case DatabaseResource(d) => IfFunctional(d.destinationServer)
    case ServiceResource(sv) => IfFunctional(sv.server)
    case ServerResource(s) => [s]
  }

  /** Which servers are discovered, per resource kind, and (for an application) in which order. */
  lemma DiscoveredServersMembers(r: Resource)
    ensures r.ApplicationResource? ==>
      DiscoveredServers(r) == IfFunctional(r.app.destinationServer) + Filter(r.app.additionalServers, IsFunctional)
    ensures r.ApplicationResource? ==> forall s ::
      s in DiscoveredServers(r) <==> s.isFunctional && (s == r.app.destinationServer || s in r.app.additionalServers)
    ensures r.DatabaseResource? ==> forall s ::
      s in DiscoveredServers(r) <==> s == r.db.destinationServer && s.isFunctional
    ensures r.ServiceResource? ==> forall s ::
      s in DiscoveredServers(r) <==> s == r.svc.server && s.isFunctional
  {
  }

  /** Every terminal-enabled server precedes every terminal-disabled one. */
  predicate TerminalFirst(r: seq<Server>)
  {
    forall i, j :: 0 <= i < j < |r| && r[j].isTerminalEnabled ==> r[i].isTerminalEnabled
  }

  /**
   The reference meaning of a stable descending sort on the terminal flag: the
   result is ordered terminal-enabled first, and within each flag value the
   servers appear exactly as they did in the input.
   */
  predicate IsStableSortByTerminal(input: seq<Server>, r: seq<Server>)
  {
    && TerminalFirst(r)
    && Filter(r, IsTerminalEnabled) == Filter(input, IsTerminalEnabled)
    && Filter(r, IsTerminalDisabled) == Filter(input, IsTerminalDisabled)
  }

  /** The collection's `sortByDesc(isTerminalEnabled)`; sorting in PHP 8 is stable. */
  function SortByTerminalDesc(ss: seq<Server>): (r: seq<Server>)
    ensures multiset(r) == multiset(ss)
    ensures |r| == |ss|
    ensures forall s :: s in r <==> s in ss
    ensures TerminalFirst(r)
  {
    var e := Filter(ss, IsTerminalEnabled);
    var d := Filter(ss, IsTerminalDisabled);
    FilterSplitIsPermutation(ss, IsTerminalEnabled, IsTerminalDisabled);
    PartitionIsTerminalFirst(e, d);
    e + d
  }

  /** Enabled servers followed by disabled ones are ordered terminal-first. */
  lemma PartitionIsTerminalFirst(e: seq<Server>, d: seq<Server>)
    requires forall s :: s in e ==> s.isTerminalEnabled
    requires forall s :: s in d ==> !s.isTerminalEnabled
    ensures TerminalFirst(e + d)
  {
    assert forall k :: 0 <= k < |e| ==> (e + d)[k] == e[k] && e[k] in e;
    assert forall k :: |e| <= k < |e + d| ==> (e + d)[k] == d[k - |e|] && d[k - |e|] in d;
  }

  /** The sort meets the reference definition of a stable sort. */
  lemma SortIsStable(ss: seq<Server>)
    ensures IsStableSortByTerminal(ss, SortByTerminalDesc(ss))
  {
    var e := Filter(ss, IsTerminalEnabled);
    var d := Filter(ss, IsTerminalDisabled);
    EnabledPartOfPartition(e, d);
    DisabledPartOfPartition(e, d);
  }

  /** Re-filtering enabled-then-disabled servers for the enabled ones gives back the enabled part. */
  lemma EnabledPartOfPartition(e: seq<Server>, d: seq<Server>)
    requires forall s :: s in e ==> s.isTerminalEnabled
    requires forall s :: s in d ==> !s.isTerminalEnabled
    ensures Filter(e + d, IsTerminalEnabled) == e
  {
    FilterAppend(e, d, IsTerminalEnabled);
    assert forall i :: 0 <= i < |e| ==> e[i] in e;
    assert forall i :: 0 <= i < |d| ==> d[i] in d;
    FilterAllOrNothing(e, IsTerminalEnabled);
    FilterAllOrNothing(d, IsTerminalEnabled);
  }

  /** Re-filtering enabled-then-disabled servers for the disabled ones gives back the disabled part. */
  lemma DisabledPartOfPartition(e: seq<Server>, d: seq<Server>)
    requires forall s :: s in e ==> s.isTerminalEnabled
    requires forall s :: s in d ==> !s.isTerminalEnabled
    ensures Filter(e + d, IsTerminalDisabled) == d
  {
    FilterAppend(e, d, IsTerminalDisabled);
    assert forall i :: 0 <= i < |e| ==> e[i] in e;
    assert forall i :: 0 <= i < |d| ==> d[i] in d;
    FilterAllOrNothing(e, IsTerminalDisabled);
    FilterAllOrNothing(d, IsTerminalDisabled);
  }

  /** A terminal-first sequence is its enabled part followed by its disabled part. */
  lemma {:induction false} TerminalFirstSplits(r: seq<Server>)
    requires TerminalFirst(r)
    ensures r == Filter(r, IsTerminalEnabled) + Filter(r, IsTerminalDisabled)
    decreases |r|
  {
    if r != [] {
      if r[0].isTerminalEnabled {
        assert TerminalFirst(r[1..]) by {
          forall i, j | 0 <= i < j < |r[1..]| && r[1..][j].isTerminalEnabled
            ensures r[1..][i].isTerminalEnabled
          {
            assert r[1..][j] == r[j + 1] && r[1..][i] == r[i + 1];
          }
        }
        TerminalFirstSplits(r[1..]);
      } else {
        assert forall i :: 0 <= i < |r| ==> !r[i].isTerminalEnabled by {
          forall i | 0 <= i < |r| ensures !r[i].isTerminalEnabled {
            if i > 0 { assert r[0] == r[..i + 1][0]; }
          }
        }
        FilterAllOrNothing(r, IsTerminalEnabled);
        FilterAllOrNothing(r, IsTerminalDisabled);
      }
    }
  }

  /** Any stable sort of the list by the terminal flag is the one `SortByTerminalDesc` computes. */
  lemma StableSortIsUnique(ss: seq<Server>, r: seq<Server>)
    requires IsStableSortByTerminal(ss, r)
    ensures r == SortByTerminalDesc(ss)
  {
    TerminalFirstSplits(r);
  }
}
