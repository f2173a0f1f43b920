# Terminal target resolution and connect authorization

This project models the `ExecuteContainerCommand` component of Coolify in
Dafny. The component backs the "terminal" page of a resource: it decides
which (server, container) targets an admin may open an interactive
terminal into, and whether a given connect request may go ahead.

Two pure pieces make up the model.

- **Target resolution (`mount` and `loadContainers`).** An admin opens the
  page for an application, a database, a service or a bare server. The
  component collects the resource's servers:
  - application, database or service: only the functional ones;
  - bare server: the server itself, whatever its flags.

  It then enumerates candidate containers with one rule per resource kind
  and sorts the server list so that terminal-enabled servers come first.
  When exactly one candidate results, it pre-selects that candidate's name.
  Otherwise the selection keeps the sentinel `"default"`.
- **Connect authorization (`connectToServer`, `connectToContainer`).**
  - A host terminal goes to the first listed server unless that server is
    force-disabled.
  - A container terminal needs every check of a short-circuit chain to pass:
    1. the sentinel is not selected;
    2. the name matches the allow-list pattern;
    3. some candidate carries the name;
    4. that candidate's server is not force-disabled;
    5. the resource is an application, database or service;
    6. the server belongs to the resource.

  A request either emits exactly one terminal dispatch
  `(isContainer, name, serverUuid)` or is rejected with a reason.

The modules follow the component's structure:

| file | module | contents |
|---|---|---|
| `options.dfy` | `Options` | `Option`, the model's `null` |
| `seqs.dfy` | `Seqs` | order-preserving `Filter`; `FirstWhere` (a collection's `first`/`firstWhere`) |
| `inventory.dfy` | `Inventory` | servers and their flags, resources as a tagged union, container status records, candidates |
| `server_list.dfy` | `ServerList` | the discovered server list and the stable terminal-first sort |
| `candidates.dfy` | `Candidates` | per-kind candidate enumeration and pre-selection |
| `name_format.dfy` | `NameFormat` | the PCRE pattern `^[a-zA-Z0-9][a-zA-Z0-9_.-]*$`, including `$` before a final newline |
| `component.dfy` | `Component` | component state, route-parameter precedence, admin gate and not-found aborts |
| `connect.dfy` | `Connect` | the two connect handlers as decisions, and the order in which they reject |
| `guarantees.dfy` | `Guarantees` | end-to-end properties of `mount` followed by a connect |

External collaborators become inputs:

- the admin check is a boolean;
- the route parameters are a record of optional strings (PHP truthiness: `""` and `"0"` count as absent);
- the Eloquent lookups are sequences searched for the first matching uuid;
- the team-scoped database lookup is a map from uuid to database;
- the container status query is a map from server to status records.

Dispatches and error reports become a returned `Decision`, and HTTP aborts become a `MountResult`.

Behaviour of `ExecuteContainerCommand.php` worth noting, which the model follows:

- `loadContainers` runs before the server list is sorted, so candidates are
  enumerated in discovery order. `Candidates.LoadContainersIgnoresTerminalSort`
  proves that this gives the same list as enumerating over the sorted list.
- Candidates are never deduplicated (`Guarantees.RepeatedServerRepeatsCandidates`).
- The force-disabled check runs before the resource-type and ownership checks.
- A service's running child databases become candidates without a
  terminal-enabled check on the service's server. Its child applications do
  get that check (`Guarantees.ServiceDatabasesSkipTerminalCheck`).
- `connectToServer` dispatches `(false, server name, server uuid)`.
- With nothing selected, `connectToContainer` returns before its guarded
  block. `isConnecting` is therefore left as it was on that path; every
  other path clears it.
- The ownership check reads `additional_servers` of whatever resource is
  loaded. Only applications are modelled with additional servers. For a
  database or a service the check therefore reduces to "same id as the
  primary server".

## Model

| member | source | states |
|---|---|---|
| `Seqs.FirstWhere` | app/Livewire/Project/Shared/ExecuteContainerCommand.php:176 | the lookup returns None exactly when no element matches, otherwise the element at the first matching index |
| `ServerList.DiscoveredServers` | app/Livewire/Project/Shared/ExecuteContainerCommand.php:42-76 | a bare server is listed alone whatever its flags; every server listed for an application, database or service is functional; a database or service lists at most one server |
| `ServerList.DiscoveredServersMembers` | app/Livewire/Project/Shared/ExecuteContainerCommand.php:42-76 | an application lists its destination server first, then its functional additional servers in order; a server is listed iff it is functional and is the destination or an additional server; a database or service lists its own server iff it is functional |
| `ServerList.SortByTerminalDesc` | app/Livewire/Project/Shared/ExecuteContainerCommand.php:77 | the sorted list is a permutation of the input in which every terminal-enabled server precedes every terminal-disabled one |
| `ServerList.SortIsStable` | app/Livewire/Project/Shared/ExecuteContainerCommand.php:77 | the sort meets the reference definition of a stable sort: terminal-first, and within each flag value the input order is kept |
| `ServerList.StableSortIsUnique` | app/Livewire/Project/Shared/ExecuteContainerCommand.php:77 | any list that is a stable terminal-first sort of the input equals the sort's result |
| `Candidates.RecordsOn` | app/Livewire/Project/Shared/ExecuteContainerCommand.php:84-92 | on a swarm server the only record considered is synthesized without a state, so none of its records is running |
| `Candidates.RunningOn` | app/Livewire/Project/Shared/ExecuteContainerCommand.php:93-101 | a record on a server becomes a candidate iff its state is exactly "running" and the server is terminal-enabled; a terminal-disabled server yields nothing |
| `Candidates.RunningOnKeepsRunningRecords` | app/Livewire/Project/Shared/ExecuteContainerCommand.php:93-101 | on a terminal-enabled server the candidates are exactly the running records, each once and in the reported order, so nothing is deduplicated within a server |
| `Candidates.ApplicationCandidates` | app/Livewire/Project/Shared/ExecuteContainerCommand.php:82-102 | a pair is an application candidate iff its server is listed, its record is among that server's records, the record is running and the server is terminal-enabled; no candidate is on a swarm server |
| `Candidates.DatabaseCandidates` | app/Livewire/Project/Shared/ExecuteContainerCommand.php:103-111 | a pair is a database candidate iff its server is listed and terminal-enabled, the database is running and the container is named by the database uuid |
| `Candidates.ChildCandidates` | app/Livewire/Project/Shared/ExecuteContainerCommand.php:113-132 | every running child (when its gate holds) yields a candidate `<name>-<service uuid>` bound to the service's server, and every candidate comes from such a child |
| `Candidates.ChildCandidatesKeepsRunningChildren` | app/Livewire/Project/Shared/ExecuteContainerCommand.php:113-131 | with the gate open, the candidates are exactly the running children, one `<name>-<service uuid>` each, in the order given |
| `Candidates.ServiceCandidates` | app/Livewire/Project/Shared/ExecuteContainerCommand.php:112-133 | the service's children are enumerated once per listed server; a pair is a candidate iff some server is listed and the pair is one of the service's child candidates |
| `Candidates.ApplicationCandidatesOneServer` | app/Livewire/Project/Shared/ExecuteContainerCommand.php:82-101 | a single listed server contributes exactly the candidates of its own records, as `RunningOn` pins them |
| `Candidates.ApplicationCandidatesAppend` | app/Livewire/Project/Shared/ExecuteContainerCommand.php:82-102 | application candidates of two server lists are the concatenation of each list's candidates: nothing is merged or deduplicated |
| `Candidates.DatabaseCandidatesAppend` | app/Livewire/Project/Shared/ExecuteContainerCommand.php:103-111 | database candidates of two server lists are the concatenation of each list's candidates |
| `Candidates.ServiceCandidatesByCount` | app/Livewire/Project/Shared/ExecuteContainerCommand.php:112-133 | service candidates depend only on the number of listed servers, since the loop variable is unused |
| `Candidates.ApplicationCandidatesOnlyEnabled` | app/Livewire/Project/Shared/ExecuteContainerCommand.php:95 | dropping the terminal-disabled servers from the list leaves the application candidates unchanged |
| `Candidates.DatabaseCandidatesOnlyEnabled` | app/Livewire/Project/Shared/ExecuteContainerCommand.php:104 | dropping the terminal-disabled servers from the list leaves the database candidates unchanged |
| `Candidates.LoadContainersIgnoresTerminalSort` | app/Livewire/Project/Shared/ExecuteContainerCommand.php:53-77 | enumerating candidates before the terminal-first sort, as the code does, gives the same list as enumerating over the sorted list |
| `Candidates.ApplicationCandidatesIgnoreSort` | app/Livewire/Project/Shared/ExecuteContainerCommand.php:77-102 | application candidates enumerated over the terminal-first sorted list equal those over the discovery-order list |
| `NameFormat.ScanName` | app/Livewire/Project/Shared/ExecuteContainerCommand.php:171 | the scan accepts exactly the names the anchored pattern matches: an alphanumeric first character, then alphanumerics, `_`, `.` or `-`, optionally followed by one newline |
| `NameFormat.RejectsUnsafeNames` | app/Livewire/Project/Shared/ExecuteContainerCommand.php:171-173 | "../etc", "a;rm -rf", ".hidden" and the empty name fail the format check, and "web-1_a.b" passes it |
| `NameFormat.TrailingNewlineAccepted` | app/Livewire/Project/Shared/ExecuteContainerCommand.php:171 | the end anchor admits exactly one trailing newline: "web\n" passes and "web\n\n" does not |
| `Component.Resolve` | app/Livewire/Project/Shared/ExecuteContainerCommand.php:42-137 | after resolving a resource, the server list is the stable terminal-first sort of the discovered servers (so each listed server is discovered, every candidate is bound to a listed one, and `isConnecting` is false); the candidates are those enumerated over the discovery-order list; the only candidate's name is pre-selected when there is exactly one, and the sentinel stays selected otherwise |
| `Component.CandidatesOnDiscoveredServers` | app/Livewire/Project/Shared/ExecuteContainerCommand.php:82-133 | every enumerated candidate is bound to one of the resource's discovered servers, including a service's children bound to the service's server |
| `Component.Mount` | app/Livewire/Project/Shared/ExecuteContainerCommand.php:34-78 | a non-admin caller is refused with 403 whatever the parameters and lookups; a mounted state has its servers terminal-first, each candidate bound to a listed server, and `isConnecting` false |
| `Component.MountPrecedence` | app/Livewire/Project/Shared/ExecuteContainerCommand.php:42-76 | once the application (then database, then service) parameter is given, the later parameters do not affect the outcome |
| `Component.MountResolvesFirstGivenParameter` | app/Livewire/Project/Shared/ExecuteContainerCommand.php:42-76 | for the first given parameter, `mount` aborts with 404 iff no record carries that uuid, and otherwise resolves a resource of that kind from the lookups carrying that uuid; with no parameter given the state stays empty |
| `Connect.ConnectToServer` | app/Livewire/Project/Shared/ExecuteContainerCommand.php:141-158 | a host terminal is dispatched iff the list is non-empty and its first server is not force-disabled; the dispatch is not a container dispatch and names a listed server; `isConnecting` is false afterwards and nothing else changes |
| `Connect.ConnectOnOwnedState` | app/Livewire/Project/Shared/ExecuteContainerCommand.php:164-208 | when every candidate's server passes the ownership rule, the type and ownership checks never reject, and a container terminal is dispatched iff a non-sentinel, well-formed name is selected whose first candidate is not on a force-disabled server |
| `Connect.ConnectToServerUsesFirstOnly` | app/Livewire/Project/Shared/ExecuteContainerCommand.php:144 | two states whose server lists start with the same server get the same host-terminal decision |
| `Connect.ContainerDecision` | app/Livewire/Project/Shared/ExecuteContainerCommand.php:169-208 | a dispatch from the guarded checks is a container dispatch naming the selected container and is taken from a candidate record |
| `Connect.ConnectToContainer` | app/Livewire/Project/Shared/ExecuteContainerCommand.php:162-214 | with the sentinel selected the request is refused and the state is untouched; otherwise `isConnecting` is cleared and nothing else changes; a dispatch names a candidate carrying the selected name whose server is not force-disabled |
| `Connect.MatchCandidateIsFirstNamed` | app/Livewire/Project/Shared/ExecuteContainerCommand.php:176 | the name lookup picks the candidate at the first index carrying the name |
| `Connect.ContainerRejectionOrder` | app/Livewire/Project/Shared/ExecuteContainerCommand.php:164-201 | the first failing check decides the reason, in this order: nothing selected, bad format, not found, server disabled, invalid resource type, ownership; only the first same-named candidate is examined |
| `Connect.ContainerDispatchIff` | app/Livewire/Project/Shared/ExecuteContainerCommand.php:164-208 | a container terminal is dispatched iff a non-sentinel, well-formed name is selected and the first candidate carrying it is on a server that is not force-disabled and belongs to an application, database or service; a dispatch carries the selected name and that first candidate's server uuid |
| `Connect.ContainerChecksPassDispatch` | app/Livewire/Project/Shared/ExecuteContainerCommand.php:164-208 | on any state, when every check passes for the first candidate carrying the selected name, that candidate's name and server uuid are dispatched |
| `Guarantees.ResolvedCandidateFacts` | app/Livewire/Project/Shared/ExecuteContainerCommand.php:82-133 | every candidate of a resolved state is on a discovered, functional server; for an application it is running on a terminal-enabled, non-swarm server; for a database the server is terminal-enabled; for a service it is the service's server; a bare server has none |
| `Guarantees.DiscoveredServersOwned` | app/Livewire/Project/Shared/ExecuteContainerCommand.php:192-201 | every server discovered for an application, database or service passes the ownership rule |
| `Guarantees.ResolvedCandidatesOwned` | app/Livewire/Project/Shared/ExecuteContainerCommand.php:192-201 | on a resolved state every candidate's server passes the ownership rule |
| `Guarantees.ResolvedStateConnect` | app/Livewire/Project/Shared/ExecuteContainerCommand.php:164-213 | on a resolved state the type and ownership checks never reject; a dispatch happens iff a non-sentinel, well-formed name is selected and its first candidate is not on a force-disabled server |
| `Guarantees.MountedIsResolved` | app/Livewire/Project/Shared/ExecuteContainerCommand.php:34-78 | a mounted state is either the empty state or the resolution of the resource that was found |
| `Guarantees.DispatchedTargetIsEnumerated` | app/Livewire/Project/Shared/ExecuteContainerCommand.php:176-208 | a dispatched container terminal targets an enumerated candidate with the selected name, on a listed, functional, not force-disabled server; for an application the container was running on a terminal-enabled, non-swarm server |
| `Guarantees.MountedDispatchIsEnumerated` | app/Livewire/Project/Shared/ExecuteContainerCommand.php:176-208 | after any successful `mount` and whatever name is selected, a dispatch needs a resolved resource and targets one of its enumerated candidates |
| `Guarantees.BareServerTerminal` | app/Livewire/Project/Shared/ExecuteContainerCommand.php:72-75 | a bare server is the only listed server whatever its flags; it has no candidates and keeps the sentinel selected; a host terminal is dispatched iff it is not force-disabled, and a container terminal never is |
| `Guarantees.PreselectionConnects` | app/Livewire/Project/Shared/ExecuteContainerCommand.php:135-137 | unless there is exactly one candidate, a resolved state keeps the sentinel and refuses to connect; with one well-formed candidate on a server that is not force-disabled, connecting straight away dispatches it |
| `Guarantees.ServiceDatabasesSkipTerminalCheck` | app/Livewire/Project/Shared/ExecuteContainerCommand.php:113-131 | on a functional, terminal-disabled service server, every running child database is still a candidate, and every candidate is a running child database |
| `Guarantees.OneTerminalServerOneCandidate` | app/Livewire/Project/Shared/ExecuteContainerCommand.php:93-101 | a container running on a terminal-enabled destination and on a terminal-disabled additional server gives exactly one candidate, on the destination, and that candidate is pre-selected |
| `Guarantees.RepeatedServerRepeatsCandidates` | app/Livewire/Project/Shared/ExecuteContainerCommand.php:45-52 | a destination server that is also listed as an additional server contributes each running container twice, so nothing is pre-selected |
| `Guarantees.ServiceThreeChildren` | app/Livewire/Project/Shared/ExecuteContainerCommand.php:113-132 | two running child applications and one running child database give exactly three candidates, named `<child>-<service uuid>` and bound to the service's server, applications first |
| `Guarantees.DisabledSoleServerRefused` | app/Livewire/Project/Shared/ExecuteContainerCommand.php:144-147 | a force-disabled sole server refuses the host terminal and only clears `isConnecting` |
| `Guarantees.ClientEditedListDispatches` | app/Livewire/Project/Shared/ExecuteContainerCommand.php:175-208 | for any candidate `mount` enumerated on a server that is not force-disabled, a list coming back holding only that candidate renamed to "other" gets "other" dispatched on its server, while the unedited state refuses "other" as not found whenever no enumerated candidate carries that name: the allow-list is the incoming list |
| `Guarantees.RenamedOwnedCandidateDispatches` | app/Livewire/Project/Shared/ExecuteContainerCommand.php:175-208 | on any state, a list holding only an owned candidate on a server that is not force-disabled, renamed to "other", gets "other" dispatched on that server |
| `Guarantees.UnlistedNameRefused` | app/Livewire/Project/Shared/ExecuteContainerCommand.php:175-179 | selecting "other" when no candidate carries that name is refused as not found |
| `Guarantees.ApplicationCandidatesOnAbsentServers` | app/Livewire/Project/Shared/ExecuteContainerCommand.php:82-102 | with no container status reported for any server, no server yields an application candidate |
| `Guarantees.RevalidatedConnect` | app/Livewire/Project/Shared/ExecuteContainerCommand.php:175-178 | checking the selected name against the candidates `mount` enumerates, whatever list the incoming state carries, dispatches only an enumerated candidate on a listed, functional server that is not force-disabled |

## Left out

- `render`, the `#[On]` event wiring and the unused `$rules`: these are presentation only.
- Eloquent queries, `auth()`, `get_route_parameters`, `getResourceByUuid` and `getCurrentApplicationContainerStatus` are foreign calls. They become inputs: an admin flag, a parameter record, lookup sequences and maps, and a status map.
- `getResourceByUuid` may return a resource of another kind. The model's team-scoped lookup returns databases only.
- A status record without `Names`: PHP reads a null name, but every record in the model carries a name.
- The `instanceof Server` guard (`ExecuteContainerCommand.php:183-185`) is a runtime type check. For candidate entries built on the server, typed records make it vacuous; an entry whose `server` the client supplied in some other form is not modelled.
- `firstWhere` compares with PHP's loose `==`, so numeric-looking strings compare numerically. The model compares names by string equality. The dispatched name therefore always equals the selected name.
- HTTP aborts and thrown exceptions become result values. The text of error messages passed to `handleError` or to the `error` event is not modelled; only the rejection reason is.
- Reading `additional_servers` on a database or service: the model gives those resources no additional servers. Whether PHP then compares against an empty relation or fails on a missing one, the outcome is the same rejection with no dispatch.
- A `selected_container` that is not a string is not modelled; selections are strings. PHP would convert a number or boolean to a string before the pattern check (and null to ""), and would throw only for an array or object.
- Whatever sets `isConnecting` to true is not part of this model. The handlers are modelled on any incoming state.
- Candidates.LoadContainers: models `loadContainers` only as `mount` calls it, once, on a fresh empty list. `loadContainers` is public (`ExecuteContainerCommand.php:80`), so a client can call it again after `mount`. A second call appends to the existing `containers` (lines 100, 105, 115, 125) instead of replacing it. It enumerates over the already-sorted `servers`. It reads `parameters` as the client sent them back (lines 83, 103, 112). The end-to-end guarantees assume no such second call.
- The round trip through the browser between `mount` and a connect request is not modelled. `containers`, `servers`, `resource`, `type` and `parameters` (`ExecuteContainerCommand.php:14-26`) are public properties without `#[Locked]`, so the client holds them in between. The end-to-end guarantees (`Guarantees.MountedDispatchIsEnumerated`, `Guarantees.ResolvedStateConnect` and the scenarios) assume that the state `mount` built comes back unchanged except for `selected_container`. Whether the framework lets a client edit each of these properties is not part of this model; `Guarantees.ClientEditedListDispatches` shows what an edited candidate list would do.
- The terminal transport that receives the dispatch is not part of this model.

## Findings

| source | as written | input that shows it | evidently intended | confidence | as-written member | corrected member |
|---|---|---|---|---|---|---|
| app/Livewire/Project/Shared/ExecuteContainerCommand.php:175-178 | the allow-list lookup searches `$this->containers`, a public property the client holds between requests | a resource with one enumerated candidate, and a connect request whose `containers` holds that same entry with its `container.Names` renamed to "other" (its `server` still the record `mount` stored) and whose `selected_container` is "other" | only a container that the server-side enumeration of `loadContainers` lists for the resource is accepted | low: depends on what the framework lets a client update; not executed | `Guarantees.ClientEditedListDispatches` | `Guarantees.RevalidatedConnect` |

The end-to-end guarantees already take only the selected name from the client, as `Guarantees.RevalidatedConnect` does.
