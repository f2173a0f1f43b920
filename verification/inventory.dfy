/**
 The records the terminal component reads: servers with their status flags,
 the three container-bearing resource kinds, a bare server as a resource of
 its own, and the container status records reported for an application.
 The inventory owns all of them; the component only reads them.
 */
module Inventory {
  import opened Options

  /** A server and the four flags the component consults. */
  datatype Server = Server(
    id: int,
    uuid: string,
    name: string,
    isFunctional: bool,
    isTerminalEnabled: bool,
    isSwarm: bool,
    isForceDisabled: bool)

  /**
   One container status record: its `Names` and its `State`, which is absent
   from the records the component synthesizes itself.
   */
  datatype ContainerRecord = ContainerRecord(names: string, state: Option<string>)

  /** A child application or child database of a service. */
  datatype Child = Child(name: string, isRunning: bool)

  datatype Application = Application(
    id: int,
    uuid: string,
    destinationServer: Server,
    additionalServers: seq<Server>)

  datatype Database = Database(uuid: string, destinationServer: Server, isRunning: bool)

  datatype Service = Service(
    uuid: string,
    server: Server,
    applications: seq<Child>,
    databases: seq<Child>)

  /** The resource a terminal page is opened for; the variant is fixed once resolved. */
  datatype Resource =
    | ApplicationResource(app: Application)
    | DatabaseResource(db: Database)
    | ServiceResource(svc: Service)
    | ServerResource(host: Server)

  /** A connectable target: a server together with the container record found on it. */
  datatype Candidate = Candidate(server: Server, container: ContainerRecord)

  /**
   What the container status query reports for the application under
   consideration, per server; a server the map does not mention reports no
   containers.
   */
  type StatusMap = map<Server, seq<ContainerRecord>>

  /** The sentinel value of the selected container name: nothing selected. */
  const NoSelection: string := "default"

  /** The only container state that makes an application container connectable. */
  const Running: string := "running"

  predicate IsFunctional(s: Server) { s.isFunctional }

  predicate IsTerminalEnabled(s: Server) { s.isTerminalEnabled }

  predicate IsTerminalDisabled(s: Server) { !s.isTerminalEnabled }
}
