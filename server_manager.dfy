/** The editor's registry of embedded servers, one per target framework
    (editor/editor/Managers/WebSocketServerManager.swift). */
module ServerManager {
  import opened Wrappers
  import opened Sets
  import opened EditorTypes
  import opened EditorServer

  datatype SetupFlowFramework = React | SwiftUI | JetpackCompose

  datatype WebsocketError = DidFailToEval | ServerNil

  /** One schema message per client, in visiting order. */
  function SchemaSends(clientIds: seq<ClientId>, wrappers: seq<AnimationWrapper>): (r: seq<Outgoing>)
    ensures |r| == |clientIds|
    ensures forall i :: 0 <= i < |r| ==> r[i] == Outgoing(clientIds[i], Schemas(wrappers))
  {
    if clientIds == [] then []
    else SchemaSends(clientIds[..|clientIds| - 1], wrappers) + [Outgoing(clientIds[|clientIds| - 1], Schemas(wrappers))]
  }

  /** Every client of a server is ready. */
  predicate AllReady(clients: map<ClientId, Connection>)
  {
    forall k :: k in clients ==> clients[k].ready
  }

  class WebSocketServerManager {
    var servers: map<SetupFlowFramework, Server>

    constructor ()
      ensures servers == map[]
    {
      servers := map[];
    }

    /** `startServer(for:port:onMessage:)`: nothing happens when the
        framework already has a server. Otherwise `UInt16(port)` traps for a
        port outside 0...65535, which `do`/`catch` cannot catch; a port in
        range gives a new server on it, registered unless its construction
        throws (`constructionFails`). */
    method StartServer(framework: SetupFlowFramework, port: int, constructionFails: bool) returns (trapped: bool)
      modifies this`servers
      ensures trapped <==> framework !in old(servers) && !(0 <= port < 0x1_0000)
      ensures framework in old(servers) || trapped || constructionFails ==> servers == old(servers)
      ensures framework !in old(servers) && !trapped && !constructionFails ==>
        framework in servers && fresh(servers[framework]) &&
        servers == old(servers)[framework := servers[framework]] &&
        servers[framework].port as int == port &&
        servers[framework].clients == map[] && servers[framework].treePackets == [] &&
        servers[framework].outbox == []
    {
      if framework in servers {
        return false;
      }
      if !(0 <= port < 0x1_0000) {
        return true;
      }
      if constructionFails {
        return false;
      }
      var server := new Server(port as UInt16);
      servers := servers[framework := server];
      return false;
    }

    /** `sendSchema`: with no server for the framework it fails with
        `serverNil`; otherwise it visits the clients in some order, sends
        the wrappers to each ready one, and fails at the first client that
        is not ready. `visited` lists the clients sent to. */
    method SendSchema(wrappers: seq<AnimationWrapper>, framework: SetupFlowFramework)
      returns (r: Result<int, WebsocketError>, ghost visited: seq<ClientId>)
      modifies if framework in servers then {servers[framework]} else {}
      ensures framework !in servers ==> r == Failure(ServerNil) && visited == []
      ensures framework in servers ==>
        var server := servers[framework];
        server.outbox == old(server.outbox) + SchemaSends(visited, wrappers) &&
        server.clients == old(server.clients) &&
        server.treePackets == old(server.treePackets) && server.treePacketsLUT == old(server.treePacketsLUT) &&
        (forall i :: 0 <= i < |visited| ==> visited[i] in server.clients && server.clients[visited[i]].ready) &&
        (forall i, j :: 0 <= i < j < |visited| ==> visited[i] != visited[j]) &&
        (r.Success? <==> AllReady(server.clients)) &&
        (r.Success? ==> r.value == 1 && |visited| == |server.clients.Keys| &&
                        forall k :: k in server.clients <==> k in visited) &&
        (r.Failure? ==> r.error == ServerNil)
    {
      if framework !in servers {
        return Failure(ServerNil), [];
      }
      var allReady;
      allReady, visited := SendToClients(servers[framework], wrappers);
      r := if allReady then Success(1) else Failure(ServerNil);
    }
  }

  /** The loop of `sendSchema`: the server's clients in some order, the
      wrappers sent to each ready one, stopping at the first that is not
      ready. `visited` lists the clients sent to. */
  method SendToClients(server: Server, wrappers: seq<AnimationWrapper>)
    returns (allReady: bool, ghost visited: seq<ClientId>)
    modifies server`outbox
    ensures server.outbox == old(server.outbox) + SchemaSends(visited, wrappers)
    ensures forall i :: 0 <= i < |visited| ==> visited[i] in server.clients && server.clients[visited[i]].ready
    ensures forall i, j :: 0 <= i < j < |visited| ==> visited[i] != visited[j]
    ensures allReady <==> AllReady(server.clients)
    ensures allReady ==> |visited| == |server.clients.Keys| && forall k :: k in server.clients <==> k in visited
  {
    var order := Enumerate(server.clients.Keys);
    visited := [];
    for i := 0 to |order|
      invariant visited == order[..i]
      invariant server.outbox == old(server.outbox) + SchemaSends(visited, wrappers)
      invariant forall j :: 0 <= j < i ==> server.clients[order[j]].ready
    {
      var key := order[i];
      if server.clients[key].ready {
        server.Send(Schemas(wrappers), key);
        SchemaSendsSnoc(visited, key, wrappers);
        visited := visited + [key];
      } else {
        assert !AllReady(server.clients);
        return false, visited;
      }
    }
    assert visited == order;
    allReady := true;
  }

  lemma SchemaSendsSnoc(clientIds: seq<ClientId>, id: ClientId, wrappers: seq<AnimationWrapper>)
    ensures SchemaSends(clientIds + [id], wrappers) == SchemaSends(clientIds, wrappers) + [Outgoing(id, Schemas(wrappers))]
  {
    assert (clientIds + [id])[..|clientIds|] == clientIds;
  }
}
