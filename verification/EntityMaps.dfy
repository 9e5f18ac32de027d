/** The two-way map between server and client entities (server_entity_map.rs). */
module EntityMaps {
  import opened Domain

  type Mapping = map<Entity, Entity>

  /** Each map undoes the other. */
  ghost predicate Inverse(toClient: Mapping, toServer: Mapping) {
    && (forall s <- toClient :: toClient[s] in toServer && toServer[toClient[s]] == s)
    && (forall c <- toServer :: toServer[c] in toClient && toClient[toServer[c]] == c)
  }

  /** A pair keeps the maps inverse exactly if neither entity has another partner. */
  lemma PairIff(toClient: Mapping, toServer: Mapping, s: Entity, c: Entity)
    requires Inverse(toClient, toServer)
    ensures Inverse(toClient[s := c], toServer[c := s]) <==>
      (s in toClient ==> toClient[s] == c) && (c in toServer ==> toServer[c] == s)
  {
    if s in toClient && toClient[s] != c {
      assert toServer[c := s][toClient[s]] == s;
    }
    if c in toServer && toServer[c] != s {
      assert toClient[s := c][toServer[c]] == c;
    }
  }

  /** What the application sees of each server entity: the state of the client entity mapped to it. */
  function Replicas<V>(toClient: Mapping, world: map<Entity, V>): map<Entity, V> {
    map s | s in toClient && toClient[s] in world :: world[toClient[s]]
  }

  /** A write to the client entity of `s` changes the replica of `s` alone. */
  lemma WriteIsLocal<V>(toClient: Mapping, toServer: Mapping, world: map<Entity, V>, s: Entity, v: V)
    requires Inverse(toClient, toServer) && s in toClient
    ensures Replicas(toClient, world[toClient[s] := v]) == Replicas(toClient, world)[s := v]
  {
  }

  /** A spawned entity is the replica of `s` alone, and the despawn of a client entity takes the replica of `s` alone. */
  lemma SpawnAndDespawnAreLocal<V>(toClient: Mapping, toServer: Mapping, world: map<Entity, V>, s: Entity, c: Entity, v: V)
    requires Inverse(toClient, toServer)
    ensures s !in toClient && c !in toServer ==>
      Replicas(toClient[s := c], world[c := v]) == Replicas(toClient, world)[s := v]
    ensures s in toClient ==>
      Replicas(toClient - {s}, world - {toClient[s]}) == Replicas(toClient, world) - {s}
  {
  }

  class ServerEntityMap {
    var serverToClient: Mapping
    var clientToServer: Mapping

    constructor ()
      ensures Valid() && serverToClient == map[]
    {
      serverToClient, clientToServer := map[], map[];
    }

    ghost predicate Valid()
      reads this
    {
      Inverse(serverToClient, clientToServer)
    }

    /** Panics if `server` has another client entity. The caller may not reuse the client entity of another one. */
    method Insert(server: Entity, client: Entity) returns (panics: bool)
      requires Valid()
      modifies this
      ensures panics <==> server in old(serverToClient) && old(serverToClient)[server] != client
      ensures !panics ==> serverToClient == old(serverToClient)[server := client]
      ensures !panics ==> (Valid() <==> client in old(clientToServer) ==> old(clientToServer)[client] == server)
    {
      PairIff(serverToClient, clientToServer, server, client);
      panics := server in serverToClient && serverToClient[server] != client;
      serverToClient := serverToClient[server := client];
      if panics {
        return;
      }
      clientToServer := clientToServer[client := server];
    }

    /** `spawned` is what the caller spawns if there is no client entity yet. */
    method GetByServerOrInsert(server: Entity, spawned: Entity) returns (client: Entity)
      requires Valid() && (server in serverToClient || spawned !in clientToServer)
      modifies this
      ensures Valid()
      ensures client == if server in old(serverToClient) then old(serverToClient)[server] else spawned
      ensures serverToClient == old(serverToClient)[server := client]
    {
      if server in serverToClient {
        assert serverToClient == serverToClient[server := serverToClient[server]];
        return serverToClient[server];
      }
      PairIff(serverToClient, clientToServer, server, spawned);
      client := spawned;
      serverToClient := serverToClient[server := client];
      clientToServer := clientToServer[client := server];
    }

    method RemoveByServer(server: Entity) returns (removed: Option<Entity>)
      requires Valid()
      modifies this
      ensures Valid() && serverToClient == old(serverToClient) - {server}
      ensures removed == if server in old(serverToClient) then Some(old(serverToClient)[server]) else None
    {
      if server !in serverToClient {
        return None;
      }
      var client := serverToClient[server];
      serverToClient, clientToServer := serverToClient - {server}, clientToServer - {client};
      return Some(client);
    }

    method RemoveByClient(client: Entity) returns (removed: Option<Entity>)
      requires Valid()
      modifies this
      ensures Valid() && clientToServer == old(clientToServer) - {client}
      ensures removed == if client in old(clientToServer) then Some(old(clientToServer)[client]) else None
    {
      if client !in clientToServer {
        return None;
      }
      var server := clientToServer[client];
      serverToClient, clientToServer := serverToClient - {server}, clientToServer - {client};
      return Some(server);
    }

    method Clear()
      modifies this
      ensures Valid() && serverToClient == map[] && clientToServer == map[]
    {
      clientToServer, serverToClient := map[], map[];
    }
  }
}
