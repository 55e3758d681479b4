/** The desired-state items that travel from the centre to a node, and their digests. */
module Items {

  datatype HealthPolicy = HealthPolicy(strategy: string, probeUrl: string, probeInterval: string)

  datatype CascadeExit = CascadeExit(
    position: nat, host: string, port: nat, uuid: string, publicKey: string, shortId: string,
    serverName: string, xhttpPath: string)

  datatype CascadeRoute = CascadeRoute(
    routeId: nat, revision: nat, configDigest: Digest, title: string, inboundTags: seq<string>,
    exits: seq<CascadeExit>, health: HealthPolicy)

  datatype Item =
    | Client(uuid: string, email: string, expireMs: nat)
    | ConnLimit(userId: nat, limit: nat)
    | Service(routeId: nat, revision: nat, configDigest: Digest, uuid: string, email: string)
    | Route(route: CascadeRoute)

  /** What a cascade route's own digest covers: the route row and its enabled exits. */
  datatype RoutePayload = RoutePayload(
    routeId: nat, revision: nat, title: string, entryServerId: nat, health: HealthPolicy,
    transport: seq<string>, exits: seq<ExitPayload>)

  datatype ExitPayload = ExitPayload(
    exitServerId: nat, position: nat, serviceUuid: string, serverName: string, xhttpPath: string,
    host: string, port: nat, publicKey: string, shortId: string)

  /** SHA-256 of canonical JSON, taken to be injective: a digest determines what was hashed. */
  datatype Digest = ItemsDigest(items: seq<Item>) | RouteDigest(payload: RoutePayload)

  datatype Snapshot = Snapshot(schemaVersion: nat, generation: nat, digest: Digest, items: seq<Item>)

  /** The UUIDs a snapshot authorises, in item order: clients and cascade services. */
  function Uuids(items: seq<Item>): seq<string> {
    if items == [] then []
    else
      (match items[0]
       case Client(uuid, _, _) => [uuid]
       case Service(_, _, _, uuid, _) => [uuid]
       case _ => []) + Uuids(items[1..])
  }
}
