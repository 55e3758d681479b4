/** All nodes together: what stands behind a route that clients are told about. */
module Fleet {
  import opened Items
  import opened StoreShape
  import opened NodeSafety

  import opened Protocol
  import opened CascadeService

  type Nodes = map<nat, System>

  ghost predicate Reachable(s: System) {
    exists states, events :: SystemRun(states, events) && states[|events|] == s
  }

  ghost predicate BuiltBySomeDb(serverId: nat, items: seq<Item>) {
    exists db :: UniqueRoutes(db) && BuiltFrom(db, serverId, items)
  }

  /** Every node has run its own course, each of its publications was built from the database as it
      then was, and the acknowledgement table holds the nodes' rows. */
  ghost predicate FleetOk(db: Db, nodes: Nodes) {
    && UniqueRoutes(db)
    && (forall p :: p in db.acks <==> p in nodes)
    && (forall p :: p in nodes ==>
          && Reachable(nodes[p]) && db.acks[p] == nodes[p].row.routeAcks
          && forall g :: g in nodes[p].history ==> BuiltBySomeDb(p, nodes[p].history[g].items))
  }

  /** The snapshot the centre knows a node to have applied. */
  ghost predicate AppliedCarries(s: System, routeId: nat, a: (nat, Digest)) {
    s.row.applied in s.history && CarriedBy(s.history[s.row.applied].items, routeId, a)
  }

  lemma AckedExactly(s: System, routeId: nat, a: (nat, Digest))
    requires Reachable(s)
    ensures routeId in s.row.routeAcks
            && s.row.routeAcks[routeId].revision == a.0 && s.row.routeAcks[routeId].configDigest == a.1
            <==> AppliedCarries(s, routeId, a)
    ensures AppliedCarries(s, routeId, a) ==> s.row.applied in s.durable
  {
    hide Inv, HistoryBuilt, PlanKnown, TaskOk, WireOk, PagesStored, SnapshotsStored, Coherent, SystemStart, Next;
    var states, events :| SystemRun(states, events) && states[|events|] == s;
    SystemRunInv(states, events, |events|);
    HistoryBound(s);
  }

  /** Exactly when a route is advertised: alone at its entry, every participant alive, and every
      participant's acknowledged snapshot carries the route's current revision and digest. */
  lemma AdvertisedIffApplied(db: Db, nodes: Nodes, entries: set<nat>, r: RouteRow)
    requires FleetOk(db, nodes)
    ensures r in Advertised(db, entries) <==>
            && r in db.routes && r.enabled && r.entryServerId in entries && Lone(db, r) && Alive(db, r)
            && forall p :: p in Participants(db, r) ==>
                 p in nodes && AppliedCarries(nodes[p], r.id, (r.revision, CurrentDigest(db, r)))
  {
    hide Advertised, Lone, Alive, Participants, CurrentDigest, Reachable, AppliedCarries, BuiltBySomeDb;
    AdvertisedExactly(db, entries, r);
    forall p ensures HasAcked(db, r, p) <==>
                     p in nodes && AppliedCarries(nodes[p], r.id, (r.revision, CurrentDigest(db, r)))
    {
      if p in nodes {
        AckedExactly(nodes[p], r.id, (r.revision, CurrentDigest(db, r)));
      }
    }
  }

  /** A snapshot built from any database that carries a route's current digest holds, on the entry,
      exactly the route item the database would send now, and on each exit its service account. */
  lemma CarriedIsCurrent(db: Db, r: RouteRow, p: nat, items: seq<Item>)
    requires BuiltBySomeDb(p, items) && CarriedBy(items, r.id, (r.revision, CurrentDigest(db, r)))
    ensures p == r.entryServerId ==> RouteItem(db, r) in items
    ensures forall e :: e in RouteExits(db, r.id) && e.0.exitServerId == p ==> ServiceItem(db, r, e) in items
  {
    hide RouteExits, RouteItem, ServiceItem, Eligible;
    var db0 :| UniqueRoutes(db0) && BuiltFrom(db0, p, items);
    var r0 := BuiltCarries(db0, p, items, r.id, (r.revision, CurrentDigest(db, r)));
    DigestPinsRoute(db, r, db0, r0);
    EnabledExact(db0, r0);
    if p == r.entryServerId {
      assert RouteItem(db0, r0) in RouteItems(db0, p, r0);
      ItemsFromMember(db0, p, EnabledRoutes(db0), RouteItem(db0, r0));
      assert IsCascade(RouteItem(db0, r0)) by { RouteItemShape(db0, r0); }
    }
    forall e | e in RouteExits(db, r.id) && e.0.exitServerId == p ensures ServiceItem(db, r, e) in items {
      var i :| 0 <= i < |RouteExits(db, r.id)| && RouteExits(db, r.id)[i] == e;
      var e0 := RouteExits(db0, r0.id)[i];
      ServiceMember(db0, p, r0, RouteExits(db0, r0.id), ServiceItem(db0, r0, e0));
      assert ServiceItem(db0, r0, e0) in RouteItems(db0, p, r0);
      ItemsFromMember(db0, p, EnabledRoutes(db0), ServiceItem(db0, r0, e0));
      assert IsCascade(ServiceItem(db0, r0, e0)) by { ServiceItemShape(db0, r0, e0); }
    }
  }

  lemma RouteItemShape(db: Db, r: RouteRow)
    ensures RouteItem(db, r).Route?
  {
  }

  lemma ServiceItemShape(db: Db, r: RouteRow, e: Exit)
    ensures ServiceItem(db, r, e).Service?
  {
  }

  /** Nobody is sent into a route before it works: the entry durably applied the very route item
      the database holds now, and every enabled exit the service account the entry will use. */
  lemma AdvertisedIsDurable(db: Db, nodes: Nodes, entries: set<nat>, r: RouteRow)
    requires FleetOk(db, nodes) && r in Advertised(db, entries)
    ensures forall p :: p in Participants(db, r) ==>
              && p in nodes && nodes[p].row.applied in nodes[p].durable && nodes[p].row.applied in nodes[p].history
              && (p == r.entryServerId ==> RouteItem(db, r) in nodes[p].history[nodes[p].row.applied].items)
              && (forall e :: e in RouteExits(db, r.id) && e.0.exitServerId == p ==>
                    ServiceItem(db, r, e) in nodes[p].history[nodes[p].row.applied].items)
    ensures r.entryServerId in Participants(db, r)
    ensures forall e :: e in db.exits && e.routeId == r.id && e.enabled && e.exitServerId in db.servers ==>
              e.exitServerId in Participants(db, r)
  {
    hide RouteItem, ServiceItem, CurrentDigest, Advertised, Lone, Alive, Reachable, BuiltBySomeDb, RouteExits;
    AdvertisedIffApplied(db, nodes, entries, r);
    forall p | p in Participants(db, r)
      ensures p in nodes && nodes[p].row.applied in nodes[p].durable && nodes[p].row.applied in nodes[p].history
      ensures p == r.entryServerId ==> RouteItem(db, r) in nodes[p].history[nodes[p].row.applied].items
      ensures forall e :: e in RouteExits(db, r.id) && e.0.exitServerId == p ==>
                ServiceItem(db, r, e) in nodes[p].history[nodes[p].row.applied].items
    {
      AckedExactly(nodes[p], r.id, (r.revision, CurrentDigest(db, r)));
      CarriedIsCurrent(db, r, p, nodes[p].history[nodes[p].row.applied].items);
    }
    forall e | e in db.exits && e.routeId == r.id && e.enabled && e.exitServerId in db.servers
      ensures e.exitServerId in Participants(db, r)
    {
      RouteExitsExact(db, r.id, (e, db.servers[e.exitServerId]));
      assert (e, db.servers[e.exitServerId]) in RouteExits(db, r.id);
    }
  }
}
