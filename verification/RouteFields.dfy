/** The cascade items and the advertised routes in terms of the tables' own columns. */
module RouteFields {
  import opened Wrappers
  import opened Seqs
  import opened Decimal
  import opened Items
  import opened Centre
  import opened CascadeService
  import opened Publication
  import opened Protocol
  import opened Fleet

  // --- who can take part ----------------------------------------------------------------------------

  predicate IsUp(db: Db, id: nat) {
    id in db.servers && db.servers[id].isActive && "cascade-v2" in db.servers[id].features
  }

  predicate Plays(db: Db, id: nat, role: string) {
    IsUp(db, id) && (db.servers[id].role == role || db.servers[id].role == "both")
  }

  /** An enabled exit of the route, on a server that exists. */
  predicate ExitsAt(db: Db, r: RouteRow, e: ExitRow) {
    e in db.exits && e.routeId == r.id && e.enabled && e.exitServerId in db.servers
  }

  /** The route can work: its entry and all of its exits can play their parts, and it has one. */
  ghost predicate Works(db: Db, r: RouteRow) {
    && r in db.routes && r.enabled && Plays(db, r.entryServerId, "entry")
    && (exists e :: ExitsAt(db, r, e))
    && (forall e :: ExitsAt(db, r, e) ==> Plays(db, e.exitServerId, "exit"))
  }

  lemma ExitsAre(db: Db, r: RouteRow, e: Exit)
    ensures e in RouteExits(db, r.id) <==> ExitsAt(db, r, e.0) && e.1 == db.servers[e.0.exitServerId]
  {
    RouteExitsExact(db, r.id, e);
  }

  lemma EligibleExactly(db: Db, r: RouteRow)
    requires r in db.routes && r.enabled
    ensures Eligible(db, r) <==> Works(db, r)
  {
    hide RouteExits;
    var exits := RouteExits(db, r.id);
    forall e ensures e in exits <==> ExitsAt(db, r, e.0) && e.1 == db.servers[e.0.exitServerId] {
      ExitsAre(db, r, e);
    }
    if e :| ExitsAt(db, r, e) {
      assert (e, db.servers[e.exitServerId]) in exits;
    }
    if exits != [] {
      assert exits[0] in exits;
    }
    if Eligible(db, r) {
      forall e | ExitsAt(db, r, e) ensures Plays(db, e.exitServerId, "exit") {
        assert (e, db.servers[e.exitServerId]) in exits;
      }
    }
  }

  // --- the items, column by column ---------------------------------------------------------------------

  /** How the entry is told to reach one exit. */
  predicate Reaches(x: CascadeExit, e: ExitRow, s: Server) {
    && x.position == e.position && x.uuid == e.serviceUuid && x.serverName == e.serverName
    && x.xhttpPath == (if e.xhttpPath == "" then "/" else e.xhttpPath)
    && x.host == s.host && x.port == s.port && x.publicKey == s.publicKey && x.shortId == s.shortId
  }

  /** One exit for each enabled exit row, by position. */
  ghost predicate ExitsListed(db: Db, r: RouteRow, exits: seq<CascadeExit>, rows: seq<ExitRow>) {
    && |exits| == |rows| && Distinct(rows)
    && (forall e :: e in rows <==> ExitsAt(db, r, e))
    && (forall i, j :: 0 <= i < j < |rows| ==> rows[i].position <= rows[j].position)
    && (forall k :: 0 <= k < |rows| ==>
          rows[k].exitServerId in db.servers && Reaches(exits[k], rows[k], db.servers[rows[k].exitServerId]))
  }

  ghost predicate RouteSays(db: Db, r: RouteRow, t: CascadeRoute) {
    && t.routeId == r.id && t.revision == r.revision && t.title == r.title && t.health == r.health
    && t.configDigest == CurrentDigest(db, r)
    && t.inboundTags == (if r.transport == [] then ["vless-in"] else r.transport)
    && exists rows :: ExitsListed(db, r, t.exits, rows)
  }

  function Rows(exits: seq<Exit>): (r: seq<ExitRow>)
    ensures |r| == |exits| && forall k :: 0 <= k < |r| ==> r[k] == exits[k].0
  {
    seq(|exits|, k requires 0 <= k < |exits| => exits[k].0)
  }

  lemma ExitListed(db: Db, r: RouteRow)
    requires RouteKeys(db)
    ensures ExitsListed(db, r, ExitList(RouteExits(db, r.id)), Rows(RouteExits(db, r.id)))
  {
    hide RouteExits, ExitsAt, Reaches, RouteKeys;
    var exits := RouteExits(db, r.id);
    var rows := Rows(exits);
    RowsInOrder(db, r);
    forall k | 0 <= k < |rows|
      ensures ExitsAt(db, r, rows[k]) && rows[k].exitServerId in db.servers
              && Reaches(ExitList(exits)[k], rows[k], db.servers[rows[k].exitServerId])
    {
      ExitsAre(db, r, exits[k]);
      ExitReached(db, r, exits[k]);
    }
    forall e ensures e in rows <==> ExitsAt(db, r, e) {
      if ExitsAt(db, r, e) {
        RowIn(db, r, e);
      }
    }
  }

  lemma ExitReached(db: Db, r: RouteRow, e: Exit)
    requires ExitsAt(db, r, e.0) && e.1 == db.servers[e.0.exitServerId]
    ensures e.0.exitServerId in db.servers && Reaches(ExitOf(e), e.0, db.servers[e.0.exitServerId])
  {
  }

  lemma RowIn(db: Db, r: RouteRow, e: ExitRow)
    requires ExitsAt(db, r, e)
    ensures e in Rows(RouteExits(db, r.id))
  {
    hide RouteExits;
    var exits := RouteExits(db, r.id);
    ExitsAre(db, r, (e, db.servers[e.exitServerId]));
    var k :| 0 <= k < |exits| && exits[k] == (e, db.servers[e.exitServerId]);
    assert Rows(exits)[k] == e;
  }

  lemma RowsInOrder(db: Db, r: RouteRow)
    requires RouteKeys(db)
    ensures var rows := Rows(RouteExits(db, r.id));
            Distinct(rows) && forall i, j :: 0 <= i < j < |rows| ==> rows[i].position <= rows[j].position
  {
    hide RouteExits, SortedBy;
    var exits := RouteExits(db, r.id);
    ExitsDistinct(db, r.id);
    PositionSorted(db, r.id);
    forall i, j | 0 <= i < j < |exits| ensures exits[i].0.position <= exits[j].0.position && exits[i].0 != exits[j].0 {
      SortedPair(PositionOf, exits, i, j);
      ExitsAre(db, r, exits[i]);
      ExitsAre(db, r, exits[j]);
    }
  }

  lemma PositionSorted(db: Db, routeId: nat)
    ensures SortedBy(PositionOf, RouteExits(db, routeId))
  {
    SortByIsSort(PositionOf, SortBy(ServerIdOf, JoinExits(db, routeId, db.exits)));
  }

  lemma RouteItemSays(db: Db, r: RouteRow)
    requires RouteKeys(db)
    ensures RouteItem(db, r).Route? && RouteSays(db, r, RouteItem(db, r).route)
  {
    hide CurrentDigest, RouteExits, ExitsListed;
    ExitListed(db, r);
  }

  /** A row list is determined by what it lists, up to the order of equal positions. */
  ghost predicate ServiceSays(db: Db, r: RouteRow, e: ExitRow, x: Item) {
    && x.Service? && x.routeId == r.id && x.revision == r.revision && x.configDigest == CurrentDigest(db, r)
    && x.uuid == e.serviceUuid && x.email == "cascade_route_" + Dec(r.id) + "_entry_" + Dec(r.entryServerId)
  }

  lemma InItems(db: Db, serverId: nat, x: Item, r: RouteRow)
    requires r in db.routes && r.enabled
    requires serverId in db.servers && SupportsCascade(db.servers[serverId]) && x in RouteItems(db, serverId, r)
    ensures x in CascadeItems(db, serverId)
  {
    EnabledExact(db, r);
    ItemsFromMember(db, serverId, EnabledRoutes(db), x);
  }

  lemma FromRoute(db: Db, serverId: nat, x: Item) returns (r: RouteRow)
    requires x in CascadeItems(db, serverId)
    ensures r in db.routes && r.enabled && x in RouteItems(db, serverId, r) && Works(db, r)
    ensures serverId in db.servers && SupportsCascade(db.servers[serverId])
  {
    hide Eligible, Works;
    ItemsFromMember(db, serverId, EnabledRoutes(db), x);
    r :| r in EnabledRoutes(db) && x in RouteItems(db, serverId, r);
    EnabledExact(db, r);
    assert Eligible(db, r);
    EligibleExactly(db, r);
  }

  /** A route goes to its entry, and only there, exactly if it can work; and it says what its row, its
      enabled exit rows and their servers say. */
  lemma RouteSentExactly(db: Db, serverId: nat, r: RouteRow)
    requires RouteKeys(db) && r in db.routes
    ensures (exists t :: Item.Route(t) in CascadeItems(db, serverId) && t.routeId == r.id) <==>
            Works(db, r) && r.entryServerId == serverId
    ensures forall t :: Item.Route(t) in CascadeItems(db, serverId) && t.routeId == r.id ==> RouteSays(db, r, t)
  {
    hide CascadeItems, RouteSays, RouteExits, CurrentDigest, Works, RouteKeys;
    forall t | Item.Route(t) in CascadeItems(db, serverId) && t.routeId == r.id
      ensures RouteSays(db, r, t) && Works(db, r) && r.entryServerId == serverId
    {
      var q := FromRoute(db, serverId, Item.Route(t));
      RouteOf(db, serverId, q, t);
      assert q == r by {
        KeysRoutes(db);
        SameRoute(db, q, r);
      }
      RouteItemSays(db, r);
    }
    if Works(db, r) && r.entryServerId == serverId {
      WorksEntry(db, r);
      EligibleExactly(db, r);
      var x := RouteItem(db, r);
      assert x in RouteItems(db, serverId, r);
      InItems(db, serverId, x, r);
      RouteItemSays(db, r);
      RouteItemId(db, r);
    }
  }

  lemma WorksEntry(db: Db, r: RouteRow)
    requires Works(db, r)
    ensures r.enabled && r.entryServerId in db.servers && SupportsCascade(db.servers[r.entryServerId])
    ensures forall e :: ExitsAt(db, r, e) ==> SupportsCascade(db.servers[e.exitServerId])
  {
  }

  lemma RouteItemId(db: Db, r: RouteRow)
    ensures RouteItem(db, r).Route? && RouteItem(db, r).route.routeId == r.id
  {
  }

  lemma RouteOf(db: Db, serverId: nat, q: RouteRow, t: CascadeRoute)
    requires Item.Route(t) in RouteItems(db, serverId, q)
    ensures Item.Route(t) == RouteItem(db, q) && serverId == q.entryServerId && t.routeId == q.id
  {
    hide RouteExits, CurrentDigest;
    ServiceMember(db, serverId, q, RouteExits(db, q.id), Item.Route(t));
  }

  lemma ServiceOf(db: Db, serverId: nat, q: RouteRow, x: Item) returns (e: ExitRow)
    requires x.Service? && x in RouteItems(db, serverId, q)
    ensures ExitsAt(db, q, e) && e.exitServerId == serverId && ServiceSays(db, q, e, x)
  {
    hide RouteExits, CurrentDigest, Dec;
    ServiceMember(db, serverId, q, RouteExits(db, q.id), x);
    var f :| f in RouteExits(db, q.id) && f.0.exitServerId == serverId && x == ServiceItem(db, q, f);
    ExitsAre(db, q, f);
    e := f.0;
  }

  /** A service account goes to an exit's server exactly for each enabled exit row of a route that can
      work, with the row's own account. */
  lemma ServiceSentExactly(db: Db, serverId: nat, x: Item)
    requires x.Service?
    ensures x in CascadeItems(db, serverId) <==>
            exists r, e :: Works(db, r) && ExitsAt(db, r, e) && e.exitServerId == serverId && ServiceSays(db, r, e, x)
  {
    hide CascadeItems, RouteExits, CurrentDigest, Works, ServiceSays;
    if x in CascadeItems(db, serverId) {
      var r := FromRoute(db, serverId, x);
      var e := ServiceOf(db, serverId, r, x);
    }
    if r, e :| Works(db, r) && ExitsAt(db, r, e) && e.exitServerId == serverId && ServiceSays(db, r, e, x) {
      ServiceSent(db, r, e, x);
    }
  }

  lemma WorksRow(db: Db, r: RouteRow)
    requires Works(db, r)
    ensures r in db.routes && r.enabled
  {
  }

  lemma ServiceSent(db: Db, r: RouteRow, e: ExitRow, x: Item)
    requires Works(db, r) && ExitsAt(db, r, e) && ServiceSays(db, r, e, x)
    ensures x in CascadeItems(db, e.exitServerId)
  {
    hide CascadeItems, RouteExits, CurrentDigest, Dec, Works;
    var f := (e, db.servers[e.exitServerId]);
    ExitsAre(db, r, f);
    WorksRow(db, r);
    WorksEntry(db, r);
    EligibleExactly(db, r);
    assert x == ServiceItem(db, r, f);
    ServiceMember(db, e.exitServerId, r, RouteExits(db, r.id), x);
    InItems(db, e.exitServerId, x, r);
  }

  lemma ListedExit(db: Db, r: RouteRow, t: CascadeRoute, k: nat) returns (e: ExitRow)
    requires RouteSays(db, r, t) && k < |t.exits|
    ensures ExitsAt(db, r, e) && Reaches(t.exits[k], e, db.servers[e.exitServerId])
    ensures t.routeId == r.id && t.revision == r.revision && t.configDigest == CurrentDigest(db, r)
  {
    hide CurrentDigest, Reaches;
    var rows: seq<ExitRow> :| ExitsListed(db, r, t.exits, rows);
    e := rows[k];
    assert e in rows;
  }

  /** The account the entry is told to use at an exit is one that exit is told to accept. */
  lemma DialsAccepted(db: Db, entry: nat, t: CascadeRoute, k: nat) returns (exit: nat, x: Item)
    requires RouteKeys(db) && Item.Route(t) in CascadeItems(db, entry) && k < |t.exits|
    ensures exit in db.servers && db.servers[exit].host == t.exits[k].host
    ensures x in CascadeItems(db, exit) && x.Service? && x.routeId == t.routeId && x.uuid == t.exits[k].uuid
    ensures x.revision == t.revision && x.configDigest == t.configDigest
  {
    hide CascadeItems, RouteExits, CurrentDigest, Works, RouteKeys, Dec, RouteSays;
    var r := FromRoute(db, entry, Item.Route(t));
    RouteOf(db, entry, r, t);
    RouteSentExactly(db, entry, r);
    var e := ListedExit(db, r, t, k);
    exit := e.exitServerId;
    x := Service(r.id, r.revision, CurrentDigest(db, r), e.serviceUuid,
                 "cascade_route_" + Dec(r.id) + "_entry_" + Dec(r.entryServerId));
    ServiceSent(db, r, e, x);
  }

  // --- what is advertised ----------------------------------------------------------------------------------

  ghost predicate Acked(db: Db, r: RouteRow, serverId: nat) {
    && serverId in db.acks && r.id in db.acks[serverId]
    && db.acks[serverId][r.id].revision == r.revision
    && db.acks[serverId][r.id].configDigest == CurrentDigest(db, r)
  }

  /** Exactly which routes clients are told about, column by column: enabled, entering at one of the
      servers asked for, alone there, with an entry and exits that are all active and capable, each of
      which has acknowledged the route's current revision and digest. */
  lemma AdvertisedFields(db: Db, entries: set<nat>, r: RouteRow)
    requires UniqueRoutes(db)
    ensures r in Advertised(db, entries) <==>
            && r in db.routes && r.enabled && r.entryServerId in entries
            && (forall q :: q in db.routes && q.enabled && q.entryServerId == r.entryServerId ==> q == r)
            && IsUp(db, r.entryServerId) && Acked(db, r, r.entryServerId)
            && (exists e :: ExitsAt(db, r, e))
            && (forall e :: ExitsAt(db, r, e) ==> IsUp(db, e.exitServerId) && Acked(db, r, e.exitServerId))
  {
    hide Advertised, RouteExits, CurrentDigest, Acked;
    AdvertisedExactly(db, entries, r);
    AliveExactly(db, r);
    AllAckedExactly(db, r);
  }

  lemma AliveExactly(db: Db, r: RouteRow)
    ensures Alive(db, r) <==>
            && IsUp(db, r.entryServerId) && (exists e :: ExitsAt(db, r, e))
            && (forall e :: ExitsAt(db, r, e) ==> IsUp(db, e.exitServerId))
  {
    hide RouteExits;
    var exits := RouteExits(db, r.id);
    forall e ensures e in exits <==> ExitsAt(db, r, e.0) && e.1 == db.servers[e.0.exitServerId] {
      ExitsAre(db, r, e);
    }
    forall e | ExitsAt(db, r, e) ensures (e, db.servers[e.exitServerId]) in exits {
    }
    if exits != [] {
      assert exits[0] in exits;
    }
  }

  lemma AllAckedExactly(db: Db, r: RouteRow)
    ensures AllAcked(db, r) <==>
            Acked(db, r, r.entryServerId) && forall e :: ExitsAt(db, r, e) ==> Acked(db, r, e.exitServerId)
  {
    hide RouteExits, CurrentDigest;
    var exits := RouteExits(db, r.id);
    forall e ensures e in exits <==> ExitsAt(db, r, e.0) && e.1 == db.servers[e.0.exitServerId] {
      ExitsAre(db, r, e);
    }
    forall e | ExitsAt(db, r, e) ensures e.exitServerId in Participants(db, r) {
      assert (e, db.servers[e.exitServerId]) in exits;
    }
    assert forall p :: HasAcked(db, r, p) <==> Acked(db, r, p);
  }

  ghost predicate AppliedAt(nodes: Nodes, p: nat) {
    p in nodes && nodes[p].row.applied in nodes[p].durable && nodes[p].row.applied in nodes[p].history
  }

  ghost function AppliedItems(nodes: Nodes, p: nat): seq<Item>
    requires AppliedAt(nodes, p)
  {
    nodes[p].history[nodes[p].row.applied].items
  }

  /** Behind an advertised route: the entry durably applied a route item that says what the database
      says now, and the account it dials each exit with is in the snapshot which that exit durably
      applied. */
  lemma AdvertisedConnects(db: Db, nodes: Nodes, entries: set<nat>, r: RouteRow) returns (t: CascadeRoute, rows: seq<ExitRow>)
    requires FleetOk(db, nodes) && RouteKeys(db) && r in Advertised(db, entries)
    ensures AppliedAt(nodes, r.entryServerId) && Item.Route(t) in AppliedItems(nodes, r.entryServerId)
    ensures RouteSays(db, r, t) && ExitsListed(db, r, t.exits, rows)
    ensures forall k :: 0 <= k < |rows| ==>
              && AppliedAt(nodes, rows[k].exitServerId)
              && exists x :: x in AppliedItems(nodes, rows[k].exitServerId)
                             && x.Service? && x.routeId == r.id && x.uuid == t.exits[k].uuid
  {
    hide Advertised, RouteExits, CurrentDigest, FleetOk, RouteKeys, Dec;
    AdvertisedIsDurable(db, nodes, entries, r);
    RouteItemSays(db, r);
    ExitListed(db, r);
    t := RouteItem(db, r).route;
    rows := Rows(RouteExits(db, r.id));
    assert t.exits == ExitList(RouteExits(db, r.id));
    forall k | 0 <= k < |rows|
      ensures AppliedAt(nodes, rows[k].exitServerId)
      ensures exists x :: x in AppliedItems(nodes, rows[k].exitServerId)
                          && x.Service? && x.routeId == r.id && x.uuid == t.exits[k].uuid
    {
      var e := RouteExits(db, r.id)[k];
      assert e in RouteExits(db, r.id) && e.0 == rows[k];
      assert ExitsAt(db, r, rows[k]);
      assert ServiceItem(db, r, e) in AppliedItems(nodes, rows[k].exitServerId);
    }
  }
}
