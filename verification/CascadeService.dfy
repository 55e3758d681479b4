/** bot/src/services/cascade_service.py: which cascade items a node is sent, and which routes
    clients are told about. */
module CascadeService {
  import opened Seqs
  import opened Decimal
  import opened Items
  import opened Centre
  import opened StoreShape

  datatype Server = Server(
    host: string, port: nat, publicKey: string, shortId: string,
    isActive: bool, role: string, features: set<string>)

  datatype RouteRow = RouteRow(
    id: nat, revision: nat, title: string, entryServerId: nat, health: HealthPolicy,
    transport: seq<string>, enabled: bool)

  datatype ExitRow = ExitRow(
    routeId: nat, exitServerId: nat, position: nat, serviceUuid: string, serverName: string,
    xhttpPath: string, enabled: bool)

  /** The tables the service reads; acknowledgements by server and route. */
  datatype Db = Db(
    servers: map<nat, Server>, routes: seq<RouteRow>, exits: seq<ExitRow>, acks: map<nat, map<nat, RouteAck>>)

  type Exit = (ExitRow, Server)

  const CASCADE_CAPABILITY := "cascade-v2"

  predicate SupportsCascade(s: Server) {
    CASCADE_CAPABILITY in s.features
  }

  predicate RoleAllows(s: Server, role: string) {
    s.role == role || s.role == "both"
  }

  // --- reading a route -----------------------------------------------------------------------------

  /** The enabled exits whose server exists. */
  function JoinExits(db: Db, routeId: nat, rows: seq<ExitRow>): seq<Exit> {
    if rows == [] then []
    else
      (if rows[0].routeId == routeId && rows[0].enabled && rows[0].exitServerId in db.servers
       then [(rows[0], db.servers[rows[0].exitServerId])] else [])
      + JoinExits(db, routeId, rows[1..])
  }

  function PositionOf(e: Exit): int { e.0.position }

  function ServerIdOf(e: Exit): int { e.0.exitServerId }

  /** Ordered by position, then by server. */
  function RouteExits(db: Db, routeId: nat): seq<Exit> {
    SortBy(PositionOf, SortBy(ServerIdOf, JoinExits(db, routeId, db.exits)))
  }

  lemma {:induction false} JoinMember(db: Db, routeId: nat, rows: seq<ExitRow>, e: Exit)
    ensures e in JoinExits(db, routeId, rows) <==>
            e.0 in rows && e.0.routeId == routeId && e.0.enabled && e.0.exitServerId in db.servers
            && e.1 == db.servers[e.0.exitServerId]
  {
    if rows != [] {
      JoinMember(db, routeId, rows[1..], e);
      assert rows == [rows[0]] + rows[1..];
    }
  }

  lemma RouteExitsExact(db: Db, routeId: nat, e: Exit)
    ensures e in RouteExits(db, routeId) <==>
            e.0 in db.exits && e.0.routeId == routeId && e.0.enabled && e.0.exitServerId in db.servers
            && e.1 == db.servers[e.0.exitServerId]
  {
    JoinMember(db, routeId, db.exits, e);
    SortByIsSort(ServerIdOf, JoinExits(db, routeId, db.exits));
    SortByIsSort(PositionOf, SortBy(ServerIdOf, JoinExits(db, routeId, db.exits)));
  }

  function PathOf(path: string): string {
    if path == "" then "/" else path
  }

  function PayloadOf(e: Exit): ExitPayload {
    ExitPayload(e.0.exitServerId, e.0.position, e.0.serviceUuid, e.0.serverName, PathOf(e.0.xhttpPath),
                e.1.host, e.1.port, e.1.publicKey, e.1.shortId)
  }

  function ExitOf(e: Exit): CascadeExit {
    CascadeExit(e.0.position, e.1.host, e.1.port, e.0.serviceUuid, e.1.publicKey, e.1.shortId,
                e.0.serverName, PathOf(e.0.xhttpPath))
  }

  function Payloads(exits: seq<Exit>): (r: seq<ExitPayload>)
    ensures |r| == |exits|
    ensures forall i :: 0 <= i < |exits| ==> r[i] == PayloadOf(exits[i])
  {
    if exits == [] then [] else [PayloadOf(exits[0])] + Payloads(exits[1..])
  }

  function ExitList(exits: seq<Exit>): (r: seq<CascadeExit>)
    ensures |r| == |exits|
    ensures forall i :: 0 <= i < |exits| ==> r[i] == ExitOf(exits[i])
  {
    if exits == [] then [] else [ExitOf(exits[0])] + ExitList(exits[1..])
  }

  function CurrentDigest(db: Db, route: RouteRow): Digest {
    RouteDigest(RoutePayload(route.id, route.revision, route.title, route.entryServerId, route.health,
                             route.transport, Payloads(RouteExits(db, route.id))))
  }

  // --- build_cascade_items -----------------------------------------------------------------------------

  predicate ServesAs(s: Server, role: string) {
    s.isActive && SupportsCascade(s) && RoleAllows(s, role)
  }

  /** Every participant is active, capable and allowed to play its part. */
  predicate Eligible(db: Db, route: RouteRow) {
    && route.entryServerId in db.servers && ServesAs(db.servers[route.entryServerId], "entry")
    && RouteExits(db, route.id) != []
    && forall e :: e in RouteExits(db, route.id) ==> ServesAs(e.1, "exit")
  }

  function RouteItem(db: Db, route: RouteRow): Item {
    Route(CascadeRoute(route.id, route.revision, CurrentDigest(db, route), route.title,
                       if route.transport == [] then ["vless-in"] else route.transport,
                       ExitList(RouteExits(db, route.id)), route.health))
  }

  function ServiceItem(db: Db, route: RouteRow, e: Exit): Item {
    Service(route.id, route.revision, CurrentDigest(db, route), e.0.serviceUuid,
            "cascade_route_" + Dec(route.id) + "_entry_" + Dec(route.entryServerId))
  }

  function ServiceItems(db: Db, serverId: nat, route: RouteRow, exits: seq<Exit>): seq<Item> {
    if exits == [] then []
    else
      ServiceItems(db, serverId, route, exits[..|exits| - 1]) +
      (if exits[|exits| - 1].0.exitServerId == serverId then [ServiceItem(db, route, exits[|exits| - 1])] else [])
  }

  /** What one route puts on one node. */
  function RouteItems(db: Db, serverId: nat, route: RouteRow): seq<Item> {
    if !Eligible(db, route) then []
    else (if serverId == route.entryServerId then [RouteItem(db, route)] else [])
         + ServiceItems(db, serverId, route, RouteExits(db, route.id))
  }

  function ItemsFrom(db: Db, serverId: nat, routes: seq<RouteRow>): seq<Item> {
    if routes == [] then []
    else ItemsFrom(db, serverId, routes[..|routes| - 1]) + RouteItems(db, serverId, routes[|routes| - 1])
  }

  function IdOf(r: RouteRow): int { r.id }

  function IsEnabled(r: RouteRow): bool { r.enabled }

  function EnabledRoutes(db: Db): seq<RouteRow> {
    SortBy(IdOf, Filter(IsEnabled, db.routes))
  }

  function CascadeItems(db: Db, serverId: nat): seq<Item> {
    if serverId !in db.servers || !SupportsCascade(db.servers[serverId]) then []
    else ItemsFrom(db, serverId, EnabledRoutes(db))
  }

  method BuildCascadeItems(db: Db, serverId: nat) returns (items: seq<Item>)
    requires serverId in db.servers
    ensures items == CascadeItems(db, serverId)
  {
    items := [];
    if !SupportsCascade(db.servers[serverId]) {
      return;
    }
    var routes := EnabledRoutes(db);
    hide EnabledRoutes, RouteItems;
    for k := 0 to |routes|
      invariant items == ItemsFrom(db, serverId, routes[..k])
    {
      assert routes[..k + 1][..k] == routes[..k];
      var more := BuildRouteItems(db, serverId, routes[k]);
      items := items + more;
    }
    assert routes[..|routes|] == routes;
  }

  method BuildRouteItems(db: Db, serverId: nat, route: RouteRow) returns (items: seq<Item>)
    ensures items == RouteItems(db, serverId, route)
  {
    hide RouteExits, ServiceItem, RouteItem;
    items := [];
    var exits := RouteExits(db, route.id);
    if !Eligible(db, route) {
      return;
    }
    hide Eligible;
    if serverId == route.entryServerId {
      items := items + [RouteItem(db, route)];
    }
    ghost var head := items;
    for i := 0 to |exits|
      invariant items == head + ServiceItems(db, serverId, route, exits[..i])
    {
      assert exits[..i + 1][..i] == exits[..i];
      if exits[i].0.exitServerId != serverId {
        continue;
      }
      items := items + [ServiceItem(db, route, exits[i])];
    }
    assert exits[..|exits|] == exits;
  }

  lemma EnabledExact(db: Db, r: RouteRow)
    ensures r in EnabledRoutes(db) <==> r in db.routes && r.enabled
  {
    FilterMember(IsEnabled, db.routes, r);
    SortByIsSort(IdOf, Filter(IsEnabled, db.routes));
  }

  lemma {:induction false} ServiceMember(db: Db, serverId: nat, route: RouteRow, exits: seq<Exit>, x: Item)
    ensures x in ServiceItems(db, serverId, route, exits) <==>
            exists e :: e in exits && e.0.exitServerId == serverId && x == ServiceItem(db, route, e)
  {
    if exits != [] {
      var n := |exits| - 1;
      ServiceMember(db, serverId, route, exits[..n], x);
      assert exits == exits[..n] + [exits[n]];
    }
  }

  lemma {:induction false} ItemsFromMember(db: Db, serverId: nat, routes: seq<RouteRow>, x: Item)
    ensures x in ItemsFrom(db, serverId, routes) <==> exists r :: r in routes && x in RouteItems(db, serverId, r)
  {
    if routes != [] {
      var n := |routes| - 1;
      ItemsFromMember(db, serverId, routes[..n], x);
      assert routes == routes[..n] + [routes[n]];
    }
  }

  predicate IsCascade(x: Item) {
    x.Service? || x.Route?
  }

  /** The cascade part of a desired state is what this database makes of this server. */
  ghost predicate BuiltFrom(db: Db, serverId: nat, items: seq<Item>) {
    forall x :: IsCascade(x) ==> (x in items <==> x in CascadeItems(db, serverId))
  }

  ghost predicate UniqueRoutes(db: Db) {
    forall i, j :: 0 <= i < j < |db.routes| ==> db.routes[i].id != db.routes[j].id
  }

  lemma {:induction false} RouteItemsCarry(db: Db, serverId: nat, r: RouteRow, x: Item, id: nat, a: (nat, Digest))
    requires x in RouteItems(db, serverId, r) && Carries(x, id, a)
    ensures r.id == id && a == (r.revision, CurrentDigest(db, r)) && IsCascade(x) && Eligible(db, r)
  {
    ServiceMember(db, serverId, r, RouteExits(db, r.id), x);
  }

  /** A cascade item carries the current revision and digest of the one enabled route it names. */
  lemma BuiltCarries(db: Db, serverId: nat, items: seq<Item>, id: nat, a: (nat, Digest)) returns (r: RouteRow)
    requires BuiltFrom(db, serverId, items) && CarriedBy(items, id, a)
    ensures r in db.routes && r.enabled && r.id == id && a == (r.revision, CurrentDigest(db, r)) && Eligible(db, r)
    ensures serverId in db.servers && SupportsCascade(db.servers[serverId])
  {
    var x :| x in items && Carries(x, id, a);
    assert IsCascade(x) && x in CascadeItems(db, serverId);
    ItemsFromMember(db, serverId, EnabledRoutes(db), x);
    r :| r in EnabledRoutes(db) && x in RouteItems(db, serverId, r);
    RouteItemsCarry(db, serverId, r, x, id, a);
    EnabledExact(db, r);
  }

  /** So whatever else the items hold, publishing them keeps the store's invariant. */
  lemma BuiltIsCoherent(db: Db, serverId: nat, items: seq<Item>, size: nat)
    requires UniqueRoutes(db) && BuiltFrom(db, serverId, items) && size >= 1
    ensures Coherent(Published(items, if serverId in db.servers && SupportsCascade(db.servers[serverId]) then 2 else 1, size))
  {
    forall id, a, b | CarriedBy(items, id, a) && CarriedBy(items, id, b) ensures a == b {
      var r := BuiltCarries(db, serverId, items, id, a);
      var t := BuiltCarries(db, serverId, items, id, b);
      assert r == t;
    }
    if serverId !in db.servers || !SupportsCascade(db.servers[serverId]) {
      forall id, a ensures !CarriedBy(items, id, a) {
        if CarriedBy(items, id, a) {
          var _ := BuiltCarries(db, serverId, items, id, a);
        }
      }
    }
  }

  // --- advertisable_routes -------------------------------------------------------------------------------

  function EntersAt(entry: nat): RouteRow -> bool {
    (r: RouteRow) => r.entryServerId == entry
  }

  function EntersIn(entries: set<nat>): RouteRow -> bool {
    (r: RouteRow) => r.enabled && r.entryServerId in entries
  }

  function Candidates(db: Db, entries: set<nat>): seq<RouteRow> {
    SortBy(IdOf, Filter(EntersIn(entries), db.routes))
  }

  /** The entry and every exit, by server. */
  function Participants(db: Db, route: RouteRow): set<nat> {
    {route.entryServerId} + set e | e in RouteExits(db, route.id) :: e.0.exitServerId
  }

  predicate HasAcked(db: Db, route: RouteRow, serverId: nat) {
    && serverId in db.acks && route.id in db.acks[serverId]
    && db.acks[serverId][route.id].revision == route.revision
    && db.acks[serverId][route.id].configDigest == CurrentDigest(db, route)
  }

  predicate Takes(s: Server) {
    s.isActive && SupportsCascade(s)
  }

  predicate Alive(db: Db, route: RouteRow) {
    && route.entryServerId in db.servers && Takes(db.servers[route.entryServerId])
    && RouteExits(db, route.id) != []
    && forall e :: e in RouteExits(db, route.id) ==> Takes(e.1)
  }

  predicate AllAcked(db: Db, route: RouteRow) {
    forall p :: p in Participants(db, route) ==> HasAcked(db, route, p)
  }

  /** Alone at its entry, every participant alive, and acknowledged by every one of them. */
  predicate Ready(db: Db, among: seq<RouteRow>, route: RouteRow) {
    |Filter(EntersAt(route.entryServerId), among)| == 1 && Alive(db, route) && AllAcked(db, route)
  }

  function ReadyAmong(db: Db, among: seq<RouteRow>): RouteRow -> bool {
    (r: RouteRow) => Ready(db, among, r)
  }

  function Advertised(db: Db, entries: set<nat>): seq<RouteRow> {
    Filter(ReadyAmong(db, Candidates(db, entries)), Candidates(db, entries))
  }

  // --- the loops -----------------------------------------------------------------------------------------

  /** The entries in the order in which they first appear. */
  function FirstSeen(routes: seq<RouteRow>): seq<nat> {
    if routes == [] then []
    else
      var before, last := FirstSeen(routes[..|routes| - 1]), routes[|routes| - 1].entryServerId;
      if last in before then before else before + [last]
  }

  function ReadyOf(db: Db, among: seq<RouteRow>, entry: nat): seq<RouteRow> {
    var group := Filter(EntersAt(entry), among);
    if |group| == 1 && Ready(db, among, group[0]) then [group[0]] else []
  }

  function ReadyFrom(db: Db, among: seq<RouteRow>, entries: seq<nat>): seq<RouteRow> {
    if entries == [] then []
    else ReadyFrom(db, among, entries[..|entries| - 1]) + ReadyOf(db, among, entries[|entries| - 1])
  }

  lemma {:induction false} FirstSeenMember(routes: seq<RouteRow>, entry: nat)
    ensures entry in FirstSeen(routes) <==> exists r :: r in routes && r.entryServerId == entry
  {
    if routes != [] {
      var n := |routes| - 1;
      FirstSeenMember(routes[..n], entry);
      assert routes == routes[..n] + [routes[n]];
    }
  }

  lemma SecondAtEntry(routes: seq<RouteRow>, k: nat, i: nat)
    requires i < k < |routes| && routes[i].entryServerId == routes[k].entryServerId
    ensures |Filter(EntersAt(routes[k].entryServerId), routes)| >= 2
  {
    var at := EntersAt(routes[k].entryServerId);
    assert routes == routes[..i] + [routes[i]] + routes[i + 1..k] + [routes[k]] + routes[k + 1..];
    FilterConcat(at, routes[..i] + [routes[i]] + routes[i + 1..k] + [routes[k]], routes[k + 1..]);
    FilterConcat(at, routes[..i] + [routes[i]] + routes[i + 1..k], [routes[k]]);
    FilterConcat(at, routes[..i] + [routes[i]], routes[i + 1..k]);
    FilterConcat(at, routes[..i], [routes[i]]);
  }

  /** What the group of a candidate's entry adds when the entry comes up for the first time. */
  lemma GroupOf(db: Db, routes: seq<RouteRow>, k: nat)
    requires k < |routes|
    ensures (forall i :: 0 <= i < k ==> routes[i].entryServerId != routes[k].entryServerId) ==>
              ReadyOf(db, routes, routes[k].entryServerId) == Filter(ReadyAmong(db, routes), [routes[k]])
    ensures (exists i :: 0 <= i < k && routes[i].entryServerId == routes[k].entryServerId) ==>
              Filter(ReadyAmong(db, routes), [routes[k]]) == []
  {
    hide Alive, AllAcked;
    var r := routes[k];
    var group := Filter(EntersAt(r.entryServerId), routes);
    assert [r][1..] == [];
    if i :| 0 <= i < k && routes[i].entryServerId == r.entryServerId {
      SecondAtEntry(routes, k, i);
    } else {
      FilterMember(EntersAt(r.entryServerId), routes, r);
      assert r in group && (|group| == 1 ==> group[0] == r);
    }
  }

  /** One more candidate adds itself, if ready, when its entry comes up for the first time. */
  lemma GroupNext(db: Db, routes: seq<RouteRow>, k: nat)
    requires k < |routes|
    ensures ReadyFrom(db, routes, FirstSeen(routes[..k + 1])) ==
            ReadyFrom(db, routes, FirstSeen(routes[..k])) + Filter(ReadyAmong(db, routes), [routes[k]])
  {
    hide Ready, ReadyOf, ReadyAmong, ReadyFrom, Filter, FirstSeen;
    var entry, before := routes[k].entryServerId, routes[..k];
    FirstSeenMember(before, entry);
    FirstSeenNext(routes, k);
    GroupOf(db, routes, k);
    if entry in FirstSeen(before) {
      var t :| t in before && t.entryServerId == entry;
      var i :| 0 <= i < k && before[i] == t;
      assert routes[i].entryServerId == entry;
    } else {
      forall i | 0 <= i < k ensures routes[i].entryServerId != entry {
        assert before[i] in before;
      }
      ReadyFromNext(db, routes, FirstSeen(before), entry);
    }
  }

  /** Grouping by entry and dropping every group but the single ones is filtering. */
  lemma {:induction false} GroupsAreFilter(db: Db, routes: seq<RouteRow>, k: nat)
    requires k <= |routes|
    ensures ReadyFrom(db, routes, FirstSeen(routes[..k])) == Filter(ReadyAmong(db, routes), routes[..k])
  {
    hide Ready, ReadyAmong, ReadyFrom, Filter, FirstSeen;
    if k == 0 {
      assert routes[..0] == [];
      NothingSeen(db, routes);
      FilterNone(ReadyAmong(db, routes), routes[..0]);
    } else {
      GroupsAreFilter(db, routes, k - 1);
      GroupNext(db, routes, k - 1);
      FilterConcat(ReadyAmong(db, routes), routes[..k - 1], [routes[k - 1]]);
      assert routes[..k] == routes[..k - 1] + [routes[k - 1]];
    }
  }

  lemma NothingSeen(db: Db, among: seq<RouteRow>)
    ensures FirstSeen([]) == [] && ReadyFrom(db, among, []) == []
  {
  }

  lemma ReadyFromNext(db: Db, among: seq<RouteRow>, entries: seq<nat>, entry: nat)
    ensures ReadyFrom(db, among, entries + [entry]) == ReadyFrom(db, among, entries) + ReadyOf(db, among, entry)
  {
    hide ReadyOf;
    assert (entries + [entry])[..|entries|] == entries;
  }

  lemma FirstSeenNext(routes: seq<RouteRow>, n: nat)
    requires n < |routes|
    ensures var before, entry := FirstSeen(routes[..n]), routes[n].entryServerId;
            FirstSeen(routes[..n + 1]) == if entry in before then before else before + [entry]
  {
    assert routes[..n + 1][..n] == routes[..n];
  }

  /** Puts the candidates into a dict of lists, one list for each entry. */
  method GroupByEntry(routes: seq<RouteRow>) returns (order: seq<nat>, groups: map<nat, seq<RouteRow>>)
    ensures order == FirstSeen(routes)
    ensures forall e :: e in groups <==> e in order
    ensures forall e :: e in groups ==> groups[e] == Filter(EntersAt(e), routes)
  {
    order, groups := [], map[];
    for k := 0 to |routes|
      invariant order == FirstSeen(routes[..k])
      invariant forall e :: e in groups <==> e in order
      invariant forall e :: e in groups ==> groups[e] == Filter(EntersAt(e), routes[..k])
    {
      var r := routes[k];
      assert routes[..k + 1] == routes[..k] + [r] && routes[..k + 1][..k] == routes[..k];
      forall e ensures Filter(EntersAt(e), routes[..k + 1]) ==
                       Filter(EntersAt(e), routes[..k]) + if e == r.entryServerId then [r] else []
      {
        FilterConcat(EntersAt(e), routes[..k], [r]);
      }
      if r.entryServerId !in groups {
        FirstSeenMember(routes[..k], r.entryServerId);
        FilterNone(EntersAt(r.entryServerId), routes[..k]);
        order := order + [r.entryServerId];
        groups := groups[r.entryServerId := []];
      }
      groups := groups[r.entryServerId := groups[r.entryServerId] + [r]];
    }
    assert routes[..|routes|] == routes;
  }

  method AdvertisableRoutes(db: Db, entries: set<nat>) returns (ready: seq<RouteRow>)
    ensures ready == Advertised(db, entries)
  {
    hide Ready, Candidates, FirstSeen, ReadyFrom;
    var routes := Candidates(db, entries);
    var order, groups := GroupByEntry(routes);
    GroupsAreFilter(db, routes, |routes|);
    assert routes[..|routes|] == routes;
    ready := ReadyInGroups(db, routes, order, groups);
  }

  method ReadyInGroups(db: Db, ghost routes: seq<RouteRow>, order: seq<nat>, groups: map<nat, seq<RouteRow>>)
    returns (ready: seq<RouteRow>)
    requires forall e :: e in order ==> e in groups && groups[e] == Filter(EntersAt(e), routes)
    ensures ready == ReadyFrom(db, routes, order)
  {
    hide ReadyOf, Filter;
    ready := [];
    for k := 0 to |order|
      invariant ready == ReadyFrom(db, routes, order[..k])
    {
      assert order[..k + 1][..k] == order[..k];
      assert order[k] in order;
      var more := ReadyInGroup(db, routes, order[k], groups[order[k]]);
      ready := ready + more;
    }
    assert order[..|order|] == order;
  }

  /** A group of more than one is ambiguous; the only route of an entry must be alive, and the
      servers that acknowledged its current revision and digest must be its participants. */
  method ReadyInGroup(db: Db, ghost routes: seq<RouteRow>, entry: nat, group: seq<RouteRow>) returns (ready: seq<RouteRow>)
    requires group == Filter(EntersAt(entry), routes)
    ensures ready == ReadyOf(db, routes, entry)
  {
    hide RouteExits, HasAcked, Participants;
    ready := [];
    if |group| != 1 {
      return;
    }
    var route := group[0];
    FilterMember(EntersAt(entry), routes, route);
    if !Alive(db, route) {
      return;
    }
    hide Alive;
    var acked := set p | p in Participants(db, route) && HasAcked(db, route, p);
    assert AllAcked(db, route) <==> acked == Participants(db, route) by {
      if AllAcked(db, route) {
        assert forall p :: p in Participants(db, route) ==> p in acked;
      }
    }
    if acked == Participants(db, route) {
      ready := [route];
    }
  }

  // --- what is advertised -----------------------------------------------------------------------------------

  lemma CandidatesExact(db: Db, entries: set<nat>, r: RouteRow)
    ensures r in Candidates(db, entries) <==> r in db.routes && r.enabled && r.entryServerId in entries
  {
    FilterMember(EntersIn(entries), db.routes, r);
    SortByIsSort(IdOf, Filter(EntersIn(entries), db.routes));
  }

  /** Two routes of one entry are never both advertised. */
  lemma OnePerEntry(db: Db, entries: set<nat>, a: RouteRow, b: RouteRow)
    requires a in Advertised(db, entries) && b in Advertised(db, entries) && a.entryServerId == b.entryServerId
    ensures a == b
  {
    hide Alive, AllAcked, Candidates;
    var all := Candidates(db, entries);
    FilterMember(ReadyAmong(db, all), all, a);
    FilterMember(ReadyAmong(db, all), all, b);
    FilterMember(EntersAt(a.entryServerId), all, a);
    FilterMember(EntersAt(a.entryServerId), all, b);
    var group := Filter(EntersAt(a.entryServerId), all);
    assert a == group[0] && b == group[0];
  }

  /** Alone at its entry among all enabled routes of the database. */
  ghost predicate Lone(db: Db, route: RouteRow) {
    forall r :: r in db.routes && r.enabled && r.entryServerId == route.entryServerId ==> r == route
  }

  lemma {:induction false} AllSame<T>(s: seq<T>, x: T)
    requires forall y :: y in s ==> y == x
    ensures multiset(s)[x] == |s|
  {
    if s != [] {
      assert s == [s[0]] + s[1..] && s[0] in s;
      assert forall y :: y in s[1..] ==> y in s;
      AllSame(s[1..], x);
    }
  }

  lemma {:induction false} FilterDistinct<T>(keep: T -> bool, s: seq<T>)
    requires Distinct(s)
    ensures Distinct(Filter(keep, s))
  {
    if s != [] {
      FilterDistinct(keep, s[1..]);
      FilterMember(keep, s[1..], s[0]);
      var tail := Filter(keep, s[1..]);
      forall i, j | 0 <= i < j < |Filter(keep, s)| ensures Filter(keep, s)[i] != Filter(keep, s)[j] {
        if keep(s[0]) {
          assert Filter(keep, s)[j] == tail[j - 1] && tail[j - 1] in tail;
          assert s[0] !in s[1..];
          assert i > 0 ==> Filter(keep, s)[i] == tail[i - 1];
        }
      }
    }
  }

  /** A candidate's group is just itself exactly when no other enabled route enters there. */
  lemma LoneGroup(db: Db, entries: set<nat>, r: RouteRow)
    requires UniqueRoutes(db) && r in Candidates(db, entries)
    ensures |Filter(EntersAt(r.entryServerId), Candidates(db, entries))| == 1 <==> Lone(db, r)
  {
    hide Candidates;
    var all := Candidates(db, entries);
    var group := Filter(EntersAt(r.entryServerId), all);
    CandidatesExact(db, entries, r);
    forall t ensures t in group <==> t in db.routes && t.enabled && t.entryServerId == r.entryServerId {
      FilterMember(EntersAt(r.entryServerId), all, t);
      CandidatesExact(db, entries, t);
    }
    if Lone(db, r) {
      CandidatesDistinct(db, entries);
      FilterDistinct(EntersAt(r.entryServerId), all);
      AllSame(group, r);
      DistinctCounts(group);
    }
  }

  lemma CandidatesDistinct(db: Db, entries: set<nat>)
    requires UniqueRoutes(db)
    ensures Distinct(Candidates(db, entries))
  {
    assert Distinct(db.routes);
    FilterDistinct(EntersIn(entries), db.routes);
    SortByDistinct(IdOf, Filter(EntersIn(entries), db.routes));
  }

  /** Exactly which routes clients are told about. */
  lemma AdvertisedExactly(db: Db, entries: set<nat>, r: RouteRow)
    requires UniqueRoutes(db)
    ensures r in Advertised(db, entries) <==>
            && r in db.routes && r.enabled && r.entryServerId in entries
            && Lone(db, r) && Alive(db, r) && AllAcked(db, r)
  {
    hide Alive, AllAcked, Lone, Candidates;
    var all := Candidates(db, entries);
    FilterMember(ReadyAmong(db, all), all, r);
    CandidatesExact(db, entries, r);
    if r in all {
      LoneGroup(db, entries, r);
    }
  }

  // --- what a digest pins down ----------------------------------------------------------------------------------

  /** A digest equal to the current one means equal items: the same exits in the same order, with
      the same service accounts, and the same inbounds, whatever happened to the database since. */
  lemma DigestPinsRoute(db: Db, r: RouteRow, db0: Db, r0: RouteRow)
    requires CurrentDigest(db, r) == CurrentDigest(db0, r0)
    ensures RouteItem(db, r) == RouteItem(db0, r0)
    ensures |RouteExits(db, r.id)| == |RouteExits(db0, r0.id)|
    ensures forall i :: 0 <= i < |RouteExits(db, r.id)| ==>
              && RouteExits(db, r.id)[i].0.exitServerId == RouteExits(db0, r0.id)[i].0.exitServerId
              && ServiceItem(db, r, RouteExits(db, r.id)[i]) == ServiceItem(db0, r0, RouteExits(db0, r0.id)[i])
    ensures Participants(db, r) == Participants(db0, r0)
  {
    hide RouteExits;
    var a, b := RouteExits(db, r.id), RouteExits(db0, r0.id);
    assert Payloads(a) == Payloads(b);
    assert |a| == |b|;
    forall i | 0 <= i < |a| ensures PayloadOf(a[i]) == PayloadOf(b[i]) {
      assert Payloads(a)[i] == Payloads(b)[i];
    }
    assert ExitList(a) == ExitList(b);
    SameParticipants(a, b);
  }

  lemma SameParticipants(a: seq<Exit>, b: seq<Exit>)
    requires |a| == |b| && forall i :: 0 <= i < |a| ==> a[i].0.exitServerId == b[i].0.exitServerId
    ensures (set e | e in a :: e.0.exitServerId) == (set e | e in b :: e.0.exitServerId)
  {
    var sa, sb := set e | e in a :: e.0.exitServerId, set e | e in b :: e.0.exitServerId;
    forall p ensures p in sa <==> p in sb {
      if p in sa {
        var i :| 0 <= i < |a| && a[i].0.exitServerId == p;
        assert b[i] in b;
      }
      if p in sb {
        var i :| 0 <= i < |b| && b[i].0.exitServerId == p;
        assert a[i] in a;
      }
    }
  }
}
