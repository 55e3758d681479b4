/** What the centre builds from a database that keeps its keys is fit to be published: no UUID, email
    or sort key occurs twice, and every route has an exit. */
module Publication {
  import opened Wrappers
  import opened Seqs
  import opened Decimal
  import opened Items
  import opened Reconcile
  import opened Cascade
  import opened NodeMachine
  import opened Centre
  import opened StoreShape
  import opened Protocol
  import opened CascadeService
  import opened Traffic
  import opened Desired

  // --- the keys of the tables ----------------------------------------------------------------------

  /** The row a UUID stands in. */
  datatype Holder = OfSub(sub: SubRow) | OfDevice(sub: SubRow, device: Device) | OfExit(exit: ExitRow)

  predicate Holds(rows: seq<SubRow>, exits: seq<ExitRow>, h: Holder, uuid: string) {
    match h
    case OfSub(s) => s in rows && s.uuid == uuid
    case OfDevice(s, d) => s in rows && d in s.devices && d.uuid == uuid
    case OfExit(e) => e in exits && e.serviceUuid == uuid
  }

  ghost predicate SubKeys(rows: seq<SubRow>) {
    && Distinct(rows) && (forall a, b :: a in rows && b in rows && a.id == b.id ==> a == b)
    && (forall s :: s in rows ==> Distinct(s.devices))
    && (forall s, d, e :: s in rows && d in s.devices && e in s.devices && d.id == e.id ==> d == e)
  }

  ghost predicate RouteKeys(db: Db) {
    && UniqueRoutes(db) && Distinct(db.exits)
    && (forall a, b :: a in db.exits && b in db.exits && a.routeId == b.routeId && a.exitServerId == b.exitServerId ==> a == b)
  }

  /** A UUID is never blank and stands in one row, across the tables. */
  ghost predicate UuidKeys(rows: seq<SubRow>, exits: seq<ExitRow>) {
    && (forall h, k, uuid :: Holds(rows, exits, h, uuid) && Holds(rows, exits, k, uuid) ==> h == k)
    && (forall h :: !Holds(rows, exits, h, ""))
  }

  ghost predicate KeysKept(rows: seq<SubRow>, db: Db) {
    SubKeys(rows) && RouteKeys(db) && UuidKeys(rows, db.exits)
  }

  /** The rows a query selects keep the keys of the table. */
  lemma SelectedKeep(rows: seq<SubRow>, db: Db, keep: SubRow -> bool)
    requires KeysKept(rows, db)
    ensures KeysKept(Filter(keep, rows), db)
  {
    var subs := Filter(keep, rows);
    FilterDistinct(keep, rows);
    forall s ensures s in subs ==> s in rows {
      FilterMember(keep, rows, s);
    }
    forall h, uuid | Holds(subs, db.exits, h, uuid) ensures Holds(rows, db.exits, h, uuid) {
    }
  }

  // --- what distinguishes two items ---------------------------------------------------------------------

  function UuidOf(x: Item): Option<string> {
    match x
    case Client(uuid, _, _) => Some(uuid)
    case Service(_, _, _, uuid, _) => Some(uuid)
    case _ => None
  }

  function EmailOf(x: Item): Option<string> {
    match x
    case Client(_, email, _) => Some(email)
    case Service(_, _, _, _, email) => Some(email)
    case _ => None
  }

  predicate Apart(x: Item, y: Item) {
    && (UuidOf(x).Some? ==> UuidOf(x) != UuidOf(y))
    && (EmailOf(x).Some? ==> EmailOf(x) != EmailOf(y))
    && KeyOf(x) != KeyOf(y)
  }

  predicate Filled(x: Item) {
    UuidOf(x) != Some("") && EmailOf(x) != Some("")
  }

  ghost predicate AllApart(items: seq<Item>) {
    && Distinct(items)
    && (forall x, y :: x in items && y in items && x != y ==> Apart(x, y))
    && (forall x :: x in items ==> Filled(x))
  }

  function Just(o: Option<string>): seq<string> {
    if o.Some? then [o.value] else []
  }

  lemma FirstItem(items: seq<Item>)
    requires items != []
    ensures Uuids(items) == Just(UuidOf(items[0])) + Uuids(items[1..])
    ensures ItemEmails(items) == Just(EmailOf(items[0])) + ItemEmails(items[1..])
    ensures UuidOf(items[0]).Some? <==> EmailOf(items[0]).Some?
  {
  }

  lemma {:induction false} UuidsMember(items: seq<Item>, uuid: string)
    requires uuid in Uuids(items)
    ensures exists x :: x in items && UuidOf(x) == Some(uuid)
  {
    FirstItem(items);
    if uuid in Just(UuidOf(items[0])) {
      assert items[0] in items;
    } else {
      UuidsMember(items[1..], uuid);
      var x :| x in items[1..] && UuidOf(x) == Some(uuid);
      assert x in items;
    }
  }

  lemma {:induction false} EmailsMember(items: seq<Item>, email: string)
    requires email in ItemEmails(items)
    ensures exists x :: x in items && EmailOf(x) == Some(email)
  {
    FirstItem(items);
    if email in Just(EmailOf(items[0])) {
      assert items[0] in items;
    } else {
      EmailsMember(items[1..], email);
      var x :| x in items[1..] && EmailOf(x) == Some(email);
      assert x in items;
    }
  }

  lemma {:induction false} ApartNoRepeats(items: seq<Item>)
    requires AllApart(items)
    ensures NoRepeats(Uuids(items)) && "" !in Uuids(items)
    ensures NoRepeats(ItemEmails(items)) && "" !in ItemEmails(items)
  {
    hide KeyOf, UuidOf, EmailOf, Uuids, ItemEmails;
    if items == [] {
      NoItems();
    } else {
      var x, tail := items[0], items[1..];
      assert items == [x] + tail && x in items;
      assert forall y :: y in tail ==> y in items && y != x;
      ApartNoRepeats(tail);
      FirstItem(items);
      if UuidOf(x).Some? && UuidOf(x).value in Uuids(tail) {
        UuidsMember(tail, UuidOf(x).value);
      }
      if EmailOf(x).Some? && EmailOf(x).value in ItemEmails(tail) {
        EmailsMember(tail, EmailOf(x).value);
      }
    }
  }

  lemma NoItems()
    ensures Uuids([]) == [] && ItemEmails([]) == []
  {
  }

  /** Sorting keeps items apart. */
  lemma SortedApart(items: seq<Item>)
    requires AllApart(items)
    ensures AllApart(Sort(items))
  {
    hide Apart, Filled;
    SortSorts(items);
    DistinctCounts(items);
    DistinctCounts(Sort(items));
    forall x ensures x in Sort(items) <==> x in items {
      SortMembers(items, x);
    }
  }

  lemma ConcatDistinct<T>(a: seq<T>, b: seq<T>)
    requires Distinct(a) && Distinct(b) && forall x :: x in a ==> x !in b
    ensures Distinct(a + b)
  {
    forall i, j | 0 <= i < j < |a + b| ensures (a + b)[i] != (a + b)[j] {
      if i < |a| <= j {
        assert a[i] in a && b[j - |a|] in b;
      }
    }
  }

  // --- clients ------------------------------------------------------------------------------------------------

  function ItemOf(h: Holder): Item
    requires !h.OfExit?
  {
    match h
    case OfSub(s) => Client(s.uuid, Email(s.userId, s.id), s.ExpireMs())
    case OfDevice(s, d) => Client(d.uuid, DeviceEmail(s.userId, s.id, d.id), s.ExpireMs())
  }

  lemma {:induction false} DeviceOrigin(sub: SubRow, devices: seq<Device>, x: Item)
    ensures x in DeviceItems(sub, devices) <==>
            exists d :: d in devices && d.isActive && !d.isSuspended && x == ItemOf(OfDevice(sub, d))
  {
    if devices != [] {
      var n := |devices| - 1;
      DeviceOrigin(sub, devices[..n], x);
      assert devices == devices[..n] + [devices[n]];
    }
  }

  predicate Serves(h: Holder, subs: seq<SubRow>) {
    match h
    case OfSub(s) => s in subs
    case OfDevice(s, d) => s in subs && d in s.devices && d.isActive && !d.isSuspended
    case OfExit(_) => false
  }

  /** The clients are exactly the selected subscriptions and their active, unsuspended devices. */
  lemma {:induction false} ClientsExact(subs: seq<SubRow>, x: Item)
    ensures x in ClientItems(subs) <==> exists h :: Serves(h, subs) && x == ItemOf(h)
  {
    if subs != [] {
      var n := |subs| - 1;
      var last := subs[n];
      ClientsExact(subs[..n], x);
      DeviceOrigin(last, last.devices, x);
      assert subs == subs[..n] + [last];
      if h :| Serves(h, subs[..n]) && x == ItemOf(h) {
        assert Serves(h, subs);
      }
      if x in SubItems(last) {
        if x == ItemOf(OfSub(last)) {
          assert Serves(OfSub(last), subs);
        } else {
          var d :| d in last.devices && d.isActive && !d.isSuspended && x == ItemOf(OfDevice(last, d));
          assert Serves(OfDevice(last, d), subs);
        }
      }
      if h :| Serves(h, subs) && x == ItemOf(h) {
        if h.sub in subs[..n] {
          assert Serves(h, subs[..n]);
        } else {
          assert h.sub == last;
        }
      }
    }
  }

  lemma EmailsDiffer(user: nat, sub: nat, d: nat, e: nat)
    ensures DeviceEmail(user, sub, d) != Email(user, sub)
    ensures DeviceEmail(user, sub, d) == DeviceEmail(user, sub, e) ==> d == e
  {
    EmailAppends(user, sub, d);
    EmailAppends(user, sub, e);
    hide Email, DeviceEmail, Dec;
    var head := Email(user, sub);
    assert |head + (DEV + Dec(d))| > |head|;
    if head + (DEV + Dec(d)) == head + (DEV + Dec(e)) {
      assert (head + (DEV + Dec(d)))[|head| + |DEV|..] == Dec(d);
      assert (head + (DEV + Dec(e)))[|head| + |DEV|..] == Dec(e);
      DecInjective(d, e);
    }
  }

  /** Two client items with one email come from one row. */
  lemma OneClient(subs: seq<SubRow>, h: Holder, k: Holder)
    requires SubKeys(subs) && Serves(h, subs) && Serves(k, subs)
    requires ItemOf(h).email == ItemOf(k).email
    ensures h == k
  {
    hide Email, DeviceEmail, ParseEmail, Distinct;
    var a, b := h.sub, k.sub;
    var d := if h.OfDevice? then h.device.id else 0;
    var e := if k.OfDevice? then k.device.id else 0;
    EmailRoundTrip(a.userId, a.id, d);
    EmailRoundTrip(b.userId, b.id, e);
    assert a == b;
    EmailsDiffer(a.userId, a.id, d, e);
    EmailsDiffer(a.userId, a.id, e, d);
  }

  lemma {:induction false} DevicesDistinct(sub: SubRow, devices: seq<Device>)
    requires Distinct(devices) && forall d, e :: d in devices && e in devices && d.id == e.id ==> d == e
    ensures Distinct(DeviceItems(sub, devices))
  {
    hide DeviceEmail;
    if devices != [] {
      var n := |devices| - 1;
      var front, last := devices[..n], devices[n];
      assert devices == front + [last] && last !in front;
      assert Distinct(front);
      DevicesDistinct(sub, front);
      forall x | x in DeviceItems(sub, front) ensures x != ItemOf(OfDevice(sub, last)) {
        DeviceOrigin(sub, front, x);
        var d :| d in front && d.isActive && !d.isSuspended && x == ItemOf(OfDevice(sub, d));
        EmailsDiffer(sub.userId, sub.id, d.id, last.id);
      }
      ConcatDistinct(DeviceItems(sub, front), [ItemOf(OfDevice(sub, last))]);
    }
  }

  lemma SubDistinct(sub: SubRow)
    requires Distinct(sub.devices) && forall d, e :: d in sub.devices && e in sub.devices && d.id == e.id ==> d == e
    ensures Distinct(SubItems(sub))
  {
    hide Email, DeviceEmail, DeviceItems;
    DevicesDistinct(sub, sub.devices);
    forall x | x in DeviceItems(sub, sub.devices) ensures x != ItemOf(OfSub(sub)) {
      DeviceOrigin(sub, sub.devices, x);
      var d :| d in sub.devices && d.isActive && !d.isSuspended && x == ItemOf(OfDevice(sub, d));
      EmailsDiffer(sub.userId, sub.id, d.id, 0);
    }
    ConcatDistinct([ItemOf(OfSub(sub))], DeviceItems(sub, sub.devices));
  }

  lemma {:induction false} ClientsDistinct(subs: seq<SubRow>)
    requires SubKeys(subs)
    ensures Distinct(ClientItems(subs))
  {
    if subs != [] {
      var n := |subs| - 1;
      var front, last := subs[..n], subs[n];
      assert subs == front + [last] && last !in front && last in subs;
      assert forall s :: s in front ==> s in subs;
      assert SubKeys(front);
      hide SubItems, Serves;
      ClientsDistinct(front);
      SubDistinct(last);
      forall x | x in ClientItems(front) ensures x !in SubItems(last) {
        NotAgain(front, last, x);
      }
      ConcatDistinct(ClientItems(front), SubItems(last));
    }
  }

  lemma NotAgain(front: seq<SubRow>, last: SubRow, x: Item)
    requires SubKeys(front + [last]) && last !in front && x in ClientItems(front)
    ensures x !in SubItems(last)
  {
    hide SubKeys, Email, DeviceEmail;
    ClientsExact(front, x);
    var h :| Serves(h, front) && x == ItemOf(h);
    if x in SubItems(last) {
      assert [last] == [] + [last] && [last][..0] == [];
      assert ClientItems([last]) == SubItems(last);
      ClientsExact([last], x);
      var k :| Serves(k, [last]) && x == ItemOf(k);
      assert Serves(h, front + [last]) && Serves(k, front + [last]);
      OneClient(front + [last], h, k);
    }
  }

  // --- limits --------------------------------------------------------------------------------------------------

  lemma {:induction false} ZerosValue(n: nat, s: string)
    requires AllDigits(s)
    ensures AllDigits(Zeros(n)) && AllDigits(Zeros(n) + s) && Value(Zeros(n) + s) == Value(s)
  {
    ZerosDigits(n);
    if s == "" {
      ZerosNothing(n);
      assert Zeros(n) + s == Zeros(n);
    } else {
      var k := |s| - 1;
      assert s[k] in s && AllDigits(s[..k]);
      ZerosValue(n, s[..k]);
      assert (Zeros(n) + s)[..|Zeros(n)| + k] == Zeros(n) + s[..k];
    }
  }

  lemma {:induction false} ZerosDigits(n: nat)
    ensures |Zeros(n)| == n && AllDigits(Zeros(n)) && forall i :: 0 <= i < n ==> Zeros(n)[i] == '0'
  {
    if n > 0 {
      ZerosDigits(n - 1);
    }
  }

  lemma {:induction false} ZerosNothing(n: nat)
    requires AllDigits(Zeros(n))
    ensures Value(Zeros(n)) == 0
  {
    ZerosDigits(n);
    if n > 0 {
      ZerosDigits(n - 1);
      assert Zeros(n)[..n - 1] == Zeros(n - 1);
      ZerosNothing(n - 1);
    }
  }

  lemma PaddedValue(n: nat)
    ensures AllDigits(Padded(n)) && Value(Padded(n)) == n
  {
    hide Value;
    DecRoundTrip(n);
    if |Dec(n)| < 20 {
      ZerosValue(20 - |Dec(n)|, Dec(n));
    }
  }

  lemma PaddedInjective(m: nat, n: nat)
    requires Padded(m) == Padded(n)
    ensures m == n
  {
    PaddedValue(m);
    PaddedValue(n);
  }

  lemma LimitsDistinct(subs: seq<SubRow>, users: Users)
    ensures Distinct(LimitItems(UserLimits(subs, users)))
  {
    LimitsMember(subs, users);
  }

  lemma OneLimit(subs: seq<SubRow>, users: Users, x: Item, y: Item)
    requires x in LimitItems(UserLimits(subs, users)) && y in LimitItems(UserLimits(subs, users)) && x.userId == y.userId
    ensures x == y
  {
    hide UserLimits;
    LimitsMember(subs, users);
    LimitItem(UserLimits(subs, users), x);
    LimitItem(UserLimits(subs, users), y);
  }

  // --- cascade items ----------------------------------------------------------------------------------------------

  /** The route, and for a service the exit, behind a cascade item. */
  ghost predicate Stems(db: Db, serverId: nat, x: Item, r: RouteRow) {
    && r in db.routes && Eligible(db, r)
    && (x == RouteItem(db, r)
        || exists e :: e in RouteExits(db, r.id) && e.0.exitServerId == serverId && x == ServiceItem(db, r, e))
  }

  lemma CascadeOrigin(db: Db, serverId: nat, x: Item) returns (r: RouteRow)
    requires x in CascadeItems(db, serverId)
    ensures Stems(db, serverId, x, r)
  {
    hide RouteExits, RouteItem, ServiceItem, EnabledRoutes, Eligible;
    ItemsFromMember(db, serverId, EnabledRoutes(db), x);
    r :| r in EnabledRoutes(db) && x in RouteItems(db, serverId, r);
    EnabledExact(db, r);
    ServiceMember(db, serverId, r, RouteExits(db, r.id), x);
  }

  function RouteIdOf(x: Item): nat
    requires IsCascade(x)
  {
    if x.Service? then x.routeId else x.route.routeId
  }

  lemma StemShape(db: Db, serverId: nat, x: Item, r: RouteRow)
    requires Stems(db, serverId, x, r)
    ensures IsCascade(x) && RouteIdOf(x) == r.id
    ensures x.Route? ==> x == RouteItem(db, r) && x.route.exits != []
    ensures x.Service? ==> exists e :: e in RouteExits(db, r.id) && e.0.exitServerId == serverId && x == ServiceItem(db, r, e)
  {
    hide RouteExits, CurrentDigest, Dec;
  }

  /** An exit's row is found again from its route and server. */
  lemma OneExit(db: Db, routeId: nat, a: Exit, b: Exit)
    requires RouteKeys(db) && a in RouteExits(db, routeId) && b in RouteExits(db, routeId)
    requires a.0.exitServerId == b.0.exitServerId
    ensures a == b
  {
    RouteExitsExact(db, routeId, a);
    RouteExitsExact(db, routeId, b);
  }

  lemma SameRoute(db: Db, r: RouteRow, t: RouteRow)
    requires UniqueRoutes(db) && r in db.routes && t in db.routes && r.id == t.id
    ensures r == t
  {
  }

  /** One route item and one service item for each route at most. */
  lemma OneCascade(db: Db, serverId: nat, x: Item, y: Item)
    requires RouteKeys(db) && x in CascadeItems(db, serverId) && y in CascadeItems(db, serverId)
    ensures IsCascade(x) && IsCascade(y)
    ensures x.Service? == y.Service? && RouteIdOf(x) == RouteIdOf(y) ==> x == y
  {
    hide RouteItem, ServiceItem, RouteExits, CascadeItems, Stems, RouteKeys;
    var r := CascadeOrigin(db, serverId, x);
    var t := CascadeOrigin(db, serverId, y);
    StemShape(db, serverId, x, r);
    StemShape(db, serverId, y, t);
    if x.Service? == y.Service? && RouteIdOf(x) == RouteIdOf(y) {
      StemRoutes(db, serverId, x, r);
      StemRoutes(db, serverId, y, t);
      assert UniqueRoutes(db) by { KeysRoutes(db); }
      SameRoute(db, r, t);
      if x.Service? {
        var e :| e in RouteExits(db, r.id) && e.0.exitServerId == serverId && x == ServiceItem(db, r, e);
        var f :| f in RouteExits(db, t.id) && f.0.exitServerId == serverId && y == ServiceItem(db, t, f);
        OneExit(db, r.id, e, f);
      }
    }
  }

  lemma KeysRoutes(db: Db)
    requires RouteKeys(db)
    ensures UniqueRoutes(db)
  {
  }

  lemma StemRoutes(db: Db, serverId: nat, x: Item, r: RouteRow)
    requires Stems(db, serverId, x, r)
    ensures r in db.routes
  {
  }

  lemma {:induction false} JoinDistinct(db: Db, routeId: nat, rows: seq<ExitRow>)
    requires Distinct(rows)
    ensures Distinct(JoinExits(db, routeId, rows))
  {
    if rows != [] {
      var head, tail := rows[0], rows[1..];
      assert rows == [head] + tail && head !in tail;
      JoinDistinct(db, routeId, tail);
      forall e | e in JoinExits(db, routeId, tail) ensures e.0 != head {
        JoinMember(db, routeId, tail, e);
      }
      if head.routeId == routeId && head.enabled && head.exitServerId in db.servers {
        ConcatDistinct([(head, db.servers[head.exitServerId])], JoinExits(db, routeId, tail));
      }
    }
  }

  lemma ExitsDistinct(db: Db, routeId: nat)
    requires Distinct(db.exits)
    ensures Distinct(RouteExits(db, routeId))
  {
    JoinDistinct(db, routeId, db.exits);
    SortByDistinct(ServerIdOf, JoinExits(db, routeId, db.exits));
    SortByDistinct(PositionOf, SortBy(ServerIdOf, JoinExits(db, routeId, db.exits)));
  }

  lemma {:induction false} OneServiceItem(db: Db, serverId: nat, route: RouteRow, exits: seq<Exit>)
    requires Distinct(exits)
    requires forall a, b :: a in exits && b in exits && a.0.exitServerId == b.0.exitServerId ==> a == b
    ensures |ServiceItems(db, serverId, route, exits)| <= 1
  {
    hide ServiceItem;
    if exits != [] {
      var n := |exits| - 1;
      var front, last := exits[..n], exits[n];
      assert exits == front + [last] && last !in front && last in exits;
      assert forall e :: e in front ==> e in exits;
      OneServiceItem(db, serverId, route, front);
      if last.0.exitServerId == serverId && ServiceItems(db, serverId, route, front) != [] {
        var x := ServiceItems(db, serverId, route, front)[0];
        assert x in ServiceItems(db, serverId, route, front);
        ServiceMember(db, serverId, route, front, x);
      }
    }
  }

  lemma RouteItemsDistinct(db: Db, serverId: nat, r: RouteRow)
    requires RouteKeys(db)
    ensures Distinct(RouteItems(db, serverId, r))
  {
    hide RouteExits, Eligible, RouteKeys;
    var exits := RouteExits(db, r.id);
    assert Distinct(db.exits) by { KeysExits(db); }
    ExitsDistinct(db, r.id);
    forall a, b | a in exits && b in exits && a.0.exitServerId == b.0.exitServerId ensures a == b {
      OneExit(db, r.id, a, b);
    }
    OneServiceItem(db, serverId, r, exits);
    var services := ServiceItems(db, serverId, r, exits);
    forall x | x in services ensures x != RouteItem(db, r) {
      ServiceMember(db, serverId, r, exits, x);
    }
    ConcatDistinct([RouteItem(db, r)], services);
  }

  lemma KeysExits(db: Db)
    requires RouteKeys(db)
    ensures Distinct(db.exits)
  {
  }

  lemma ItemsOfRoute(db: Db, serverId: nat, r: RouteRow, x: Item)
    requires x in RouteItems(db, serverId, r)
    ensures IsCascade(x) && RouteIdOf(x) == r.id
  {
    hide RouteExits, Eligible, CurrentDigest, Dec;
    ServiceMember(db, serverId, r, RouteExits(db, r.id), x);
  }

  lemma {:induction false} ItemsDistinct(db: Db, serverId: nat, routes: seq<RouteRow>)
    requires RouteKeys(db) && forall i, j :: 0 <= i < j < |routes| ==> routes[i].id != routes[j].id
    ensures Distinct(ItemsFrom(db, serverId, routes))
  {
    hide RouteItems, RouteKeys;
    if routes != [] {
      var n := |routes| - 1;
      var front, last := routes[..n], routes[n];
      ItemsDistinct(db, serverId, front);
      RouteItemsDistinct(db, serverId, last);
      forall x | x in ItemsFrom(db, serverId, front) ensures x !in RouteItems(db, serverId, last) {
        ItemsFromMember(db, serverId, front, x);
        var r :| r in front && x in RouteItems(db, serverId, r);
        ItemsOfRoute(db, serverId, r, x);
        if x in RouteItems(db, serverId, last) {
          ItemsOfRoute(db, serverId, last, x);
        }
      }
      ConcatDistinct(ItemsFrom(db, serverId, front), RouteItems(db, serverId, last));
    }
  }

  lemma CascadeDistinct(db: Db, serverId: nat)
    requires RouteKeys(db)
    ensures Distinct(CascadeItems(db, serverId))
  {
    hide ItemsFrom;
    var routes := EnabledRoutes(db);
    assert Distinct(db.routes);
    FilterDistinct(IsEnabled, db.routes);
    SortByDistinct(IdOf, Filter(IsEnabled, db.routes));
    forall i, j | 0 <= i < j < |routes| ensures routes[i].id != routes[j].id {
      assert routes[i] in routes && routes[j] in routes;
      EnabledExact(db, routes[i]);
      EnabledExact(db, routes[j]);
      if routes[i].id == routes[j].id {
        SameRoute(db, routes[i], routes[j]);
      }
    }
    ItemsDistinct(db, serverId, routes);
  }

  // --- all of them ------------------------------------------------------------------------------------------------

  /** Where each item of the unsorted list comes from. */
  lemma Parts(subs: seq<SubRow>, users: Users, db: Db, serverId: nat, x: Item)
    requires RouteKeys(db) && x in Unsorted(subs, users, CascadeItems(db, serverId))
    ensures x.Client? ==> x in ClientItems(subs)
    ensures x.ConnLimit? ==> x in LimitItems(UserLimits(subs, users))
    ensures IsCascade(x) ==> x in CascadeItems(db, serverId)
  {
    hide CascadeItems, UserLimits, ClientItems;
    ClientsAreCounted(subs);
    LimitItem(UserLimits(subs, users), x);
    if x in CascadeItems(db, serverId) {
      OneCascade(db, serverId, x, x);
    }
  }

  /** The row a UUID of the list stands in. */
  lemma HolderOf(subs: seq<SubRow>, users: Users, db: Db, serverId: nat, x: Item) returns (h: Holder)
    requires RouteKeys(db) && x in Unsorted(subs, users, CascadeItems(db, serverId)) && UuidOf(x).Some?
    ensures Holds(subs, db.exits, h, UuidOf(x).value)
    ensures if h.OfExit? then x.Service? && x.routeId == h.exit.routeId else x == ItemOf(h) && Serves(h, subs)
  {
    hide RouteKeys, CascadeItems, Unsorted, RouteExits, Stems, Email, DeviceEmail;
    Parts(subs, users, db, serverId, x);
    if x.Client? {
      ClientsExact(subs, x);
      h :| Serves(h, subs) && x == ItemOf(h);
    } else {
      var r := CascadeOrigin(db, serverId, x);
      StemShape(db, serverId, x, r);
      var e :| e in RouteExits(db, r.id) && e.0.exitServerId == serverId && x == ServiceItem(db, r, e);
      RouteExitsExact(db, r.id, e);
      h := OfExit(e.0);
    }
  }

  lemma OneUuid(subs: seq<SubRow>, users: Users, db: Db, serverId: nat, x: Item, y: Item)
    requires KeysKept(subs, db) && UuidOf(x).Some? && UuidOf(x) == UuidOf(y)
    requires x in Unsorted(subs, users, CascadeItems(db, serverId)) && y in Unsorted(subs, users, CascadeItems(db, serverId))
    ensures x == y && UuidOf(x) != Some("")
  {
    hide RouteKeys, SubKeys, CascadeItems, Unsorted, ItemOf;
    var h := HolderOf(subs, users, db, serverId, x);
    var k := HolderOf(subs, users, db, serverId, y);
    if h.OfExit? {
      Parts(subs, users, db, serverId, x);
      Parts(subs, users, db, serverId, y);
      OneCascade(db, serverId, x, y);
    }
  }

  lemma ServiceNamed(db: Db, serverId: nat, x: Item)
    requires RouteKeys(db) && x.Service? && x in CascadeItems(db, serverId)
    ensures x.email != "" && x.email[0] == 'c' && ServiceRoute(x.email) == Some(x.routeId)
  {
    hide RouteKeys, CascadeItems, RouteExits, Stems, CurrentDigest;
    var r := CascadeOrigin(db, serverId, x);
    StemShape(db, serverId, x, r);
    var e :| e in RouteExits(db, r.id) && e.0.exitServerId == serverId && x == ServiceItem(db, r, e);
    ServiceRouteTrip(r.id, r.entryServerId);
  }

  const ROUTE := "cascade_route_"

  /** The route a service account's email names. */
  function ServiceRoute(email: string): Option<nat> {
    match After(ROUTE, email)
    case None => None
    case Some(rest) => if Number(rest).None? then None else Some(Number(rest).value.0)
  }

  lemma ServiceRouteTrip(routeId: nat, entry: nat)
    ensures var email := ROUTE + Dec(routeId) + "_entry_" + Dec(entry);
            |email| > 0 && email[0] == 'c' && ServiceRoute(email) == Some(routeId)
  {
    var rest := "_entry_" + Dec(entry);
    assert ROUTE + Dec(routeId) + "_entry_" + Dec(entry) == ROUTE + (Dec(routeId) + rest);
    AfterText(ROUTE, Dec(routeId) + rest);
    NumberText(routeId, rest);
  }

  lemma ClientHolder(subs: seq<SubRow>, x: Item) returns (h: Holder)
    requires x in ClientItems(subs)
    ensures !h.OfExit? && Serves(h, subs) && x == ItemOf(h)
  {
    hide ClientItems, Email, DeviceEmail;
    ClientsExact(subs, x);
    h :| Serves(h, subs) && x == ItemOf(h);
  }

  lemma ClientNamed(subs: seq<SubRow>, x: Item)
    requires x in ClientItems(subs)
    ensures x.Client? && x.email != "" && x.email[0] == 'u'
  {
    hide ClientItems, Dec;
    ClientsExact(subs, x);
  }

  lemma OneEmail(subs: seq<SubRow>, users: Users, db: Db, serverId: nat, x: Item, y: Item)
    requires KeysKept(subs, db) && EmailOf(x).Some? && EmailOf(x) == EmailOf(y)
    requires x in Unsorted(subs, users, CascadeItems(db, serverId)) && y in Unsorted(subs, users, CascadeItems(db, serverId))
    ensures x == y && EmailOf(x) != Some("")
  {
    hide RouteKeys, SubKeys, UuidKeys, CascadeItems, Unsorted, ItemOf, ServiceRoute, ClientItems, Serves;
    Parts(subs, users, db, serverId, x);
    Parts(subs, users, db, serverId, y);
    if x.Client? {
      ClientNamed(subs, x);
    } else {
      ServiceNamed(db, serverId, x);
    }
    if y.Client? {
      ClientNamed(subs, y);
    } else {
      ServiceNamed(db, serverId, y);
    }
    if x.Client? {
      var h := ClientHolder(subs, x);
      var k := ClientHolder(subs, y);
      OneClient(subs, h, k);
    } else {
      OneCascade(db, serverId, x, y);
    }
  }

  lemma OneKey(subs: seq<SubRow>, users: Users, db: Db, serverId: nat, x: Item, y: Item)
    requires KeysKept(subs, db) && KeyOf(x) == KeyOf(y)
    requires x in Unsorted(subs, users, CascadeItems(db, serverId)) && y in Unsorted(subs, users, CascadeItems(db, serverId))
    ensures x == y
  {
    hide RouteKeys, SubKeys, UuidKeys, CascadeItems, Unsorted, ClientItems, Padded, UserLimits;
    KindOf(x);
    KindOf(y);
    if x.Client? {
      OneEmail(subs, users, db, serverId, x, y);
    } else {
      Parts(subs, users, db, serverId, x);
      Parts(subs, users, db, serverId, y);
      if x.ConnLimit? {
        PaddedInjective(x.userId, y.userId);
        OneLimit(subs, users, x, y);
      } else {
        PaddedInjective(RouteIdOf(x), RouteIdOf(y));
        OneCascade(db, serverId, x, y);
      }
    }
  }

  lemma KindOf(x: Item)
    ensures x.Client? <==> KeyOf(x).kind == "client"
    ensures x.ConnLimit? <==> KeyOf(x).kind == "conn_limit"
    ensures x.Service? <==> KeyOf(x).kind == "cascade_service"
    ensures x.Route? <==> KeyOf(x).kind == "cascade_route"
  {
    var kinds := ["client", "conn_limit", "cascade_service", "cascade_route"];
    assert |kinds[0]| == 6 && |kinds[1]| == 10 && |kinds[2]| == 15 && |kinds[3]| == 13;
  }

  lemma PartsDistinct(subs: seq<SubRow>, users: Users, db: Db, serverId: nat)
    requires KeysKept(subs, db)
    ensures Distinct(Unsorted(subs, users, CascadeItems(db, serverId)))
  {
    hide SubKeys, RouteKeys, UuidKeys, ClientItems, CascadeItems, UserLimits, Distinct;
    var clients, limits, cascade := ClientItems(subs), LimitItems(UserLimits(subs, users)), CascadeItems(db, serverId);
    ClientsDistinct(subs);
    LimitsDistinct(subs, users);
    CascadeDistinct(db, serverId);
    ClientsAreCounted(subs);
    forall x ensures x in limits ==> x.ConnLimit? {
      LimitItem(UserLimits(subs, users), x);
    }
    forall x | x in cascade ensures IsCascade(x) {
      OneCascade(db, serverId, x, x);
    }
    ConcatDistinct(clients, limits);
    ConcatDistinct(clients + limits, cascade);
  }

  lemma UnsortedApart(subs: seq<SubRow>, users: Users, db: Db, serverId: nat)
    requires KeysKept(subs, db)
    ensures AllApart(Unsorted(subs, users, CascadeItems(db, serverId)))
  {
    hide KeysKept, CascadeItems, Unsorted, KeyOf, UuidOf, EmailOf;
    var items := Unsorted(subs, users, CascadeItems(db, serverId));
    PartsDistinct(subs, users, db, serverId);
    forall x | x in items ensures Filled(x) {
      if UuidOf(x).Some? {
        OneUuid(subs, users, db, serverId, x, x);
      }
      if EmailOf(x).Some? {
        OneEmail(subs, users, db, serverId, x, x);
      }
    }
    forall x, y | x in items && y in items && x != y ensures Apart(x, y) {
      if UuidOf(x).Some? && UuidOf(x) == UuidOf(y) {
        OneUuid(subs, users, db, serverId, x, y);
      }
      if EmailOf(x).Some? && EmailOf(x) == EmailOf(y) {
        OneEmail(subs, users, db, serverId, x, y);
      }
      if KeyOf(x) == KeyOf(y) {
        OneKey(subs, users, db, serverId, x, y);
      }
    }
  }

  // --- fit to publish ---------------------------------------------------------------------------------------------

  lemma DesiredApart(rows: seq<SubRow>, users: Users, db: Db, serverId: nat, now: nat)
    requires KeysKept(rows, db)
    ensures AllApart(DesiredItems(rows, users, db, serverId, now))
    ensures OneForEachKey(multiset(DesiredItems(rows, users, db, serverId, now)))
  {
    hide KeysKept, Unsorted, CascadeItems, Filter, Sort;
    var items := DesiredItems(rows, users, db, serverId, now);
    if items != [] {
      var subs := Filter(Served(serverId, now), rows);
      SelectedKeep(rows, db, Served(serverId, now));
      UnsortedApart(subs, users, db, serverId);
      SortedApart(Unsorted(subs, users, CascadeItems(db, serverId)));
    }
    forall x ensures x in multiset(items) ==> x in items {
    }
  }

  lemma {:induction false} RoutesOrigin(items: seq<Item>, r: CascadeRoute)
    requires r in DesiredRoutes(items)
    ensures Item.Route(r) in items
  {
    if !(items[0].Route? && items[0].route == r) {
      RoutesOrigin(items[1..], r);
    }
  }

  lemma DesiredHaveExits(rows: seq<SubRow>, users: Users, db: Db, serverId: nat, now: nat)
    requires KeysKept(rows, db)
    ensures HaveExits(DesiredRoutes(DesiredItems(rows, users, db, serverId, now)))
  {
    hide KeysKept, CascadeItems, DesiredItems, Stems;
    var items := DesiredItems(rows, users, db, serverId, now);
    DesiredIsBuilt(rows, users, db, serverId, now);
    forall r | r in DesiredRoutes(items) ensures r.exits != [] {
      RoutesOrigin(items, r);
      assert IsCascade(Item.Route(r));
      var row := CascadeOrigin(db, serverId, Item.Route(r));
      StemShape(db, serverId, Item.Route(r), row);
    }
  }

  /** The clients a server holds are exactly those of the subscriptions that are linked to it, active
      and not expired, and of their active, unsuspended devices. */
  lemma ServedExactly(rows: seq<SubRow>, users: Users, db: Db, serverId: nat, now: nat, x: Item)
    requires x.Client? && serverId in db.servers && db.servers[serverId].isActive
    ensures x in DesiredItems(rows, users, db, serverId, now) <==>
            exists h :: Serves(h, rows) && Served(serverId, now)(h.sub) && x == ItemOf(h)
  {
    hide CascadeItems, ClientItems, Email, DeviceEmail, UserLimits;
    var keep := Served(serverId, now);
    var subs := Filter(keep, rows);
    var cascade := CascadeItems(db, serverId);
    SortMembers(Unsorted(subs, users, cascade), x);
    LimitItem(UserLimits(subs, users), x);
    assert x !in cascade by {
      if x in cascade {
        var r := CascadeOrigin(db, serverId, x);
        StemShape(db, serverId, x, r);
      }
    }
    ClientsExact(subs, x);
    forall s ensures s in subs <==> s in rows && keep(s) {
      FilterMember(keep, rows, s);
    }
    if h :| Serves(h, subs) && x == ItemOf(h) {
      assert Serves(h, rows) && keep(h.sub);
    }
    if h :| Serves(h, rows) && keep(h.sub) && x == ItemOf(h) {
      assert Serves(h, subs);
    }
  }

  function SchemaFor(db: Db, serverId: nat): nat {
    if serverId in db.servers && SupportsCascade(db.servers[serverId]) then 2 else 1
  }

  /** What a database that keeps its keys makes of a server is fit for everything the protocol asks of
      a publication: routes agree, and no UUID or email is blank or occurs twice. */
  lemma DesiredIsPublishable(rows: seq<SubRow>, users: Users, db: Db, serverId: nat, now: nat, size: nat)
    requires KeysKept(rows, db) && size >= 1
    ensures Built(Published(DesiredItems(rows, users, db, serverId, now), SchemaFor(db, serverId), size))
    ensures BuiltFrom(db, serverId, DesiredItems(rows, users, db, serverId, now))
  {
    hide DesiredItems, BuiltFrom, SubKeys, UuidKeys, NoRepeats, AllApart;
    var items := DesiredItems(rows, users, db, serverId, now);
    DesiredApart(rows, users, db, serverId, now);
    ApartNoRepeats(items);
    DesiredHaveExits(rows, users, db, serverId, now);
    DesiredIsBuilt(rows, users, db, serverId, now);
    BuiltIsCoherent(db, serverId, items, size);
  }

  /** Publishing an unchanged database again never makes a new generation, whatever order its rows
      come back in. */
  lemma RepublishIsIdle(row: Row, history: History, a: seq<SubRow>, b: seq<SubRow>, users: Users, db: Db,
                        serverId: nat, now: nat, size: nat)
    requires StoreInv(row, history) && KeysKept(a, db) && multiset(a) == multiset(b) && size >= 1
    ensures var schema := SchemaFor(db, serverId);
            var once := Publish(row, schema, DesiredItems(a, users, db, serverId, now), size);
            Publish(once, schema, DesiredItems(b, users, db, serverId, now), size) == once
  {
    hide StoreInv, KeysKept, DesiredItems, Publish, WellFormedItems, SchemaFor;
    DesiredIsPublishable(a, users, db, serverId, now, size);
    DesiredApart(a, users, db, serverId, now);
    RowOrderIrrelevant(a, b, users, db, serverId, now);
    PublishTwice(row, history, Published(DesiredItems(a, users, db, serverId, now), SchemaFor(db, serverId), size));
  }

  // --- the order of what is sent -------------------------------------------------------------------------------------

  lemma PaddedOrdered(m: nat, n: nat)
    requires |Dec(m)| <= 20 && |Dec(n)| <= 20 && StrLe(Padded(m), Padded(n))
    ensures m <= n
  {
    hide Value, StrLe, Dec;
    PaddedValue(m);
    PaddedValue(n);
    PaddedLength(m);
    PaddedLength(n);
    DigitsOrdered(Padded(m), Padded(n));
  }

  lemma PaddedLength(n: nat)
    requires |Dec(n)| <= 20
    ensures |Padded(n)| == 20
  {
    if |Dec(n)| < 20 {
      ZerosDigits(20 - |Dec(n)|);
    }
  }

  /** The number a cascade item or a limit is filed under. */
  function NumberOf(x: Item): nat
    requires !x.Client?
  {
    match x
    case Route(route) => route.routeId
    case Service(routeId, _, _, _, _) => routeId
    case ConnLimit(userId, _) => userId
  }

  lemma {:induction false} SortedPlaces(s: seq<Item>, i: nat, j: nat)
    requires Sorted(s) && i < j < |s|
    ensures KeyLe(KeyOf(s[i]), KeyOf(s[j]))
  {
    hide KeyLe, KeyOf;
    if i == 0 {
      assert s[j] in s;
    } else {
      SortedPlaces(s[1..], i - 1, j - 1);
    }
  }

  /** Routes come first, then services, clients and limits; routes, services and limits by ascending
      number, clients by email. */
  lemma OrderExact(rows: seq<SubRow>, users: Users, db: Db, serverId: nat, now: nat, i: nat, j: nat)
    requires i < j < |DesiredItems(rows, users, db, serverId, now)|
    ensures var x, y := DesiredItems(rows, users, db, serverId, now)[i], DesiredItems(rows, users, db, serverId, now)[j];
            && Rank(x) <= Rank(y)
            && (x.Client? && y.Client? ==> StrLe(x.email, y.email))
            && (Rank(x) == Rank(y) && !x.Client? && |Dec(NumberOf(x))| <= 20 && |Dec(NumberOf(y))| <= 20 ==>
                  NumberOf(x) <= NumberOf(y))
  {
    hide CascadeItems, Unsorted, Filter, Dec, Padded;
    var items := DesiredItems(rows, users, db, serverId, now);
    var x, y := items[i], items[j];
    SortSorts(Unsorted(Filter(Served(serverId, now), rows), users, CascadeItems(db, serverId)));
    SortedPlaces(items, i, j);
    KindsOrdered(x, y);
    if x.Client? && y.Client? {
      StrTotal(x.email, x.email);
    } else if Rank(x) == Rank(y) && |Dec(NumberOf(x))| <= 20 && |Dec(NumberOf(y))| <= 20 {
      StrTotal(Padded(NumberOf(x)), Padded(NumberOf(x)));
      PaddedOrdered(NumberOf(x), NumberOf(y));
    }
  }
}
