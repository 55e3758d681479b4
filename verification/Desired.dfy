/** bot/src/control/state.py: what the database makes of a node, in an order of its own that does
    not depend on the order in which rows come back. */
module Desired {
  import opened Wrappers
  import opened Seqs
  import opened Decimal
  import opened Items
  import opened Centre
  import opened StoreShape
  import opened CascadeService
  import opened Traffic

  // --- the order ------------------------------------------------------------------------------------

  /** Python's `<=` on strings. */
  predicate StrLe(a: string, b: string) {
    a == "" || (b != "" && (a[0] < b[0] || (a[0] == b[0] && StrLe(a[1..], b[1..]))))
  }

  lemma {:induction false} StrTotal(a: string, b: string)
    ensures StrLe(a, b) || StrLe(b, a)
    ensures StrLe(a, b) && StrLe(b, a) ==> a == b
  {
    if a != "" && b != "" {
      StrTotal(a[1..], b[1..]);
      assert a == [a[0]] + a[1..] && b == [b[0]] + b[1..];
    }
  }

  lemma {:induction false} StrTrans(a: string, b: string, c: string)
    requires StrLe(a, b) && StrLe(b, c)
    ensures StrLe(a, c)
  {
    if a != "" && a[0] == b[0] == c[0] {
      StrTrans(a[1..], b[1..], c[1..]);
    }
  }

  datatype Key = Key(kind: string, first: string, second: string)

  predicate KeyLe(a: Key, b: Key) {
    if a.kind != b.kind then StrLe(a.kind, b.kind)
    else if a.first != b.first then StrLe(a.first, b.first)
    else StrLe(a.second, b.second)
  }

  lemma KeyTotal(a: Key, b: Key)
    ensures KeyLe(a, b) || KeyLe(b, a)
    ensures KeyLe(a, b) && KeyLe(b, a) ==> a == b
  {
    StrTotal(a.kind, b.kind);
    StrTotal(a.first, b.first);
    StrTotal(a.second, b.second);
  }

  lemma KeyTrans(a: Key, b: Key, c: Key)
    requires KeyLe(a, b) && KeyLe(b, c)
    ensures KeyLe(a, c)
  {
    StrTotal(a.kind, b.kind);
    StrTotal(b.kind, c.kind);
    StrTotal(a.first, b.first);
    StrTotal(b.first, c.first);
    if a.kind == b.kind == c.kind {
      if a.first == b.first == c.first {
        StrTrans(a.second, b.second, c.second);
      } else {
        StrTrans(a.first, b.first, c.first);
      }
    } else {
      StrTrans(a.kind, b.kind, c.kind);
    }
  }

  function Zeros(n: nat): string {
    if n == 0 then "" else ['0'] + Zeros(n - 1)
  }

  /** `f"{n:020d}"` */
  function Padded(n: nat): string {
    if |Dec(n)| < 20 then Zeros(20 - |Dec(n)|) + Dec(n) else Dec(n)
  }

  /** `_item_sort_key` */
  function KeyOf(item: Item): Key {
    match item
    case Client(uuid, email, _) => Key("client", email, uuid)
    case ConnLimit(userId, _) => Key("conn_limit", Padded(userId), "")
    case Service(routeId, _, _, uuid, _) => Key("cascade_service", Padded(routeId), uuid)
    case Route(route) => Key("cascade_route", Padded(route.routeId), "")
  }

  function Insert(x: Item, s: seq<Item>): seq<Item> {
    if s == [] then [x]
    else if KeyLe(KeyOf(x), KeyOf(s[0])) then [x] + s
    else [s[0]] + Insert(x, s[1..])
  }

  function Sort(s: seq<Item>): seq<Item> {
    if s == [] then [] else Insert(s[0], Sort(s[1..]))
  }

  ghost predicate Sorted(s: seq<Item>) {
    s != [] ==> (forall x :: x in s ==> KeyLe(KeyOf(s[0]), KeyOf(x))) && Sorted(s[1..])
  }

  lemma {:induction false} InsertMembers(x: Item, s: seq<Item>)
    ensures multiset(Insert(x, s)) == multiset{x} + multiset(s)
    ensures forall y :: y in Insert(x, s) <==> y == x || y in s
  {
    if s != [] {
      InsertMembers(x, s[1..]);
      assert s == [s[0]] + s[1..];
    }
  }

  lemma {:induction false} InsertSorted(x: Item, s: seq<Item>)
    requires Sorted(s)
    ensures Sorted(Insert(x, s))
  {
    hide KeyOf, KeyLe;
    var r := Insert(x, s);
    InsertMembers(x, s);
    if s == [] {
      assert r[1..] == [];
      KeyTotal(KeyOf(x), KeyOf(x));
    } else if KeyLe(KeyOf(x), KeyOf(s[0])) {
      assert r[1..] == s;
      KeyTotal(KeyOf(x), KeyOf(x));
      forall y | y in s ensures KeyLe(KeyOf(x), KeyOf(y)) {
        KeyTrans(KeyOf(x), KeyOf(s[0]), KeyOf(y));
      }
    } else {
      InsertSorted(x, s[1..]);
      assert r[1..] == Insert(x, s[1..]);
      KeyTotal(KeyOf(x), KeyOf(s[0]));
      assert forall y :: y in r ==> y == x || y in s;
    }
  }

  /** Sorting permutes and orders. */
  lemma {:induction false} SortSorts(s: seq<Item>)
    ensures Sorted(Sort(s)) && multiset(Sort(s)) == multiset(s)
  {
    if s != [] {
      SortSorts(s[1..]);
      InsertSorted(s[0], Sort(s[1..]));
      InsertMembers(s[0], Sort(s[1..]));
      assert s == [s[0]] + s[1..];
    }
  }

  ghost predicate OneForEachKey(s: multiset<Item>) {
    && (forall x, y :: x in s && y in s && KeyOf(x) == KeyOf(y) ==> x == y)
  }

  lemma SameHead(s: seq<Item>, t: seq<Item>)
    requires s != [] && t != [] && Sorted(s) && Sorted(t) && multiset(s) == multiset(t) && OneForEachKey(multiset(s))
    ensures s[0] == t[0]
  {
    hide KeyOf, KeyLe;
    assert s[0] in multiset(t) && t[0] in multiset(s);
    assert s[0] in t && t[0] in s;
    KeyTotal(KeyOf(s[0]), KeyOf(t[0]));
  }

  lemma SameTail(s: seq<Item>, t: seq<Item>)
    requires s != [] && t != [] && multiset(s) == multiset(t) && s[0] == t[0]
    ensures multiset(s[1..]) == multiset(t[1..]) && multiset(s[1..]) <= multiset(s)
  {
    assert s == [s[0]] + s[1..] && t == [t[0]] + t[1..];
    assert multiset(s[1..]) == multiset(s) - multiset{s[0]};
    assert multiset(t[1..]) == multiset(t) - multiset{t[0]};
  }

  lemma FewerKeys(a: multiset<Item>, b: multiset<Item>)
    requires a <= b && OneForEachKey(b)
    ensures OneForEachKey(a)
  {
    hide KeyOf;
    assert forall x :: x in a ==> x in b;
  }

  /** With one item for each key there is only one sorted list of the same items. */
  lemma {:induction false} SortedUnique(s: seq<Item>, t: seq<Item>)
    requires Sorted(s) && Sorted(t) && multiset(s) == multiset(t) && OneForEachKey(multiset(s))
    ensures s == t
  {
    assert |multiset(s)| == |s| && |multiset(t)| == |t|;
    if s != [] {
      SameHead(s, t);
      SameTail(s, t);
      FewerKeys(multiset(s[1..]), multiset(s));
      hide OneForEachKey;
      SortedUnique(s[1..], t[1..]);
      assert s == [s[0]] + s[1..] && t == [t[0]] + t[1..];
    }
  }

  lemma SortCanonical(s: seq<Item>, t: seq<Item>)
    requires multiset(s) == multiset(t) && OneForEachKey(multiset(s))
    ensures Sort(s) == Sort(t)
  {
    SortSorts(s);
    SortSorts(t);
    SortedUnique(Sort(s), Sort(t));
  }

  // --- the rows ----------------------------------------------------------------------------------------

  datatype Device = Device(id: nat, uuid: string, isActive: bool, isSuspended: bool)

  /** A subscription with its devices and the servers it is linked to; it expires at a time in
      microseconds. */
  datatype SubRow = SubRow(
    userId: nat, id: nat, uuid: string, isActive: bool, expires: nat, servers: set<nat>, devices: seq<Device>)
  {
    function ExpireMs(): nat {
      expires / 1000
    }
  }

  /** The query's condition: linked to this server, active, and not expired. */
  function Served(serverId: nat, now: nat): SubRow -> bool {
    (s: SubRow) => serverId in s.servers && s.isActive && s.expires > now
  }

  /** The users' own connection limits; a user without one has no entry. */
  type Users = map<nat, int>

  function DeviceItems(sub: SubRow, devices: seq<Device>): seq<Item> {
    if devices == [] then []
    else
      var n := |devices| - 1;
      DeviceItems(sub, devices[..n]) +
      (if devices[n].isActive && !devices[n].isSuspended
       then [Client(devices[n].uuid, DeviceEmail(sub.userId, sub.id, devices[n].id), sub.ExpireMs())] else [])
  }

  function SubItems(sub: SubRow): seq<Item> {
    [Client(sub.uuid, Email(sub.userId, sub.id), sub.ExpireMs())] + DeviceItems(sub, sub.devices)
  }

  function ClientItems(subs: seq<SubRow>): seq<Item> {
    if subs == [] then [] else ClientItems(subs[..|subs| - 1]) + SubItems(subs[|subs| - 1])
  }

  function Max0(n: int): nat {
    if n < 0 then 0 else n
  }

  /** A dict assignment: a key seen before keeps its place. */
  function PutLimit(limits: seq<(nat, nat)>, user: nat, limit: nat): (r: seq<(nat, nat)>)
  {
    if limits == [] then [(user, limit)]
    else if limits[0].0 == user then [(user, limit)] + limits[1..]
    else [limits[0]] + PutLimit(limits[1..], user, limit)
  }

  function UserLimits(subs: seq<SubRow>, users: Users): seq<(nat, nat)> {
    if subs == [] then []
    else
      var n := |subs| - 1;
      var user := subs[n].userId;
      if user !in users then UserLimits(subs[..n], users)
      else PutLimit(UserLimits(subs[..n], users), user, Max0(users[user]))
  }

  function LimitItems(limits: seq<(nat, nat)>): (r: seq<Item>)
    ensures |r| == |limits| && forall i :: 0 <= i < |r| ==> r[i] == ConnLimit(limits[i].0, limits[i].1)
  {
    if limits == [] then [] else [ConnLimit(limits[0].0, limits[0].1)] + LimitItems(limits[1..])
  }

  function Unsorted(subs: seq<SubRow>, users: Users, cascade: seq<Item>): seq<Item> {
    ClientItems(subs) + LimitItems(UserLimits(subs, users)) + cascade
  }

  /** What a server is to hold. */
  function DesiredItems(rows: seq<SubRow>, users: Users, db: Db, serverId: nat, now: nat): seq<Item> {
    if serverId !in db.servers || !db.servers[serverId].isActive then []
    else Sort(Unsorted(Filter(Served(serverId, now), rows), users, CascadeItems(db, serverId)))
  }

  datatype LookupError = UnknownServer

  /** `build_desired_items`. */
  method BuildDesiredItems(rows: seq<SubRow>, users: Users, db: Db, serverId: nat, now: nat)
    returns (r: Result<seq<Item>, LookupError>)
    ensures r == if serverId in db.servers then Ok(DesiredItems(rows, users, db, serverId, now)) else Err(UnknownServer)
  {
    if serverId !in db.servers {
      return Err(UnknownServer);
    }
    if !db.servers[serverId].isActive {
      return Ok([]);
    }
    hide Sort, CascadeItems, Filter;
    var subs := Filter(Served(serverId, now), rows);
    var items, limits := CollectRows(subs, users);
    items := items + LimitItems(limits);
    var cascade := BuildCascadeItems(db, serverId);
    items := items + cascade;
    r := Ok(Sort(items));
  }

  /** The loop over subscriptions and devices. */
  method CollectRows(subs: seq<SubRow>, users: Users) returns (items: seq<Item>, limits: seq<(nat, nat)>)
    ensures items == ClientItems(subs) && limits == UserLimits(subs, users)
  {
    hide Email, DeviceEmail, PutLimit;
    items, limits := [], [];
    for k := 0 to |subs|
      invariant items == ClientItems(subs[..k]) && limits == UserLimits(subs[..k], users)
    {
      var sub := subs[k];
      assert subs[..k + 1][..k] == subs[..k];
      var email := Email(sub.userId, sub.id);
      items := items + [Client(sub.uuid, email, sub.ExpireMs())];
      ghost var head := items;
      for j := 0 to |sub.devices|
        invariant items == head + DeviceItems(sub, sub.devices[..j])
      {
        var device := sub.devices[j];
        assert sub.devices[..j + 1][..j] == sub.devices[..j];
        if !device.isActive || device.isSuspended {
          continue;
        }
        EmailAppends(sub.userId, sub.id, device.id);
        items := items + [Client(device.uuid, email + (DEV + Dec(device.id)), sub.ExpireMs())];
      }
      assert sub.devices[..|sub.devices|] == sub.devices;
      if sub.userId in users {
        limits := PutLimit(limits, sub.userId, Max0(users[sub.userId]));
      }
    }
    assert subs[..|subs|] == subs;
  }

  lemma EmailAppends(user: nat, sub: nat, device: nat)
    ensures Email(user, sub) + (DEV + Dec(device)) == DeviceEmail(user, sub, device)
  {
  }

  lemma {:induction false} DeviceCounted(sub: SubRow, devices: seq<Device>)
    ensures forall x :: x in DeviceItems(sub, devices) ==> x.Client? && ParseEmail(x.email) == Some((sub.userId, sub.id))
  {
    if devices != [] {
      DeviceCounted(sub, devices[..|devices| - 1]);
      EmailRoundTrip(sub.userId, sub.id, devices[|devices| - 1].id);
    }
  }

  /** Every client sent to a node is one subscription's, and its traffic is credited to it. */
  lemma {:induction false} ClientsAreCounted(subs: seq<SubRow>)
    ensures forall x :: x in ClientItems(subs) ==>
              x.Client? && exists s :: s in subs && ParseEmail(x.email) == Some((s.userId, s.id))
  {
    if subs != [] {
      var n := |subs| - 1;
      ClientsAreCounted(subs[..n]);
      assert subs[n] in subs && forall s :: s in subs[..n] ==> s in subs;
      DeviceCounted(subs[n], subs[n].devices);
      EmailRoundTrip(subs[n].userId, subs[n].id, 0);
    }
  }

  // --- the order of the rows does not matter ------------------------------------------------------------

  lemma {:induction false} ClientsConcat(a: seq<SubRow>, b: seq<SubRow>)
    ensures ClientItems(a + b) == ClientItems(a) + ClientItems(b)
  {
    hide SubItems;
    if b == [] {
      assert a + b == a;
    } else {
      var n := |b| - 1;
      ClientsConcat(a, b[..n]);
      assert (a + b)[..|a + b| - 1] == a + b[..n];
    }
  }

  lemma ClientsOne(x: SubRow)
    ensures ClientItems([x]) == SubItems(x)
  {
    hide SubItems;
    assert [x][..0] == [];
  }

  lemma ClientsPick(subs: seq<SubRow>, k: nat)
    requires k < |subs|
    ensures multiset(ClientItems(subs)) ==
            multiset(ClientItems(subs[..k] + subs[k + 1..])) + multiset(SubItems(subs[k]))
    ensures multiset(subs[..k] + subs[k + 1..]) == multiset(subs) - multiset{subs[k]}
  {
    hide SubItems, ClientItems;
    var a, x, b := subs[..k], subs[k], subs[k + 1..];
    assert subs == a + [x] + b;
    ClientsConcat(a + [x], b);
    ClientsConcat(a, [x]);
    ClientsConcat(a, b);
    ClientsOne(x);
  }

  lemma {:induction false} ClientsPermuted(a: seq<SubRow>, b: seq<SubRow>)
    requires multiset(a) == multiset(b)
    ensures multiset(ClientItems(a)) == multiset(ClientItems(b))
  {
    hide ClientItems, SubItems;
    if a == [] {
      assert |multiset(b)| == |b|;
    } else {
      var n := |a| - 1;
      assert a[n] in multiset(b);
      var k :| 0 <= k < |b| && b[k] == a[n];
      ClientsPick(a, n);
      ClientsPick(b, k);
      ClientsPermuted(a[..n] + a[n + 1..], b[..k] + b[k + 1..]);
    }
  }

  lemma {:induction false} PutMembers(limits: seq<(nat, nat)>, user: nat, limit: nat)
    requires forall e :: e in limits && e.0 == user ==> e.1 == limit
    ensures forall e :: e in PutLimit(limits, user, limit) <==> e in limits || e == (user, limit)
    ensures DistinctUsers(limits) ==> DistinctUsers(PutLimit(limits, user, limit))
  {
    if limits != [] {
      var tail := limits[1..];
      assert limits == [limits[0]] + tail;
      assert limits[0] in limits;
      if limits[0].0 != user {
        PutMembers(tail, user, limit);
        assert PutLimit(limits, user, limit) == [limits[0]] + PutLimit(tail, user, limit);
        if DistinctUsers(limits) {
          assert DistinctUsers(tail);
          forall e | e in PutLimit(tail, user, limit) ensures e.0 != limits[0].0 {
            if e in tail {
              var i :| 0 <= i < |tail| && tail[i] == e;
              assert limits[i + 1] == e;
            }
          }
        }
      }
    }
  }

  ghost predicate DistinctUsers(limits: seq<(nat, nat)>) {
    forall i, j :: 0 <= i < j < |limits| ==> limits[i].0 != limits[j].0
  }

  ghost predicate Wants(subs: seq<SubRow>, users: Users, e: (nat, nat)) {
    exists s :: s in subs && s.userId in users && e == (s.userId, Max0(users[s.userId]))
  }

  /** One limit for each user who has one and a subscription here. */
  lemma {:induction false} LimitsMember(subs: seq<SubRow>, users: Users)
    ensures DistinctUsers(UserLimits(subs, users))
    ensures forall e :: e in UserLimits(subs, users) <==> Wants(subs, users, e)
  {
    if subs != [] {
      var n := |subs| - 1;
      var front, last := subs[..n], subs[n];
      assert subs == front + [last];
      LimitsMember(front, users);
      if last.userId in users {
        PutMembers(UserLimits(front, users), last.userId, Max0(users[last.userId]));
      }
      forall e ensures e in UserLimits(subs, users) <==> Wants(subs, users, e) {
        if Wants(front, users, e) {
          var s :| s in front && s.userId in users && e == (s.userId, Max0(users[s.userId]));
          assert s in subs;
        }
        if last.userId in users && e == (last.userId, Max0(users[last.userId])) {
          assert last in subs;
        }
        if Wants(subs, users, e) {
          var s :| s in subs && s.userId in users && e == (s.userId, Max0(users[s.userId]));
          assert s in front || s == last;
        }
      }
    }
  }

  lemma SameMembers<T>(a: seq<T>, b: seq<T>)
    requires Distinct(a) && Distinct(b) && forall x :: x in a <==> x in b
    ensures multiset(a) == multiset(b)
  {
    DistinctCounts(a);
    DistinctCounts(b);
    forall x ensures multiset(a)[x] == multiset(b)[x] {
      assert x in multiset(a) <==> x in a;
      assert x in multiset(b) <==> x in b;
    }
  }

  lemma {:induction false} LimitItem(limits: seq<(nat, nat)>, x: Item)
    ensures x in LimitItems(limits) <==> x.ConnLimit? && (x.userId, x.limit) in limits
  {
    if limits != [] {
      assert limits == [limits[0]] + limits[1..];
      LimitItem(limits[1..], x);
    }
  }

  lemma LimitsPermuted(a: seq<SubRow>, b: seq<SubRow>, users: Users)
    requires multiset(a) == multiset(b)
    ensures multiset(LimitItems(UserLimits(a, users))) == multiset(LimitItems(UserLimits(b, users)))
  {
    hide UserLimits;
    LimitsMember(a, users);
    LimitsMember(b, users);
    var la, lb := UserLimits(a, users), UserLimits(b, users);
    forall s ensures s in a <==> s in b {
      assert s in multiset(a) <==> s in multiset(b);
    }
    assert forall e :: e in la <==> e in lb;
    forall x ensures x in LimitItems(la) <==> x in LimitItems(lb) {
      LimitItem(la, x);
      LimitItem(lb, x);
    }
    SameMembers(LimitItems(la), LimitItems(lb));
  }

  lemma {:induction false} FilterCount(keep: SubRow -> bool, s: seq<SubRow>, x: SubRow)
    ensures multiset(Filter(keep, s))[x] == if keep(x) then multiset(s)[x] else 0
  {
    if s != [] {
      FilterCount(keep, s[1..], x);
      assert s == [s[0]] + s[1..];
    }
  }

  lemma FilterPermuted(keep: SubRow -> bool, a: seq<SubRow>, b: seq<SubRow>)
    requires multiset(a) == multiset(b)
    ensures multiset(Filter(keep, a)) == multiset(Filter(keep, b))
  {
    var fa, fb := multiset(Filter(keep, a)), multiset(Filter(keep, b));
    forall x: SubRow ensures fa[x] == fb[x] {
      FilterCount(keep, a, x);
      FilterCount(keep, b, x);
    }
    assert fa == fb;
  }

  /** Whatever order the database returns the subscriptions in, the desired items are the same list,
      and so is their digest. */
  lemma RowOrderIrrelevant(a: seq<SubRow>, b: seq<SubRow>, users: Users, db: Db, serverId: nat, now: nat)
    requires multiset(a) == multiset(b)
    requires OneForEachKey(multiset(DesiredItems(a, users, db, serverId, now)))
    ensures DesiredItems(a, users, db, serverId, now) == DesiredItems(b, users, db, serverId, now)
  {
    if serverId in db.servers && db.servers[serverId].isActive {
      hide Filter, ClientItems, UserLimits, CascadeItems;
      var x, y := Filter(Served(serverId, now), a), Filter(Served(serverId, now), b);
      var cascade := CascadeItems(db, serverId);
      FilterPermuted(Served(serverId, now), a, b);
      ClientsPermuted(x, y);
      LimitsPermuted(x, y, users);
      SortSorts(Unsorted(x, users, cascade));
      SortCanonical(Unsorted(x, users, cascade), Unsorted(y, users, cascade));
    }
  }

  lemma PublishedIsLatest(row: Row, history: History, p: Published)
    requires StoreInv(row, history) && Coherent(p)
    ensures var once := Publish(row, p.schema, p.items, p.size);
            var h := PublishedHistory(row, once, history, p);
            && once.desired in h && h[once.desired].items == p.items && h[once.desired].schema == p.schema
            && once.desired > 0
  {
    hide SnapshotsStored, AcksExact, Publish, UpToDate;
    if row.desired > 0 {
      assert row.desired in history;
    }
    PublishForm(row, history, p);
  }

  /** Publishing the same items again makes no new generation. */
  lemma PublishTwice(row: Row, history: History, p: Published)
    requires StoreInv(row, history) && Coherent(p)
    ensures p.size >= 1
    ensures var once := Publish(row, p.schema, p.items, p.size);
            Publish(once, p.schema, p.items, p.size) == once
  {
    hide StoreInv, Coherent, Publish, UpToDate;
    CoherentSize(p);
    PublishKeeps(row, history, p);
    var once := Publish(row, p.schema, p.items, p.size);
    PublishedIsLatest(row, history, p);
    PublishForm(once, PublishedHistory(row, once, history, p), p);
  }

  lemma SortMembers(s: seq<Item>, x: Item)
    ensures x in Sort(s) <==> x in s
  {
    SortSorts(s);
    assert x in Sort(s) <==> x in multiset(Sort(s));
    assert x in s <==> x in multiset(s);
  }

  /** A server that is gone or inactive takes no part in any route. */
  lemma InactiveGetsNothing(db: Db, serverId: nat)
    requires serverId !in db.servers || !db.servers[serverId].isActive
    ensures CascadeItems(db, serverId) == []
  {
    hide RouteExits, EnabledRoutes;
    var items := CascadeItems(db, serverId);
    if items != [] {
      var x := items[0];
      assert x in items;
      ItemsFromMember(db, serverId, EnabledRoutes(db), x);
      var r :| r in EnabledRoutes(db) && x in RouteItems(db, serverId, r);
      ServiceMember(db, serverId, r, RouteExits(db, r.id), x);
      if e :| e in RouteExits(db, r.id) && e.0.exitServerId == serverId {
        RouteExitsExact(db, r.id, e);
      }
    }
  }

  /** What is built satisfies what the store and the fleet rely on. */
  lemma DesiredIsBuilt(rows: seq<SubRow>, users: Users, db: Db, serverId: nat, now: nat)
    ensures BuiltFrom(db, serverId, DesiredItems(rows, users, db, serverId, now))
  {
    hide CascadeItems;
    if serverId !in db.servers || !db.servers[serverId].isActive {
      InactiveGetsNothing(db, serverId);
    } else {
      var subs, cascade := Filter(Served(serverId, now), rows), CascadeItems(db, serverId);
      ClientsAreCounted(subs);
      forall x | IsCascade(x) ensures x in DesiredItems(rows, users, db, serverId, now) <==> x in cascade {
        LimitItem(UserLimits(subs, users), x);
        SortMembers(Unsorted(subs, users, cascade), x);
      }
    }
  }

  // --- the order, outright ---------------------------------------------------------------------------

  /** Python's order on strings: a prefix comes first, else the first difference decides. */
  lemma {:induction false} StrLeExact(a: string, b: string)
    ensures StrLe(a, b) <==>
            a <= b || exists k: nat :: k < |a| && k < |b| && a[..k] == b[..k] && a[k] < b[k]
  {
    if a != "" && b != "" {
      StrLeExact(a[1..], b[1..]);
      if StrLe(a, b) && a[0] == b[0] && !(a[1..] <= b[1..]) {
        var k: nat :| k < |a[1..]| && k < |b[1..]| && a[1..][..k] == b[1..][..k] && a[1..][k] < b[1..][k];
        assert a[..k + 1] == [a[0]] + a[1..][..k] && b[..k + 1] == [b[0]] + b[1..][..k];
        assert a[k + 1] < b[k + 1];
      }
      if k: nat :| k < |a| && k < |b| && a[..k] == b[..k] && a[k] < b[k] {
        if k > 0 {
          assert a[..k][0] == b[..k][0];
          assert a[1..][..k - 1] == a[..k][1..] && b[1..][..k - 1] == b[..k][1..];
          assert a[1..][k - 1] < b[1..][k - 1];
        }
      }
      if a <= b {
        assert a[1..] <= b[1..];
      }
      if a[0] == b[0] && a[1..] <= b[1..] {
        assert b == [b[0]] + b[1..] && a == [a[0]] + a[1..];
        assert b[..|a|] == a;
      }
    } else if a == "" {
      assert a <= b;
    }
  }

  /** Routes, then services, then clients, then limits. */
  function Rank(x: Item): nat {
    match x
    case Route(_) => 0
    case Service(_, _, _, _, _) => 1
    case Client(_, _, _) => 2
    case ConnLimit(_, _) => 3
  }

  lemma {:induction false} CommonStart(p: string, a: string, b: string)
    ensures StrLe(p + a, p + b) <==> StrLe(a, b)
  {
    if p == "" {
      assert p + a == a && p + b == b;
    } else {
      CommonStart(p[1..], a, b);
      assert (p + a)[1..] == p[1..] + a && (p + b)[1..] == p[1..] + b;
    }
  }

  /** After a common start the first character decides. */
  lemma FirstDecides(p: string, a: string, b: string)
    requires a != "" && b != "" && a[0] < b[0]
    ensures StrLe(p + a, p + b) && !StrLe(p + b, p + a)
  {
    CommonStart(p, a, b);
    CommonStart(p, b, a);
  }

  lemma KindsOrdered(x: Item, y: Item)
    ensures KeyOf(x).kind != KeyOf(y).kind ==> (StrLe(KeyOf(x).kind, KeyOf(y).kind) <==> Rank(x) < Rank(y))
    ensures KeyOf(x).kind == KeyOf(y).kind <==> Rank(x) == Rank(y)
  {
    hide StrLe;
    FirstDecides("cascade_", "route", "service");
    FirstDecides("c", "ascade_route", "lient");
    FirstDecides("c", "ascade_service", "lient");
    FirstDecides("c", "ascade_route", "onn_limit");
    FirstDecides("c", "ascade_service", "onn_limit");
    FirstDecides("c", "lient", "onn_limit");
    assert "cascade_" + "route" == "c" + "ascade_route" == "cascade_route";
    assert "cascade_" + "service" == "c" + "ascade_service" == "cascade_service";
    assert "c" + "lient" == "client" && "c" + "onn_limit" == "conn_limit";
    assert |"cascade_route"| == 13 && |"cascade_service"| == 15 && |"client"| == 6 && |"conn_limit"| == 10;
  }

  // --- numbers with leading zeros ------------------------------------------------------------------------

  function PowTen(n: nat): nat {
    if n == 0 then 1 else 10 * PowTen(n - 1)
  }

  lemma {:induction false} ValueHead(s: string)
    requires s != "" && AllDigits(s)
    ensures AllDigits(s[1..]) && Value(s) == (s[0] as int - '0' as int) * PowTen(|s| - 1) + Value(s[1..])
    ensures Value(s[1..]) < PowTen(|s| - 1)
  {
    assert s[0] in s;
    if |s| == 1 {
      assert s[..0] == "" && s[1..] == "";
    } else {
      var n := |s| - 1;
      var front, tail := s[..n], s[1..];
      assert s[n] in s;
      ValueHead(front);
      assert front[1..] == tail[..n - 1] && front[0] == s[0] && tail[n - 1] == s[n];
      assert Value(tail) == 10 * Value(tail[..n - 1]) + (s[n] as int - '0' as int);
      TenTimes(s[0] as int - '0' as int, PowTen(n - 1), Value(front[1..]));
    }
  }

  lemma TenTimes(d: int, p: nat, v: nat)
    ensures 10 * (d * p + v) == d * (10 * p) + 10 * v
  {
  }

  /** Of two numbers written with as many digits, the one that comes first is the smaller. */
  lemma {:induction false} DigitsOrdered(a: string, b: string)
    requires AllDigits(a) && AllDigits(b) && |a| == |b| && StrLe(a, b)
    ensures Value(a) <= Value(b)
  {
    if a != "" {
      ValueHead(a);
      ValueHead(b);
      assert a[0] in a && b[0] in b;
      if a[0] == b[0] {
        DigitsOrdered(a[1..], b[1..]);
      } else {
        HeadDecides(a[0] as int - '0' as int, b[0] as int - '0' as int, PowTen(|a| - 1), Value(a[1..]), Value(b[1..]));
      }
    }
  }

  lemma HeadDecides(d: nat, e: nat, p: nat, v: nat, w: nat)
    requires d < e && v < p
    ensures d * p + v <= e * p + w
  {
    assert e * p >= (d + 1) * p;
  }
}
