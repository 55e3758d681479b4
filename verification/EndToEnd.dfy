/** From the tables at the centre to what a node lets in: expiry times, connection limits, and that
    what is built is also accepted. */
module EndToEnd {
  import opened Wrappers
  import opened Seqs
  import opened Decimal
  import opened Items
  import opened Reconcile
  import opened NodeMachine
  import opened Centre
  import opened StoreShape
  import opened Transport
  import opened CascadeService
  import opened Traffic
  import opened Desired
  import opened Publication
  import opened Effects

  // --- what is sent for a subscription -------------------------------------------------------------

  /** This subscription is linked to the server, active, and expires after `now` (in microseconds). */
  predicate Runs(s: SubRow, serverId: nat, now: nat) {
    serverId in s.servers && s.isActive && now < s.expires
  }

  predicate Uses(d: Device) {
    d.isActive && !d.isSuspended
  }

  /** The time is the subscription's, in whole milliseconds. */
  predicate SameTime(ms: nat, micros: nat) {
    ms * 1000 <= micros < (ms + 1) * 1000
  }

  function MainEmail(s: SubRow): string {
    "user_" + Dec(s.userId) + "_sub_" + Dec(s.id)
  }

  /** The client item a subscription stands behind: its own, or one of its devices'. */
  predicate Speaks(x: Item, s: SubRow) {
    && x.Client? && SameTime(x.expireMs, s.expires)
    && ((x.uuid == s.uuid && x.email == MainEmail(s))
        || exists d :: d in s.devices && Uses(d) && x.uuid == d.uuid && x.email == MainEmail(s) + "_dev_" + Dec(d.id))
  }

  lemma EmailText(s: SubRow, device: nat)
    ensures Email(s.userId, s.id) == MainEmail(s)
    ensures DeviceEmail(s.userId, s.id, device) == MainEmail(s) + "_dev_" + Dec(device)
  {
  }

  lemma TimeOf(s: SubRow)
    ensures SameTime(s.ExpireMs(), s.expires)
  {
    assert s.expires == s.expires / 1000 * 1000 + s.expires % 1000;
  }

  lemma HolderSpeaks(h: Holder, rows: seq<SubRow>)
    requires Publication.Serves(h, rows)
    ensures Speaks(ItemOf(h), h.sub) && h.sub in rows
  {
    hide Email, DeviceEmail, MainEmail, SameTime;
    EmailText(h.sub, if h.OfDevice? then h.device.id else 0);
    TimeOf(h.sub);
  }

  /** Every client sent speaks for one running subscription, with its UUID, its email and its time. */
  lemma SentFor(rows: seq<SubRow>, users: Users, db: Db, serverId: nat, now: nat, x: Item) returns (s: SubRow)
    requires x.Client? && x in DesiredItems(rows, users, db, serverId, now)
    ensures serverId in db.servers && db.servers[serverId].isActive
    ensures s in rows && Runs(s, serverId, now) && Speaks(x, s) && ParseEmail(x.email) == Some((s.userId, s.id))
  {
    hide ItemOf, Speaks, CascadeItems, ClientItems, ParseEmail;
    ServedExactly(rows, users, db, serverId, now, x);
    var h :| Publication.Serves(h, rows) && Served(serverId, now)(h.sub) && x == ItemOf(h);
    HolderSpeaks(h, rows);
    s := h.sub;
    SpeaksFor(x, s);
  }

  lemma SpeaksFor(x: Item, s: SubRow)
    requires Speaks(x, s)
    ensures ParseEmail(x.email) == Some((s.userId, s.id))
  {
    hide ParseEmail, Dec, Email, DeviceEmail;
    EmailText(s, 0);
    EmailRoundTrip(s.userId, s.id, 0);
    if d :| d in s.devices && Uses(d) && x.uuid == d.uuid && x.email == MainEmail(s) + "_dev_" + Dec(d.id) {
      EmailText(s, d.id);
      EmailRoundTrip(s.userId, s.id, d.id);
    }
  }

  /** And every running subscription is sent, and so is each of its usable devices. */
  lemma IsSent(rows: seq<SubRow>, users: Users, db: Db, serverId: nat, now: nat, s: SubRow, d: Option<Device>) returns (x: Item)
    requires serverId in db.servers && db.servers[serverId].isActive && s in rows && Runs(s, serverId, now)
    requires d.Some? ==> d.value in s.devices && Uses(d.value)
    ensures x in DesiredItems(rows, users, db, serverId, now) && Speaks(x, s)
    ensures x.uuid == if d.Some? then d.value.uuid else s.uuid
  {
    hide CascadeItems, ClientItems, Speaks, DesiredItems, Email, DeviceEmail;
    var h := if d.Some? then OfDevice(s, d.value) else OfSub(s);
    x := ItemOf(h);
    HolderSpeaks(h, rows);
    ServedExactly(rows, users, db, serverId, now, x);
  }

  // --- when it may be used -----------------------------------------------------------------------------

  /** A node authorises a client at time `t` (in milliseconds) only before its subscription expires,
      and does so up to the last whole millisecond before. */
  lemma AuthorisedUntil(rows: seq<SubRow>, users: Users, db: Db, serverId: nat, now: nat, x: Item, t: nat) returns (s: SubRow)
    requires KeysKept(rows, db) && x.Client? && x in DesiredItems(rows, users, db, serverId, now)
    ensures s in rows && ParseEmail(x.email) == Some((s.userId, s.id))
    ensures DesiredClient(x.uuid, x.email) in DesiredClients(DesiredItems(rows, users, db, serverId, now), t) ==> 1000 * t < s.expires
    ensures 1000 * (t + 1) <= s.expires ==>
              DesiredClient(x.uuid, x.email) in DesiredClients(DesiredItems(rows, users, db, serverId, now), t)
  {
    hide DesiredItems, KeysKept, ParseEmail, KeyOf, DesiredClients;
    var items := DesiredItems(rows, users, db, serverId, now);
    s := SentFor(rows, users, db, serverId, now, x);
    DesiredFromItem(items, t, x.uuid, x.email);
    DesiredApart(rows, users, db, serverId, now);
    if DesiredClient(x.uuid, x.email) in DesiredClients(items, t) {
      var y :| y in items && Authorises(y, t) && Account(y) == (x.uuid, x.email);
      assert y == x || Apart(x, y);
    }
  }

  // --- connection limits ------------------------------------------------------------------------------

  /** The limits sent are exactly those of users with a running subscription on the server and a limit of
      their own; a negative one counts as none at all, which is zero. */
  lemma LimitsSent(rows: seq<SubRow>, users: Users, db: Db, serverId: nat, now: nat, user: nat, limit: nat)
    requires serverId in db.servers && db.servers[serverId].isActive
    ensures ConnLimit(user, limit) in DesiredItems(rows, users, db, serverId, now) <==>
            && user in users && limit == (if users[user] >= 0 then users[user] else 0)
            && exists s :: s in rows && Runs(s, serverId, now) && s.userId == user
  {
    hide CascadeItems, ClientItems, UserLimits;
    var keep := Served(serverId, now);
    var subs := Filter(keep, rows);
    var cascade := CascadeItems(db, serverId);
    var x := ConnLimit(user, limit);
    SortMembers(Unsorted(subs, users, cascade), x);
    LimitItem(UserLimits(subs, users), x);
    LimitsMember(subs, users);
    ClientsAreCounted(subs);
    CascadeKinds(db, serverId);
    forall s ensures s in subs <==> s in rows && Runs(s, serverId, now) {
      FilterMember(keep, rows, s);
    }
    if Desired.Wants(subs, users, (user, limit)) {
      var s :| s in subs && s.userId in users && (user, limit) == (s.userId, Max0(users[s.userId]));
      assert s in rows && Runs(s, serverId, now);
    }
    if s :| s in rows && Runs(s, serverId, now) && s.userId == user {
      assert s in subs;
    }
  }

  lemma CascadeKinds(db: Db, serverId: nat)
    ensures forall x :: x in CascadeItems(db, serverId) ==> IsCascade(x)
  {
    hide CascadeItems, Stems;
    forall x | x in CascadeItems(db, serverId) ensures IsCascade(x) {
      var r := CascadeOrigin(db, serverId, x);
      StemShape(db, serverId, x, r);
    }
  }

  /** A node that applied what was built enforces exactly the users' own limits. */
  lemma LimitsArrive(rows: seq<SubRow>, users: Users, db: Db, serverId: nat, now: nat, user: nat, limit: nat)
    requires KeysKept(rows, db) && serverId in db.servers && db.servers[serverId].isActive
    ensures var overrides := DesiredOverrides(DesiredItems(rows, users, db, serverId, now));
            user in overrides && overrides[user] == limit <==>
            && user in users && limit == (if users[user] >= 0 then users[user] else 0)
            && exists s :: s in rows && Runs(s, serverId, now) && s.userId == user
  {
    hide DesiredItems, KeysKept, DesiredOverrides, Runs;
    var items := DesiredItems(rows, users, db, serverId, now);
    LimitsSent(rows, users, db, serverId, now, user, limit);
    OverridesExact(items, user, limit);
    DesiredApart(rows, users, db, serverId, now);
    var x := ConnLimit(user, limit);
    if x in items {
      var j :| 0 <= j < |items| && items[j] == x;
      forall m | j < m < |items| ensures !(items[m].ConnLimit? && items[m].userId == user) {
        assert items[m] in items && items[m] != x;
        assert Apart(items[m], x);
      }
      assert LimitedTo(items, user, limit);
    }
  }

  // --- and it is accepted ----------------------------------------------------------------------------------

  /** What the tables hold besides their keys: ids and revisions count from one, and a server listens
      on a real port. */
  ghost predicate SoundTables(db: Db) {
    && (forall r :: r in db.routes ==> r.id >= 1 && r.revision >= 1)
    && (forall id :: id in db.servers ==> 1 <= db.servers[id].port <= 65535)
  }

  lemma NothingFaulty(rows: seq<SubRow>, users: Users, db: Db, serverId: nat, now: nat)
    requires KeysKept(rows, db) && SoundTables(db)
    ensures forall x :: x in DesiredItems(rows, users, db, serverId, now) ==> !Faulty(x)
  {
    hide KeysKept, CascadeItems, DesiredItems, Faulty;
    DesiredIsBuilt(rows, users, db, serverId, now);
    forall x | x in DesiredItems(rows, users, db, serverId, now) ensures !Faulty(x) {
      if IsCascade(x) {
        var r := CascadeOrigin(db, serverId, x);
        StemSound(db, serverId, x, r);
      } else {
        OthersSound(x);
      }
    }
  }

  lemma OthersSound(x: Item)
    requires !IsCascade(x)
    ensures !Faulty(x)
  {
  }

  lemma StemSound(db: Db, serverId: nat, x: Item, r: RouteRow)
    requires Stems(db, serverId, x, r) && SoundTables(db)
    ensures !Faulty(x)
  {
    hide CurrentDigest, Dec, RouteExits;
    assert r.id >= 1 && r.revision >= 1;
    StemShape(db, serverId, x, r);
    if x.Route? {
      var exits := RouteExits(db, r.id);
      forall e | e in x.route.exits ensures 1 <= e.port <= 65535 {
        var k :| 0 <= k < |exits| && ExitList(exits)[k] == e;
        RouteExitsExact(db, r.id, exits[k]);
      }
    }
  }

  /** Whatever a database that keeps its keys makes of a server: served as stored, it is accepted by the
      agent and comes back whole, if it fits the agent's limits. */
  lemma BuiltIsAccepted(rows: seq<SubRow>, users: Users, db: Db, serverId: nat, now: nat,
                        link: Transport.Link, limits: Limits, g: nat, size: nat)
    requires KeysKept(rows, db) && SoundTables(db) && g >= 1 && size >= 1
    requires Transport.Serves(link, g, SchemaFor(db, serverId), DesiredItems(rows, users, db, serverId, now), size)
    ensures Fits(DesiredItems(rows, users, db, serverId, now), size, limits) <==>
            SyncResult(link, limits) ==
            Ok(Some(Snapshot(SchemaFor(db, serverId), g, ItemsDigest(DesiredItems(rows, users, db, serverId, now)),
                             DesiredItems(rows, users, db, serverId, now))))
  {
    hide KeysKept, DesiredItems, SyncResult, Fits, Faulty, NoRepeats, Transport.Serves;
    var items := DesiredItems(rows, users, db, serverId, now);
    NothingFaulty(rows, users, db, serverId, now);
    DesiredApart(rows, users, db, serverId, now);
    ApartNoRepeats(items);
    RoundTrip(link, limits, g, SchemaFor(db, serverId), items, size);
  }

  /** The newer format exactly for a server that understands it. */
  lemma SchemaExact(db: Db, serverId: nat)
    ensures SchemaFor(db, serverId) == 2 <==> serverId in db.servers && "cascade-v2" in db.servers[serverId].features
    ensures SchemaFor(db, serverId) == 1 <==> !(serverId in db.servers && "cascade-v2" in db.servers[serverId].features)
  {
  }
}
