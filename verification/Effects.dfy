/** What a node holds when a reconciliation succeeds, item by item and field by field: who is on
    which inbound with which flow, who may sign in, which limits apply, where the routes lead. */
module Effects {
  import opened Wrappers
  import opened Items
  import opened XrayConfig
  import opened Records
  import opened Cascade
  import opened FailClosed
  import opened CascadeFields
  import opened Reconcile
  import opened LiveDelta
  import opened Hysteria
  import opened NodeMachine
  import opened NodeSafety
  import opened Protocol

  // --- whom a snapshot authorises --------------------------------------------------------------------

  /** A client until it expires, a cascade service always. */
  predicate Authorises(x: Item, nowMs: nat) {
    (x.Client? && nowMs < x.expireMs) || x.Service?
  }

  function Account(x: Item): (string, string)
    requires x.Client? || x.Service?
  {
    (x.uuid, x.email)
  }

  /** The places of a snapshot's authorised items, in order. */
  ghost predicate Places(items: seq<Item>, nowMs: nat, places: seq<nat>) {
    && (forall k :: 0 <= k < |places| ==> places[k] < |items| && Authorises(items[places[k]], nowMs))
    && (forall k, m :: 0 <= k < m < |places| ==> places[k] < places[m])
    && (forall j :: 0 <= j < |items| && Authorises(items[j], nowMs) ==> j in places)
  }

  ghost predicate PlacesFrom(items: seq<Item>, nowMs: nat, from: nat, places: seq<nat>) {
    && (forall k :: 0 <= k < |places| ==>
          from <= places[k] < |items| && Authorises(items[places[k]], nowMs)
          && (items[places[k]].Client? || items[places[k]].Service?))
    && (forall k, m :: 0 <= k < m < |places| ==> places[k] < places[m])
    && (forall j :: from <= j < |items| && Authorises(items[j], nowMs) ==> j in places)
  }

  lemma {:induction false} InOrderFrom(items: seq<Item>, nowMs: nat, from: nat) returns (places: seq<nat>)
    requires from <= |items|
    ensures PlacesFrom(items, nowMs, from, places)
    ensures |places| == |DesiredClients(items[from..], nowMs)|
    ensures forall k :: 0 <= k < |places| ==>
              (DesiredClients(items[from..], nowMs)[k].uuid, DesiredClients(items[from..], nowMs)[k].email) == Account(items[places[k]])
    decreases |items| - from
  {
    hide Authorises, Account;
    places := [];
    if from == |items| {
      NobodyDesired(items[from..], nowMs);
    } else {
      hide DesiredClients, PlacesFrom;
      var rest := InOrderFrom(items, nowMs, from + 1);
      PlacesKnown(items, nowMs, from + 1, rest);
      DesiredStep(items, nowMs, from);
      var head := if Authorises(items[from], nowMs) then [from] else [];
      places := head + rest;
      PlacesCons(items, nowMs, from, rest);
      AccountsCons(items, DesiredClients(items[from + 1..], nowMs), rest, from, Authorises(items[from], nowMs));
    }
  }

  /** Accounts and places stay side by side when both get one more in front. */
  lemma AccountsCons(items: seq<Item>, clients: seq<DesiredClient>, rest: seq<nat>, from: nat, one: bool)
    requires from < |items| && (one ==> items[from].Client? || items[from].Service?) && |clients| == |rest|
    requires forall k :: 0 <= k < |rest| ==> rest[k] < |items| && (items[rest[k]].Client? || items[rest[k]].Service?)
    requires forall k :: 0 <= k < |rest| ==> (clients[k].uuid, clients[k].email) == Account(items[rest[k]])
    ensures var places := (if one then [from] else []) + rest;
            var all := (if one then [DesiredClient(Account(items[from]).0, Account(items[from]).1)] else []) + clients;
            |places| == |all| && forall k :: 0 <= k < |places| ==>
              places[k] < |items| && (items[places[k]].Client? || items[places[k]].Service?)
              && (all[k].uuid, all[k].email) == Account(items[places[k]])
  {
  }

  lemma PlacesKnown(items: seq<Item>, nowMs: nat, from: nat, places: seq<nat>)
    requires PlacesFrom(items, nowMs, from, places)
    ensures forall k :: 0 <= k < |places| ==>
              places[k] < |items| && (items[places[k]].Client? || items[places[k]].Service?)
  {
  }

  lemma PlacesCons(items: seq<Item>, nowMs: nat, from: nat, rest: seq<nat>)
    requires from < |items| && PlacesFrom(items, nowMs, from + 1, rest)
    ensures PlacesFrom(items, nowMs, from, (if Authorises(items[from], nowMs) then [from] else []) + rest)
  {
    var head := if Authorises(items[from], nowMs) then [from] else [];
    forall j | from <= j < |items| && Authorises(items[j], nowMs) ensures j in head + rest {
      assert j == from ==> j in head;
      assert j > from ==> j in rest;
    }
  }

  lemma NobodyDesired(items: seq<Item>, nowMs: nat)
    requires items == []
    ensures DesiredClients(items, nowMs) == []
  {
  }

  lemma DesiredStep(items: seq<Item>, nowMs: nat, from: nat)
    requires from < |items|
    ensures Authorises(items[from], nowMs) ==> items[from].Client? || items[from].Service?
    ensures DesiredClients(items[from..], nowMs) ==
            (if Authorises(items[from], nowMs) then [DesiredClient(Account(items[from]).0, Account(items[from]).1)] else [])
            + DesiredClients(items[from + 1..], nowMs)
  {
    assert items[from..][1..] == items[from + 1..];
  }

  lemma DesiredInOrder(items: seq<Item>, nowMs: nat) returns (places: seq<nat>)
    ensures Places(items, nowMs, places) && |places| == |DesiredClients(items, nowMs)|
    ensures forall k :: 0 <= k < |places| ==>
              (DesiredClients(items, nowMs)[k].uuid, DesiredClients(items, nowMs)[k].email) == Account(items[places[k]])
  {
    places := InOrderFrom(items, nowMs, 0);
    assert items[0..] == items;
  }

  /** When a reconciliation is done, every VLESS inbound holds the authorised items of the snapshot, in
      its order, with the flow that inbound's transport calls for, and nothing else about any inbound
      has changed. */
  lemma ClientsOnDisk(n: Node) returns (places: seq<nat>)
    requires Inv(n) && n.pc.Done?
    ensures var p := n.pc.plan;
            && Places(p.snapshot.items, p.nowMs, places)
            && |n.disk.inbounds| == |p.base.disk.inbounds|
            && forall m :: 0 <= m < |n.disk.inbounds| ==>
                 var i, was := n.disk.inbounds[m], p.base.disk.inbounds[m];
                 && i == was.(clients := i.clients)
                 && (i.protocol != "vless" ==> i.clients == was.clients)
                 && (i.protocol == "vless" ==>
                       && |i.clients| == |places|
                       && forall k :: 0 <= k < |places| ==>
                            var (uuid, email) := Account(p.snapshot.items[places[k]]);
                            RightRecord(i.clients[k], i, uuid, email))
  {
    hide MakePlan, Apply, Emails, WellFormedDisk, RightRecord, Places, DesiredClients, BuildClientRecord, Losing;
    var p := n.pc.plan;
    var items := p.snapshot.items;
    PlanMade(p.base, p.snapshot, p.nowMs);
    PlanFacts(p);
    places := DesiredInOrder(items, p.nowMs);
    PlacesFit(items, p.nowMs, places);
    var inbounds := NewInbounds(p.base.disk.inbounds, p.Clients());
    assert n.disk.inbounds == inbounds;
    forall m | 0 <= m < |inbounds|
      ensures var i, was := inbounds[m], p.base.disk.inbounds[m];
              && i == was.(clients := i.clients)
              && (i.protocol != "vless" ==> i.clients == was.clients)
              && (i.protocol == "vless" ==>
                    && |i.clients| == |places|
                    && forall k :: 0 <= k < |places| ==>
                         var (uuid, email) := Account(items[places[k]]);
                         RightRecord(i.clients[k], i, uuid, email))
    {
      var i, was := inbounds[m], p.base.disk.inbounds[m];
      assert i == SetClients(was, p.Clients());
      if i.protocol == "vless" {
        forall k | 0 <= k < |places|
          ensures var (uuid, email) := Account(items[places[k]]); RightRecord(i.clients[k], i, uuid, email)
        {
          var c := p.Clients()[k];
          BuiltRight(c.uuid, c.email, was);
          SameTransport(i.clients[k], was, i, c.uuid, c.email);
        }
      }
    }
  }

  lemma PlacesFit(items: seq<Item>, nowMs: nat, places: seq<nat>)
    requires Places(items, nowMs, places)
    ensures forall k :: 0 <= k < |places| ==> places[k] < |items| && (items[places[k]].Client? || items[places[k]].Service?)
  {
  }

  // --- limits, sign-in, routes --------------------------------------------------------------------------

  /** A user's limit is what the last limit item for that user says. */
  ghost predicate LimitedTo(items: seq<Item>, user: nat, limit: nat) {
    exists j :: 0 <= j < |items| && items[j] == ConnLimit(user, limit)
      && forall m :: j < m < |items| ==> !(items[m].ConnLimit? && items[m].userId == user)
  }

  lemma {:induction false} OverridesExact(items: seq<Item>, user: nat, limit: nat)
    ensures user in DesiredOverrides(items) && DesiredOverrides(items)[user] == limit <==> LimitedTo(items, user, limit)
    ensures user !in DesiredOverrides(items) <==> forall x :: x in items ==> !(x.ConnLimit? && x.userId == user)
  {
    if items != [] {
      var tail := items[1..];
      OverridesExact(tail, user, limit);
      assert items == [items[0]] + tail;
      if LimitedTo(tail, user, limit) {
        var j :| 0 <= j < |tail| && tail[j] == ConnLimit(user, limit)
          && forall m :: j < m < |tail| ==> !(tail[m].ConnLimit? && tail[m].userId == user);
        assert items[j + 1] == ConnLimit(user, limit);
        forall m | j + 1 < m < |items| ensures !(items[m].ConnLimit? && items[m].userId == user) {
          assert items[m] == tail[m - 1];
        }
      }
      if LimitedTo(items, user, limit) {
        var j :| 0 <= j < |items| && items[j] == ConnLimit(user, limit)
          && forall m :: j < m < |items| ==> !(items[m].ConnLimit? && items[m].userId == user);
        if j > 0 {
          assert tail[j - 1] == ConnLimit(user, limit);
          forall m | j - 1 < m < |tail| ensures !(tail[m].ConnLimit? && tail[m].userId == user) {
            assert tail[m] == items[m + 1];
          }
        } else {
          forall x | x in tail ensures !(x.ConnLimit? && x.userId == user) {
            var m :| 0 <= m < |tail| && tail[m] == x;
            assert items[m + 1] == x;
          }
        }
      }
      if items[0] == ConnLimit(user, limit) && user !in DesiredOverrides(tail) {
        forall m | 0 < m < |items| ensures !(items[m].ConnLimit? && items[m].userId == user) {
          assert items[m] in tail;
        }
        assert LimitedTo(items, user, limit);
      }
    }
  }

  lemma {:induction false} MapExact(clients: seq<DesiredClient>, uuid: string, email: string)
    requires forall i, j :: 0 <= i < j < |clients| ==> clients[i].uuid != clients[j].uuid
    ensures uuid in ClientMap(clients) && ClientMap(clients)[uuid] == email <==> DesiredClient(uuid, email) in clients
    ensures uuid in ClientMap(clients) <==> exists c :: c in clients && c.uuid == uuid
  {
    if clients != [] {
      var n := |clients| - 1;
      MapExact(clients[..n], uuid, email);
      assert clients == clients[..n] + [clients[n]];
      assert forall c :: c in clients[..n] ==> c.uuid != clients[n].uuid;
    }
  }

  lemma DesiredFromItem(items: seq<Item>, nowMs: nat, uuid: string, email: string)
    ensures DesiredClient(uuid, email) in DesiredClients(items, nowMs) <==>
            exists x :: x in items && Authorises(x, nowMs) && Account(x) == (uuid, email)
  {
    var places := DesiredInOrder(items, nowMs);
    var clients := DesiredClients(items, nowMs);
    if DesiredClient(uuid, email) in clients {
      var k :| 0 <= k < |clients| && clients[k] == DesiredClient(uuid, email);
      assert items[places[k]] in items;
    }
    if x :| x in items && Authorises(x, nowMs) && Account(x) == (uuid, email) {
      var j :| 0 <= j < |items| && items[j] == x;
      var k :| 0 <= k < |places| && places[k] == j;
      assert clients[k] == DesiredClient(uuid, email);
    }
  }

  /** A UUID signs in to Hysteria2, under an email, exactly if an authorised item says so; and a user's
      connection limit is exactly the snapshot's, on disk and in memory. */
  lemma AccessOnNode(n: Node, uuid: string, email: string, user: nat, limit: nat)
    requires Inv(n) && n.pc.Done?
    ensures var p := n.pc.plan; var items := p.snapshot.items;
            && ((exists i :: i in n.disk.inbounds && i.protocol == "vless") ==>
                  (uuid in n.auth && n.auth[uuid] == email <==>
                   exists x :: x in items && Authorises(x, p.nowMs) && Account(x) == (uuid, email)))
            && (user in n.overrides && n.overrides[user] == limit <==> LimitedTo(items, user, limit))
            && n.savedOverrides == n.overrides && n.journal == {}
  {
    hide MakePlan, Emails, AuthOf, Apply, WellFormedDisk, LimitedTo, Authorises, DesiredOverrides, ClientMap, DesiredClients;
    var p := n.pc.plan;
    SuccessMeansExact(n);
    PlanMade(p.base, p.snapshot, p.nowMs);
    PlanFacts(p);
    OverridesExact(p.snapshot.items, user, limit);
    MapExact(p.Clients(), uuid, email);
    DesiredFromItem(p.snapshot.items, p.nowMs, uuid, email);
  }

  lemma {:induction false} RoutesMember(items: seq<Item>, r: CascadeRoute)
    ensures r in DesiredRoutes(items) <==> Item.Route(r) in items
  {
    if items != [] {
      RoutesMember(items[1..], r);
      assert items == [items[0]] + items[1..];
    }
  }

  /** Every route of the snapshot is in the config: each of its exits has an outbound that leads there,
      and no managed outbound leads anywhere else. */
  lemma RoutesOnDisk(n: Node)
    requires Inv(n) && n.pc.Done?
    requires exists x :: x in n.pc.plan.snapshot.items && x.Route?
    ensures n.disk.outbounds.Some?
    ensures forall r, e :: Item.Route(r) in n.pc.plan.snapshot.items && e in r.exits ==>
              exists o :: o in n.disk.outbounds.value && LeadsTo(o, r.routeId, e)
    ensures forall o :: o in n.disk.outbounds.value && "cascade-" <= o.tag ==>
              exists r, e :: Item.Route(r) in n.pc.plan.snapshot.items && e in r.exits && LeadsTo(o, r.routeId, e)
  {
    hide MakePlan, Emails, AuthOf, Applied, WellFormedDisk, DesiredOverrides, ClientMap, DesiredClients, LeadsTo, DesiredRecords;
    var p := n.pc.plan;
    var routes := DesiredRoutes(p.snapshot.items);
    var x :| x in p.snapshot.items && x.Route?;
    RoutesMember(p.snapshot.items, x.route);
    SuccessMeansExact(n);
    PlanValid(p);
    OutboundsExact(p.base.disk, routes);
    forall r ensures r in routes <==> Item.Route(r) in p.snapshot.items {
      RoutesMember(p.snapshot.items, r);
    }
  }

  lemma PlanValid(p: Plan)
    requires PlanOk(p)
    ensures Valid(DesiredRoutes(p.snapshot.items)) || DesiredRoutes(p.snapshot.items) == []
    ensures HaveExits(DesiredRoutes(p.snapshot.items))
  {
  }

  // --- the running Xray --------------------------------------------------------------------------------------

  /** If Xray ended in step: whoever it accepts under an inbound's tag is an authorised item's email,
      with that item's UUID and that inbound's flow. */
  lemma XrayAccepts(n: Node, tag: string, email: string) returns (i: Inbound, x: Item)
    requires Inv(n) && LiveInv(n) && n.pc.Done? && n.matched && (tag, email) in n.live
    ensures i in n.disk.inbounds && i.protocol == "vless" && i.tag == Some(tag)
    ensures x in n.pc.plan.snapshot.items && Authorises(x, n.pc.plan.nowMs)
    ensures Account(x) == (n.live[(tag, email)].uuid, email)
    ensures n.live[(tag, email)].flow.None? <==> Flowless(i)
    ensures n.live[(tag, email)].flow.Some? ==> n.live[(tag, email)].flow.value == "xtls-rprx-vision"
  {
    hide Load, Flowless, Authorises, Emails, AuthOf, MakePlan, WellFormedDisk, WellFormedItems, PlanOk, SameLetters, LiveReady;
    var places := ClientsOnDisk(n);
    var items, nowMs := n.pc.plan.snapshot.items, n.pc.plan.nowMs;
    PlacesFit(items, nowMs, places);
    var inbounds := n.disk.inbounds;
    var m, k := LoadedFrom(inbounds, tag, email);
    i, x := inbounds[m], items[places[k]];
    assert RightRecord(i.clients[k], i, Account(x).0, Account(x).1);
  }

  /** And it accepts every authorised item under every VLESS inbound's tag. */
  lemma XrayServes(n: Node, i: Inbound, x: Item)
    requires Inv(n) && LiveInv(n) && n.pc.Done? && n.matched && i in n.disk.inbounds && i.protocol == "vless"
    requires x in n.pc.plan.snapshot.items && Authorises(x, n.pc.plan.nowMs)
    ensures i.tag.Some? && (i.tag.value, Account(x).1) in n.live
  {
    hide Load, Flowless, Authorises, Emails, AuthOf, MakePlan, WellFormedDisk, WellFormedItems, PlanOk, SameLetters, LiveReady;
    var places := ClientsOnDisk(n);
    var items, nowMs := n.pc.plan.snapshot.items, n.pc.plan.nowMs;
    PlacesFit(items, nowMs, places);
    var inbounds := n.disk.inbounds;
    var m: nat :| m < |inbounds| && inbounds[m] == i;
    var j: nat :| j < |items| && items[j] == x;
    var k: nat :| k < |places| && places[k] == j;
    assert RightRecord(i.clients[k], i, Account(x).0, Account(x).1);
    LoadedAt(inbounds, m, k);
  }

  // --- at an acknowledgement -------------------------------------------------------------------------------------

  /** So when a success acknowledgement leaves, every VLESS inbound on disk holds the published
      snapshot's authorised items in order, each with the right flow. */
  lemma AckedFields(states: seq<System>, events: seq<Event>, k: nat) returns (places: seq<nat>)
    requires SystemRun(states, events) && k < |events| && events[k].SendAck?
    ensures states[k].task.Applying? && states[k].node.pc.Done?
    ensures var n := states[k].node; var items := states[k].task.snapshot.items;
            && FromHistory(states[k].history, states[k].task.snapshot)
            && Places(items, n.pc.plan.nowMs, places)
            && forall i :: i in n.disk.inbounds && i.protocol == "vless" ==>
                 && |i.clients| == |places|
                 && forall m :: 0 <= m < |places| ==>
                      var (uuid, email) := Account(items[places[m]]);
                      RightRecord(i.clients[m], i, uuid, email)
  {
    hide SystemRun, Inv, RightRecord, Places;
    var n := AckState(states, events, k);
    places := ClientsOnDisk(n);
    PlacesFit(n.pc.plan.snapshot.items, n.pc.plan.nowMs, places);
    forall i | i in n.disk.inbounds && i.protocol == "vless"
      ensures |i.clients| == |places|
      ensures forall m :: 0 <= m < |places| ==>
                var (uuid, email) := Account(n.pc.plan.snapshot.items[places[m]]);
                RightRecord(i.clients[m], i, uuid, email)
    {
      var m :| 0 <= m < |n.disk.inbounds| && n.disk.inbounds[m] == i;
    }
  }

  lemma AckState(states: seq<System>, events: seq<Event>, k: nat) returns (n: Node)
    requires SystemRun(states, events) && k < |events| && events[k].SendAck?
    ensures k < |states| && n == states[k].node && states[k].task.Applying? && n.pc.Done? && Inv(n)
    ensures n.pc.plan.snapshot == states[k].task.snapshot && FromHistory(states[k].history, states[k].task.snapshot)
  {
    hide HistoryBuilt, WireOk, Inv;
    SystemRunInv(states, events, k);
    assert Next(states[k], events[k]) == Some(states[k + 1]);
    n := states[k].node;
  }
}
