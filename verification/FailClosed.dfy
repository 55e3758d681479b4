/** How Xray routes a connection through the rewritten config: rules are tried in order and the
    first match wins; a balancer picks among the outbounds whose tag starts with a selector. */
module FailClosed {
  import opened Wrappers
  import opened Seqs
  import opened Decimal
  import opened Items
  import opened XrayConfig
  import opened Cascade

  /** A connection: the inbound it arrived on, and whatever else rules may look at. */
  datatype Conn = Conn(inbound: string, facts: string)

  predicate Matches(rule: Rule, conn: Conn, holds: (string, Conn) -> bool) {
    && (rule.inboundTag.Some? ==> conn.inbound in rule.inboundTag.value)
    && (rule.conditions == "" || holds(rule.conditions, conn))
  }

  function FirstMatch(rules: seq<Rule>, conn: Conn, holds: (string, Conn) -> bool): Option<Rule> {
    if rules == [] then None
    else if Matches(rules[0], conn, holds) then Some(rules[0])
    else FirstMatch(rules[1..], conn, holds)
  }

  function FindBalancer(balancers: seq<Balancer>, tag: string): Option<Balancer> {
    if balancers == [] then None
    else if balancers[0].tag == tag then Some(balancers[0])
    else FindBalancer(balancers[1..], tag)
  }

  predicate Selects(selector: seq<string>, tag: string) {
    exists s :: s in selector && s <= tag
  }

  function Pick(outbounds: seq<Outbound>, selector: seq<string>): seq<Outbound> {
    Filter((o: Outbound) => Selects(selector, o.tag), outbounds)
  }

  predicate DistinctIds(routes: seq<CascadeRoute>) {
    forall i, j :: 0 <= i < j < |routes| ==> routes[i].routeId != routes[j].routeId
  }

  // --- tags ---------------------------------------------------------------------------

  /** An exit tag is a prefix of another only inside one route; 1 never captures 11. */
  lemma ExitTagPrefix(r: nat, p: nat, r': nat, p': nat)
    requires ExitTag(r, p) <= ExitTag(r', p')
    ensures r == r'
  {
    hide Dec;
    ExitTagTail(r, p);
    ExitTagTail(r', p');
    DashedPrefix(r, "exit-" + Dec(p), r', "exit-" + Dec(p'));
  }

  lemma ExitTagTail(r: nat, p: nat)
    ensures TAG_PREFIX <= ExitTag(r, p)
    ensures ExitTag(r, p)[|TAG_PREFIX|..] == Dec(r) + "-" + ("exit-" + Dec(p))
  {
    hide Dec;
  }

  lemma BalancerTagInjective(r: nat, r': nat)
    requires BalancerTag(r) == BalancerTag(r')
    ensures r == r'
  {
    var n := |TAG_PREFIX|;
    assert BalancerTag(r)[n..] == Dec(r) + "-" + "balancer";
    assert BalancerTag(r')[n..] == Dec(r') + "-" + "balancer";
    DashedPrefix(r, "balancer", r', "balancer");
  }

  // --- selectors ----------------------------------------------------------------------

  function Selector(route: CascadeRoute): seq<string> {
    Tags(RouteOutbounds(route.routeId, route.exits))
  }

  lemma SelectorTags(route: CascadeRoute, s: string)
    requires s in Selector(route)
    ensures exists k :: 0 <= k < |route.exits| && s == ExitTag(route.routeId, route.exits[k].position)
  {
    RouteOutboundsShape(route.routeId, route.exits);
    TagsAt(RouteOutbounds(route.routeId, route.exits));
    var k :| 0 <= k < |Selector(route)| && Selector(route)[k] == s;
    assert s == ExitTag(route.routeId, route.exits[k].position);
  }

  lemma PickFromRoute(route: CascadeRoute, other: CascadeRoute)
    ensures Pick(RouteOutbounds(other.routeId, other.exits), Selector(route)) ==
            if other == route then RouteOutbounds(route.routeId, route.exits)
            else if other.routeId != route.routeId then []
            else Pick(RouteOutbounds(other.routeId, other.exits), Selector(route))
  {
    var outs := RouteOutbounds(other.routeId, other.exits);
    var keep := (o: Outbound) => Selects(Selector(route), o.tag);
    RouteOutboundsShape(other.routeId, other.exits);
    TagsAt(outs);
    if other == route {
      forall o | o in outs ensures keep(o) {
        var k :| 0 <= k < |outs| && outs[k] == o;
        var tag := Selector(route)[k];
        assert tag in Selector(route) && tag <= o.tag;
      }
      FilterAll(keep, outs);
    } else if other.routeId != route.routeId {
      forall o | o in outs ensures !keep(o) {
        var k :| 0 <= k < |outs| && outs[k] == o;
        if keep(o) {
          var s :| s in Selector(route) && s <= o.tag;
          SelectorTags(route, s);
          var j :| 0 <= j < |route.exits| && s == ExitTag(route.routeId, route.exits[j].position);
          ExitTagPrefix(route.routeId, route.exits[j].position, other.routeId, other.exits[k].position);
        }
      }
      FilterNone(keep, outs);
    }
  }

  lemma OneMoreRoute(routes: seq<CascadeRoute>, n: nat, selector: seq<string>)
    requires n < |routes|
    ensures Pick(OutboundsOf(routes[..n + 1]), selector) ==
            Pick(OutboundsOf(routes[..n]), selector) + Pick(RouteOutbounds(routes[n].routeId, routes[n].exits), selector)
  {
    assert routes[..n + 1][..n] == routes[..n];
    FilterConcat((o: Outbound) => Selects(selector, o.tag), OutboundsOf(routes[..n]),
                 RouteOutbounds(routes[n].routeId, routes[n].exits));
  }

  lemma {:induction false} PickFromRoutes(routes: seq<CascadeRoute>, route: CascadeRoute)
    requires DistinctIds(routes)
    requires forall r :: r in routes && r.routeId == route.routeId ==> r == route
    ensures Pick(OutboundsOf(routes), Selector(route)) ==
            if route in routes then RouteOutbounds(route.routeId, route.exits) else []
  {
    if routes == [] {
      PicksNothing(Selector(route));
    } else {
      hide Pick, OutboundsOf, Selector, RouteOutbounds;
      var n := |routes| - 1;
      var last := routes[n];
      assert routes == routes[..n] + [last] && routes[..n + 1] == routes;
      PickFromRoutes(routes[..n], route);
      PickFromRoute(route, last);
      OneMoreRoute(routes, n, Selector(route));
    }
  }

  lemma PicksNothing(selector: seq<string>)
    ensures Pick(OutboundsOf([]), selector) == []
  {
  }

  lemma SelectsManaged(route: CascadeRoute, tag: string)
    requires Selects(Selector(route), tag)
    ensures Managed(tag)
  {
    var s :| s in Selector(route) && s <= tag;
    SelectorTags(route, s);
    var j :| 0 <= j < |route.exits| && s == ExitTag(route.routeId, route.exits[j].position);
    ExitTagManaged(route.routeId, route.exits[j].position);
    assert TAG_PREFIX <= s <= tag;
  }

  lemma PickSkipsUnmanaged(outbounds: seq<Outbound>, route: CascadeRoute)
    requires forall o :: o in outbounds ==> !Managed(o.tag)
    ensures Pick(outbounds, Selector(route)) == []
  {
    var keep := (o: Outbound) => Selects(Selector(route), o.tag);
    forall o | o in outbounds ensures !keep(o) {
      if keep(o) {
        SelectsManaged(route, o.tag);
      }
    }
    FilterNone(keep, outbounds);
  }

  // --- rules ---------------------------------------------------------------------------

  /** Valid routes claim disjoint inbounds, so one rule at most answers for an inbound tag. */
  lemma {:induction false} FirstManagedMatch(
    routes: seq<CascadeRoute>, k: nat, tail: seq<Rule>, conn: Conn, holds: (string, Conn) -> bool)
    requires k < |routes| && conn.inbound in routes[k].inboundTags
    requires forall i :: 0 <= i < k ==> conn.inbound !in routes[i].inboundTags
    ensures FirstMatch(RulesOf(routes) + tail, conn, holds) == Some(RuleOf(routes[k]))
  {
    var rules := RulesOf(routes) + tail;
    assert rules[0] == RuleOf(routes[0]);
    if k > 0 {
      assert rules[1..] == RulesOf(routes[1..]) + tail;
      FirstManagedMatch(routes[1..], k - 1, tail, conn, holds);
    }
  }

  lemma {:induction false} NoManagedMatch(
    routes: seq<CascadeRoute>, tail: seq<Rule>, conn: Conn, holds: (string, Conn) -> bool)
    requires forall k :: 0 <= k < |routes| ==> conn.inbound !in routes[k].inboundTags
    ensures FirstMatch(RulesOf(routes) + tail, conn, holds) == FirstMatch(tail, conn, holds)
  {
    if routes == [] {
      assert RulesOf(routes) + tail == tail;
    } else {
      assert (RulesOf(routes) + tail)[1..] == RulesOf(routes[1..]) + tail;
      assert conn.inbound !in routes[0].inboundTags;
      NoManagedMatch(routes[1..], tail, conn, holds);
    }
  }

  lemma {:induction false} BalancerFound(routes: seq<CascadeRoute>, k: nat)
    requires k < |routes| && DistinctIds(routes)
    ensures FindBalancer(BalancersOf(routes), BalancerTag(routes[k].routeId)) == Some(BalancerOf(routes[k]))
  {
    var balancers := BalancersOf(routes);
    assert balancers[0] == BalancerOf(routes[0]);
    if k > 0 {
      if balancers[0].tag == BalancerTag(routes[k].routeId) {
        BalancerTagInjective(routes[0].routeId, routes[k].routeId);
      }
      assert balancers[1..] == BalancersOf(routes[1..]);
      BalancerFound(routes[1..], k - 1);
    }
  }

  lemma SortedDistinct(routes: seq<CascadeRoute>)
    requires DistinctIds(routes)
    ensures DistinctIds(SortBy(RouteKey, routes))
  {
    var sorted := SortBy(RouteKey, routes);
    SortByIsSort(RouteKey, routes);
    SortByDistinct(RouteKey, routes);
    assert forall k :: 0 <= k < |sorted| ==> sorted[k] in routes;
  }

  lemma PickFromApplied(base: seq<Outbound>, sorted: seq<CascadeRoute>, route: CascadeRoute)
    requires forall o :: o in base ==> !Managed(o.tag)
    requires DistinctIds(sorted) && route in sorted
    ensures Pick(base + OutboundsOf(sorted), Selector(route)) == RouteOutbounds(route.routeId, route.exits)
  {
    PickSkipsUnmanaged(base, route);
    PickFromRoutes(sorted, route);
    FilterConcat((o: Outbound) => Selects(Selector(route), o.tag), base, OutboundsOf(sorted));
  }

  lemma {:induction false} ClaimedOnce(sorted: seq<CascadeRoute>, from: nat, claimed: set<string>, k: nat, inbound: string)
    requires from <= k < |sorted| && Scan(sorted, from, claimed).1.None?
    requires inbound in sorted[k].inboundTags
    ensures inbound !in claimed && forall i :: from <= i < k ==> inbound !in sorted[i].inboundTags
    decreases k - from
  {
    assert inbound in TagSet(sorted[k]);
    assert TagSet(sorted[from]) * claimed == {};
    assert inbound in TagSet(sorted[k]) * claimed <==> inbound in claimed;
    if from < k {
      ClaimedOnce(sorted, from + 1, claimed + TagSet(sorted[from]), k, inbound);
    }
  }

  // --- where the outbounds lead ----------------------------------------------------------------------

  /** The outbound dials this exit, with its account, as its camouflage. */
  predicate LeadsTo(o: Outbound, routeId: nat, e: CascadeExit) {
    && o.tag == "cascade-" + Dec(routeId) + "-exit-" + Dec(e.position)
    && o.body.VlessXhttpReality?
    && o.body.address == e.host && o.body.port == e.port && o.body.user == e.uuid
    && o.body.publicKey == e.publicKey && o.body.shortId == e.shortId
    && o.body.serverName == e.serverName && o.body.path == e.xhttpPath
  }

  lemma {:induction false} OutboundsLead(routeId: nat, exits: seq<CascadeExit>)
    ensures forall k :: 0 <= k < |exits| ==> LeadsTo(RouteOutbounds(routeId, exits)[k], routeId, exits[k])
  {
    if exits != [] {
      OutboundsLead(routeId, exits[1..]);
    }
  }

  /** A rule that hands exactly these inbounds to a balancer, without further conditions. */
  predicate HandsOver(rule: Rule, r: CascadeRoute) {
    && rule.inboundTag == Some(r.inboundTags) && rule.conditions == "" && rule.outboundTag == ""
    && rule.balancerTag == "cascade-" + Dec(r.routeId) + "-balancer"
  }

  predicate Balances(b: Balancer, r: CascadeRoute) {
    && b.tag == "cascade-" + Dec(r.routeId) + "-balancer" && b.strategy == "leastPing" && b.rest == ""
    && |b.selector| == |r.exits|
    && forall k :: 0 <= k < |r.exits| ==> b.selector[k] == "cascade-" + Dec(r.routeId) + "-exit-" + Dec(r.exits[k].position)
  }

  lemma RouteHandsOver(r: CascadeRoute)
    ensures HandsOver(RuleOf(r), r) && Balances(BalancerOf(r), r)
  {
    RouteOutboundsShape(r.routeId, r.exits);
    TagsAt(RouteOutbounds(r.routeId, r.exits));
  }

  /** The connection meets the route's own balancer first, and that balancer can only ever choose
      outbounds that lead to the route's own exits: without a live exit it goes nowhere. */
  ghost predicate Closed(a: Config, route: CascadeRoute, conn: Conn, holds: (string, Conn) -> bool) {
    && a.routing.Some? && a.routing.value.rules.Some? && a.routing.value.balancers.Some?
    && a.outbounds.Some?
    && var rule := FirstMatch(a.routing.value.rules.value, conn, holds);
    && rule.Some? && HandsOver(rule.value, route)
    && var balancer := FindBalancer(a.routing.value.balancers.value, rule.value.balancerTag);
    && balancer.Some? && Balances(balancer.value, route)
    && var picked := Pick(a.outbounds.value, balancer.value.selector);
    && |picked| == |route.exits|
    && forall k :: 0 <= k < |picked| ==> LeadsTo(picked[k], route.routeId, route.exits[k])
  }

  /** Routes with ids of their own: every connection on a claimed inbound is closed in. */
  lemma FailsClosed(c: Config, routes: seq<CascadeRoute>, route: CascadeRoute, conn: Conn,
                    holds: (string, Conn) -> bool)
    requires Valid(routes) && HaveExits(routes) && DistinctIds(routes)
    requires route in routes && conn.inbound in route.inboundTags
    ensures Closed(Applied(c, routes), route, conn, holds)
  {
    var sorted := SortBy(RouteKey, routes);
    SortByIsSort(RouteKey, routes);
    AppliedSections(c, routes);
    SortedDistinct(routes);
    var k :| 0 <= k < |sorted| && sorted[k] == route;
    ClaimedOnce(sorted, 0, {}, k, conn.inbound);
    FirstManagedMatch(sorted, k, BaseRouting(c).rules.GetOr([]), conn, holds);
    BalancerFound(sorted, k);
    UnmanagedIfStripped(c);
    PickFromApplied(BaseOutbounds(c), sorted, route);
    RouteHandsOver(route);
    OutboundsLead(route.routeId, route.exits);
  }

  // --- ids shared by two routes --------------------------------------------------------------

  lemma SortedShares(routes: seq<CascadeRoute>) returns (a: nat, b: nat)
    requires !DistinctIds(routes)
    ensures var sorted := SortBy(RouteKey, routes);
            a < b < |sorted| && sorted[a].routeId == sorted[b].routeId
  {
    var sorted := SortBy(RouteKey, routes);
    SortByIsSort(RouteKey, routes);
    DistinctCounts(routes);
    DistinctCounts(sorted);
    var i, j :| 0 <= i < j < |routes| && routes[i].routeId == routes[j].routeId;
    if routes[i] == routes[j] {
      assert !Distinct(sorted);
      a, b :| 0 <= a < b < |sorted| && sorted[a] == sorted[b];
    } else {
      assert routes[i] in sorted && routes[j] in sorted;
      var m: nat :| m < |sorted| && sorted[m] == routes[i];
      var n: nat :| n < |sorted| && sorted[n] == routes[j];
      a, b := if m < n then m else n, if m < n then n else m;
    }
  }

  lemma PicksOwn(route: CascadeRoute)
    ensures Pick(RouteOutbounds(route.routeId, route.exits), Selector(route)) == RouteOutbounds(route.routeId, route.exits)
  {
    PickFromRoute(route, route);
  }

  /** Two routes with the same selectors: each picks at least the outbounds of both. */
  lemma {:induction false} PicksBoth(routes: seq<CascadeRoute>, a: nat, b: nat, n: nat)
    requires a < b < |routes| && Selector(routes[a]) == Selector(routes[b]) && n <= |routes|
    ensures |Pick(OutboundsOf(routes[..n]), Selector(routes[b]))| >=
            (if a < n then |routes[a].exits| else 0) + (if b < n then |routes[b].exits| else 0)
  {
    hide Pick, OutboundsOf, Selector;
    if n > 0 {
      PicksBoth(routes, a, b, n - 1);
      OneMoreRoute(routes, n - 1, Selector(routes[b]));
      PicksOwn(routes[n - 1]);
    }
  }

  lemma PickLength(base: seq<Outbound>, managed: seq<Outbound>, selector: seq<string>)
    ensures |Pick(base + managed, selector)| >= |Pick(managed, selector)|
  {
    FilterConcat((o: Outbound) => Selects(selector, o.tag), base, managed);
  }

  lemma SameSelector(balancer: Balancer, r: CascadeRoute, t: CascadeRoute)
    requires Balances(balancer, r) && Balances(balancer, t)
    ensures Selector(r) == Selector(t) == balancer.selector
  {
    RouteHandsOver(r);
    RouteHandsOver(t);
    assert Selector(r) == balancer.selector;
    assert Selector(t) == balancer.selector;
  }

  /** Two routes that share an id cannot both be closed in. */
  lemma SharedNotClosed(c: Config, routes: seq<CascadeRoute>, a: nat, b: nat, x: Conn, y: Conn,
                        holds: (string, Conn) -> bool)
    requires Valid(routes) && HaveExits(routes) && a < b < |SortBy(RouteKey, routes)|
    requires var sorted := SortBy(RouteKey, routes);
             sorted[a].routeId == sorted[b].routeId && sorted[a] in routes && sorted[b] in routes
    ensures var sorted := SortBy(RouteKey, routes);
            !Closed(Applied(c, routes), sorted[a], x, holds) || !Closed(Applied(c, routes), sorted[b], y, holds)
  {
    hide Applied, SortBy, Scan, Pick, FirstMatch, OutboundsOf, RulesOf, BalancersOf, Strip;
    var sorted := SortBy(RouteKey, routes);
    var done := Applied(c, routes);
    if Closed(done, sorted[a], x, holds) && Closed(done, sorted[b], y, holds) {
      SameSelector(FindBalancer(done.routing.value.balancers.value, BalancerTag(sorted[a].routeId)).value, sorted[a], sorted[b]);
      AppliedSections(c, routes);
      PicksBoth(sorted, a, b, |sorted|);
      assert sorted[..|sorted|] == sorted;
      PickLength(BaseOutbounds(c), OutboundsOf(sorted), Selector(sorted[b]));
    }
  }

  /** Every route and every connection on its inbounds is closed in exactly when no two routes share
      an id, which the rewrite itself does not check. */
  lemma FailsClosedExactly(c: Config, routes: seq<CascadeRoute>)
    requires Valid(routes) && HaveExits(routes) && forall r :: r in routes ==> r.inboundTags != []
    ensures (forall route: CascadeRoute, conn: Conn, holds: (string, Conn) -> bool :: route in routes && conn.inbound in route.inboundTags ==>
               Closed(Applied(c, routes), route, conn, holds))
            <==> DistinctIds(routes)
  {
    hide Closed, Applied, Valid;
    if DistinctIds(routes) {
      forall route: CascadeRoute, conn: Conn, holds: (string, Conn) -> bool | route in routes && conn.inbound in route.inboundTags
        ensures Closed(Applied(c, routes), route, conn, holds)
      {
        FailsClosed(c, routes, route, conn, holds);
      }
    } else {
      var a, b := SortedShares(routes);
      var sorted := SortBy(RouteKey, routes);
      SortByIsSort(RouteKey, routes);
      var r, t := sorted[a], sorted[b];
      assert r in sorted && t in sorted;
      var x, y := Conn(r.inboundTags[0], ""), Conn(t.inboundTags[0], "");
      var holds := (s: string, conn: Conn) => true;
      SharedNotClosed(c, routes, a, b, x, y, holds);
    }
  }

  /** Inbounds no route claims keep the routing they had. */
  lemma UnclaimedUntouched(c: Config, routes: seq<CascadeRoute>, conn: Conn, holds: (string, Conn) -> bool)
    requires Valid(routes) && HaveExits(routes) && routes != []
    requires forall r :: r in routes ==> conn.inbound !in r.inboundTags
    ensures var a := Applied(c, routes);
            && a.routing.Some? && a.routing.value.rules.Some?
            && FirstMatch(a.routing.value.rules.value, conn, holds) ==
               FirstMatch(BaseRouting(c).rules.GetOr([]), conn, holds)
  {
    hide Applied, Strip, SortBy, OutboundsOf, ObservatoryOf, FirstMatch;
    var sorted := SortBy(RouteKey, routes);
    SortByIsSort(RouteKey, routes);
    AppliedSections(c, routes);
    assert forall k :: 0 <= k < |sorted| ==> sorted[k] in routes;
    NoManagedMatch(sorted, BaseRouting(c).rules.GetOr([]), conn, holds);
  }
}
