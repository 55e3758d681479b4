/** What the cascade rewrite puts into the config, field by field: where each outbound leads, which
    traffic each rule takes, and which route lists are refused. */
module CascadeFields {
  import opened Wrappers
  import opened Seqs
  import opened Decimal
  import opened Items
  import opened XrayConfig
  import opened Cascade
  import opened FailClosed

  // --- outbounds --------------------------------------------------------------------------------------

  /** Some route has an exit this outbound leads to. */
  ghost predicate LeadsSomewhere(o: Outbound, routes: seq<CascadeRoute>) {
    exists r, e :: r in routes && e in r.exits && LeadsTo(o, r.routeId, e)
  }

  ghost predicate IsReached(outs: seq<Outbound>, r: CascadeRoute, e: CascadeExit) {
    exists o :: o in outs && LeadsTo(o, r.routeId, e)
  }

  lemma {:induction false} EachReached(routes: seq<CascadeRoute>, r: CascadeRoute, e: CascadeExit)
    requires r in routes && e in r.exits
    ensures IsReached(OutboundsOf(routes), r, e)
  {
    hide LeadsTo;
    var n := |routes| - 1;
    var last := routes[n];
    var outs := RouteOutbounds(last.routeId, last.exits);
    assert routes == routes[..n] + [last];
    if r == last {
      OutboundsLead(last.routeId, last.exits);
      var k :| 0 <= k < |last.exits| && last.exits[k] == e;
      assert outs[k] in OutboundsOf(routes);
    } else {
      EachReached(routes[..n], r, e);
      var o :| o in OutboundsOf(routes[..n]) && LeadsTo(o, r.routeId, e);
      assert o in OutboundsOf(routes);
    }
  }

  lemma {:induction false} EachLeads(routes: seq<CascadeRoute>, o: Outbound)
    requires o in OutboundsOf(routes)
    ensures LeadsSomewhere(o, routes)
  {
    hide LeadsTo;
    var n := |routes| - 1;
    var last := routes[n];
    var outs := RouteOutbounds(last.routeId, last.exits);
    assert routes == routes[..n] + [last];
    if o in outs {
      OutboundsLead(last.routeId, last.exits);
      var k :| 0 <= k < |outs| && outs[k] == o;
      assert last.exits[k] in last.exits;
    } else {
      EachLeads(routes[..n], o);
      var r, e :| r in routes[..n] && e in r.exits && LeadsTo(o, r.routeId, e);
      assert r in routes;
    }
  }

  lemma OutboundsOfLead(routes: seq<CascadeRoute>)
    ensures forall r, e :: r in routes && e in r.exits ==> exists o :: o in OutboundsOf(routes) && LeadsTo(o, r.routeId, e)
    ensures forall o :: o in OutboundsOf(routes) ==> exists r, e :: r in routes && e in r.exits && LeadsTo(o, r.routeId, e)
  {
    hide LeadsTo, OutboundsOf;
    forall r, e | r in routes && e in r.exits ensures exists o :: o in OutboundsOf(routes) && LeadsTo(o, r.routeId, e) {
      EachReached(routes, r, e);
    }
    forall o | o in OutboundsOf(routes) ensures exists r, e :: r in routes && e in r.exits && LeadsTo(o, r.routeId, e) {
      EachLeads(routes, o);
    }
  }

  /** Every exit of every route gets an outbound that leads to it, every managed outbound is one of
      these, and the others are the config's own, in order and before them. */
  lemma OutboundsExact(c: Config, routes: seq<CascadeRoute>)
    requires Valid(routes) && routes != [] && HaveExits(routes)
    ensures Applied(c, routes).outbounds.Some?
    ensures var outs := Applied(c, routes).outbounds.value;
            && (forall r, e :: r in routes && e in r.exits ==> exists o :: o in outs && LeadsTo(o, r.routeId, e))
            && (forall o :: o in outs && "cascade-" <= o.tag ==>
                  exists r, e :: r in routes && e in r.exits && LeadsTo(o, r.routeId, e))
            && (forall o :: o in outs && !("cascade-" <= o.tag) <==>
                  c.outbounds.Some? && o in c.outbounds.value && !("cascade-" <= o.tag))
  {
    hide LeadsTo, OutboundsOf, Scan, SortBy, Applied, HaveExits, ObservatoryOf, BalancersOf, RulesOf, BaseOutbounds, BaseRouting;
    var sorted := SortBy(RouteKey, routes);
    SortByIsSort(RouteKey, routes);
    AppliedSections(c, routes);
    OutboundsOfLead(sorted);
    OutboundsManaged(sorted);
    var outs := Applied(c, routes).outbounds.value;
    assert outs == BaseOutbounds(c) + OutboundsOf(sorted);
    forall o ensures o in BaseOutbounds(c) <==> c.outbounds.Some? && o in c.outbounds.value && !("cascade-" <= o.tag) {
      KeptOutbound(c, o);
    }
    SplitMembers(BaseOutbounds(c), OutboundsOf(sorted));
    ManagedText();
  }

  lemma ManagedText()
    ensures forall tag :: Managed(tag) <==> "cascade-" <= tag
  {
  }

  lemma SplitMembers(a: seq<Outbound>, b: seq<Outbound>)
    ensures forall o :: o in a + b <==> o in a || o in b
  {
  }

  lemma KeptOutbound(c: Config, o: Outbound)
    ensures o in BaseOutbounds(c) <==> c.outbounds.Some? && o in c.outbounds.value && !("cascade-" <= o.tag)
  {
    if c.outbounds.Some? {
      FilterMember(KeepOutbound, c.outbounds.value, o);
    }
  }

  // --- rules, balancers, observatory ------------------------------------------------------------------

  /** The routes in ascending order of their ids. */
  ghost predicate InOrder(sorted: seq<CascadeRoute>, routes: seq<CascadeRoute>) {
    && multiset(sorted) == multiset(routes)
    && forall i, j :: 0 <= i < j < |sorted| ==> sorted[i].routeId <= sorted[j].routeId
  }

  /** First the routes' rules, by ascending id, then the unmanaged rules the config had; one balancer
      for each route and no other; and an observatory that probes every exit. */
  lemma RoutingExact(c: Config, routes: seq<CascadeRoute>) returns (sorted: seq<CascadeRoute>)
    requires Valid(routes) && routes != [] && HaveExits(routes)
    ensures InOrder(sorted, routes)
    ensures var a := Applied(c, routes);
            && a.routing.Some? && a.routing.value.rules.Some? && a.routing.value.balancers.Some? && a.observatory.Some?
    ensures var rules := Applied(c, routes).routing.value.rules.value;
            && |sorted| <= |rules|
            && (forall k :: 0 <= k < |sorted| ==> HandsOver(rules[k], sorted[k]))
            && (forall k :: |sorted| <= k < |rules| ==> !("cascade-" <= rules[k].balancerTag))
    ensures var balancers := Applied(c, routes).routing.value.balancers.value;
            |balancers| == |sorted| && forall k :: 0 <= k < |sorted| ==> Balances(balancers[k], sorted[k])
    ensures var o := Applied(c, routes).observatory.value;
            && o.CascadeObservatory?
            && o.probeUrl == (if routes[0].health.probeUrl == "" then "https://www.gstatic.com/generate_204" else routes[0].health.probeUrl)
            && o.probeInterval == (if routes[0].health.probeInterval == "" then "10s" else routes[0].health.probeInterval)
            && forall tag :: tag in o.subjectSelector <==>
                 exists r, e :: r in routes && e in r.exits && tag == "cascade-" + Dec(r.routeId) + "-exit-" + Dec(e.position)
  {
    hide OutboundsOf, Scan, SortBy, Applied, HandsOver, Balances, LeadsTo;
    sorted := SortBy(RouteKey, routes);
    SortByIsSort(RouteKey, routes);
    forall i, j | 0 <= i < j < |sorted| ensures sorted[i].routeId <= sorted[j].routeId {
      SortedPair(RouteKey, sorted, i, j);
    }
    AppliedSections(c, routes);
    UnmanagedIfStripped(c);
    var rules, base := Applied(c, routes).routing.value.rules.value, BaseRouting(c).rules.GetOr([]);
    forall k | 0 <= k < |sorted| ensures HandsOver(rules[k], sorted[k]) && Balances(BalancersOf(sorted)[k], sorted[k]) {
      RouteHandsOver(sorted[k]);
    }
    forall k | |sorted| <= k < |rules| ensures !("cascade-" <= rules[k].balancerTag) {
      assert rules[k] == base[k - |sorted|] && rules[k] in base;
    }
    forall tag ensures tag in Tags(OutboundsOf(sorted)) <==>
                       exists r, e :: r in routes && e in r.exits && tag == "cascade-" + Dec(r.routeId) + "-exit-" + Dec(e.position) {
      SubjectsExact(sorted, tag);
    }
  }

  lemma SubjectsExact(routes: seq<CascadeRoute>, tag: string)
    ensures tag in Tags(OutboundsOf(routes)) <==>
            exists r, e :: r in routes && e in r.exits && tag == "cascade-" + Dec(r.routeId) + "-exit-" + Dec(e.position)
  {
    hide OutboundsOf, Tags, Dec;
    var outs := OutboundsOf(routes);
    OutboundsOfLead(routes);
    TagsAt(outs);
    if tag in Tags(outs) {
      var k :| 0 <= k < |outs| && Tags(outs)[k] == tag;
      assert outs[k] in outs;
    }
    if r, e :| r in routes && e in r.exits && tag == "cascade-" + Dec(r.routeId) + "-exit-" + Dec(e.position) {
      var o :| o in outs && LeadsTo(o, r.routeId, e);
      var k :| 0 <= k < |outs| && outs[k] == o;
      assert Tags(outs)[k] == tag;
    }
  }

  // --- which lists are refused ---------------------------------------------------------------------------

  predicate Overlaps(a: CascadeRoute, b: CascadeRoute) {
    exists tag :: tag in a.inboundTags && tag in b.inboundTags
  }

  predicate Sound(r: CascadeRoute) {
    && (r.health.strategy == "" || r.health.strategy == "leastPing")
    && forall e :: e in r.exits ==> e.xhttpPath != "" && e.xhttpPath[0] == '/'
  }

  /** Nothing is wrong with the routes from `k` on, given the tags claimed before. */
  ghost predicate CleanFrom(routes: seq<CascadeRoute>, k: nat, claimed: set<string>) {
    && (forall i :: k <= i < |routes| ==> Sound(routes[i]) && forall tag :: tag in routes[i].inboundTags ==> tag !in claimed)
    && (forall i, j :: k <= i < j < |routes| ==> !Overlaps(routes[i], routes[j]))
  }

  lemma ProblemExact(r: CascadeRoute, claimed: set<string>)
    ensures RouteProblem(r, claimed) ==
            if exists tag :: tag in r.inboundTags && tag in claimed then Some(InboundClaimedTwice)
            else if r.health.strategy != "" && r.health.strategy != "leastPing" then Some(UnsupportedStrategy)
            else if exists e :: e in r.exits && (e.xhttpPath == "" || e.xhttpPath[0] != '/') then Some(BadXhttpPath)
            else None
  {
    assert forall e :: e in r.exits ==> ("/" <= e.xhttpPath <==> e.xhttpPath != "" && e.xhttpPath[0] == '/');
    assert TagSet(r) * claimed != {} <==> exists tag :: tag in r.inboundTags && tag in claimed by {
      if tag :| tag in r.inboundTags && tag in claimed {
        assert tag in TagSet(r) * claimed;
      }
      if tag :| tag in TagSet(r) * claimed {
        assert tag in r.inboundTags;
      }
    }
  }

  lemma {:induction false} ScanExact(routes: seq<CascadeRoute>, k: nat, claimed: set<string>)
    requires k <= |routes|
    ensures Scan(routes, k, claimed).1.None? <==> CleanFrom(routes, k, claimed)
    decreases |routes| - k
  {
    if k < |routes| {
      var r := routes[k];
      ProblemExact(r, claimed);
      hide RouteProblem;
      var after := claimed + TagSet(r);
      ScanExact(routes, k + 1, after);
      if RouteProblem(r, claimed).None? {
        if CleanFrom(routes, k + 1, after) {
          forall j | k < j < |routes| ensures !Overlaps(r, routes[j]) {
          }
          assert CleanFrom(routes, k, claimed);
        }
        if CleanFrom(routes, k, claimed) {
          forall i, tag | k < i < |routes| && tag in routes[i].inboundTags ensures tag !in after {
            assert !Overlaps(r, routes[i]);
          }
          assert CleanFrom(routes, k + 1, after);
        }
      }
    }
  }

  /** A route list is accepted exactly if no two of its routes claim one inbound, each asks for the
      one supported strategy or for none, and every path starts with a slash. */
  lemma ValidExactly(routes: seq<CascadeRoute>)
    ensures Valid(routes) <==>
            && (forall r :: r in routes ==>
                  && (r.health.strategy == "" || r.health.strategy == "leastPing")
                  && forall e :: e in r.exits ==> e.xhttpPath != "" && e.xhttpPath[0] == '/')
            && (forall i, j :: 0 <= i < j < |routes| ==> !Overlaps(routes[i], routes[j]))
  {
    hide Overlaps, Scan;
    var sorted := SortBy(RouteKey, routes);
    SortByIsSort(RouteKey, routes);
    ScanExact(sorted, 0, {});
    PairsPermuted(sorted, routes);
    PairsPermuted(routes, sorted);
    assert CleanFrom(sorted, 0, {}) <==> Disjoint(sorted) && forall i :: 0 <= i < |sorted| ==> Sound(sorted[i]);
    assert forall i :: 0 <= i < |sorted| ==> sorted[i] in routes;
    assert forall r :: r in routes ==> r in sorted;
  }

  lemma OverlapsSymmetric()
    ensures forall a, b :: Overlaps(a, b) <==> Overlaps(b, a)
  {
  }

  ghost predicate Disjoint(routes: seq<CascadeRoute>) {
    forall i, j :: 0 <= i < j < |routes| ==> !Overlaps(routes[i], routes[j])
  }

  lemma {:induction false} Occurs(s: seq<CascadeRoute>, x: CascadeRoute) returns (k: nat)
    requires multiset(s)[x] >= 1
    ensures k < |s| && s[k] == x
  {
    assert x in multiset(s);
    k :| 0 <= k < |s| && s[k] == x;
  }

  /** Two places of a permuted list are two places of the list. */
  lemma TwoPlaces(a: seq<CascadeRoute>, b: seq<CascadeRoute>, i: nat, j: nat) returns (m: nat, n: nat)
    requires multiset(a) == multiset(b) && i < j < |b|
    ensures m < |a| && n < |a| && m != n && a[m] == b[i] && a[n] == b[j]
  {
    assert b == b[..j] + [b[j]] + b[j + 1..];
    assert b[i] in b[..j];
    assert multiset(b) == multiset(b[..j]) + multiset{b[j]} + multiset(b[j + 1..]);
    n := Occurs(a, b[j]);
    var rest := a[..n] + a[n + 1..];
    assert a == a[..n] + [a[n]] + a[n + 1..];
    assert multiset(rest) == multiset(a) - multiset{b[j]};
    m := Occurs(rest, b[i]);
    if m >= n {
      m := m + 1;
    }
  }

  lemma PairsPermuted(a: seq<CascadeRoute>, b: seq<CascadeRoute>)
    requires multiset(a) == multiset(b)
    ensures Disjoint(a) ==> Disjoint(b)
  {
    hide Overlaps;
    OverlapsSymmetric();
    if Disjoint(a) {
      forall i, j | 0 <= i < j < |b| ensures !Overlaps(b[i], b[j]) {
        var m, n := TwoPlaces(a, b, i, j);
      }
    }
  }

  lemma {:induction false} ScanStops(routes: seq<CascadeRoute>, k: nat, claimed: set<string>)
    requires k <= |routes| && Scan(routes, k, claimed).1.Some?
    ensures var n := Scan(routes, k, claimed).0;
            && n < |routes| && (forall i :: k <= i < n ==> Sound(routes[i]))
            && Scan(routes, k, claimed).1 ==
               if exists tag :: tag in routes[n].inboundTags &&
                    (tag in claimed || exists i :: k <= i < n && tag in routes[i].inboundTags)
               then Some(InboundClaimedTwice)
               else if routes[n].health.strategy != "" && routes[n].health.strategy != "leastPing" then Some(UnsupportedStrategy)
               else Some(BadXhttpPath)
    decreases |routes| - k
  {
    var r := routes[k];
    ProblemExact(r, claimed);
    hide RouteProblem;
    if RouteProblem(r, claimed).None? {
      var after := claimed + TagSet(r);
      ScanStops(routes, k + 1, after);
      var n := Scan(routes, k, claimed).0;
      forall tag ensures tag in after || (exists i :: k < i < n && tag in routes[i].inboundTags)
                         <==> tag in claimed || exists i :: k <= i < n && tag in routes[i].inboundTags
      {
        assert tag in after <==> tag in claimed || tag in routes[k].inboundTags;
      }
    }
  }

  /** A refused list is refused for its first faulty route by ascending id: first for an inbound that
      an earlier route claims, then for its strategy, then for a path. */
  lemma RefusedFor(c: Config, routes: seq<CascadeRoute>) returns (sorted: seq<CascadeRoute>, n: nat)
    requires !Valid(routes)
    ensures InOrder(sorted, routes) && n < |sorted|
    ensures forall i :: 0 <= i < n ==> Sound(sorted[i])
    ensures Apply(c, routes).1 ==
            if exists i :: 0 <= i < n && Overlaps(sorted[n], sorted[i]) then Some(InboundClaimedTwice)
            else if sorted[n].health.strategy != "" && sorted[n].health.strategy != "leastPing" then Some(UnsupportedStrategy)
            else Some(BadXhttpPath)
  {
    sorted := SortBy(RouteKey, routes);
    SortByIsSort(RouteKey, routes);
    forall i, j | 0 <= i < j < |sorted| ensures sorted[i].routeId <= sorted[j].routeId {
      SortedPair(RouteKey, sorted, i, j);
    }
    n := Scan(sorted, 0, {}).0;
    ScanStops(sorted, 0, {});
    hide Sound, Scan, SortBy;
    if i :| 0 <= i < n && Overlaps(sorted[n], sorted[i]) {
      var tag :| tag in sorted[n].inboundTags && tag in sorted[i].inboundTags;
    }
  }
}
