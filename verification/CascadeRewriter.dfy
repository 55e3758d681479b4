/** The config dictionary that agent/app/cascade.py edits in place. */
module CascadeRewriter {
  import opened Wrappers
  import opened Seqs
  import opened Items
  import opened XrayConfig
  import opened Cascade

  class ConfigDict {
    var inbounds: seq<Inbound>
    var outbounds: Option<seq<Outbound>>
    var routing: Option<Routing>
    var observatory: Option<Observatory>
    var rest: string

    function View(): Config
      reads this
    {
      Config(inbounds, outbounds, routing, observatory, rest)
    }

    constructor (c: Config)
      ensures View() == c
    {
      inbounds, outbounds, routing, observatory, rest :=
        c.inbounds, c.outbounds, c.routing, c.observatory, c.rest;
    }

    method StripManaged()
      modifies this
      ensures View() == Strip(old(View()))
    {
      var hadManaged := HadManaged(View());
      if outbounds.Some? {
        outbounds := Some(Filter(KeepOutbound, outbounds.value));
      }
      if routing.Some? && routing.value != Routing(None, None, "") {
        var r := routing.value;
        var kept := Filter(KeepBalancer, r.balancers.GetOr([]));
        r := r.(rules := Some(Filter(KeepRule, r.rules.GetOr([]))));
        if kept != [] {
          r := r.(balancers := Some(kept));
        } else {
          r := r.(balancers := None);
        }
        routing := Some(r);
      }
      if hadManaged {
        observatory := None;
      }
    }

    /** The loop over the sorted routes: adds outbounds as it goes, collects the rest, and stops
        at the first route it cannot accept. */
    method AddRoutes(sorted: seq<CascadeRoute>)
      returns (error: Option<CascadeError>, subjects: seq<string>, rules: seq<Rule>, balancers: seq<Balancer>)
      requires HaveExits(sorted)
      modifies this
      ensures var (n, problem) := Scan(sorted, 0, {});
              && View() == AddOutbounds(old(View()), OutboundsOf(sorted[..n]))
              && error == problem
              && subjects == Tags(OutboundsOf(sorted[..n]))
              && rules == RulesOf(sorted[..n]) && balancers == BalancersOf(sorted[..n])
    {
      var claimed: set<string> := {};
      subjects, rules, balancers := [], [], [];
      var k := 0;
      while k < |sorted|
        invariant k <= |sorted| && Scan(sorted, 0, {}) == Scan(sorted, k, claimed)
        invariant subjects == Tags(OutboundsOf(sorted[..k]))
        invariant rules == RulesOf(sorted[..k]) && balancers == BalancersOf(sorted[..k])
        invariant View() == AddOutbounds(old(View()), OutboundsOf(sorted[..k]))
      {
        var route := sorted[k];
        assert route in sorted;
        if TagSet(route) * claimed != {} {
          return Some(InboundClaimedTwice), subjects, rules, balancers;
        }
        claimed := claimed + TagSet(route);
        if Or(route.health.strategy, "leastPing") != "leastPing" {
          return Some(UnsupportedStrategy), subjects, rules, balancers;
        }
        if exists e :: e in route.exits && !("/" <= e.xhttpPath) {
          return Some(BadXhttpPath), subjects, rules, balancers;
        }
        var added := RouteOutbounds(route.routeId, route.exits);
        MoreOutbounds(old(View()), OutboundsOf(sorted[..k]), added);
        outbounds := Some(outbounds.GetOr([]) + added);
        subjects := subjects + Tags(added);
        balancers := balancers + [BalancerOf(route)];
        rules := rules + [RuleOf(route)];
        NextRoute(sorted, k);
        k := k + 1;
      }
      error := None;
    }

    /** Reports whether the config changed, or the error raised; on an error the routes before
        the offending one have already added their outbounds to the dictionary. */
    method ApplyCascadeRoutes(routes: seq<CascadeRoute>) returns (r: Result<bool, CascadeError>)
      requires HaveExits(routes)
      modifies this
      ensures View() == Apply(old(View()), routes).0
      ensures r == match Apply(old(View()), routes).1
                   case Some(error) => Err(error)
                   case None => Ok(View() != old(View()))
    {
      var before := View();
      StripManaged();
      if routes == [] {
        return Ok(View() != before);
      }
      var sorted := SortBy(RouteKey, routes);
      SortByIsSort(RouteKey, routes);
      var error, subjects, rules, balancers := AddRoutes(sorted);
      if error.Some? {
        return Err(error.value);
      }
      assert sorted[..|sorted|] == sorted;
      // Route rules must precede the rules already there.
      var section := routing.GetOr(Routing(None, None, ""));
      section := section.(rules := Some(rules + section.rules.GetOr([])));
      section := section.(balancers := Some(balancers));
      routing := Some(section);
      observatory := Some(CascadeObservatory(
                            subjects,
                            Or(routes[0].health.probeUrl, "https://www.gstatic.com/generate_204"),
                            Or(routes[0].health.probeInterval, "10s")));
      r := Ok(View() != before);
    }
  }

  lemma {:induction false} TagsConcat(a: seq<Outbound>, b: seq<Outbound>)
    ensures Tags(a + b) == Tags(a) + Tags(b)
  {
    if a == [] {
      assert a + b == b;
    } else {
      assert (a + b)[1..] == a[1..] + b;
      TagsConcat(a[1..], b);
    }
  }

  lemma MoreOutbounds(c: Config, added: seq<Outbound>, more: seq<Outbound>)
    requires more != []
    ensures var d := AddOutbounds(c, added);
            AddOutbounds(c, added + more) == d.(outbounds := Some(d.outbounds.GetOr([]) + more))
  {
    assert c.outbounds.GetOr([]) + (added + more) == (c.outbounds.GetOr([]) + added) + more;
    assert [] + more == more;
  }

  lemma NextRoute(sorted: seq<CascadeRoute>, k: nat)
    requires k < |sorted|
    ensures var added := RouteOutbounds(sorted[k].routeId, sorted[k].exits);
            && OutboundsOf(sorted[..k + 1]) == OutboundsOf(sorted[..k]) + added
            && Tags(OutboundsOf(sorted[..k + 1])) == Tags(OutboundsOf(sorted[..k])) + Tags(added)
    ensures RulesOf(sorted[..k + 1]) == RulesOf(sorted[..k]) + [RuleOf(sorted[k])]
    ensures BalancersOf(sorted[..k + 1]) == BalancersOf(sorted[..k]) + [BalancerOf(sorted[k])]
  {
    var next := sorted[..k + 1];
    assert next[..k] == sorted[..k] && next[k] == sorted[k];
    TagsConcat(OutboundsOf(sorted[..k]), RouteOutbounds(sorted[k].routeId, sorted[k].exits));
  }
}
