/** agent/app/cascade.py: the managed cascade section of the Xray config. */
module Cascade {
  import opened Wrappers
  import opened Seqs
  import opened Decimal
  import opened Items
  import opened XrayConfig

  const TAG_PREFIX := "cascade-"

  datatype CascadeError = InboundClaimedTwice | UnsupportedStrategy | BadXhttpPath

  function ExitTag(routeId: nat, position: nat): string {
    TAG_PREFIX + Dec(routeId) + "-exit-" + Dec(position)
  }

  function BalancerTag(routeId: nat): string {
    TAG_PREFIX + Dec(routeId) + "-balancer"
  }

  predicate Managed(tag: string) {
    TAG_PREFIX <= tag
  }

  const KeepOutbound := (o: Outbound) => !Managed(o.tag)
  const KeepRule := (r: Rule) => !Managed(r.balancerTag)
  const KeepBalancer := (b: Balancer) => !Managed(b.tag)

  // --- what the rewrite produces -----------------------------------------------------

  function RouteOutbounds(routeId: nat, exits: seq<CascadeExit>): (r: seq<Outbound>)
    ensures |r| == |exits|
  {
    if exits == [] then []
    else
      var e := exits[0];
      [Outbound(ExitTag(routeId, e.position),
                VlessXhttpReality(e.host, e.port, e.uuid, e.publicKey, e.shortId, e.serverName, e.xhttpPath))]
      + RouteOutbounds(routeId, exits[1..])
  }

  function Tags(outbounds: seq<Outbound>): (r: seq<string>)
    ensures |r| == |outbounds|
  {
    if outbounds == [] then [] else [outbounds[0].tag] + Tags(outbounds[1..])
  }

  function OutboundsOf(routes: seq<CascadeRoute>): seq<Outbound> {
    if routes == [] then []
    else OutboundsOf(routes[..|routes| - 1])
         + RouteOutbounds(routes[|routes| - 1].routeId, routes[|routes| - 1].exits)
  }

  function BalancerOf(route: CascadeRoute): Balancer {
    Balancer(BalancerTag(route.routeId), Tags(RouteOutbounds(route.routeId, route.exits)), "leastPing", "")
  }

  function RuleOf(route: CascadeRoute): Rule {
    Rule(Some(route.inboundTags), BalancerTag(route.routeId), "", "")
  }

  function BalancersOf(routes: seq<CascadeRoute>): (r: seq<Balancer>)
    ensures |r| == |routes| && forall k :: 0 <= k < |r| ==> r[k] == BalancerOf(routes[k])
  {
    seq(|routes|, k requires 0 <= k < |routes| => BalancerOf(routes[k]))
  }

  function RulesOf(routes: seq<CascadeRoute>): (r: seq<Rule>)
    ensures |r| == |routes| && forall k :: 0 <= k < |r| ==> r[k] == RuleOf(routes[k])
  {
    seq(|routes|, k requires 0 <= k < |routes| => RuleOf(routes[k]))
  }

  function Or(s: string, default: string): string {
    if s != "" then s else default
  }

  function ObservatoryOf(sorted: seq<CascadeRoute>, first: CascadeRoute): Observatory {
    CascadeObservatory(
      Tags(OutboundsOf(sorted)),
      Or(first.health.probeUrl, "https://www.gstatic.com/generate_204"),
      Or(first.health.probeInterval, "10s"))
  }

  // --- validation --------------------------------------------------------------------

  function TagSet(route: CascadeRoute): set<string> {
    set tag | tag in route.inboundTags
  }

  function RouteProblem(route: CascadeRoute, claimed: set<string>): Option<CascadeError> {
    if TagSet(route) * claimed != {} then Some(InboundClaimedTwice)
    else if Or(route.health.strategy, "leastPing") != "leastPing" then Some(UnsupportedStrategy)
    else if exists e :: e in route.exits && !("/" <= e.xhttpPath) then Some(BadXhttpPath)
    else None
  }

  /** The validation pass from route k on: where it stops, and on which error. */
  function Scan(routes: seq<CascadeRoute>, k: nat, claimed: set<string>): (r: (nat, Option<CascadeError>))
    requires k <= |routes|
    ensures k <= r.0 <= |routes|
    ensures r.1.None? <==> r.0 == |routes|
    decreases |routes| - k
  {
    if k == |routes| then (k, None)
    else
      var problem := RouteProblem(routes[k], claimed);
      if problem.Some? then (k, problem) else Scan(routes, k + 1, claimed + TagSet(routes[k]))
  }

  const RouteKey := (r: CascadeRoute) => r.routeId

  predicate Valid(routes: seq<CascadeRoute>) {
    Scan(SortBy(RouteKey, routes), 0, {}).1.None?
  }

  // --- the rewrite on values ---------------------------------------------------------

  predicate HadManaged(c: Config) {
    (exists o :: o in c.outbounds.GetOr([]) && Managed(o.tag))
    || (c.routing.Some? && exists b :: b in c.routing.value.balancers.GetOr([]) && Managed(b.tag))
  }

  /** An empty `routing` object is falsy, so the source edits a detached copy of it. */
  function StripRouting(r: Routing): Routing {
    if r == Routing(None, None, "") then r
    else
      var kept := Filter(KeepBalancer, r.balancers.GetOr([]));
      Routing(Some(Filter(KeepRule, r.rules.GetOr([]))), if kept == [] then None else Some(kept), r.rest)
  }

  function Strip(c: Config): Config {
    c.(outbounds := if c.outbounds.None? then None else Some(Filter(KeepOutbound, c.outbounds.value)),
       routing := if c.routing.None? then None else Some(StripRouting(c.routing.value)),
       observatory := if HadManaged(c) then None else c.observatory)
  }

  function AddOutbounds(c: Config, extra: seq<Outbound>): Config {
    if extra == [] then c else c.(outbounds := Some(c.outbounds.GetOr([]) + extra))
  }

  function Layer(c: Config, sorted: seq<CascadeRoute>, first: CascadeRoute): Config {
    var routing := c.routing.GetOr(Routing(None, None, ""));
    c.(routing := Some(Routing(
                         Some(RulesOf(sorted) + routing.rules.GetOr([])),
                         Some(BalancersOf(sorted)), routing.rest)),
       observatory := Some(ObservatoryOf(sorted, first)))
  }

  /** The config after `apply_cascade_routes`, and the error it raised, if any. */
  function Apply(c: Config, routes: seq<CascadeRoute>): (Config, Option<CascadeError>) {
    var sorted := SortBy(RouteKey, routes);
    var (n, error) := Scan(sorted, 0, {});
    var extended := AddOutbounds(Strip(c), OutboundsOf(sorted[..n]));
    if routes == [] then (Strip(c), None)
    else if error.Some? then (extended, error)
    else (Layer(extended, sorted, routes[0]), None)
  }

  function Applied(c: Config, routes: seq<CascadeRoute>): Config {
    Apply(c, routes).0
  }

  // --- small facts -------------------------------------------------------------------

  lemma ExitTagManaged(routeId: nat, position: nat)
    ensures Managed(ExitTag(routeId, position)) && Managed(BalancerTag(routeId))
  {
    assert ExitTag(routeId, position) == TAG_PREFIX + (Dec(routeId) + "-exit-" + Dec(position));
    assert BalancerTag(routeId) == TAG_PREFIX + (Dec(routeId) + "-balancer");
  }

  lemma {:induction false} RouteOutboundsShape(routeId: nat, exits: seq<CascadeExit>)
    ensures forall k :: 0 <= k < |exits| ==>
              RouteOutbounds(routeId, exits)[k].tag == ExitTag(routeId, exits[k].position)
              && RouteOutbounds(routeId, exits)[k].body.VlessXhttpReality?
  {
    if exits != [] {
      RouteOutboundsShape(routeId, exits[1..]);
    }
  }

  lemma {:induction false} TagsAt(outbounds: seq<Outbound>)
    ensures forall k :: 0 <= k < |outbounds| ==> Tags(outbounds)[k] == outbounds[k].tag
  {
    if outbounds != [] {
      TagsAt(outbounds[1..]);
    }
  }

  lemma {:induction false} OutboundsManaged(routes: seq<CascadeRoute>)
    ensures forall o :: o in OutboundsOf(routes) ==> Managed(o.tag)
  {
    if routes != [] {
      var last := routes[|routes| - 1];
      OutboundsManaged(routes[..|routes| - 1]);
      RouteOutboundsShape(last.routeId, last.exits);
      forall k | 0 <= k < |last.exits|
        ensures Managed(RouteOutbounds(last.routeId, last.exits)[k].tag)
      {
        ExitTagManaged(last.routeId, last.exits[k].position);
      }
    }
  }

  lemma ManagedSections(routes: seq<CascadeRoute>)
    ensures Filter(KeepOutbound, OutboundsOf(routes)) == []
    ensures Filter(KeepRule, RulesOf(routes)) == []
    ensures Filter(KeepBalancer, BalancersOf(routes)) == []
  {
    OutboundsManaged(routes);
    FilterNone(KeepOutbound, OutboundsOf(routes));
    forall k | 0 <= k < |routes|
      ensures Managed(RulesOf(routes)[k].balancerTag) && Managed(BalancersOf(routes)[k].tag)
    {
      ExitTagManaged(routes[k].routeId, 0);
    }
    FilterNone(KeepRule, RulesOf(routes));
    FilterNone(KeepBalancer, BalancersOf(routes));
  }

  // --- history independence and undo --------------------------------------------------

  lemma StripTwice(c: Config)
    ensures Strip(Strip(c)) == Strip(c)
  {
    var s := Strip(c);
    FilterTwice(KeepOutbound, c.outbounds.GetOr([]));
    if c.routing.Some? {
      var r := c.routing.value;
      FilterTwice(KeepRule, r.rules.GetOr([]));
      FilterTwice(KeepBalancer, r.balancers.GetOr([]));
      forall b | b in s.routing.value.balancers.GetOr([]) ensures !Managed(b.tag) {
        FilterMember(KeepBalancer, r.balancers.GetOr([]), b);
      }
    }
    forall o | o in s.outbounds.GetOr([]) ensures !Managed(o.tag) {
      FilterMember(KeepOutbound, c.outbounds.value, o);
    }
  }

  /** Every DesiredCascadeRoute carries at least one exit. */
  predicate HaveExits(routes: seq<CascadeRoute>) {
    forall r :: r in routes ==> r.exits != []
  }

  function BaseOutbounds(c: Config): seq<Outbound> {
    Strip(c).outbounds.GetOr([])
  }

  function BaseRouting(c: Config): Routing {
    Strip(c).routing.GetOr(Routing(None, None, ""))
  }

  lemma AppliedSections(c: Config, routes: seq<CascadeRoute>)
    requires Valid(routes) && routes != [] && HaveExits(routes)
    ensures var sorted := SortBy(RouteKey, routes); var a := Applied(c, routes);
            && OutboundsOf(sorted) != []
            && a == c.(outbounds := Some(BaseOutbounds(c) + OutboundsOf(sorted)),
                       routing := Some(Routing(Some(RulesOf(sorted) + BaseRouting(c).rules.GetOr([])),
                                               Some(BalancersOf(sorted)), BaseRouting(c).rest)),
                       observatory := Some(ObservatoryOf(sorted, routes[0])))
  {
    var sorted := SortBy(RouteKey, routes);
    SortByIsSort(RouteKey, routes);
    assert sorted[..|sorted|] == sorted;
    assert sorted[|sorted| - 1] in sorted;
  }

  lemma BaseSectionsUnmanaged(c: Config)
    ensures Filter(KeepOutbound, BaseOutbounds(c)) == BaseOutbounds(c)
    ensures Filter(KeepRule, BaseRouting(c).rules.GetOr([])) == BaseRouting(c).rules.GetOr([])
  {
    FilterTwice(KeepOutbound, c.outbounds.GetOr([]));
    if c.routing.Some? {
      FilterTwice(KeepRule, c.routing.value.rules.GetOr([]));
    }
  }

  lemma StripLayered(routes: seq<CascadeRoute>, outs: seq<Outbound>, r: Routing)
    requires routes != [] && Filter(KeepOutbound, outs) == outs
    requires Filter(KeepRule, r.rules.GetOr([])) == r.rules.GetOr([])
    ensures Filter(KeepOutbound, outs + OutboundsOf(routes)) == outs
    ensures StripRouting(Routing(Some(RulesOf(routes) + r.rules.GetOr([])), Some(BalancersOf(routes)), r.rest))
            == Routing(Some(r.rules.GetOr([])), None, r.rest)
  {
    ManagedSections(routes);
    hide Filter, OutboundsOf, RulesOf, BalancersOf;
    FilterConcat(KeepOutbound, outs, OutboundsOf(routes));
    FilterConcat(KeepRule, RulesOf(routes), r.rules.GetOr([]));
    assert Filter(KeepRule, RulesOf(routes) + r.rules.GetOr([])) == r.rules.GetOr([]);
    assert Filter(KeepBalancer, BalancersOf(routes)) == [];
    var layered := Routing(Some(RulesOf(routes) + r.rules.GetOr([])), Some(BalancersOf(routes)), r.rest);
    assert layered.rules.GetOr([]) == RulesOf(routes) + r.rules.GetOr([]);
    assert layered.balancers.GetOr([]) == BalancersOf(routes);
  }

  /** Stripping an applied config gives back the stripped base, except that the sections the
      rewrite creates stay behind as empty ones and unmanaged balancers are gone. */
  lemma StripApplied(c: Config, routes: seq<CascadeRoute>)
    requires Valid(routes) && routes != [] && HaveExits(routes)
    ensures Strip(Applied(c, routes)) ==
            c.(outbounds := Some(BaseOutbounds(c)),
               routing := Some(Routing(Some(BaseRouting(c).rules.GetOr([])), None, BaseRouting(c).rest)),
               observatory := None)
  {
    var sorted := SortBy(RouteKey, routes);
    var a := Applied(c, routes);
    AppliedSections(c, routes);
    assert HadManaged(a) by {
      var outs := OutboundsOf(sorted);
      OutboundsManaged(sorted);
      assert outs[0] in outs && outs[0] in a.outbounds.value;
    }
    BaseSectionsUnmanaged(c);
    StripLayered(sorted, BaseOutbounds(c), BaseRouting(c));
  }

  /** Whatever was applied before leaves no trace: for every config at all. */
  lemma HistoryIndependent(c: Config, before: seq<CascadeRoute>, now: seq<CascadeRoute>)
    requires Valid(before) && Valid(now) && now != [] && HaveExits(before) && HaveExits(now)
    ensures Applied(Applied(c, before), now) == Applied(c, now)
  {
    StripTwice(c);
    if before != [] {
      StripApplied(c, before);
      AppliedSections(c, before);
    }
    AppliedSections(c, now);
    AppliedSections(Applied(c, before), now);
  }

  lemma {:induction false} ReapplyIsStable(c: Config, routes: seq<CascadeRoute>)
    requires Valid(routes) && HaveExits(routes)
    ensures Applied(Applied(c, routes), routes) == Applied(c, routes)
  {
    if routes == [] {
      StripTwice(c);
    } else {
      HistoryIndependent(c, routes, routes);
    }
  }

  /** A config that never carried a cascade: sections present, nothing managed, no balancers. */
  ghost predicate Clean(c: Config) {
    && c.outbounds.Some? && (forall o :: o in c.outbounds.value ==> !Managed(o.tag))
    && c.routing.Some? && c.routing.value.rules.Some?
    && (forall r :: r in c.routing.value.rules.value ==> !Managed(r.balancerTag))
    && c.routing.value.balancers.None?
    && c.observatory.None?
  }

  /** Applying a route list and then none gives the base back exactly when the base is clean. */
  lemma UndoExact(c: Config, routes: seq<CascadeRoute>)
    requires Valid(routes) && routes != [] && HaveExits(routes)
    ensures Applied(Applied(c, routes), []) == c <==> Clean(c)
  {
    StripApplied(c, routes);
    var undone := Strip(Applied(c, routes));
    assert undone == Applied(Applied(c, routes), []);
    if Clean(c) {
      FilterAll(KeepOutbound, c.outbounds.value);
      FilterAll(KeepRule, c.routing.value.rules.value);
    }
    if undone == c {
      UnmanagedIfStripped(c);
    }
  }

  lemma UnmanagedIfStripped(c: Config)
    ensures forall o :: o in BaseOutbounds(c) ==> !Managed(o.tag)
    ensures forall r :: r in BaseRouting(c).rules.GetOr([]) ==> !Managed(r.balancerTag)
  {
    forall o | o in BaseOutbounds(c) ensures !Managed(o.tag) {
      FilterMember(KeepOutbound, c.outbounds.value, o);
    }
    forall r | r in BaseRouting(c).rules.GetOr([]) ensures !Managed(r.balancerTag) {
      if c.routing.value != Routing(None, None, "") {
        FilterMember(KeepRule, c.routing.value.rules.GetOr([]), r);
      }
    }
  }
}
