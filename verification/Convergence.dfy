/** Reconciliation reaches its goal in one step from anywhere, stays there, and, while the
    centre is out of reach, replays of the cached snapshot only ever take access away. */
module Convergence {
  import opened Wrappers
  import opened Items
  import opened XrayConfig
  import opened Cascade
  import opened Reconcile
  import opened Hysteria
  import opened NodeMachine
  import opened NodeSafety

  // --- one step, from any starting config --------------------------------------------------------

  function Blank(inbounds: seq<Inbound>): (r: seq<Inbound>)
    ensures |r| == |inbounds|
  {
    NewInbounds(inbounds, [])
  }

  /** Two configs that differ at most in client lists and in the managed cascade section. */
  predicate SameUnmanaged(c: Config, d: Config) {
    Strip(c).(inbounds := Blank(c.inbounds)) == Strip(d).(inbounds := Blank(d.inbounds))
  }

  lemma ApplyKeepsInbounds(c: Config, routes: seq<CascadeRoute>, inbounds: seq<Inbound>)
    ensures Applied(c, routes).inbounds == c.inbounds
    ensures Applied(c.(inbounds := inbounds), routes) == Applied(c, routes).(inbounds := inbounds)
    ensures Apply(c.(inbounds := inbounds), routes).1 == Apply(c, routes).1
  {
    assert HadManaged(c.(inbounds := inbounds)) == HadManaged(c);
    assert Strip(c.(inbounds := inbounds)) == Strip(c).(inbounds := inbounds);
  }

  lemma BlankKeepsShape(c: seq<Inbound>, d: seq<Inbound>, clients: seq<DesiredClient>)
    requires Blank(c) == Blank(d)
    ensures NewInbounds(c, clients) == NewInbounds(d, clients)
  {
    assert |c| == |d|;
    forall k | 0 <= k < |c| ensures SetClients(c[k], clients) == SetClients(d[k], clients) {
      assert Blank(c)[k] == Blank(d)[k];
      assert SetClients(c[k], []).rest == SetClients(d[k], []).rest;
    }
  }

  /** The starting clients, cascade section, journal and applied state do not matter. */
  lemma ConvergesInOneStep(a: Base, b: Base, snapshot: Snapshot, nowMs: nat)
    requires SameUnmanaged(a.disk, b.disk)
    requires MakePlan(a, snapshot, nowMs).Ok? && MakePlan(b, snapshot, nowMs).Ok?
    requires WellFormedDisk(a.disk) && WellFormedDisk(b.disk) && WellFormedItems(snapshot.items)
    ensures var x := MakePlan(a, snapshot, nowMs).value.Outcome();
            var y := MakePlan(b, snapshot, nowMs).value.Outcome();
            && x.disk == y.disk && x.overrides == y.overrides && x.journal == y.journal == {}
            && x.applied.items == y.applied.items == snapshot.items
            && x.applied.generation == y.applied.generation == snapshot.generation
            && x.applied.digest == y.applied.digest == Some(snapshot.digest)
  {
    var p, q := MakePlan(a, snapshot, nowMs).value, MakePlan(b, snapshot, nowMs).value;
    var routes := DesiredRoutes(snapshot.items);
    PlanMade(a, snapshot, nowMs);
    PlanMade(b, snapshot, nowMs);
    var left, right := Strip(a.disk), Strip(b.disk);
    BlankKeepsShape(a.disk.inbounds, b.disk.inbounds, p.Clients());
    var blank := left.(inbounds := Blank(a.disk.inbounds));
    assert left.(inbounds := p.config.inbounds) == blank.(inbounds := p.config.inbounds);
    assert right.(inbounds := p.config.inbounds) == blank.(inbounds := p.config.inbounds);
    assert p.config == q.config by {
      FromStrip(a.disk, b.disk, routes, p.config.inbounds);
    }
    PlanOverrides(p);
    PlanOverrides(q);
  }

  lemma FromStrip(c: Config, d: Config, routes: seq<CascadeRoute>, inbounds: seq<Inbound>)
    requires Strip(c).(inbounds := inbounds) == Strip(d).(inbounds := inbounds)
    ensures Applied(c, routes).(inbounds := inbounds) == Applied(d, routes).(inbounds := inbounds)
  {
    ApplyKeepsInbounds(c, routes, inbounds);
    ApplyKeepsInbounds(d, routes, inbounds);
    assert Strip(c.(inbounds := inbounds)) == Strip(c).(inbounds := inbounds);
    assert Strip(d.(inbounds := inbounds)) == Strip(d).(inbounds := inbounds);
  }

  // --- idempotence -------------------------------------------------------------------------------

  lemma NewInboundsStable(inbounds: seq<Inbound>, clients: seq<DesiredClient>)
    ensures NewInbounds(NewInbounds(inbounds, clients), clients) == NewInbounds(inbounds, clients)
  {
    var next := NewInbounds(inbounds, clients);
    forall k | 0 <= k < |next| ensures SetClients(next[k], clients) == next[k] {
      if IsVless(inbounds[k]) {
        assert DesiredRecords(clients, next[k]) == DesiredRecords(clients, inbounds[k]);
      }
    }
  }

  lemma NewConfigStable(c: Config, clients: seq<DesiredClient>, routes: seq<CascadeRoute>)
    requires Valid(routes) && HaveExits(routes)
    ensures var d := NewConfig(c, clients, routes);
            Applied(d, routes) == d && NewConfig(d, clients, routes) == d && Apply(d, routes).1.None?
  {
    var d := NewConfig(c, clients, routes);
    ReapplyIsStable(c, routes);
    ApplyKeepsInbounds(Applied(c, routes), routes, d.inbounds);
    ApplyKeepsInbounds(c, routes, d.inbounds);
    NewInboundsStable(c.inbounds, clients);
  }

  /** A second run of the same snapshot at the same time finds nothing to do and writes nothing. */
  lemma SecondRunIdle(n: Node)
    requires Inv(n) && n.pc.Done?
    ensures var p := n.pc.plan; var again := MakePlan(n.Base(), p.snapshot, p.nowMs);
            again.Ok? && !again.value.changed
  {
    hide WellFormedDisk, Emails, AuthOf;
    var p := n.pc.plan;
    var routes := DesiredRoutes(p.snapshot.items);
    PlanMade(p.base, p.snapshot, p.nowMs);
    if p.changed {
      assert Valid(routes) by {
        assert Apply(p.base.disk, routes).1.None?;
      }
      NewConfigStable(p.base.disk, p.Clients(), routes);
    }
  }

  // --- offline replays -----------------------------------------------------------------------------

  function CachedSnapshot(applied: AppliedState): Snapshot
    requires applied.digest.Some?
  {
    Snapshot(applied.schemaVersion, applied.generation, applied.digest.value, applied.items)
  }

  /** One cached run: nothing while a revocation is pending or nothing was ever applied. */
  function CachedRun(base: Base, nowMs: nat): Base {
    if base.journal != {} || base.applied.generation < 1 || base.applied.digest.None? then base
    else match MakePlan(base, CachedSnapshot(base.applied), nowMs)
         case Err(_) => base
         case Ok(p) => p.Outcome()
  }

  function CachedRuns(base: Base, times: seq<nat>): Base {
    if times == [] then base
    else CachedRun(CachedRuns(base, times[..|times| - 1]), times[|times| - 1])
  }

  /** However often it is tried, a replay changes nothing while a revocation is pending. */
  lemma {:induction false} PendingBlocksReplays(base: Base, times: seq<nat>)
    requires base.journal != {}
    ensures CachedRuns(base, times) == base
  {
    if times != [] {
      PendingBlocksReplays(base, times[..|times| - 1]);
    }
  }

  predicate Wants(item: Item, nowMs: nat, c: DesiredClient) {
    match item
    case Client(uuid, email, expireMs) => expireMs > nowMs && c == DesiredClient(uuid, email)
    case Service(_, _, _, uuid, email) => c == DesiredClient(uuid, email)
    case _ => false
  }

  lemma {:induction false} DesiredMember(items: seq<Item>, nowMs: nat, c: DesiredClient)
    ensures c in DesiredClients(items, nowMs) <==> exists i :: i in items && Wants(i, nowMs, c)
  {
    if items != [] {
      var rest := DesiredClients(items[1..], nowMs);
      assert items == [items[0]] + items[1..];
      DesiredMember(items[1..], nowMs, c);
      assert Wants(items[0], nowMs, c) <==> c in DesiredClients(items, nowMs)[..|DesiredClients(items, nowMs)| - |rest|];
    }
  }

  ghost predicate Cacheable(base: Base) {
    && base.journal == {} && base.applied.generation >= 1 && base.applied.digest.Some?
    && WellFormedItems(base.applied.items) && Valid(DesiredRoutes(base.applied.items))
    && WellFormedDisk(base.disk) && HasVless(base.disk)
  }

  lemma CachedRunExact(base: Base, nowMs: nat)
    requires Cacheable(base)
    ensures var next := CachedRun(base, nowMs); var clients := DesiredClients(base.applied.items, nowMs);
            && Cacheable(next) && next.applied == base.applied
            && Emails(next.disk) == ClientEmails(clients)
            && (forall i :: i in next.disk.inbounds && IsVless(i) ==> i.clients == DesiredRecords(clients, i))
  {
    hide Emails, WellFormedDisk, WellFormedItems, ClientEmails, DesiredRecords, HasVless;
    var snapshot := CachedSnapshot(base.applied);
    var routes := DesiredRoutes(base.applied.items);
    assert MakePlan(base, snapshot, nowMs).Ok?;
    var p := MakePlan(base, snapshot, nowMs).value;
    PlanMade(base, snapshot, nowMs);
    assert PlanOk(p);
    PlanFacts(p);
    NewInboundsExact(base.disk.inbounds, p.Clients());
    assert p.Outcome().disk == p.config;
  }

  /** Every run at time t leaves exactly the cached clients still unexpired at t, plus every
      cascade service; with a clock that does not go back the authorised set only shrinks. */
  lemma {:induction false} OfflineOnlyShrinks(base: Base, times: seq<nat>)
    requires Cacheable(base)
    requires forall i, j :: 0 <= i < j < |times| ==> times[i] <= times[j]
    ensures var end := CachedRuns(base, times);
            && Cacheable(end) && end.applied == base.applied
            && (times != [] ==>
                  Emails(end.disk) == ClientEmails(DesiredClients(base.applied.items, times[|times| - 1])))
            && (|times| > 1 ==> Emails(end.disk) <= Emails(CachedRuns(base, times[..|times| - 1]).disk))
  {
    if times != [] {
      var n := |times| - 1;
      OfflineOnlyShrinks(base, times[..n]);
      CachedRunExact(CachedRuns(base, times[..n]), times[n]);
      if n > 0 {
        var items := base.applied.items;
        forall c | c in DesiredClients(items, times[n]) ensures c in DesiredClients(items, times[n - 1]) {
          DesiredMember(items, times[n], c);
          var i :| i in items && Wants(i, times[n], c);
          assert Wants(i, times[n - 1], c);
          DesiredMember(items, times[n - 1], c);
        }
      }
    }
  }

  /** In the machine a completed cached reconciliation is exactly one such run. */
  lemma MachineReplay(n: Node)
    requires Inv(n) && n.pc.Done?
    requires n.pc.plan.base.journal == {} && n.pc.plan.base.applied.generation >= 1
    requires n.pc.plan.base.applied.digest.Some? && n.pc.plan.snapshot == CachedSnapshot(n.pc.plan.base.applied)
    ensures n.Base() == CachedRun(n.pc.plan.base, n.pc.plan.nowMs)
  {
    hide MakePlan;
  }
}
