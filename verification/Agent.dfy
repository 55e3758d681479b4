/** The agent process as the source writes it: loops that work out the plan, then writes and
    outside calls in a fixed order. Every write is logged as a step of the node machine, and
    whenever the agent waits, Hysteria2 users and Xray may act in between. */
module Agent {
  import opened Wrappers
  import opened PyDict
  import opened Items
  import opened XrayConfig
  import opened Cascade
  import opened CascadeRewriter
  import opened Reconcile
  import opened LiveDelta
  import opened Hysteria
  import opened NodeMachine
  import opened NodeSafety
  import opened Convergence

  // --- working out the plan ------------------------------------------------------------------

  method DesiredParts(snapshot: Snapshot, nowMs: nat)
    returns (clients: seq<DesiredClient>, overrides: map<nat, nat>, routes: seq<CascadeRoute>)
    ensures clients == DesiredClients(snapshot.items, nowMs)
    ensures overrides == DesiredOverrides(snapshot.items)
    ensures routes == DesiredRoutes(snapshot.items)
  {
    var items := snapshot.items;
    clients, overrides, routes := [], map[], [];
    for k := 0 to |items|
      invariant clients + DesiredClients(items[k..], nowMs) == DesiredClients(items, nowMs)
      invariant routes + DesiredRoutes(items[k..]) == DesiredRoutes(items)
    {
      assert items[k..][1..] == items[k + 1..];
      match items[k] {
        case Client(uuid, email, expireMs) =>
          if expireMs > nowMs {
            clients := clients + [DesiredClient(uuid, email)];
          }
        case Service(_, _, _, uuid, email) =>
          clients := clients + [DesiredClient(uuid, email)];
        case Route(route) =>
          routes := routes + [route];
        case ConnLimit(_, _) =>
      }
    }
    overrides := DesiredOverrides(items);
  }

  lemma RemovedConcat(a: seq<Removal>, b: seq<Removal>)
    ensures RemovedEmails(a + b) == RemovedEmails(a) + RemovedEmails(b)
  {
    forall r | r in a || r in b ensures r.email in RemovedEmails(a + b) {
      assert r in a + b;
    }
  }

  lemma RemovedFew(r: Removal)
    ensures RemovedEmails([]) == {} && RemovedEmails([r]) == {r.email}
  {
    assert r in [r];
  }

  /** The loop over one inbound's existing records. */
  method DiffExisting(existing: Dict<ClientRecord>, desired: Dict<ClientRecord>, tag: Option<string>)
    returns (removals: seq<Removal>, removed: set<string>)
    ensures removals == RemovalsFrom(existing, desired, tag) && removed == RemovedEmails(removals)
  {
    hide RemovedEmails;
    removals, removed := [], {};
    RemovedFew(Removal("", ""));
    for k := 0 to |existing|
      invariant removals + RemovalsFrom(existing[k..], desired, tag) == RemovalsFrom(existing, desired, tag)
      invariant removed == RemovedEmails(removals)
    {
      assert existing[k..][1..] == existing[k + 1..];
      var (uuid, record) := existing[k];
      var wanted := Get(desired, uuid);
      if wanted.Some? && Projection(record) == wanted.value {
        continue;
      }
      if Truthy(tag) && Truthy(record.email) {
        var removal := Removal(tag.value, record.email.value);
        RemovedConcat(removals, [removal]);
        RemovedFew(removal);
        removals := removals + [removal];
        removed := removed + {record.email.value};
      }
    }
  }

  /** The loop over the records one inbound should have. */
  method DiffDesired(desired: Dict<ClientRecord>, existing: Dict<ClientRecord>, inbound: Inbound)
    returns (additions: seq<Addition>)
    ensures additions == AdditionsFrom(desired, existing, inbound)
  {
    additions := [];
    for k := 0 to |desired|
      invariant additions + AdditionsFrom(desired[k..], existing, inbound) == AdditionsFrom(desired, existing, inbound)
    {
      assert desired[k..][1..] == desired[k + 1..];
      var (uuid, record) := desired[k];
      var was := Get(existing, uuid);
      if was.Some? && Projection(was.value) == record {
        continue;
      }
      additions := additions + [Addition(inbound.tag, inbound.port, record)];
    }
  }

  /** One VLESS inbound: its difference, and its new client list. */
  method DiffInbound(inbound: Inbound, clients: seq<DesiredClient>)
    returns (result: Inbound, removals: seq<Removal>, additions: seq<Addition>, removed: set<string>)
    requires IsVless(inbound)
    ensures result == SetClients(inbound, clients)
    ensures removals == RemovalsFrom(Existing(inbound), Desired(clients, inbound), inbound.tag)
    ensures additions == AdditionsFrom(Desired(clients, inbound), Existing(inbound), inbound)
    ensures removed == RemovedEmails(removals)
  {
    var existing, desired := Existing(inbound), Desired(clients, inbound);
    removals, removed := DiffExisting(existing, desired, inbound.tag);
    additions := DiffDesired(desired, existing, inbound);
    result := inbound;
    if inbound.clients != DesiredRecords(clients, inbound) {
      result := inbound.(clients := DesiredRecords(clients, inbound));
    }
  }

  /** The loop over the inbounds. */
  method DiffConfig(inbounds: seq<Inbound>, clients: seq<DesiredClient>)
    returns (result: seq<Inbound>, removals: seq<Removal>, additions: seq<Addition>, removed: set<string>, changed: bool)
    ensures result == NewInbounds(inbounds, clients) && changed == (result != inbounds)
    ensures removals == Removals(inbounds, clients) && additions == Additions(inbounds, clients)
    ensures removed == RemovedEmails(removals)
  {
    hide RemovalsFrom, AdditionsFrom, RemovedEmails, Existing, Desired, Removals, Additions;
    result, removals, additions, removed, changed := [], [], [], {}, false;
    RemovedFew(Removal("", ""));
    NoInbounds(inbounds, clients);
    for k := 0 to |inbounds|
      invariant result == NewInbounds(inbounds[..k], clients) && changed == (result != inbounds[..k])
      invariant removals + Removals(inbounds[k..], clients) == Removals(inbounds, clients)
      invariant additions + Additions(inbounds[k..], clients) == Additions(inbounds, clients)
      invariant removed == RemovedEmails(removals)
    {
      NextInbound(inbounds, clients, k);
      var inbound := inbounds[k];
      if IsVless(inbound) {
        var next, rs, adds, gone := DiffInbound(inbound, clients);
        RemovedConcat(removals, rs);
        removals, additions, removed := removals + rs, additions + adds, removed + gone;
        changed := changed || next != inbound;
        inbound := next;
      }
      result := result + [inbound];
    }
    assert inbounds[..|inbounds|] == inbounds;
  }

  lemma NextInbound(inbounds: seq<Inbound>, clients: seq<DesiredClient>, k: nat)
    requires k < |inbounds|
    ensures NewInbounds(inbounds[..k + 1], clients) ==
            NewInbounds(inbounds[..k], clients) + [SetClients(inbounds[k], clients)]
    ensures inbounds[..k + 1] == inbounds[..k] + [inbounds[k]]
    ensures var i := inbounds[k];
            && Removals(inbounds[k..], clients) ==
               (if IsVless(i) then RemovalsFrom(Existing(i), Desired(clients, i), i.tag) else [])
               + Removals(inbounds[k + 1..], clients)
            && Additions(inbounds[k..], clients) ==
               (if IsVless(i) then AdditionsFrom(Desired(clients, i), Existing(i), i) else [])
               + Additions(inbounds[k + 1..], clients)
  {
    assert inbounds[k..][1..] == inbounds[k + 1..];
  }

  lemma NoInbounds(inbounds: seq<Inbound>, clients: seq<DesiredClient>)
    ensures NewInbounds(inbounds[..0], clients) == []
    ensures Removals(inbounds[|inbounds|..], clients) == [] && Additions(inbounds[|inbounds|..], clients) == []
  {
  }

  /** Everything `reconcile_snapshot` reads and computes before its first write. */
  method ComputePlan(base: Base, snapshot: Snapshot, nowMs: nat) returns (r: Result<Plan, CascadeError>)
    requires HaveExits(DesiredRoutes(snapshot.items))
    ensures r == MakePlan(base, snapshot, nowMs)
  {
    var clients, overrides, routes := DesiredParts(snapshot, nowMs);
    var emails := ClientEmails(clients);
    var effective := base.journal - emails;
    var dict := new ConfigDict(base.disk);
    var cascade := dict.ApplyCascadeRoutes(routes);
    if cascade.Err? {
      return Err(cascade.error);
    }
    var inbounds, removals, additions, removed, clientsChanged := DiffConfig(base.disk.inbounds, clients);
    ApplyKeepsInbounds(base.disk, routes, base.disk.inbounds);
    var config := dict.View().(inbounds := inbounds);
    var configChanged := cascade.value || clientsChanged;
    var overrideChanged := base.overrides != overrides;
    var stateChanged :=
      base.applied.generation != snapshot.generation
      || base.applied.digest != Some(snapshot.digest)
      || base.applied.items != snapshot.items;
    r := Ok(Plan(
              base, snapshot, nowMs, config, effective + (removed - emails), overrides, removals, additions,
              cascade.value, configChanged, overrideChanged,
              configChanged || overrideChanged || stateChanged || effective != {} || effective != base.journal));
  }

  /** `_configured_emails`: one pass over every VLESS inbound's records. */
  function RecordEmails(records: seq<ClientRecord>): (r: set<string>)
    ensures forall e :: e in r <==> exists c :: c in records && Truthy(c.email) && c.email.value == e
  {
    set c | c in records && Truthy(c.email) :: c.email.value
  }

  function ConfiguredIn(inbounds: seq<Inbound>): (r: set<string>)
    ensures forall e :: e in r <==> exists i :: i in inbounds && IsVless(i) && e in RecordEmails(i.clients)
  {
    if inbounds == [] then {}
    else
      assert inbounds == [inbounds[0]] + inbounds[1..];
      (if IsVless(inbounds[0]) then RecordEmails(inbounds[0].clients) else {}) + ConfiguredIn(inbounds[1..])
  }

  function ConfiguredEmails(config: Config): (r: set<string>)
    ensures r == Emails(config)
  {
    ConfiguredIn(config.inbounds)
  }

  // --- acting on it ----------------------------------------------------------------------------

  datatype ReconcileResult = ReconcileResult(success: bool, changed: bool, observed: bool, added: nat, removed: nat)

  datatype Outcome = Raised | Finished(result: ReconcileResult)

  /** A process that has not started yet: nobody is signed in. */
  ghost predicate Fresh(n: Node) {
    n.pc == Down && n.auth == map[] && n.sessions == {} && WellFormedDisk(n.disk)
  }

  /** A sequence of machine steps from a fresh start. */
  ghost predicate Linked(states: seq<Node>, steps: seq<Step>) {
    && |states| == |steps| + 1 && Fresh(states[0])
    && (forall k :: 0 <= k < |steps| ==>
          && Do(states[k], steps[k]) == Some(states[k + 1])
          && (steps[k].Begin? ==> WellFormedItems(steps[k].snapshot.items)))
  }

  class NodeAgent {
    const settings: Settings
    // files
    var disk: Config
    var journal: set<string>
    var applied: AppliedState
    var savedOverrides: map<nat, nat>
    // memory
    var auth: map<string, string>
    var overrides: map<nat, nat>
    // Xray and Hysteria2
    var live: Live
    var section: Config
    var sessions: set<string>
    // where the control task is, and the log of what happened
    ghost var pc: Pc
    ghost var matched: bool
    ghost var kicked: set<string>
    ghost var states: seq<Node>
    ghost var steps: seq<Step>

    ghost function View(): Node
      reads this
    {
      Node(settings, disk, journal, applied, savedOverrides, auth, overrides, live, section, sessions, pc, matched, kicked)
    }

    ghost predicate Logged()
      reads this
    {
      Linked(states, steps) && states[|steps|] == View() && Inv(View())
    }

    twostate predicate Continues()
      reads this
    {
      old(states) <= states && old(steps) <= steps
    }

    constructor (settings: Settings, disk: Config, journal: set<string>, applied: AppliedState, saved: map<nat, nat>,
                 running: Live, loaded: Config)
      requires WellFormedDisk(disk)
      ensures Logged() && steps == []
      ensures View() == Node(settings, disk, journal, applied, saved, map[], map[], running, loaded, {}, Down, false, {})
    {
      this.settings, this.disk, this.journal, this.applied := settings, disk, journal, applied;
      this.savedOverrides, this.auth, this.overrides := saved, map[], map[];
      this.live, this.section, this.sessions := running, loaded, {};
      this.pc, this.matched, this.kicked := Down, false, {};
      this.states := [Node(settings, disk, journal, applied, saved, map[], map[], running, loaded, {}, Down, false, {})];
      this.steps := [];
    }

    ghost method Log(step: Step)
      requires Linked(states, steps) && Inv(states[|steps|]) && Do(states[|steps|], step) == Some(View())
      requires step.Begin? ==> WellFormedItems(step.snapshot.items)
      modifies this`states, this`steps
      ensures Logged() && Continues() && steps == old(steps) + [step]
    {
      hide Do, Inv;
      InvStep(states[|steps|], step);
      states, steps := states + [View()], steps + [step];
    }

    // --- what happens around the agent ------------------------------------------------------------

    /** One thing Hysteria2 users or Xray may do by themselves. */
    method Event()
      requires Logged()
      modifies this`sessions, this`live, this`section, this`states, this`steps
      ensures Logged() && Continues()
    {
      hide Load, Inv, Linked, Do;
      ghost var n := View();
      var choice: nat, secret: string := *, *;
      if choice == 0 {
        Restarts(n);
        live, section := Load(disk.inbounds), Section(disk);
        Log(XrayRestart);
      } else if choice == 1 {
        SignsOff(n, secret);
        sessions := sessions - {secret};
        Log(Disconnect(secret));
      } else if settings.hy2 && secret in auth {
        SignsIn(n, secret);
        sessions := sessions + {auth[secret]};
        Log(Connect(secret));
      }
    }

    /** While the agent awaits, any number of them. */
    method Await()
      requires Logged()
      modifies this`sessions, this`live, this`section, this`states, this`steps
      ensures Logged() && Continues()
    {
      hide Inv, Linked;
      var events: nat := *;
      while events > 0
        invariant Logged() && Continues()
      {
        Event();
        events := events - 1;
      }
    }

    /** An exception leaves the reconciliation with whatever was written so far. */
    method Raise()
      requires Logged() && CanRaise(pc)
      modifies this`pc, this`states, this`steps
      ensures Logged() && Continues() && pc == Idle
    {
      hide Inv, Linked, DoBooting, DoPlanning, DoLive, DoRevoking, DoCommitting;
      pc := Idle;
      Log(Abort);
    }

    /** A branch the source does not take: nothing but the position moves. */
    ghost method SkipTo(p: Plan, step: Step, next: Pc)
      requires Logged()
      requires || (step == SkipSave && pc == Journaled(p) && !p.configChanged && next == StartCalls(settings, p))
               || (step == SkipRetry && pc == Settled(p) && p.pending == {} && next == Revoked(p))
               || (step == SkipOverrides && pc == Revoked(p) && !p.overrideChanged && next == OverridesSet(p))
      modifies this`pc, this`states, this`steps
      ensures Logged() && Continues() && pc == next
    {
      hide Inv, Linked, MakePlan;
      pc := next;
      Log(step);
    }

    // --- the journal, the config, the auth map ------------------------------------------------------

    method WriteJournal(p: Plan)
      requires Logged() && pc == Planned(p)
      modifies this`journal, this`pc, this`states, this`steps
      ensures Logged() && Continues() && pc == Journaled(p) && journal == p.pending
    {
      hide Inv, Linked, MakePlan;
      if p.pending != journal {
        journal := p.pending;
      }
      pc := Journaled(p);
      Log(Step.WriteJournal);
    }

    method SaveConfig(p: Plan)
      requires Logged() && pc == Journaled(p) && p.configChanged
      modifies this`disk, this`pc, this`states, this`steps
      ensures Logged() && Continues() && pc == Saved(p) && disk == p.config
    {
      hide Inv, Linked, MakePlan;
      disk := p.config;
      pc := Saved(p);
      Log(Step.SaveConfig);
    }

    method Refresh(p: Plan)
      requires Logged() && pc == Saved(p)
      modifies this`auth, this`pc, this`states, this`steps
      ensures Logged() && Continues() && pc == StartCalls(settings, p) && auth == AuthOf(p.config.inbounds)
    {
      hide Inv, Linked, MakePlan;
      auth := RefreshFromConfig(p.config);
      pc := StartCalls(settings, p);
      Log(Step.Refresh);
    }

    /** The journal goes first, then the config; the auth map follows the config at once. Any of
        the writes may fail. */
    method SaveConfigAndRefresh(p: Plan) returns (raised: bool)
      requires Logged() && pc == Planned(p)
      modifies this
      ensures Logged() && Continues()
      ensures pc == if raised then Idle else StartCalls(settings, p)
    {
      hide Logged, MakePlan, StartCalls;
      raised := *;
      if raised {
        Raise();
        return;
      }
      WriteJournal(p);
      if p.configChanged {
        Await();
        raised := *;
        if raised {
          Raise();
          return;
        }
        SaveConfig(p);
        Await();
        Refresh(p);
      } else {
        SkipTo(p, SkipSave, StartCalls(settings, p));
      }
    }

    // --- the running Xray ---------------------------------------------------------------------------

    /** `xray api rmu` and `adu`: a failed call may or may not have changed anything. */
    method Call(p: Plan, i: nat, j: nat, ok: bool) returns (good: bool)
      requires Logged() && pc == Calling(p, i, j, ok)
      requires i < |p.removals| || j < |p.additions|
      modifies this`live, this`section, this`pc, this`states, this`steps
      ensures Logged() && Continues()
      ensures pc == if i < |p.removals| then Calling(p, i + 1, j, ok && good) else Calling(p, i, j + 1, ok && good)
    {
      hide Inv, Linked, MakePlan, DoOutside, DoBooting, DoPlanning, DoRevoking, DoCommitting;
      var effect: Live := *;
      good := *;
      if i < |p.removals| {
        live := if good then RemoveUser(live, p.removals[i]) else effect;
        pc := Calling(p, i + 1, j, ok && good);
      } else {
        var a := p.additions[j];
        // A stub without tag or port cannot be built.
        good := good && Truthy(a.tag) && a.port.GetOr(0) != 0;
        live := if good then AddUser(live, a) else effect;
        pc := Calling(p, i, j + 1, ok && good);
      }
      Log(Step.Call(good, live));
    }

    /** Small deltas go through the API call by call; otherwise, or after a failed call, Xray is
        reloaded and must answer again. */
    method UpdateLiveUsers(p: Plan) returns (raised: bool)
      requires Logged() && pc == StartCalls(settings, p)
      modifies this`live, this`section, this`sessions, this`matched, this`pc, this`states, this`steps
      ensures Logged() && Continues()
      ensures pc == if raised then Idle else Settled(p)
    {
      hide Logged, MakePlan;
      var limit := if settings.liveDeltaLimit < 0 then 0 else settings.liveDeltaLimit;
      var ok := !p.cascadeChanged && |p.removals| + |p.additions| <= limit;
      if ok {
        for i := 0 to |p.removals|
          invariant Logged() && Continues() && pc == Calling(p, i, 0, ok)
        {
          Await();
          var good := Call(p, i, 0, ok);
          ok := ok && good;
        }
        for j := 0 to |p.additions|
          invariant Logged() && Continues() && pc == Calling(p, |p.removals|, j, ok)
        {
          Await();
          var good := Call(p, |p.removals|, j, ok);
          ok := ok && good;
        }
      }
      Await();
      raised := Reload(p, ok);
    }

    method Reload(p: Plan, ok: bool) returns (raised: bool)
      requires Logged() && pc == Calling(p, |p.removals|, |p.additions|, ok)
      modifies this`live, this`section, this`matched, this`pc, this`states, this`steps
      ensures Logged() && Continues()
      ensures pc == if raised then Idle else Settled(p)
    {
      hide Inv, Linked, Do, Load;
      ghost var n := View();
      raised := false;
      if ok {
        CallsEnd(n, p);
        pc := Settled(p);
        Log(CallsDone);
      } else {
        var ready: bool, replaced: bool, effect: Live, loaded: Config := *, *, *, *;
        if ready && replaced {
          effect, loaded := Load(disk.inbounds), Section(disk);
        }
        ReloadEnds(n, p, ready, replaced, effect, loaded);
        live, section, raised := effect, loaded, !ready;
        if ready {
          matched := replaced;
          pc := Settled(p);
          Log(Step.Reload(true, replaced, effect, loaded));
        } else {
          pc := Idle;
          Log(Step.Reload(false, replaced, effect, loaded));
        }
      }
    }

    // --- revocations ----------------------------------------------------------------------------------

    method RetryRefresh(p: Plan)
      requires Logged() && pc == Settled(p) && p.pending != {}
      modifies this`auth, this`pc, this`states, this`steps
      ensures Logged() && Continues() && pc == Retrying(p)
    {
      hide Inv, Linked, MakePlan, DoOutside, DoBooting, DoPlanning, DoLive, DoCommitting;
      auth := RefreshFromConfig(p.config);
      pc := Retrying(p);
      Log(Step.RetryRefresh);
    }

    /** Closes the live sessions of everyone pending and no longer configured. */
    method Kick(p: Plan)
      requires Logged() && pc == Retrying(p)
      modifies this`sessions, this`kicked, this`pc, this`states, this`steps
      ensures Logged() && Continues() && pc == Kicked(p)
    {
      hide Inv, Linked, Do, Emails;
      ghost var n := View();
      ClosesSessions(n, p);
      kicked := n.SafeToKick();
      var safe := journal - ConfiguredEmails(disk);
      if settings.hy2 {
        sessions := sessions - safe;
      }
      pc := Kicked(p);
      Log(Step.Kick);
    }

    method ClearJournal(p: Plan)
      requires Logged() && pc == Kicked(p)
      modifies this`journal, this`pc, this`states, this`steps
      ensures Logged() && Continues() && journal == {} && pc == Revoked(p)
    {
      hide Inv, Linked, MakePlan, DoOutside, DoBooting, DoPlanning, DoLive, DoCommitting;
      RetryAlwaysClears(View());
      var safe := journal - ConfiguredEmails(disk);
      journal := journal - safe;
      pc := Revoked(p);
      Log(Step.ClearJournal);
    }

    /** `retry_pending_revocations` inside a reconciliation. */
    method RetryPending(p: Plan) returns (raised: bool)
      requires Logged() && pc == Settled(p)
      modifies this`auth, this`journal, this`live, this`section, this`sessions, this`kicked, this`pc, this`states, this`steps
      ensures Logged() && Continues()
      ensures pc == if raised then Idle else Revoked(p)
    {
      hide Logged, MakePlan, StartCalls;
      raised := false;
      if p.pending == {} {
        SkipTo(p, SkipRetry, Revoked(p));
        return;
      }
      RetryRefresh(p);
      Await();
      raised := *;
      if raised {
        Raise();
        return;
      }
      Kick(p);
      Await();
      raised := *;
      if raised {
        Raise();
        return;
      }
      ClearJournal(p);
    }

    // --- overrides and the applied state ------------------------------------------------------------------

    method SaveOverrides(p: Plan)
      requires Logged() && pc == Revoked(p) && p.overrideChanged
      modifies this`savedOverrides, this`pc, this`states, this`steps
      ensures Logged() && Continues() && pc == OverridesSaved(p)
    {
      hide Inv, Linked, MakePlan, DoOutside, DoBooting, DoPlanning, DoLive, DoRevoking;
      savedOverrides := p.overrides;
      pc := OverridesSaved(p);
      Log(Step.SaveOverrides);
    }

    method SwapOverrides(p: Plan)
      requires Logged() && pc == OverridesSaved(p)
      modifies this`overrides, this`pc, this`states, this`steps
      ensures Logged() && Continues() && pc == OverridesSet(p)
    {
      hide Inv, Linked, MakePlan, DoOutside, DoBooting, DoPlanning, DoLive, DoRevoking;
      overrides := p.overrides;
      pc := OverridesSet(p);
      Log(Step.SwapOverrides);
    }

    method SaveApplied(p: Plan)
      requires Logged() && pc == OverridesSet(p)
      modifies this`applied, this`pc, this`states, this`steps
      ensures Logged() && Continues() && pc == Done(p)
    {
      hide Inv, Linked, MakePlan, DoOutside, DoBooting, DoPlanning, DoLive, DoRevoking;
      applied := AppliedOf(p.snapshot);
      pc := Done(p);
      Log(Step.SaveApplied);
    }

    method Commit(p: Plan) returns (raised: bool)
      requires Logged() && pc == Revoked(p)
      modifies this`savedOverrides, this`overrides, this`applied, this`pc, this`states, this`steps
      ensures Logged() && Continues()
      ensures pc == if raised then Idle else Done(p)
    {
      hide Logged, MakePlan, StartCalls;
      raised := *;
      if raised {
        Raise();
        return;
      }
      if p.overrideChanged {
        SaveOverrides(p);
        SwapOverrides(p);
      } else {
        SkipTo(p, SkipOverrides, OverridesSet(p));
      }
      raised := *;
      if raised {
        Raise();
        return;
      }
      SaveApplied(p);
    }

    // --- the entry points ---------------------------------------------------------------------------------

    method Begin(snapshot: Snapshot, nowMs: nat, p: Plan)
      requires Logged() && pc == Idle && WellFormedItems(snapshot.items)
      requires MakePlan(View().Base(), snapshot, nowMs) == Ok(p)
      modifies this`pc, this`matched, this`kicked, this`states, this`steps
      ensures Logged() && Continues() && pc == if p.changed then Planned(p) else Done(p)
    {
      hide Inv, Linked, MakePlan, DoOutside, DoBooting, DoLive, DoRevoking, DoCommitting;
      matched := InStep(View());
      kicked := {};
      pc := if p.changed then Planned(p) else Done(p);
      Log(Step.Begin(snapshot, nowMs));
    }

    /** The writes and calls behind a plan that changes something. */
    method CarryOut(p: Plan) returns (raised: bool)
      requires Logged() && pc == Planned(p)
      modifies this
      ensures Logged() && Continues()
      ensures pc == if raised then Idle else Done(p)
    {
      hide Logged, MakePlan, StartCalls;
      raised := SaveConfigAndRefresh(p);
      if raised {
        return;
      }
      raised := UpdateLiveUsers(p);
      if raised {
        return;
      }
      raised := RetryPending(p);
      if raised {
        return;
      }
      raised := Commit(p);
    }

    method ReconcileSnapshot(snapshot: Snapshot, observe: bool, nowMs: nat) returns (outcome: Outcome)
      requires Logged() && pc == Idle && WellFormedItems(snapshot.items)
      modifies this
      ensures Logged() && Continues()
      ensures outcome.Raised? ==> pc == Idle
      ensures outcome.Finished? ==>
                var plan := MakePlan(old(View()).Base(), snapshot, nowMs);
                && plan.Ok? && outcome.result == ReconcileResult(true, plan.value.changed, observe, |plan.value.additions|, |plan.value.removals|)
                && (if observe then View() == old(View())
                    else pc == Done(plan.value) && View().Base() == plan.value.Outcome())
    {
      hide MakePlan, Linked;
      var base := Base.Base(disk, journal, overrides, applied);
      var plan := ComputePlan(base, snapshot, nowMs);
      if plan.Err? {
        return Raised;
      }
      var p := plan.value;
      outcome := Finished(ReconcileResult(true, p.changed, observe, |p.additions|, |p.removals|));
      if observe {
        return;
      }
      Begin(snapshot, nowMs, p);
      if p.changed {
        var raised := CarryOut(p);
        if raised {
          outcome := Raised;
        }
      }
    }

    /** A replay of the applied snapshot, unless a revocation is pending or nothing was applied. */
    method ReconcileCachedState(apply: bool, nowMs: nat) returns (outcome: Option<Outcome>)
      requires Logged() && pc == Idle && WellFormedItems(applied.items)
      modifies this
      ensures Logged() && Continues()
      ensures !apply || old(journal) != {} ==> outcome.None?
      ensures outcome.None? ==> View() == old(View())
      ensures outcome.Some? && outcome.value.Finished? ==>
                pc.Done? && View().Base() == CachedRun(old(View()).Base(), nowMs)
    {
      hide MakePlan, Linked, Inv;
      outcome := None;
      if apply && journal == {} && applied.generation >= 1 && applied.digest.Some? {
        var r := ReconcileSnapshot(CachedSnapshot(applied), false, nowMs);
        outcome := Some(r);
      }
    }

    method Boot() returns (pending: bool)
      requires Logged() && pc == Down
      modifies this`auth, this`overrides, this`pc, this`states, this`steps
      ensures Logged() && Continues() && pending == (journal != {})
      ensures pc == if pending then Booted else Idle
    {
      hide Inv, Linked, AuthOf, Do;
      ghost var n := View();
      Boots(n);
      overrides := savedOverrides;
      auth := RefreshFromConfig(disk);
      pc := Booted;
      Log(Step.Boot);
      pending := journal != {};
      if !pending {
        pc := Idle;
        Log(BootDone);
      }
    }

    /** Startup: the auth map from the config on disk, then the journal against it. */
    method Startup()
      requires Logged() && pc == Down
      modifies this
      ensures Logged() && Continues() && pc == Idle
      ensures disk == old(disk) && applied == old(applied) && savedOverrides == old(savedOverrides)
      ensures journal == old(journal) || journal == old(journal) * Emails(disk)
    {
      hide Logged, MakePlan;
      var pending := Boot();
      if pending {
        var ok: bool := *;
        var done := BootKick(ok);
        if done {
          BootClear();
        }
      }
    }

    method BootKick(ok: bool) returns (done: bool)
      requires Logged() && pc == Booted && journal != {}
      modifies this`auth, this`sessions, this`pc, this`states, this`steps
      ensures Logged() && Continues()
      ensures pc == if done then BootKicked(journal - Emails(disk)) else Idle
    {
      hide Logged;
      RefreshAgain();
      var safe := journal - ConfiguredEmails(disk);
      done := safe == {} || ok;
      if done {
        CloseAtBoot(safe, ok);
      } else {
        LeaveAtBoot();
      }
    }

    /** The auth map is rebuilt from the config it was just built from. */
    method RefreshAgain()
      requires Logged() && pc == Booted
      modifies this`auth
      ensures Logged() && View() == old(View())
    {
      hide Linked, Do, Inv, AuthOf;
      AuthIsDisk(View());
      auth := RefreshFromConfig(disk);
    }

    method CloseAtBoot(safe: set<string>, ok: bool)
      requires Logged() && pc == Booted && journal != {} && safe == journal - Emails(disk) && (safe == {} || ok)
      modifies this`sessions, this`pc, this`states, this`steps
      ensures Logged() && Continues() && pc == BootKicked(journal - Emails(disk))
    {
      hide Linked, Do, Inv, Emails, AuthOf;
      AuthIsDisk(View());
      KicksAtBoot(View(), ok);
      if settings.hy2 {
        sessions := sessions - safe;
      }
      pc := BootKicked(safe);
      Log(Step.BootKick(ok));
    }

    method LeaveAtBoot()
      requires Logged() && pc == Booted && journal != {} && journal - Emails(disk) != {}
      modifies this`pc, this`states, this`steps
      ensures Logged() && Continues() && pc == Idle
    {
      hide Linked, Do, Inv, Emails, AuthOf;
      KicksAtBoot(View(), false);
      pc := Idle;
      Log(Step.BootKick(false));
    }

    method BootClear()
      requires Logged() && pc == BootKicked(journal - Emails(disk))
      modifies this`journal, this`pc, this`states, this`steps
      ensures Logged() && Continues() && pc == Idle && journal == old(journal) * Emails(disk)
    {
      hide Inv, Linked, MakePlan, DoOutside, DoPlanning, DoLive, DoRevoking, DoCommitting;
      journal := journal - (journal - ConfiguredEmails(disk));
      pc := Idle;
      Log(Step.BootClear);
    }
  }

  lemma AuthIsDisk(n: Node)
    requires Inv(n) && n.pc == Booted
    ensures n.auth == AuthOf(n.disk.inbounds)
  {
    hide WellFormedDisk, AuthOf;
  }

  // --- the object in its run ------------------------------------------------------------------------

  /** What an object has done is a run of the machine, if its first config gave every VLESS inbound a
      tag, and every client on it an id and an email, of its own. */
  lemma LogIsRun(agent: NodeAgent)
    requires agent.Logged() && LiveReady(agent.states[0].disk.inbounds)
    ensures Run(agent.states, agent.steps) && agent.states[|agent.steps|] == agent.View()
  {
    hide Do, Inv, WellFormedItems, LiveReady;
  }

  /** So the guarantees over runs are guarantees about the object: whenever a reconciliation has
      just finished, Xray runs the users of the config on disk, and at every moment the live sessions
      are on disk or in the journal, exactly if every journal write so far spared the sessions. */
  lemma AgentIsSafe(agent: NodeAgent)
    requires agent.Logged() && LiveReady(agent.states[0].disk.inbounds)
    ensures agent.pc.Done? && agent.matched ==>
              agent.live == Load(agent.disk.inbounds) && agent.section == Section(agent.disk)
    ensures Spared(agent.states, agent.steps) ==> agent.sessions <= Emails(agent.disk) + agent.journal
    ensures (forall n :: n in agent.states ==> Guarded(n)) <==> Spared(agent.states, agent.steps)
  {
    hide Do, Inv, WellFormedItems, LiveReady, Spares, Guarded;
    LogIsRun(agent);
    var states, steps := agent.states, agent.steps;
    if agent.pc.Done? && agent.matched {
      LiveUsersMatchDisk(states, steps, |steps|);
    }
    SessionsGuardedExactly(states, steps);
    assert Guarded(agent.View()) <==> agent.sessions <= Emails(agent.disk) + agent.journal by {
      GuardedView(agent);
    }
    if forall n :: n in states ==> Guarded(n) {
      assert forall k :: 0 <= k <= |steps| ==> Guarded(states[k]);
    }
    if Spared(states, steps) {
      assert Guarded(states[|steps|]);
    }
  }

  lemma GuardedView(agent: NodeAgent)
    ensures Guarded(agent.View()) <==> agent.sessions <= Emails(agent.disk) + agent.journal
  {
  }
}
