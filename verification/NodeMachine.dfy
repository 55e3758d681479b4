/** A node as a state machine: every durable write, memory change and outside call of a
    reconciliation is one step, Hysteria2 users come and go between steps, Xray may restart by
    itself, and the agent may crash anywhere. */
module NodeMachine {
  import opened Wrappers
  import opened Items
  import opened XrayConfig
  import opened Cascade
  import opened Reconcile
  import opened LiveDelta
  import opened Hysteria

  datatype Settings = Settings(hy2: bool, liveDeltaLimit: int)

  /** Where the agent's control task stands. */
  datatype Pc =
    | Down
    | Booted
    | BootKicked(safe: set<string>)
    | Idle
    | Planned(plan: Plan)
    | Journaled(plan: Plan)
    | Saved(plan: Plan)
    | Calling(plan: Plan, removed: nat, added: nat, ok: bool)
    | Settled(plan: Plan)
    | Retrying(plan: Plan)
    | Kicked(plan: Plan)
    | Revoked(plan: Plan)
    | OverridesSaved(plan: Plan)
    | OverridesSet(plan: Plan)
    | Done(plan: Plan)

  datatype Node = Node(
    settings: Settings,
    // on disk
    disk: Config, journal: set<string>, applied: AppliedState, savedOverrides: map<nat, nat>,
    // agent memory
    auth: map<string, string>, overrides: map<nat, nat>,
    // Xray (its users, and the rest of the config it last loaded) and Hysteria2
    live: Live, section: Config, sessions: set<string>,
    pc: Pc,
    // history: did Xray match the disk at the start, or did a reload replace it since;
    // who was kicked since
    matched: bool, kicked: set<string>)
  {
    function Base(): Base {
      Reconcile.Base(disk, journal, overrides, applied)
    }

    ghost function SafeToKick(): set<string> {
      journal - Emails(disk)
    }
  }

  datatype Step =
    | Crash
    | Boot
    | BootKick(ok: bool)
    | BootClear
    | Begin(snapshot: Snapshot, nowMs: nat)
    | WriteJournal
    | SaveConfig
    | Refresh
    | Call(ok: bool, effect: Live)
    | CallsDone
    | Reload(ready: bool, replaced: bool, effect: Live, loaded: Config)
    | RetryRefresh
    | Kick
    | ClearJournal
    | SaveOverrides
    | SwapOverrides
    | SaveApplied
    | BootDone
    | SkipSave
    | SkipRetry
    | SkipOverrides
    | Abort
    | Finish
    | Connect(uuid: string)
    | Disconnect(email: string)
    | XrayRestart

  /** What Xray reads from a config besides its users: routing, outbounds, balancers, observatory. */
  function Section(config: Config): Config {
    config.(inbounds := [])
  }

  /** Xray runs what the disk says. */
  ghost predicate InStep(n: Node) {
    n.live == Load(n.disk.inbounds) && n.section == Section(n.disk)
  }

  /** The live API is used for small deltas without a cascade change. */
  function StartCalls(settings: Settings, p: Plan): Pc {
    var size := |p.removals| + |p.additions|;
    var limit := if settings.liveDeltaLimit < 0 then 0 else settings.liveDeltaLimit;
    if !p.cascadeChanged && size <= limit then Calling(p, 0, 0, true)
    else Calling(p, |p.removals|, |p.additions|, false)
  }

  ghost function Close(n: Node, emails: set<string>): set<string> {
    if n.settings.hy2 then n.sessions - emails else n.sessions
  }

  datatype StepKind = Outside | Booting | Planning | Live | Revoking | Committing

  function KindOf(step: Step): StepKind {
    match step
    case Crash => Outside
    case Abort => Outside
    case Finish => Outside
    case Connect(_) => Outside
    case Disconnect(_) => Outside
    case XrayRestart => Outside
    case Boot => Booting
    case BootKick(_) => Booting
    case BootClear => Booting
    case BootDone => Booting
    case Begin(_, _) => Planning
    case WriteJournal => Planning
    case SaveConfig => Planning
    case Refresh => Planning
    case SkipSave => Planning
    case Call(_, _) => Live
    case CallsDone => Live
    case Reload(_, _, _, _) => Live
    case RetryRefresh => Revoking
    case Kick => Revoking
    case ClearJournal => Revoking
    case SkipRetry => Revoking
    case SaveOverrides => Committing
    case SwapOverrides => Committing
    case SaveApplied => Committing
    case SkipOverrides => Committing
  }

  /** Crashes, exceptions, and what Hysteria2 users and Xray do by themselves. */
  ghost function DoOutside(n: Node, step: Step): Option<Node> {
    match step
    case Crash => Some(n.(auth := map[], overrides := map[], pc := Down))
    case Abort =>
      if CanRaise(n.pc) then Some(n.(pc := Idle)) else None
    case Finish =>
      if n.pc.Done? then Some(n.(pc := Idle)) else None
    case Connect(uuid) =>
      if n.settings.hy2 && Authenticate(n.auth, uuid).Some?
      then Some(n.(sessions := n.sessions + {n.auth[uuid]})) else None
    case Disconnect(email) => Some(n.(sessions := n.sessions - {email}))
    case XrayRestart => Some(n.(live := Load(n.disk.inbounds), section := Section(n.disk)))
    case _ => None
  }

  /** Startup: rebuild the auth map, retry the journal against the config on disk. */
  ghost function DoBooting(n: Node, step: Step): Option<Node> {
    match step
    case Boot =>
      if n.pc != Down then None
      else Some(n.(auth := AuthOf(n.disk.inbounds), overrides := n.savedOverrides, pc := Booted))
    case BootKick(ok) =>
      if n.pc != Booted || n.journal == {} then None
      else if n.SafeToKick() != {} && !ok then Some(n.(pc := Idle))
      else Some(n.(auth := AuthOf(n.disk.inbounds), sessions := Close(n, n.SafeToKick()), pc := BootKicked(n.SafeToKick())))
    case BootClear =>
      if !n.pc.BootKicked? then None else Some(n.(journal := n.journal - n.pc.safe, pc := Idle))
    case BootDone =>
      if n.pc.Booted? && n.journal == {} then Some(n.(pc := Idle)) else None
    case _ => None
  }

  /** The plan, the journal write, the config write and the new auth map. */
  ghost function DoPlanning(n: Node, step: Step): Option<Node> {
    match step
    case Begin(snapshot, nowMs) =>
      if n.pc != Idle then None
      else
        (match MakePlan(n.Base(), snapshot, nowMs)
         case Err(_) => Some(n)
         case Ok(p) =>
           Some(n.(pc := if p.changed then Planned(p) else Done(p),
                   matched := InStep(n), kicked := {})))
    case WriteJournal =>
      if !n.pc.Planned? then None else Some(n.(journal := n.pc.plan.pending, pc := Journaled(n.pc.plan)))
    case SaveConfig =>
      if !n.pc.Journaled? || !n.pc.plan.configChanged then None
      else Some(n.(disk := n.pc.plan.config, pc := Saved(n.pc.plan)))
    case Refresh =>
      if !n.pc.Saved? then None
      else Some(n.(auth := AuthOf(n.pc.plan.config.inbounds), pc := StartCalls(n.settings, n.pc.plan)))
    case SkipSave =>
      if n.pc.Journaled? && !n.pc.plan.configChanged then Some(n.(pc := StartCalls(n.settings, n.pc.plan))) else None
    case _ => None
  }

  /** The calls to the running Xray, or one reload of it. */
  ghost function DoLive(n: Node, step: Step): Option<Node> {
    match step
    case Call(ok, effect) =>
      if !n.pc.Calling? then None
      else
        var p, i, j := n.pc.plan, n.pc.removed, n.pc.added;
        if i < |p.removals| then
          if ok && effect != RemoveUser(n.live, p.removals[i]) then None
          else Some(n.(live := effect, pc := Calling(p, i + 1, j, n.pc.ok && ok)))
        else if j < |p.additions| then
          if ok && effect != AddUser(n.live, p.additions[j]) then None
          else Some(n.(live := effect, pc := Calling(p, i, j + 1, n.pc.ok && ok)))
        else None
    case CallsDone =>
      if n.pc.Calling? && n.pc.ok && n.pc.removed >= |n.pc.plan.removals| && n.pc.added >= |n.pc.plan.additions|
      then Some(n.(pc := Settled(n.pc.plan)))
      else None
    case Reload(ready, replaced, effect, loaded) =>
      // The old process may outlive the signal and answer in place of a new one.
      if n.pc.Calling? && !n.pc.ok && n.pc.removed >= |n.pc.plan.removals| && n.pc.added >= |n.pc.plan.additions|
      then
        if ready then
          Some(n.(live := if replaced then Load(n.disk.inbounds) else effect,
                  section := if replaced then Section(n.disk) else loaded,
                  matched := replaced, pc := Settled(n.pc.plan)))
        else Some(n.(live := effect, section := loaded, pc := Idle))
      else None
    case _ => None
  }

  /** The retry inside a reconciliation: auth map first, then the kick, then the journal. */
  ghost function DoRevoking(n: Node, step: Step): Option<Node> {
    match step
    case RetryRefresh =>
      if !n.pc.Settled? || n.pc.plan.pending == {} then None
      else Some(n.(auth := AuthOf(n.pc.plan.config.inbounds), pc := Retrying(n.pc.plan)))
    case Kick =>
      if !n.pc.Retrying? then None
      else Some(n.(sessions := Close(n, n.SafeToKick()), kicked := n.SafeToKick(), pc := Kicked(n.pc.plan)))
    case ClearJournal =>
      if !n.pc.Kicked? then None
      else
        var remaining := n.journal - n.SafeToKick();
        Some(n.(journal := remaining, pc := if remaining == {} then Revoked(n.pc.plan) else Idle))
    case SkipRetry =>
      if n.pc.Settled? && n.pc.plan.pending == {} then Some(n.(pc := Revoked(n.pc.plan))) else None
    case _ => None
  }

  /** Overrides on disk and in memory, then the applied state. */
  ghost function DoCommitting(n: Node, step: Step): Option<Node> {
    match step
    case SaveOverrides =>
      if !n.pc.Revoked? || !n.pc.plan.overrideChanged then None
      else Some(n.(savedOverrides := n.pc.plan.overrides, pc := OverridesSaved(n.pc.plan)))
    case SwapOverrides =>
      if !n.pc.OverridesSaved? then None
      else Some(n.(overrides := n.pc.plan.overrides, pc := OverridesSet(n.pc.plan)))
    case SaveApplied =>
      if !n.pc.OverridesSet? then None
      else Some(n.(applied := AppliedOf(n.pc.plan.snapshot), pc := Done(n.pc.plan)))
    case SkipOverrides =>
      if n.pc.Revoked? && !n.pc.plan.overrideChanged then Some(n.(pc := OverridesSet(n.pc.plan))) else None
    case _ => None
  }

  /** One step, or None when it cannot be taken here. */
  ghost function Do(n: Node, step: Step): Option<Node> {
    match KindOf(step)
    case Outside => DoOutside(n, step)
    case Booting => DoBooting(n, step)
    case Planning => DoPlanning(n, step)
    case Live => DoLive(n, step)
    case Revoking => DoRevoking(n, step)
    case Committing => DoCommitting(n, step)
  }

  predicate HasPlan(pc: Pc) {
    !pc.Down? && !pc.Booted? && !pc.BootKicked? && !pc.Idle?
  }

  /** Between the plan and its last write. */
  predicate Working(pc: Pc) {
    HasPlan(pc) && !pc.Done?
  }

  /** Between two calls that cannot fail nothing can be raised. */
  predicate CanRaise(pc: Pc) {
    Working(pc) && !pc.Saved? && !pc.OverridesSaved?
  }

  // --- well-formed snapshots -----------------------------------------------------------------

  function ItemEmails(items: seq<Item>): seq<string> {
    if items == [] then []
    else
      (match items[0]
       case Client(_, email, _) => [email]
       case Service(_, _, _, _, email) => [email]
       case _ => []) + ItemEmails(items[1..])
  }

  predicate NoRepeats(s: seq<string>) {
    forall i, j :: 0 <= i < j < |s| ==> s[i] != s[j]
  }

  /** UUIDs and emails are present and unique, and every route has an exit. */
  predicate WellFormedItems(items: seq<Item>) {
    && NoRepeats(Uuids(items)) && "" !in Uuids(items)
    && NoRepeats(ItemEmails(items)) && "" !in ItemEmails(items)
    && HaveExits(DesiredRoutes(items))
  }

  lemma {:induction false} DesiredFrom(items: seq<Item>, nowMs: nat, c: DesiredClient)
    requires c in DesiredClients(items, nowMs)
    ensures c.uuid in Uuids(items) && c.email in ItemEmails(items)
  {
    if c in DesiredClients(items[1..], nowMs) {
      DesiredFrom(items[1..], nowMs, c);
    }
  }

  lemma {:induction false} DesiredDistinct(items: seq<Item>, nowMs: nat)
    requires NoRepeats(Uuids(items)) && "" !in Uuids(items)
    requires NoRepeats(ItemEmails(items)) && "" !in ItemEmails(items)
    ensures WellFormedClients(DesiredClients(items, nowMs)) && DistinctEmails(DesiredClients(items, nowMs))
  {
    if items != [] {
      DesiredHead(items, nowMs);
      hide DesiredClients, Uuids, ItemEmails, DesiredRoutes;
      var tail := items[1..];
      var us, es := Uuids(items), ItemEmails(items);
      var k := |us| - |Uuids(tail)|;
      assert us[k..] == Uuids(tail) && es[k..] == ItemEmails(tail);
      DesiredDistinct(tail, nowMs);
      forall c | c in DesiredClients(tail, nowMs) ensures c.uuid in us[k..] && c.email in es[k..] {
        DesiredFrom(tail, nowMs, c);
      }
    }
  }

  lemma DesiredHead(items: seq<Item>, nowMs: nat)
    requires items != []
    ensures var tail := items[1..];
            var us, es := Uuids(items), ItemEmails(items);
            var k := |us| - |Uuids(tail)|;
            && 0 <= k <= 1 && |es| == |ItemEmails(tail)| + k
            && us == us[..k] + Uuids(tail) && es == es[..k] + ItemEmails(tail)
            && (DesiredClients(items, nowMs) == DesiredClients(tail, nowMs)
                || (k == 1 && DesiredClients(items, nowMs) == [DesiredClient(us[0], es[0])] + DesiredClients(tail, nowMs)))
  {
  }

  // --- single steps ------------------------------------------------------------------------------

  lemma Boots(n: Node)
    requires n.pc == Down
    ensures var up := n.(auth := AuthOf(n.disk.inbounds), overrides := n.savedOverrides, pc := Booted);
            && Do(n, Boot) == Some(up)
            && (n.journal == {} ==> Do(up, BootDone) == Some(up.(pc := Idle)))
  {
    hide AuthOf;
  }

  lemma SignsIn(n: Node, uuid: string)
    requires n.settings.hy2 && uuid in n.auth
    ensures Do(n, Connect(uuid)) == Some(n.(sessions := n.sessions + {n.auth[uuid]}))
  {
  }

  lemma Restarts(n: Node)
    ensures Do(n, XrayRestart) == Some(n.(live := Load(n.disk.inbounds), section := Section(n.disk)))
  {
    hide Load;
  }

  lemma SignsOff(n: Node, email: string)
    ensures Do(n, Disconnect(email)) == Some(n.(sessions := n.sessions - {email}))
  {
  }

  lemma ReloadEnds(n: Node, p: Plan, ready: bool, replaced: bool, effect: Live, loaded: Config)
    requires n.pc == Calling(p, |p.removals|, |p.additions|, false)
    ensures Do(n, Reload(ready, replaced, effect, loaded)) ==
            Some(n.(live := if ready && replaced then Load(n.disk.inbounds) else effect,
                    section := if ready && replaced then Section(n.disk) else loaded,
                    matched := if ready then replaced else n.matched,
                    pc := if ready then Settled(p) else Idle))
  {
    hide Load;
  }

  lemma CallsEnd(n: Node, p: Plan)
    requires n.pc == Calling(p, |p.removals|, |p.additions|, true)
    ensures Do(n, CallsDone) == Some(n.(pc := Settled(p)))
  {
  }

  lemma ClosesSessions(n: Node, p: Plan)
    requires n.pc == Retrying(p)
    ensures Do(n, Kick) == Some(n.(sessions := Close(n, n.SafeToKick()), kicked := n.SafeToKick(), pc := Kicked(p)))
  {
    hide Emails;
  }

  lemma KicksAtBoot(n: Node, ok: bool)
    requires n.pc == Booted && n.journal != {}
    ensures Do(n, BootKick(ok)) ==
            if n.SafeToKick() != {} && !ok then Some(n.(pc := Idle))
            else Some(n.(auth := AuthOf(n.disk.inbounds), sessions := Close(n, n.SafeToKick()), pc := BootKicked(n.SafeToKick())))
  {
    hide AuthOf, Emails;
  }
}
