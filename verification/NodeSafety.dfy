/** What every reachable node state satisfies: the plan's position is consistent with the disk,
    no live Hysteria2 session escapes both the config and the journal, and the running Xray ends
    up with the users of the saved config. */
module NodeSafety {
  import opened Wrappers
  import opened Items
  import opened XrayConfig
  import opened Cascade
  import opened Reconcile
  import opened LiveDelta
  import opened Hysteria
  import opened NodeMachine

  ghost predicate PlanOk(p: Plan) {
    MakePlan(p.base, p.snapshot, p.nowMs) == Ok(p) && WellFormedDisk(p.base.disk) && WellFormedItems(p.snapshot.items)
  }

  /** Emails a plan takes access from: authorised on disk or pending before, not desired now. */
  ghost function Losing(p: Plan): set<string> {
    Emails(p.base.disk) + p.base.journal - p.DesiredEmails()
  }

  lemma PlanFacts(p: Plan)
    requires PlanOk(p)
    ensures p.config == NewConfig(p.base.disk, p.Clients(), DesiredRoutes(p.snapshot.items))
    ensures WellFormedDisk(p.config) && WellFormedClients(p.Clients()) && DistinctEmails(p.Clients())
    ensures Emails(p.config) == if HasVless(p.base.disk) then p.DesiredEmails() else {}
    ensures HasVless(p.config) == HasVless(p.base.disk)
    ensures !HasVless(p.base.disk) ==> Emails(p.base.disk) == {}
    ensures p.pending !! p.DesiredEmails() && Losing(p) <= p.pending
    ensures Emails(p.base.disk) <= Emails(p.config) + p.pending
    ensures !p.configChanged ==> p.config == p.base.disk
  {
    DesiredDistinct(p.snapshot.items, p.nowMs);
    NewDiskWellFormed(p.base.disk, p.Clients(), DesiredRoutes(p.snapshot.items));
    NewEmails(p.base.disk, p.Clients(), DesiredRoutes(p.snapshot.items));
    RemovalsCover(p.base.disk, p.Clients());
  }

  lemma PlanMade(base: Base, snapshot: Snapshot, nowMs: nat)
    requires MakePlan(base, snapshot, nowMs).Ok?
    ensures var p := MakePlan(base, snapshot, nowMs).value;
            && p.base == base && p.snapshot == snapshot && p.nowMs == nowMs
            && (!p.overrideChanged ==> p.overrides == base.overrides)
            && (!p.changed ==>
                  && base.journal == {} && p.overrides == base.overrides && p.config == base.disk
                  && base.applied.generation == snapshot.generation
                  && base.applied.digest == Some(snapshot.digest) && base.applied.items == snapshot.items)
  {
  }

  lemma PlanBasics(p: Plan)
    requires PlanOk(p)
    ensures WellFormedDisk(p.config)
    ensures !p.configChanged ==> p.config == p.base.disk
    ensures !p.overrideChanged ==> p.overrides == p.base.overrides
  {
    PlanFacts(p);
    PlanMade(p.base, p.snapshot, p.nowMs);
  }

  lemma PlanSets(p: Plan)
    requires PlanOk(p)
    ensures Losing(p) <= p.pending && Emails(p.config) !! p.pending
    ensures Emails(p.base.disk) <= Emails(p.config) + p.pending
    ensures !p.configChanged ==> p.config == p.base.disk
  {
    PlanFacts(p);
  }

  // --- consistency ------------------------------------------------------------------------------

  ghost predicate At(n: Node, disk: Config, journal: set<string>, p: Plan) {
    PlanOk(p) && p.changed && n.disk == disk && n.journal == journal && n.overrides == p.base.overrides && n.applied == p.base.applied
  }

  ghost predicate Phase(n: Node) {
    match n.pc
    case Planned(p) => At(n, p.base.disk, p.base.journal, p)
    case Journaled(p) => At(n, p.base.disk, p.pending, p)
    case Saved(p) => At(n, p.config, p.pending, p)
    case Calling(p, i, j, ok) =>
      At(n, p.config, p.pending, p) && i <= |p.removals| && j <= |p.additions| && (i < |p.removals| ==> j == 0)
    case Settled(p) => At(n, p.config, p.pending, p)
    case Retrying(p) => At(n, p.config, p.pending, p)
    case Kicked(p) => At(n, p.config, p.pending, p)
    case Revoked(p) => At(n, p.config, {}, p)
    case OverridesSaved(p) => At(n, p.config, {}, p) && n.savedOverrides == p.overrides
    case OverridesSet(p) => PlanOk(p) && p.changed && n.disk == p.config && n.journal == {} && n.overrides == p.overrides
    case Done(p) => PlanOk(p) && n.Base() == p.Outcome()
    case _ => true
  }

  ghost predicate Inv(n: Node) {
    && WellFormedDisk(n.disk)
    && Phase(n)
    && n.auth == (if n.pc.Down? then map[]
                  else if n.pc.Saved? then AuthOf(n.pc.plan.base.disk.inbounds) else AuthOf(n.disk.inbounds))
    && (!n.pc.Down? && !n.pc.OverridesSaved? ==> n.overrides == n.savedOverrides)
    && (!n.settings.hy2 ==> n.sessions == {})
  }

  lemma InvOutside(n: Node, step: Step)
    requires Inv(n) && DoOutside(n, step).Some?
    ensures Inv(DoOutside(n, step).value)
  {
    hide MakePlan, Emails, AuthOf, Load, WellFormedDisk;
    if HasPlan(n.pc) {
      PlanBasics(n.pc.plan);
    }
  }

  lemma InvBooting(n: Node, step: Step)
    requires Inv(n) && DoBooting(n, step).Some?
    ensures Inv(DoBooting(n, step).value)
  {
    hide MakePlan, Emails, AuthOf, Load, WellFormedDisk;
  }

  lemma InvPlanning(n: Node, step: Step)
    requires Inv(n) && DoPlanning(n, step).Some?
    requires step.Begin? ==> WellFormedItems(step.snapshot.items)
    ensures Inv(DoPlanning(n, step).value)
  {
    hide MakePlan, Emails, AuthOf, Load, WellFormedDisk;
    if HasPlan(n.pc) {
      PlanBasics(n.pc.plan);
    }
    if step.Begin? && MakePlan(n.Base(), step.snapshot, step.nowMs).Ok? {
      PlanMade(n.Base(), step.snapshot, step.nowMs);
    }
  }

  lemma InvLive(n: Node, step: Step)
    requires Inv(n) && DoLive(n, step).Some?
    ensures Inv(DoLive(n, step).value)
  {
    hide MakePlan, Emails, AuthOf, Load, WellFormedDisk;
    if HasPlan(n.pc) {
      PlanBasics(n.pc.plan);
    }
  }

  lemma InvRevoking(n: Node, step: Step)
    requires Inv(n) && DoRevoking(n, step).Some?
    ensures Inv(DoRevoking(n, step).value)
  {
    hide MakePlan, Emails, AuthOf, Load, WellFormedDisk;
    if HasPlan(n.pc) {
      PlanBasics(n.pc.plan);
    }
  }

  lemma InvCommitting(n: Node, step: Step)
    requires Inv(n) && DoCommitting(n, step).Some?
    ensures Inv(DoCommitting(n, step).value)
  {
    hide MakePlan, Emails, AuthOf, Load, WellFormedDisk;
    if HasPlan(n.pc) {
      PlanBasics(n.pc.plan);
    }
  }

  lemma InvStep(n: Node, step: Step)
    requires Inv(n) && Do(n, step).Some?
    requires step.Begin? ==> WellFormedItems(step.snapshot.items)
    ensures Inv(Do(n, step).value)
  {
    hide Inv;
    hide DoOutside, DoBooting, DoPlanning, DoLive, DoRevoking, DoCommitting;
    match KindOf(step) {
      case Outside => InvOutside(n, step);
      case Booting => InvBooting(n, step);
      case Planning => InvPlanning(n, step);
      case Live => InvLive(n, step);
      case Revoking => InvRevoking(n, step);
      case Committing => InvCommitting(n, step);
    }
  }

  // --- revocation -----------------------------------------------------------------------------

  /** Every live session, and every email that could start one, is in the config or the journal. */
  ghost predicate Covered(n: Node) {
    && n.sessions <= Emails(n.disk) + n.journal
    && n.auth.Values <= Emails(n.disk) + n.journal
    && (n.pc.BootKicked? ==> n.sessions <= Emails(n.disk) && n.pc.safe == n.SafeToKick())
    && (n.pc.Kicked? ==> n.sessions <= Emails(n.disk))
  }

  /** Rewriting the journal takes no live session's email off the record. */
  ghost predicate Spares(n: Node) {
    n.pc.Planned? ==> n.sessions * n.journal * n.pc.plan.DesiredEmails() <= Emails(n.disk)
  }

  /** A snapshot gives access back to an email that is pending and off the disk. */
  ghost predicate Reauthorises(n: Node, snapshot: Snapshot, nowMs: nat) {
    !(n.journal * ClientEmails(DesiredClients(snapshot.items, nowMs)) <= Emails(n.disk))
  }

  /** Whatever the snapshot says: an email losing access is on disk or in the journal until it
      has been kicked, and by then it can no longer sign in. */
  ghost predicate LosersTracked(n: Node) {
    HasPlan(n.pc) ==>
      var p := n.pc.plan;
      && (n.pc.Planned? || n.pc.Journaled? || n.pc.Saved? || n.pc.Calling? || n.pc.Settled? || n.pc.Retrying?
          ==> n.kicked == {})
      && (n.pc.Planned? || n.pc.Journaled? || n.pc.Saved? || n.pc.Calling? || n.pc.Settled? || n.pc.Retrying? || n.pc.Kicked?
          ==> Losing(p) <= Emails(n.disk) + n.journal)
      && (n.pc.Kicked? || n.pc.Revoked? || n.pc.OverridesSaved? || n.pc.OverridesSet?
          ==> Losing(p) <= n.kicked && n.kicked !! n.auth.Values && n.kicked !! n.sessions)
  }

  /** Both revocation guarantees; the first one only while every journal write spares the sessions. */
  ghost predicate Tracked(n: Node, guarded: bool) {
    LosersTracked(n) && (guarded ==> Covered(n))
  }

  lemma TrackedOutside(n: Node, step: Step, guarded: bool)
    requires Inv(n) && Tracked(n, guarded) && DoOutside(n, step).Some?
    ensures Tracked(DoOutside(n, step).value, guarded)
  {
    hide MakePlan, Emails, AuthOf, Load, WellFormedDisk, WellFormedItems, DesiredClients, ClientEmails;
    AuthWithinEmails(n.disk);
    if step.Connect? {
      assert n.auth[step.uuid] in n.auth.Values;
    }
  }

  lemma TrackedBooting(n: Node, step: Step, guarded: bool)
    requires Inv(n) && Tracked(n, guarded) && DoBooting(n, step).Some?
    ensures Tracked(DoBooting(n, step).value, guarded)
  {
    hide MakePlan, Emails, AuthOf, Load, WellFormedDisk, WellFormedItems, DesiredClients, ClientEmails;
    AuthWithinEmails(n.disk);
  }

  lemma TrackedBegin(n: Node, step: Step, guarded: bool)
    requires Inv(n) && Tracked(n, guarded) && DoPlanning(n, step).Some? && step.Begin?
    requires step.Begin? ==> WellFormedItems(step.snapshot.items)
    requires step.WriteJournal? && guarded ==> Spares(n)
    ensures Tracked(DoPlanning(n, step).value, guarded)
  {
    hide MakePlan, Emails, AuthOf, Load, WellFormedDisk, WellFormedItems, DesiredClients, ClientEmails;
    if MakePlan(n.Base(), step.snapshot, step.nowMs).Ok? {
      PlanMade(n.Base(), step.snapshot, step.nowMs);
    }
  }

  lemma TrackedJournal(n: Node, step: Step, guarded: bool)
    requires Inv(n) && Tracked(n, guarded) && DoPlanning(n, step).Some? && step.WriteJournal?
    requires guarded ==> Spares(n)
    ensures Tracked(DoPlanning(n, step).value, guarded)
  {
    hide MakePlan, Emails, Losing, PlanOk, AuthOf, Load, WellFormedDisk, WellFormedItems, DesiredClients, ClientEmails;
    var p := n.pc.plan;
    PlanSets(p);
    JournalKept(n);
    assert LosersTracked(DoPlanning(n, step).value);
    if guarded {
      AuthWithinEmails(n.disk);
      assert Covered(DoPlanning(n, step).value);
    }
  }

  /** What the new journal still holds of the old one. */
  lemma JournalKept(n: Node)
    requires Inv(n) && n.pc.Planned?
    ensures n.journal - n.pc.plan.DesiredEmails() <= n.pc.plan.pending && n.pc.plan.pending !! n.pc.plan.DesiredEmails()
  {
    hide Emails, AuthOf, Load, WellFormedDisk, WellFormedItems, DesiredClients, ClientEmails, NewConfig, Apply, Removals;
    PlanFacts(n.pc.plan);
  }

  lemma TrackedSave(n: Node, step: Step, guarded: bool)
    requires Inv(n) && Tracked(n, guarded) && DoPlanning(n, step).Some? && (step.SaveConfig? || step.SkipSave?)
    ensures Tracked(DoPlanning(n, step).value, guarded)
  {
    hide MakePlan, Emails, Losing, PlanOk, AuthOf, Load, WellFormedDisk, WellFormedItems, DesiredClients, ClientEmails;
    PlanSets(n.pc.plan);
  }

  lemma TrackedRefresh(n: Node, step: Step, guarded: bool)
    requires Inv(n) && Tracked(n, guarded) && DoPlanning(n, step).Some? && step.Refresh?
    ensures Tracked(DoPlanning(n, step).value, guarded)
  {
    hide MakePlan, Emails, AuthOf, Load, WellFormedDisk, WellFormedItems, DesiredClients, ClientEmails;
    AuthWithinEmails(n.pc.plan.config);
  }

  lemma TrackedPlanning(n: Node, step: Step, guarded: bool)
    requires Inv(n) && Tracked(n, guarded) && DoPlanning(n, step).Some?
    requires step.Begin? ==> WellFormedItems(step.snapshot.items)
    requires step.WriteJournal? && guarded ==> Spares(n)
    ensures Tracked(DoPlanning(n, step).value, guarded)
  {
    hide Inv, Tracked, DoPlanning;
    if step.Begin? {
      TrackedBegin(n, step, guarded);
    } else if step.WriteJournal? {
      TrackedJournal(n, step, guarded);
    } else if step.Refresh? {
      TrackedRefresh(n, step, guarded);
    } else if step.SaveConfig? || step.SkipSave? {
      TrackedSave(n, step, guarded);
    } else {
      NotPlanning(n, step);
    }
  }

  lemma NotPlanning(n: Node, step: Step)
    requires DoPlanning(n, step).Some?
    ensures step.Begin? || step.WriteJournal? || step.SaveConfig? || step.Refresh? || step.SkipSave?
  {
  }

  lemma TrackedLive(n: Node, step: Step, guarded: bool)
    requires Inv(n) && Tracked(n, guarded) && DoLive(n, step).Some?
    ensures Tracked(DoLive(n, step).value, guarded)
  {
    hide MakePlan, Emails, AuthOf, Load, WellFormedDisk, WellFormedItems, DesiredClients, ClientEmails;
    AuthWithinEmails(n.disk);
  }

  lemma TrackedKick(n: Node, step: Step, guarded: bool)
    requires Inv(n) && Tracked(n, guarded) && DoRevoking(n, step).Some? && step.Kick?
    ensures Tracked(DoRevoking(n, step).value, guarded)
  {
    hide MakePlan, Emails, Losing, PlanOk, AuthOf, Load, WellFormedDisk, WellFormedItems, DesiredClients, ClientEmails;
    PlanSets(n.pc.plan);
    AuthWithinEmails(n.disk);
  }

  lemma TrackedClear(n: Node, step: Step, guarded: bool)
    requires Inv(n) && Tracked(n, guarded) && DoRevoking(n, step).Some? && (step.ClearJournal? || step.SkipRetry?)
    ensures Tracked(DoRevoking(n, step).value, guarded)
  {
    hide MakePlan, Emails, Losing, PlanOk, AuthOf, Load, WellFormedDisk, WellFormedItems, DesiredClients, ClientEmails;
    PlanSets(n.pc.plan);
    AuthWithinEmails(n.disk);
  }

  lemma TrackedRetry(n: Node, step: Step, guarded: bool)
    requires Inv(n) && Tracked(n, guarded) && DoRevoking(n, step).Some? && step.RetryRefresh?
    ensures Tracked(DoRevoking(n, step).value, guarded)
  {
    hide MakePlan, Emails, AuthOf, Load, WellFormedDisk, WellFormedItems, DesiredClients, ClientEmails;
    AuthWithinEmails(n.disk);
  }

  lemma TrackedRevoking(n: Node, step: Step, guarded: bool)
    requires Inv(n) && Tracked(n, guarded) && DoRevoking(n, step).Some?
    ensures Tracked(DoRevoking(n, step).value, guarded)
  {
    hide Inv, Tracked;
    if step.Kick? {
      TrackedKick(n, step, guarded);
    } else if step.RetryRefresh? {
      TrackedRetry(n, step, guarded);
    } else {
      TrackedClear(n, step, guarded);
    }
  }

  lemma TrackedCommitting(n: Node, step: Step, guarded: bool)
    requires Inv(n) && Tracked(n, guarded) && DoCommitting(n, step).Some?
    ensures Tracked(DoCommitting(n, step).value, guarded)
  {
    hide MakePlan, Emails, AuthOf, Load, WellFormedDisk, WellFormedItems, DesiredClients, ClientEmails;
  }

  lemma TrackedStep(n: Node, step: Step, guarded: bool)
    requires Inv(n) && Tracked(n, guarded) && Do(n, step).Some?
    requires step.Begin? ==> WellFormedItems(step.snapshot.items)
    requires step.WriteJournal? && guarded ==> Spares(n)
    ensures Tracked(Do(n, step).value, guarded)
  {
    hide Inv, Tracked;
    hide DoOutside, DoBooting, DoPlanning, DoLive, DoRevoking, DoCommitting;
    match KindOf(step) {
      case Outside => TrackedOutside(n, step, guarded);
      case Booting => TrackedBooting(n, step, guarded);
      case Planning => TrackedPlanning(n, step, guarded);
      case Live => TrackedLive(n, step, guarded);
      case Revoking => TrackedRevoking(n, step, guarded);
      case Committing => TrackedCommitting(n, step, guarded);
    }
  }

  /** The journal write is where the guarantee can be lost, and exactly for re-authorisations:
      everything guarded before is guarded after, unless a pending email off the disk is desired. */
  lemma JournalWriteExact(n: Node)
    requires Inv(n) && n.pc.Planned?
    ensures Emails(n.disk) + n.journal <= Emails(Do(n, WriteJournal).value.disk) + Do(n, WriteJournal).value.journal
            <==> !Reauthorises(n, n.pc.plan.snapshot, n.pc.plan.nowMs)
  {
    hide MakePlan, Emails, AuthOf, Load, WellFormedDisk, WellFormedItems, DesiredClients, ClientEmails;
    var p := n.pc.plan;
    PlanFacts(p);
    var after := Emails(n.disk) + p.pending;
    if e :| e in n.journal * p.DesiredEmails() && e !in Emails(n.disk) {
      assert e in Emails(n.disk) + n.journal && e !in after;
    }
  }

  /** For the sessions: from a guarded state, every live session is still guarded after the write
      exactly when none of them belongs to an email re-authorised while pending and off the disk. */
  lemma JournalWriteSpares(n: Node)
    requires Inv(n) && n.pc.Planned? && n.sessions <= Emails(n.disk) + n.journal
    ensures var after := Do(n, WriteJournal).value;
            after.sessions <= Emails(after.disk) + after.journal <==> Spares(n)
  {
    hide MakePlan, Emails, Losing, PlanOk, AuthOf, Load, WellFormedDisk, WellFormedItems, DesiredClients, ClientEmails;
    var p := n.pc.plan;
    JournalKept(n);
    if e :| e in n.sessions * n.journal * p.DesiredEmails() && e !in Emails(n.disk) {
      assert e in n.sessions && e !in Emails(n.disk) + p.pending;
    }
  }

  /** In a reconciliation the retry has nothing left to keep: only a failed kick can stop it. */
  lemma RetryAlwaysClears(n: Node)
    requires Inv(n) && n.pc.Kicked?
    ensures Do(n, ClearJournal).value.journal == {} && Do(n, ClearJournal).value.pc == Revoked(n.pc.plan)
  {
    hide MakePlan, Losing, PlanOk, WellFormedDisk, AuthOf, Emails, DoOutside, DoBooting, DoPlanning, DoLive, DoCommitting;
    PlanSets(n.pc.plan);
    assert n.SafeToKick() == n.journal;
  }

  // --- live users -----------------------------------------------------------------------------

  ghost predicate LiveInv(n: Node) {
    && LiveReady(n.disk.inbounds)
    && (HasPlan(n.pc) ==> LiveReady(n.pc.plan.base.disk.inbounds))
    && (n.matched ==>
          match n.pc
          case Planned(_) => InStep(n)
          case Journaled(_) => InStep(n)
          case Saved(p) =>
            && (n.live == Load(p.base.disk.inbounds) || n.live == Load(n.disk.inbounds))
            && (n.section == Section(p.base.disk) || n.section == Section(n.disk))
          case Calling(p, i, j, ok) =>
            ok && i <= |p.removals| && j <= |p.additions| ==>
              Delta(n.live, p.removals[i..], p.additions[j..]) == Load(n.disk.inbounds) && n.section == Section(n.disk)
          case Settled(_) => InStep(n)
          case Retrying(_) => InStep(n)
          case Kicked(_) => InStep(n)
          case Revoked(_) => InStep(n)
          case OverridesSaved(_) => InStep(n)
          case OverridesSet(_) => InStep(n)
          case Done(_) => InStep(n)
          case _ => true)
  }

  lemma PlanLive(p: Plan)
    requires PlanOk(p) && LiveReady(p.base.disk.inbounds)
    ensures Ready(p.base.disk.inbounds, p.Clients()) && LiveReady(p.config.inbounds)
    ensures p.config.inbounds == NewInbounds(p.base.disk.inbounds, p.Clients())
    ensures p.removals == Removals(p.base.disk.inbounds, p.Clients())
    ensures p.additions == Additions(p.base.disk.inbounds, p.Clients())
    ensures Delta(Load(p.base.disk.inbounds), p.removals, p.additions) == Load(p.config.inbounds)
  {
    PlanFacts(p);
    NewReady(p.base.disk.inbounds, p.Clients());
    DeltaRefinesReload(p.base.disk.inbounds, p.Clients());
  }

  /** Without a cascade change only users change. */
  lemma SectionKept(p: Plan)
    requires PlanOk(p) && !p.cascadeChanged
    ensures Section(p.config) == Section(p.base.disk)
  {
  }

  lemma StartCallsLive(n: Node, p: Plan)
    requires PlanOk(p) && LiveReady(p.base.disk.inbounds)
    requires n.live == Load(p.base.disk.inbounds) || n.live == Load(p.config.inbounds)
    requires n.section == Section(p.base.disk) || n.section == Section(p.config)
    ensures var pc := StartCalls(n.settings, p);
            pc.ok ==> Delta(n.live, p.removals[pc.removed..], p.additions[pc.added..]) == Load(p.config.inbounds)
                      && n.section == Section(p.config)
  {
    if !p.cascadeChanged {
      SectionKept(p);
    }
    hide PlanOk, MakePlan, Load, Delta, Removals, Additions, LiveReady, Ready, NewInbounds;
    PlanLive(p);
    assert p.removals[0..] == p.removals && p.additions[0..] == p.additions;
    if n.live == Load(p.config.inbounds) {
      RestartAbsorbed(p.base.disk.inbounds, p.Clients(), 0, 0);
    }
  }

  lemma LiveCalls(n: Node, step: Step)
    requires Inv(n) && LiveInv(n) && DoLive(n, step).Some?
    ensures LiveInv(DoLive(n, step).value)
  {
    hide MakePlan, Emails, AuthOf, Load, WellFormedDisk, WellFormedItems, DesiredClients, ClientEmails, LiveReady;
    var p, i, j := n.pc.plan, n.pc.removed, n.pc.added;
    if step.Call? && i < |p.removals| {
      assert p.removals[i..][1..] == p.removals[i + 1..];
    } else if step.Call? {
      assert p.removals[i..] == [];
      assert p.additions[j..][1..] == p.additions[j + 1..];
    } else {
      assert p.removals[i..] == [] && p.additions[j..] == [];
    }
  }

  lemma LiveRestart(n: Node)
    requires Inv(n) && LiveInv(n)
    ensures LiveInv(n.(live := Load(n.disk.inbounds), section := Section(n.disk)))
  {
    hide MakePlan, Emails, AuthOf, Load, WellFormedDisk, WellFormedItems, DesiredClients, ClientEmails, LiveReady;
    if n.pc.Calling? {
      var p := n.pc.plan;
      PlanLive(p);
      RestartAbsorbed(p.base.disk.inbounds, p.Clients(), n.pc.removed, n.pc.added);
    }
  }

  lemma LiveBegin(n: Node, step: Step)
    requires Inv(n) && LiveInv(n) && DoPlanning(n, step).Some? && (step.Begin? || step.WriteJournal?)
    ensures LiveInv(DoPlanning(n, step).value)
  {
    hide MakePlan, Emails, AuthOf, Load, WellFormedDisk, WellFormedItems, DesiredClients, ClientEmails, LiveReady, PlanOk;
    if step.Begin? && MakePlan(n.Base(), step.snapshot, step.nowMs).Ok? {
      PlanMade(n.Base(), step.snapshot, step.nowMs);
    }
  }

  lemma LiveSave(n: Node, step: Step)
    requires Inv(n) && LiveInv(n) && DoPlanning(n, step).Some? && step.SaveConfig?
    ensures LiveInv(DoPlanning(n, step).value)
  {
    hide MakePlan, Emails, AuthOf, Load, WellFormedDisk, WellFormedItems, DesiredClients, ClientEmails, LiveReady, PlanOk;
    PlanLive(n.pc.plan);
  }

  lemma LiveStart(n: Node, step: Step)
    requires Inv(n) && LiveInv(n) && DoPlanning(n, step).Some? && (step.Refresh? || step.SkipSave?)
    ensures LiveInv(DoPlanning(n, step).value)
  {
    hide MakePlan, Emails, AuthOf, Load, WellFormedDisk, WellFormedItems, DesiredClients, ClientEmails, LiveReady, PlanOk;
    PlanBasics(n.pc.plan);
    if n.matched {
      StartCallsLive(n, n.pc.plan);
    }
  }

  lemma LivePlanning(n: Node, step: Step)
    requires Inv(n) && LiveInv(n) && DoPlanning(n, step).Some?
    ensures LiveInv(DoPlanning(n, step).value)
  {
    hide Inv, LiveInv, DoPlanning;
    NotPlanning(n, step);
    if step.Begin? || step.WriteJournal? {
      LiveBegin(n, step);
    } else if step.SaveConfig? {
      LiveSave(n, step);
    } else {
      LiveStart(n, step);
    }
  }

  lemma LiveStep(n: Node, step: Step)
    requires Inv(n) && LiveInv(n) && Do(n, step).Some?
    ensures LiveInv(Do(n, step).value)
  {
    hide MakePlan, Emails, AuthOf, Load, WellFormedDisk, WellFormedItems, DesiredClients, ClientEmails, LiveReady;
    hide Inv;
    match KindOf(step) {
      case Outside => LiveRestart(n);
      case Planning => LivePlanning(n, step);
      case Live => LiveCalls(n, step);
      case _ =>
    }
  }

  // --- runs --------------------------------------------------------------------------------------

  ghost predicate Start(n: Node) {
    && n.pc == Down && n.auth == map[] && n.sessions == {}
    && WellFormedDisk(n.disk) && LiveReady(n.disk.inbounds)
  }

  ghost predicate Run(states: seq<Node>, steps: seq<Step>) {
    && |states| == |steps| + 1 && Start(states[0])
    && (forall k :: 0 <= k < |steps| ==>
          && Do(states[k], steps[k]) == Some(states[k + 1])
          && (steps[k].Begin? ==> WellFormedItems(steps[k].snapshot.items)))
  }

  ghost predicate NeverReauthorises(states: seq<Node>, steps: seq<Step>)
    requires |states| == |steps| + 1
  {
    forall k :: 0 <= k < |steps| && steps[k].Begin? ==> !Reauthorises(states[k], steps[k].snapshot, steps[k].nowMs)
  }

  /** Every journal write of the run spares the live sessions. */
  ghost predicate Spared(states: seq<Node>, steps: seq<Step>)
    requires |states| == |steps| + 1
  {
    forall k :: 0 <= k < |steps| && steps[k].WriteJournal? ==> Spares(states[k])
  }

  ghost predicate Guarded(n: Node) {
    n.sessions <= Emails(n.disk) + n.journal
  }

  lemma {:induction false} RunInv(states: seq<Node>, steps: seq<Step>, k: nat)
    requires Run(states, steps) && k <= |steps|
    ensures Inv(states[k]) && LiveInv(states[k]) && Tracked(states[k], Spared(states, steps))
  {
    hide Inv, LiveInv, Tracked, Do, Spares, WellFormedItems;
    if k == 0 {
      StartInv(states[0], Spared(states, steps));
    } else {
      RunInv(states, steps, k - 1);
      assert Do(states[k - 1], steps[k - 1]) == Some(states[k - 1 + 1]);
      InvStep(states[k - 1], steps[k - 1]);
      LiveStep(states[k - 1], steps[k - 1]);
      TrackedStep(states[k - 1], steps[k - 1], Spared(states, steps));
    }
  }

  lemma StartInv(n: Node, guarded: bool)
    requires Start(n)
    ensures Inv(n) && LiveInv(n) && Tracked(n, guarded)
  {
  }

  /** Over every run, crashes and interleavings included: no live session's email is ever out of
      both the config and the journal, exactly when every journal write spares the sessions. */
  lemma SessionsGuardedExactly(states: seq<Node>, steps: seq<Step>)
    requires Run(states, steps)
    ensures (forall k :: 0 <= k <= |steps| ==> Guarded(states[k])) <==> Spared(states, steps)
  {
    hide Inv, LiveInv, LosersTracked, Do, Spares, WellFormedItems, Start;
    forall k | 0 <= k <= |steps| && Spared(states, steps) ensures Guarded(states[k]) {
      RunInv(states, steps, k);
    }
    if forall k :: 0 <= k <= |steps| ==> Guarded(states[k]) {
      forall k | 0 <= k < |steps| && steps[k].WriteJournal? ensures Spares(states[k]) {
        RunInv(states, steps, k);
        assert Do(states[k], steps[k]) == Some(states[k + 1]) && Guarded(states[k]) && Guarded(states[k + 1]);
        OnlyFromPlanned(states[k]);
        JournalWriteSpares(states[k]);
      }
    }
  }

  lemma OnlyFromPlanned(n: Node)
    ensures Do(n, WriteJournal).Some? ==> n.pc.Planned?
  {
  }

  /** The disk and the journal a plan was made from are still there when its journal is written. */
  lemma {:induction false} PlannedUnreauthorised(states: seq<Node>, steps: seq<Step>, k: nat)
    requires Run(states, steps) && NeverReauthorises(states, steps) && k <= |steps| && states[k].pc.Planned?
    ensures !Reauthorises(states[k], states[k].pc.plan.snapshot, states[k].pc.plan.nowMs)
  {
    hide Do, Inv, Reauthorises, WellFormedItems;
    if k > 0 {
      assert Do(states[k - 1], steps[k - 1]) == Some(states[k - 1 + 1]);
      PlannedFrom(states[k - 1], steps[k - 1]);
      if !steps[k - 1].Begin? {
        PlannedUnreauthorised(states, steps, k - 1);
      }
    }
  }

  lemma PlannedFrom(n: Node, step: Step)
    requires Do(n, step).Some? && Do(n, step).value.pc.Planned?
    ensures var n' := Do(n, step).value; var p := n'.pc.plan;
            && (if step.Begin? then p.snapshot == step.snapshot && p.nowMs == step.nowMs else n.pc == n'.pc)
            && (Reauthorises(n', p.snapshot, p.nowMs) <==> Reauthorises(n, p.snapshot, p.nowMs))
  {
    hide MakePlan, Emails, AuthOf, Load, ClientEmails, DesiredClients;
    if step.Begin? {
      PlanMade(n.Base(), step.snapshot, step.nowMs);
    }
  }

  /** In particular while no snapshot re-authorises a pending email. */
  lemma NoSessionEscapes(states: seq<Node>, steps: seq<Step>, k: nat)
    requires Run(states, steps) && NeverReauthorises(states, steps) && k <= |steps|
    ensures states[k].sessions <= Emails(states[k].disk) + states[k].journal
  {
    hide Inv, Do, Reauthorises, WellFormedItems, Start, Spares;
    forall i | 0 <= i < |steps| && steps[i].WriteJournal? ensures Spares(states[i]) {
      assert Do(states[i], steps[i]) == Some(states[i + 1]);
      OnlyFromPlanned(states[i]);
      PlannedUnreauthorised(states, steps, i);
      UnreauthorisedSpares(states[i]);
    }
    SessionsGuardedExactly(states, steps);
    assert Guarded(states[k]);
  }

  lemma UnreauthorisedSpares(n: Node)
    requires n.pc.Planned? && !Reauthorises(n, n.pc.plan.snapshot, n.pc.plan.nowMs)
    ensures Spares(n)
  {
    hide Emails, ClientEmails, DesiredClients;
  }

  /** A reconciliation that began with Xray in step, or whose reload replaced the process, ends with
      Xray in step, users and routing, whatever calls failed. */
  lemma LiveUsersMatchDisk(states: seq<Node>, steps: seq<Step>, k: nat)
    requires Run(states, steps) && k <= |steps| && states[k].pc.Done? && states[k].matched
    ensures states[k].live == Load(states[k].disk.inbounds) && states[k].section == Section(states[k].disk)
  {
    RunInv(states, steps, k);
  }

  lemma NewInboundsExact(inbounds: seq<Inbound>, clients: seq<DesiredClient>)
    ensures forall i :: i in NewInbounds(inbounds, clients) && IsVless(i) ==> i.clients == DesiredRecords(clients, i)
  {
    var next := NewInbounds(inbounds, clients);
    forall i | i in next && IsVless(i) ensures i.clients == DesiredRecords(clients, i) {
      var k :| 0 <= k < |next| && next[k] == i;
      assert i == SetClients(inbounds[k], clients);
    }
  }

  lemma PlanOverrides(p: Plan)
    requires PlanOk(p)
    ensures p.overrides == DesiredOverrides(p.snapshot.items)
  {
  }

  /** What stands behind a success acknowledgement. */
  lemma SuccessMeansExact(n: Node)
    requires Inv(n) && n.pc.Done?
    ensures var p := n.pc.plan; var clients := DesiredClients(p.snapshot.items, p.nowMs);
            && (forall i :: i in n.disk.inbounds && IsVless(i) ==> i.clients == DesiredRecords(clients, i))
            && n.disk == Applied(p.base.disk, DesiredRoutes(p.snapshot.items)).(inbounds := n.disk.inbounds)
            && n.overrides == DesiredOverrides(p.snapshot.items) && n.savedOverrides == n.overrides
            && n.auth == (if HasVless(n.disk) then ClientMap(clients) else map[])
            && n.journal == {}
            && n.applied.generation == p.snapshot.generation && n.applied.digest == Some(p.snapshot.digest)
            && n.applied.items == p.snapshot.items
  {
    hide MakePlan, Emails, AuthOf, Applied, DesiredRecords, WellFormedDisk, DesiredOverrides, Losing;
    var p := n.pc.plan;
    PlanMade(p.base, p.snapshot, p.nowMs);
    PlanFacts(p);
    PlanOverrides(p);
    NewAuthExact(p.base.disk.inbounds, p.Clients());
    NewInboundsExact(p.base.disk.inbounds, p.Clients());
    assert n.disk.inbounds == NewInbounds(p.base.disk.inbounds, p.Clients());
  }

  // --- when the live API may be used -----------------------------------------------------------------

  ghost predicate CallsAllowed(n: Node) {
    n.pc.Calling? && (n.pc.removed < |n.pc.plan.removals| || n.pc.added < |n.pc.plan.additions|) ==>
      && !n.pc.plan.cascadeChanged
      && |n.pc.plan.removals| + |n.pc.plan.additions| <= n.settings.liveDeltaLimit
  }

  lemma CallsStep(n: Node, step: Step)
    requires CallsAllowed(n) && Do(n, step).Some?
    ensures CallsAllowed(Do(n, step).value)
  {
    hide MakePlan, Emails, AuthOf, Load, DoOutside, DoBooting, DoRevoking, DoCommitting;
    match KindOf(step) {
      case Planning =>
      case Live =>
      case _ => NoNewCalls(n, step);
    }
  }

  lemma NoNewCalls(n: Node, step: Step)
    requires Do(n, step).Some? && !KindOf(step).Planning? && !KindOf(step).Live?
    ensures var n' := Do(n, step).value; n'.settings == n.settings && (n'.pc.Calling? ==> n'.pc == n.pc)
  {
    hide MakePlan, Emails, AuthOf, Load;
  }

  /** Over every run: a live API call is made only in a reconciliation that leaves the cascade section
      alone and whose whole delta is within the configured limit; everything else goes through a
      reload. */
  lemma {:induction false} CallsOnlyWithinLimit(states: seq<Node>, steps: seq<Step>, k: nat)
    requires Run(states, steps) && k <= |steps|
    ensures CallsAllowed(states[k])
    ensures k < |steps| && steps[k].Call? ==>
              && states[k].pc.Calling? && !states[k].pc.plan.cascadeChanged
              && |states[k].pc.plan.removals| + |states[k].pc.plan.additions| <= states[k].settings.liveDeltaLimit
  {
    hide WellFormedItems, Start;
    if k == 0 {
      StartsDown(states[0]);
    } else {
      CallsOnlyWithinLimit(states, steps, k - 1);
      assert Do(states[k - 1], steps[k - 1]) == Some(states[k - 1 + 1]);
      CallsStep(states[k - 1], steps[k - 1]);
    }
    if k < |steps| {
      assert Do(states[k], steps[k]) == Some(states[k + 1]);
    }
  }

  lemma StartsDown(n: Node)
    requires Start(n)
    ensures n.pc == Down
  {
  }
}
