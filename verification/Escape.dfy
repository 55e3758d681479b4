/** A run in which a live session is lost from every record: its email is re-authorised while the
    kick for it is still pending, and the agent stops before the new config is written. */
module Escape {
  import opened Wrappers
  import opened Items
  import opened PyDict
  import opened XrayConfig
  import opened Cascade
  import opened Reconcile
  import opened LiveDelta
  import opened Hysteria
  import opened NodeMachine
  import opened NodeSafety

  const ONE_CLIENT := ClientRecord(Some("u"), Some("a"), None, "")
  const INBOUND := Inbound("vless", Some("in"), Some(443), None, [ONE_CLIENT], "")
  const DISK := Config([INBOUND], None, None, None, "")

  /** A node with Hysteria2 and one client on disk, before its agent starts. */
  const NODE := Node(Settings(true, 0), DISK, {}, Unapplied, map[], map[], map[], map[], Section(DISK), {}, Down, false, {})

  const REVOKE := Snapshot(1, 1, ItemsDigest([]), [])
  const RESTORE := Snapshot(1, 2, ItemsDigest([Client("u", "a", 1)]), [Client("u", "a", 1)])
  const REVOKE_AGAIN := Snapshot(1, 3, ItemsDigest([]), [])

  datatype Trace = Trace(states: seq<Node>, steps: seq<Step>)

  ghost predicate Good(t: Trace) {
    Run(t.states, t.steps)
  }

  ghost function Last(t: Trace): Node
    requires Good(t)
  {
    t.states[|t.steps|]
  }

  lemma Extend(t: Trace, step: Step) returns (t': Trace)
    requires Good(t) && Do(Last(t), step).Some? && (step.Begin? ==> WellFormedItems(step.snapshot.items))
    ensures Good(t') && Last(t') == Do(Last(t), step).value && Inv(Last(t')) && LiveInv(Last(t'))
    ensures |t'.states| == |t.states| + 1 && t'.states[..|t.states|] == t.states
  {
    hide Do, Inv, WellFormedItems, Start;
    t' := Trace(t.states + [Do(Last(t), step).value], t.steps + [step]);
    RunInv(t'.states, t'.steps, |t'.steps|);
  }

  // --- facts about the three plans ------------------------------------------------------------------

  lemma EmailShown(config: Config, inbound: Inbound, j: nat)
    requires LiveReady(config.inbounds) && inbound in config.inbounds && IsVless(inbound)
    requires j < |Existing(inbound)|
    ensures Truthy(Existing(inbound)[j].1.email) && Existing(inbound)[j].1.email.value in Emails(config)
  {
    assert LiveReadyInbound(inbound);
    ExistingIs(inbound);
    assert inbound.clients[j] in inbound.clients;
  }

  /** Removed emails were configured. */
  lemma RemovedWithin(config: Config, clients: seq<DesiredClient>)
    requires LiveReady(config.inbounds)
    ensures RemovedEmails(Removals(config.inbounds, clients)) <= Emails(config)
  {
    hide Existing, Desired, Emails, RemovalsFrom, Removals, LiveReady;
    forall e | e in RemovedEmails(Removals(config.inbounds, clients)) ensures e in Emails(config) {
      var r :| r in Removals(config.inbounds, clients) && r.email == e;
      RemovalsOrigin(config.inbounds, clients, r);
      var k :| 0 <= k < |config.inbounds| && IsVless(config.inbounds[k]) && config.inbounds[k].tag == Some(r.tag)
               && r in RemovalsFrom(Existing(config.inbounds[k]), Desired(clients, config.inbounds[k]), config.inbounds[k].tag);
      var inbound := config.inbounds[k];
      RemovalOrigin(Existing(inbound), Desired(clients, inbound), inbound.tag, r);
      var j :| 0 <= j < |Existing(inbound)| && inbound.tag == Some(r.tag) && Existing(inbound)[j].1.email == Some(r.email)
               && !Kept(Existing(inbound)[j].1, Get(Desired(clients, inbound), Existing(inbound)[j].0));
      EmailShown(config, inbound, j);
    }
  }

  /** What a plan from a consistent node does to the journal; nothing but the desired emails stay on
      disk. */
  lemma PlanOf(n: Node, snapshot: Snapshot, nowMs: nat) returns (p: Plan)
    requires Inv(n) && LiveInv(n) && WellFormedItems(snapshot.items) && DesiredRoutes(snapshot.items) == []
    ensures MakePlan(n.Base(), snapshot, nowMs) == Ok(p) && PlanOk(p)
    ensures p.base == n.Base() && p.snapshot == snapshot && p.nowMs == nowMs
    ensures Emails(n.disk) - p.DesiredEmails() <= p.pending
    ensures p.pending <= Emails(n.disk) + n.journal && p.pending !! p.DesiredEmails()
    ensures HasVless(n.disk) ==> HasVless(p.config) && Emails(p.config) == p.DesiredEmails()
    ensures n.applied.generation != snapshot.generation ==> p.changed
    ensures !p.configChanged ==> p.config == n.disk
  {
    assert Apply(n.disk, []).1 == None;
    p := MakePlan(n.Base(), snapshot, nowMs).value;
    hide Apply, NewConfig, Emails, LiveReady, Additions, Removals, RemovedEmails;
    PlanFacts(p);
    RemovedWithin(n.disk, p.Clients());
    RemovalsCover(n.disk, p.Clients());
    assert p.pending == (n.journal - p.DesiredEmails()) + (RemovedEmails(Removals(n.disk.inbounds, p.Clients())) - p.DesiredEmails());
  }

  // --- the run --------------------------------------------------------------------------------------------

  lemma OneLetIn()
    ensures AuthOf(DISK.inbounds) == map["u" := "a"]
  {
    var records := [ONE_CLIENT];
    assert INBOUND.clients == records && records[..0] == [];
    assert ClientsInto(map[], []) == map[];
    assert ClientsInto(map[], records) == map["u" := "a"];
    assert DISK.inbounds == [INBOUND] && [INBOUND][..0] == [];
    assert IsVless(INBOUND);
  }

  lemma Begins(n: Node, snapshot: Snapshot, nowMs: nat, p: Plan)
    requires n.pc == Idle && MakePlan(n.Base(), snapshot, nowMs) == Ok(p) && p.changed
    ensures Do(n, Begin(snapshot, nowMs)) ==
            Some(n.(pc := Planned(p), matched := InStep(n), kicked := {}))
  {
    hide MakePlan, Load;
  }

  lemma WritesJournal(n: Node, p: Plan)
    requires n.pc == Planned(p)
    ensures Do(n, WriteJournal) == Some(n.(journal := p.pending, pc := Journaled(p)))
  {
  }

  lemma WritesConfig(n: Node, p: Plan)
    requires n.pc == Journaled(p) && p.configChanged
    ensures var saved := n.(disk := p.config, pc := Saved(p));
            && Do(n, SaveConfig) == Some(saved)
            && Do(saved, Refresh) == Some(saved.(auth := AuthOf(p.config.inbounds), pc := StartCalls(n.settings, p)))
  {
    hide AuthOf;
  }

  lemma SkipsConfig(n: Node, p: Plan)
    requires n.pc == Journaled(p) && !p.configChanged
    ensures Do(n, SkipSave) == Some(n.(pc := StartCalls(n.settings, p)))
  {
  }

  /** With no live delta allowed, a delta means a reload. */
  lemma Reloads(n: Node, p: Plan)
    requires n.settings.liveDeltaLimit == 0 && n.pc == StartCalls(n.settings, p)
    ensures (p.removals != [] ==> n.pc == Calling(p, |p.removals|, |p.additions|, false))
    ensures n.pc == Calling(p, |p.removals|, |p.additions|, false) ==>
              Do(n, Reload(true, true, map[], DISK)) == Some(n.(live := Load(n.disk.inbounds), section := Section(n.disk), matched := true, pc := Settled(p)))
    ensures n.pc != Calling(p, |p.removals|, |p.additions|, false) ==> Do(n, CallsDone) == Some(n.(pc := Settled(p)))
  {
    hide Load;
  }

  lemma KickAborts(n: Node, p: Plan)
    requires n.pc == Settled(p) && p.pending != {}
    ensures var retrying := n.(auth := AuthOf(p.config.inbounds), pc := Retrying(p));
            Do(n, RetryRefresh) == Some(retrying) && Do(retrying, Abort) == Some(retrying.(pc := Idle))
  {
    hide AuthOf;
  }

  /** The client signs in. */
  lemma SignIn() returns (t: Trace)
    ensures Good(t)
    ensures Last(t) == NODE.(auth := map["u" := "a"], sessions := {"a"}, pc := Idle) && Inv(Last(t)) && LiveInv(Last(t))
  {
    t := Trace([NODE], []);
    var r := INBOUND;
    assert r.clients == [ONE_CLIENT] && DISK.inbounds == [INBOUND];
    assert ONE_CLIENT in INBOUND.clients;
    assert Start(NODE);
    OneLetIn();
    hide AuthOf, LiveInv, Inv, Do, Start;
    Boots(NODE);
    t := Extend(t, Boot);
    t := Extend(t, BootDone);
    SignsIn(Last(t), "u");
    t := Extend(t, Connect("u"));
  }

  lemma DiskShown()
    ensures Emails(DISK) == {"a"} && HasVless(DISK)
  {
    assert INBOUND in DISK.inbounds && ONE_CLIENT in INBOUND.clients;
  }

  lemma NothingDesired(nowMs: nat)
    ensures WellFormedItems([]) && ClientEmails(DesiredClients([], nowMs)) == {} && DesiredRoutes([]) == []
  {
  }

  lemma OneDesired()
    ensures WellFormedItems(RESTORE.items) && ClientEmails(DesiredClients(RESTORE.items, 0)) == {"a"}
    ensures DesiredRoutes(RESTORE.items) == []
  {
    assert RESTORE.items == [Client("u", "a", 1)] && RESTORE.items[1..] == [];
    assert DesiredClients(RESTORE.items, 0) == [DesiredClient("u", "a")];
    assert Uuids(RESTORE.items) == ["u"] && ItemEmails(RESTORE.items) == ["a"];
  }

  /** The client is revoked: journal, config and auth map are written, Xray is reloaded, and then the
      kick fails. The email is pending, its session lives. */
  lemma KickFails(t: Trace) returns (t': Trace)
    requires Good(t) && Last(t) == NODE.(auth := map["u" := "a"], sessions := {"a"}, pc := Idle)
    requires Inv(Last(t)) && LiveInv(Last(t))
    ensures Good(t') && Inv(Last(t')) && LiveInv(Last(t'))
    ensures var n := Last(t');
            && n.pc == Idle && n.settings == NODE.settings && n.applied == Unapplied
            && n.journal == {"a"} && n.sessions == {"a"} && HasVless(n.disk) && Emails(n.disk) == {}
  {
    DiskShown();
    NothingDesired(0);
    var p := PlanOf(Last(t), REVOKE, 0);
    assert p.pending == {"a"};
    assert p.removals != [] by {
      HasRemovals(p);
    }
    hide AuthOf, LiveInv, Inv, MakePlan, Emails, HasVless, Load, PlanOk, WellFormedItems, Do, StartCalls, DesiredClients;
    Begins(Last(t), REVOKE, 0, p);
    t' := Extend(t, Begin(REVOKE, 0));
    WritesJournal(Last(t'), p);
    t' := Extend(t', WriteJournal);
    WritesConfig(Last(t'), p);
    t' := Extend(t', SaveConfig);
    t' := Extend(t', Refresh);
    Reloads(Last(t'), p);
    t' := Extend(t', Reload(true, true, map[], DISK));
    KickAborts(Last(t'), p);
    t' := Extend(t', RetryRefresh);
    t' := Extend(t', Abort);
  }

  /** A pending email that was not pending before was removed somewhere. */
  lemma HasRemovals(p: Plan)
    requires PlanOk(p) && p.base.journal == {} && p.pending != {}
    ensures p.removals != []
  {
    hide Apply, NewConfig, Additions, Removals;
  }

  /** The next snapshot gives access back: its email leaves the journal, and the agent stops before
      the config is written. */
  lemma Restored(t: Trace) returns (t': Trace)
    requires Good(t) && Inv(Last(t)) && LiveInv(Last(t))
    requires var n := Last(t);
             && n.pc == Idle && n.settings == NODE.settings && n.applied == Unapplied
             && n.journal == {"a"} && n.sessions == {"a"} && HasVless(n.disk) && Emails(n.disk) == {}
    ensures Good(t') && Inv(Last(t')) && LiveInv(Last(t'))
    ensures var n := Last(t');
            && n.pc == Down && n.settings == NODE.settings && n.applied == Unapplied
            && n.journal == {} && n.sessions == {"a"} && HasVless(n.disk) && Emails(n.disk) == {}
    ensures |t.states| <= |t'.states| && t'.states[..|t.states|] == t.states
  {
    hide AuthOf, LiveInv, Inv, MakePlan, Emails, HasVless, Load, PlanOk, WellFormedItems, Do, DesiredClients;
    hide DesiredRoutes, ClientEmails;
    OneDesired();
    var p := PlanOf(Last(t), RESTORE, 0);
    assert p.pending == {} && p.changed;
    Begins(Last(t), RESTORE, 0, p);
    t' := Extend(t, Begin(RESTORE, 0));
    WritesJournal(Last(t'), p);
    t' := Extend(t', WriteJournal);
    Crashes(Last(t'));
    t' := Extend(t', Crash);
  }

  lemma Crashes(n: Node)
    ensures Do(n, Crash) == Some(n.(auth := map[], overrides := map[], pc := Down))
  {
  }

  /** Up to the live users: what the plan says is on disk, nothing is pending. */
  lemma Settles(t: Trace, p: Plan) returns (t': Trace)
    requires Good(t) && Inv(Last(t)) && LiveInv(Last(t)) && Last(t).pc == Planned(p)
    requires Last(t).settings == NODE.settings && p.pending == {}
    requires !p.configChanged ==> p.config == Last(t).disk
    ensures Good(t') && Inv(Last(t')) && LiveInv(Last(t'))
    ensures var n := Last(t');
            && n.pc == Settled(p) && n.settings == NODE.settings && n.disk == p.config && n.journal == {}
            && n.sessions == Last(t).sessions
    ensures |t.states| <= |t'.states| && t'.states[..|t.states|] == t.states
  {
    hide AuthOf, LiveInv, Inv, Load, Do, StartCalls;
    t' := Saves(t, p);
    Reloads(Last(t'), p);
    if Last(t').pc == Calling(p, |p.removals|, |p.additions|, false) {
      t' := Extend(t', Reload(true, true, map[], DISK));
    } else {
      t' := Extend(t', CallsDone);
    }
  }

  /** Journal, config and auth map. */
  lemma Saves(t: Trace, p: Plan) returns (t': Trace)
    requires Good(t) && Inv(Last(t)) && LiveInv(Last(t)) && Last(t).pc == Planned(p)
    requires Last(t).settings == NODE.settings && p.pending == {}
    requires !p.configChanged ==> p.config == Last(t).disk
    ensures Good(t') && Inv(Last(t')) && LiveInv(Last(t'))
    ensures var n := Last(t');
            && n.pc == StartCalls(n.settings, p) && n.settings == NODE.settings && n.disk == p.config && n.journal == {}
            && n.sessions == Last(t).sessions
    ensures |t.states| <= |t'.states| && t'.states[..|t.states|] == t.states
  {
    hide AuthOf, LiveInv, Inv, Load, Do, StartCalls;
    WritesJournal(Last(t), p);
    t' := Extend(t, WriteJournal);
    if p.configChanged {
      WritesConfig(Last(t'), p);
      t' := Extend(t', SaveConfig);
      t' := Extend(t', Refresh);
    } else {
      SkipsConfig(Last(t'), p);
      t' := Extend(t', SkipSave);
    }
  }

  lemma Commits(n: Node, p: Plan)
    requires n.pc == Settled(p) && p.pending == {}
    ensures Do(n, SkipRetry) == Some(n.(pc := Revoked(p)))
    ensures p.overrideChanged ==>
              var saved := n.(savedOverrides := p.overrides, pc := OverridesSaved(p));
              && Do(n.(pc := Revoked(p)), SaveOverrides) == Some(saved)
              && Do(saved, SwapOverrides) == Some(saved.(overrides := p.overrides, pc := OverridesSet(p)))
    ensures !p.overrideChanged ==> Do(n.(pc := Revoked(p)), SkipOverrides) == Some(n.(pc := OverridesSet(p)))
  {
  }

  lemma SavesApplied(n: Node, p: Plan)
    requires n.pc == OverridesSet(p)
    ensures Do(n, SaveApplied) == Some(n.(applied := AppliedOf(p.snapshot), pc := Done(p)))
  {
  }

  lemma Completes(t: Trace, p: Plan) returns (t': Trace)
    requires Good(t) && Inv(Last(t)) && LiveInv(Last(t)) && Last(t).pc == Settled(p) && p.pending == {}
    ensures Good(t') && Last(t').pc == Done(p) && Last(t').disk == Last(t).disk
    ensures Last(t').journal == Last(t).journal && Last(t').sessions == Last(t).sessions
    ensures |t.states| <= |t'.states| && t'.states[..|t.states|] == t.states
  {
    hide LiveInv, Inv, Do;
    Commits(Last(t), p);
    t' := Extend(t, SkipRetry);
    if p.overrideChanged {
      t' := Extend(t', SaveOverrides);
      t' := Extend(t', SwapOverrides);
    } else {
      t' := Extend(t', SkipOverrides);
    }
    SavesApplied(Last(t'), p);
    t' := Extend(t', SaveApplied);
  }

  /** After the restart the client is revoked once more, and the reconciliation succeeds. */
  lemma RevokedAgain(t: Trace) returns (t': Trace)
    requires Good(t) && Inv(Last(t)) && LiveInv(Last(t))
    requires var n := Last(t);
             && n.pc == Down && n.settings == NODE.settings && n.applied == Unapplied
             && n.journal == {} && n.sessions == {"a"} && HasVless(n.disk) && Emails(n.disk) == {}
    ensures Good(t')
    ensures var n := Last(t');
            && n.pc.Done? && n.pc.plan.snapshot == REVOKE_AGAIN
            && n.sessions == {"a"} && n.journal == {} && Emails(n.disk) == {}
    ensures |t.states| <= |t'.states| && t'.states[..|t.states|] == t.states
  {
    hide AuthOf, LiveInv, Inv, MakePlan, Emails, HasVless, Load, PlanOk, WellFormedItems, Do, DesiredClients;
    hide DesiredRoutes, ClientEmails;
    Boots(Last(t));
    t' := Extend(t, Boot);
    t' := Extend(t', BootDone);
    t' := RevokesAgain(t');
  }

  lemma RevokesAgain(t: Trace) returns (t': Trace)
    requires Good(t) && Inv(Last(t)) && LiveInv(Last(t))
    requires var n := Last(t);
             && n.pc == Idle && n.settings == NODE.settings && n.applied == Unapplied
             && n.journal == {} && n.sessions == {"a"} && HasVless(n.disk) && Emails(n.disk) == {}
    ensures Good(t')
    ensures var n := Last(t');
            && n.pc.Done? && n.pc.plan.snapshot == REVOKE_AGAIN
            && n.sessions == {"a"} && n.journal == {} && Emails(n.disk) == {}
    ensures |t.states| <= |t'.states| && t'.states[..|t.states|] == t.states
  {
    hide AuthOf, LiveInv, Inv, MakePlan, Emails, HasVless, Load, PlanOk, WellFormedItems, Do, DesiredClients;
    hide DesiredRoutes, ClientEmails;
    NothingDesired(0);
    var p := PlanOf(Last(t), REVOKE_AGAIN, 0);
    assert p.pending == {} && p.changed;
    Begins(Last(t), REVOKE_AGAIN, 0, p);
    t' := Extend(t, Begin(REVOKE_AGAIN, 0));
    t' := Settles(t', p);
    t' := Completes(t', p);
  }

  /** A reachable state with a live session that neither the config nor the journal knows; and
      revoking the email again succeeds without ever kicking it. */
  lemma SessionLost() returns (t: Trace, k: nat)
    ensures Good(t) && k < |t.states|
    ensures var lost := t.states[k];
            lost.pc.Down? && "a" in lost.sessions && "a" !in Emails(lost.disk) + lost.journal && !Guarded(lost)
    ensures var n := Last(t);
            && n.pc.Done? && n.pc.plan.snapshot == REVOKE_AGAIN && "a" in n.sessions
            && "a" !in n.pc.plan.DesiredEmails() && "a" !in Emails(n.disk) + n.journal
    ensures !Spared(t.states, t.steps) && !NeverReauthorises(t.states, t.steps)
  {
    hide LiveInv, Inv, Emails, HasVless, Do, Spares, Reauthorises, Start, WellFormedItems;
    t := SignIn();
    t := KickFails(t);
    t := Restored(t);
    k := |t.steps|;
    var lost := Last(t);
    t := RevokedAgain(t);
    assert t.states[k] == lost;
    NothingDesired(0);
    SessionsGuardedExactly(t.states, t.steps);
    if NeverReauthorises(t.states, t.steps) {
      NoSessionEscapes(t.states, t.steps, k);
    }
    DesiredNone(Last(t).pc.plan);
  }

  lemma DesiredNone(p: Plan)
    requires p.snapshot.items == []
    ensures p.DesiredEmails() == {}
  {
  }
}
