/** The centre and one node together: publishing, syncing, downloading, applying, acknowledging and
    pruning, with acknowledgements lost, delayed or repeated and the agent crashing anywhere. */
module Protocol {
  import opened Wrappers
  import opened Items
  import opened XrayConfig
  import opened Cascade
  import opened Reconcile
  import opened LiveDelta
  import opened Hysteria
  import opened Convergence
  import opened NodeMachine
  import opened NodeSafety
  import opened Centre
  import opened StoreShape
  import opened Transport

  /** What the agent's control task is doing with the centre. */
  datatype Task =
    | Resting
    | Asked(generation: nat, digest: Option<Digest>)
    | Downloading(manifest: Manifest)
    | Received(snapshot: Snapshot)
    | Applying(snapshot: Snapshot)

  datatype Ack = Ack(generation: nat, digest: Digest)

  /** `history` is what each generation was published with, `wire` every acknowledgement ever
      sent, `durable` every generation the node ever held as its applied state. */
  datatype System = System(
    row: Row, history: History, node: Node, task: Task, wire: set<Ack>, durable: set<nat>)

  datatype Event =
    | Publication(p: Published)
    | Ask
    | Answer
    | Lose
    | Receive(link: Link, limits: Limits)
    | NodeStep(step: Step)
    | SendAck
    | Deliver(ack: Ack, pages: seq<Page>)

  /** What `build_desired_items` can produce. */
  ghost predicate Built(p: Published) {
    Coherent(p) && WellFormedItems(p.items) && ValidSchema(p.schema)
  }

  function SnapshotOf(history: History, g: nat): Snapshot
    requires g in history
  {
    Snapshot(history[g].schema, g, ItemsDigest(history[g].items), history[g].items)
  }

  /** A reconciliation starts from a received snapshot, or replays the applied one. */
  ghost predicate MayBegin(s: System, snapshot: Snapshot) {
    || s.task == Received(snapshot)
    || (s.task.Resting? && s.node.journal == {} && s.node.applied.generation >= 1
        && s.node.applied.digest.Some? && snapshot == CachedSnapshot(s.node.applied))
  }

  function TaskAfter(task: Task, step: Step, pc: Pc): Task {
    if pc.Down? then Resting
    else if step.Begin? && task.Received? && HasPlan(pc) then Applying(task.snapshot)
    else if step.Begin? || (task.Applying? && !HasPlan(pc)) then Resting
    else task
  }

  ghost function Next(s: System, e: Event): Option<System> {
    match e
    case Publication(p) =>
      if !Built(p) then None
      else
        var row := Publish(s.row, p.schema, p.items, p.size);
        Some(s.(row := row, history := PublishedHistory(s.row, row, s.history, p)))
    case Ask =>
      if s.task.Resting? && s.node.pc.Idle?
      then Some(s.(task := Asked(s.node.applied.generation, s.node.applied.digest))) else None
    case Answer =>
      if !s.task.Asked? then None
      else
        var reply := SyncReply(s.row, s.task.generation, s.task.digest);
        Some(s.(task := if reply.Some? then Downloading(reply.value) else Resting))
    case Lose =>
      if s.task.Resting? || s.task.Applying? then None else Some(s.(task := Resting))
    case Receive(link, limits) =>
      if s.task.Downloading? && link.Reply(0) == Ok(Response(200, ManifestBody(s.task.manifest)))
         && SyncResult(link, limits).Ok? && SyncResult(link, limits).value.Some?
      then Some(s.(task := Received(SyncResult(link, limits).value.value))) else None
    case NodeStep(step) =>
      if Do(s.node, step).None? || (step.Begin? && !MayBegin(s, step.snapshot)) then None
      else
        var node := Do(s.node, step).value;
        Some(s.(node := node, task := TaskAfter(s.task, step, node.pc), durable := s.durable + {node.applied.generation}))
    case SendAck =>
      if s.task.Applying? && s.node.pc.Done?
      then Some(s.(wire := s.wire + {Ack(s.task.snapshot.generation, s.task.snapshot.digest)})) else None
    case Deliver(ack, pages) =>
      if ack in s.wire && PagesOf(s.row, ack.generation, pages)
      then Some(s.(row := Acknowledge(s.row, ack.generation, ack.digest, true, None, pages).0)) else None
  }

  // --- the invariant -----------------------------------------------------------------------------------

  ghost predicate FromHistory(history: History, snapshot: Snapshot) {
    snapshot.generation in history && snapshot == SnapshotOf(history, snapshot.generation)
  }

  /** A manifest on its way is a published one. */
  ghost predicate ManifestKnown(history: History, m: Manifest) {
    && m.generation in history && history[m.generation].size >= 1
    && m == ManifestOf(m.generation, history[m.generation].schema, history[m.generation].items, history[m.generation].size)
  }

  ghost predicate AppliedKnown(history: History, applied: AppliedState) {
    if applied.generation == 0 then applied == Unapplied
    else applied.generation in history && applied == AppliedOf(SnapshotOf(history, applied.generation))
  }

  /** Nothing the agent is busy with is older than what it has applied. */
  ghost predicate TaskOk(history: History, node: Node, task: Task) {
    match task
    case Resting => true
    case Asked(generation, digest) =>
      node.pc.Idle? && generation == node.applied.generation && digest == node.applied.digest
    case Downloading(m) =>
      node.pc.Idle? && ManifestKnown(history, m) && node.applied.generation <= m.generation
    case Received(snapshot) =>
      node.pc.Idle? && FromHistory(history, snapshot) && node.applied.generation <= snapshot.generation
    case Applying(snapshot) => HasPlan(node.pc) && node.pc.plan.snapshot == snapshot
  }

  ghost predicate PlanKnown(history: History, node: Node) {
    HasPlan(node.pc) ==>
      && FromHistory(history, node.pc.plan.snapshot)
      && node.applied.generation <= node.pc.plan.snapshot.generation
  }

  ghost predicate WireOk(s: System) {
    forall a :: a in s.wire ==>
      && a.generation in s.durable && a.generation <= s.node.applied.generation
      && a.generation in s.history && a.digest == ItemsDigest(s.history[a.generation].items)
  }

  ghost predicate HistoryBuilt(history: History) {
    forall g :: g in history ==> Built(history[g])
  }

  ghost predicate SystemInv(s: System) {
    && StoreInv(s.row, s.history) && HistoryBuilt(s.history)
    && Inv(s.node)
    && s.row.applied <= s.node.applied.generation <= s.row.desired
    && s.node.applied.generation in s.durable
    && (s.row.applied > 0 ==> s.row.applied in s.durable)
    && AppliedKnown(s.history, s.node.applied)
    && PlanKnown(s.history, s.node)
    && TaskOk(s.history, s.node, s.task)
    && WireOk(s)
  }

  // --- the node's part -----------------------------------------------------------------------------------

  /** Only the last write of a reconciliation moves the applied state, and only to its snapshot;
      only a beginning brings in a new plan. */
  ghost predicate Moves(n: Node, step: Step, n': Node) {
    && (n'.applied == n.applied || (step.SaveApplied? && HasPlan(n.pc) && n'.applied == AppliedOf(n.pc.plan.snapshot)))
    && (HasPlan(n'.pc) ==>
          if step.Begin? then n'.pc.plan.snapshot == step.snapshot
          else HasPlan(n.pc) && n'.pc.plan.snapshot == n.pc.plan.snapshot)
    && (n.pc.Idle? ==> n'.pc.Idle? || n'.pc.Down? || step.Begin?)
    && (step.Begin? ==> n.pc.Idle? && n'.applied == n.applied && (n'.pc.Idle? || HasPlan(n'.pc)))
  }

  lemma PlanningMoves(n: Node, step: Step)
    requires DoPlanning(n, step).Some?
    ensures Moves(n, step, DoPlanning(n, step).value)
  {
    hide MakePlan, Load, AuthOf;
    if step.Begin? && MakePlan(n.Base(), step.snapshot, step.nowMs).Ok? {
      PlanMade(n.Base(), step.snapshot, step.nowMs);
    }
  }

  lemma AppliedMoves(n: Node, step: Step)
    requires Do(n, step).Some?
    ensures Moves(n, step, Do(n, step).value)
  {
    hide AuthOf, Load, Emails, MakePlan, DoPlanning;
    match KindOf(step) {
      case Planning => PlanningMoves(n, step);
      case _ =>
    }
  }

  lemma FinishedPlan(n: Node)
    requires Inv(n) && n.pc.Done?
    ensures n.applied.generation == n.pc.plan.snapshot.generation
  {
    hide MakePlan, WellFormedDisk, WellFormedItems, AuthOf;
    PlanMade(n.pc.plan.base, n.pc.plan.snapshot, n.pc.plan.nowMs);
  }

  lemma BeginKnown(s: System, snapshot: Snapshot)
    requires SystemInv(s) && MayBegin(s, snapshot)
    ensures FromHistory(s.history, snapshot) && s.node.applied.generation <= snapshot.generation
    ensures WellFormedItems(snapshot.items)
  {
    hide StoreInv, Inv, PlanKnown, WireOk, WellFormedItems, Coherent;
    assert FromHistory(s.history, snapshot);
    assert Built(s.history[snapshot.generation]);
  }

  lemma NodeKeeps(s: System, step: Step)
    requires SystemInv(s) && Next(s, NodeStep(step)).Some?
    ensures SystemInv(Next(s, NodeStep(step)).value)
    ensures s.node.applied.generation <= Next(s, NodeStep(step)).value.node.applied.generation
  {
    hide StoreInv, Inv, Built, Do, MayBegin, ManifestKnown;
    var s' := Next(s, NodeStep(step)).value;
    if step.Begin? {
      BeginKnown(s, step.snapshot);
    }
    InvStep(s.node, step);
    AppliedMoves(s.node, step);
    HistoryBound(s);
    assert AppliedKnown(s'.history, s'.node.applied) && s'.node.applied.generation <= s'.row.desired;
    assert PlanKnown(s'.history, s'.node);
    assert TaskOk(s'.history, s'.node, s'.task) by {
      if step.Begin? {
        MayBeginTask(s, step);
      }
    }
    assert WireOk(s');
  }

  lemma MayBeginTask(s: System, step: Step)
    requires Next(s, NodeStep(step)).Some? && step.Begin?
    ensures s.task == Received(step.snapshot) || s.task.Resting?
  {
  }

  lemma HistoryBound(s: System)
    requires StoreInv(s.row, s.history)
    ensures forall g :: g in s.history <==> 1 <= g <= s.row.desired
  {
    hide SnapshotsStored, AcksExact, Coherent;
  }

  // --- the centre's part -----------------------------------------------------------------------------------

  ghost predicate Extends(history: History, history': History) {
    forall g :: g in history ==> g in history' && history'[g] == history[g]
  }

  lemma PublicationKeeps(s: System, p: Published)
    requires SystemInv(s) && Built(p)
    ensures SystemInv(Next(s, Publication(p)).value)
    ensures Extends(s.history, Next(s, Publication(p)).value.history)
  {
    hide StoreInv, Inv, Coherent, Publish, WellFormedItems, HasPlan;
    assert Coherent(p);
    PublishKeeps(s.row, s.history, p);
    HistoryBound(s);
    var s' := Next(s, Publication(p)).value;
    assert Extends(s.history, s'.history);
    assert HistoryBuilt(s'.history);
    assert PlanKnown(s'.history, s'.node);
    assert TaskOk(s'.history, s'.node, s'.task);
    assert WireOk(s');
  }

  lemma DeliverKeeps(s: System, ack: Ack, pages: seq<Page>)
    requires SystemInv(s) && Next(s, Deliver(ack, pages)).Some?
    ensures SystemInv(Next(s, Deliver(ack, pages)).value)
    ensures s.row.applied <= Next(s, Deliver(ack, pages)).value.row.applied
  {
    hide StoreInv, Inv, Acknowledge, HistoryBuilt, PlanKnown, TaskOk, AppliedKnown, PagesOf;
    AcknowledgeKeeps(s.row, s.history, ack.generation, ack.digest, true, None, pages);
  }

  /** What a node that is up to date is told to fetch is what is published last. */
  lemma LatestKnown(s: System)
    requires SystemInv(s) && Latest(s.row).Some?
    ensures s.row.desired > 0 && Latest(s.row).value.generation == s.row.desired
    ensures ManifestKnown(s.history, Latest(s.row).value)
  {
    hide Inv, HistoryBuilt, PlanKnown, TaskOk, WireOk, Latest;
    LatestIsDesired(s.row, s.history);
    LatestManifest(s.row, s.history);
  }

  lemma TaskKeeps(s: System, e: Event)
    requires SystemInv(s) && Next(s, e).Some?
    requires e.Ask? || e.Answer? || e.Lose? || e.Receive? || e.SendAck?
    ensures SystemInv(Next(s, e).value)
  {
    hide StoreInv, Inv, HistoryBuilt, PlanKnown, AppliedKnown, Latest, SyncResult, ManifestOk;
    match e {
      case Answer =>
        if Latest(s.row).Some? {
          LatestKnown(s);
        }
      case Receive(link, limits) => ReceiveGenuine(s, link, limits);
      case SendAck =>
        FinishedPlan(s.node);
        PlanIsKnown(s);
      case _ =>
    }
  }

  lemma PlanIsKnown(s: System)
    requires SystemInv(s) && HasPlan(s.node.pc)
    ensures FromHistory(s.history, s.node.pc.plan.snapshot)
  {
    hide StoreInv, Inv, HistoryBuilt;
  }

  /** Whatever pages arrived, what is accepted is what was published under that generation. */
  lemma ReceiveGenuine(s: System, link: Link, limits: Limits)
    requires SystemInv(s) && Next(s, Receive(link, limits)).Some?
    ensures SyncResult(link, limits).value.value == SnapshotOf(s.history, s.task.manifest.generation)
  {
    hide StoreInv, Inv, HistoryBuilt, PlanKnown, WireOk, SyncResult, ManifestOk;
    AcceptedHasManifest(link, limits);
    AcceptedIsGenuine(link, limits, s.history[s.task.manifest.generation].items);
  }

  /** One event: the invariant holds on, no counter goes back, nothing published is rewritten. */
  ghost predicate Forward(s: System, s': System) {
    && s.row.applied <= s'.row.applied && s.row.desired <= s'.row.desired
    && s.node.applied.generation <= s'.node.applied.generation
    && s.durable <= s'.durable && s.wire <= s'.wire && Extends(s.history, s'.history)
  }

  lemma SystemStep(s: System, e: Event)
    requires SystemInv(s) && Next(s, e).Some?
    ensures SystemInv(Next(s, e).value) && Forward(s, Next(s, e).value)
  {
    hide SystemInv;
    match e {
      case Publication(p) => PublicationKeeps(s, p); PublicationForward(s, p);
      case NodeStep(step) => NodeKeeps(s, step);
      case Deliver(ack, pages) => DeliverKeeps(s, ack, pages); DeliverForward(s, ack, pages);
      case _ => TaskKeeps(s, e);
    }
  }

  lemma PublicationForward(s: System, p: Published)
    requires SystemInv(s) && Built(p)
    ensures Forward(s, Next(s, Publication(p)).value)
  {
    hide StoreInv, Inv, Coherent, Publish, WellFormedItems;
    PublishKeeps(s.row, s.history, p);
    HistoryBound(s);
  }

  lemma DeliverForward(s: System, ack: Ack, pages: seq<Page>)
    requires SystemInv(s) && Next(s, Deliver(ack, pages)).Some?
    ensures Forward(s, Next(s, Deliver(ack, pages)).value)
  {
    hide StoreInv, Inv, Acknowledge, PagesOf;
    AcknowledgeKeeps(s.row, s.history, ack.generation, ack.digest, true, None, pages);
  }

  // --- whole runs --------------------------------------------------------------------------------------------

  ghost predicate SystemStart(s: System) {
    && s.row == EmptyRow && s.history == map[] && Start(s.node) && s.node.applied == Unapplied
    && s.task == Resting && s.wire == {} && s.durable == {0}
  }

  lemma StartOk(s: System)
    requires SystemStart(s)
    ensures SystemInv(s)
  {
  }

  ghost predicate SystemRun(states: seq<System>, events: seq<Event>) {
    && |states| == |events| + 1 && SystemStart(states[0])
    && forall k :: 0 <= k < |events| ==> Next(states[k], events[k]) == Some(states[k + 1])
  }

  lemma {:induction false} SystemRunInv(states: seq<System>, events: seq<Event>, k: nat)
    requires SystemRun(states, events) && k <= |events|
    ensures SystemInv(states[k])
  {
    hide SystemInv, SystemStart;
    if k == 0 {
      StartOk(states[0]);
    } else {
      SystemRunInv(states, events, k - 1);
      assert Next(states[k - 1], events[k - 1]) == Some(states[k - 1 + 1]);
      SystemStep(states[k - 1], events[k - 1]);
    }
  }

  /** Over every run: the centre's applied generation is one the node held durably, at most what it
      holds now and at most what is desired; its digest is that of a snapshot still stored. */
  lemma AppliedIsDurable(states: seq<System>, events: seq<Event>, k: nat)
    requires SystemRun(states, events) && k <= |events|
    ensures var s := states[k];
            && s.row.applied <= s.node.applied.generation <= s.row.desired
            && (s.row.applied > 0 ==>
                  && s.row.applied in s.durable && s.row.applied in s.row.snapshots
                  && s.row.appliedDigest == Some(s.row.snapshots[s.row.applied].digest))
  {
    hide Inv, HistoryBuilt, PlanKnown, TaskOk, WireOk;
    SystemRunInv(states, events, k);
  }

  /** Over every run, from any moment to any later one: neither the centre nor the node goes back,
      and no published generation is ever rewritten. */
  lemma {:induction false} NothingGoesBack(states: seq<System>, events: seq<Event>, i: nat, j: nat)
    requires SystemRun(states, events) && i <= j <= |events|
    ensures Forward(states[i], states[j])
  {
    hide SystemInv, SystemStart, Next, Forward;
    if i < j {
      NothingGoesBack(states, events, i, j - 1);
      SystemRunInv(states, events, j - 1);
      assert Next(states[j - 1], events[j - 1]) == Some(states[j - 1 + 1]);
      SystemStep(states[j - 1], events[j - 1]);
      ForwardOn(states[i], states[j - 1], states[j]);
    } else {
      ForwardNow(states[i]);
    }
  }

  lemma ForwardOn(a: System, b: System, c: System)
    requires Forward(a, b) && Forward(b, c)
    ensures Forward(a, c)
  {
  }

  lemma ForwardNow(s: System)
    ensures Forward(s, s)
  {
  }

  /** Over every run: the store holds exactly the generations from max(1, applied - 2) to desired,
      each with all of its pages and what it was published with, and no other page. */
  lemma StoreShapeHolds(states: seq<System>, events: seq<Event>, k: nat)
    requires SystemRun(states, events) && k <= |events|
    ensures var row, history := states[k].row, states[k].history;
            && (forall g :: g in row.snapshots <==> g >= 1 && g + 2 >= row.applied && g <= row.desired)
            && (forall g :: g in history <==> 1 <= g <= row.desired)
            && (forall g :: g in row.snapshots ==>
                  && row.snapshots[g].digest == ItemsDigest(history[g].items)
                  && row.snapshots[g].itemCount == |history[g].items|)
            && (forall g: nat, n: nat :: (g, n) in row.pages <==> g in row.snapshots && n < row.snapshots[g].pageCount)
            && (forall g :: g in history && g + 1 in history ==>
                  history[g].items != history[g + 1].items || history[g].schema != history[g + 1].schema)
            && StoreInv(row, history)
  {
    hide Inv, HistoryBuilt, PlanKnown, TaskOk, WireOk, AcksExact, Coherent, Chunks, AppliedKnown;
    SystemRunInv(states, events, k);
  }

  /** Once anything is published: a node gets a 204 exactly if it has applied the latest generation,
      and then its items are the latest snapshot's; any other node is told to fetch that snapshot. */
  lemma NotModifiedExactly(states: seq<System>, events: seq<Event>, k: nat)
    requires SystemRun(states, events) && k < |events| && events[k].Answer? && states[k].row.desired > 0
    ensures var s := states[k];
            && s.row.desired in s.history && s.row.desired in s.row.snapshots
            && (states[k + 1].task.Resting? <==> s.node.applied.generation == s.row.desired)
            && (states[k + 1].task.Resting? ==> s.node.applied.items == s.history[s.row.desired].items)
            && (!states[k + 1].task.Resting? ==> states[k + 1].task == Downloading(s.row.snapshots[s.row.desired]))
  {
    hide Inv, HistoryBuilt, WireOk, Latest, PagesStored, AcksExact, Coherent;
    var s := states[k];
    SystemRunInv(states, events, k);
    LatestIsDesired(s.row, s.history);
    LatestKnown(s);
    assert Next(s, events[k]) == Some(states[k + 1]);
  }

  /** However long a download takes, no page of it is pruned meanwhile. */
  lemma DownloadStaysStored(s: System)
    requires SystemInv(s) && s.task.Downloading?
    ensures var m := s.task.manifest;
            && ManifestKnown(s.history, m) && m.generation in s.row.snapshots && s.row.snapshots[m.generation] == m
            && PagesStored(s.row, s.history) && Built(s.history[m.generation])
            && forall n: nat :: n < m.pageCount ==> (m.generation, n) in s.row.pages
  {
    hide Inv, WireOk, PlanKnown, AppliedKnown, AcksExact, Chunks, Built;
  }

  lemma HistoryPositive(s: System, g: nat)
    requires SystemInv(s) && g in s.history
    ensures g >= 1
  {
    hide SnapshotsStored, AcksExact, Coherent, Inv;
  }

  ghost predicate AnsweredFrom(link: Link, row: Row, m: Manifest) {
    && link.Reply(0) == Ok(Response(200, ManifestBody(m)))
    && forall n: nat :: n < m.pageCount ==>
         (m.generation, n) in row.pages && link.Reply(n + 1) == Ok(Response(200, PageBody(row.pages[(m.generation, n)])))
  }

  lemma AnsweredServes(link: Link, row: Row, m: Manifest, h: Published)
    requires h.size >= 1 && m == ManifestOf(m.generation, h.schema, h.items, h.size) && AnsweredFrom(link, row, m)
    requires forall k: nat :: (m.generation, k) in row.pages ==>
               k < m.pageCount && row.pages[(m.generation, k)] == PageOf(m.generation, h.schema, h.items, h.size, k)
    ensures Serves(link, m.generation, h.schema, h.items, h.size)
  {
  }

  /** So asking the store, however late, yields the published snapshot, exactly when its items are
      valid and it fits the agent's limits. */
  lemma DownloadCompletes(states: seq<System>, events: seq<Event>, k: nat, link: Link, limits: Limits)
    requires SystemRun(states, events) && k <= |events| && states[k].task.Downloading?
    requires AnsweredFrom(link, states[k].row, states[k].task.manifest)
    ensures var s := states[k]; var m := s.task.manifest;
            && ManifestKnown(s.history, m)
            && (SyncResult(link, limits) == Ok(Some(SnapshotOf(s.history, m.generation)))
                <==> (forall x :: x in s.history[m.generation].items ==> !Faulty(x))
                     && Fits(s.history[m.generation].items, s.history[m.generation].size, limits))
  {
    hide Inv, SyncResult, Chunks, Fits, Faulty, NoRepeats, SystemInv, HaveExits, Coherent;
    SystemRunInv(states, events, k);
    var s := states[k];
    var m := s.task.manifest;
    DownloadStaysStored(s);
    var h := s.history[m.generation];
    HistoryPositive(s, m.generation);
    AnsweredServes(link, s.row, m, h);
    RoundTrip(link, limits, m.generation, h.schema, h.items, h.size);
  }

  /** When a success acknowledgement leaves, everything it promises is durably in place. */
  lemma AckMeansExact(states: seq<System>, events: seq<Event>, k: nat)
    requires SystemRun(states, events) && k < |events| && events[k].SendAck?
    ensures states[k].task.Applying? && states[k].node.pc.Done?
    ensures var s := states[k]; var n := s.node; var p := n.pc.plan;
            var snapshot := s.task.snapshot; var clients := DesiredClients(snapshot.items, p.nowMs);
            && FromHistory(s.history, snapshot)
            && (forall i :: i in n.disk.inbounds && IsVless(i) ==> i.clients == DesiredRecords(clients, i))
            && n.overrides == DesiredOverrides(snapshot.items) && n.savedOverrides == n.overrides
            && n.auth == (if HasVless(n.disk) then ClientMap(clients) else map[])
            && n.journal == {}
            && n.applied.generation == snapshot.generation && n.applied.items == snapshot.items
            && snapshot.generation in s.durable
  {
    hide StoreInv, HistoryBuilt, WireOk, SyncResult, DesiredRecords, MakePlan, ClientMap, AuthOf, WellFormedDisk;
    hide DesiredClients, DesiredOverrides;
    SystemRunInv(states, events, k);
    assert Next(states[k], events[k]) == Some(states[k + 1]);
    SuccessMeansExact(states[k].node);
  }

  /** The acknowledgement rows of a node, over every run: its routes with revision and digest as the
      snapshot it durably applied carries them. */
  lemma AckRowsAreApplied(states: seq<System>, events: seq<Event>, k: nat, route: nat)
    requires SystemRun(states, events) && k <= |events| && route in states[k].row.routeAcks
    ensures var s := states[k]; var row := s.row.routeAcks[route];
            && s.row.applied in s.durable && s.row.applied in s.history && row.generation == s.row.applied
            && CarriedBy(s.history[s.row.applied].items, route, (row.revision, row.configDigest))
  {
    hide Inv, HistoryBuilt, PlanKnown, TaskOk, WireOk, PagesStored, SnapshotsStored, Coherent;
    SystemRunInv(states, events, k);
  }

  // --- a revocation that stays pending -------------------------------------------------------------------------

  /** No reconciliation is under way and no snapshot is waiting for one. */
  ghost predicate Stalled(s: System) {
    !HasPlan(s.node.pc) && !s.task.Received?
  }

  ghost predicate SameState(n: Node, n': Node) {
    n'.disk == n.disk && n'.savedOverrides == n.savedOverrides && n'.applied == n.applied && n'.journal <= n.journal
  }

  lemma StallStep(s: System, e: Event)
    requires Stalled(s) && s.node.journal != {} && Next(s, e).Some? && !e.Receive?
    ensures Stalled(Next(s, e).value) && SameState(s.node, Next(s, e).value.node)
  {
    hide Publish, Acknowledge, PagesOf, Built, SyncResult, MakePlan, AuthOf, Load;
    if e.NodeStep? {
      NodeStalls(s.node, e.step);
    }
  }

  lemma NodeStalls(n: Node, step: Step)
    requires !HasPlan(n.pc) && Do(n, step).Some? && !step.Begin?
    ensures !HasPlan(Do(n, step).value.pc) && SameState(n, Do(n, step).value)
  {
    hide MakePlan, AuthOf, Load, Emails, DoPlanning;
    match KindOf(step) {
      case Planning => NothingPlanned(n, step);
      case _ =>
    }
  }

  lemma NothingPlanned(n: Node, step: Step)
    requires !HasPlan(n.pc) && !step.Begin?
    ensures DoPlanning(n, step).None?
  {
    hide MakePlan, AuthOf, Load;
  }

  /** Over every run: while a revocation is pending and no new snapshot has been received, nothing the
      node holds durably changes, whatever the clock says, but the journal, which only shrinks. The
      older state in the cache is never put back. */
  lemma {:induction false} PendingStalls(states: seq<System>, events: seq<Event>, i: nat, j: nat)
    requires SystemRun(states, events) && i <= j <= |events| && Stalled(states[i])
    requires forall k :: i <= k < j ==> states[k].node.journal != {} && !events[k].Receive?
    ensures Stalled(states[j]) && SameState(states[i].node, states[j].node)
  {
    hide SystemStart, Stalled, Next;
    if i < j {
      PendingStalls(states, events, i, j - 1);
      assert Next(states[j - 1], events[j - 1]) == Some(states[j - 1 + 1]);
      StallStep(states[j - 1], events[j - 1]);
    }
  }
}
