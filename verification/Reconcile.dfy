/** agent/app/reconcile.py: what one reconciliation decides before it touches anything. */
module Reconcile {
  import opened Wrappers
  import opened PyDict
  import opened Items
  import opened XrayConfig
  import opened Cascade

  datatype DesiredClient = DesiredClient(uuid: string, email: string)

  datatype AppliedState = AppliedState(
    schemaVersion: nat, generation: nat, digest: Option<Digest>, items: seq<Item>)

  const Unapplied := AppliedState(1, 0, None, [])

  function AppliedOf(snapshot: Snapshot): AppliedState {
    AppliedState(snapshot.schemaVersion, snapshot.generation, Some(snapshot.digest), snapshot.items)
  }

  // --- _desired_parts -------------------------------------------------------------------

  /** Unexpired clients and every cascade service, in snapshot order. */
  function DesiredClients(items: seq<Item>, nowMs: nat): seq<DesiredClient> {
    if items == [] then []
    else
      (match items[0]
       case Client(uuid, email, expireMs) => if expireMs > nowMs then [DesiredClient(uuid, email)] else []
       case Service(_, _, _, uuid, email) => [DesiredClient(uuid, email)]
       case _ => [])
      + DesiredClients(items[1..], nowMs)
  }

  function DesiredOverrides(items: seq<Item>): map<nat, nat> {
    if items == [] then map[]
    else
      (match items[0] case ConnLimit(userId, limit) => map[userId := limit] case _ => map[])
      + DesiredOverrides(items[1..])
  }

  function DesiredRoutes(items: seq<Item>): seq<CascadeRoute> {
    if items == [] then []
    else (if items[0].Route? then [items[0].route] else []) + DesiredRoutes(items[1..])
  }

  // --- one inbound ------------------------------------------------------------------------

  datatype Addition = Addition(tag: Option<string>, port: Option<nat>, record: ClientRecord)
  datatype Removal = Removal(tag: string, email: string)

  /** `record.get("flow")` counts only when truthy, and unknown keys are ignored. */
  function Projection(record: ClientRecord): ClientRecord {
    ClientRecord(record.id, record.email, if Truthy(record.flow) then record.flow else None, "")
  }

  function DesiredRecords(clients: seq<DesiredClient>, inbound: Inbound): (r: seq<ClientRecord>)
    ensures |r| == |clients|
    ensures forall k :: 0 <= k < |r| ==> r[k] == BuildClientRecord(clients[k].uuid, clients[k].email, inbound)
  {
    seq(|clients|, k requires 0 <= k < |clients| => BuildClientRecord(clients[k].uuid, clients[k].email, inbound))
  }

  /** (id, record) for the records whose id is truthy. */
  function Keyed(records: seq<ClientRecord>): seq<(string, ClientRecord)> {
    if records == [] then []
    else (if Truthy(records[0].id) then [(records[0].id.value, records[0])] else []) + Keyed(records[1..])
  }

  function DesiredPairs(clients: seq<DesiredClient>, inbound: Inbound): (r: seq<(string, ClientRecord)>)
    ensures |r| == |clients|
    ensures forall k :: 0 <= k < |r| ==>
              r[k] == (clients[k].uuid, BuildClientRecord(clients[k].uuid, clients[k].email, inbound))
  {
    seq(|clients|, k requires 0 <= k < |clients| =>
      (clients[k].uuid, BuildClientRecord(clients[k].uuid, clients[k].email, inbound)))
  }

  function Existing(inbound: Inbound): Dict<ClientRecord> {
    FromPairs(Keyed(inbound.clients))
  }

  function Desired(clients: seq<DesiredClient>, inbound: Inbound): Dict<ClientRecord> {
    FromPairs(DesiredPairs(clients, inbound))
  }

  predicate Kept(record: ClientRecord, desired: Option<ClientRecord>) {
    desired.Some? && Projection(record) == desired.value
  }

  function RemovalsFrom(existing: Dict<ClientRecord>, desired: Dict<ClientRecord>, tag: Option<string>): seq<Removal> {
    if existing == [] then []
    else
      var (uuid, record) := existing[0];
      (if Kept(record, Get(desired, uuid)) || !Truthy(tag) || !Truthy(record.email) then []
       else [Removal(tag.value, record.email.value)])
      + RemovalsFrom(existing[1..], desired, tag)
  }

  function AdditionsFrom(desired: Dict<ClientRecord>, existing: Dict<ClientRecord>, inbound: Inbound): seq<Addition> {
    if desired == [] then []
    else
      var (uuid, record) := desired[0];
      var was := Get(existing, uuid);
      (if was.Some? && Projection(was.value) == record then []
       else [Addition(inbound.tag, inbound.port, record)])
      + AdditionsFrom(desired[1..], existing, inbound)
  }

  // --- all inbounds -------------------------------------------------------------------------

  function Removals(inbounds: seq<Inbound>, clients: seq<DesiredClient>): seq<Removal> {
    if inbounds == [] then []
    else
      (if IsVless(inbounds[0])
       then RemovalsFrom(Existing(inbounds[0]), Desired(clients, inbounds[0]), inbounds[0].tag) else [])
      + Removals(inbounds[1..], clients)
  }

  function Additions(inbounds: seq<Inbound>, clients: seq<DesiredClient>): seq<Addition> {
    if inbounds == [] then []
    else
      (if IsVless(inbounds[0])
       then AdditionsFrom(Desired(clients, inbounds[0]), Existing(inbounds[0]), inbounds[0]) else [])
      + Additions(inbounds[1..], clients)
  }

  function SetClients(inbound: Inbound, clients: seq<DesiredClient>): Inbound {
    if IsVless(inbound) then inbound.(clients := DesiredRecords(clients, inbound)) else inbound
  }

  function NewInbounds(inbounds: seq<Inbound>, clients: seq<DesiredClient>): (r: seq<Inbound>)
    ensures |r| == |inbounds| && forall k :: 0 <= k < |r| ==> r[k] == SetClients(inbounds[k], clients)
  {
    seq(|inbounds|, k requires 0 <= k < |inbounds| => SetClients(inbounds[k], clients))
  }

  function NewConfig(config: Config, clients: seq<DesiredClient>, routes: seq<CascadeRoute>): Config {
    Applied(config, routes).(inbounds := NewInbounds(config.inbounds, clients))
  }

  // --- the plan -----------------------------------------------------------------------------

  function ClientEmails(clients: seq<DesiredClient>): set<string> {
    set c | c in clients :: c.email
  }

  function RemovedEmails(removals: seq<Removal>): set<string> {
    set r | r in removals :: r.email
  }

  /** What the agent reads when a reconciliation starts. */
  datatype Base = Base(disk: Config, journal: set<string>, overrides: map<nat, nat>, applied: AppliedState)

  datatype Plan = Plan(
    base: Base, snapshot: Snapshot, nowMs: nat,
    config: Config, pending: set<string>, overrides: map<nat, nat>,
    removals: seq<Removal>, additions: seq<Addition>,
    cascadeChanged: bool, configChanged: bool, overrideChanged: bool, changed: bool)
  {
    function Clients(): seq<DesiredClient> {
      DesiredClients(snapshot.items, nowMs)
    }

    function DesiredEmails(): set<string> {
      ClientEmails(Clients())
    }

    /** What the agent has on disk and in memory once the reconciliation succeeds. */
    function Outcome(): Base {
      if !changed then base else Base(config, {}, overrides, AppliedOf(snapshot))
    }
  }

  function MakePlan(base: Base, snapshot: Snapshot, nowMs: nat): Result<Plan, CascadeError> {
    var clients := DesiredClients(snapshot.items, nowMs);
    var routes := DesiredRoutes(snapshot.items);
    var overrides := DesiredOverrides(snapshot.items);
    var (cascaded, error) := Apply(base.disk, routes);
    if error.Some? then Err(error.value)
    else
      var desired := ClientEmails(clients);
      var effective := base.journal - desired;
      var config := NewConfig(base.disk, clients, routes);
      var removals := Removals(base.disk.inbounds, clients);
      var cascadeChanged := cascaded != base.disk;
      var configChanged := cascadeChanged || config.inbounds != base.disk.inbounds;
      var overrideChanged := base.overrides != overrides;
      var stateChanged :=
        base.applied.generation != snapshot.generation
        || base.applied.digest != Some(snapshot.digest)
        || base.applied.items != snapshot.items;
      Ok(Plan(
           base, snapshot, nowMs, config, effective + (RemovedEmails(removals) - desired), overrides,
           removals, Additions(base.disk.inbounds, clients),
           cascadeChanged, configChanged, overrideChanged,
           configChanged || overrideChanged || stateChanged || effective != {} || effective != base.journal))
  }

  // --- what the plan is worth ---------------------------------------------------------------

  predicate WellFormedInbound(inbound: Inbound) {
    && Truthy(inbound.tag)
    && (forall r :: r in inbound.clients ==> Truthy(r.id))
    && (forall i, j :: 0 <= i < j < |inbound.clients| ==> inbound.clients[i].id != inbound.clients[j].id)
  }

  /** VLESS inbounds carry a tag, and every client on one an id of its own. */
  predicate WellFormedDisk(config: Config) {
    forall inbound :: inbound in config.inbounds && IsVless(inbound) ==> WellFormedInbound(inbound)
  }

  predicate HasVless(config: Config) {
    exists inbound :: inbound in config.inbounds && IsVless(inbound)
  }

  /** Client and service UUIDs differ and nothing is blank. */
  predicate WellFormedClients(clients: seq<DesiredClient>) {
    && (forall c :: c in clients ==> c.uuid != "" && c.email != "")
    && (forall i, j :: 0 <= i < j < |clients| ==> clients[i].uuid != clients[j].uuid)
  }

  lemma {:induction false} KeyedAll(records: seq<ClientRecord>)
    requires forall r :: r in records ==> Truthy(r.id)
    ensures |Keyed(records)| == |records|
    ensures forall k :: 0 <= k < |records| ==>
              records[k].id.Some? && Keyed(records)[k] == (records[k].id.value, records[k])
  {
    if records != [] {
      assert records[0] in records;
      KeyedAll(records[1..]);
    }
  }

  lemma ExistingIs(inbound: Inbound)
    requires WellFormedInbound(inbound)
    ensures Existing(inbound) == Keyed(inbound.clients) && DistinctKeys(Existing(inbound))
    ensures |Existing(inbound)| == |inbound.clients|
    ensures forall k :: 0 <= k < |inbound.clients| ==>
              Existing(inbound)[k] == (inbound.clients[k].id.value, inbound.clients[k])
  {
    KeyedAll(inbound.clients);
    forall k | 0 <= k < |inbound.clients| ensures Truthy(inbound.clients[k].id) {
      assert inbound.clients[k] in inbound.clients;
    }
    FromDistinct(Keyed(inbound.clients));
  }

  lemma DesiredIs(clients: seq<DesiredClient>, inbound: Inbound)
    requires WellFormedClients(clients)
    ensures Desired(clients, inbound) == DesiredPairs(clients, inbound) && DistinctKeys(Desired(clients, inbound))
  {
    FromDistinct(DesiredPairs(clients, inbound));
  }

  lemma {:induction false} RemovalMember(
    existing: Dict<ClientRecord>, desired: Dict<ClientRecord>, tag: Option<string>, k: nat)
    requires k < |existing| && Truthy(tag) && Truthy(existing[k].1.email)
    requires !Kept(existing[k].1, Get(desired, existing[k].0))
    ensures Removal(tag.value, existing[k].1.email.value) in RemovalsFrom(existing, desired, tag)
  {
    if k > 0 {
      RemovalMember(existing[1..], desired, tag, k - 1);
    }
  }

  lemma {:induction false} RemovalsMember(inbounds: seq<Inbound>, clients: seq<DesiredClient>, k: nat, r: Removal)
    requires k < |inbounds| && IsVless(inbounds[k])
    requires r in RemovalsFrom(Existing(inbounds[k]), Desired(clients, inbounds[k]), inbounds[k].tag)
    ensures r in Removals(inbounds, clients)
  {
    if k > 0 {
      RemovalsMember(inbounds[1..], clients, k - 1, r);
    }
  }

  lemma {:induction false} GetDesiredEmail(clients: seq<DesiredClient>, inbound: Inbound, uuid: string)
    requires WellFormedClients(clients) && Get(Desired(clients, inbound), uuid).Some?
    ensures var record := Get(Desired(clients, inbound), uuid).value;
            record.email.Some? && record.email.value in ClientEmails(clients)
  {
    DesiredIs(clients, inbound);
    GetSome(Desired(clients, inbound), uuid);
    var pair := (uuid, Get(Desired(clients, inbound), uuid).value);
    var k :| 0 <= k < |clients| && DesiredPairs(clients, inbound)[k] == pair;
    assert clients[k] in clients;
  }

  /** Whoever is configured but no longer desired is among the removed emails. */
  lemma RemovalsCover(config: Config, clients: seq<DesiredClient>)
    requires WellFormedDisk(config) && WellFormedClients(clients)
    ensures Emails(config) - ClientEmails(clients) <= RemovedEmails(Removals(config.inbounds, clients))
  {
    forall e | e in Emails(config) - ClientEmails(clients)
      ensures e in RemovedEmails(Removals(config.inbounds, clients))
    {
      var inbound, record :| inbound in config.inbounds && IsVless(inbound) && record in inbound.clients
                             && Truthy(record.email) && record.email.value == e;
      var k :| 0 <= k < |config.inbounds| && config.inbounds[k] == inbound;
      var j :| 0 <= j < |inbound.clients| && inbound.clients[j] == record;
      ExistingIs(inbound);
      var desired := Desired(clients, inbound);
      if Get(desired, record.id.value).Some? {
        GetDesiredEmail(clients, inbound, record.id.value);
      }
      RemovalMember(Existing(inbound), desired, inbound.tag, j);
      var r := Removal(inbound.tag.value, e);
      RemovalsMember(config.inbounds, clients, k, r);
      assert r.email == e;
    }
  }

  lemma NewEmailsDesired(config: Config, clients: seq<DesiredClient>, routes: seq<CascadeRoute>, e: string)
    requires e in Emails(NewConfig(config, clients, routes))
    ensures HasVless(config) && e in ClientEmails(clients)
  {
    var config' := NewConfig(config, clients, routes);
    var inbound, record :| inbound in config'.inbounds && IsVless(inbound) && record in inbound.clients
                           && Truthy(record.email) && record.email.value == e;
    var k :| 0 <= k < |config'.inbounds| && config'.inbounds[k] == inbound;
    assert config.inbounds[k] in config.inbounds && IsVless(config.inbounds[k]);
    var j :| 0 <= j < |inbound.clients| && inbound.clients[j] == record;
    assert clients[j] in clients && clients[j].email == e;
  }

  lemma DesiredEmailsNew(config: Config, clients: seq<DesiredClient>, routes: seq<CascadeRoute>, c: DesiredClient)
    requires WellFormedClients(clients) && HasVless(config) && c in clients
    ensures c.email in Emails(NewConfig(config, clients, routes))
  {
    var config' := NewConfig(config, clients, routes);
    var was :| was in config.inbounds && IsVless(was);
    var k :| 0 <= k < |config.inbounds| && config.inbounds[k] == was;
    var inbound := config'.inbounds[k];
    assert inbound in config'.inbounds && IsVless(inbound);
    var j :| 0 <= j < |clients| && clients[j] == c;
    assert inbound.clients[j] in inbound.clients;
  }

  lemma NewEmails(config: Config, clients: seq<DesiredClient>, routes: seq<CascadeRoute>)
    requires WellFormedClients(clients)
    ensures Emails(NewConfig(config, clients, routes)) == if HasVless(config) then ClientEmails(clients) else {}
  {
    hide NewConfig, Emails;
    forall e | e in Emails(NewConfig(config, clients, routes)) ensures HasVless(config) && e in ClientEmails(clients) {
      NewEmailsDesired(config, clients, routes, e);
    }
    if HasVless(config) {
      forall c | c in clients ensures c.email in Emails(NewConfig(config, clients, routes)) {
        DesiredEmailsNew(config, clients, routes, c);
      }
    }
  }

  lemma NewDiskWellFormed(config: Config, clients: seq<DesiredClient>, routes: seq<CascadeRoute>)
    requires WellFormedDisk(config) && WellFormedClients(clients)
    ensures WellFormedDisk(NewConfig(config, clients, routes))
    ensures HasVless(NewConfig(config, clients, routes)) == HasVless(config)
  {
    var config' := NewConfig(config, clients, routes);
    forall inbound | inbound in config'.inbounds && IsVless(inbound)
      ensures WellFormedInbound(inbound) && HasVless(config)
    {
      var k :| 0 <= k < |config'.inbounds| && config'.inbounds[k] == inbound;
      var was := config.inbounds[k];
      assert was in config.inbounds && IsVless(was);
      forall r | r in inbound.clients ensures Truthy(r.id) {
        var j :| 0 <= j < |clients| && inbound.clients[j] == r;
        assert clients[j] in clients;
      }
    }
    if was :| was in config.inbounds && IsVless(was) {
      var k :| 0 <= k < |config.inbounds| && config.inbounds[k] == was;
      assert config'.inbounds[k] in config'.inbounds && IsVless(config'.inbounds[k]);
    }
  }
}
