/** The users a running Xray accepts, and the remove/add calls that change them without a restart. */
module LiveDelta {
  import opened Wrappers
  import opened PyDict
  import opened XrayConfig
  import opened Reconcile

  datatype LiveUser = LiveUser(uuid: string, flow: Option<string>)

  /** Keyed by inbound tag and email: Xray allows an email once per inbound. */
  type Live = map<(string, string), LiveUser>

  function UserOf(record: ClientRecord): LiveUser {
    LiveUser(record.id.GetOr(""), Projection(record).flow)
  }

  function LoadClients(tag: string, records: seq<ClientRecord>): Live {
    if records == [] then map[]
    else
      (if Truthy(records[0].id) && Truthy(records[0].email)
       then map[(tag, records[0].email.value) := UserOf(records[0])] else map[])
      + LoadClients(tag, records[1..])
  }

  /** What a freshly started Xray accepts under a config. */
  function Load(inbounds: seq<Inbound>): Live {
    if inbounds == [] then map[]
    else
      (if IsVless(inbounds[0]) && Truthy(inbounds[0].tag)
       then LoadClients(inbounds[0].tag.value, inbounds[0].clients) else map[])
      + Load(inbounds[1..])
  }

  function RemoveUser(live: Live, r: Removal): Live {
    live - {(r.tag, r.email)}
  }

  function AddUser(live: Live, a: Addition): Live {
    live[(a.tag.GetOr(""), a.record.email.GetOr("")) := UserOf(a.record)]
  }

  function RemoveAll(live: Live, removals: seq<Removal>): Live
    decreases removals
  {
    if removals == [] then live else RemoveAll(RemoveUser(live, removals[0]), removals[1..])
  }

  function AddAll(live: Live, additions: seq<Addition>): Live
    decreases additions
  {
    if additions == [] then live else AddAll(AddUser(live, additions[0]), additions[1..])
  }

  /** All removals go first, then all additions. */
  function Delta(live: Live, removals: seq<Removal>, additions: seq<Addition>): Live {
    AddAll(RemoveAll(live, removals), additions)
  }

  // --- when the delta is meaningful ---------------------------------------------------------

  predicate LiveReadyInbound(inbound: Inbound) {
    && WellFormedInbound(inbound)
    && (forall r :: r in inbound.clients ==> Truthy(r.email))
    && (forall i, j :: 0 <= i < j < |inbound.clients| ==> inbound.clients[i].email != inbound.clients[j].email)
  }

  /** Tags unique, and per inbound ids and emails present and unique. */
  predicate LiveReady(inbounds: seq<Inbound>) {
    && (forall i :: i in inbounds && IsVless(i) ==> LiveReadyInbound(i))
    && (forall j, k :: 0 <= j < k < |inbounds| && IsVless(inbounds[j]) && IsVless(inbounds[k])
                       ==> inbounds[j].tag != inbounds[k].tag)
  }

  predicate DistinctEmails(clients: seq<DesiredClient>) {
    forall i, j :: 0 <= i < j < |clients| ==> clients[i].email != clients[j].email
  }

  // --- Load, pointwise -----------------------------------------------------------------------

  lemma {:induction false} LoadClientsAt(tag: string, records: seq<ClientRecord>, k: nat)
    requires k < |records| && (forall r :: r in records ==> Truthy(r.id) && Truthy(r.email))
    requires forall i, j :: 0 <= i < j < |records| ==> records[i].email != records[j].email
    ensures records[k].email.Some? && (tag, records[k].email.value) in LoadClients(tag, records)
    ensures LoadClients(tag, records)[(tag, records[k].email.value)] == UserOf(records[k])
  {
    assert records[0] in records && records[k] in records;
    if k > 0 {
      LoadClientsAt(tag, records[1..], k - 1);
    } else if (tag, records[0].email.value) in LoadClients(tag, records[1..]) {
      LoadClientsKey(tag, records[1..], tag, records[0].email.value);
    }
  }

  lemma {:induction false} LoadClientsKey(tag: string, records: seq<ClientRecord>, t: string, e: string)
    requires (t, e) in LoadClients(tag, records)
    ensures t == tag && exists k :: 0 <= k < |records| && records[k].email == Some(e)
  {
    if (t, e) in LoadClients(tag, records[1..]) {
      LoadClientsKey(tag, records[1..], t, e);
      var k :| 0 <= k < |records[1..]| && records[1..][k].email == Some(e);
      assert records[k + 1].email == Some(e);
    } else {
      assert records[0].email == Some(e);
    }
  }

  lemma {:induction false} LoadKey(inbounds: seq<Inbound>, t: string, e: string)
    requires (t, e) in Load(inbounds)
    ensures exists k :: 0 <= k < |inbounds| && IsVless(inbounds[k]) && inbounds[k].tag == Some(t)
                        && (t, e) in LoadClients(t, inbounds[k].clients)
  {
    if (t, e) in Load(inbounds[1..]) {
      LoadKey(inbounds[1..], t, e);
      var k :| 0 <= k < |inbounds[1..]| && IsVless(inbounds[1..][k]) && inbounds[1..][k].tag == Some(t)
               && (t, e) in LoadClients(t, inbounds[1..][k].clients);
      assert IsVless(inbounds[k + 1]) && inbounds[k + 1].tag == Some(t)
             && (t, e) in LoadClients(t, inbounds[k + 1].clients);
    } else {
      LoadClientsKey(inbounds[0].tag.value, inbounds[0].clients, t, e);
    }
  }

  /** With unique tags the whole map restricted to one tag is that inbound's own. */
  lemma {:induction false} LoadAt(inbounds: seq<Inbound>, k: nat, e: string)
    requires LiveReady(inbounds) && k < |inbounds| && IsVless(inbounds[k])
    ensures inbounds[k].tag.Some?
    ensures var t := inbounds[k].tag.value;
            var own := LoadClients(t, inbounds[k].clients);
            && ((t, e) in Load(inbounds) <==> (t, e) in own)
            && ((t, e) in own ==> Load(inbounds)[(t, e)] == own[(t, e)])
  {
    assert inbounds[k] in inbounds && inbounds[0] in inbounds;
    var t := inbounds[k].tag.value;
    assert forall i :: i in inbounds[1..] ==> i in inbounds;
    if k > 0 {
      LoadAt(inbounds[1..], k - 1, e);
      if IsVless(inbounds[0]) && (t, e) in LoadClients(inbounds[0].tag.value, inbounds[0].clients) {
        LoadClientsKey(inbounds[0].tag.value, inbounds[0].clients, t, e);
      }
    } else if (t, e) in Load(inbounds[1..]) {
      LoadKey(inbounds[1..], t, e);
    }
  }

  // --- the calls, pointwise ------------------------------------------------------------------

  lemma {:induction false} RemoveAllAt(live: Live, removals: seq<Removal>, t: string, e: string)
    ensures (t, e) in RemoveAll(live, removals) <==> (t, e) in live && Removal(t, e) !in removals
    ensures (t, e) in RemoveAll(live, removals) ==> RemoveAll(live, removals)[(t, e)] == live[(t, e)]
    decreases removals
  {
    if removals != [] {
      assert removals == [removals[0]] + removals[1..];
      RemoveAllAt(RemoveUser(live, removals[0]), removals[1..], t, e);
    }
  }

  predicate Adds(a: Addition, t: string, e: string) {
    a.tag.GetOr("") == t && a.record.email.GetOr("") == e
  }

  lemma {:induction false} AddAllAt(live: Live, additions: seq<Addition>, t: string, e: string, user: LiveUser)
    requires forall a :: a in additions && Adds(a, t, e) ==> UserOf(a.record) == user
    ensures (t, e) in AddAll(live, additions) <==> (t, e) in live || exists a :: a in additions && Adds(a, t, e)
    ensures (exists a :: a in additions && Adds(a, t, e)) ==> AddAll(live, additions)[(t, e)] == user
    ensures (t, e) in live && !(exists a :: a in additions && Adds(a, t, e))
            ==> AddAll(live, additions)[(t, e)] == live[(t, e)]
    decreases additions
  {
    if additions != [] {
      var head := additions[0];
      assert head in additions && additions == [head] + additions[1..];
      AddAllAt(AddUser(live, head), additions[1..], t, e, user);
    }
  }

  // --- what a plan's lists contain -----------------------------------------------------------

  lemma {:induction false} RemovalOrigin(
    existing: Dict<ClientRecord>, desired: Dict<ClientRecord>, tag: Option<string>, r: Removal)
    requires r in RemovalsFrom(existing, desired, tag)
    ensures exists j :: 0 <= j < |existing| && tag == Some(r.tag) && existing[j].1.email == Some(r.email)
                        && !Kept(existing[j].1, Get(desired, existing[j].0))
  {
    if r in RemovalsFrom(existing[1..], desired, tag) {
      RemovalOrigin(existing[1..], desired, tag, r);
      var j :| 0 <= j < |existing[1..]| && tag == Some(r.tag) && existing[1..][j].1.email == Some(r.email)
               && !Kept(existing[1..][j].1, Get(desired, existing[1..][j].0));
      assert existing[j + 1].1.email == Some(r.email);
    } else {
      assert existing[0].1.email == Some(r.email);
    }
  }

  lemma {:induction false} RemovalsOrigin(inbounds: seq<Inbound>, clients: seq<DesiredClient>, r: Removal)
    requires r in Removals(inbounds, clients)
    ensures exists k :: 0 <= k < |inbounds| && IsVless(inbounds[k]) && inbounds[k].tag == Some(r.tag)
                        && r in RemovalsFrom(Existing(inbounds[k]), Desired(clients, inbounds[k]), inbounds[k].tag)
  {
    if r in Removals(inbounds[1..], clients) {
      RemovalsOrigin(inbounds[1..], clients, r);
      var k :| 0 <= k < |inbounds[1..]| && IsVless(inbounds[1..][k]) && inbounds[1..][k].tag == Some(r.tag)
               && r in RemovalsFrom(Existing(inbounds[1..][k]), Desired(clients, inbounds[1..][k]), inbounds[1..][k].tag);
      assert inbounds[k + 1].tag == Some(r.tag);
    } else {
      RemovalOrigin(Existing(inbounds[0]), Desired(clients, inbounds[0]), inbounds[0].tag, r);
    }
  }

  predicate Unmatched(existing: Dict<ClientRecord>, pair: (string, ClientRecord)) {
    !(Get(existing, pair.0).Some? && Projection(Get(existing, pair.0).value) == pair.1)
  }

  lemma {:induction false} AdditionIff(
    desired: Dict<ClientRecord>, existing: Dict<ClientRecord>, inbound: Inbound, a: Addition)
    ensures a in AdditionsFrom(desired, existing, inbound) <==>
            exists j :: 0 <= j < |desired| && Unmatched(existing, desired[j])
                        && a == Addition(inbound.tag, inbound.port, desired[j].1)
  {
    if desired != [] {
      AdditionIff(desired[1..], existing, inbound, a);
      if j :| 0 <= j < |desired| && Unmatched(existing, desired[j])
              && a == Addition(inbound.tag, inbound.port, desired[j].1) {
        assert j > 0 ==> Unmatched(existing, desired[1..][j - 1]);
      }
      if j :| 0 <= j < |desired[1..]| && Unmatched(existing, desired[1..][j])
              && a == Addition(inbound.tag, inbound.port, desired[1..][j].1) {
        assert Unmatched(existing, desired[j + 1]);
      }
    }
  }

  lemma {:induction false} AdditionsIff(inbounds: seq<Inbound>, clients: seq<DesiredClient>, a: Addition)
    ensures a in Additions(inbounds, clients) <==>
            exists k :: 0 <= k < |inbounds| && IsVless(inbounds[k])
                        && a in AdditionsFrom(Desired(clients, inbounds[k]), Existing(inbounds[k]), inbounds[k])
  {
    if inbounds != [] {
      var tail := inbounds[1..];
      AdditionsIff(tail, clients, a);
      if k :| 0 <= k < |tail| && IsVless(tail[k])
              && a in AdditionsFrom(Desired(clients, tail[k]), Existing(tail[k]), tail[k]) {
        assert IsVless(inbounds[k + 1])
               && a in AdditionsFrom(Desired(clients, inbounds[k + 1]), Existing(inbounds[k + 1]), inbounds[k + 1]);
      }
      if k :| 0 <= k < |inbounds| && IsVless(inbounds[k])
              && a in AdditionsFrom(Desired(clients, inbounds[k]), Existing(inbounds[k]), inbounds[k]) {
        assert k > 0 ==> IsVless(tail[k - 1])
                         && a in AdditionsFrom(Desired(clients, tail[k - 1]), Existing(tail[k - 1]), tail[k - 1]);
      }
    }
  }

  // --- the delta refines a restart ---------------------------------------------------------

  ghost predicate Ready(inbounds: seq<Inbound>, clients: seq<DesiredClient>) {
    LiveReady(inbounds) && WellFormedClients(clients) && DistinctEmails(clients)
  }

  lemma NewReady(inbounds: seq<Inbound>, clients: seq<DesiredClient>)
    requires Ready(inbounds, clients)
    ensures LiveReady(NewInbounds(inbounds, clients))
  {
    var next := NewInbounds(inbounds, clients);
    forall i | i in next && IsVless(i) ensures LiveReadyInbound(i) {
      var k :| 0 <= k < |next| && next[k] == i;
      assert inbounds[k] in inbounds;
      forall r | r in i.clients ensures Truthy(r.id) && Truthy(r.email) {
        var j :| 0 <= j < |clients| && i.clients[j] == r;
        assert clients[j] in clients;
      }
    }
  }

  lemma LoadedAt(inbounds: seq<Inbound>, k: nat, j: nat)
    requires LiveReady(inbounds) && k < |inbounds| && IsVless(inbounds[k]) && j < |inbounds[k].clients|
    ensures inbounds[k].tag.Some? && inbounds[k].clients[j].email.Some?
    ensures var key := (inbounds[k].tag.value, inbounds[k].clients[j].email.value);
            key in Load(inbounds) && Load(inbounds)[key] == UserOf(inbounds[k].clients[j])
  {
    assert inbounds[k] in inbounds && LiveReadyInbound(inbounds[k]);
    LoadClientsAt(inbounds[k].tag.value, inbounds[k].clients, j);
    LoadAt(inbounds, k, inbounds[k].clients[j].email.value);
  }

  lemma LoadedFrom(inbounds: seq<Inbound>, t: string, e: string) returns (k: nat, j: nat)
    requires LiveReady(inbounds) && (t, e) in Load(inbounds)
    ensures k < |inbounds| && IsVless(inbounds[k]) && inbounds[k].tag == Some(t)
    ensures j < |inbounds[k].clients| && inbounds[k].clients[j].email == Some(e)
    ensures Load(inbounds)[(t, e)] == UserOf(inbounds[k].clients[j])
  {
    LoadKey(inbounds, t, e);
    k :| 0 <= k < |inbounds| && IsVless(inbounds[k]) && inbounds[k].tag == Some(t)
         && (t, e) in LoadClients(t, inbounds[k].clients);
    LoadClientsKey(t, inbounds[k].clients, t, e);
    j :| 0 <= j < |inbounds[k].clients| && inbounds[k].clients[j].email == Some(e);
    LoadedAt(inbounds, k, j);
  }

  lemma AddedIsNew(inbounds: seq<Inbound>, clients: seq<DesiredClient>, a: Addition)
    requires Ready(inbounds, clients) && a in Additions(inbounds, clients)
    ensures var next := Load(NewInbounds(inbounds, clients)); var key := (a.tag.GetOr(""), a.record.email.GetOr(""));
            key in next && next[key] == UserOf(a.record)
  {
    AdditionsIff(inbounds, clients, a);
    var k :| 0 <= k < |inbounds| && IsVless(inbounds[k])
             && a in AdditionsFrom(Desired(clients, inbounds[k]), Existing(inbounds[k]), inbounds[k]);
    AdditionIff(Desired(clients, inbounds[k]), Existing(inbounds[k]), inbounds[k], a);
    DesiredIs(clients, inbounds[k]);
    var pairs := DesiredPairs(clients, inbounds[k]);
    var j :| 0 <= j < |pairs| && Unmatched(Existing(inbounds[k]), pairs[j])
             && a == Addition(inbounds[k].tag, inbounds[k].port, pairs[j].1);
    NewReady(inbounds, clients);
    LoadedAt(NewInbounds(inbounds, clients), k, j);
  }

  /** A user in both configs that no addition mentions was live, unchanged and not removed. */
  lemma UnaddedWasThere(inbounds: seq<Inbound>, clients: seq<DesiredClient>, t: string, e: string)
    requires Ready(inbounds, clients)
    requires (t, e) in Load(NewInbounds(inbounds, clients))
    requires !exists a :: a in Additions(inbounds, clients) && Adds(a, t, e)
    ensures (t, e) in Load(inbounds) && Load(inbounds)[(t, e)] == Load(NewInbounds(inbounds, clients))[(t, e)]
    ensures Removal(t, e) !in Removals(inbounds, clients)
  {
    NewReady(inbounds, clients);
    var k, j := LoadedFrom(NewInbounds(inbounds, clients), t, e);
    var inbound := inbounds[k];
    assert inbound in inbounds;
    var m := MatchedRecord(inbounds, clients, k, j);
    LoadedAt(inbounds, k, m);
    if Removal(t, e) in Removals(inbounds, clients) {
      NotRemoved(inbounds, clients, k, j, m);
    }
  }

  lemma MatchedRecord(inbounds: seq<Inbound>, clients: seq<DesiredClient>, k: nat, j: nat) returns (m: nat)
    requires Ready(inbounds, clients) && k < |inbounds| && IsVless(inbounds[k]) && j < |clients|
    requires inbounds[k].tag.Some?
    requires !exists a :: a in Additions(inbounds, clients) && Adds(a, inbounds[k].tag.value, clients[j].email)
    ensures m < |inbounds[k].clients| && inbounds[k].clients[m].id == Some(clients[j].uuid)
    ensures Projection(inbounds[k].clients[m]) == BuildClientRecord(clients[j].uuid, clients[j].email, inbounds[k])
  {
    var inbound := inbounds[k];
    var pairs := DesiredPairs(clients, inbound);
    assert inbound in inbounds && LiveReadyInbound(inbound);
    DesiredIs(clients, inbound);
    ExistingIs(inbound);
    var existing := Existing(inbound);
    var a := Addition(inbound.tag, inbound.port, pairs[j].1);
    assert Adds(a, inbound.tag.value, clients[j].email);
    if Unmatched(existing, pairs[j]) {
      AdditionIff(Desired(clients, inbound), existing, inbound, a);
      AdditionsIff(inbounds, clients, a);
    }
    GetSome(existing, clients[j].uuid);
    m :| 0 <= m < |existing| && existing[m] == (clients[j].uuid, Get(existing, clients[j].uuid).value);
  }

  lemma KeptHere(inbound: Inbound, clients: seq<DesiredClient>, j: nat, m: nat)
    requires LiveReadyInbound(inbound) && WellFormedClients(clients) && j < |clients|
    requires m < |inbound.clients| && inbound.clients[m].id == Some(clients[j].uuid)
    requires Projection(inbound.clients[m]) == BuildClientRecord(clients[j].uuid, clients[j].email, inbound)
    ensures Removal(inbound.tag.value, clients[j].email)
            !in RemovalsFrom(Existing(inbound), Desired(clients, inbound), inbound.tag)
  {
    var existing, desired := Existing(inbound), Desired(clients, inbound);
    var r := Removal(inbound.tag.value, clients[j].email);
    ExistingIs(inbound);
    DesiredIs(clients, inbound);
    GetDistinct(desired, j);
    assert Kept(existing[m].1, Get(desired, existing[m].0));
    if r in RemovalsFrom(existing, desired, inbound.tag) {
      RemovalOrigin(existing, desired, inbound.tag, r);
    }
  }

  lemma NotRemoved(inbounds: seq<Inbound>, clients: seq<DesiredClient>, k: nat, j: nat, m: nat)
    requires Ready(inbounds, clients) && k < |inbounds| && IsVless(inbounds[k]) && j < |clients|
    requires m < |inbounds[k].clients| && inbounds[k].clients[m].id == Some(clients[j].uuid)
    requires Projection(inbounds[k].clients[m]) == BuildClientRecord(clients[j].uuid, clients[j].email, inbounds[k])
    ensures inbounds[k].tag.Some?
    ensures Removal(inbounds[k].tag.value, clients[j].email) !in Removals(inbounds, clients)
  {
    assert inbounds[k] in inbounds && LiveReadyInbound(inbounds[k]);
    var r := Removal(inbounds[k].tag.value, clients[j].email);
    KeptHere(inbounds[k], clients, j, m);
    if r in Removals(inbounds, clients) {
      RemovalsOrigin(inbounds, clients, r);
    }
  }

  lemma GoneIsRemoved(inbounds: seq<Inbound>, clients: seq<DesiredClient>, t: string, e: string)
    requires Ready(inbounds, clients)
    requires (t, e) in Load(inbounds) && (t, e) !in Load(NewInbounds(inbounds, clients))
    ensures Removal(t, e) in Removals(inbounds, clients)
  {
    var k, m := LoadedFrom(inbounds, t, e);
    var inbound := inbounds[k];
    assert inbound in inbounds && LiveReadyInbound(inbound);
    var record := inbound.clients[m];
    ExistingIs(inbound);
    DesiredIs(clients, inbound);
    NewReady(inbounds, clients);
    var desired := Get(Desired(clients, inbound), record.id.value);
    if Kept(record, desired) {
      GetSome(Desired(clients, inbound), record.id.value);
      var j :| 0 <= j < |clients| && DesiredPairs(clients, inbound)[j] == (record.id.value, desired.value);
      LoadedAt(NewInbounds(inbounds, clients), k, j);
    }
    RemovalMember(Existing(inbound), Desired(clients, inbound), inbound.tag, m);
    RemovalsMember(inbounds, clients, k, Removal(t, e));
  }

  /** Calls still to make never lead anywhere but to the new config's users, whether they start
      from the old config's users or, because Xray restarted by itself, from the new ones. */
  lemma DeltaAt(inbounds: seq<Inbound>, clients: seq<DesiredClient>, t: string, e: string)
    requires Ready(inbounds, clients)
    ensures var next := Load(NewInbounds(inbounds, clients)); var R := Removals(inbounds, clients);
            var A := Additions(inbounds, clients);
            && ((t, e) in Delta(Load(inbounds), R, A) <==> (t, e) in next)
            && ((t, e) in next ==> Delta(Load(inbounds), R, A)[(t, e)] == next[(t, e)])
  {
    var next := Load(NewInbounds(inbounds, clients));
    var R, A := Removals(inbounds, clients), Additions(inbounds, clients);
    RemoveAllAt(Load(inbounds), R, t, e);
    var user := if (t, e) in next then next[(t, e)] else LiveUser("", None);
    forall a | a in A && Adds(a, t, e) ensures (t, e) in next && UserOf(a.record) == user {
      AddedIsNew(inbounds, clients, a);
    }
    AddAllAt(RemoveAll(Load(inbounds), R), A, t, e, user);
    if (t, e) in next && !exists a :: a in A && Adds(a, t, e) {
      UnaddedWasThere(inbounds, clients, t, e);
    }
    if (t, e) !in next && (t, e) in Load(inbounds) {
      GoneIsRemoved(inbounds, clients, t, e);
    }
  }

  /** All calls made successfully: the running Xray accepts exactly what a restart would load. */
  lemma DeltaRefinesReload(inbounds: seq<Inbound>, clients: seq<DesiredClient>)
    requires Ready(inbounds, clients)
    ensures Delta(Load(inbounds), Removals(inbounds, clients), Additions(inbounds, clients))
            == Load(NewInbounds(inbounds, clients))
  {
    var next := Load(NewInbounds(inbounds, clients));
    var done := Delta(Load(inbounds), Removals(inbounds, clients), Additions(inbounds, clients));
    forall key: (string, string)
      ensures key in done <==> key in next
      ensures key in next ==> done[key] == next[key]
    {
      DeltaAt(inbounds, clients, key.0, key.1);
    }
  }

  /** If Xray restarted on the saved config half-way, the remaining calls do no harm. */
  lemma RestartAbsorbed(inbounds: seq<Inbound>, clients: seq<DesiredClient>, i: nat, j: nat)
    requires Ready(inbounds, clients)
    requires i <= |Removals(inbounds, clients)| && j <= |Additions(inbounds, clients)|
    requires i < |Removals(inbounds, clients)| ==> j == 0
    ensures Delta(Load(NewInbounds(inbounds, clients)), Removals(inbounds, clients)[i..],
                  Additions(inbounds, clients)[j..]) == Load(NewInbounds(inbounds, clients))
  {
    var next := Load(NewInbounds(inbounds, clients));
    var R, A := Removals(inbounds, clients)[i..], Additions(inbounds, clients)[j..];
    var done := Delta(next, R, A);
    assert j == 0 ==> A == Additions(inbounds, clients);
    forall key: (string, string)
      ensures key in done <==> key in next
      ensures key in next ==> done[key] == next[key]
    {
      var (t, e) := key;
      RemoveAllAt(next, R, t, e);
      var user := if key in next then next[key] else LiveUser("", None);
      forall a | a in A && Adds(a, t, e) ensures key in next && UserOf(a.record) == user {
        AddedIsNew(inbounds, clients, a);
      }
      AddAllAt(RemoveAll(next, R), A, t, e, user);
      if key in next && !exists a :: a in Additions(inbounds, clients) && Adds(a, t, e) {
        UnaddedWasThere(inbounds, clients, t, e);
      }
    }
  }
}
